/** Every reward call, on whatever stale view, keeps the invariant and both ledgers. */
module RewardSteps {
  import opened Options
  import opened Schema
  import opened RewardRules
  import opened Invariants
  import Totals

  /** The tables after one redemption row is written, its user's balance moves by `paid` and its
      reward's stock by `units`. */
  function Moved(db: Tables, id: string, row: Redemption, paid: int, units: int): Tables {
    db.(users := AddPoints(db.users, row.user, paid),
        rewards := AddStock(db.rewards, row.reward, units),
        redemptions := db.redemptions[id := row])
  }

  ghost predicate MayWrite(db: Tables, id: string, row: Redemption) {
    && RedemptionOk(db, row)
    && (id in db.redemptions ==> SameReceipt(db.redemptions[id], row))
    && (id !in db.redemptions ==> forall k :: k in db.redemptions ==> !Matches(db.redemptions[k], row.user, row.key))
  }

  lemma MovedKeys(rows: map<string, Redemption>, id: string, row: Redemption)
    requires UniqueKeys(rows)
    requires id in rows ==> rows[id].user == row.user && rows[id].key == row.key
    requires id !in rows ==> forall k :: k in rows ==> !Matches(rows[k], row.user, row.key)
    ensures UniqueKeys(rows[id := row])
  {
    var rows' := rows[id := row];
    forall a, b | a in rows' && b in rows' && rows'[a].user == rows'[b].user && rows'[a].key == rows'[b].key
      ensures a == b
    {
      assert a in rows ==> a != id && id !in rows ==> Matches(rows[a], rows'[a].user, rows'[a].key);
      assert b in rows ==> b != id && id !in rows ==> Matches(rows[b], rows'[b].user, rows'[b].key);
    }
  }

  lemma MovedValid(db: Tables, id: string, row: Redemption, paid: int, units: int)
    requires Valid(db) && MayWrite(db, id, row)
    requires db.users[row.user].points + paid >= 0
    requires db.rewards[row.reward].stock.Some? ==> db.rewards[row.reward].stock.value + units >= 0
    ensures Valid(Moved(db, id, row, paid, units))
  {
    var later := Moved(db, id, row, paid, units);
    MovedKeys(db.redemptions, id, row);
    forall k | k in later.redemptions ensures RedemptionOk(later, later.redemptions[k]) {
      assert k in db.redemptions ==> RedemptionOk(db, db.redemptions[k]);
    }
    forall op | op in later.sessions ensures SessionOk(later, op, later.sessions[op]) {
      assert SessionOk(db, op, db.sessions[op]);
    }
  }

  lemma MovedExtends(db: Tables, id: string, row: Redemption, paid: int, units: int)
    requires MayWrite(db, id, row)
    ensures Extends(db, Moved(db, id, row, paid, units))
  {
  }

  lemma MovedBalanced(db: Tables, id: string, row: Redemption, paid: int, units: int)
    requires MayWrite(db, id, row)
    requires paid ==
      (if id in db.redemptions then SpentPoints(row.user)(db.redemptions[id]) else 0) - SpentPoints(row.user)(row)
    requires units ==
      (if id in db.redemptions then HeldUnits(row.reward)(db.redemptions[id]) else 0) - HeldUnits(row.reward)(row)
    ensures Balanced(db, Moved(db, id, row, paid, units))
  {
    var later := Moved(db, id, row, paid, units);
    forall u | u in db.users && u in later.users ensures OpeningBalance(later, u) == OpeningBalance(db, u) {
      Totals.SumUpdate(db.redemptions, id, row, SpentPoints(u));
    }
    forall r | r in db.rewards && r in later.rewards && db.rewards[r].stock.Some? && later.rewards[r].stock.Some?
      ensures OpeningStock(later, r) == OpeningStock(db, r)
    {
      Totals.SumUpdate(db.redemptions, id, row, HeldUnits(r));
    }
  }

  /** If the balance and the stock move against what the row holds, both ledgers stand still. */
  lemma OneRow(db: Tables, id: string, row: Redemption, paid: int, units: int)
    requires Valid(db) && MayWrite(db, id, row)
    requires db.users[row.user].points + paid >= 0
    requires db.rewards[row.reward].stock.Some? ==> db.rewards[row.reward].stock.value + units >= 0
    requires paid ==
      (if id in db.redemptions then SpentPoints(row.user)(db.redemptions[id]) else 0) - SpentPoints(row.user)(row)
    requires units ==
      (if id in db.redemptions then HeldUnits(row.reward)(db.redemptions[id]) else 0) - HeldUnits(row.reward)(row)
    ensures Keeps(db, Moved(db, id, row, paid, units))
  {
    MovedValid(db, id, row, paid, units);
    MovedExtends(db, id, row, paid, units);
    MovedBalanced(db, id, row, paid, units);
  }

  /** A redemption that commits writes one new row and takes exactly its price and one unit. */
  lemma RedeemShape(db: Tables, view: Tables, a: RedeemArgs) returns (row: Redemption)
    requires RedeemEffect(db, view, a).reply.Committed?
    requires a.reward in view.rewards && a.reward in db.rewards ==>
      SameTerms(view.rewards[a.reward], db.rewards[a.reward])
    ensures RedeemEffect(db, view, a) == Outcome(Moved(db, a.id, row, -row.spent, -1), Committed(a.id))
    ensures a.id !in db.redemptions && MayWrite(db, a.id, row) && !Returned(row.status)
    ensures Matches(row, a.user, a.key) && row.reward == a.reward
    ensures row.spent == db.rewards[a.reward].cost && row.spent <= db.users[a.user].points
    ensures db.rewards[a.reward].stock.Some? ==> db.rewards[a.reward].stock.value > 0
  {
    row := RedeemEffect(db, view, a).db.redemptions[a.id];
  }

  lemma OneNewRow(db: Tables, id: string, row: Redemption)
    requires Valid(db) && MayWrite(db, id, row) && id !in db.redemptions && !Returned(row.status)
    requires row.spent <= db.users[row.user].points
    requires db.rewards[row.reward].stock.Some? ==> db.rewards[row.reward].stock.value > 0
    ensures Keeps(db, Moved(db, id, row, -row.spent, -1))
  {
    hide Keeps, Moved, Valid;
    OneRow(db, id, row, -row.spent, -1);
  }

  lemma RedeemKeeps(db: Tables, view: Tables, a: RedeemArgs)
    requires Valid(db) && Extends(view, db)
    requires RedeemEffect(db, view, a).reply.Committed?
    ensures Keeps(db, RedeemEffect(db, view, a).db)
  {
    var row := RedeemShape(db, view, a);
    OneNewRow(db, a.id, row);
  }

  /** A row that leaves the held statuses gives back exactly its points and its unit. */
  lemma GiveBackKeeps(db: Tables, view: Tables, id: string, row: Redemption)
    requires Valid(db) && Extends(view, db) && id in view.redemptions
    requires !Returned(db.redemptions[id].status) && Returned(row.status)
    requires row == db.redemptions[id].(status := row.status, note := row.note)
    ensures Keeps(db, GiveBack(db, view.redemptions[id], id, row))
  {
    assert SameReceipt(view.redemptions[id], db.redemptions[id]);
    assert RedemptionOk(db, db.redemptions[id]);
    OneRow(db, id, row, row.spent, 1);
  }

  lemma MovedNothing(db: Tables, id: string, row: Redemption)
    ensures Moved(db, id, row, 0, 0) == db.(redemptions := db.redemptions[id := row])
  {
    assert AddPoints(db.users, row.user, 0) == db.users;
    assert AddStock(db.rewards, row.reward, 0) == db.rewards;
  }

  /** Writing a status that holds its points keeps everything, if the row still held them. */
  lemma RestatusKeeps(db: Tables, id: string, row: Redemption)
    requires Valid(db) && id in db.redemptions
    requires !Returned(db.redemptions[id].status) && !Returned(row.status)
    requires row == db.redemptions[id].(status := row.status, note := row.note)
    ensures Keeps(db, db.(redemptions := db.redemptions[id := row]))
  {
    assert RedemptionOk(db, db.redemptions[id]);
    OneRow(db, id, row, 0, 0);
    MovedNothing(db, id, row);
  }

  lemma RejectKeeps(db: Tables, view: Tables, id: string, note: string)
    requires Valid(db) && Extends(view, db) && RejectEffect(db, view, id, note).reply.Committed?
    ensures Keeps(db, RejectEffect(db, view, id, note).db)
  {
    GiveBackKeeps(db, view, id,
                  db.redemptions[id].(status := Rejected, note := Some(StoredNote(note))));
  }

  lemma CancelKeeps(db: Tables, view: Tables, id: string, user: string)
    requires Valid(db) && Extends(view, db) && CancelEffect(db, view, id, user).reply.Committed?
    ensures Keeps(db, CancelEffect(db, view, id, user).db)
  {
    GiveBackKeeps(db, view, id, db.redemptions[id].(status := Cancelled));
  }

  // ---- reading an old state does not change what is written -----------------------------------

  lemma StaleRedeem(db: Tables, view: Tables, a: RedeemArgs)
    requires RedeemEffect(db, view, a).reply.Committed?
    requires a.reward in view.rewards && a.reward in db.rewards ==>
      SameTerms(view.rewards[a.reward], db.rewards[a.reward])
    ensures RedeemEffect(db, db, a) == RedeemEffect(db, view, a)
  {
    var row := RedeemShape(db, view, a);
  }

  lemma StaleReject(db: Tables, view: Tables, id: string, note: string)
    requires RejectEffect(db, view, id, note).reply.Committed?
    requires id in view.redemptions && id in db.redemptions ==> SameReceipt(view.redemptions[id], db.redemptions[id])
    ensures RejectEffect(db, db, id, note) == RejectEffect(db, view, id, note)
  {
  }

  lemma StaleCancel(db: Tables, view: Tables, id: string, user: string)
    requires CancelEffect(db, view, id, user).reply.Committed?
    requires id in view.redemptions && id in db.redemptions ==> SameReceipt(view.redemptions[id], db.redemptions[id])
    ensures CancelEffect(db, db, id, user) == CancelEffect(db, view, id, user)
  {
  }
}
