/** The rewards service: guarded updates of balances, stock and redemption rows in place. */
module RewardService {
  import opened Options
  import opened Schema
  import opened Store
  import opened RewardRules
  import Invariants

  /** Draws codes until one is free, ten times at most. */
  method GenerateCode(rows: map<string, Redemption>, draws: seq<string>) returns (code: Option<string>)
    ensures code == FirstFreeCode(rows, draws, CODE_ATTEMPTS)
  {
    var i := 0;
    while i < CODE_ATTEMPTS && i < |draws|
      invariant 0 <= i <= CODE_ATTEMPTS && i <= |draws|
      invariant FirstFreeCode(rows, draws[i..], CODE_ATTEMPTS - i) == FirstFreeCode(rows, draws, CODE_ATTEMPTS)
    {
      if !CodeTaken(rows, draws[i]) {
        return Some(draws[i]);
      }
      assert draws[i..][1..] == draws[i + 1..];
      i := i + 1;
    }
    code := None;
  }

  method Redeem(db: Database, view: Tables, a: RedeemArgs) returns (reply: Reply)
    requires Invariants.UniqueKeys(view.redemptions) && Invariants.UniqueKeys(db.redemptions)
    modifies db
    ensures Outcome(db.Contents(), reply) == RedeemEffect(old(db.Contents()), view, a)
  {
    var seen := FindRedemption(view.redemptions, a.user, a.key);
    if seen.Some? {
      return Replayed(seen.value);
    }
    if a.reward !in view.rewards {
      return Refusal(NoSuchReward);
    }
    var r := view.rewards[a.reward];
    var problem := CatalogueProblem(r, a.destination);
    if problem.Some? {
      return Refusal(problem.value);
    }
    var saved := db.Contents();
    if r.stock.Some? {
      if !(a.reward in db.rewards && db.rewards[a.reward].stock.Some? && db.rewards[a.reward].stock.value > 0) {
        return Refusal(SoldOut);
      }
      db.rewards := AddStock(db.rewards, a.reward, -1);
    }
    if a.user !in db.users || db.users[a.user].points < r.cost {
      db.Rollback(saved);
      return Refusal(NotEnoughPoints);
    }
    db.users := AddPoints(db.users, a.user, -r.cost);
    var code := None;
    if !IsCash(r) {
      code := GenerateCode(db.redemptions, a.draws);
      if code.None? {
        db.Rollback(saved);
        return Refusal(NoCodeLeft);
      }
    }
    var holder := FindRedemption(db.redemptions, a.user, a.key);
    if a.id in db.redemptions || holder.Some? || a.reward !in db.rewards {
      db.Rollback(saved);
      var winner := FindRedemption(db.redemptions, a.user, a.key);
      return if winner.Some? then Replayed(winner.value) else Refusal(WriteConflict);
    }
    db.redemptions := db.redemptions[a.id := NewRow(a, r, code)];
    reply := Committed(a.id);
  }

  /** Returns one reserved unit to a limited reward. */
  method RestoreReservedStock(db: Database, reward: string)
    modifies db`rewards
    ensures db.rewards == AddStock(old(db.rewards), reward, 1)
  {
    if reward in db.rewards && db.rewards[reward].stock.Some? {
      var row := db.rewards[reward];
      db.rewards := db.rewards[reward := row.(stock := Some(row.stock.value + 1))];
    }
  }

  method AdminReject(db: Database, view: Tables, id: string, note: string) returns (reply: Reply)
    modifies db
    ensures Outcome(db.Contents(), reply) == RejectEffect(old(db.Contents()), view, id, note)
  {
    if id !in view.redemptions {
      return Refusal(NoSuchRedemption);
    }
    var seen := view.redemptions[id];
    var saved := db.Contents();
    if id !in db.redemptions || !(db.redemptions[id].status.Pending? || db.redemptions[id].status.Approved?) {
      return Refusal(WrongStatus);
    }
    db.redemptions := db.redemptions[id := db.redemptions[id].(status := Rejected)];
    if seen.user !in db.users {
      db.Rollback(saved);
      return Refusal(NoAccount);
    }
    db.users := AddPoints(db.users, seen.user, seen.spent);
    db.redemptions := db.redemptions[id := db.redemptions[id].(note := Some(StoredNote(note)))];
    RestoreReservedStock(db, seen.reward);
    reply := Committed(id);
  }

  method UserCancelAvailable(db: Database, view: Tables, id: string, user: string) returns (reply: Reply)
    modifies db
    ensures Outcome(db.Contents(), reply) == CancelEffect(old(db.Contents()), view, id, user)
  {
    if id !in view.redemptions || view.redemptions[id].user != user {
      return Refusal(NoSuchRedemption);
    }
    var seen := view.redemptions[id];
    if id !in db.redemptions || !db.redemptions[id].status.Available? {
      return Refusal(WrongStatus);
    }
    db.redemptions := db.redemptions[id := db.redemptions[id].(status := Cancelled)];
    db.users := AddPoints(db.users, seen.user, seen.spent);
    RestoreReservedStock(db, seen.reward);
    reply := Committed(id);
  }

  method MarkUsed(db: Database, view: Tables, id: string) returns (reply: Reply)
    modifies db
    ensures Outcome(db.Contents(), reply) == MarkUsedEffect(old(db.Contents()), view, id)
  {
    if id !in view.redemptions {
      return Refusal(NoSuchRedemption);
    }
    if id !in db.redemptions || !db.redemptions[id].status.Available? {
      return Refusal(WrongStatus);
    }
    db.redemptions := db.redemptions[id := db.redemptions[id].(status := Used)];
    reply := Committed(id);
  }

  method ApproveRedemption(db: Database, id: string, note: string) returns (reply: Reply)
    modifies db
    ensures Outcome(db.Contents(), reply) == ApproveEffect(old(db.Contents()), old(db.Contents()), id, note)
  {
    if id !in db.redemptions {
      return Refusal(NoSuchRedemption);
    }
    if !db.redemptions[id].status.Pending? {
      return Refusal(WrongStatus);
    }
    db.redemptions := db.redemptions[id := db.redemptions[id].(status := Approved)];
    db.redemptions := db.redemptions[id := db.redemptions[id].(note := CleanNote(note))];
    reply := Committed(id);
  }

  method FulfillRedemption(db: Database, id: string, note: string) returns (reply: Reply)
    modifies db
    ensures Outcome(db.Contents(), reply) == FulfillEffect(old(db.Contents()), old(db.Contents()), id, note)
  {
    if id !in db.redemptions {
      return Refusal(NoSuchRedemption);
    }
    var row := db.redemptions[id];
    if row.reward !in db.rewards || db.rewards[row.reward].category != "cash" {
      return Refusal(NotCash);
    }
    if !(row.status.Pending? || row.status.Approved?) {
      return Refusal(WrongStatus);
    }
    db.redemptions := db.redemptions[id := row.(status := Fulfilled, note := CleanNote(note))];
    reply := Committed(id);
  }
}
