/** Properties of whole runs: any number of clients, any interleaving, arbitrarily stale reads. */
module Runs {
  import opened Schema
  import opened RewardRules
  import opened Invariants
  import opened Transactions
  import opened RewardSteps
  import opened DepositSteps
  import Totals
  import DepositRules

  /** The tables are valid and every open call read an earlier state of them. */
  ghost predicate SystemOk(sys: System) {
    Valid(sys.db) && forall c :: c in sys.open ==> Extends(sys.open[c].view, sys.db)
  }

  // ---- one step -----------------------------------------------------------------------------

  /** A call that wrote nothing changed nothing. */
  lemma RefusedChangesNothing(db: Tables, view: Tables, t: Txn)
    requires !Execute(db, view, t).reply.Committed?
    ensures Execute(db, view, t).db == db
  {
  }

  lemma RewardKeeps(db: Tables, view: Tables, t: Txn)
    requires Valid(db) && Extends(view, db) && !t.Deposit?
    requires Execute(db, view, t).reply.Committed?
    ensures Keeps(db, Execute(db, view, t).db)
  {
    hide Keeps, Valid, Extends, RedeemEffect, CancelEffect, RejectEffect, DepositRules.Apply;
    match t
    case Redeem(args) => RedeemKeeps(db, view, args);
    case CancelCode(id, user) => CancelKeeps(db, view, id, user);
    case Reject(id, note) => RejectKeeps(db, view, id, note);
    case MarkUsed(id) => RestatusKeeps(db, id, db.redemptions[id].(status := Used));
    case Approve(id, note) => RestatusKeeps(db, id, db.redemptions[id].(status := Approved, note := CleanNote(note)));
    case Fulfill(id, note) => RestatusKeeps(db, id, db.redemptions[id].(status := Fulfilled, note := CleanNote(note)));
  }

  lemma ExecuteKeeps(db: Tables, view: Tables, t: Txn)
    requires Valid(db) && Extends(view, db)
    ensures Keeps(db, Execute(db, view, t).db)
  {
    if !Execute(db, view, t).reply.Committed? {
      RefusedChangesNothing(db, view, t);
      KeepsItself(db);
    } else if t.Deposit? {
      DepositKeeps(db, t.step);
    } else {
      RewardKeeps(db, view, t);
    }
  }

  /** A call that wrote did the same as if it had read the current tables. */
  lemma StaleReadIsHarmless(db: Tables, view: Tables, t: Txn)
    requires Valid(db) && Extends(view, db)
    requires Execute(db, view, t).reply.Committed?
    ensures Execute(db, db, t) == Execute(db, view, t)
  {
    match t
    case Redeem(a) => StaleRedeem(db, view, a);
    case CancelCode(id, user) => StaleCancel(db, view, id, user);
    case Reject(id, note) => StaleReject(db, view, id, note);
    case _ =>
  }

  // ---- whole runs ---------------------------------------------------------------------------

  lemma NextKeeps(sys: System, m: Move)
    requires SystemOk(sys)
    ensures SystemOk(Next(sys, m)) && Keeps(sys.db, Next(sys, m).db)
  {
    KeepsItself(sys.db);
    if m.Commit? && m.client in sys.open {
      ExecuteKeeps(sys.db, sys.open[m.client].view, sys.open[m.client].txn);
      var next := Next(sys, m);
      forall c | c in next.open ensures Extends(next.open[c].view, next.db) {
        ExtendsTransitive(sys.open[c].view, sys.db, next.db);
      }
    }
  }

  lemma {:induction false} RunKeeps(sys: System, ms: seq<Move>)
    requires SystemOk(sys)
    ensures SystemOk(Run(sys, ms)) && Keeps(sys.db, Run(sys, ms).db)
    decreases |ms|
  {
    if ms == [] {
      KeepsItself(sys.db);
    } else {
      var next := Next(sys, ms[0]);
      NextKeeps(sys, ms[0]);
      RunKeeps(next, ms[1..]);
      KeepsTransitive(sys.db, next.db, Run(next, ms[1..]).db);
    }
  }

  /** The points law: in every reachable state a balance is its opening part plus confirmed
      deposits plus challenge rewards minus redemptions not given back, and is never negative. */
  lemma PointsLaw(sys: System, ms: seq<Move>, u: string)
    requires SystemOk(sys) && u in sys.db.users
    ensures var db := Run(sys, ms).db;
      && u in db.users
      && db.users[u].points == OpeningBalance(sys.db, u) + Totals.Sum(db.events, EventPoints(u))
                               + Totals.Sum(db.claims, ClaimPoints(u)) - Totals.Sum(db.redemptions, SpentPoints(u))
      && db.users[u].points >= 0
  {
    RunKeeps(sys, ms);
  }

  /** The stock law: the shelf and the held redemptions of a limited reward add up to the opening
      stock in every reachable state, and the shelf is never negative. */
  lemma StockLaw(sys: System, ms: seq<Move>, r: string)
    requires SystemOk(sys) && r in sys.db.rewards && sys.db.rewards[r].stock.Some?
    ensures var db := Run(sys, ms).db;
      && r in db.rewards && db.rewards[r].stock.Some? && db.rewards[r].stock.value >= 0
      && db.rewards[r].stock.value + Totals.Sum(db.redemptions, HeldUnits(r)) == OpeningStock(sys.db, r)
  {
    RunKeeps(sys, ms);
    var db := Run(sys, ms).db;
    assert SameTerms(sys.db.rewards[r], db.rewards[r]);
    assert StockOk(db.rewards[r]);
  }

  /** Serializability: the final tables are those of the calls that wrote, run one after the
      other in commit order with fresh reads. */
  lemma {:induction false} Serializable(sys: System, ms: seq<Move>)
    requires SystemOk(sys)
    ensures Run(sys, ms).db == Serial(sys.db, Effective(Log(sys, ms)))
    decreases |ms|
  {
    if ms != [] {
      var next := Next(sys, ms[0]);
      var head := Answer(sys, ms[0]);
      var tail := Log(next, ms[1..]);
      NextKeeps(sys, ms[0]);
      Serializable(next, ms[1..]);
      EffectiveConcat(head, tail);
      SerialConcat(sys.db, Effective(head), Effective(tail));
      assert Serial(sys.db, Effective(head)) == next.db by {
        if head != [] {
          var call := sys.open[ms[0].client];
          if head[0].reply.Committed? {
            StaleReadIsHarmless(sys.db, call.view, call.txn);
            assert Effective(head) == [call.txn];
            assert Serial(next.db, [call.txn][1..]) == next.db;
          } else {
            RefusedChangesNothing(sys.db, call.view, call.txn);
          }
        }
      }
    }
  }
}
