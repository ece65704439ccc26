/** One redemption per (user, idempotency key), however the calls that share it interleave. */
module Idempotency {
  import opened Schema
  import opened RewardRules
  import opened Invariants
  import opened Transactions
  import opened Runs
  import RewardSteps
  import DepositRules

  /** The client was given redemption `id` for its (user, key). */
  predicate Receipt(e: Entry, user: string, key: string, id: string) {
    e.txn.Redeem? && e.txn.args.user == user && e.txn.args.key == key
    && (e.reply == Committed(id) || e.reply == Replayed(id))
  }

  /** The call took the points and the unit of a redemption under this user and key. */
  predicate IsPurchase(e: Entry, user: string, key: string) {
    e.txn.Redeem? && e.txn.args.user == user && e.txn.args.key == key && e.reply.Committed?
  }

  function Purchases(log: seq<Entry>, user: string, key: string): nat {
    if log == [] then 0 else (if IsPurchase(log[0], user, key) then 1 else 0) + Purchases(log[1..], user, key)
  }

  ghost predicate Holds(db: Tables, id: string, user: string, key: string) {
    id in db.redemptions && Matches(db.redemptions[id], user, key)
  }

  lemma HoldsStays(db: Tables, later: Tables, id: string, user: string, key: string)
    requires Holds(db, id, user, key) && Extends(db, later)
    ensures Holds(later, id, user, key)
  {
    assert SameReceipt(db.redemptions[id], later.redemptions[id]);
  }

  lemma AnswerIsHeld(db: Tables, view: Tables, a: RedeemArgs, id: string)
    requires Extends(view, db)
    requires RedeemEffect(db, view, a).reply == Committed(id) || RedeemEffect(db, view, a).reply == Replayed(id)
    ensures Holds(RedeemEffect(db, view, a).db, id, a.user, a.key)
  {
    var seen := Lookup(view.redemptions, a.user, a.key);
    if seen.Some? {
      HoldsStays(view, db, id, a.user, a.key);
    } else if RedeemEffect(db, view, a).reply.Committed? {
      RedeemIsHeld(db, view, a);
    }
  }

  lemma RedeemIsHeld(db: Tables, view: Tables, a: RedeemArgs)
    requires RedeemEffect(db, view, a).reply.Committed? && Extends(view, db)
    ensures Holds(RedeemEffect(db, view, a).db, a.id, a.user, a.key)
    ensures Lookup(db.redemptions, a.user, a.key).None?
  {
    var row := RewardSteps.RedeemShape(db, view, a);
  }

  /** Whatever redemption a client was given is in the final tables under its user and key. */
  lemma {:induction false} ReceiptIsHeld(sys: System, ms: seq<Move>, e: Entry, user: string, key: string, id: string)
    requires SystemOk(sys) && e in Log(sys, ms) && Receipt(e, user, key, id)
    ensures Holds(Run(sys, ms).db, id, user, key)
    decreases |ms|
  {
    var next := Next(sys, ms[0]);
    NextKeeps(sys, ms[0]);
    if e in Answer(sys, ms[0]) {
      var call := sys.open[ms[0].client];
      AnswerIsHeld(sys.db, call.view, call.txn.args, id);
      RunKeeps(next, ms[1..]);
      HoldsStays(next.db, Run(next, ms[1..]).db, id, user, key);
    } else {
      ReceiptIsHeld(next, ms[1..], e, user, key, id);
    }
  }

  /** All clients that were given a redemption for one (user, key) were given the same one. */
  lemma SameKeySameRedemption(sys: System, ms: seq<Move>, e: Entry, f: Entry,
                              user: string, key: string, id: string, other: string)
    requires SystemOk(sys) && e in Log(sys, ms) && f in Log(sys, ms)
    requires Receipt(e, user, key, id) && Receipt(f, user, key, other)
    ensures id == other
  {
    ReceiptIsHeld(sys, ms, e, user, key, id);
    ReceiptIsHeld(sys, ms, f, user, key, other);
    RunKeeps(sys, ms);
  }

  lemma PurchasesConcat(a: seq<Entry>, b: seq<Entry>, user: string, key: string)
    requires |a| <= 1
    ensures Purchases(a + b, user, key) == Purchases(a, user, key) + Purchases(b, user, key)
  {
    if a == [] {
      assert a + b == b;
    } else {
      assert (a + b)[1..] == b;
    }
  }

  /** Some row has this user and key. */
  ghost predicate Bought(db: Tables, user: string, key: string) {
    exists id :: Holds(db, id, user, key)
  }

  lemma RedeemBuys(db: Tables, view: Tables, a: RedeemArgs, user: string, key: string)
    requires Extends(view, db) && RedeemEffect(db, view, a).reply.Committed?
    ensures var later := RedeemEffect(db, view, a).db;
      if user == a.user && key == a.key then Bought(later, user, key) && !Bought(db, user, key)
      else Bought(later, user, key) <==> Bought(db, user, key)
  {
    var later := RedeemEffect(db, view, a).db;
    RedeemIsHeld(db, view, a);
    var row := RewardSteps.RedeemShape(db, view, a);
    assert later.redemptions == db.redemptions[a.id := row];
    if !(user == a.user && key == a.key) {
      forall id ensures Holds(later, id, user, key) <==> Holds(db, id, user, key) {
      }
    }
  }

  lemma SameKeys(rows: map<string, Redemption>, later: map<string, Redemption>, id: string)
    requires id in rows && id in later && later == rows[id := later[id]]
    ensures later.Keys == rows.Keys
  {
  }

  lemma OtherCallsKeepRows(db: Tables, view: Tables, t: Txn)
    requires !t.Redeem? && Execute(db, view, t).reply.Committed?
    ensures Execute(db, view, t).db.redemptions.Keys == db.redemptions.Keys
  {
    hide DepositRules.Apply;
    var later := Execute(db, view, t).db.redemptions;
    match t
    case CancelCode(id, _) => SameKeys(db.redemptions, later, id);
    case Reject(id, _) => SameKeys(db.redemptions, later, id);
    case MarkUsed(id) => SameKeys(db.redemptions, later, id);
    case Approve(id, _) => SameKeys(db.redemptions, later, id);
    case Fulfill(id, _) => SameKeys(db.redemptions, later, id);
    case Deposit(_) =>
  }

  lemma OtherCallsBuyNothing(db: Tables, later: Tables, user: string, key: string)
    requires Extends(db, later) && later.redemptions.Keys == db.redemptions.Keys
    ensures Bought(later, user, key) <==> Bought(db, user, key)
  {
    forall id ensures Holds(later, id, user, key) <==> Holds(db, id, user, key) {
      assert id in db.redemptions ==> SameReceipt(db.redemptions[id], later.redemptions[id]);
    }
  }

  /** A call is a purchase of (user, key) exactly when it brings the first row that has them. */
  lemma PurchaseStep(db: Tables, view: Tables, t: Txn, user: string, key: string)
    requires Valid(db) && Extends(view, db)
    ensures (if IsPurchase(Entry(t, Execute(db, view, t).reply), user, key) then 1 else 0)
         == (if Bought(Execute(db, view, t).db, user, key) then 1 else 0) - (if Bought(db, user, key) then 1 else 0)
  {
    hide RedeemEffect, Valid, Extends, Bought;
    if !Execute(db, view, t).reply.Committed? {
      RefusedChangesNothing(db, view, t);
    } else if t.Redeem? {
      RedeemBuys(db, view, t.args, user, key);
    } else {
      ExecuteKeeps(db, view, t);
      OtherCallsKeepRows(db, view, t);
      OtherCallsBuyNothing(db, Execute(db, view, t).db, user, key);
    }
  }

  /** Points and stock are taken exactly once per (user, key), however its calls interleave: once
      if a run ends with a row that has them and did not start with one, and otherwise never. */
  lemma {:induction false} PurchasedExactlyOnce(sys: System, ms: seq<Move>, user: string, key: string)
    requires SystemOk(sys)
    ensures Purchases(Log(sys, ms), user, key)
         == (if Bought(Run(sys, ms).db, user, key) then 1 else 0) - (if Bought(sys.db, user, key) then 1 else 0)
    decreases |ms|
  {
    hide Execute, Valid, Extends, Bought;
    if ms != [] {
      var next := Next(sys, ms[0]);
      var head := Answer(sys, ms[0]);
      NextKeeps(sys, ms[0]);
      if head != [] {
        assert head[1..] == [];
        PurchaseStep(sys.db, sys.open[ms[0].client].view, head[0].txn, user, key);
      }
      PurchasedExactlyOnce(next, ms[1..], user, key);
      PurchasesConcat(head, Log(next, ms[1..]), user, key);
    }
  }
}
