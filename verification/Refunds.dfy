/** One refund per redemption, and what the unguarded admin writes would need to keep it so. */
module Refunds {
  import opened Options
  import opened Schema
  import opened RewardRules
  import opened Invariants
  import opened Transactions
  import Totals
  import RewardSteps
  import Runs
  import DepositSteps
  import DepositRules

  predicate IsRefund(e: Entry, id: string) {
    ((e.txn.Reject? && e.txn.id == id) || (e.txn.CancelCode? && e.txn.id == id)) && e.reply.Committed?
  }

  function Refunds(log: seq<Entry>, id: string): nat {
    if log == [] then 0 else (if IsRefund(log[0], id) then 1 else 0) + Refunds(log[1..], id)
  }

  lemma RefundsConcat(a: seq<Entry>, b: seq<Entry>, id: string)
    requires |a| <= 1
    ensures Refunds(a + b, id) == Refunds(a, id) + Refunds(b, id)
  {
    if a == [] {
      assert a + b == b;
    } else {
      assert (a + b)[1..] == b;
    }
  }

  predicate GivenBack(db: Tables, id: string) {
    id in db.redemptions && Returned(db.redemptions[id].status)
  }

  lemma RedeemReturnsNothing(db: Tables, view: Tables, a: RedeemArgs, id: string)
    requires Extends(view, db)
    ensures GivenBack(RedeemEffect(db, view, a).db, id) <==> GivenBack(db, id)
  {
    if RedeemEffect(db, view, a).reply.Committed? {
      assert SameTerms(view.rewards[a.reward], db.rewards[a.reward]);
      var row := RewardSteps.RedeemShape(db, view, a);
    }
  }

  predicate ReturnsOne(db: Tables, out: Outcome, i: string, id: string) {
    GivenBack(out.db, id) == (GivenBack(db, id) || (out.reply.Committed? && i == id))
    && (out.reply.Committed? && i == id ==> !GivenBack(db, id))
  }

  predicate ReturnsNone(db: Tables, out: Outcome, id: string) {
    GivenBack(out.db, id) == GivenBack(db, id)
  }

  lemma RejectReturns(db: Tables, view: Tables, i: string, note: string, id: string)
    ensures ReturnsOne(db, RejectEffect(db, view, i, note), i, id)
  {
    var out := RejectEffect(db, view, i, note);
    if out.reply.Committed? {
      assert out.db.redemptions == db.redemptions[i := out.db.redemptions[i]];
      assert out.db.redemptions[i].status.Rejected?;
    }
  }

  lemma CancelReturns(db: Tables, view: Tables, i: string, user: string, id: string)
    ensures ReturnsOne(db, CancelEffect(db, view, i, user), i, id)
  {
    var out := CancelEffect(db, view, i, user);
    if out.reply.Committed? {
      assert out.db.redemptions == db.redemptions[i := out.db.redemptions[i]];
      assert out.db.redemptions[i].status.Cancelled?;
    }
  }

  lemma MarkUsedReturns(db: Tables, view: Tables, i: string, id: string)
    ensures ReturnsNone(db, MarkUsedEffect(db, view, i), id)
  {
  }

  lemma ApproveReturns(db: Tables, i: string, note: string, id: string)
    ensures ReturnsNone(db, ApproveEffect(db, db, i, note), id)
  {
    if ApproveEffect(db, db, i, note).reply.Committed? {
      var row := db.redemptions[i].(status := Approved, note := CleanNote(note));
      assert ApproveEffect(db, db, i, note).db.redemptions == db.redemptions[i := row];
    }
  }

  lemma FulfillReturns(db: Tables, i: string, note: string, id: string)
    ensures ReturnsNone(db, FulfillEffect(db, db, i, note), id)
  {
    if FulfillEffect(db, db, i, note).reply.Committed? {
      var row := db.redemptions[i].(status := Fulfilled, note := CleanNote(note));
      assert FulfillEffect(db, db, i, note).db.redemptions == db.redemptions[i := row];
    }
  }

  /** A call refunds `id` exactly when it moves `id` into a status that is given back. */
  lemma RefundStep(db: Tables, view: Tables, t: Txn, id: string)
    requires Extends(view, db)
    ensures (if IsRefund(Entry(t, Execute(db, view, t).reply), id) then 1 else 0)
         == (if GivenBack(Execute(db, view, t).db, id) then 1 else 0) - (if GivenBack(db, id) then 1 else 0)
  {
    match t
    case Redeem(args) => RedeemReturnsNothing(db, view, args, id);
    case CancelCode(i, user) => CancelReturns(db, view, i, user, id);
    case Reject(i, note) => RejectReturns(db, view, i, note, id);
    case MarkUsed(i) => MarkUsedReturns(db, view, i, id);
    case Approve(i, note) => ApproveReturns(db, i, note, id);
    case Fulfill(i, note) => FulfillReturns(db, i, note, id);
    case Deposit(step) => assert DepositRules.Apply(db, step).db.redemptions == db.redemptions;
  }

  /** Over a run a redemption is refunded exactly once if it ends given back and did not start
      so, and never otherwise. */
  lemma {:induction false} RefundedExactlyOnce(sys: System, ms: seq<Move>, id: string)
    requires Runs.SystemOk(sys)
    ensures Refunds(Log(sys, ms), id)
         == (if GivenBack(Run(sys, ms).db, id) then 1 else 0) - (if GivenBack(sys.db, id) then 1 else 0)
    decreases |ms|
  {
    hide Extends, Valid, Execute;
    if ms != [] {
      var head := Answer(sys, ms[0]);
      Runs.NextKeeps(sys, ms[0]);
      if head != [] {
        assert head[1..] == [];
        RefundStep(sys.db, sys.open[ms[0].client].view, head[0].txn, id);
      }
      RefundedExactlyOnce(Next(sys, ms[0]), ms[1..], id);
      RefundsConcat(head, Log(Next(sys, ms[0]), ms[1..]), id);
    }
  }

  /** `later` differs from `db` in row `id` alone, in its user's balance by the row's own points,
      and in its limited reward's stock by one unit. */
  ghost predicate GaveBack(db: Tables, later: Tables, id: string) {
    && id in db.redemptions && !GivenBack(db, id) && GivenBack(later, id)
    && later.users.Keys == db.users.Keys && later.rewards.Keys == db.rewards.Keys
    && (forall u :: u in db.users ==>
          later.users[u].points == db.users[u].points
            + (if u == db.redemptions[id].user then db.redemptions[id].spent else 0))
    && (forall r :: r in db.rewards ==>
          later.rewards[r] == (if r == db.redemptions[id].reward && db.rewards[r].stock.Some?
                               then db.rewards[r].(stock := Some(db.rewards[r].stock.value + 1)) else db.rewards[r]))
    && later == db.(users := later.users, rewards := later.rewards,
                    redemptions := db.redemptions[id := later.redemptions[id]])
  }

  lemma GiveBackGaveBack(db: Tables, seen: Redemption, id: string, row: Redemption)
    requires id in db.redemptions && !Returned(db.redemptions[id].status) && Returned(row.status)
    requires seen.user == db.redemptions[id].user && seen.reward == db.redemptions[id].reward
    requires seen.spent == db.redemptions[id].spent && seen.user in db.users
    ensures GaveBack(db, GiveBack(db, seen, id, row), id)
  {
  }

  /** What one refund moves, whatever the call had read. */
  lemma RefundMoves(db: Tables, view: Tables, t: Txn, id: string)
    requires Valid(db) && Extends(view, db)
    requires IsRefund(Entry(t, Execute(db, view, t).reply), id)
    ensures GaveBack(db, Execute(db, view, t).db, id)
  {
    assert SameReceipt(view.redemptions[id], db.redemptions[id]);
    assert RedemptionOk(db, db.redemptions[id]);
    GiveBackGaveBack(db, view.redemptions[id], id, Execute(db, view, t).db.redemptions[id]);
  }

  // ---- approve and fulfil write without a guard -------------------------------------------------

  /** If fulfil could write after another call committed, the ledger would stand if and only if
      the row it overwrites was not given back in the meantime. */
  lemma LateFulfilBalancesIff(db: Tables, view: Tables, id: string, note: string)
    requires Valid(db) && Extends(view, db)
    requires FulfillEffect(db, view, id, note).reply.Committed?
    ensures Balanced(db, FulfillEffect(db, view, id, note).db) <==> !GivenBack(db, id)
  {
    hide Valid, Extends, Balanced, GivenBack;
    UnguardedBalancesIff(db, id, db.redemptions[id].(status := Fulfilled, note := CleanNote(note)));
  }

  lemma LateApproveBalancesIff(db: Tables, view: Tables, id: string, note: string)
    requires Valid(db) && Extends(view, db)
    requires ApproveEffect(db, view, id, note).reply.Committed?
    ensures Balanced(db, ApproveEffect(db, view, id, note).db) <==> !GivenBack(db, id)
  {
    hide Valid, Extends, Balanced, GivenBack;
    UnguardedBalancesIff(db, id, db.redemptions[id].(status := Approved, note := CleanNote(note)));
  }

  lemma UnguardedBalancesIff(db: Tables, id: string, row: Redemption)
    requires Valid(db) && id in db.redemptions && !Returned(row.status)
    requires row == db.redemptions[id].(status := row.status, note := row.note)
    ensures Balanced(db, db.(redemptions := db.redemptions[id := row])) <==> !GivenBack(db, id)
  {
    var later := db.(redemptions := db.redemptions[id := row]);
    if GivenBack(db, id) {
      assert RedemptionOk(db, db.redemptions[id]);
      Totals.SumUpdate(db.redemptions, id, row, SpentPoints(row.user));
      assert OpeningBalance(later, row.user) != OpeningBalance(db, row.user);
    } else {
      RewardSteps.RestatusKeeps(db, id, row);
    }
  }

  lemma RejectableRow(db: Tables, id: string, note: string)
    requires id in db.redemptions && db.redemptions[id].user in db.users
    requires db.redemptions[id].status.Pending? || db.redemptions[id].status.Approved?
    ensures RejectEffect(db, db, id, note).reply.Committed?
  {
  }

  lemma LateFulfilCommits(db: Tables, later: Tables, id: string, note: string)
    requires FulfillEffect(db, db, id, note).reply.Committed? && id in later.redemptions
    ensures FulfillEffect(later, db, id, note).reply.Committed?
  {
  }

  /** That interleaving exists for every cash redemption an admin may still reject: the fulfil
      reads, the reject commits, the fulfil writes, and the points are both refunded and spent. */
  lemma LateFulfilCanBreakTheLedger(db: Tables, id: string, note: string)
    requires Valid(db) && FulfillEffect(db, db, id, note).reply.Committed?
    ensures var rejected := RejectEffect(db, db, id, note);
      && rejected.reply.Committed?
      && FulfillEffect(rejected.db, db, id, note).reply.Committed?
      && !Balanced(rejected.db, FulfillEffect(rejected.db, db, id, note).db)
  {
    RejectedInBetween(db, id, note);
    var rejected := RejectEffect(db, db, id, note).db;
    LateFulfilCommits(db, rejected, id, note);
    LateFulfilBalancesIff(rejected, db, id, note);
  }

  /** And for every redemption that may be approved. */
  lemma LateApproveCanBreakTheLedger(db: Tables, id: string, note: string)
    requires Valid(db) && ApproveEffect(db, db, id, note).reply.Committed?
    ensures var rejected := RejectEffect(db, db, id, note);
      && rejected.reply.Committed?
      && ApproveEffect(rejected.db, db, id, note).reply.Committed?
      && !Balanced(rejected.db, ApproveEffect(rejected.db, db, id, note).db)
  {
    RejectedInBetween(db, id, note);
    var rejected := RejectEffect(db, db, id, note).db;
    LateApproveBalancesIff(rejected, db, id, note);
  }

  lemma RejectedInBetween(db: Tables, id: string, note: string)
    requires Valid(db) && id in db.redemptions
    requires db.redemptions[id].status.Pending? || db.redemptions[id].status.Approved?
    ensures var rejected := RejectEffect(db, db, id, note);
      && rejected.reply.Committed? && Valid(rejected.db) && Extends(db, rejected.db) && GivenBack(rejected.db, id)
  {
    assert RedemptionOk(db, db.redemptions[id]);
    RejectableRow(db, id, note);
    DepositSteps.KeepsItself(db);
    RewardSteps.RejectKeeps(db, db, id, note);
    RejectReturns(db, db, id, note, id);
  }
}
