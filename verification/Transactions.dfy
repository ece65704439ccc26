/** Any number of clients run calls against one database. A reward call reads at `Begin` and
    writes at `Commit`; in between any other client may commit, so what it read may be
    arbitrarily old. Approve, fulfil and the deposit steps read and write in one step. */
module Transactions {
  import opened Schema
  import RewardRules
  import DepositRules

  datatype Txn =
    | Redeem(args: RewardRules.RedeemArgs)
    | CancelCode(id: string, user: string)
    | Reject(id: string, note: string)
    | MarkUsed(id: string)
    | Approve(id: string, note: string)
    | Fulfill(id: string, note: string)
    | Deposit(step: DepositRules.Step)

  /** The write block of `t` on the current tables, after reading `view`. */
  ghost function Execute(db: Tables, view: Tables, t: Txn): Outcome {
    match t
    case Redeem(args) => RewardRules.RedeemEffect(db, view, args)
    case CancelCode(id, user) => RewardRules.CancelEffect(db, view, id, user)
    case Reject(id, note) => RewardRules.RejectEffect(db, view, id, note)
    case MarkUsed(id) => RewardRules.MarkUsedEffect(db, view, id)
    case Approve(id, note) => RewardRules.ApproveEffect(db, db, id, note)
    case Fulfill(id, note) => RewardRules.FulfillEffect(db, db, id, note)
    case Deposit(step) => DepositRules.Apply(db, step)
  }

  /** The calls executed one after the other, each reading the tables it writes. */
  ghost function Serial(db: Tables, ts: seq<Txn>): Tables
    decreases |ts|
  {
    if ts == [] then db else Serial(Execute(db, db, ts[0]).db, ts[1..])
  }

  datatype Call = Call(txn: Txn, view: Tables)

  datatype System = System(db: Tables, open: map<string, Call>)

  datatype Move = Begin(client: string, txn: Txn) | Commit(client: string)

  ghost function Next(sys: System, m: Move): System {
    match m
    case Begin(c, t) => sys.(open := sys.open[c := Call(t, sys.db)])
    case Commit(c) =>
      if c !in sys.open then sys
      else System(Execute(sys.db, sys.open[c].view, sys.open[c].txn).db, sys.open - {c})
  }

  ghost function Run(sys: System, ms: seq<Move>): System
    decreases |ms|
  {
    if ms == [] then sys else Run(Next(sys, ms[0]), ms[1..])
  }

  datatype Entry = Entry(txn: Txn, reply: Reply)

  /** What the client of a commit is told. */
  ghost function Answer(sys: System, m: Move): seq<Entry> {
    if m.Commit? && m.client in sys.open then
      var call := sys.open[m.client];
      [Entry(call.txn, Execute(sys.db, call.view, call.txn).reply)]
    else []
  }

  /** All answers of a run, in commit order. */
  ghost function Log(sys: System, ms: seq<Move>): seq<Entry>
    decreases |ms|
  {
    if ms == [] then [] else Answer(sys, ms[0]) + Log(Next(sys, ms[0]), ms[1..])
  }

  /** The calls of a log that wrote something. */
  function Effective(log: seq<Entry>): seq<Txn> {
    if log == [] then []
    else (if log[0].reply.Committed? then [log[0].txn] else []) + Effective(log[1..])
  }

  lemma {:induction false} EffectiveConcat(a: seq<Entry>, b: seq<Entry>)
    ensures Effective(a + b) == Effective(a) + Effective(b)
  {
    if a == [] {
      assert a + b == b;
    } else {
      EffectiveConcat(a[1..], b);
      assert (a + b)[1..] == a[1..] + b;
    }
  }

  lemma {:induction false} SerialConcat(db: Tables, a: seq<Txn>, b: seq<Txn>)
    ensures Serial(db, a + b) == Serial(Serial(db, a), b)
    decreases |a|
  {
    if a == [] {
      assert a + b == b;
    } else {
      SerialConcat(Execute(db, db, a[0]).db, a[1..], b);
      assert (a + b)[1..] == a[1..] + b;
    }
  }
}
