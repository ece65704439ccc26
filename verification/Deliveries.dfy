/** Deposits over whole runs: when a session counts as confirmed, and why delivering machine
    messages more than once, late or out of order does no harm. */
module Deliveries {
  import opened Options
  import opened Schema
  import opened Invariants
  import opened Transactions
  import opened Runs
  import opened DepositRules
  import Totals
  import DepositSteps

  /** Before anything happened every row is in order and the ledgers start at what the rows say. */
  lemma FreshDatabase(db: Tables)
    requires db.redemptions == map[] && db.sessions == map[] && db.events == map[] && db.claims == map[]
    requires forall u :: u in db.users ==> db.users[u].points >= 0
    requires forall r :: r in db.rewards ==> StockOk(db.rewards[r])
    requires forall c :: c in db.policies ==> db.policies[c].points >= 0
    ensures SystemOk(System(db, map[]))
    ensures forall u :: u in db.users ==> OpeningBalance(db, u) == db.users[u].points
    ensures forall r :: r in db.rewards && db.rewards[r].stock.Some? ==>
      OpeningStock(db, r) == db.rewards[r].stock.value
  {
    forall u | u in db.users ensures OpeningBalance(db, u) == db.users[u].points {
      Totals.SumEmpty<string, WasteEvent>(EventPoints(u));
      Totals.SumEmpty<(string, string), Claim>(ClaimPoints(u));
      Totals.SumEmpty<string, Redemption>(SpentPoints(u));
    }
    forall r | r in db.rewards && db.rewards[r].stock.Some?
      ensures OpeningStock(db, r) == db.rewards[r].stock.value
    {
      Totals.SumEmpty<string, Redemption>(HeldUnits(r));
    }
  }

  // ---- confirmed sessions -------------------------------------------------------------------

  /** In every reachable state a session is confirmed exactly when its operation has a confirmed
      event; that event carries the session's points, position and class, at least the minimum
      weight and a level that is not low, and no other event carries points. */
  lemma ConfirmedIffProven(sys: System, ms: seq<Move>, op: string)
    requires SystemOk(sys)
    ensures var db := Run(sys, ms).db;
      && (op in db.events ==> op in db.sessions)
      && (op in db.sessions ==>
            (db.sessions[op].phase.Confirmed? <==> op in db.events && db.events[op].confirmed))
      && (op in db.sessions && db.sessions[op].phase.Confirmed? ==>
            Proves(db.settings.minGrams, db.sessions[op], db.events[op]))
      && (op in db.events && db.events[op].points != 0 ==> db.sessions[op].phase.Confirmed?)
  {
    RunKeeps(sys, ms);
    var db := Run(sys, ms).db;
    assert op in db.sessions ==> SessionOk(db, op, db.sessions[op]);
  }

  /** A closed session, its event, and the absence of one, are final. */
  lemma ClosedForGood(sys: System, ms: seq<Move>, op: string)
    requires SystemOk(sys) && op in sys.db.sessions && Terminal(sys.db.sessions[op].phase)
    ensures var db := Run(sys, ms).db;
      && op in db.sessions && db.sessions[op] == sys.db.sessions[op]
      && (op in db.events <==> op in sys.db.events)
      && (op in db.events ==> db.events[op] == sys.db.events[op])
  {
    RunKeeps(sys, ms);
    assert SameDeposit(sys.db.sessions[op], Run(sys, ms).db.sessions[op]);
  }

  /** A claimed challenge keeps its one row, and with it its one payout, for good. */
  lemma ClaimedForGood(sys: System, ms: seq<Move>, user: string, challenge: string)
    requires SystemOk(sys) && (user, challenge) in sys.db.claims
    ensures var db := Run(sys, ms).db;
      (user, challenge) in db.claims && db.claims[(user, challenge)] == sys.db.claims[(user, challenge)]
  {
    RunKeeps(sys, ms);
  }

  // ---- exactly once -------------------------------------------------------------------------

  /** The operation a step is about. */
  function Addressee(d: Step): Option<string> {
    match d
    case Create(op, _, _, _, _) => Some(op)
    case CaptureFrame(op, _, _, _) => Some(op)
    case Abort(op, _) => Some(op)
    case Telemetry(op, _) => Some(op)
    case Result(e, _) => e.operation
  }

  predicate About(t: Txn, op: string) {
    t.Deposit? && Addressee(t.step) == Some(op)
  }

  /** Nothing about a closed operation changes any table. */
  lemma ClosedIgnoresAll(db: Tables, t: Txn, op: string)
    requires op in db.sessions && Terminal(db.sessions[op].phase) && About(t, op)
    ensures Execute(db, db, t).db == db
  {
  }

  function Without(ts: seq<Txn>, op: string): seq<Txn> {
    if ts == [] then []
    else (if About(ts[0], op) then [] else [ts[0]]) + Without(ts[1..], op)
  }

  /** Once an operation is closed, every later step about it may be dropped from any run. */
  lemma {:induction false} DropLater(db: Tables, ts: seq<Txn>, op: string)
    requires Valid(db) && op in db.sessions && Terminal(db.sessions[op].phase)
    ensures Serial(db, ts) == Serial(db, Without(ts, op))
    decreases |ts|
  {
    if ts != [] {
      if About(ts[0], op) {
        ClosedIgnoresAll(db, ts[0], op);
        DropLater(db, ts[1..], op);
        assert Without(ts, op) == Without(ts[1..], op);
      } else {
        var next := Execute(db, db, ts[0]).db;
        DepositSteps.KeepsItself(db);
        ExecuteKeeps(db, db, ts[0]);
        assert SameDeposit(db.sessions[op], next.sessions[op]);
        DropLater(next, ts[1..], op);
        assert Without(ts, op) == [ts[0]] + Without(ts[1..], op);
        assert Without(ts, op)[1..] == Without(ts[1..], op);
      }
    }
  }

  /** The station name in the message answers at most one station. */
  predicate Unambiguous(db: Tables, e: MachineEvent) {
    e.station.Some? && e.station.value != "" ==> !Ambiguous(db, e.station.value)
  }

  predicate InPhase(db: Tables, op: string, p: Phase) {
    op in db.sessions && db.sessions[op].phase == p
  }

  predicate IsClosed(db: Tables, op: string) {
    op in db.sessions && Terminal(db.sessions[op].phase)
  }

  lemma CloseCloses(db: Tables, op: string, reason: Reason, phase: Phase)
    requires op in db.sessions && !Terminal(db.sessions[op].phase) && SessionOk(db, op, db.sessions[op])
    requires phase.Refused? || phase.Expired?
    ensures var later := CloseWithout(db, op, reason, phase).db;
      if db.sessions[op].prediction.Some? then InPhase(later, op, phase) else later == db
  {
  }

  lemma ConfirmCloses(db: Tables, op: string, e: MachineEvent)
    requires op in db.sessions && !Terminal(db.sessions[op].phase) && SessionOk(db, op, db.sessions[op])
    ensures var later := Confirm(db, op, e).db;
      if db.sessions[op].prediction.Some? then InPhase(later, op, Phase.Confirmed) else later == db
  {
  }

  /** A deposit result closes a live session if and only if a prediction is attached to it and
      the station it names is not ambiguous; otherwise it changes nothing. */
  lemma ResultClosesIff(db: Tables, op: string, e: MachineEvent, now: real)
    requires op in db.sessions && SessionOk(db, op, db.sessions[op]) && !Terminal(db.sessions[op].phase)
    requires e.operation == Some(op)
    ensures var later := Complete(db, e, now).db;
      && (IsClosed(later, op) <==> db.sessions[op].prediction.Some? && Unambiguous(db, e))
      && (!IsClosed(later, op) ==> later == db)
  {
    CloseCloses(db, op, StationMismatch, Phase.Refused);
    CloseCloses(db, op, SessionExpired, Phase.Expired);
    var failure := PhysicalFailure(db.settings.minGrams, db.sessions[op], e);
    if failure.Some? {
      CloseCloses(db, op, failure.value, Phase.Refused);
    } else {
      ConfirmCloses(db, op, e);
    }
  }

  lemma FirstCloses(db: Tables, op: string, d: Step)
    requires op in db.sessions && SessionOk(db, op, db.sessions[op]) && !Terminal(db.sessions[op].phase)
    requires db.sessions[op].prediction.Some?
    requires (d.Result? && d.event.operation == Some(op) && Unambiguous(db, d.event))
             || d == Abort(op, db.sessions[op].user)
    ensures IsClosed(Apply(db, d).db, op)
  {
    if d.Result? {
      ResultClosesIff(db, op, d.event, d.now);
    }
  }

  /** At-least-once delivery has exactly-once effect: after the first result or cancel of a
      routed session, dropping every later step about it from any run gives the same tables. */
  lemma ExactlyOnce(db: Tables, op: string, d: Step, ts: seq<Txn>)
    requires Valid(db) && op in db.sessions && !Terminal(db.sessions[op].phase) && db.sessions[op].prediction.Some?
    requires (d.Result? && d.event.operation == Some(op) && Unambiguous(db, d.event))
             || d == Abort(op, db.sessions[op].user)
    ensures Serial(db, [Deposit(d)] + ts) == Serial(db, [Deposit(d)] + Without(ts, op))
  {
    var later := Execute(db, db, Deposit(d)).db;
    assert SessionOk(db, op, db.sessions[op]);
    assert IsClosed(later, op) by {
      FirstCloses(db, op, d);
    }
    DepositSteps.DepositKeeps(db, d);
    DropLater(later, ts, op);
    assert ([Deposit(d)] + ts)[1..] == ts;
    assert ([Deposit(d)] + Without(ts, op))[1..] == Without(ts, op);
  }

  /** A session and a policy that the message would satisfy. */
  predicate WouldSatisfy(minGrams: real, policy: Policy, e: MachineEvent) {
    Claimed(e) == "confirmed" && ActualPosition(e) == policy.position && CarriagePosition(e) == policy.position
    && Weight(e) >= minGrams && e.stable && e.beam && e.mechanical
  }

  /** The prediction is needed: a result that arrives before it is ignored, and its copy after
      it confirms the deposit, so there the copy may not be dropped. */
  lemma EarlyResultIsNotFinal(db: Tables, op: string, station: string, frame: Frame, e: MachineEvent, now: real)
    requires Valid(db) && op in db.sessions && !Terminal(db.sessions[op].phase) && db.sessions[op].prediction.None?
    requires Predicted(db, db.sessions[op], frame) && !frame.level.Low?
    requires Names(db, station, db.sessions[op].station) && !Ambiguous(db, station)
    requires e.operation == Some(op) && e.station == Some(station) && now <= db.sessions[op].expiresAt
    requires WouldSatisfy(db.settings.minGrams, db.policies[frame.cls], e)
    ensures var d := Deposit(Result(e, now));
      var c := Deposit(CaptureFrame(op, station, frame, now));
      && InPhase(Serial(db, [d, c, d]), op, Phase.Confirmed)
      && InPhase(Serial(db, [d, c]), op, Waiting)
  {
    var d := Deposit(Result(e, now));
    var c := Deposit(CaptureFrame(op, station, frame, now));
    ThreeSteps(db, d, c, d);
    assert SessionOk(db, op, db.sessions[op]);
    EarlyResultIgnored(db, op, station, frame, e, now);
  }

  lemma EarlyResultIgnored(db: Tables, op: string, station: string, frame: Frame, e: MachineEvent, now: real)
    requires op in db.sessions && SessionOk(db, op, db.sessions[op]) && !Terminal(db.sessions[op].phase)
    requires forall c :: c in db.policies ==> db.policies[c].points >= 0
    requires db.sessions[op].prediction.None?
    requires Predicted(db, db.sessions[op], frame) && !frame.level.Low?
    requires Names(db, station, db.sessions[op].station) && !Ambiguous(db, station)
    requires e.operation == Some(op) && e.station == Some(station) && now <= db.sessions[op].expiresAt
    requires WouldSatisfy(db.settings.minGrams, db.policies[frame.cls], e)
    ensures var first := Execute(db, db, Deposit(Result(e, now))).db;
      var second := Execute(first, first, Deposit(CaptureFrame(op, station, frame, now))).db;
      && InPhase(second, op, Waiting)
      && InPhase(Execute(second, second, Deposit(Result(e, now))).db, op, Phase.Confirmed)
  {
    ResultClosesIff(db, op, e, now);
    FrameThenResultConfirms(db, op, station, frame, e, now);
  }

  lemma FrameThenResultConfirms(db: Tables, op: string, station: string, frame: Frame, e: MachineEvent, now: real)
    requires op in db.sessions && SessionOk(db, op, db.sessions[op]) && !Terminal(db.sessions[op].phase)
    requires forall c :: c in db.policies ==> db.policies[c].points >= 0
    requires Predicted(db, db.sessions[op], frame) && !frame.level.Low?
    requires Names(db, station, db.sessions[op].station) && !Ambiguous(db, station)
    requires e.operation == Some(op) && e.station == Some(station) && now <= db.sessions[op].expiresAt
    requires WouldSatisfy(db.settings.minGrams, db.policies[frame.cls], e)
    ensures var routed := CaptureStation(db, op, station, frame, now).db;
      InPhase(routed, op, Waiting) && InPhase(Complete(routed, e, now).db, op, Phase.Confirmed)
  {
    var s := Captured(db, db.sessions[op], frame);
    var routed := CaptureStation(db, op, station, frame, now).db;
    assert routed.sessions[op] == s;
    DepositSteps.CapturedOk(db, op, db.sessions[op], frame);
    assert SessionOk(routed, op, s);
    assert Ambiguous(routed, station) == Ambiguous(db, station);
    RoutedConfirms(routed, op, e, now);
  }

  lemma ThreeSteps(db: Tables, a: Txn, b: Txn, c: Txn)
    ensures var first := Execute(db, db, a).db;
      var second := Execute(first, first, b).db;
      && Serial(db, [a, b]) == second
      && Serial(db, [a, b, c]) == Execute(second, second, c).db
  {
    assert [a, b, c][1..] == [b, c] && [b, c][1..] == [c] && [c][1..] == [];
    assert [a, b][1..] == [b] && [b][1..] == [];
    var first := Execute(db, db, a).db;
    var second := Execute(first, first, b).db;
    assert Serial(first, [b]) == second;
    assert Serial(second, [c]) == Execute(second, second, c).db;
    assert Serial(first, [b, c]) == Serial(second, [c]);
  }

  /** A live, unexpired, routed session is confirmed by a message that passes every check. */
  lemma RoutedConfirms(db: Tables, op: string, e: MachineEvent, now: real)
    requires op in db.sessions && !Terminal(db.sessions[op].phase) && Routed(db.sessions[op])
    requires SessionOk(db, op, db.sessions[op]) && now <= db.sessions[op].expiresAt
    requires e.operation == Some(op) && Unambiguous(db, e)
    requires e.station.Some? && e.station.value != "" ==> Names(db, e.station.value, db.sessions[op].station)
    requires PhysicalFailure(db.settings.minGrams, db.sessions[op], e).None?
    ensures InPhase(Complete(db, e, now).db, op, Phase.Confirmed)
  {
    ConfirmCloses(db, op, e);
  }

  // ---- telemetry ----------------------------------------------------------------------------

  function AdvanceAll(p: Phase, states: seq<string>): Phase
    decreases |states|
  {
    if states == [] then p else AdvanceAll(Advance(p, states[0]), states[1..])
  }

  /** `q` is the phase of highest rank among `p` and the phases the states stand for. */
  ghost predicate Highest(p: Phase, states: seq<string>, q: Phase) {
    && (q == p || exists i :: 0 <= i < |states| && MachinePhase(states[i]) == Some(q))
    && Rank(q) >= Rank(p)
    && forall i :: 0 <= i < |states| && MachinePhase(states[i]).Some? ==> Rank(q) >= Rank(MachinePhase(states[i]).value)
  }

  lemma {:induction false} AdvanceAllIsHighest(p: Phase, states: seq<string>)
    requires !Terminal(p)
    ensures Highest(p, states, AdvanceAll(p, states)) && !Terminal(AdvanceAll(p, states))
    decreases |states|
  {
    if states != [] {
      var next := Advance(p, states[0]);
      var q := AdvanceAll(next, states[1..]);
      AdvanceAllIsHighest(next, states[1..]);
      forall i | 0 <= i < |states| && MachinePhase(states[i]).Some?
        ensures Rank(q) >= Rank(MachinePhase(states[i]).value)
      {
        if i > 0 {
          assert states[i] == states[1..][i - 1];
        }
      }
      if q != next {
        var i :| 0 <= i < |states[1..]| && MachinePhase(states[1..][i]) == Some(q);
        assert states[i + 1] == states[1..][i];
      } else if q != p {
        assert MachinePhase(states[0]) == Some(q);
      }
    }
  }

  /** The highest phase is unique, because live phases have different ranks. */
  lemma HighestIsUnique(p: Phase, a: seq<string>, b: seq<string>, q: Phase, r: Phase)
    requires !Terminal(p) && Highest(p, a, q) && Highest(p, b, r)
    requires forall x :: x in a <==> x in b
    ensures q == r
  {
    if q != p {
      var i :| 0 <= i < |a| && MachinePhase(a[i]) == Some(q);
      assert a[i] in b;
    }
    if r != p {
      var i :| 0 <= i < |b| && MachinePhase(b[i]) == Some(r);
      assert b[i] in a;
    }
  }

  function Observations(op: string, states: seq<string>): seq<Txn> {
    if states == [] then [] else [Deposit(Telemetry(op, states[0]))] + Observations(op, states[1..])
  }

  /** A run of telemetry for one live session moves its phase and nothing else. */
  lemma {:induction false} TelemetryRun(db: Tables, op: string, states: seq<string>)
    requires op in db.sessions
    ensures Serial(db, Observations(op, states))
         == db.(sessions := db.sessions[op := db.sessions[op].(phase := AdvanceAll(db.sessions[op].phase, states))])
    decreases |states|
  {
    if states == [] {
      assert db.sessions[op := db.sessions[op]] == db.sessions;
    } else {
      var next := Observe(db, op, states[0]).db;
      var p := Advance(db.sessions[op].phase, states[0]);
      assert next == db.(sessions := db.sessions[op := db.sessions[op].(phase := p)]) by {
        assert db.sessions[op := db.sessions[op]] == db.sessions;
      }
      TelemetryRun(next, op, states[1..]);
      assert Observations(op, states)[1..] == Observations(op, states[1..]);
      var s := db.sessions[op].(phase := AdvanceAll(p, states[1..]));
      assert next.sessions[op := s] == db.sessions[op := s];
    }
  }

  /** Order and repetition of telemetry do not matter: two runs with the same machine states, in
      any order and any number, leave the same tables. */
  lemma TelemetryOrderFree(db: Tables, op: string, a: seq<string>, b: seq<string>)
    requires op in db.sessions && !Terminal(db.sessions[op].phase)
    requires forall x :: x in a <==> x in b
    ensures Serial(db, Observations(op, a)) == Serial(db, Observations(op, b))
    ensures exists q :: Highest(db.sessions[op].phase, a, q) && InPhase(Serial(db, Observations(op, a)), op, q)
  {
    var p := db.sessions[op].phase;
    TelemetryRun(db, op, a);
    TelemetryRun(db, op, b);
    AdvanceAllIsHighest(p, a);
    AdvanceAllIsHighest(p, b);
    HighestIsUnique(p, a, b, AdvanceAll(p, a), AdvanceAll(p, b));
  }
}
