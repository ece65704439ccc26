/** The station joined to the backend: which plans end in a confirmed deposit. */
module EndToEnd {
  import opened Options
  import opened Schema
  import opened Hardware
  import opened DepositRules
  import opened Deliveries
  import opened Simulator
  import Invariants
  import Transactions

  function StateName(s: MachineState): string {
    match s
    case IDLE => "IDLE"
    case ROUTING => "ROUTING"
    case MOVING => "MOVING"
    case POSITIONED => "POSITIONED"
    case READY_FOR_DEPOSIT => "READY_FOR_DEPOSIT"
    case DETECTING => "DETECTING"
    case MEASURING => "MEASURING"
    case DEPOSIT_CONFIRMED => "DEPOSIT_CONFIRMED"
    case RESETTING => "RESETTING"
    case JAMMED => "JAMMED"
    case WRONG_POSITION => "WRONG_POSITION"
    case UNDERWEIGHT => "UNDERWEIGHT"
    case SENSOR_ERROR => "SENSOR_ERROR"
    case TIMEOUT => "TIMEOUT"
  }

  /** The backend's handler of one event message that arrives at `now`. */
  function Handler(e: Event, now: real): Step {
    match e
    case StateChanged(op, state) => Telemetry(op, StateName(state))
    case DepositResult(result) => Result(result, now)
  }

  /** The backend after the messages, of which number `i` arrives at `clock(i)`. */
  ghost function Deliver(db: Tables, events: seq<Event>, clock: nat -> real, i: nat): Tables
    decreases |events|
  {
    if events == [] then db
    else Deliver(Apply(db, Handler(events[0], clock(i))).db, events[1..], clock, i + 1)
  }

  lemma {:induction false} DeliverConcat(db: Tables, a: seq<Event>, b: seq<Event>, clock: nat -> real, i: nat)
    ensures Deliver(db, a + b, clock, i) == Deliver(Deliver(db, a, clock, i), b, clock, i + |a|)
    decreases |a|
  {
    hide Apply;
    if a == [] {
      assert a + b == b;
    } else {
      DeliverConcat(Apply(db, Handler(a[0], clock(i))).db, a[1..], b, clock, i + 1);
      assert (a + b)[1..] == a[1..] + b;
    }
  }

  function WithPhase(db: Tables, op: string, p: Phase): Tables
    requires op in db.sessions
  {
    db.(sessions := db.sessions[op := db.sessions[op].(phase := p)])
  }

  lemma ObserveSetsPhase(db: Tables, op: string, state: string)
    requires op in db.sessions
    ensures Observe(db, op, state).db == WithPhase(db, op, Advance(db.sessions[op].phase, state))
  {
    assert db.sessions[op := db.sessions[op]] == db.sessions;
  }

  function PhaseAfter(p: Phase, states: seq<MachineState>): Phase
    decreases |states|
  {
    if states == [] then p else PhaseAfter(Advance(p, StateName(states[0])), states[1..])
  }

  /** State messages move the phase of their live session and nothing else. */
  lemma {:induction false} DeliverStates(db: Tables, op: string, states: seq<MachineState>, clock: nat -> real, i: nat)
    requires op in db.sessions && !Schema.Terminal(db.sessions[op].phase)
    ensures var p := PhaseAfter(db.sessions[op].phase, states);
      !Schema.Terminal(p) && Deliver(db, States(op, states), clock, i) == WithPhase(db, op, p)
    decreases |states|
  {
    if states == [] {
      assert db.sessions[op := db.sessions[op]] == db.sessions;
    } else {
      var p := Advance(db.sessions[op].phase, StateName(states[0]));
      ObserveSetsPhase(db, op, StateName(states[0]));
      DeliverStates(WithPhase(db, op, p), op, states[1..], clock, i + 1);
      assert States(op, states)[1..] == States(op, states[1..]);
      var q := PhaseAfter(p, states[1..]);
      assert WithPhase(WithPhase(db, op, p), op, q) == WithPhase(db, op, q);
    }
  }

  predicate AllAbout(events: seq<Event>, op: string) {
    forall i :: 0 <= i < |events| ==>
      match events[i]
      case StateChanged(o, _) => o == op
      case DepositResult(result) => result.operation == Some(op)
  }

  /** Messages about a closed session change nothing. */
  lemma {:induction false} DeliverClosed(db: Tables, op: string, events: seq<Event>, clock: nat -> real, i: nat)
    requires IsClosed(db, op) && AllAbout(events, op)
    ensures Deliver(db, events, clock, i) == db
    decreases |events|
  {
    if events != [] {
      ClosedIgnoresAll(db, Transactions.Deposit(Handler(events[0], clock(i))), op);
      DeliverClosed(db, op, events[1..], clock, i + 1);
    }
  }

  /** How a result closes a live routed session of the station that sent it. */
  lemma ResultDecides(db: Tables, op: string, e: MachineEvent, now: real)
    requires op in db.sessions && Invariants.SessionOk(db, op, db.sessions[op])
    requires !Schema.Terminal(db.sessions[op].phase) && db.sessions[op].prediction.Some?
    requires e.operation == Some(op) && e.station.Some?
    requires Names(db, e.station.value, db.sessions[op].station) && !Ambiguous(db, e.station.value)
    ensures InPhase(Complete(db, e, now).db, op,
              if db.sessions[op].expiresAt < now then Phase.Expired
              else if PhysicalFailure(db.settings.minGrams, db.sessions[op], e).None? then Phase.Confirmed
              else Phase.Refused)
  {
    var failure := PhysicalFailure(db.settings.minGrams, db.sessions[op], e);
    CloseCloses(db, op, SessionExpired, Phase.Expired);
    if failure.Some? {
      CloseCloses(db, op, failure.value, Phase.Refused);
    } else {
      ConfirmCloses(db, op, e);
    }
  }

  /** The station's view of a session it may serve. */
  ghost predicate Served(db: Tables, op: string, code: string) {
    && op in db.sessions && Invariants.SessionOk(db, op, db.sessions[op])
    && !Schema.Terminal(db.sessions[op].phase) && db.sessions[op].prediction.Some?
    && Names(db, code, db.sessions[op].station) && !Ambiguous(db, code)
  }

  lemma StatesLead(db: Tables, op: string, code: string, states: seq<MachineState>, clock: nat -> real)
    requires Served(db, op, code)
    ensures var ready := WithPhase(db, op, PhaseAfter(db.sessions[op].phase, states));
      Served(ready, op, code) && Deliver(db, States(op, states), clock, 0) == ready
  {
    DeliverStates(db, op, states, clock, 0);
    ServedStays(db, op, code, PhaseAfter(db.sessions[op].phase, states));
  }

  /** State messages, one result, and anything more about the operation: only the result counts. */
  lemma FirstResultCounts(db: Tables, op: string, code: string, states: seq<MachineState>, result: MachineEvent,
                          tail: seq<Event>, clock: nat -> real)
    requires Served(db, op, code) && result.operation == Some(op) && result.station == Some(code)
    requires AllAbout(tail, op)
    ensures var ready := WithPhase(db, op, PhaseAfter(db.sessions[op].phase, states));
      && Served(ready, op, code)
      && Deliver(db, States(op, states) + ([DepositResult(result)] + tail), clock, 0)
         == Complete(ready, result, clock(|states|)).db
  {
    var ready := WithPhase(db, op, PhaseAfter(db.sessions[op].phase, states));
    StatesLead(db, op, code, states, clock);
    StatesThenResult(db, ready, op, code, States(op, states), result, tail, clock);
  }

  lemma StatesThenResult(db: Tables, ready: Tables, op: string, code: string, before: seq<Event>, result: MachineEvent,
                         tail: seq<Event>, clock: nat -> real)
    requires Deliver(db, before, clock, 0) == ready && Served(ready, op, code)
    requires result.operation == Some(op) && result.station == Some(code) && AllAbout(tail, op)
    ensures Deliver(db, before + ([DepositResult(result)] + tail), clock, 0)
      == Complete(ready, result, clock(|before|)).db
  {
    hide *;
    var rest := [DepositResult(result)] + tail;
    ServedResult(ready, op, code, result, tail, clock, |before|);
    DeliverConcat(db, before, rest, clock, 0);
  }

  lemma ServedCloses(db: Tables, op: string, code: string, result: MachineEvent, now: real)
    requires Served(db, op, code) && result.operation == Some(op) && result.station == Some(code)
    ensures IsClosed(Complete(db, result, now).db, op)
  {
    ResultDecides(db, op, result, now);
  }

  lemma ResultThenTail(db: Tables, op: string, result: MachineEvent, tail: seq<Event>, clock: nat -> real, i: nat)
    requires IsClosed(Complete(db, result, clock(i)).db, op) && AllAbout(tail, op)
    ensures Deliver(db, [DepositResult(result)] + tail, clock, i) == Complete(db, result, clock(i)).db
  {
    assert ([DepositResult(result)] + tail)[1..] == tail;
    DeliverClosed(Complete(db, result, clock(i)).db, op, tail, clock, i + 1);
  }

  lemma ServedResult(db: Tables, op: string, code: string, result: MachineEvent, tail: seq<Event>,
                     clock: nat -> real, i: nat)
    requires Served(db, op, code) && result.operation == Some(op) && result.station == Some(code) && AllAbout(tail, op)
    ensures Deliver(db, [DepositResult(result)] + tail, clock, i) == Complete(db, result, clock(i)).db
  {
    ServedCloses(db, op, code, result, clock(i));
    ResultThenTail(db, op, result, tail, clock, i);
  }

  /** Whatever a plan publishes, only its first result counts: the backend ends as if that one
      message had been delivered, at its own time, to the session the state messages led to. */
  lemma PlanIsItsResult(db: Tables, cfg: Config, op: string, plan: Plan, destination: int, start: int, sensor: int,
                        grams: real, clock: nat -> real)
    requires Served(db, op, cfg.code)
    ensures var before := Before(plan, destination, start);
      var p := PhaseAfter(db.sessions[op].phase, before);
      var result := ResultOf(cfg, op, plan, destination, start, sensor, grams);
      && Served(WithPhase(db, op, p), op, cfg.code)
      && Deliver(db, Script(cfg, op, plan, destination, start, sensor, grams), clock, 0)
         == Complete(WithPhase(db, op, p), result, clock(|before|)).db
  {
    hide Deliver, Complete, Served;
    var before := Before(plan, destination, start);
    var result := ResultOf(cfg, op, plan, destination, start, sensor, grams);
    var tail := States(op, [RESETTING, IDLE])
      + (if Repeats(plan, destination, start) then [DepositResult(result)] else []);
    FirstResultCounts(db, op, cfg.code, before, result, tail, clock);
    assert Script(cfg, op, plan, destination, start, sensor, grams)
      == States(op, before) + ([DepositResult(result)] + tail);
  }

  lemma ServedStays(db: Tables, op: string, code: string, p: Phase)
    requires Served(db, op, code) && !Schema.Terminal(p)
    ensures Served(WithPhase(db, op, p), op, code)
  {
    var later := WithPhase(db, op, p);
    assert Invariants.SessionOk(later, op, later.sessions[op]);
    assert Ambiguous(later, code) == Ambiguous(db, code);
  }

  /** No jam within the distance to travel, a machine that reports success with mechanical
      confirmation, the compartment the backend expects, and a weight that passes both minimum
      checks: the rounded one at the backend, the unrounded one at the station. A carriage sent
      elsewhere is judged by the plan's own weight, or by 18.4 grams. */
  predicate Deserves(cfg: Config, minGrams: real, expected: Option<int>, plan: Plan, destination: int, start: int,
                     grams: real)
  {
    var routed := if plan.destination.Some? then plan.destination.value else destination;
    var target := if plan.actual.Some? then plan.actual.value else routed;
    var distance := if start <= target then target - start else start - target;
    var judged := if target == routed then grams
                  else if plan.finalWeight.Some? && plan.finalWeight.value != 0.0 then plan.finalWeight.value
                  else 18.4;
    && (plan.jamAtStep.Some? ==> plan.jamAtStep.value < 1 || plan.jamAtStep.value > distance)
    && plan.status == "confirmed" && plan.mechanical
    && Some(target) == expected
    && Round2(judged) >= minGrams && judged >= cfg.minGrams
  }

  lemma JudgedByResult(cfg: Config, op: string, minGrams: real, s: Session, plan: Plan, destination: int, start: int,
                       sensor: int, grams: real)
    requires sensor == Rest(plan, destination, start)
    ensures PhysicalFailure(minGrams, s, ResultOf(cfg, op, plan, destination, start, sensor, grams)).None?
       <==> Deserves(cfg, minGrams, s.position, plan, destination, start, grams)
  {
    if !Jams(plan, destination, start) {
      assert sensor == Target(plan, destination);
    }
  }

  /** The deposit theorem: all messages of a plan, delivered in order to a live routed session of
      that station, confirm it if and only if the plan deserves it and the result arrives before
      the session expires; otherwise they close it as rejected or expired. */
  lemma PlanOutcome(db: Tables, cfg: Config, op: string, plan: Plan, destination: int, start: int, grams: real,
                    clock: nat -> real)
    requires Served(db, op, cfg.code)
    ensures var s := db.sessions[op];
      var script := Script(cfg, op, plan, destination, start, Rest(plan, destination, start), grams);
      InPhase(Deliver(db, script, clock, 0), op,
        if s.expiresAt < clock(|Before(plan, destination, start)|) then Phase.Expired
        else if Deserves(cfg, db.settings.minGrams, s.position, plan, destination, start, grams) then Phase.Confirmed
        else Phase.Refused)
  {
    hide Deliver, Complete, Deserves;
    var s := db.sessions[op];
    var sensor := Rest(plan, destination, start);
    var before := Before(plan, destination, start);
    var ready := WithPhase(db, op, PhaseAfter(s.phase, before));
    var result := ResultOf(cfg, op, plan, destination, start, sensor, grams);
    PlanIsItsResult(db, cfg, op, plan, destination, start, sensor, grams, clock);
    ResultDecides(ready, op, result, clock(|before|));
    JudgedByResult(cfg, op, db.settings.minGrams, ready.sessions[op], plan, destination, start, sensor, grams);
  }

  /** What a user sees before the result: a waiting session follows the station to `Moving` when
      the carriage jams, to `Ready` when it settles elsewhere, and to `Measuring` otherwise. */
  lemma PhaseBeforeResult(plan: Plan, destination: int, start: int)
    ensures PhaseAfter(Waiting, Before(plan, destination, start))
         == (if Jams(plan, destination, start) then Phase.Moving
             else if Misplaced(plan, destination) then Ready else Measuring)
  {
    StatesRead();
    hide MachinePhase, StateName, PhaseAfter;
    var last := LastState(plan.status);
    PhaseCons(Waiting, ROUTING, Before(plan, destination, start)[1..]);
    PhaseCons(Routing, MOVING, Before(plan, destination, start)[2..]);
    if Jams(plan, destination, start) {
      PhaseCons(Phase.Moving, JAMMED, []);
    } else if Misplaced(plan, destination) {
      PhaseCons(Phase.Moving, POSITIONED, [WRONG_POSITION]);
      PhaseCons(Ready, WRONG_POSITION, []);
    } else {
      PhaseCons(Phase.Moving, POSITIONED, [READY_FOR_DEPOSIT, DETECTING, MEASURING, last]);
      PhaseCons(Ready, READY_FOR_DEPOSIT, [DETECTING, MEASURING, last]);
      PhaseCons(Ready, DETECTING, [MEASURING, last]);
      PhaseCons(Detecting, MEASURING, [last]);
      PhaseCons(Measuring, last, []);
    }
    NoStates(Phase.Moving);
    NoStates(Ready);
    NoStates(Measuring);
  }

  lemma PhaseCons(p: Phase, state: MachineState, rest: seq<MachineState>)
    ensures forall states :: states == [state] + rest ==>
      PhaseAfter(p, states) == PhaseAfter(Advance(p, StateName(state)), rest)
  {
    assert ([state] + rest)[1..] == rest;
  }

  lemma NoStates(p: Phase)
    ensures PhaseAfter(p, []) == p
  {
  }

  lemma NameIsUpper(s: MachineState)
    ensures Upper(StateName(s)) == StateName(s)
  {
    var name := StateName(s);
    assert forall i :: 0 <= i < |name| ==> !('a' <= name[i] <= 'z');
  }

  lemma StateReads(s: MachineState)
    ensures MachinePhase(StateName(s)) ==
      match s
      case ROUTING => Some(Routing)
      case MOVING => Some(Phase.Moving)
      case POSITIONED => Some(Ready)
      case READY_FOR_DEPOSIT => Some(Ready)
      case DETECTING => Some(Detecting)
      case MEASURING => Some(Measuring)
      case _ => None
  {
    NameIsUpper(s);
    hide Upper;
    var name := StateName(s);
    assert |name| > 1;
    assert name[0] == match s
      case IDLE => 'I' case ROUTING => 'R' case MOVING => 'M' case POSITIONED => 'P' case READY_FOR_DEPOSIT => 'R'
      case DETECTING => 'D' case MEASURING => 'M' case DEPOSIT_CONFIRMED => 'D' case RESETTING => 'R'
      case JAMMED => 'J' case WRONG_POSITION => 'W' case UNDERWEIGHT => 'U' case SENSOR_ERROR => 'S'
      case TIMEOUT => 'T';
  }

  /** Every state the station reports means its own phase to the backend, and the others none. */
  lemma StatesRead()
    ensures MachinePhase(StateName(ROUTING)) == Some(Routing) && MachinePhase(StateName(MOVING)) == Some(Phase.Moving)
    ensures MachinePhase(StateName(POSITIONED)) == Some(Ready)
    ensures MachinePhase(StateName(READY_FOR_DEPOSIT)) == Some(Ready)
    ensures MachinePhase(StateName(DETECTING)) == Some(Detecting)
    ensures MachinePhase(StateName(MEASURING)) == Some(Measuring)
    ensures forall s: MachineState ::
      s !in {ROUTING, MOVING, POSITIONED, READY_FOR_DEPOSIT, DETECTING, MEASURING} ==> MachinePhase(StateName(s)).None?
  {
    hide MachinePhase, StateName;
    StateReads(ROUTING);
    StateReads(MOVING);
    StateReads(POSITIONED);
    StateReads(READY_FOR_DEPOSIT);
    StateReads(DETECTING);
    StateReads(MEASURING);
    forall s: MachineState | s !in {ROUTING, MOVING, POSITIONED, READY_FOR_DEPOSIT, DETECTING, MEASURING}
      ensures MachinePhase(StateName(s)).None?
    {
      StateReads(s);
    }
  }

  // ---- stations with four compartments --------------------------------------------------------

  const COMPARTMENTS: set<int> := {1, 2, 3, 4}

  /** Between compartments every plan with a timeline runs, its carriage stays between them, and
      a sensor that agreed with the carriage agrees again. */
  lemma FourCompartments(plan: Plan, destination: int, start: int)
    requires start in COMPARTMENTS && Target(plan, destination) in COMPARTMENTS && plan.timeline != []
    ensures CanRun(plan, destination, IDLE, COMPARTMENTS, start)
    ensures Rest(plan, destination, start) in COMPARTMENTS
    ensures SensorAfter(plan, destination, start, start) == Rest(plan, destination, start)
    ensures !Jams(plan, destination, start) ==> Rest(plan, destination, start) == Target(plan, destination)
    ensures Jams(plan, destination, start) ==>
      Distance(start, Rest(plan, destination, start)) == plan.jamAtStep.value - 1
      < Distance(start, Target(plan, destination))
  {
  }

  /** From a compartment a plan runs exactly when it comes to rest in one, at its target or on the
      step before its jam, and has a timeline if it weighs; any other plan raises. */
  lemma RunsIffItRestsInside(plan: Plan, destination: int, start: int)
    requires start in COMPARTMENTS
    ensures CanRun(plan, destination, IDLE, COMPARTMENTS, start)
       <==> Rest(plan, destination, start) in COMPARTMENTS
            && (Jams(plan, destination, start) || Misplaced(plan, destination) || plan.timeline != [])
  {
    var target := Target(plan, destination);
    var moves := Moves(plan.jamAtStep, Distance(start, target));
    if RouteKnown(COMPARTMENTS, start, target, moves) && moves > 0 {
      assert PositionAfter(start, target, moves) in COMPARTMENTS;
    }
  }

  /** How the backend has judged one plan of a station, by what it published. */
  ghost predicate Judged(db: Tables, later: Tables, cfg: Config, op: string, plan: Plan, destination: int, start: int,
                         grams: real, clock: nat -> real)
    requires op in db.sessions
  {
    InPhase(later, op,
      if db.sessions[op].expiresAt < clock(|Before(plan, destination, start)|) then Phase.Expired
      else if Deserves(cfg, db.settings.minGrams, db.sessions[op].position, plan, destination, start, grams)
      then Phase.Confirmed
      else Phase.Refused)
  }

  /** The station joined to the backend: a plan run by a station at rest in a compartment, its
      sensor agreeing, and every message it published delivered in order to a live routed session
      of that station. If the plan comes to rest in a compartment the session is confirmed,
      refused or expired as the plan deserves, and the station is at rest again; otherwise the
      station is stuck and the session still live. */
  method RunAndDeliver(st: Station, op: string, destination: int, plan: Plan, ghost db: Tables,
                       ghost clock: nat -> real)
    returns (r: RunResult, ghost grams: real, ghost later: Tables)
    requires st.machine.state == IDLE && st.sensor.positions == COMPARTMENTS
    requires st.carriage.position == st.sensor.current && st.carriage.position in COMPARTMENTS
    requires Served(db, op, st.cfg.code)
    modifies st`events, st`readings, st.machine, st.carriage, st.sensor, st.beam, st.cell`taken, st.cell`value
    ensures |old(st.events)| <= |st.events| && later == Deliver(db, st.events[|old(st.events)|..], clock, 0)
    ensures r.Finished? <==>
      && Rest(plan, destination, old(st.carriage.position)) in COMPARTMENTS
      && (Jams(plan, destination, old(st.carriage.position)) || Misplaced(plan, destination) || plan.timeline != [])
    ensures r.Finished? ==>
      && Judged(db, later, st.cfg, op, plan, destination, old(st.carriage.position), grams, clock)
      && st.machine.state == IDLE && st.sensor.current == st.carriage.position
      && st.carriage.position == Rest(plan, destination, old(st.carriage.position))
      && (Jams(plan, destination, old(st.carriage.position)) || Misplaced(plan, destination)
          || Settled(plan, st.cell.draws, grams))
    ensures r.Raised? ==>
      && (exists p :: !Schema.Terminal(p) && later == WithPhase(db, op, p))
      && (st.machine.state == MOVING || st.machine.state == MEASURING)
  {
    ghost var before, start := st.events, st.carriage.position;
    RunsIffItRestsInside(plan, destination, start);
    r, grams := st.RunPlan(op, destination, plan);
    later := Deliver(db, st.events[|before|..], clock, 0);
    if r.Finished? {
      assert st.events[|before|..] == Script(st.cfg, op, plan, destination, start, st.sensor.current, grams);
      PlanOutcome(db, st.cfg, op, plan, destination, start, grams, clock);
    } else {
      ghost var states :| st.events == before + States(op, states);
      assert st.events[|before|..] == States(op, states);
      DeliverStates(db, op, states, clock, 0);
    }
  }
}
