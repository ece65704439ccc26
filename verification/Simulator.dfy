/** The simulated station: it runs one deposit plan and publishes what its parts observe. */
module Simulator {
  import opened Options
  import opened Hardware
  import opened WeightRamp
  import opened DepositRules

  datatype Plan = Plan(
    destination: Option<int>, actual: Option<int>, timeline: seq<Point>, finalWeight: Option<real>,
    beamSeen: bool, mechanical: bool, jamAtStep: Option<int>, duplicate: bool, status: string)

  datatype Config = Config(code: string, minGrams: real, rampStep: real)

  /** A message on the event topic. */
  datatype Event = StateChanged(op: string, state: MachineState) | DepositResult(result: MachineEvent)

  /** A message on the sensor topic. */
  datatype Reading = Reading(position: Option<int>, grams: Option<real>, stable: Option<bool>, broken: Option<bool>)

  const FALLBACK_GRAMS := 18.4
  const RAMP_SLACK := 0.000000001

  // ---- what a plan asks for -----------------------------------------------------------------

  function Destination(plan: Plan, destination: int): int {
    if plan.destination.Some? then plan.destination.value else destination
  }

  function Target(plan: Plan, destination: int): int {
    if plan.actual.Some? then plan.actual.value else Destination(plan, destination)
  }

  /** The carriage settles where the routing did not send it. */
  predicate Misplaced(plan: Plan, destination: int) {
    plan.actual.Some? && plan.actual.value != Destination(plan, destination)
  }

  function Distance(start: int, target: int): nat {
    if start <= target then target - start else start - target
  }

  function Direction(start: int, target: int): int {
    if target > start then 1 else -1
  }

  predicate JamsWithin(jamAtStep: Option<int>, distance: nat) {
    jamAtStep.Some? && 1 <= jamAtStep.value <= distance
  }

  /** Unit steps completed: all of them, or those before the jam. */
  function Moves(jamAtStep: Option<int>, distance: nat): nat {
    if JamsWithin(jamAtStep, distance) then jamAtStep.value - 1 else distance
  }

  function PositionAfter(start: int, target: int, moves: nat): int {
    if start == target then start else start + Direction(start, target) * moves
  }

  /** Where a plan leaves a carriage that began at `start`. */
  function Rest(plan: Plan, destination: int, start: int): int {
    var target := Target(plan, destination);
    PositionAfter(start, target, Moves(plan.jamAtStep, Distance(start, target)))
  }

  predicate Jams(plan: Plan, destination: int, start: int) {
    JamsWithin(plan.jamAtStep, Distance(start, Target(plan, destination)))
  }

  /** Every position the carriage passes is one the sensor knows. */
  ghost predicate RouteKnown(positions: set<int>, start: int, target: int, moves: nat) {
    forall i :: 1 <= i <= moves ==> PositionAfter(start, target, i) in positions
  }

  /** The plan runs to its end: from IDLE, over known positions, with a timeline if it weighs. */
  ghost predicate CanRun(plan: Plan, destination: int, state: MachineState, positions: set<int>, start: int) {
    var target := Target(plan, destination);
    var distance := Distance(start, target);
    && state.IDLE?
    && RouteKnown(positions, start, target, Moves(plan.jamAtStep, distance))
    && (Jams(plan, destination, start) || Misplaced(plan, destination) || plan.timeline != [])
  }

  // ---- what is published ----------------------------------------------------------------------

  function Terminal(cfg: Config, op: string, status: string, actual: int, sensor: int, grams: real,
                    mechanical: bool, beam: bool): MachineEvent
  {
    MachineEvent(Some(cfg.code), Some(op), Some(status), Some(actual), Some(Round2(grams)),
                 grams >= cfg.minGrams, beam, mechanical, Some(sensor))
  }

  /** `plan.final_weight or 18.4`. */
  function MisplacedGrams(plan: Plan): real {
    if plan.finalWeight.Some? && plan.finalWeight.value != 0.0 then plan.finalWeight.value else FALLBACK_GRAMS
  }

  /** The one result of a plan; `grams` is what the load cell settled on, `sensor` what the
      position sensor reads at the end. */
  function ResultOf(cfg: Config, op: string, plan: Plan, destination: int, start: int, sensor: int,
                    grams: real): MachineEvent
  {
    if Jams(plan, destination, start) then
      Terminal(cfg, op, "jam", Rest(plan, destination, start), sensor, 0.0, false, false)
    else if Misplaced(plan, destination) then
      Terminal(cfg, op, plan.status, Target(plan, destination), sensor, MisplacedGrams(plan), plan.mechanical, true)
    else
      Terminal(cfg, op, plan.status, sensor, sensor, grams, plan.status == "confirmed" && plan.mechanical, true)
  }

  function States(op: string, states: seq<MachineState>): seq<Event> {
    seq(|states|, i requires 0 <= i < |states| => StateChanged(op, states[i]))
  }

  /** The verdict the machine ends on after measuring. */
  function LastState(status: string): MachineState {
    if status == "confirmed" then DEPOSIT_CONFIRMED
    else if status == "underweight" then UNDERWEIGHT else SENSOR_ERROR
  }

  /** Machine states before the result. */
  function Before(plan: Plan, destination: int, start: int): seq<MachineState> {
    if Jams(plan, destination, start) then [ROUTING, MOVING, JAMMED]
    else if Misplaced(plan, destination) then [ROUTING, MOVING, POSITIONED, WRONG_POSITION]
    else
      [ROUTING, MOVING, POSITIONED, READY_FOR_DEPOSIT, DETECTING, MEASURING,
       LastState(plan.status)]
  }

  predicate Repeats(plan: Plan, destination: int, start: int) {
    plan.duplicate && plan.status == "confirmed" && !Jams(plan, destination, start) && !Misplaced(plan, destination)
  }

  /** Everything a plan publishes on the event topic, in order. */
  function Script(cfg: Config, op: string, plan: Plan, destination: int, start: int, sensor: int,
                  grams: real): seq<Event>
  {
    var result := DepositResult(ResultOf(cfg, op, plan, destination, start, sensor, grams));
    States(op, Before(plan, destination, start)) + [result] + States(op, [RESETTING, IDLE])
      + (if Repeats(plan, destination, start) then [result] else [])
  }

  /** What the position sensor reads after the move. */
  function SensorAfter(plan: Plan, destination: int, start: int, sensor: int): int {
    if Rest(plan, destination, start) == start then sensor else Rest(plan, destination, start)
  }

  /** A settled reading of the load cell: some noise draw on the plan's final weight. */
  ghost predicate Settled(plan: Plan, draws: nat -> real, grams: real)
    requires plan.timeline != []
  {
    exists n: nat :: grams == Round2(Round2(FinalGrams(plan) + draws(n)))
  }

  function FinalGrams(plan: Plan): real
    requires plan.timeline != []
  {
    if plan.finalWeight.Some? then plan.finalWeight.value
    else Ramp(plan.timeline, LastTime(plan))
  }

  /** Ramp time after `n` steps. */
  function Elapsed(n: nat, step: real): real {
    n as real * step
  }

  /** Whole steps that fit into the time left; negative when none is left. */
  function StepsIn(left: real, step: real): int
    requires step > 0.0
  {
    (left / step).Floor
  }

  function LastTime(plan: Plan): real
    requires plan.timeline != []
  {
    plan.timeline[|plan.timeline| - 1].t
  }

  /** Readings a ramp takes: one every `step` seconds up to the last breakpoint, none when the
      step is not positive. */
  function RampSteps(plan: Plan, step: real): nat
    requires plan.timeline != []
  {
    var last := LastTime(plan) + RAMP_SLACK;
    if step <= 0.0 || last < 0.0 then 0
    else
      OneStepLess(last, step);
      StepsIn(last, step) + 1
  }

  /** The reading at ramp time `t`, with noise draw number `n`. */
  function RampReading(plan: Plan, t: real, draws: nat -> real, n: nat, position: int): Reading
    requires plan.timeline != []
  {
    Reading(Some(position), Some(Round2(Ramp(plan.timeline, t) + draws(n))), Some(t >= LastTime(plan)), Some(true))
  }

  function RampTrace(plan: Plan, step: real, draws: nat -> real, from: nat, position: int, n: nat): seq<Reading>
    requires plan.timeline != []
  {
    if n == 0 then []
    else
      RampTrace(plan, step, draws, from, position, n - 1)
        + [RampReading(plan, Elapsed(n - 1, step), draws, from + n - 1, position)]
  }

  /** What weighing publishes when the next noise draw is number `from`. */
  function Weighing(plan: Plan, step: real, draws: nat -> real, from: nat, position: int): seq<Reading>
    requires plan.timeline != []
  {
    if step > 0.0 then RampTrace(plan, step, draws, from, position, RampSteps(plan, step))
    else [Reading(Some(position), Some(Round2(FinalGrams(plan) + draws(from))), Some(true), Some(true))]
  }

  /** What weighing settles on. */
  function SettledGrams(plan: Plan, step: real, draws: nat -> real, from: nat): real
    requires plan.timeline != []
  {
    Round2(Round2(FinalGrams(plan) + draws(from + RampSteps(plan, step))))
  }

  /** The carriage's telemetry: one reading per unit step. */
  function Track(start: int, target: int, moves: nat): seq<Reading> {
    seq(moves, i requires 0 <= i => Reading(Some(PositionAfter(start, target, i + 1)), None, None, None))
  }

  datatype Arrival = Arrived | Jammed | Lost
  datatype RunResult = Finished(result: MachineEvent) | Raised

  /** Nothing but state messages about `op` was published in between. */
  ghost predicate OnlyStates(before: seq<Event>, later: seq<Event>, op: string) {
    exists states: seq<MachineState> :: later == before + States(op, states)
  }

  /** Where a plan that raised leaves the machine. */
  ghost function StuckIn(plan: Plan, destination: int, state: MachineState, positions: set<int>,
                         start: int): MachineState
  {
    var target := Target(plan, destination);
    if !state.IDLE? then state
    else if RouteKnown(positions, start, target, Moves(plan.jamAtStep, Distance(start, target))) then MEASURING
    else MOVING
  }

  class Station {
    const cfg: Config
    const machine: StateMachine
    const carriage: Carriage
    const sensor: PositionSensor
    const beam: BeamSensor
    const cell: LoadCell
    var events: seq<Event>
    var readings: seq<Reading>

    constructor (cfg: Config, positions: set<int>, initial: int, draws: nat -> real)
      ensures fresh(machine) && fresh(carriage) && fresh(sensor) && fresh(beam) && fresh(cell)
      ensures machine.state == IDLE && sensor.positions == positions && cell.draws == draws
      ensures carriage.position == sensor.current == initial && events == [] && readings == []
    {
      this.cfg := cfg;
      machine := new StateMachine();
      carriage := new Carriage(initial);
      sensor := new PositionSensor(positions, initial);
      beam := new BeamSensor();
      cell := new LoadCell(draws);
      events, readings := [], [];
    }

    method Emit(op: string, state: MachineState)
      modifies this`events
      ensures events == old(events) + States(op, [state])
    {
      events := events + [StateChanged(op, state)];
    }

    method Observe(reading: Reading)
      modifies this`readings
      ensures readings == old(readings) + [reading]
    {
      readings := readings + [reading];
    }

    /** Changes state and says so; false if the transition is illegal. */
    method Enter(op: string, state: MachineState) returns (ok: bool)
      modifies this`events, machine
      ensures ok == (state in Allowed(old(machine.state)))
      ensures machine.state == if ok then state else old(machine.state)
      ensures events == if ok then old(events) + States(op, [state]) else old(events)
    {
      ok := machine.Transition(state);
      if ok {
        Emit(op, state);
      }
    }

    /** Drives the carriage step by step; the sensor follows each step. */
    method Drive(target: int) returns (arrival: Arrival)
      modifies carriage`position, sensor, this`readings
      ensures var start := old(carriage.position);
        var distance := Distance(start, target);
        var moves := Moves(carriage.jamAtStep, distance);
        && (arrival.Lost? <==> !RouteKnown(sensor.positions, start, target, moves))
        && (!arrival.Lost? ==>
              && arrival == (if JamsWithin(carriage.jamAtStep, distance) then Jammed else Arrived)
              && carriage.position == PositionAfter(start, target, moves)
              && sensor.current == (if moves == 0 then old(sensor.current) else carriage.position)
              && readings == old(readings) + Track(start, target, moves))
    {
      var start := carriage.position;
      var current := start;
      if target == current {
        return Arrived;
      }
      var step := 0;
      var direction := if target > current then 1 else -1;
      while current != target
        invariant 0 <= step <= Distance(start, target) && current == PositionAfter(start, target, step)
        invariant carriage.position == current && carriage.jamAtStep == old(carriage.jamAtStep)
        invariant step <= Moves(carriage.jamAtStep, Distance(start, target))
        invariant RouteKnown(sensor.positions, start, target, step)
        invariant sensor.current == if step == 0 then old(sensor.current) else current
        invariant readings == old(readings) + Track(start, target, step)
        decreases Distance(current, target)
      {
        step := step + 1;
        if carriage.jamAtStep == Some(step) {
          return Jammed;
        }
        current := current + direction;
        carriage.position := current;
        var ok := sensor.Set(current);
        if !ok {
          assert step <= Moves(carriage.jamAtStep, Distance(start, target));
          assert PositionAfter(start, target, step) !in sensor.positions;
          return Lost;
        }
        Observe(Reading(Some(current), None, None, None));
        assert Track(start, target, step)
            == Track(start, target, step - 1) + [Reading(Some(current), None, None, None)];
      }
      arrival := Arrived;
    }

    /** Weighs the item: a fast single reading, or one reading per ramp step. */
    method RunWeightRamp(plan: Plan) returns (grams: real)
      requires plan.timeline != []
      modifies cell`taken, cell`value, this`readings
      ensures readings == old(readings) + Weighing(plan, cfg.rampStep, cell.draws, old(cell.taken), sensor.current)
      ensures grams == SettledGrams(plan, cfg.rampStep, cell.draws, old(cell.taken))
      ensures cell.taken == old(cell.taken) + RampSteps(plan, cfg.rampStep) + 1
    {
      hide Elapsed, StepsIn, Ramp, Round2;
      var reading: real;
      if cfg.rampStep > 0.0 {
        var t := 0.0;
        ghost var steps := 0;
        ghost var from, fit := cell.taken, StepsIn(LastTime(plan) + RAMP_SLACK, cfg.rampStep);
        assert Elapsed(0, cfg.rampStep) == 0.0 by {
          ElapsedStep(0, cfg.rampStep);
        }
        while t <= LastTime(plan) + RAMP_SLACK
          invariant t == Elapsed(steps, cfg.rampStep) && cfg.rampStep > 0.0
          invariant StepsIn(LastTime(plan) + RAMP_SLACK - t, cfg.rampStep) == fit - steps
          invariant steps > 0 ==> steps <= fit + 1 && LastTime(plan) + RAMP_SLACK >= 0.0
          invariant cell.taken == from + steps
          invariant readings == old(readings) + RampTrace(plan, cfg.rampStep, cell.draws, from, sensor.current, steps)
          decreases fit + 1 - steps
        {
          cell.value := Ramp(plan.timeline, t);
          reading := cell.ReadWeight();
          Observe(Reading(Some(sensor.current), Some(reading), Some(t >= LastTime(plan)), Some(true)));
          OneStepLess(LastTime(plan) + RAMP_SLACK - t, cfg.rampStep);
          ElapsedStep(steps, cfg.rampStep);
          t := t + cfg.rampStep;
          steps := steps + 1;
        }
        NoStepLeft(LastTime(plan) + RAMP_SLACK - t, cfg.rampStep);
        cell.value := FinalGrams(plan);
        reading := cell.ReadWeight();
      } else {
        cell.value := FinalGrams(plan);
        reading := cell.ReadWeight();
        Observe(Reading(Some(sensor.current), Some(reading), Some(true), Some(true)));
      }
      grams := Round2(reading);
    }

    /** Goes back to IDLE where the table allows it. */
    method Reset(op: string)
      modifies this`events, machine
      ensures RESETTING in Allowed(old(machine.state)) ==>
        machine.state == IDLE && events == old(events) + States(op, [RESETTING, IDLE])
    {
      if machine.CanTransition(RESETTING) {
        var ok := Enter(op, RESETTING);
      }
      if machine.CanTransition(IDLE) {
        var ok := Enter(op, IDLE);
      }
    }

    method Publish(result: MachineEvent)
      modifies this`events
      ensures events == old(events) + [DepositResult(result)]
    {
      events := events + [DepositResult(result)];
    }

    /** Enters the last state before the result, publishes the result and resets. */
    method Conclude(op: string, state: MachineState, result: MachineEvent)
      requires state in Allowed(machine.state) && RESETTING in Allowed(state)
      modifies this`events, machine
      ensures machine.state == IDLE
      ensures events == old(events) + States(op, [state]) + [DepositResult(result)] + States(op, [RESETTING, IDLE])
    {
      var ok := Enter(op, state);
      Publish(result);
      Reset(op);
    }

    /** From IDLE to MOVING. */
    method StartMoving(op: string, jamAtStep: Option<int>) returns (ok: bool)
      modifies this`events, machine, carriage`jamAtStep
      ensures ok <==> old(machine.state) == IDLE
      ensures ok ==> machine.state == MOVING && carriage.jamAtStep == jamAtStep
                     && events == old(events) + States(op, [ROUTING, MOVING])
      ensures !ok ==> machine.state == old(machine.state) && events == old(events)
    {
      ok := Enter(op, ROUTING);
      if !ok {
        return;
      }
      carriage.jamAtStep := jamAtStep;
      ok := Enter(op, MOVING);
    }

    /** From POSITIONED through the measurement; false if the timeline is empty. */
    method Measure(op: string, plan: Plan) returns (ok: bool, grams: real)
      requires machine.state == POSITIONED
      modifies this`events, this`readings, machine, beam, cell`taken, cell`value
      ensures machine.state == MEASURING
      ensures events == old(events) + States(op, [READY_FOR_DEPOSIT, DETECTING, MEASURING])
      ensures ok <==> plan.timeline != []
      ensures ok ==>
        && grams == SettledGrams(plan, cfg.rampStep, cell.draws, old(cell.taken)) && !beam.broken
        && readings == old(readings) + [Reading(None, Some(0.0), None, Some(plan.beamSeen || old(beam.broken)))]
             + Weighing(plan, cfg.rampStep, cell.draws, old(cell.taken), sensor.current)
             + [Reading(None, Some(grams), Some(true), Some(false))]
    {
      var entered := Enter(op, READY_FOR_DEPOSIT);
      entered := machine.Transition(DETECTING);
      if plan.beamSeen {
        beam.broken := true;
      }
      Observe(Reading(None, Some(0.0), None, Some(beam.broken)));
      Emit(op, DETECTING);
      entered := Enter(op, MEASURING);
      if plan.timeline == [] {
        return false, 0.0;
      }
      grams := RunWeightRamp(plan);
      beam.broken := false;
      Observe(Reading(None, Some(grams), Some(true), Some(false)));
      ok := true;
    }

    /** The carriage has arrived: a misplaced deposit is reported, any other is weighed. */
    method AfterArrival(op: string, destination: int, plan: Plan, ghost before: seq<Event>, ghost start: int)
      returns (r: RunResult, ghost grams: real)
      requires machine.state == MOVING && !Jams(plan, destination, start)
      requires events == before + States(op, [ROUTING, MOVING])
      modifies this`events, this`readings, machine, beam, cell`taken, cell`value
      ensures r.Finished? <==> Misplaced(plan, destination) || plan.timeline != []
      ensures r.Finished? ==>
        && machine.state == IDLE
        && r.result == ResultOf(cfg, op, plan, destination, start, sensor.current, grams)
        && events == before + Script(cfg, op, plan, destination, start, sensor.current, grams)
        && (Misplaced(plan, destination) || Settled(plan, cell.draws, grams))
      ensures r.Raised? ==> machine.state == MEASURING && OnlyStates(before, events, op)
    {
      hide Weighing, RampSteps, FinalGrams, Round2;
      var ok := Enter(op, POSITIONED);
      if Misplaced(plan, destination) {
        var target := Target(plan, destination);
        grams := 0.0;
        Observe(Reading(Some(target), Some(MisplacedGrams(plan)), None, None));
        var result := Terminal(cfg, op, plan.status, target, sensor.current, MisplacedGrams(plan), plan.mechanical,
                               true);
        Conclude(op, WRONG_POSITION, result);
        MisplacedScript(before, cfg, op, plan, destination, start, sensor.current, grams);
        return Finished(result), grams;
      }
      var weighed, weight := Measure(op, plan);
      grams := weight;
      MeasuredStates(before, op);
      if !weighed {
        return Raised, grams;
      }
      var result := Terminal(cfg, op, plan.status, sensor.current, sensor.current, weight,
                             plan.status == "confirmed" && plan.mechanical, true);
      Conclude(op, LastState(plan.status), result);
      if plan.status == "confirmed" && plan.duplicate {
        Publish(result);
      }
      MeasuredScript(before, cfg, op, plan, destination, start, sensor.current, grams);
      r := Finished(result);
    }

    /** Runs one plan. It finishes exactly when it starts in IDLE, passes only known positions and
        has a timeline to weigh by; then it has published its script and is in IDLE again, with
        the carriage at the target or on the last step before the jam. Otherwise it raises
        without having published a result, and leaves a state in which no plan ever runs. */
    method RunPlan(op: string, destination: int, plan: Plan) returns (r: RunResult, ghost grams: real)
      modifies this`events, this`readings, machine, carriage, sensor, beam, cell`taken, cell`value
      ensures r.Finished? <==> CanRun(plan, destination, old(machine.state), sensor.positions, old(carriage.position))
      ensures r.Finished? ==>
        && machine.state == IDLE
        && carriage.position == Rest(plan, destination, old(carriage.position))
        && sensor.current == SensorAfter(plan, destination, old(carriage.position), old(sensor.current))
        && r.result == ResultOf(cfg, op, plan, destination, old(carriage.position), sensor.current, grams)
        && events == old(events) + Script(cfg, op, plan, destination, old(carriage.position), sensor.current, grams)
        && (Jams(plan, destination, old(carriage.position)) || Misplaced(plan, destination)
            || Settled(plan, cell.draws, grams))
      ensures r.Raised? ==>
        && machine.state == StuckIn(plan, destination, old(machine.state), sensor.positions, old(carriage.position))
        && OnlyStates(old(events), events, op)
    {
      ghost var before, start := events, carriage.position;
      grams := 0.0;
      var ok := StartMoving(op, plan.jamAtStep);
      if !ok {
        assert events == before + States(op, []);
        return Raised, grams;
      }
      var target := Target(plan, destination);
      var arrival := Drive(target);
      if arrival.Lost? {
        assert events == before + States(op, [ROUTING, MOVING]);
        return Raised, grams;
      }
      if arrival.Jammed? {
        var result := Terminal(cfg, op, "jam", carriage.position, sensor.current, 0.0, false, false);
        Conclude(op, JAMMED, result);
        JamScript(before, cfg, op, plan, destination, start, sensor.current, grams);
        return Finished(result), grams;
      }
      r, grams := AfterArrival(op, destination, plan, before, start);
    }
  }

  // ---- the pieces of a script ---------------------------------------------------------------

  lemma JamScript(before: seq<Event>, cfg: Config, op: string, plan: Plan, destination: int, start: int,
                  sensor: int, grams: real)
    requires Jams(plan, destination, start)
    ensures before + States(op, [ROUTING, MOVING]) + States(op, [JAMMED])
              + [DepositResult(ResultOf(cfg, op, plan, destination, start, sensor, grams))]
                + States(op, [RESETTING, IDLE])
         == before + Script(cfg, op, plan, destination, start, sensor, grams)
  {
    assert States(op, [ROUTING, MOVING]) + States(op, [JAMMED]) == States(op, [ROUTING, MOVING, JAMMED]);
  }

  lemma MisplacedScript(before: seq<Event>, cfg: Config, op: string, plan: Plan, destination: int, start: int,
                        sensor: int, grams: real)
    requires !Jams(plan, destination, start) && Misplaced(plan, destination)
    ensures before + States(op, [ROUTING, MOVING]) + States(op, [POSITIONED]) + States(op, [WRONG_POSITION])
              + [DepositResult(ResultOf(cfg, op, plan, destination, start, sensor, grams))]
                + States(op, [RESETTING, IDLE])
         == before + Script(cfg, op, plan, destination, start, sensor, grams)
  {
    assert States(op, [ROUTING, MOVING]) + States(op, [POSITIONED]) + States(op, [WRONG_POSITION])
        == States(op, [ROUTING, MOVING, POSITIONED, WRONG_POSITION]);
  }

  lemma MeasuredStates(before: seq<Event>, op: string)
    ensures before + States(op, [ROUTING, MOVING]) + States(op, [POSITIONED])
              + States(op, [READY_FOR_DEPOSIT, DETECTING, MEASURING])
         == before + States(op, [ROUTING, MOVING, POSITIONED, READY_FOR_DEPOSIT, DETECTING, MEASURING])
  {
    assert States(op, [ROUTING, MOVING]) + States(op, [POSITIONED])
      + States(op, [READY_FOR_DEPOSIT, DETECTING, MEASURING])
        == States(op, [ROUTING, MOVING, POSITIONED, READY_FOR_DEPOSIT, DETECTING, MEASURING]);
  }

  lemma MeasuredScript(before: seq<Event>, cfg: Config, op: string, plan: Plan, destination: int, start: int,
                       sensor: int, grams: real)
    requires !Jams(plan, destination, start) && !Misplaced(plan, destination)
    ensures var result := [DepositResult(ResultOf(cfg, op, plan, destination, start, sensor, grams))];
      var final := LastState(plan.status);
      before + States(op, [ROUTING, MOVING]) + States(op, [POSITIONED])
        + States(op, [READY_FOR_DEPOSIT, DETECTING, MEASURING]) + States(op, [final]) + result
        + States(op, [RESETTING, IDLE]) + (if Repeats(plan, destination, start) then result else [])
      == before + Script(cfg, op, plan, destination, start, sensor, grams)
  {
    var final := LastState(plan.status);
    assert States(op, [ROUTING, MOVING]) + States(op, [POSITIONED])
             + States(op, [READY_FOR_DEPOSIT, DETECTING, MEASURING]) + States(op, [final])
        == States(op, [ROUTING, MOVING, POSITIONED, READY_FOR_DEPOSIT, DETECTING, MEASURING, final]);
  }

  /** What a plan publishes besides its states: its one result right before the reset, and the
      same once more at the end if it is a confirmed deposit told to repeat it. */
  lemma ResultsInScript(cfg: Config, op: string, plan: Plan, destination: int, start: int, sensor: int, grams: real)
    ensures var script := Script(cfg, op, plan, destination, start, sensor, grams);
      var states := Before(plan, destination, start);
      var result := DepositResult(ResultOf(cfg, op, plan, destination, start, sensor, grams));
      var again := plan.duplicate && states[|states| - 1] == DEPOSIT_CONFIRMED;
      && |script| == |states| + 3 + (if again then 1 else 0)
      && (forall i :: 0 <= i < |states| ==> script[i] == StateChanged(op, states[i]))
      && script[|states|] == result
      && script[|states| + 1] == StateChanged(op, RESETTING) && script[|states| + 2] == StateChanged(op, IDLE)
      && (again ==> script[|states| + 3] == result)
  {
    ScriptIsLegal(plan, destination, start);
    var states := Before(plan, destination, start);
    assert |States(op, [RESETTING, IDLE])| == 2;
    assert Repeats(plan, destination, start) <==> plan.duplicate && states[|states| - 1] == DEPOSIT_CONFIRMED;
  }

  /** The result a plan publishes, field by field: after a jam the place of the jam, no weight, no
      beam and no confirmation; after a wrong position the place it was sent to and the plan's own
      weight; otherwise the sensor's place, the settled weight, and the mechanical confirmation only
      of a confirmed deposit. */
  lemma ResultIs(cfg: Config, op: string, plan: Plan, destination: int, start: int, sensor: int, grams: real)
    ensures var states := Before(plan, destination, start);
      var routed := if plan.destination.Some? then plan.destination.value else destination;
      var target := if plan.actual.Some? then plan.actual.value else routed;
      var own := if plan.finalWeight.Some? && plan.finalWeight.value != 0.0 then plan.finalWeight.value else 18.4;
      ResultOf(cfg, op, plan, destination, start, sensor, grams) ==
        match states[|states| - 1]
        case JAMMED =>
          MachineEvent(Some(cfg.code), Some(op), Some("jam"),
                       Some(if start < target then start + plan.jamAtStep.value - 1
                            else start - plan.jamAtStep.value + 1),
                       Some(0.0), 0.0 >= cfg.minGrams, false, false, Some(sensor))
        case WRONG_POSITION =>
          MachineEvent(Some(cfg.code), Some(op), Some(plan.status), Some(target), Some(Round2(own)),
                       own >= cfg.minGrams, true, plan.mechanical, Some(sensor))
        case _ =>
          MachineEvent(Some(cfg.code), Some(op), Some(plan.status), Some(sensor), Some(Round2(grams)),
                       grams >= cfg.minGrams, true, plan.status == "confirmed" && plan.mechanical, Some(sensor))
  {
    assert Round2(0.0) == 0.0;
    ScriptIsLegal(plan, destination, start);
    hide Round2;
  }

  /** A ramp takes a reading at every multiple of the step up to a nanosecond behind the last
      breakpoint, and no other. */
  lemma {:induction false} RampStepsAre(plan: Plan, step: real, i: nat)
    requires plan.timeline != [] && step > 0.0
    ensures i < RampSteps(plan, step) <==>
              i as real * step <= plan.timeline[|plan.timeline| - 1].t + 0.000000001
  {
    var last := LastTime(plan) + RAMP_SLACK;
    var n := StepsIn(last, step);
    StepsFit(last, step, i);
    if last < 0.0 {
      assert i as real * step >= 0.0;
    }
  }

  lemma StepsFit(left: real, step: real, i: nat)
    requires step > 0.0
    ensures i <= StepsIn(left, step) <==> i as real * step <= left
  {
    var q := left / step;
    Quotient(left, step, q);
    assert q * step == left;
    var d := q - i as real;
    assert d * step == left - i as real * step;
    if d < 0.0 {
      assert d * step < 0.0;
    } else {
      assert d * step >= 0.0;
    }
    assert i <= q.Floor <==> i as real <= q;
  }

  lemma {:induction false} TraceAt(plan: Plan, step: real, draws: nat -> real, from: nat, position: int, n: nat, i: nat)
    requires plan.timeline != [] && i < n
    ensures |RampTrace(plan, step, draws, from, position, n)| == n
    ensures RampTrace(plan, step, draws, from, position, n)[i]
         == RampReading(plan, Elapsed(i, step), draws, from + i, position)
    decreases n
  {
    if i < n - 1 {
      TraceAt(plan, step, draws, from, position, n - 1, i);
    } else if n > 1 {
      TraceAt(plan, step, draws, from, position, n - 1, 0);
    }
  }

  /** Each of these readings carries the position, the ramp's weight at its time with the next
      noise, rounded, and is stable from the last breakpoint on; without a step there is one stable
      reading of the final weight. */
  lemma WeighingIs(plan: Plan, step: real, draws: nat -> real, from: nat, position: int)
    requires plan.timeline != []
    ensures var readings := Weighing(plan, step, draws, from, position);
      if step > 0.0 then
        && |readings| == RampSteps(plan, step)
        && forall i :: 0 <= i < |readings| ==>
             var t := i as real * step;
             readings[i] == Reading(Some(position), Some(Round2(Ramp(plan.timeline, t) + draws(from + i))),
                                    Some(t >= plan.timeline[|plan.timeline| - 1].t), Some(true))
      else
        var final := if plan.finalWeight.Some? then plan.finalWeight.value
                     else Ramp(plan.timeline, plan.timeline[|plan.timeline| - 1].t);
        readings == [Reading(Some(position), Some(Round2(final + draws(from))), Some(true), Some(true))]
  {
    hide Ramp, Round2;
    if step > 0.0 {
      var n := RampSteps(plan, step);
      if n > 0 {
        TraceAt(plan, step, draws, from, position, n, 0);
      }
      forall i | 0 <= i < n
        ensures Weighing(plan, step, draws, from, position)[i]
             == RampReading(plan, i as real * step, draws, from + i, position)
      {
        TraceAt(plan, step, draws, from, position, n, i);
      }
    }
  }

  /** On its way the carriage reports each unit step towards the target. */
  lemma TrackIs(start: int, target: int, moves: nat)
    requires start != target
    ensures |Track(start, target, moves)| == moves
    ensures forall i :: 0 <= i < moves ==>
      Track(start, target, moves)[i]
        == Reading(Some(if start < target then start + i + 1 else start - i - 1), None, None, None)
  {
  }

  /** A plan's messages follow the machine's own table, from IDLE back to IDLE, and the state
      before the result tells the outcome: a jam on the way, else a carriage that settled where it
      was not routed, else what the machine reports. */
  lemma ScriptIsLegal(plan: Plan, destination: int, start: int)
    ensures var states := Before(plan, destination, start);
      var routed := if plan.destination.Some? then plan.destination.value else destination;
      var target := if plan.actual.Some? then plan.actual.value else routed;
      var distance := if start <= target then target - start else start - target;
      && states != [] && Legal([IDLE] + states + [RESETTING, IDLE])
      && states[|states| - 1] ==
         (if plan.jamAtStep.Some? && 1 <= plan.jamAtStep.value <= distance then JAMMED
          else if target != routed then WRONG_POSITION
          else if plan.status == "confirmed" then DEPOSIT_CONFIRMED
          else if plan.status == "underweight" then UNDERWEIGHT
          else SENSOR_ERROR)
  {
    var states := Before(plan, destination, start);
    var path := [IDLE] + states + [RESETTING, IDLE];
    forall i | 0 < i < |path| ensures path[i] in Allowed(path[i - 1]) {
    }
  }

  /** A settled reading is within the noise and half a hundredth of the plan's final weight. */
  lemma SettledNear(plan: Plan, draws: nat -> real, grams: real, noise: real)
    requires plan.timeline != [] && Settled(plan, draws, grams)
    requires forall n: nat :: -noise <= draws(n) <= noise
    ensures var final := if plan.finalWeight.Some? then plan.finalWeight.value
                         else Ramp(plan.timeline, plan.timeline[|plan.timeline| - 1].t);
      final - noise - 0.005 <= grams <= final + noise + 0.005
  {
    var n: nat :| grams == Round2(Round2(FinalGrams(plan) + draws(n)));
    Round2Near(FinalGrams(plan) + draws(n));
  }

  lemma ElapsedStep(n: nat, step: real)
    ensures Elapsed(0, step) == 0.0 && Elapsed(n + 1, step) == Elapsed(n, step) + step
  {
  }

  /** One more ramp step takes one off the number of steps left. */
  lemma OneStepLess(left: real, step: real)
    requires step > 0.0 && left >= 0.0
    ensures StepsIn(left, step) >= 0 && StepsIn(left - step, step) == StepsIn(left, step) - 1
  {
    Quotient(left, step, left / step);
    Quotient(left - step, step, left / step - 1.0);
    if left / step < 0.0 {
      assert (-(left / step)) * step > 0.0;
    }
  }

  lemma NoStepLeft(left: real, step: real)
    requires step > 0.0 && left < 0.0
    ensures StepsIn(left, step) < 0
  {
    Quotient(left, step, left / step);
  }

  lemma Quotient(a: real, b: real, q: real)
    requires b > 0.0
    ensures q * b == a <==> a / b == q
  {
  }
}
