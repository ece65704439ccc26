/** The parts of one station: state machine, carriage, sensors, load cell. */
module Hardware {
  import opened Options

  datatype MachineState =
    | IDLE | ROUTING | MOVING | POSITIONED | READY_FOR_DEPOSIT | DETECTING | MEASURING
    | DEPOSIT_CONFIRMED | RESETTING | JAMMED | WRONG_POSITION | UNDERWEIGHT | SENSOR_ERROR | TIMEOUT

  function Allowed(s: MachineState): set<MachineState> {
    match s
    case IDLE => {ROUTING}
    case ROUTING => {MOVING}
    case MOVING => {POSITIONED, JAMMED, WRONG_POSITION, TIMEOUT, SENSOR_ERROR}
    case POSITIONED => {READY_FOR_DEPOSIT, JAMMED, WRONG_POSITION}
    case READY_FOR_DEPOSIT => {DETECTING}
    case DETECTING => {MEASURING, SENSOR_ERROR}
    case MEASURING => {DEPOSIT_CONFIRMED, UNDERWEIGHT, SENSOR_ERROR}
    case RESETTING => {IDLE}
    case _ => {RESETTING}
  }

  /** Every state may follow the one before it. */
  predicate Legal(path: seq<MachineState>) {
    forall i :: 0 < i < |path| ==> path[i] in Allowed(path[i - 1])
  }

  const DEPOSIT_PATH: seq<MachineState> :=
    [IDLE, ROUTING, MOVING, POSITIONED, READY_FOR_DEPOSIT, DETECTING, MEASURING, DEPOSIT_CONFIRMED]

  /** A machine confirms a deposit in one way only: whatever legal path leads from IDLE to
      DEPOSIT_CONFIRMED without coming back to IDLE goes through all the states in between. */
  lemma ConfirmedOneWay(path: seq<MachineState>)
    requires Legal(path) && path != [] && path[0] == IDLE && path[|path| - 1] == DEPOSIT_CONFIRMED
    requires forall i :: 0 < i < |path| ==> path[i] != IDLE
    ensures path == DEPOSIT_PATH
  {
    var n := |path|;
    assert n > 1;
    OnlyBefore(path[n - 2], path[n - 1]);
    OnlyBefore(path[n - 3], path[n - 2]);
    OnlyBefore(path[n - 4], path[n - 3]);
    OnlyBefore(path[n - 5], path[n - 4]);
    OnlyBefore(path[n - 6], path[n - 5]);
    OnlyBefore(path[n - 7], path[n - 6]);
    OnlyBefore(path[n - 8], path[n - 7]);
    assert n == 8;
  }

  /** Each state on the way to a confirmation has one predecessor. */
  lemma OnlyBefore(s: MachineState, to: MachineState)
    requires to in Allowed(s)
    ensures to == DEPOSIT_CONFIRMED ==> s == MEASURING
    ensures to == MEASURING ==> s == DETECTING
    ensures to == DETECTING ==> s == READY_FOR_DEPOSIT
    ensures to == READY_FOR_DEPOSIT ==> s == POSITIONED
    ensures to == POSITIONED ==> s == MOVING
    ensures to == MOVING ==> s == ROUTING
    ensures to == ROUTING ==> s == IDLE
    ensures to == IDLE ==> s == RESETTING
    ensures to == RESETTING ==>
      s in {DEPOSIT_CONFIRMED, JAMMED, WRONG_POSITION, UNDERWEIGHT, SENSOR_ERROR, TIMEOUT}
    ensures to == JAMMED || to == WRONG_POSITION ==> s in {MOVING, POSITIONED}
    ensures to == TIMEOUT ==> s == MOVING
    ensures to == UNDERWEIGHT ==> s == MEASURING
    ensures to == SENSOR_ERROR ==> s in {MOVING, DETECTING, MEASURING}
  {
  }

  class StateMachine {
    var state: MachineState

    constructor ()
      ensures state == IDLE
    {
      state := IDLE;
    }

    /** False stands for a raised IllegalTransition. */
    method Transition(to: MachineState) returns (ok: bool)
      modifies this
      ensures ok == (to in Allowed(old(state)))
      ensures state == if ok then to else old(state)
    {
      ok := to in Allowed(state);
      if ok {
        state := to;
      }
    }

    predicate CanTransition(to: MachineState)
      reads this
    {
      to in Allowed(state)
    }
  }

  class Carriage {
    var position: int
    var jamAtStep: Option<int>  // 1-based

    constructor (initial: int)
      ensures position == initial && jamAtStep == None
    {
      position, jamAtStep := initial, None;
    }
  }

  class PositionSensor {
    const positions: set<int>
    var current: int

    constructor (positions: set<int>, initial: int)
      ensures this.positions == positions && current == initial
    {
      this.positions, current := positions, initial;
    }

    /** False stands for a raised ValueError. */
    method Set(position: int) returns (ok: bool)
      modifies this
      ensures ok == (position in positions)
      ensures current == if ok then position else old(current)
    {
      ok := position in positions;
      if ok {
        current := position;
      }
    }
  }

  class BeamSensor {
    var broken: bool

    constructor ()
      ensures !broken
    {
      broken := false;
    }
  }

  /** Nearest hundredth, ties to the even one. */
  function Round2(x: real): real {
    var scaled := x * 100.0;
    var low := scaled.Floor;
    var rest := scaled - low as real;
    var n := if rest < 0.5 || (rest == 0.5 && low % 2 == 0) then low else low + 1;
    n as real / 100.0
  }

  predicate Hundredths(y: real, n: int) { y == n as real / 100.0 }

  /** Rounding gives the nearest whole number of hundredths, the even one of two. */
  lemma Round2Near(x: real)
    ensures x - 0.005 <= Round2(x) <= x + 0.005
    ensures Round2(Round2(x)) == Round2(x)
    ensures exists n :: Hundredths(Round2(x), n)
                        && (Round2(x) == x - 0.005 || Round2(x) == x + 0.005 ==> n % 2 == 0)
  {
    var scaled := x * 100.0;
    var low := scaled.Floor;
    var rest := scaled - low as real;
    var n := if rest < 0.5 || (rest == 0.5 && low % 2 == 0) then low else low + 1;
    assert Round2(x) * 100.0 == n as real;
    assert (n as real).Floor == n;
    if Round2(x) == x - 0.005 {
      assert n as real == scaled - 0.5;
    } else if Round2(x) == x + 0.005 {
      assert n as real == scaled + 0.5;
    }
    assert Hundredths(Round2(x), n) && (Round2(x) == x - 0.005 || Round2(x) == x + 0.005 ==> n % 2 == 0);
  }

  class LoadCell {
    const draws: nat -> real  // the noise of each reading
    var taken: nat
    var value: real

    constructor (draws: nat -> real)
      ensures this.draws == draws && taken == 0 && value == 0.0
    {
      this.draws, taken, value := draws, 0, 0.0;
    }

    method ReadWeight() returns (grams: real)
      modifies this`taken
      ensures taken == old(taken) + 1 && grams == Round2(value + draws(old(taken)))
    {
      grams := Round2(value + draws(taken));
      taken := taken + 1;
    }
  }
}
