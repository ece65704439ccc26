/** What each step of a deposit does to the tables: session creation, station capture, cancel,
    machine telemetry, and the physical result that alone can move points. */
module DepositRules {
  import opened Options
  import opened Schema
  import Totals
  import RewardRules

  const VALID_CLASSES: set<string> := {"plastic", "metal", "paper", "other"}

  /** A `deposit_result` message; an absent field is `None`. */
  datatype MachineEvent = MachineEvent(
    station: Option<string>, operation: Option<string>, status: Option<string>,
    actual: Option<int>, weight: Option<real>, stable: bool, beam: bool, mechanical: bool,
    carriage: Option<int>)

  /** What the station camera and the classifier deliver for one frame. */
  datatype Frame = Unusable | Classified(id: string, cls: string, level: Level)

  datatype Step =
    | Create(op: string, user: string, station: string, prediction: Option<string>, now: real)
    | CaptureFrame(op: string, station: string, frame: Frame, now: real)
    | Abort(op: string, user: string)
    | Telemetry(op: string, state: string)
    | Result(event: MachineEvent, now: real)

  // ---- telemetry --------------------------------------------------------------------------

  /** `s.upper()` on ASCII letters. */
  function Upper(s: string): string {
    seq(|s|, i requires 0 <= i < |s| => if 'a' <= s[i] <= 'z' then (s[i] as int - 32) as char else s[i])
  }

  /** The phase a machine state stands for, whatever case it is sent in. */
  function MachinePhase(state: string): Option<Phase> {
    var name := Upper(state);
    if name == "ROUTING" then Some(Routing)
    else if name == "MOVING" then Some(Moving)
    else if name == "POSITIONED" || name == "READY_FOR_DEPOSIT" then Some(Ready)
    else if name == "DETECTING" then Some(Detecting)
    else if name == "MEASURING" then Some(Measuring)
    else None
  }

  function Rank(p: Phase): int {
    match p
    case Capture => -2
    case Analyzing => -1
    case Routing => 1
    case Moving => 2
    case Ready => 3
    case Detecting => 4
    case Measuring => 5
    case _ => 0
  }

  /** Telemetry moves a live session to a phase of higher rank only. */
  function Advance(p: Phase, state: string): Phase {
    var target := MachinePhase(state);
    if target.None? || Terminal(p) || Rank(target.value) <= Rank(p) then p else target.value
  }

  function Observe(db: Tables, op: string, state: string): (out: Outcome)
    ensures out.db.redemptions == db.redemptions && out.db.rewards == db.rewards
  {
    if op !in db.sessions || Advance(db.sessions[op].phase, state) == db.sessions[op].phase then
      Outcome(db, Refusal(DepositRefused))
    else
      Outcome(
        db.(sessions := db.sessions[op := db.sessions[op].(phase := Advance(db.sessions[op].phase, state))]),
        Committed(op))
  }

  // ---- creation, capture, cancel ------------------------------------------------------------

  function NewSession(db: Tables, user: string, station: string, now: real): Session {
    Session(user, station, None, 0, Capture, None, None, None, None, None, None, None, None,
            now + db.settings.sessionTtl)
  }

  function Attach(s: Session, id: string, cls: string, level: Level, policy: Policy, phase: Phase): Session {
    s.(prediction := Some(id), cls := Some(cls), level := Some(level),
       position := Some(policy.position), potential := policy.points, phase := phase)
  }

  function CreateSession(db: Tables, op: string, user: string, station: string,
                         prediction: Option<string>, now: real): (out: Outcome)
    ensures out.db.redemptions == db.redemptions && out.db.rewards == db.rewards
  {
    if station !in db.stations || user !in db.users || op in db.sessions then Outcome(db, Refusal(DepositRefused))
    else if prediction.None? then
      Outcome(db.(sessions := db.sessions[op := NewSession(db, user, station, now)]), Committed(op))
    else if prediction.value !in db.predictions then Outcome(db, Refusal(DepositRefused))
    else
      var p := db.predictions[prediction.value];
      if p.user != user || p.expiresAt < now || p.level.Low? || p.cls !in db.policies then
        Outcome(db, Refusal(DepositRefused))
      else
        var s := Attach(NewSession(db, user, station, now), prediction.value, p.cls, p.level,
                        db.policies[p.cls], Waiting);
        Outcome(db.(sessions := db.sessions[op := s]), Committed(op))
  }

  /** Stations named by a code or an id. */
  predicate Names(db: Tables, name: string, id: string) {
    id in db.stations && (db.stations[id] == name || id == name)
  }

  /** The station query is an error when two rows answer it. */
  predicate Ambiguous(db: Tables, name: string) {
    exists a, b :: a in db.stations && b in db.stations && a != b && Names(db, name, a) && Names(db, name, b)
  }

  /** The frame reached the classifier and its prediction could be stored. */
  predicate Predicted(db: Tables, s: Session, frame: Frame) {
    s.user in db.users && frame.Classified? && frame.cls in VALID_CLASSES && frame.cls in db.policies
    && frame.id !in db.predictions
  }

  /** The session after one frame. When the call ends in an error after its first commit the
      session stays `Analyzing`. */
  function Captured(db: Tables, s: Session, frame: Frame): Session {
    if s.user in db.users && frame.Unusable? then s.(phase := Capture)
    else if !Predicted(db, s, frame) then s.(phase := Analyzing)
    else if frame.level.Low? then
      Attach(s, frame.id, frame.cls, frame.level, db.policies[frame.cls], Phase.Refused).(reason := Some(LowConfidence))
    else Attach(s, frame.id, frame.cls, frame.level, db.policies[frame.cls], Waiting)
  }

  function StoredPredictions(db: Tables, s: Session, frame: Frame, now: real): map<string, Prediction> {
    if Predicted(db, s, frame) then
      db.predictions[frame.id := Prediction(s.user, frame.cls, frame.level, now + db.settings.sessionTtl)]
    else db.predictions
  }

  function CaptureStation(db: Tables, op: string, station: string, frame: Frame, now: real): (out: Outcome)
    ensures out.db.redemptions == db.redemptions && out.db.rewards == db.rewards
  {
    if op !in db.sessions || Ambiguous(db, station) || !Names(db, station, db.sessions[op].station)
       || Terminal(db.sessions[op].phase) then Outcome(db, Refusal(DepositRefused))
    else
      Outcome(db.(sessions := db.sessions[op := Captured(db, db.sessions[op], frame)],
                  predictions := StoredPredictions(db, db.sessions[op], frame, now)), Committed(op))
  }

  function AbortSession(db: Tables, op: string, user: string): (out: Outcome)
    ensures out.db.redemptions == db.redemptions && out.db.rewards == db.rewards
  {
    if op !in db.sessions || db.sessions[op].user != user || Terminal(db.sessions[op].phase) then
      Outcome(db, Refusal(DepositRefused))
    else
      Outcome(db.(sessions := db.sessions[op := db.sessions[op].(phase := Aborted)]), Committed(op))
  }

  // ---- the physical result ------------------------------------------------------------------

  function Claimed(e: MachineEvent): string { if e.status.Some? then e.status.value else "confirmed" }
  function ActualPosition(e: MachineEvent): int { if e.actual.Some? then e.actual.value else 0 }
  function Weight(e: MachineEvent): real { if e.weight.Some? then e.weight.value else 0.0 }
  function CarriagePosition(e: MachineEvent): int { if e.carriage.Some? then e.carriage.value else 0 }

  function PhysicalFailure(minGrams: real, s: Session, e: MachineEvent): Option<Reason> {
    if Claimed(e) != "confirmed" then Some(MachineReported(Claimed(e)))
    else if Some(ActualPosition(e)) != s.position then Some(WrongPosition(s.position, ActualPosition(e)))
    else if Weight(e) < minGrams then Some(Underweight(Weight(e)))
    else if !e.stable then Some(WeightNotStable)
    else if !e.beam then Some(NoBeamBreak)
    else if !e.mechanical then Some(NoMechanicalConfirmation)
    else if CarriagePosition(e) != ActualPosition(e) then Some(CarriageElsewhere(CarriagePosition(e)))
    else None
  }

  function RejectedEvent(s: Session): WasteEvent
    requires s.prediction.Some? && s.cls.Some?
  {
    WasteEvent(s.user, s.station, s.prediction.value, s.cls.value,
               if s.actual.Some? then s.actual.value else 0,
               if s.weight.Some? then s.weight.value else 0.0, false, 0, false)
  }

  /** Closes a live session with a rejected waste event of 0 points. The event row needs a
      prediction and a class, and its operation must be new; otherwise nothing is written. */
  function CloseWithout(db: Tables, op: string, reason: Reason, phase: Phase): (out: Outcome)
    requires op in db.sessions
    ensures out.db.redemptions == db.redemptions && out.db.rewards == db.rewards
  {
    var s := db.sessions[op];
    if Terminal(s.phase) || s.prediction.None? || s.cls.None? || op in db.events then
      Outcome(db, Refusal(DepositRefused))
    else
      Outcome(db.(events := db.events[op := RejectedEvent(s)],
                  sessions := db.sessions[op := s.(phase := phase, reason := Some(reason))]), Committed(op))
  }

  /** Weight of the balance of a user in the total of faculty `f`. */
  function MemberPoints(f: string): User -> int {
    (u: User) => if u.faculty == f then u.points else 0
  }

  /** The leaderboard upserts that follow a change of the balance of `user`. */
  ghost function Ranked(db: Tables, user: string): Tables
    requires user in db.users
  {
    var f := db.users[user].faculty;
    db.(studentRows := db.studentRows[user := db.users[user].points],
        facultyRows := if f in db.faculties then db.facultyRows[f := Totals.Sum(db.users, MemberPoints(f))]
                       else db.facultyRows)
  }

  function ConfirmedEvent(s: Session, e: MachineEvent): WasteEvent
    requires s.prediction.Some? && s.cls.Some?
  {
    WasteEvent(s.user, s.station, s.prediction.value, s.cls.value,
               ActualPosition(e), Weight(e), e.mechanical, s.potential, true)
  }

  /** The base award of a validated deposit. */
  ghost function Award(db: Tables, op: string, e: MachineEvent): Tables
    requires op in db.sessions && db.sessions[op].prediction.Some? && db.sessions[op].cls.Some?
    requires db.sessions[op].user in db.users
  {
    var s := db.sessions[op];
    Ranked(
      db.(events := db.events[op := ConfirmedEvent(s, e)],
          users := RewardRules.AddPoints(db.users, s.user, s.potential),
          sessions := db.sessions[op := s.(actual := Some(ActualPosition(e)), weight := Some(Weight(e)),
                                           stable := Some(e.stable), mechanical := Some(e.mechanical),
                                           phase := Phase.Confirmed)]),
      s.user)
  }

  /** Confirmed weight of one user in one class, in kilograms. */
  ghost function Progress(events: map<string, WasteEvent>, user: string, cls: string): real
    decreases |events|
  {
    if events == map[] then 0.0
    else
      var k :| k in events;
      EventKilograms(events[k], user, cls) + Progress(events - {k}, user, cls)
  }

  function EventKilograms(e: WasteEvent, user: string, cls: string): real {
    if e.user == user && e.cls == cls && e.confirmed then e.weight / 1000.0 else 0.0
  }

  /** Points a challenge row carries: a reward that is not positive pays nothing. */
  function Payout(c: Challenge): int { if c.reward <= 0 then 0 else c.reward }

  predicate Reached(c: Challenge, cls: string, progress: real) {
    c.cls == cls && c.active && progress >= c.targetKg
  }

  predicate Wins(c: Challenge, user: string, cls: string, progress: real, already: set<string>,
                 claims: map<(string, string), Claim>)
  {
    Reached(c, cls, progress) && c.id !in already && (user, c.id) !in claims
  }

  /** The claims table after the challenge loop, and the bonus it paid. `already` is what the
      call read; a row that another transaction wrote since then makes the insert fail. */
  function Settle(cs: seq<Challenge>, user: string, cls: string, progress: real, already: set<string>,
                  claims: map<(string, string), Claim>): (map<(string, string), Claim>, int)
  {
    if cs == [] then (claims, 0)
    else if Wins(cs[0], user, cls, progress, already, claims) then
      var (claims', bonus) := Settle(cs[1..], user, cls, progress, already,
                                     claims[(user, cs[0].id) := Claim(user, cs[0].id, Payout(cs[0]))]);
      (claims', bonus + Payout(cs[0]))
    else Settle(cs[1..], user, cls, progress, already, claims)
  }

  function ClaimedBy(claims: map<(string, string), Claim>, user: string): set<string> {
    set k | k in claims && k.0 == user :: k.1
  }

  /** The challenge bonus of a confirmed deposit of class `cls`. */
  ghost function Bonus(db: Tables, user: string, cls: string, already: set<string>): Tables {
    var (claims, bonus) := Settle(db.challenges, user, cls, Progress(db.events, user, cls), already, db.claims);
    db.(claims := claims, users := RewardRules.AddPoints(db.users, user, bonus))
  }

  ghost function Confirm(db: Tables, op: string, e: MachineEvent): (out: Outcome)
    requires op in db.sessions
    ensures out.db.redemptions == db.redemptions && out.db.rewards == db.rewards
  {
    var s := db.sessions[op];
    if s.user !in db.users || s.prediction.None? || s.cls.None? || op in db.events then
      Outcome(db, Refusal(DepositRefused))
    else
      var db' := Award(db, op, e);
      Outcome(Bonus(db', s.user, s.cls.value, ClaimedBy(db'.claims, s.user)), Committed(op))
  }

  ghost function Complete(db: Tables, e: MachineEvent, now: real): (out: Outcome)
    ensures out.db.redemptions == db.redemptions && out.db.rewards == db.rewards
  {
    if e.operation.None? || e.operation.value !in db.sessions then Outcome(db, Refusal(DepositRefused))
    else
      var op := e.operation.value;
      var s := db.sessions[op];
      var named := e.station.Some? && e.station.value != "";
      if named && Ambiguous(db, e.station.value) then Outcome(db, Refusal(DepositRefused))
      else if named && !Names(db, e.station.value, s.station) then CloseWithout(db, op, StationMismatch, Phase.Refused)
      else if Terminal(s.phase) then Outcome(db, Refusal(DepositRefused))
      else if s.expiresAt < now then CloseWithout(db, op, SessionExpired, Phase.Expired)
      else
        var failure := PhysicalFailure(db.settings.minGrams, s, e);
        if failure.Some? then CloseWithout(db, op, failure.value, Phase.Refused)
        else Confirm(db, op, e)
  }

  /** No deposit step touches the redemptions or the catalogue. */
  ghost function Apply(db: Tables, d: Step): (out: Outcome)
    ensures out.db.redemptions == db.redemptions && out.db.rewards == db.rewards
  {
    match d
    case Create(op, user, station, prediction, now) => CreateSession(db, op, user, station, prediction, now)
    case CaptureFrame(op, station, frame, now) => CaptureStation(db, op, station, frame, now)
    case Abort(op, user) => AbortSession(db, op, user)
    case Telemetry(op, state) => Observe(db, op, state)
    case Result(e, now) => Complete(db, e, now)
  }
}
