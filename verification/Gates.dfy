/** When each deposit call takes effect and what it writes, said on the message and the rows it
    finds rather than through the steps of the call. */
module Gates {
  import opened Options
  import opened Schema
  import opened DepositRules
  import opened Invariants
  import Challenges

  // ---- the physical result --------------------------------------------------------------------

  /** `name` is the code or the id of this station and of no other. */
  ghost predicate NamesOnly(stations: map<string, string>, name: string, id: string) {
    forall x :: (x in stations && (stations[x] == name || x == name)) <==> x == id
  }

  /** Some station has this name, or none has; never two. */
  ghost predicate NamesAtMostOne(stations: map<string, string>, name: string) {
    forall x, y ::
      x in stations && y in stations && (stations[x] == name || x == name) && (stations[y] == name || y == name)
      ==> x == y
  }

  /** The message names no station, or the session's and only that. */
  ghost predicate FromOwnStation(db: Tables, s: Session, e: MachineEvent) {
    e.station == None || e.station == Some("") || NamesOnly(db.stations, e.station.value, s.station)
  }

  /** The message names a station, not two, and not the session's. */
  ghost predicate FromElsewhere(db: Tables, s: Session, e: MachineEvent) {
    && e.station.Some? && e.station.value != "" && NamesAtMostOne(db.stations, e.station.value)
    && !NamesOnly(db.stations, e.station.value, s.station)
  }

  lemma StationGate(db: Tables, s: Session, name: string)
    ensures Names(db, name, s.station) && !Ambiguous(db, name) <==> NamesOnly(db.stations, name, s.station)
    ensures Ambiguous(db, name) <==> !NamesAtMostOne(db.stations, name)
  {
    if Names(db, name, s.station) && !Ambiguous(db, name) {
      forall x ensures (x in db.stations && (db.stations[x] == name || x == name)) <==> x == s.station {
        assert x in db.stations && (db.stations[x] == name || x == name) ==> Names(db, name, x);
      }
    }
    if NamesOnly(db.stations, name, s.station) {
      assert Names(db, name, s.station);
    }
  }

  /** The machine's own report passes: a missing status counts as confirmed, a missing number as
      zero. */
  predicate ReportPasses(minGrams: real, s: Session, e: MachineEvent) {
    var actual := if e.actual.Some? then e.actual.value else 0;
    && (e.status == None || e.status == Some("confirmed"))
    && s.position == Some(actual)
    && (if e.weight.Some? then e.weight.value else 0.0) >= minGrams
    && e.stable && e.beam && e.mechanical
    && (if e.carriage.Some? then e.carriage.value else 0) == actual
  }

  lemma ReportGate(minGrams: real, s: Session, e: MachineEvent)
    ensures PhysicalFailure(minGrams, s, e).None? <==> ReportPasses(minGrams, s, e)
  {
  }

  /** The gates of a deposit: over every message, a live session is confirmed if and only if a
      prediction is attached, the message is from its own station or names none, it is in time,
      and everything the machine reports passes. */
  lemma ConfirmsIff(db: Tables, op: string, e: MachineEvent, now: real)
    requires op in db.sessions && SessionOk(db, op, db.sessions[op]) && !Terminal(db.sessions[op].phase)
    requires e.operation == Some(op)
    ensures var s := db.sessions[op];
      var later := Complete(db, e, now).db;
      && op in later.sessions
      && (later.sessions[op].phase.Confirmed? <==>
            s.prediction.Some? && FromOwnStation(db, s, e) && now <= s.expiresAt
            && ReportPasses(db.settings.minGrams, s, e))
  {
    hide PhysicalFailure, Names, Ambiguous, Confirm, CloseWithout, ReportPasses, SessionOk;
    if e.station.Some? {
      StationGate(db, db.sessions[op], e.station.value);
    }
    ReportGate(db.settings.minGrams, db.sessions[op], e);
    ConfirmGate(db, op, e);
    CloseGate(db, op, StationMismatch, Phase.Refused);
    CloseGate(db, op, SessionExpired, Phase.Expired);
    var failure := PhysicalFailure(db.settings.minGrams, db.sessions[op], e);
    if failure.Some? {
      CloseGate(db, op, failure.value, Phase.Refused);
    }
  }

  lemma ConfirmGate(db: Tables, op: string, e: MachineEvent)
    requires op in db.sessions && SessionOk(db, op, db.sessions[op]) && !Terminal(db.sessions[op].phase)
    ensures var later := Confirm(db, op, e).db;
      op in later.sessions && (later.sessions[op].phase.Confirmed? <==> db.sessions[op].prediction.Some?)
  {
  }

  lemma CloseGate(db: Tables, op: string, reason: Reason, phase: Phase)
    requires op in db.sessions && !Terminal(db.sessions[op].phase) && !phase.Confirmed?
    ensures var later := CloseWithout(db, op, reason, phase).db;
      op in later.sessions && !later.sessions[op].phase.Confirmed?
  {
  }

  /** The session after a result that does not confirm it, and the event of 0 points beside it. */
  ghost predicate ClosedBy(db: Tables, later: Tables, op: string, phase: Phase, reason: Reason)
    requires op in db.sessions && db.sessions[op].prediction.Some? && db.sessions[op].cls.Some?
  {
    var s := db.sessions[op];
    later == db.(
      sessions := db.sessions[op := s.(phase := phase, reason := Some(reason))],
      events := db.events[op := WasteEvent(
        s.user, s.station, s.prediction.value, s.cls.value, if s.actual.Some? then s.actual.value else 0,
        if s.weight.Some? then s.weight.value else 0.0, false, 0, false)])
  }

  /** The first thing wrong with a report, in the order the checks are made. */
  ghost predicate FirstFault(minGrams: real, s: Session, e: MachineEvent, reason: Reason) {
    var actual := if e.actual.Some? then e.actual.value else 0;
    var weight := if e.weight.Some? then e.weight.value else 0.0;
    var carriage := if e.carriage.Some? then e.carriage.value else 0;
    var claimed := if e.status.Some? then e.status.value else "confirmed";
    match reason
    case MachineReported(status) => claimed == status && status != "confirmed"
    case WrongPosition(expected, got) =>
      claimed == "confirmed" && expected == s.position && got == actual && s.position != Some(actual)
    case Underweight(w) => claimed == "confirmed" && s.position == Some(actual) && w == weight && weight < minGrams
    case WeightNotStable => claimed == "confirmed" && s.position == Some(actual) && weight >= minGrams && !e.stable
    case NoBeamBreak =>
      claimed == "confirmed" && s.position == Some(actual) && weight >= minGrams && e.stable && !e.beam
    case NoMechanicalConfirmation =>
      claimed == "confirmed" && s.position == Some(actual) && weight >= minGrams && e.stable && e.beam && !e.mechanical
    case CarriageElsewhere(position) =>
      claimed == "confirmed" && s.position == Some(actual) && weight >= minGrams && e.stable && e.beam && e.mechanical
      && position == carriage && carriage != actual
    case _ => false
  }

  /** Why a routed live session is closed without points: a message from elsewhere, then the
      deadline, then the first fault of the report. Nothing else in the tables changes. */
  lemma RefusesBecause(db: Tables, op: string, e: MachineEvent, now: real)
    requires op in db.sessions && SessionOk(db, op, db.sessions[op]) && !Terminal(db.sessions[op].phase)
    requires e.operation == Some(op) && db.sessions[op].prediction.Some?
    ensures var s := db.sessions[op];
      var later := Complete(db, e, now).db;
      && (FromElsewhere(db, s, e) ==> ClosedBy(db, later, op, Phase.Refused, StationMismatch))
      && (FromOwnStation(db, s, e) && s.expiresAt < now ==> ClosedBy(db, later, op, Phase.Expired, SessionExpired))
      && (FromOwnStation(db, s, e) && now <= s.expiresAt && !ReportPasses(db.settings.minGrams, s, e) ==>
            exists reason :: FirstFault(db.settings.minGrams, s, e, reason)
                             && ClosedBy(db, later, op, Phase.Refused, reason))
      && (!FromElsewhere(db, s, e) && !FromOwnStation(db, s, e) ==> later == db)
  {
    var s := db.sessions[op];
    var later := Complete(db, e, now).db;
    var failure := PhysicalFailure(db.settings.minGrams, s, e);
    ReportGate(db.settings.minGrams, s, e);
    if failure.Some? {
      FaultIsFirst(db.settings.minGrams, s, e);
    }
    hide Names, Ambiguous, PhysicalFailure, ReportPasses, FirstFault, Confirm;
    if e.station.Some? {
      StationGate(db, s, e.station.value);
    }
    if FromOwnStation(db, s, e) && now <= s.expiresAt && failure.Some? {
      assert ClosedBy(db, later, op, Phase.Refused, failure.value);
    }
  }

  lemma FaultIsFirst(minGrams: real, s: Session, e: MachineEvent)
    requires PhysicalFailure(minGrams, s, e).Some?
    ensures FirstFault(minGrams, s, e, PhysicalFailure(minGrams, s, e).value)
  {
  }

  /** Each challenge the deposit completes leaves one claim, worth its own reward; no other row of
      the claims is new, and none is changed. */
  ghost predicate ClaimsAfter(cs: seq<Challenge>, before: map<(string, string), Claim>,
                              after: map<(string, string), Claim>, user: string, cls: string, kilograms: real)
  {
    && (forall k :: k in after <==> k in before || (k.0 == user && exists i ::
          0 <= i < |cs| && cs[i].id == k.1 && cs[i].active && cs[i].cls == cls && cs[i].targetKg <= kilograms))
    && (forall k :: k in before ==> after[k] == before[k])
    && (forall i :: 0 <= i < |cs| && (user, cs[i].id) in after && (user, cs[i].id) !in before ==>
          after[(user, cs[i].id)] == Claim(user, cs[i].id, if cs[i].reward > 0 then cs[i].reward else 0))
  }

  /** The tables after a confirmation: the event and the session say what the message said, the
      user gets the session's points and the rewards of the challenges then due, and nobody else
      anything. */
  ghost predicate ConfirmedBy(db: Tables, later: Tables, op: string, e: MachineEvent)
    requires op in db.sessions && db.sessions[op].prediction.Some? && db.sessions[op].cls.Some?
    requires db.sessions[op].user in db.users
  {
    var s := db.sessions[op];
    var cls := s.cls.value;
    var actual := if e.actual.Some? then e.actual.value else 0;
    var weight := if e.weight.Some? then e.weight.value else 0.0;
    var kilograms := Challenges.Kilograms(later.events, s.user, cls);
    && later.events == db.events[op := WasteEvent(
         s.user, s.station, s.prediction.value, cls, actual, weight, e.mechanical, s.potential, true)]
    && later.sessions == db.sessions[op := s.(
         phase := Phase.Confirmed, actual := Some(actual), weight := Some(weight), stable := Some(e.stable),
         mechanical := Some(e.mechanical))]
    && later.users == db.users[s.user := db.users[s.user].(
         points := db.users[s.user].points + s.potential
                   + Challenges.DueRewards(db.challenges, s.user, cls, kilograms, db.claims))]
    && ClaimsAfter(db.challenges, db.claims, later.claims, s.user, cls, kilograms)
    && later == db.(events := later.events, sessions := later.sessions, users := later.users, claims := later.claims,
                    studentRows := later.studentRows, facultyRows := later.facultyRows)
  }

  lemma SettledClaims(cs: seq<Challenge>, user: string, cls: string, kilograms: real,
                      claims: map<(string, string), Claim>)
    requires Challenges.DistinctIds(cs)
    ensures ClaimsAfter(cs, claims, Settle(cs, user, cls, kilograms, ClaimedBy(claims, user), claims).0, user, cls,
                        kilograms)
  {
    var after := Settle(cs, user, cls, kilograms, ClaimedBy(claims, user), claims).0;
    hide Settle, ClaimedBy;
    forall k
      ensures k in after <==> k in claims || (k.0 == user && exists i ::
                0 <= i < |cs| && cs[i].id == k.1 && Challenges.Completes(cs[i], cls, kilograms))
      ensures k in claims ==> after[k] == claims[k]
    {
      Challenges.SettleClaims(cs, user, cls, kilograms, claims, k);
    }
    forall i | 0 <= i < |cs| && (user, cs[i].id) in after && (user, cs[i].id) !in claims
      ensures after[(user, cs[i].id)] == Challenges.ClaimOf(cs[i], user)
    {
      Challenges.SettleClaims(cs, user, cls, kilograms, claims, (user, cs[i].id));
    }
  }

  lemma BonusWrites(db: Tables, user: string, cls: string)
    requires user in db.users && Challenges.DistinctIds(db.challenges)
    ensures var later := Bonus(db, user, cls, ClaimedBy(db.claims, user));
      var kilograms := Challenges.Kilograms(db.events, user, cls);
      && later == db.(claims := later.claims, users := db.users[user := db.users[user].(points :=
           db.users[user].points + Challenges.DueRewards(db.challenges, user, cls, kilograms, db.claims))])
      && ClaimsAfter(db.challenges, db.claims, later.claims, user, cls, kilograms)
  {
    var kilograms := Progress(db.events, user, cls);
    Challenges.ProgressIsKilograms(db.events, user, cls);
    Challenges.PaysWhatIsDue(db.challenges, user, cls, kilograms, ClaimedBy(db.claims, user), db.claims);
    SettledClaims(db.challenges, user, cls, kilograms, db.claims);
  }

  lemma ConfirmWrites(db: Tables, op: string, e: MachineEvent)
    requires op in db.sessions && op !in db.events && db.sessions[op].prediction.Some? && db.sessions[op].cls.Some?
    requires db.sessions[op].user in db.users && Challenges.DistinctIds(db.challenges)
    ensures ConfirmedBy(db, Confirm(db, op, e).db, op, e)
  {
    var s := db.sessions[op];
    var paid := Award(db, op, e);
    BonusWrites(paid, s.user, s.cls.value);
    hide Bonus, ClaimsAfter, Ranked;
    AwardWrites(db, op, e);
  }

  lemma AwardWrites(db: Tables, op: string, e: MachineEvent)
    requires op in db.sessions && db.sessions[op].prediction.Some? && db.sessions[op].cls.Some?
    requires db.sessions[op].user in db.users
    ensures var s := db.sessions[op];
      var actual := if e.actual.Some? then e.actual.value else 0;
      var weight := if e.weight.Some? then e.weight.value else 0.0;
      var paid := Award(db, op, e);
      && paid == db.(
           events := db.events[op := WasteEvent(
             s.user, s.station, s.prediction.value, s.cls.value, actual, weight, e.mechanical, s.potential, true)],
           sessions := db.sessions[op := s.(
             phase := Phase.Confirmed, actual := Some(actual), weight := Some(weight), stable := Some(e.stable),
             mechanical := Some(e.mechanical))],
           users := db.users[s.user := db.users[s.user].(points := db.users[s.user].points + s.potential)],
           studentRows := paid.studentRows, facultyRows := paid.facultyRows)
  {
  }

  /** What a confirmation writes and pays. */
  lemma ConfirmedWrites(db: Tables, op: string, e: MachineEvent, now: real)
    requires op in db.sessions && SessionOk(db, op, db.sessions[op]) && !Terminal(db.sessions[op].phase)
    requires e.operation == Some(op) && Challenges.DistinctIds(db.challenges)
    requires db.sessions[op].prediction.Some? && FromOwnStation(db, db.sessions[op], e)
    requires now <= db.sessions[op].expiresAt && ReportPasses(db.settings.minGrams, db.sessions[op], e)
    ensures ConfirmedBy(db, Complete(db, e, now).db, op, e)
  {
    ConfirmWrites(db, op, e);
    hide ConfirmedBy, Confirm, Names, Ambiguous, PhysicalFailure, ReportPasses;
    if e.station.Some? {
      StationGate(db, db.sessions[op], e.station.value);
    }
    ReportGate(db.settings.minGrams, db.sessions[op], e);
  }

  // ---- the other calls ------------------------------------------------------------------------

  /** A session is created exactly when the station and the user exist, the operation is new, and
      the prediction, if one is given, is the user's own, in time, not of low confidence and of a
      class that is routed. */
  lemma CreatesIff(db: Tables, op: string, user: string, station: string, prediction: Option<string>, now: real)
    ensures var out := Apply(db, Create(op, user, station, prediction, now));
      && (out.reply.Committed? <==>
            && station in db.stations && user in db.users && op !in db.sessions
            && (prediction.Some? ==>
                  && prediction.value in db.predictions
                  && db.predictions[prediction.value].user == user
                  && now <= db.predictions[prediction.value].expiresAt
                  && db.predictions[prediction.value].level != Low
                  && db.predictions[prediction.value].cls in db.policies))
      && (!out.reply.Committed? ==> out.db == db)
  {
  }

  /** A session that has a prediction waits to be routed to the compartment and for the points of
      its class; one that has none waits for a frame and promises nothing. */
  lemma CreatedRow(db: Tables, op: string, user: string, station: string, prediction: Option<string>, now: real)
    requires Apply(db, Create(op, user, station, prediction, now)).reply.Committed?
    ensures var later := Apply(db, Create(op, user, station, prediction, now)).db;
      && later == db.(sessions := later.sessions) && op in later.sessions
      && later.sessions == db.sessions[op := later.sessions[op]]
      && (prediction.None? ==>
            later.sessions[op] == Session(user, station, None, 0, Capture, None, None, None, None, None, None, None,
                                          None, now + db.settings.sessionTtl))
      && (prediction.Some? ==>
            var p := db.predictions[prediction.value];
            later.sessions[op] == Session(user, station, prediction, db.policies[p.cls].points, Waiting, Some(p.cls),
                                          Some(db.policies[p.cls].position), Some(p.level), None, None, None, None,
                                          None, now + db.settings.sessionTtl))
  {
  }

  /** A frame is taken exactly from the session's own station while the session is live. */
  lemma CapturesIff(db: Tables, op: string, station: string, frame: Frame, now: real)
    ensures var out := Apply(db, CaptureFrame(op, station, frame, now));
      && (out.reply.Committed? <==>
            op in db.sessions && !Terminal(db.sessions[op].phase)
            && NamesOnly(db.stations, station, db.sessions[op].station))
      && (!out.reply.Committed? ==> out.db == db)
  {
    hide Names, Ambiguous;
    if op in db.sessions {
      StationGate(db, db.sessions[op], station);
    }
  }

  /** What a frame makes of its session: an unusable one asks for another, an unroutable one
      leaves it in analysis, one of low confidence refuses it, any other attaches the prediction
      with its class, compartment and points and waits to be routed. */
  lemma CapturedRow(db: Tables, op: string, station: string, frame: Frame, now: real)
    requires Apply(db, CaptureFrame(op, station, frame, now)).reply.Committed?
    requires db.sessions[op].user in db.users
    ensures var s := db.sessions[op];
      var later := Apply(db, CaptureFrame(op, station, frame, now)).db;
      var routable := frame.Classified? && frame.cls in {"plastic", "metal", "paper", "other"}
                      && frame.cls in db.policies && frame.id !in db.predictions;
      && later == db.(sessions := later.sessions, predictions := later.predictions)
      && op in later.sessions && later.sessions == db.sessions[op := later.sessions[op]]
      && (frame.Unusable? ==> later.sessions[op] == s.(phase := Capture))
      && (frame.Classified? && !routable ==> later.sessions[op] == s.(phase := Analyzing))
      && (!routable ==> later.predictions == db.predictions)
      && (routable ==>
            && later.predictions == db.predictions[frame.id :=
                 Prediction(s.user, frame.cls, frame.level, now + db.settings.sessionTtl)]
            && later.sessions[op] == s.(
                 prediction := Some(frame.id), cls := Some(frame.cls), level := Some(frame.level),
                 position := Some(db.policies[frame.cls].position), potential := db.policies[frame.cls].points,
                 phase := if frame.level.Low? then Phase.Refused else Waiting,
                 reason := if frame.level.Low? then Some(LowConfidence) else s.reason))
  {
  }

  /** Only its own user cancels a session, and only a live one. */
  lemma CancelsIff(db: Tables, op: string, user: string)
    ensures var out := Apply(db, Abort(op, user));
      && (out.reply.Committed? <==>
            op in db.sessions && db.sessions[op].user == user && !Terminal(db.sessions[op].phase))
      && (out.reply.Committed? ==> out.db == db.(sessions := db.sessions[op := db.sessions[op].(phase := Aborted)]))
      && (!out.reply.Committed? ==> out.db == db)
  {
  }

  // ---- the machine states ---------------------------------------------------------------------

  lemma UpperOf(s: string)
    ensures |Upper(s)| == |s|
    ensures forall i :: 0 <= i < |s| && 'a' <= s[i] <= 'z' ==> Upper(s)[i] as int == s[i] as int - 32
    ensures forall i :: 0 <= i < |s| && !('a' <= s[i] <= 'z') ==> Upper(s)[i] == s[i]
  {
  }

  /** The six machine states that stand for a phase, in any case, and no other. */
  lemma MachineStates(state: string)
    ensures MachinePhase(state) ==
      (if Upper(state) == "ROUTING" then Some(Routing) else if Upper(state) == "MOVING" then Some(Moving)
       else if Upper(state) in {"POSITIONED", "READY_FOR_DEPOSIT"} then Some(Ready)
       else if Upper(state) == "DETECTING" then Some(Detecting)
       else if Upper(state) == "MEASURING" then Some(Measuring) else None)
  {
  }

  /** A machine state moves a live session exactly when it stands for a later phase than the one
      the session is in, and moves it there. */
  lemma TelemetryMovesIff(db: Tables, op: string, state: string)
    ensures var order := [Capture, Analyzing, Waiting, Routing, Moving, Ready, Detecting, Measuring];
      var out := Apply(db, Telemetry(op, state));
      && (out.reply.Committed? <==>
            op in db.sessions && exists i, j :: 0 <= i < j < |order| && db.sessions[op].phase == order[i]
                                                && MachinePhase(state) == Some(order[j]))
      && (out.reply.Committed? ==>
            out.db == db.(sessions := db.sessions[op := db.sessions[op].(phase := MachinePhase(state).value)]))
      && (!out.reply.Committed? ==> out.db == db)
  {
    var order := [Capture, Analyzing, Waiting, Routing, Moving, Ready, Detecting, Measuring];
    forall i | 0 <= i < |order| ensures Rank(order[i]) == i - 2 && !Terminal(order[i]) {
    }
    if op in db.sessions && !Terminal(db.sessions[op].phase) {
      assert order[Rank(db.sessions[op].phase) + 2] == db.sessions[op].phase;
    }
    if MachinePhase(state).Some? {
      assert order[Rank(MachinePhase(state).value) + 2] == MachinePhase(state).value;
    }
  }
}
