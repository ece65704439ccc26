/** The deposit lifecycle on the database. */
module DepositService {
  import opened Options
  import opened Schema
  import opened Store
  import opened DepositRules
  import PointsTransaction
  import ChallengeService

  method CreateSession(db: Database, op: string, user: string, station: string, prediction: Option<string>,
                       now: real) returns (reply: Reply)
    modifies db
    ensures Outcome(db.Contents(), reply)
         == DepositRules.CreateSession(old(db.Contents()), op, user, station, prediction, now)
  {
    reply := Refusal(DepositRefused);
    if station !in db.stations || user !in db.users || op in db.sessions {
      return;
    }
    var s := NewSession(db.Contents(), user, station, now);
    if prediction.Some? {
      if prediction.value !in db.predictions {
        return;
      }
      var p := db.predictions[prediction.value];
      if p.user != user || p.expiresAt < now || p.level.Low? || p.cls !in db.policies {
        return;
      }
      s := Attach(s, prediction.value, p.cls, p.level, db.policies[p.cls], Waiting);
    }
    db.sessions := db.sessions[op := s];
    reply := Committed(op);
  }

  /** Classifies the frame, stores its prediction and routes session `s`. */
  method Classify(db: Database, op: string, s: Session, frame: Frame, now: real)
    requires op in db.sessions && db.sessions[op] == s.(phase := Analyzing)
    modifies db`sessions, db`predictions
    ensures db.sessions == old(db.sessions)[op := Captured(old(db.Contents()), s, frame)]
    ensures db.predictions == StoredPredictions(old(db.Contents()), s, frame, now)
  {
    assert db.sessions == db.sessions[op := s.(phase := Analyzing)];
    if s.user !in db.users {
      return;
    }
    if frame.Unusable? {
      db.sessions := db.sessions[op := s.(phase := Capture)];
      return;
    }
    if frame.cls !in VALID_CLASSES || frame.cls !in db.policies || frame.id in db.predictions {
      return;
    }
    var p := Prediction(s.user, frame.cls, frame.level, now + db.settings.sessionTtl);
    db.predictions := db.predictions[frame.id := p];
    var policy := db.policies[frame.cls];
    var routed := s.(prediction := Some(frame.id), cls := Some(frame.cls), level := Some(frame.level),
                     position := Some(policy.position), potential := policy.points);
    if frame.level.Low? {
      db.sessions := db.sessions[op := routed.(phase := Phase.Refused, reason := Some(LowConfidence))];
    } else {
      db.sessions := db.sessions[op := routed.(phase := Waiting)];
    }
  }

  /** Two commits: the session is `Analyzing` while the frame is classified. */
  method HandleCapture(db: Database, op: string, station: string, frame: Frame, now: real) returns (reply: Reply)
    modifies db`sessions, db`predictions
    ensures Outcome(db.Contents(), reply) == CaptureStation(old(db.Contents()), op, station, frame, now)
  {
    if op !in db.sessions || Ambiguous(db.Contents(), station)
       || !Names(db.Contents(), station, db.sessions[op].station) || Terminal(db.sessions[op].phase) {
      return Refusal(DepositRefused);
    }
    var s := db.sessions[op];
    db.sessions := db.sessions[op := s.(phase := Analyzing)];
    label analyzing:
    Classify(db, op, s, frame, now);
    assert old@analyzing(db.sessions)[op := db.sessions[op]] == old(db.sessions)[op := db.sessions[op]];
    assert Captured(old@analyzing(db.Contents()), s, frame) == Captured(old(db.Contents()), s, frame);
    reply := Committed(op);
  }

  method Cancel(db: Database, op: string, user: string) returns (reply: Reply)
    modifies db`sessions
    ensures Outcome(db.Contents(), reply) == AbortSession(old(db.Contents()), op, user)
  {
    if op !in db.sessions || db.sessions[op].user != user || Terminal(db.sessions[op].phase) {
      return Refusal(DepositRefused);
    }
    db.sessions := db.sessions[op := db.sessions[op].(phase := Aborted)];
    reply := Committed(op);
  }

  method ApplyMachineState(db: Database, op: string, state: string) returns (reply: Reply)
    modifies db`sessions
    ensures Outcome(db.Contents(), reply) == Observe(old(db.Contents()), op, state)
  {
    reply := Refusal(DepositRefused);
    var target := MachinePhase(state);
    if target.None? || op !in db.sessions || Terminal(db.sessions[op].phase)
       || Rank(target.value) <= Rank(db.sessions[op].phase) {
      return;
    }
    db.sessions := db.sessions[op := db.sessions[op].(phase := target.value)];
    reply := Committed(op);
  }

  /** Closes the session unless it is closed already. */
  method Reject(db: Database, op: string, reason: Reason, phase: Phase) returns (reply: Reply)
    requires op in db.sessions
    modifies db
    ensures Outcome(db.Contents(), reply) == CloseWithout(old(db.Contents()), op, reason, phase)
  {
    reply := Refusal(DepositRefused);
    if !Terminal(db.sessions[op].phase) {
      var ok := PointsTransaction.RecordRejection(db, op, reason, phase);
      if ok {
        reply := Committed(op);
      }
    }
  }

  /** Base points and bonus in one transaction; an error anywhere rolls both back. */
  method Pay(db: Database, op: string, e: MachineEvent) returns (reply: Reply)
    requires op in db.sessions
    modifies db
    ensures Outcome(db.Contents(), reply) == Confirm(old(db.Contents()), op, e)
  {
    var saved := db.Contents();
    var s := db.sessions[op];
    var ok := PointsTransaction.AwardPoints(db, op, e);
    if !ok {
      db.Rollback(saved);
      return Refusal(DepositRefused);
    }
    var bonus := ChallengeService.OnDepositConfirmed(db, s.user, s.cls.value, ClaimedBy(db.claims, s.user));
    reply := Committed(op);
  }

  method CompleteFromEvent(db: Database, e: MachineEvent, now: real) returns (reply: Reply)
    modifies db
    ensures Outcome(db.Contents(), reply) == Complete(old(db.Contents()), e, now)
  {
    if e.operation.None? || e.operation.value !in db.sessions {
      return Refusal(DepositRefused);
    }
    var op := e.operation.value;
    var s := db.sessions[op];
    if e.station.Some? && e.station.value != "" {
      if Ambiguous(db.Contents(), e.station.value) {
        return Refusal(DepositRefused);
      }
      if !Names(db.Contents(), e.station.value, s.station) {
        reply := Reject(db, op, StationMismatch, Phase.Refused);
        return;
      }
    }
    if Terminal(s.phase) {
      return Refusal(DepositRefused);
    }
    if s.expiresAt < now {
      reply := Reject(db, op, SessionExpired, Phase.Expired);
      return;
    }
    var failure := PhysicalFailure(db.settings.minGrams, s, e);
    if failure.Some? {
      reply := Reject(db, op, failure.value, Phase.Refused);
      return;
    }
    reply := Pay(db, op, e);
  }
}
