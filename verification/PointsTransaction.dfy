/** The one transaction that may raise a balance: event, points, leaderboard rows, session. */
module PointsTransaction {
  import opened Options
  import opened Schema
  import opened Store
  import opened DepositRules
  import Totals
  import Leaderboard

  method UpsertStudentLeaderboard(db: Database, user: string)
    requires user in db.users
    modifies db`studentRows
    ensures db.studentRows == old(db.studentRows)[user := db.users[user].points]
  {
    db.studentRows := db.studentRows[user := db.users[user].points];
  }

  method UpsertFacultyLeaderboard(db: Database, faculty: string)
    modifies db`facultyRows
    ensures db.facultyRows == if faculty in db.faculties
                              then old(db.facultyRows)[faculty := Totals.Sum(db.users, MemberPoints(faculty))]
                              else old(db.facultyRows)
  {
    if faculty in db.faculties {
      var total := MemberTotal(db.users, faculty);
      db.facultyRows := db.facultyRows[faculty := total];
    }
  }

  /** With its event, points and session written, the upserts complete the award. */
  lemma AwardWritten(db: Tables, posted: Tables, op: string, e: MachineEvent)
    requires op in db.sessions && db.sessions[op].prediction.Some? && db.sessions[op].cls.Some?
    requires db.sessions[op].user in db.users
    requires var s := db.sessions[op];
      posted == db.(
        events := db.events[op := ConfirmedEvent(s, e)],
        users := db.users[s.user := db.users[s.user].(points := db.users[s.user].points + s.potential)],
        sessions := db.sessions[op := s.(actual := Some(ActualPosition(e)), weight := Some(Weight(e)),
                                         stable := Some(e.stable), mechanical := Some(e.mechanical),
                                         phase := Phase.Confirmed)])
    ensures Award(db, op, e) == Ranked(posted, db.sessions[op].user)
  {
  }

  /** `ok` is false when the award raises; the caller then rolls back. */
  method AwardPoints(db: Database, op: string, e: MachineEvent) returns (ok: bool)
    requires op in db.sessions
    modifies db
    ensures ok <==> old(db.sessions[op].user in db.users && db.sessions[op].prediction.Some?
                        && db.sessions[op].cls.Some? && op !in db.events)
    ensures ok ==> db.Contents() == Award(old(db.Contents()), op, e)
    ensures ok ==> var u := old(db.sessions[op].user);
      && u in db.users && Leaderboard.StudentExact(db.Contents(), u)
      && (db.users[u].faculty in db.faculties ==> Leaderboard.FacultyExact(db.Contents(), db.users[u].faculty))
  {
    hide Award, Leaderboard.StudentExact, Leaderboard.FacultyExact;
    var s := db.sessions[op];
    if s.user !in db.users || s.prediction.None? || s.cls.None? || op in db.events {
      return false;
    }
    db.events := db.events[op := WasteEvent(s.user, s.station, s.prediction.value, s.cls.value,
                                            ActualPosition(e), Weight(e), e.mechanical, s.potential, true)];
    var row := db.users[s.user];
    db.users := db.users[s.user := row.(points := row.points + s.potential)];
    s := s.(actual := Some(ActualPosition(e)), weight := Some(Weight(e)), stable := Some(e.stable),
            mechanical := Some(e.mechanical));
    db.sessions := db.sessions[op := s.(phase := Phase.Confirmed)];
    ghost var posted := db.Contents();
    UpsertStudentLeaderboard(db, s.user);
    UpsertFacultyLeaderboard(db, row.faculty);
    AwardWritten(old(db.Contents()), posted, op, e);
    Leaderboard.AwardRanks(old(db.Contents()), op, e);
    assert db.Contents() == Ranked(posted, s.user);
    ok := true;
  }

  /** `ok` is false when the insert raises; nothing has been written then. */
  method RecordRejection(db: Database, op: string, reason: Reason, phase: Phase) returns (ok: bool)
    requires op in db.sessions && !Terminal(db.sessions[op].phase)
    modifies db
    ensures db.Contents() == CloseWithout(old(db.Contents()), op, reason, phase).db
    ensures CloseWithout(old(db.Contents()), op, reason, phase).reply
      == if ok then Committed(op) else Refusal(DepositRefused)
  {
    hide Terminal;
    var s := db.sessions[op];
    if s.prediction.None? || s.cls.None? || op in db.events {
      return false;
    }
    var actual := if s.actual.Some? then s.actual.value else 0;
    var weight := if s.weight.Some? then s.weight.value else 0.0;
    db.events := db.events[op := WasteEvent(s.user, s.station, s.prediction.value, s.cls.value,
                                            actual, weight, false, 0, false)];
    db.sessions := db.sessions[op := s.(phase := phase, reason := Some(reason))];
    ok := true;
  }
}
