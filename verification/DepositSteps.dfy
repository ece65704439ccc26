/** Every deposit step keeps the invariant and both ledgers. */
module DepositSteps {
  import opened Options
  import opened Totals
  import opened Schema
  import opened RewardRules
  import opened DepositRules
  import opened Invariants
  import Challenges

  lemma KeepsTransitive(a: Tables, b: Tables, c: Tables)
    requires Keeps(a, b) && Keeps(b, c)
    ensures Keeps(a, c)
  {
    ExtendsTransitive(a, b, c);
    forall r | r in a.rewards && r in c.rewards && a.rewards[r].stock.Some? && c.rewards[r].stock.Some?
      ensures OpeningStock(c, r) == OpeningStock(a, r)
    {
      assert SameTerms(a.rewards[r], b.rewards[r]);
    }
  }

  lemma KeepsItself(db: Tables)
    requires Valid(db)
    ensures Keeps(db, db)
  {
  }

  /** A session row that is new or live is written; no other table but predictions moves. */
  lemma SessionWriteKeeps(db: Tables, op: string, s: Session, predictions: map<string, Prediction>)
    requires Valid(db) && SessionOk(db, op, s)
    requires op in db.sessions ==> SameDeposit(db.sessions[op], s)
    ensures Keeps(db, db.(sessions := db.sessions[op := s], predictions := predictions))
  {
    hide Valid;
    SessionWriteValid(db, op, s, predictions);
  }

  lemma SessionWriteValid(db: Tables, op: string, s: Session, predictions: map<string, Prediction>)
    requires Valid(db) && SessionOk(db, op, s)
    ensures Valid(db.(sessions := db.sessions[op := s], predictions := predictions))
  {
    var later := db.(sessions := db.sessions[op := s], predictions := predictions);
    forall o | o in later.sessions ensures SessionOk(later, o, later.sessions[o]) {
      assert o in db.sessions ==> SessionOk(db, o, db.sessions[o]);
    }
    forall id | id in later.redemptions ensures RedemptionOk(later, later.redemptions[id]) {
      assert RedemptionOk(db, db.redemptions[id]);
    }
  }

  /** The tables after a session is closed with its event and the event's points are paid. */
  function Closed(db: Tables, op: string, s: Session, e: WasteEvent,
                  studentRows: map<string, int>, facultyRows: map<string, int>): Tables
  {
    db.(events := db.events[op := e], sessions := db.sessions[op := s],
        users := AddPoints(db.users, s.user, e.points), studentRows := studentRows, facultyRows := facultyRows)
  }

  /** A live session may be closed by this row and this event. */
  ghost predicate MayClose(db: Tables, op: string, s: Session, e: WasteEvent) {
    && op in db.sessions && !Terminal(db.sessions[op].phase) && op !in db.events
    && s.user == db.sessions[op].user && s.potential == db.sessions[op].potential && e.user == s.user
    && s.user in db.users && s.potential >= 0
    && if e.confirmed then s.phase.Confirmed? && Proves(db.settings.minGrams, s, e)
       else (s.phase.Refused? || s.phase.Expired?) && e.points == 0
  }

  lemma ClosedValid(db: Tables, op: string, s: Session, e: WasteEvent,
                    studentRows: map<string, int>, facultyRows: map<string, int>)
    requires Valid(db) && MayClose(db, op, s, e)
    ensures Valid(Closed(db, op, s, e, studentRows, facultyRows))
  {
    var later := Closed(db, op, s, e, studentRows, facultyRows);
    forall o | o in later.sessions ensures SessionOk(later, o, later.sessions[o]) {
      assert o in db.sessions ==> SessionOk(db, o, db.sessions[o]);
    }
    forall id | id in later.redemptions ensures RedemptionOk(later, later.redemptions[id]) {
      assert RedemptionOk(db, db.redemptions[id]);
    }
  }

  lemma ClosedExtends(db: Tables, op: string, s: Session, e: WasteEvent,
                      studentRows: map<string, int>, facultyRows: map<string, int>)
    requires MayClose(db, op, s, e)
    ensures Extends(db, Closed(db, op, s, e, studentRows, facultyRows))
  {
  }

  lemma ClosedBalanced(db: Tables, op: string, s: Session, e: WasteEvent,
                       studentRows: map<string, int>, facultyRows: map<string, int>)
    requires MayClose(db, op, s, e)
    ensures Balanced(db, Closed(db, op, s, e, studentRows, facultyRows))
  {
    var later := Closed(db, op, s, e, studentRows, facultyRows);
    forall u | u in db.users && u in later.users ensures OpeningBalance(later, u) == OpeningBalance(db, u) {
      SumUpdate(db.events, op, e, EventPoints(u));
    }
  }

  lemma ClosedKeeps(db: Tables, op: string, s: Session, e: WasteEvent,
                    studentRows: map<string, int>, facultyRows: map<string, int>)
    requires Valid(db) && MayClose(db, op, s, e)
    ensures Keeps(db, Closed(db, op, s, e, studentRows, facultyRows))
  {
    ClosedValid(db, op, s, e, studentRows, facultyRows);
    ClosedExtends(db, op, s, e, studentRows, facultyRows);
    ClosedBalanced(db, op, s, e, studentRows, facultyRows);
  }

  lemma CloseShape(db: Tables, op: string, reason: Reason, phase: Phase) returns (s: Session, e: WasteEvent)
    requires op in db.sessions && SessionOk(db, op, db.sessions[op]) && (phase.Refused? || phase.Expired?)
    requires CloseWithout(db, op, reason, phase).reply.Committed?
    ensures MayClose(db, op, s, e) && !e.confirmed && s.phase == phase
    ensures CloseWithout(db, op, reason, phase).db == Closed(db, op, s, e, db.studentRows, db.facultyRows)
  {
    var out := CloseWithout(db, op, reason, phase);
    s, e := out.db.sessions[op], out.db.events[op];
    assert AddPoints(db.users, s.user, 0) == db.users;
  }

  lemma CloseKeeps(db: Tables, op: string, reason: Reason, phase: Phase)
    requires Valid(db) && op in db.sessions && (phase.Refused? || phase.Expired?)
    ensures Keeps(db, CloseWithout(db, op, reason, phase).db)
  {
    if CloseWithout(db, op, reason, phase).reply.Committed? {
      var s, e := CloseShape(db, op, reason, phase);
      ClosedKeeps(db, op, s, e, db.studentRows, db.facultyRows);
    } else {
      KeepsItself(db);
    }
  }

  lemma AwardShape(db: Tables, op: string, e: MachineEvent) returns (s: Session, row: WasteEvent)
    requires op in db.sessions && SessionOk(db, op, db.sessions[op]) && !Terminal(db.sessions[op].phase)
    requires Routed(db.sessions[op])
    requires PhysicalFailure(db.settings.minGrams, db.sessions[op], e).None?
    ensures MayClose(db, op, s, row) && row.confirmed
    ensures var later := Award(db, op, e); later == Closed(db, op, s, row, later.studentRows, later.facultyRows)
  {
    var later := Award(db, op, e);
    s, row := later.sessions[op], later.events[op];
  }

  /** The base award: the event's points and the balance move together. */
  lemma AwardKeeps(db: Tables, op: string, e: MachineEvent)
    requires Valid(db) && op in db.sessions && !Terminal(db.sessions[op].phase)
    requires Routed(db.sessions[op])
    requires PhysicalFailure(db.settings.minGrams, db.sessions[op], e).None?
    requires db.sessions[op].user in db.users
    ensures Keeps(db, Award(db, op, e))
  {
    var s, row := AwardShape(db, op, e);
    var later := Award(db, op, e);
    ClosedKeeps(db, op, s, row, later.studentRows, later.facultyRows);
  }

  /** Rows are added to the claims and their rewards to one balance. */
  lemma ClaimsKeep(db: Tables, user: string, claims: map<(string, string), Claim>, bonus: int)
    requires Valid(db) && user in db.users && bonus >= 0
    requires forall k :: k in db.claims ==> k in claims && claims[k] == db.claims[k]
    requires forall u ::
      Sum(claims, ClaimPoints(u)) == Sum(db.claims, ClaimPoints(u)) + (if u == user then bonus else 0)
    ensures Keeps(db, db.(claims := claims, users := AddPoints(db.users, user, bonus)))
  {
    hide Valid;
    ClaimsValid(db, user, claims, bonus);
  }

  lemma ClaimsValid(db: Tables, user: string, claims: map<(string, string), Claim>, bonus: int)
    requires Valid(db) && user in db.users && bonus >= 0
    ensures Valid(db.(claims := claims, users := AddPoints(db.users, user, bonus)))
  {
    var later := db.(claims := claims, users := AddPoints(db.users, user, bonus));
    forall o | o in later.sessions ensures SessionOk(later, o, later.sessions[o]) {
      assert SessionOk(db, o, db.sessions[o]);
    }
    forall id | id in later.redemptions ensures RedemptionOk(later, later.redemptions[id]) {
      assert RedemptionOk(db, db.redemptions[id]);
    }
  }

  /** The challenge bonus: the claims' rewards and the balance move together. */
  lemma BonusKeeps(db: Tables, user: string, cls: string, already: set<string>)
    requires Valid(db) && user in db.users
    ensures Keeps(db, Bonus(db, user, cls, already))
  {
    var progress := Progress(db.events, user, cls);
    var (claims, bonus) := Settle(db.challenges, user, cls, progress, already, db.claims);
    Challenges.SettleOnlyAdds(db.challenges, user, cls, progress, already, db.claims);
    Challenges.SettlePaysItsRows(db.challenges, user, cls, progress, already, db.claims, user);
    forall u
      ensures Sum(claims, ClaimPoints(u)) == Sum(db.claims, ClaimPoints(u)) + (if u == user then bonus else 0)
    {
      Challenges.SettlePaysItsRows(db.challenges, user, cls, progress, already, db.claims, u);
    }
    ClaimsKeep(db, user, claims, bonus);
  }

  lemma ConfirmKeeps(db: Tables, op: string, e: MachineEvent)
    requires Valid(db) && op in db.sessions && !Terminal(db.sessions[op].phase)
    requires PhysicalFailure(db.settings.minGrams, db.sessions[op], e).None?
    ensures Keeps(db, Confirm(db, op, e).db)
  {
    var s := db.sessions[op];
    assert SessionOk(db, op, s);
    if Confirm(db, op, e).reply.Committed? {
      AwardKeeps(db, op, e);
      var paid := Award(db, op, e);
      BonusKeeps(paid, s.user, s.cls.value, ClaimedBy(paid.claims, s.user));
      KeepsTransitive(db, paid, Confirm(db, op, e).db);
    } else {
      KeepsItself(db);
    }
  }

  lemma CompleteKeeps(db: Tables, e: MachineEvent, now: real)
    requires Valid(db)
    ensures Keeps(db, Complete(db, e, now).db)
  {
    hide Keeps, CloseWithout, Confirm, PhysicalFailure;
    var later := Complete(db, e, now).db;
    if later == db {
      KeepsItself(db);
    } else {
      var op := e.operation.value;
      var s := db.sessions[op];
      var failure := PhysicalFailure(db.settings.minGrams, s, e);
      if later == CloseWithout(db, op, StationMismatch, Phase.Refused).db {
        CloseKeeps(db, op, StationMismatch, Phase.Refused);
      } else if later == CloseWithout(db, op, SessionExpired, Phase.Expired).db {
        CloseKeeps(db, op, SessionExpired, Phase.Expired);
      } else if failure.Some? {
        CloseKeeps(db, op, failure.value, Phase.Refused);
      } else {
        ConfirmKeeps(db, op, e);
      }
    }
  }

  lemma CreateKeeps(db: Tables, op: string, user: string, station: string, prediction: Option<string>, now: real)
    requires Valid(db)
    ensures Keeps(db, CreateSession(db, op, user, station, prediction, now).db)
  {
    var out := CreateSession(db, op, user, station, prediction, now);
    if out.reply.Committed? {
      SessionWriteKeeps(db, op, out.db.sessions[op], db.predictions);
    } else {
      KeepsItself(db);
    }
  }

  lemma CapturedOk(db: Tables, op: string, s: Session, frame: Frame)
    requires SessionOk(db, op, s) && !Terminal(s.phase)
    requires forall c :: c in db.policies ==> db.policies[c].points >= 0
    ensures SessionOk(db, op, Captured(db, s, frame)) && SameDeposit(s, Captured(db, s, frame))
  {
  }

  lemma CaptureKeeps(db: Tables, op: string, station: string, frame: Frame, now: real)
    requires Valid(db)
    ensures Keeps(db, CaptureStation(db, op, station, frame, now).db)
  {
    if CaptureStation(db, op, station, frame, now).reply.Committed? {
      var s := db.sessions[op];
      CapturedOk(db, op, s, frame);
      SessionWriteKeeps(db, op, Captured(db, s, frame), StoredPredictions(db, s, frame, now));
    } else {
      KeepsItself(db);
    }
  }

  lemma DepositKeeps(db: Tables, d: Step)
    requires Valid(db)
    ensures Keeps(db, Apply(db, d).db)
  {
    match d
    case Create(op, user, station, prediction, now) => CreateKeeps(db, op, user, station, prediction, now);
    case CaptureFrame(op, station, frame, now) => CaptureKeeps(db, op, station, frame, now);
    case Abort(op, user) =>
      if AbortSession(db, op, user).reply.Committed? {
        assert SessionOk(db, op, db.sessions[op]);
        SessionWriteKeeps(db, op, db.sessions[op].(phase := Aborted), db.predictions);
      } else {
        KeepsItself(db);
      }
    case Telemetry(op, state) =>
      if Observe(db, op, state).reply.Committed? {
        assert SessionOk(db, op, db.sessions[op]);
        SessionWriteKeeps(db, op, db.sessions[op].(phase := Advance(db.sessions[op].phase, state)), db.predictions);
      } else {
        KeepsItself(db);
      }
    case Result(e, now) => CompleteKeeps(db, e, now);
  }
}
