/** The leaderboard: materialised rows that must agree with the balances. */
module Leaderboard {
  import opened Options
  import opened Totals
  import opened Schema
  import opened DepositRules
  import opened Challenges
  import Invariants

  ghost predicate StudentExact(db: Tables, u: string) {
    u in db.users && u in db.studentRows && db.studentRows[u] == db.users[u].points
  }

  ghost predicate FacultyExact(db: Tables, f: string) {
    f in db.facultyRows && db.facultyRows[f] == Sum(db.users, MemberPoints(f))
  }

  // ---- after one deposit --------------------------------------------------------------------

  /** Whatever stale rows it finds, the base award leaves both rows of its user exact. */
  lemma AwardRanks(db: Tables, op: string, e: MachineEvent)
    requires op in db.sessions && db.sessions[op].prediction.Some? && db.sessions[op].cls.Some?
    requires db.sessions[op].user in db.users
    ensures var later := Award(db, op, e);
      var u := db.sessions[op].user;
      && StudentExact(later, u)
      && (db.users[u].faculty in db.faculties ==> FacultyExact(later, db.users[u].faculty))
      && later.studentRows == db.studentRows[u := later.users[u].points]
      && (forall f :: f != db.users[u].faculty || f !in db.faculties ==>
            (f in later.facultyRows <==> f in db.facultyRows)
            && (f in db.facultyRows ==> later.facultyRows[f] == db.facultyRows[f]))
  {
  }

  /** The challenge bonus of a confirmed deposit. */
  ghost function BonusOf(db: Tables, op: string, e: MachineEvent): int
    requires op in db.sessions && db.sessions[op].prediction.Some? && db.sessions[op].cls.Some?
    requires db.sessions[op].user in db.users
  {
    var later := Award(db, op, e);
    var u := db.sessions[op].user;
    var cls := db.sessions[op].cls.value;
    Settle(later.challenges, u, cls, Progress(later.events, u, cls), ClaimedBy(later.claims, u), later.claims).1
  }

  /** Confirming this deposit will pay a bonus, as the tables before it tell: some challenge of
      its class is active, unclaimed, worth something, and reached with this deposit's weight. */
  ghost predicate BonusDue(db: Tables, op: string, e: MachineEvent)
    requires op in db.sessions && db.sessions[op].cls.Some?
  {
    var s := db.sessions[op];
    var grams := if e.weight.Some? then e.weight.value else 0.0;
    AnyDue(db.challenges, s.user, s.cls.value, Kilograms(db.events, s.user, s.cls.value) + grams / 1000.0, db.claims)
  }

  lemma BonusPaidIffDue(db: Tables, op: string, e: MachineEvent)
    requires op in db.sessions && db.sessions[op].prediction.Some? && db.sessions[op].cls.Some?
    requires db.sessions[op].user in db.users && op !in db.events && DistinctIds(db.challenges)
    ensures BonusOf(db, op, e) >= 0 && (BonusOf(db, op, e) > 0 <==> BonusDue(db, op, e))
  {
    var s := db.sessions[op];
    var later := Award(db, op, e);
    ProgressRemove(later.events, s.user, s.cls.value, op);
    ProgressIsKilograms(db.events, s.user, s.cls.value);
    assert later.events - {op} == db.events;
    PaysIffDue(db.challenges, s.user, s.cls.value, Progress(later.events, s.user, s.cls.value),
               ClaimedBy(db.claims, s.user), db.claims);
  }

  lemma RowsLagByBonus(db: Tables, op: string, e: MachineEvent)
    requires op in db.sessions && db.sessions[op].prediction.Some? && db.sessions[op].cls.Some?
    requires db.sessions[op].user in db.users && op !in db.events
    ensures var later := Confirm(db, op, e).db;
      var u := db.sessions[op].user;
      var f := db.users[u].faculty;
      && u in later.users && u in later.studentRows
      && later.users[u].points == later.studentRows[u] + BonusOf(db, op, e)
      && (f in db.faculties ==>
            f in later.facultyRows
            && Sum(later.users, MemberPoints(f)) == later.facultyRows[f] + BonusOf(db, op, e))
  {
    var paid := Award(db, op, e);
    var u := db.sessions[op].user;
    var bonus := BonusOf(db, op, e);
    AwardRanks(db, op, e);
    var later := Confirm(db, op, e).db;
    assert later.users == paid.users[u := paid.users[u].(points := paid.users[u].points + bonus)];
    SumUpdate(paid.users, u, later.users[u], MemberPoints(db.users[u].faculty));
  }

  /** The bonus is paid after the rows are written: a confirmed deposit leaves its user's rows
      exact if and only if no bonus was due before it, and otherwise both are too low. */
  lemma ExactIffNoneDue(db: Tables, op: string, e: MachineEvent)
    requires op in db.sessions && db.sessions[op].prediction.Some? && db.sessions[op].cls.Some?
    requires db.sessions[op].user in db.users && op !in db.events && DistinctIds(db.challenges)
    ensures var later := Confirm(db, op, e).db;
      var u := db.sessions[op].user;
      var f := db.users[u].faculty;
      && u in later.users && u in later.studentRows && later.studentRows[u] <= later.users[u].points
      && (StudentExact(later, u) <==> !BonusDue(db, op, e))
      && (f in db.faculties ==>
            && f in later.facultyRows && later.facultyRows[f] <= Sum(later.users, MemberPoints(f))
            && (FacultyExact(later, f) <==> !BonusDue(db, op, e)))
  {
    RowsLagByBonus(db, op, e);
    BonusPaidIffDue(db, op, e);
  }

  /** One student of one faculty, a routed session and one challenge of ten grams. */
  function LaggingTables(): Tables {
    Tables(
      Settings(5.0, 300.0), map["ana" := User(0, "sci")], {"sci"}, map[], map[], map["st-001" := "ST-001"],
      map["plastic" := Policy(1, 10)], map[],
      map["op-1" := Session("ana", "st-001", Some("p-1"), 10, Waiting, Some("plastic"), Some(1), Some(High),
                            None, None, None, None, None, 300.0)],
      map[], [Challenge("ch-1", "plastic", 0.01, 50, true)], map[], map[], map[])
  }

  function LaggingResult(): MachineEvent {
    MachineEvent(Some("ST-001"), Some("op-1"), Some("confirmed"), Some(1), Some(20.0), true, true, true, Some(1))
  }

  /** An input on which the rows lag: the deposit is confirmed, and both boards miss its bonus. */
  lemma RowsCanLag()
    ensures var db := LaggingTables();
      var out := Complete(db, LaggingResult(), 0.0);
      && Invariants.Valid(db) && DistinctIds(db.challenges) && out.reply == Committed("op-1")
      && !StudentExact(out.db, "ana") && !FacultyExact(out.db, "sci")
  {
    var db := LaggingTables();
    var e := LaggingResult();
    assert Names(db, "ST-001", "st-001") && !Ambiguous(db, "ST-001");
    assert PhysicalFailure(5.0, db.sessions["op-1"], e).None?;
    assert Complete(db, e, 0.0) == Confirm(db, "op-1", e);
    assert Progress(db.events, "ana", "plastic") == 0.0;
    ProgressIsKilograms(db.events, "ana", "plastic");
    assert Due(db.challenges[0], "ana", "plastic", 0.02, db.claims);
    ExactIffNoneDue(db, "op-1", e);
  }

  // ---- repair -------------------------------------------------------------------------------

  function Balances(users: map<string, User>): map<string, int> {
    map u | u in users :: users[u].points
  }

  /** The member totals of the given faculties. */
  ghost function FacultyTotals(users: map<string, User>, faculties: set<string>): map<string, int> {
    map f | f in faculties :: Sum(users, MemberPoints(f))
  }

  /** The rows rebuilt from the balances: one per user, and one per faculty of the table. */
  ghost function Repaired(db: Tables): Tables {
    db.(studentRows := Balances(db.users), facultyRows := db.facultyRows + FacultyTotals(db.users, db.faculties))
  }

  function Balance(): User -> int { (u: User) => u.points }

  /** Adding up per faculty is adding up over all users, when every user has a faculty. */
  lemma {:induction false} SumByFaculty(users: map<string, User>, faculties: set<string>)
    requires forall u :: u in users ==> users[u].faculty in faculties
    ensures Total(FacultyTotals(users, faculties)) == Sum(users, Balance())
    decreases |users|
  {
    if users == map[] {
      SumEmpty<string, User>(Balance());
      forall f | f in faculties ensures Sum(users, MemberPoints(f)) == 0 {
        SumEmpty<string, User>(MemberPoints(f));
      }
      assert FacultyTotals(users, faculties) == (map f | f in faculties :: 0);
      TotalZero(faculties);
    } else {
      var u :| u in users;
      SumByFaculty(users - {u}, faculties);
      SumRemove(users, u, Balance());
      OneMoreMember(users, faculties, u);
    }
  }

  lemma MemberLeaves(users: map<string, User>, u: string, g: string)
    requires u in users
    ensures Sum(users, MemberPoints(g))
         == Sum(users - {u}, MemberPoints(g)) + (if g == users[u].faculty then users[u].points else 0)
  {
    SumRemove(users, u, MemberPoints(g));
  }

  lemma OneRowMoves(a: map<string, int>, b: map<string, int>, f: string, n: int)
    requires f in a && b.Keys == a.Keys
    requires forall g :: g in a ==> b[g] == a[g] + (if g == f then n else 0)
    ensures Total(b) == Total(a) + n
  {
    assert b == a[f := a[f] + n];
    TotalUpdate(a, f, a[f] + n);
  }

  lemma OneMoreMember(users: map<string, User>, faculties: set<string>, u: string)
    requires u in users && users[u].faculty in faculties
    ensures Total(FacultyTotals(users, faculties)) == Total(FacultyTotals(users - {u}, faculties)) + users[u].points
  {
    var before, after := FacultyTotals(users - {u}, faculties), FacultyTotals(users, faculties);
    forall g | g in before
      ensures after[g] == before[g] + (if g == users[u].faculty then users[u].points else 0)
    {
      MemberLeaves(users, u, g);
    }
    OneRowMoves(before, after, users[u].faculty, users[u].points);
  }

  lemma {:induction false} TotalZero(keys: set<string>)
    ensures Total(map k | k in keys :: 0) == 0
    decreases |keys|
  {
    var m := map k | k in keys :: 0;
    if keys != {} {
      var k :| k in keys;
      TotalRemove(m, k);
      assert m - {k} == map j | j in keys - {k} :: 0;
      TotalZero(keys - {k});
    } else {
      assert m == map[];
    }
  }

  lemma {:induction false} StudentTotal(users: map<string, User>)
    ensures Total(Balances(users)) == Sum(users, Balance())
    decreases |users|
  {
    if users == map[] {
      SumEmpty<string, User>(Balance());
    } else {
      var u :| u in users;
      StudentTotal(users - {u});
      SumRemove(users, u, Balance());
      assert Balances(users) - {u} == Balances(users - {u});
      TotalRemove(Balances(users), u);
    }
  }

  /** The faculty rows of the faculties that exist. */
  function ExistingRows(db: Tables): map<string, int> {
    map f | f in db.facultyRows && f in db.faculties :: db.facultyRows[f]
  }

  /** Repair makes every student row and every existing faculty's row exact, and drops the rows
      of users that are gone. */
  lemma RepairIsExact(db: Tables)
    ensures var later := Repaired(db);
      && later.studentRows.Keys == db.users.Keys
      && (forall u :: u in db.users ==> StudentExact(later, u))
      && (forall f :: f in db.faculties ==> FacultyExact(later, f))
  {
  }

  /** After repair both boards add up to the same total. */
  lemma RepairedBoardsAgree(db: Tables)
    requires forall u :: u in db.users ==> db.users[u].faculty in db.faculties
    ensures Total(ExistingRows(Repaired(db))) == Total(Repaired(db).studentRows)
  {
    SumByFaculty(db.users, db.faculties);
    assert ExistingRows(Repaired(db)) == FacultyTotals(db.users, db.faculties);
    StudentTotal(db.users);
  }
}
