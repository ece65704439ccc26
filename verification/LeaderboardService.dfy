/** Rebuilds the leaderboard from the balances. */
module LeaderboardService {
  import opened Schema
  import opened Store
  import opened Leaderboard
  import Totals
  import DepositRules

  method RebuildStudents(db: Database)
    modifies db`studentRows
    ensures db.studentRows == Balances(db.users)
  {
    db.studentRows := map[];
    var rest := db.users;
    while rest != map[]
      invariant forall u :: u in rest ==> u in db.users && rest[u] == db.users[u]
      invariant db.studentRows.Keys == db.users.Keys - rest.Keys
      invariant forall u :: u in db.studentRows ==> db.studentRows[u] == db.users[u].points
      decreases |rest|
    {
      var u :| u in rest;
      db.studentRows := db.studentRows[u := rest[u].points];
      rest := rest - {u};
    }
  }

  lemma OneMoreFaculty(rows: map<string, int>, users: map<string, User>, done: set<string>, f: string)
    ensures rows + FacultyTotals(users, done + {f})
         == (rows + FacultyTotals(users, done))[f := Totals.Sum(users, DepositRules.MemberPoints(f))]
  {
  }

  method OverwriteFaculties(db: Database)
    modifies db`facultyRows
    ensures db.facultyRows == old(db.facultyRows) + FacultyTotals(db.users, db.faculties)
  {
    var rest := db.faculties;
    while rest != {}
      invariant rest <= db.faculties
      invariant db.facultyRows == old(db.facultyRows) + FacultyTotals(db.users, db.faculties - rest)
      decreases |rest|
    {
      var f :| f in rest;
      var total := MemberTotal(db.users, f);
      OneMoreFaculty(old(db.facultyRows), db.users, db.faculties - rest, f);
      assert db.faculties - (rest - {f}) == (db.faculties - rest) + {f};
      db.facultyRows := db.facultyRows[f := total];
      rest := rest - {f};
    }
    assert db.faculties - rest == db.faculties;
  }

  /** Rebuilds the student rows and overwrites the row of every existing faculty. */
  method Repair(db: Database)
    modifies db`studentRows, db`facultyRows
    ensures db.Contents() == Repaired(old(db.Contents()))
    ensures forall u :: u in db.users ==> StudentExact(db.Contents(), u)
    ensures forall f :: f in db.faculties ==> FacultyExact(db.Contents(), f)
  {
    RebuildStudents(db);
    OverwriteFaculties(db);
  }
}
