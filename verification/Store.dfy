/** The tables as one mutable database, and the queries that scan a table row by row. */
module Store {
  import opened Options
  import opened Totals
  import opened Schema
  import opened DepositRules
  import RewardRules
  import Challenges
  import Invariants

  class Database {
    // Configuration that no modelled call writes.
    const settings: Settings
    const faculties: set<string>
    const stations: map<string, string>
    const policies: map<string, Policy>
    const challenges: seq<Challenge>

    var users: map<string, User>
    var rewards: map<string, Reward>
    var redemptions: map<string, Redemption>
    var predictions: map<string, Prediction>
    var sessions: map<string, Session>
    var events: map<string, WasteEvent>
    var claims: map<(string, string), Claim>
    var studentRows: map<string, int>
    var facultyRows: map<string, int>

    constructor (t: Tables)
      ensures Contents() == t
    {
      settings, faculties, stations, policies, challenges :=
        t.settings, t.faculties, t.stations, t.policies, t.challenges;
      users, rewards, redemptions, predictions := t.users, t.rewards, t.redemptions, t.predictions;
      sessions, events, claims := t.sessions, t.events, t.claims;
      studentRows, facultyRows := t.studentRows, t.facultyRows;
    }

    function Contents(): Tables
      reads this
    {
      Tables(settings, users, faculties, rewards, redemptions, stations, policies, predictions,
             sessions, events, challenges, claims, studentRows, facultyRows)
    }

    /** Undoes everything written since `saved` was read. */
    method Rollback(saved: Tables)
      requires saved.settings == settings && saved.faculties == faculties && saved.stations == stations
      requires saved.policies == policies && saved.challenges == challenges
      modifies this
      ensures Contents() == saved
    {
      users, rewards, redemptions := saved.users, saved.rewards, saved.redemptions;
      predictions, sessions, events := saved.predictions, saved.sessions, saved.events;
      claims, studentRows, facultyRows := saved.claims, saved.studentRows, saved.facultyRows;
    }
  }

  /** SELECT by (user, idempotency key), which the unique constraint makes one row at most. */
  method FindRedemption(rows: map<string, Redemption>, user: string, key: string) returns (found: Option<string>)
    requires Invariants.UniqueKeys(rows)
    ensures found == RewardRules.Lookup(rows, user, key)
  {
    var rest := rows;
    while rest != map[]
      invariant forall id :: id in rest ==> id in rows && rest[id] == rows[id]
      invariant forall id :: id in rows && RewardRules.Matches(rows[id], user, key) ==> id in rest
      decreases |rest|
    {
      var id :| id in rest;
      if RewardRules.Matches(rest[id], user, key) {
        return Some(id);
      }
      rest := rest - {id};
    }
    found := None;
  }

  /** SUM of the balances of one faculty's members. */
  method MemberTotal(users: map<string, User>, faculty: string) returns (total: int)
    ensures total == Sum(users, MemberPoints(faculty))
  {
    var rest := users;
    total := 0;
    while rest != map[]
      invariant total + Sum(rest, MemberPoints(faculty)) == Sum(users, MemberPoints(faculty))
      decreases |rest|
    {
      var u :| u in rest;
      SumRemove(rest, u, MemberPoints(faculty));
      total := total + MemberPoints(faculty)(rest[u]);
      rest := rest - {u};
    }
    SumEmpty<string, User>(MemberPoints(faculty));
  }

  /** SUM of one user's confirmed weight in one class, in kilograms. */
  method ProgressTotal(events: map<string, WasteEvent>, user: string, cls: string) returns (kilograms: real)
    ensures kilograms == Progress(events, user, cls)
  {
    var rest := events;
    kilograms := 0.0;
    while rest != map[]
      invariant kilograms + Progress(rest, user, cls) == Progress(events, user, cls)
      decreases |rest|
    {
      var k :| k in rest;
      Challenges.ProgressRemove(rest, user, cls, k);
      kilograms := kilograms + EventKilograms(rest[k], user, cls);
      rest := rest - {k};
    }
  }
}
