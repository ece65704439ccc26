/** The challenge loop: what one confirmed deposit pays on top of its own points. */
module Challenges {
  import opened Totals
  import opened Schema
  import opened DepositRules
  import opened Invariants

  /** Existing rows stay; every new row is for this user and carries what its challenge pays. */
  ghost predicate OnlyAdds(cs: seq<Challenge>, user: string, cls: string, progress: real, already: set<string>,
                           claims: map<(string, string), Claim>, later: map<(string, string), Claim>)
  {
    && (forall k :: k in claims ==> k in later && later[k] == claims[k])
    && (forall k :: k in later && k !in claims ==> NewClaim(cs, user, cls, progress, already, k, later[k]))
  }

  ghost predicate NewClaim(cs: seq<Challenge>, user: string, cls: string, progress: real, already: set<string>,
                           k: (string, string), row: Claim)
  {
    && k.0 == user && k.1 !in already
    && exists i :: 0 <= i < |cs| && cs[i].id == k.1 && Completes(cs[i], cls, progress) && row == ClaimOf(cs[i], user)
  }

  /** An active challenge of the class whose target the progress has reached. */
  predicate Completes(c: Challenge, cls: string, progress: real) {
    c.active && c.cls == cls && c.targetKg <= progress
  }

  /** The row a completed challenge leaves: its own reward, or nothing if that is not positive. */
  function ClaimOf(c: Challenge, user: string): Claim {
    Claim(user, c.id, if c.reward > 0 then c.reward else 0)
  }

  /** The bonus is exactly the sum of the rewards of the inserted rows, and nobody else's rows move. */
  lemma {:induction false} SettlePaysItsRows(cs: seq<Challenge>, user: string, cls: string, progress: real,
      already: set<string>, claims: map<(string, string), Claim>, u: string)
    ensures var (later, bonus) := Settle(cs, user, cls, progress, already, claims);
      && bonus >= 0
      && Sum(later, ClaimPoints(u)) == Sum(claims, ClaimPoints(u)) + (if u == user then bonus else 0)
  {
    if cs != [] {
      if Wins(cs[0], user, cls, progress, already, claims) {
        var row := Claim(user, cs[0].id, Payout(cs[0]));
        SettlePaysItsRows(cs[1..], user, cls, progress, already, claims[(user, cs[0].id) := row], u);
        SumUpdate(claims, (user, cs[0].id), row, ClaimPoints(u));
      } else {
        SettlePaysItsRows(cs[1..], user, cls, progress, already, claims, u);
      }
    }
  }

  lemma {:induction false} SettleOnlyAdds(cs: seq<Challenge>, user: string, cls: string, progress: real,
      already: set<string>, claims: map<(string, string), Claim>)
    ensures OnlyAdds(cs, user, cls, progress, already, claims, Settle(cs, user, cls, progress, already, claims).0)
  {
    if cs != [] {
      var won := Wins(cs[0], user, cls, progress, already, claims);
      var next := if won then claims[(user, cs[0].id) := Claim(user, cs[0].id, Payout(cs[0]))] else claims;
      var later := Settle(cs, user, cls, progress, already, claims).0;
      SettleOnlyAdds(cs[1..], user, cls, progress, already, next);
      forall k | k in later && k !in claims ensures NewClaim(cs, user, cls, progress, already, k, later[k]) {
        if won && k == (user, cs[0].id) {
          assert cs[0].id == k.1;
        } else {
          assert NewClaim(cs[1..], user, cls, progress, already, k, later[k]);
          var i :| 0 <= i < |cs[1..]| && cs[1..][i].id == k.1 && Completes(cs[1..][i], cls, progress)
                   && later[k] == ClaimOf(cs[1..][i], user);
          assert cs[i + 1] == cs[1..][i];
        }
      }
    }
  }

  /** Afterwards every active challenge of the class whose target is reached is completed, unless
      the call had read it as completed before (and then it already was). */
  lemma {:induction false} SettleCompletes(cs: seq<Challenge>, user: string, cls: string, progress: real,
      already: set<string>, claims: map<(string, string), Claim>, i: nat)
    requires i < |cs| && Completes(cs[i], cls, progress)
    ensures cs[i].id in already || (user, cs[i].id) in Settle(cs, user, cls, progress, already, claims).0
  {
    var next := if Wins(cs[0], user, cls, progress, already, claims)
                then claims[(user, cs[0].id) := Claim(user, cs[0].id, Payout(cs[0]))] else claims;
    if i == 0 {
      SettleOnlyAdds(cs[1..], user, cls, progress, already, next);
    } else {
      SettleCompletes(cs[1..], user, cls, progress, already, next, i - 1);
    }
  }

  /** A challenge that is already claimed pays nothing, however stale `already` is: a claim lost
      to another transaction changes neither the table nor the bonus. */
  lemma {:induction false} LostClaimPaysNothing(cs: seq<Challenge>, user: string, cls: string, progress: real,
      already: set<string>, claims: map<(string, string), Claim>)
    requires already <= ClaimedBy(claims, user)
    ensures Settle(cs, user, cls, progress, already, claims)
         == Settle(cs, user, cls, progress, ClaimedBy(claims, user), claims)
    decreases |cs|
  {
    if cs != [] {
      var now := ClaimedBy(claims, user);
      assert (user, cs[0].id) in claims <==> cs[0].id in now by {
        if cs[0].id in now {
          var k :| k in claims && k.0 == user && k.1 == cs[0].id;
          assert k == (user, cs[0].id);
        }
      }
      if Wins(cs[0], user, cls, progress, already, claims) {
        var next := claims[(user, cs[0].id) := Claim(user, cs[0].id, Payout(cs[0]))];
        assert now <= ClaimedBy(next, user) by {
          forall c | c in now ensures c in ClaimedBy(next, user) {
            assert (user, c) in next;
          }
        }
        LostClaimPaysNothing(cs[1..], user, cls, progress, already, next);
        LostClaimPaysNothing(cs[1..], user, cls, progress, now, next);
      } else {
        LostClaimPaysNothing(cs[1..], user, cls, progress, already, claims);
      }
    }
  }

  /** Challenge ids are primary keys. */
  predicate DistinctIds(cs: seq<Challenge>) {
    forall i, j :: 0 <= i < j < |cs| ==> cs[i].id != cs[j].id
  }

  /** An active challenge of the class that the user has not claimed, reached at `progress`, and
      worth something. */
  predicate Due(c: Challenge, user: string, cls: string, progress: real, claims: map<(string, string), Claim>) {
    Completes(c, cls, progress) && c.reward > 0 && (user, c.id) !in claims
  }

  ghost predicate AnyDue(cs: seq<Challenge>, user: string, cls: string, progress: real,
                         claims: map<(string, string), Claim>)
  {
    exists i :: 0 <= i < |cs| && Due(cs[i], user, cls, progress, claims)
  }

  lemma AnyDueTail(cs: seq<Challenge>, user: string, cls: string, progress: real, claims: map<(string, string), Claim>)
    requires cs != []
    ensures AnyDue(cs, user, cls, progress, claims)
       <==> Due(cs[0], user, cls, progress, claims) || AnyDue(cs[1..], user, cls, progress, claims)
  {
    if AnyDue(cs, user, cls, progress, claims) {
      var i :| 0 <= i < |cs| && Due(cs[i], user, cls, progress, claims);
      assert i > 0 ==> cs[1..][i - 1] == cs[i];
    }
    if AnyDue(cs[1..], user, cls, progress, claims) {
      var i :| 0 <= i < |cs[1..]| && Due(cs[1..][i], user, cls, progress, claims);
      assert cs[i + 1] == cs[1..][i];
    }
  }

  /** A claim of another challenge makes no difference to what is due. */
  lemma AnyDueElsewhere(cs: seq<Challenge>, user: string, cls: string, progress: real,
                        claims: map<(string, string), Claim>, other: string, row: Claim)
    requires forall i :: 0 <= i < |cs| ==> cs[i].id != other
    ensures AnyDue(cs, user, cls, progress, claims[(user, other) := row]) <==> AnyDue(cs, user, cls, progress, claims)
  {
    var next := claims[(user, other) := row];
    forall i | 0 <= i < |cs|
      ensures Due(cs[i], user, cls, progress, next) <==> Due(cs[i], user, cls, progress, claims)
    {
    }
    if AnyDue(cs, user, cls, progress, claims) {
      var i :| 0 <= i < |cs| && Due(cs[i], user, cls, progress, claims);
      assert Due(cs[i], user, cls, progress, next);
    }
  }

  /** The loop pays something if and only if some challenge was due before it. */
  lemma {:induction false} PaysIffDue(cs: seq<Challenge>, user: string, cls: string, progress: real,
      already: set<string>, claims: map<(string, string), Claim>)
    requires DistinctIds(cs) && forall c :: c in already ==> (user, c) in claims
    ensures Settle(cs, user, cls, progress, already, claims).1 >= 0
    ensures Settle(cs, user, cls, progress, already, claims).1 > 0 <==> AnyDue(cs, user, cls, progress, claims)
    decreases |cs|
  {
    if cs != [] {
      AnyDueTail(cs, user, cls, progress, claims);
      if Wins(cs[0], user, cls, progress, already, claims) {
        var row := Claim(user, cs[0].id, Payout(cs[0]));
        PaysIffDue(cs[1..], user, cls, progress, already, claims[(user, cs[0].id) := row]);
        AnyDueElsewhere(cs[1..], user, cls, progress, claims, cs[0].id, row);
      } else {
        PaysIffDue(cs[1..], user, cls, progress, already, claims);
      }
    }
  }

  /** What the challenges that are due are worth together. */
  function DueRewards(cs: seq<Challenge>, user: string, cls: string, progress: real,
                      claims: map<(string, string), Claim>): int
  {
    if cs == [] then 0
    else
      (if Due(cs[0], user, cls, progress, claims) then cs[0].reward else 0)
        + DueRewards(cs[1..], user, cls, progress, claims)
  }

  lemma {:induction false} DueRewardsElsewhere(cs: seq<Challenge>, user: string, cls: string, progress: real,
      claims: map<(string, string), Claim>, other: string, row: Claim)
    requires forall i :: 0 <= i < |cs| ==> cs[i].id != other
    ensures DueRewards(cs, user, cls, progress, claims[(user, other) := row])
         == DueRewards(cs, user, cls, progress, claims)
    decreases |cs|
  {
    if cs != [] {
      DueRewardsElsewhere(cs[1..], user, cls, progress, claims, other, row);
    }
  }

  /** The loop pays exactly the rewards of the challenges that were due before it. */
  lemma {:induction false} PaysWhatIsDue(cs: seq<Challenge>, user: string, cls: string, progress: real,
      already: set<string>, claims: map<(string, string), Claim>)
    requires DistinctIds(cs) && forall c :: c in already ==> (user, c) in claims
    ensures Settle(cs, user, cls, progress, already, claims).1 == DueRewards(cs, user, cls, progress, claims)
    decreases |cs|
  {
    if cs != [] {
      if Wins(cs[0], user, cls, progress, already, claims) {
        var row := Claim(user, cs[0].id, Payout(cs[0]));
        PaysWhatIsDue(cs[1..], user, cls, progress, already, claims[(user, cs[0].id) := row]);
        DueRewardsElsewhere(cs[1..], user, cls, progress, claims, cs[0].id, row);
      } else {
        PaysWhatIsDue(cs[1..], user, cls, progress, already, claims);
      }
    }
  }

  // ---- the confirmed weight -------------------------------------------------------------------

  /** The sum of the weights of the user's confirmed events of one class, in kilograms. */
  ghost function Kilograms(events: map<string, WasteEvent>, user: string, cls: string): real {
    RealTotal(map op | op in events && events[op].user == user && events[op].cls == cls && events[op].confirmed
                :: events[op].weight / 1000.0)
  }

  lemma {:induction false} ProgressIsKilograms(events: map<string, WasteEvent>, user: string, cls: string)
    ensures Progress(events, user, cls) == Kilograms(events, user, cls)
    decreases |events|
  {
    var m := map op | op in events && events[op].user == user && events[op].cls == cls && events[op].confirmed
                :: events[op].weight / 1000.0;
    if events == map[] {
      assert m == map[];
    } else {
      var k :| k in events;
      var rest := events - {k};
      ProgressRemove(events, user, cls, k);
      ProgressIsKilograms(rest, user, cls);
      assert m - {k} == map op | op in rest && rest[op].user == user && rest[op].cls == cls && rest[op].confirmed
                          :: rest[op].weight / 1000.0;
      if k in m {
        RealTotalRemove(m, k);
      } else {
        assert m - {k} == m;
      }
    }
  }

  lemma {:induction false} ProgressRemove(events: map<string, WasteEvent>, user: string, cls: string, k: string)
    requires k in events
    ensures Progress(events, user, cls) == EventKilograms(events[k], user, cls) + Progress(events - {k}, user, cls)
    decreases |events|
  {
    var j :| j in events
      && Progress(events, user, cls) == EventKilograms(events[j], user, cls) + Progress(events - {j}, user, cls);
    if j != k {
      ProgressRemove(events - {j}, user, cls, k);
      ProgressRemove(events - {k}, user, cls, j);
      assert events - {j} - {k} == events - {k} - {j};
    }
  }

  /** The claims after the loop: the ones before, and one row for each challenge it completes. */
  lemma SettleClaims(cs: seq<Challenge>, user: string, cls: string, progress: real,
                     claims: map<(string, string), Claim>, k: (string, string))
    requires DistinctIds(cs)
    ensures var later := Settle(cs, user, cls, progress, ClaimedBy(claims, user), claims).0;
      && (k in later <==> k in claims || (k.0 == user && exists i ::
            0 <= i < |cs| && cs[i].id == k.1 && Completes(cs[i], cls, progress)))
      && (k in claims ==> later[k] == claims[k])
      && (forall i :: 0 <= i < |cs| && k == (user, cs[i].id) && k in later && k !in claims ==>
            later[k] == ClaimOf(cs[i], user))
  {
    var already := ClaimedBy(claims, user);
    SettleOnlyAdds(cs, user, cls, progress, already, claims);
    if k.0 == user {
      assert k.1 in already <==> k in claims;
      forall i | 0 <= i < |cs| && cs[i].id == k.1 && Completes(cs[i], cls, progress)
        ensures k in Settle(cs, user, cls, progress, already, claims).0
      {
        SettleCompletes(cs, user, cls, progress, already, claims, i);
      }
    }
  }

  // ---- the bonus of one deposit -------------------------------------------------------------

  /** The balance grows by exactly the rewards of the rows this call inserts, and never falls. */
  lemma BonusIsItsRows(db: Tables, user: string, cls: string, already: set<string>)
    requires user in db.users
    ensures var later := Bonus(db, user, cls, already);
      && user in later.users
      && later.users[user].points - db.users[user].points
         == Sum(later.claims, ClaimPoints(user)) - Sum(db.claims, ClaimPoints(user))
      && later.users[user].points >= db.users[user].points
  {
    SettlePaysItsRows(db.challenges, user, cls, Progress(db.events, user, cls), already, db.claims, user);
  }

  /** Afterwards every active challenge of the class whose target the confirmed weight has
      reached is completed for the user. */
  lemma BonusCompletesReached(db: Tables, user: string, cls: string, already: set<string>, i: nat)
    requires already <= ClaimedBy(db.claims, user)
    requires i < |db.challenges| && Completes(db.challenges[i], cls, Progress(db.events, user, cls))
    ensures (user, db.challenges[i].id) in Bonus(db, user, cls, already).claims
  {
    hide Settle, Progress;
    var progress := Progress(db.events, user, cls);
    var c := db.challenges[i].id;
    SettleCompletes(db.challenges, user, cls, progress, already, db.claims, i);
    if c in already {
      var k :| k in db.claims && k.0 == user && k.1 == c;
      assert k == (user, c);
      SettleOnlyAdds(db.challenges, user, cls, progress, already, db.claims);
    }
  }

  /** Claims that other transactions won in the meantime change nothing: a call that read an old
      set of completed challenges ends as one that read the current set. */
  lemma LostClaimsAreHarmless(db: Tables, user: string, cls: string, already: set<string>)
    requires already <= ClaimedBy(db.claims, user)
    ensures Bonus(db, user, cls, already) == Bonus(db, user, cls, ClaimedBy(db.claims, user))
  {
    LostClaimPaysNothing(db.challenges, user, cls, Progress(db.events, user, cls), already, db.claims);
  }
}
