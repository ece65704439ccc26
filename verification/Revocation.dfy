/** Revoked token ids with an expiry, pruned as they lapse, and the sessions they end. */
module Revocation {
  import opened Options

  // ---- the store ----------------------------------------------------------------------------

  predicate Revoked(store: map<string, real>, jti: string, now: real) {
    jti != "" && jti in store && !(store[jti] < now)
  }

  function Unlapsed(store: map<string, real>, now: real): map<string, real> {
    map j | j in store && !(store[j] < now) :: store[j]
  }

  function AfterRevoke(store: map<string, real>, jti: string, ttl: real, now: real): map<string, real> {
    if jti == "" || ttl <= 0.0 then store else Unlapsed(store[jti := now + ttl], now)
  }

  function AfterCheck(store: map<string, real>, jti: string, now: real): map<string, real> {
    if jti != "" && jti in store && store[jti] < now then store - {jti} else store
  }

  class RevocationStore {
    var revoked: map<string, real>

    constructor ()
      ensures revoked == map[]
    {
      revoked := map[];
    }

    method Revoke(jti: string, ttl: real, now: real)
      modifies this
      ensures revoked == AfterRevoke(old(revoked), jti, ttl, now)
    {
      if jti == "" || ttl <= 0.0 {
        return;
      }
      revoked := revoked[jti := now + ttl];
      Prune(now);
    }

    method IsRevoked(jti: string, now: real) returns (answer: bool)
      modifies this
      ensures answer == Revoked(old(revoked), jti, now)
      ensures revoked == AfterCheck(old(revoked), jti, now)
    {
      if jti == "" || jti !in revoked {
        return false;
      }
      if revoked[jti] < now {
        revoked := revoked - {jti};
        return false;
      }
      answer := true;
    }

    /** Deletes the lapsed entries one by one. */
    method Prune(now: real)
      modifies this
      ensures revoked == Unlapsed(old(revoked), now)
    {
      var expired := set j | j in revoked && revoked[j] < now;
      ghost var all := expired;
      while expired != {}
        invariant expired <= all && all == set j | j in old(revoked) && old(revoked)[j] < now
        invariant revoked == old(revoked) - (all - expired)
        decreases |expired|
      {
        var j :| j in expired;
        revoked := revoked - {j};
        expired := expired - {j};
        assert all - expired == (all - (expired + {j})) + {j};
      }
      assert all - expired == all;
    }
  }

  // ---- pruning is invisible -------------------------------------------------------------------

  datatype Op = Revoke(jti: string, ttl: real, now: real) | Check(jti: string, now: real)

  ghost predicate ClockRuns(ops: seq<Op>) {
    forall i, j :: 0 <= i < j < |ops| ==> ops[i].now <= ops[j].now
  }

  function Pruning(store: map<string, real>, op: Op): map<string, real> {
    match op
    case Revoke(jti, ttl, now) => AfterRevoke(store, jti, ttl, now)
    case Check(jti, now) => AfterCheck(store, jti, now)
  }

  /** The same store if it never forgot anything. */
  function Remembering(store: map<string, real>, op: Op): map<string, real> {
    if op.Revoke? && op.jti != "" && op.ttl > 0.0 then store[op.jti := op.now + op.ttl] else store
  }

  function RunPruning(ops: seq<Op>): map<string, real> {
    if ops == [] then map[] else Pruning(RunPruning(ops[..|ops| - 1]), ops[|ops| - 1])
  }

  function RunRemembering(ops: seq<Op>): map<string, real> {
    if ops == [] then map[] else Remembering(RunRemembering(ops[..|ops| - 1]), ops[|ops| - 1])
  }

  /** The pruned store is the full one without some lapsed entries. */
  ghost predicate Lags(pruned: map<string, real>, full: map<string, real>, now: real) {
    && (forall j :: j in pruned ==> j in full && pruned[j] == full[j])
    && (forall j :: j in full && j !in pruned ==> full[j] < now)
  }

  lemma LagsStep(pruned: map<string, real>, full: map<string, real>, op: Op)
    requires Lags(pruned, full, op.now)
    ensures Lags(Pruning(pruned, op), Remembering(full, op), op.now)
  {
  }

  lemma {:induction false} PrunedLags(ops: seq<Op>, now: real)
    requires ClockRuns(ops) && forall i :: 0 <= i < |ops| ==> ops[i].now <= now
    ensures Lags(RunPruning(ops), RunRemembering(ops), now)
    decreases |ops|
  {
    if ops != [] {
      var last := ops[|ops| - 1];
      PrunedLags(ops[..|ops| - 1], last.now);
      LagsStep(RunPruning(ops[..|ops| - 1]), RunRemembering(ops[..|ops| - 1]), last);
    }
  }

  /** Pruning never changes an answer: at no later time does the pruned store answer otherwise
      than one that remembers every revocation. */
  lemma {:induction false} PruningIsInvisible(ops: seq<Op>, jti: string, now: real)
    requires ClockRuns(ops) && forall i :: 0 <= i < |ops| ==> ops[i].now <= now
    ensures Revoked(RunPruning(ops), jti, now) <==> Revoked(RunRemembering(ops), jti, now)
  {
    PrunedLags(ops, now);
  }

  // ---- logged-out tokens ----------------------------------------------------------------------

  /** A token's id and expiry; the id decides the token. */
  datatype Token = Token(jti: string, exp: int)

  datatype Account = Account(active: bool, version: int)

  /** The part of the acceptance rule that time and the store decide. Wall and monotonic clock
      advance together: the monotonic one reads `now + offset`. */
  predicate Alive(store: map<string, real>, t: Token, now: real, offset: real) {
    !(t.exp as real < now) && !Revoked(store, t.jti, now + offset)
  }

  /** The whole rule of an authenticated request for a token of version `ver`. */
  predicate Authenticates(store: map<string, real>, t: Token, account: Option<Account>, ver: int, now: real,
                          offset: real)
  {
    Alive(store, t, now, offset) && account.Some? && account.value.active && ver == account.value.version
  }

  /** `Visit`: an authenticated request. `Logout`: one that also revokes its own token. */
  datatype Request = Visit(token: Token, now: real) | Logout(token: Token, now: real)

  function Max(a: real, b: real): real { if a < b then b else a }

  function Served(store: map<string, real>, r: Request, offset: real): map<string, real> {
    var checked := if r.token.exp as real < r.now then store else AfterCheck(store, r.token.jti, r.now + offset);
    if r.Logout? && Alive(store, r.token, r.now, offset) then
      AfterRevoke(checked, r.token.jti, Max(r.token.exp as real - r.now, 0.0), r.now + offset)
    else checked
  }

  function Serve(store: map<string, real>, rs: seq<Request>, offset: real): map<string, real>
    decreases |rs|
  {
    if rs == [] then store else Serve(Served(store, rs[0], offset), rs[1..], offset)
  }

  ghost predicate Ordered(rs: seq<Request>, start: real, end: real) {
    && (forall i :: 0 <= i < |rs| ==> start <= rs[i].now <= end)
    && (forall i, j :: 0 <= i < j < |rs| ==> rs[i].now <= rs[j].now)
  }

  /** Token ids are unique: one id, one token. */
  ghost predicate Distinct(t: Token, rs: seq<Request>) {
    forall i :: 0 <= i < |rs| && rs[i].token.jti == t.jti ==> rs[i].token == t
  }

  /** The entry of a logged-out token is there until the token itself has expired. */
  predicate Out(store: map<string, real>, t: Token, since: real, now: real, offset: real) {
    (t.jti in store && store[t.jti] == t.exp as real + offset) || (t.exp as real) < now || t.exp as real <= since
  }

  lemma OutStays(store: map<string, real>, t: Token, since: real, r: Request, offset: real)
    requires Out(store, t, since, r.now, offset) && since <= r.now
    requires r.token.jti == t.jti ==> r.token == t
    ensures Out(Served(store, r, offset), t, since, r.now, offset)
  {
  }

  lemma {:induction false} OutThroughout(store: map<string, real>, t: Token, since: real, rs: seq<Request>,
                                         start: real, end: real, offset: real)
    requires Ordered(rs, start, end) && Distinct(t, rs) && since <= start <= end
    requires Out(store, t, since, start, offset)
    ensures Out(Serve(store, rs, offset), t, since, end, offset)
    decreases |rs|
  {
    if rs != [] {
      var r := rs[0];
      OutStays(store, t, since, r, offset);
      forall i | 0 <= i < |rs[1..]| ensures r.now <= rs[1..][i].now <= end {
        assert rs[1..][i] == rs[i + 1];
      }
      OutThroughout(Served(store, r, offset), t, since, rs[1..], r.now, end, offset);
    }
  }

  lemma LogoutPutsOut(store: map<string, real>, t: Token, now: real, offset: real)
    requires Alive(store, t, now, offset) && t.jti != ""
    ensures Out(Served(store, Logout(t, now), offset), t, now, now, offset)
  {
  }

  /** After a logout, at any strictly later time and whatever was served and pruned in between,
      the token is alive if and only if it has no id to revoke and has not expired. */
  lemma AliveAfterLogoutIff(store: map<string, real>, t: Token, since: real, rs: seq<Request>, now: real, offset: real)
    requires Alive(store, t, since, offset) && since < now
    requires Ordered(rs, since, now) && Distinct(t, rs)
    ensures Alive(Serve(Served(store, Logout(t, since), offset), rs, offset), t, now, offset)
       <==> t.jti == "" && now <= t.exp as real
  {
    if t.jti != "" {
      LogoutPutsOut(store, t, since, offset);
      OutThroughout(Served(store, Logout(t, since), offset), t, since, rs, since, now, offset);
    }
  }

  /** So a token with an id never authenticates again, for any account. */
  lemma LoggedOutNeverAuthenticates(store: map<string, real>, t: Token, since: real, rs: seq<Request>, now: real,
                                    offset: real, account: Option<Account>, ver: int)
    requires Alive(store, t, since, offset) && since < now && t.jti != ""
    requires Ordered(rs, since, now) && Distinct(t, rs)
    ensures !Authenticates(Serve(Served(store, Logout(t, since), offset), rs, offset), t, account, ver, now, offset)
  {
    AliveAfterLogoutIff(store, t, since, rs, now, offset);
  }

  /** At the very moment of the logout it is still alive exactly when that is its last moment. */
  lemma AliveAtLogoutIff(store: map<string, real>, t: Token, now: real, offset: real)
    requires Alive(store, t, now, offset) && t.jti != ""
    ensures Alive(Served(store, Logout(t, now), offset), t, now, offset) <==> t.exp as real == now
  {
  }
}
