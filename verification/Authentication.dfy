/** An authenticated request from token text to user, and what a logout does to it. */
module Authentication {
  import opened Options
  import opened Tokens
  import opened Revocation

  function Jti(c: Claims): string { if c.jti.Some? then c.jti.value else "" }
  function Exp(c: Claims): int { if c.exp.Some? then c.exp.value else 0 }

  /** The user of a request that presents `token`: the wall clock reads `now` and the monotonic one
      `now + offset`. */
  function CurrentUser(lib: Library, secret: string, store: map<string, real>, accounts: map<string, Account>,
                       token: string, now: real, offset: real): Option<string>
  {
    var verdict := DecodeAccessToken(lib, secret, token, now);
    if !verdict.Accepted? || Revoked(store, Jti(verdict.claims), now + offset) then None
    else if verdict.claims.sub.value !in accounts || !accounts[verdict.claims.sub.value].active then None
    else if (if verdict.claims.ver.Some? then verdict.claims.ver.value else 0)
              != accounts[verdict.claims.sub.value].version then None
    else Some(verdict.claims.sub.value)
  }

  /** Looking a token's id up forgets its entry if that has lapsed. */
  function Checked(lib: Library, secret: string, store: map<string, real>, token: string, now: real, offset: real)
    : map<string, real>
  {
    var verdict := DecodeAccessToken(lib, secret, token, now);
    if verdict.Accepted? then AfterCheck(store, Jti(verdict.claims), now + offset) else store
  }

  /** The store after a logout that presents `token`: its id is revoked if its user may make the
      request. */
  function AfterLogout(lib: Library, secret: string, store: map<string, real>, accounts: map<string, Account>,
                       token: string, now: real, offset: real): map<string, real>
  {
    var c := LogoutClaims(lib, token);
    var checked := Checked(lib, secret, store, token, now, offset);
    if CurrentUser(lib, secret, store, accounts, token, now, offset).None? || c.None? then checked
    else AfterRevoke(checked, Jti(c.value), Max(Exp(c.value) as real - now, 0.0), now + offset)
  }

  /** A minted token answers for its user exactly while it is in time, its id is not revoked, and
      the account is there, active and of the version the token was minted for. */
  lemma MintedAuthenticatesIff(lib: Library, secret: string, store: map<string, real>, accounts: map<string, Account>,
                               user: string, ttl: int, version: int, minted: int, jti: string, now: real, offset: real)
    requires JsonRoundTrips(lib) && user != ""
    ensures var token := CreateAccessToken(lib, secret, user, ttl, version, minted, jti);
      var answer := CurrentUser(lib, secret, store, accounts, token, now, offset);
      && (answer.Some? <==>
            && now <= (minted + ttl) as real
            && !(jti != "" && jti in store && now + offset <= store[jti])
            && user in accounts && accounts[user].active && accounts[user].version == version)
      && (answer.Some? ==> answer == Some(user))
  {
    DecodeOfCreate(lib, secret, user, ttl, version, minted, jti, now);
  }

  /** A password change, which raises the version, ends every token minted before it. */
  lemma NewVersionEndsTokens(lib: Library, secret: string, store: map<string, real>, accounts: map<string, Account>,
                             user: string, ttl: int, version: int, minted: int, jti: string, now: real, offset: real)
    requires JsonRoundTrips(lib) && user in accounts && accounts[user].version > version
    ensures CurrentUser(lib, secret, store, accounts,
                        CreateAccessToken(lib, secret, user, ttl, version, minted, jti), now, offset).None?
  {
    DecodeOfCreate(lib, secret, user, ttl, version, minted, jti, now);
  }

  /** The logout of a minted token revokes its own id for the time it has left. */
  lemma LogoutServes(lib: Library, secret: string, store: map<string, real>, accounts: map<string, Account>,
                     user: string, ttl: int, version: int, minted: int, jti: string, now: real, offset: real)
    requires JsonRoundTrips(lib) && user != ""
    requires CurrentUser(lib, secret, store, accounts,
                         CreateAccessToken(lib, secret, user, ttl, version, minted, jti), now, offset).Some?
    ensures Alive(store, Token(jti, minted + ttl), now, offset)
    ensures AfterLogout(lib, secret, store, accounts,
                        CreateAccessToken(lib, secret, user, ttl, version, minted, jti), now, offset)
         == Served(store, Logout(Token(jti, minted + ttl), now), offset)
  {
    DecodeOfCreate(lib, secret, user, ttl, version, minted, jti, now);
    LogoutReadsMinted(lib, secret, user, ttl, version, minted, jti);
  }

  /** From text to text: once a user has logged out with a minted token that has an id, no request
      with it is answered at any strictly later time, whatever was served, pruned or changed in the
      accounts since. */
  lemma LoggedOutIsRefused(lib: Library, secret: string, store: map<string, real>, accounts: map<string, Account>,
                           user: string, ttl: int, version: int, minted: int, jti: string, since: real,
                           rs: seq<Request>, now: real, offset: real, later: map<string, Account>)
    requires JsonRoundTrips(lib) && user != "" && jti != "" && since < now
    requires CurrentUser(lib, secret, store, accounts,
                         CreateAccessToken(lib, secret, user, ttl, version, minted, jti), since, offset).Some?
    requires Ordered(rs, since, now) && Distinct(Token(jti, minted + ttl), rs)
    ensures var token := CreateAccessToken(lib, secret, user, ttl, version, minted, jti);
      var out := AfterLogout(lib, secret, store, accounts, token, since, offset);
      CurrentUser(lib, secret, Serve(out, rs, offset), later, token, now, offset).None?
  {
    LogoutServes(lib, secret, store, accounts, user, ttl, version, minted, jti, since, offset);
    AliveAfterLogoutIff(store, Token(jti, minted + ttl), since, rs, now, offset);
    DecodeOfCreate(lib, secret, user, ttl, version, minted, jti, now);
  }
}
