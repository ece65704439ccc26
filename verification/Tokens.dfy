/** The compact signed token: three base64url parts joined by dots (RFC 7515, section 7.1). */
module Tokens {
  import opened Options
  import opened Base64

  /** The fields of a token body; a body may lack any of them. */
  datatype Claims =
    Claims(sub: Option<string>, iat: Option<int>, exp: Option<int>, jti: Option<string>, ver: Option<int>)

  /** What the token code takes from its libraries: JSON text in both directions, the keyed hash,
      and the text of the fixed header. */
  datatype Library = Library(
    toJson: Claims -> seq<Byte>, fromJson: seq<int> -> Option<Claims>,
    hash: (string, string) -> seq<Byte>, header: seq<Byte>)

  ghost predicate JsonRoundTrips(lib: Library) {
    forall c: Claims :: lib.fromJson(lib.toJson(c)) == Some(c)
  }

  datatype Verdict = Accepted(claims: Claims) | Malformed | BadSignature | Expired | NoSubject

  // ---- splitting at the dots ------------------------------------------------------------------

  function IndexOfDot(s: string): (i: nat)
    ensures i <= |s| && (i < |s| ==> s[i] == '.') && forall j :: 0 <= j < i ==> s[j] != '.'
  {
    if s == "" || s[0] == '.' then 0 else IndexOfDot(s[1..]) + 1
  }

  /** `s.split(".")`. */
  function Split(s: string): seq<string>
    decreases |s|
  {
    var i := IndexOfDot(s);
    if i == |s| then [s] else [s[..i]] + Split(s[i + 1..])
  }

  predicate NoDot(s: string) { forall i :: 0 <= i < |s| ==> s[i] != '.' }

  lemma SplitAtDot(a: string, rest: string)
    requires NoDot(a)
    ensures Split(a + "." + rest) == [a] + Split(rest)
  {
    var s := a + "." + rest;
    var i := IndexOfDot(s);
    assert s[|a|] == '.' && forall j :: 0 <= j < |a| ==> s[j] == a[j];
    assert i == |a| && s[..i] == a && s[i + 1..] == rest;
  }

  lemma SplitNoDot(a: string)
    requires NoDot(a)
    ensures Split(a) == [a]
  {
    var i := IndexOfDot(a);
  }

  lemma TwoParts(b: string, c: string)
    requires NoDot(b) && NoDot(c)
    ensures Split(b + "." + c) == [b, c]
  {
    SplitAtDot(b, c);
    SplitNoDot(c);
  }

  lemma DotsAssociate(a: string, b: string, c: string)
    ensures a + "." + b + "." + c == a + "." + (b + "." + c)
  {
  }

  lemma ThreeParts(a: string, b: string, c: string)
    requires NoDot(a) && NoDot(b) && NoDot(c)
    ensures Split(a + "." + b + "." + c) == [a, b, c]
  {
    hide *;
    DotsAssociate(a, b, c);
    TwoParts(b, c);
    SplitAtDot(a, b + "." + c);
  }

  /** Joining the parts gives the text back. */
  function Join(parts: seq<string>): string {
    if parts == [] then "" else if |parts| == 1 then parts[0] else parts[0] + "." + Join(parts[1..])
  }

  lemma {:induction false} JoinOfSplit(s: string)
    ensures Join(Split(s)) == s && Split(s) != []
    decreases |s|
  {
    var i := IndexOfDot(s);
    if i < |s| {
      JoinOfSplit(s[i + 1..]);
      assert Split(s)[1..] == Split(s[i + 1..]);
      assert s == s[..i] + "." + s[i + 1..];
    }
  }

  // ---- minting and reading --------------------------------------------------------------------

  function Sign(lib: Library, text: string, secret: string): string {
    B64(lib.hash(text, secret))
  }

  function Minted(user: string, ttl: int, version: int, now: int, jti: string): Claims {
    Claims(Some(user), Some(now), Some(now + ttl), Some(jti), Some(version))
  }

  function SigningInput(lib: Library, c: Claims): string {
    B64(lib.header) + "." + B64(lib.toJson(c))
  }

  function CreateAccessToken(lib: Library, secret: string, user: string, ttl: int, version: int, now: int,
                             jti: string): string
  {
    var text := SigningInput(lib, Minted(user, ttl, version, now, jti));
    text + "." + Sign(lib, text, secret)
  }

  function DecodeAccessToken(lib: Library, secret: string, token: string, now: real): Verdict {
    var parts := Split(token);
    if |parts| != 3 then Malformed
    else if parts[2] != Sign(lib, parts[0] + "." + parts[1], secret) then BadSignature
    else
      var body := Unb64(parts[1]);
      if body.None? || lib.fromJson(body.value).None? then Malformed
      else
        var c := lib.fromJson(body.value).value;
        if (if c.exp.Some? then c.exp.value else 0) as real < now then Expired
        else if c.sub.None? || c.sub.value == "" then NoSubject
        else Accepted(c)
  }

  lemma B64HasNoDot(bytes: seq<Byte>)
    ensures NoDot(B64(bytes))
  {
    B64IsUnpadded(bytes);
  }

  lemma TokenParts(lib: Library, secret: string, user: string, ttl: int, version: int, now: int, jti: string)
    ensures var c := Minted(user, ttl, version, now, jti);
      Split(CreateAccessToken(lib, secret, user, ttl, version, now, jti))
        == [B64(lib.header), B64(lib.toJson(c)), Sign(lib, SigningInput(lib, c), secret)]
  {
    var c := Minted(user, ttl, version, now, jti);
    B64HasNoDot(lib.header);
    B64HasNoDot(lib.toJson(c));
    B64HasNoDot(lib.hash(SigningInput(lib, c), secret));
    ThreeParts(B64(lib.header), B64(lib.toJson(c)), Sign(lib, SigningInput(lib, c), secret));
  }

  /** The round trip: reading a minted token with its secret gives back exactly its claims until
      it expires, for every user, time to live, version and byte length; an empty user id is the
      one thing it refuses before then. */
  lemma DecodeOfCreate(lib: Library, secret: string, user: string, ttl: int, version: int, minted: int, jti: string,
                       now: real)
    requires JsonRoundTrips(lib)
    ensures DecodeAccessToken(lib, secret, CreateAccessToken(lib, secret, user, ttl, version, minted, jti), now)
         == if (minted + ttl) as real < now then Expired
            else if user == "" then NoSubject
            else Accepted(Minted(user, ttl, version, minted, jti))
  {
    TokenParts(lib, secret, user, ttl, version, minted, jti);
    Unb64OfB64(lib.toJson(Minted(user, ttl, version, minted, jti)));
  }

  /** The same field by field. */
  lemma ClaimsComeBack(lib: Library, secret: string, user: string, ttl: int, version: int, minted: int, jti: string,
                       now: real)
    requires JsonRoundTrips(lib) && user != "" && now <= (minted + ttl) as real
    ensures var verdict := DecodeAccessToken(lib, secret,
                             CreateAccessToken(lib, secret, user, ttl, version, minted, jti), now);
      && verdict.Accepted?
      && verdict.claims.sub == Some(user) && verdict.claims.iat == Some(minted)
      && verdict.claims.exp == Some(minted + ttl) && verdict.claims.jti == Some(jti)
      && verdict.claims.ver == Some(version)
  {
    DecodeOfCreate(lib, secret, user, ttl, version, minted, jti, now);
  }

  lemma B64Injective(a: seq<Byte>, b: seq<Byte>)
    requires B64(a) == B64(b)
    ensures a == b
  {
    Unb64OfB64(a);
    Unb64OfB64(b);
  }

  /** A token minted under another secret is refused, whatever its claims and the time, unless the
      hash of its first two parts is the same under both secrets. */
  lemma OtherSecretRefused(lib: Library, secret: string, other: string, user: string, ttl: int, version: int,
                           minted: int, jti: string, now: real)
    ensures var body := Claims(Some(user), Some(minted), Some(minted + ttl), Some(jti), Some(version));
      var text := B64(lib.header) + "." + B64(lib.toJson(body));
      lib.hash(text, other) != lib.hash(text, secret) ==>
        DecodeAccessToken(lib, secret, CreateAccessToken(lib, other, user, ttl, version, minted, jti), now)
          == BadSignature
  {
    var text := SigningInput(lib, Minted(user, ttl, version, minted, jti));
    TokenParts(lib, other, user, ttl, version, minted, jti);
    if B64(lib.hash(text, other)) == B64(lib.hash(text, secret)) {
      B64Injective(lib.hash(text, other), lib.hash(text, secret));
    }
  }

  /** Whatever is accepted is two parts without a dot and the keyed hash of both under the secret,
      encoded; its second part decodes to the claims, which name a user and are in time. */
  lemma AcceptedIsSigned(lib: Library, secret: string, token: string, now: real)
    requires DecodeAccessToken(lib, secret, token, now).Accepted?
    ensures var c := DecodeAccessToken(lib, secret, token, now).claims;
      exists first, second :: NoDot(first) && NoDot(second) && Genuine(lib, secret, token, first, second)
                              && Carries(lib, second, c, now)
  {
    var parts := Split(token);
    JoinOfSplit(token);
    SplitHasNoDots(token);
    assert parts[1..] == [parts[1], parts[2]] && parts[1..][1..] == [parts[2]];
    assert Join([parts[2]]) == parts[2] && Join([parts[1], parts[2]]) == parts[1] + "." + parts[2];
    assert Join(parts) == parts[0] + "." + (parts[1] + "." + parts[2]);
    DotsAssociate(parts[0], parts[1], parts[2]);
    assert Genuine(lib, secret, token, parts[0], parts[1]);
  }

  /** And every such token is accepted. */
  lemma SignedIsAccepted(lib: Library, secret: string, first: string, second: string, c: Claims, now: real)
    requires NoDot(first) && NoDot(second) && Carries(lib, second, c, now)
    ensures var token := first + "." + second + "." + B64(lib.hash(first + "." + second, secret));
      DecodeAccessToken(lib, secret, token, now) == Accepted(c)
  {
    B64HasNoDot(lib.hash(first + "." + second, secret));
    ThreeParts(first, second, B64(lib.hash(first + "." + second, secret)));
  }

  /** The token is the two parts and their keyed hash. */
  predicate Genuine(lib: Library, secret: string, token: string, first: string, second: string) {
    token == first + "." + second + "." + B64(lib.hash(first + "." + second, secret))
  }

  /** The part decodes to these claims; they name a user and are in time, a missing expiry being
      long past. */
  predicate Carries(lib: Library, second: string, c: Claims, now: real) {
    && Unb64(second).Some? && lib.fromJson(Unb64(second).value) == Some(c)
    && c.sub.Some? && c.sub.value != ""
    && now <= (if c.exp.Some? then c.exp.value else 0) as real
  }

  lemma {:induction false} SplitHasNoDots(s: string)
    ensures forall i :: 0 <= i < |Split(s)| ==> NoDot(Split(s)[i])
    decreases |s|
  {
    var i := IndexOfDot(s);
    if i < |s| {
      SplitHasNoDots(s[i + 1..]);
    }
  }

  /** What logout reads from a token it has just authenticated. */
  function LogoutClaims(lib: Library, token: string): Option<Claims> {
    var parts := Split(token);
    if |parts| < 2 then None
    else
      var body := Scan(parts[1] + "==", 0, 0, 0);
      if body.None? then None else lib.fromJson(body.value)
  }

  /** Logout's fixed padding reads the claims of every minted token. */
  lemma LogoutReadsMinted(lib: Library, secret: string, user: string, ttl: int, version: int, minted: int, jti: string)
    requires JsonRoundTrips(lib)
    ensures LogoutClaims(lib, CreateAccessToken(lib, secret, user, ttl, version, minted, jti))
         == Some(Minted(user, ttl, version, minted, jti))
  {
    TokenParts(lib, secret, user, ttl, version, minted, jti);
    TwoPadsAlwaysSuffice(lib.toJson(Minted(user, ttl, version, minted, jti)));
  }
}
