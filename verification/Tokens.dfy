/**
 Token issue and verification (internal/auth/token.go, internal/middleware/auth.go).

 Times are nanoseconds on one clock. A signed token is the term Signed(alg, secret,
 claims): signatures are abstract, and knowing the secret is the only way to build one.
 An id is a number, with 0 for uuid.Nil; a claim that should hold an id but does not
 parse as one is None.
 */
module Tokens {
  import opened Wrappers
  import opened Text

  type Id = nat
  const NIL: Id := 0

  const SECOND := 1_000_000_000
  const ISSUER := "flowcast"
  const AUDIENCE := "flowcast-api"
  const SIGNING_METHOD := "HS256"
  const MIN_SECRET_LENGTH := 32

  datatype Kind = Access | Refresh

  datatype Claims = Claims(subject: Option<Id>, issuer: string, audience: seq<string>, id: Option<Id>,
                           notBefore: Option<nat>, expiresAt: Option<nat>, team: Id, kind: Kind)

  datatype Raw = Signed(alg: string, secret: string, claims: Claims) | Malformed

  datatype TokenError = Invalid | Expired | WrongKind

  datatype Tokens = Tokens(secret: string, accessTTL: int, refreshTTL: int)

  datatype Pair = Pair(access: Raw, refresh: Raw, accessExpiresAt: int, refreshExpiresAt: int, refreshId: Id)

  predicate Usable(t: Tokens) {
    |t.secret| >= MIN_SECRET_LENGTH && 0 < t.accessTTL < t.refreshTTL
  }

  function NewTokens(secret: string, accessTTL: int, refreshTTL: int): (r: Option<Tokens>)
    ensures r.Some? <==> |secret| >= 32 && 0 < accessTTL < refreshTTL
    ensures r.Some? ==> Usable(r.value)
    ensures r.Some? ==> r.value == Tokens(secret, accessTTL, refreshTTL)
  {
    if |secret| < MIN_SECRET_LENGTH then None
    else if accessTTL <= 0 || refreshTTL <= 0 then None
    else if accessTTL >= refreshTTL then None
    else Some(Tokens(secret, accessTTL, refreshTTL))
  }

  // jwt.NewNumericDate keeps whole seconds.
  function NumericDate(t: nat): (r: nat)
    ensures r <= t < r + 1_000_000_000 && r % 1_000_000_000 == 0
  {
    t - t % SECOND
  }

  function NewClaims(user: Id, team: Id, kind: Kind, jti: Id, issuedAt: nat, expiry: nat): Claims {
    Claims(Some(user), ISSUER, [AUDIENCE], Some(jti),
           Some(NumericDate(issuedAt)), Some(NumericDate(expiry)), team, kind)
  }

  function IssuePair(t: Tokens, user: Id, team: Id, now: nat, accessId: Id, refreshId: Id): Option<Pair>
    requires Usable(t)
  {
    if user == NIL || team == NIL then None else
    var accessExpiry, refreshExpiry := now + t.accessTTL, now + t.refreshTTL;
    Some(Pair(Signed(SIGNING_METHOD, t.secret, NewClaims(user, team, Access, accessId, now, accessExpiry)),
              Signed(SIGNING_METHOD, t.secret, NewClaims(user, team, Refresh, refreshId, now, refreshExpiry)),
              accessExpiry, refreshExpiry, refreshId))
  }

  // The library reports every failed claim at once; an expired one decides the error.
  function Parse(t: Tokens, raw: Raw, want: Kind, now: nat): Result<Claims, TokenError> {
    if raw.Malformed? || raw.alg != SIGNING_METHOD || raw.secret != t.secret then Err(Invalid) else
    var c := raw.claims;
    if c.expiresAt.Some? && c.expiresAt.value <= now then Err(Expired)
    else if c.expiresAt.None? || (c.notBefore.Some? && now < c.notBefore.value)
         || c.issuer != ISSUER || AUDIENCE !in c.audience then Err(Invalid)
    else if c.kind != want then Err(WrongKind)
    else if c.team == NIL || c.subject.None? then Err(Invalid)
    else Ok(c)
  }

  function Lifetime(t: Tokens, kind: Kind): int {
    if kind.Access? then t.accessTTL else t.refreshTTL
  }

  function TokenOf(p: Pair, kind: Kind): Raw {
    if kind.Access? then p.access else p.refresh
  }

  /** Ids are required, and the pair says when its tokens end: at the ends of the two lives, to the nanosecond. */
  lemma PairSaysItsEnds(t: Tokens, user: Id, team: Id, issued: nat, a: Id, r: Id)
    requires Usable(t)
    ensures IssuePair(t, user, team, issued, a, r).None? <==> user == 0 || team == 0
    ensures IssuePair(t, user, team, issued, a, r).Some? ==>
      var p := IssuePair(t, user, team, issued, a, r).value;
      && p.accessExpiresAt - issued == t.accessTTL && p.refreshExpiresAt - issued == t.refreshTTL
      && p.refreshId == r && p.refresh.Signed? && p.refresh.claims.id == Some(r)
      && p.refresh.claims.expiresAt == Some(NumericDate(p.refreshExpiresAt))
      && p.access.Signed? && p.access.claims.id == Some(a)
      && p.access.claims.expiresAt == Some(NumericDate(p.accessExpiresAt))
  {
  }

  /**
   A token of a fresh pair is accepted as its own kind, from the moment of issue until the
   whole second before its lifetime ends, and never as the other; from then on it is
   reported as expired. An accepted one carries its owner back out. Before the second of
   issue it is not accepted at all.
   */
  lemma PairWindow(t: Tokens, user: Id, team: Id, issued: nat, a: Id, r: Id, kind: Kind, want: Kind, now: nat)
    requires Usable(t) && IssuePair(t, user, team, issued, a, r).Some?
    ensures var p := IssuePair(t, user, team, issued, a, r).value;
      var result := Parse(t, TokenOf(p, kind), want, now);
      && (result.Ok? <==> want == kind && NumericDate(issued) <= now < NumericDate(issued + Lifetime(t, kind)))
      && (result.Ok? ==> result.value.subject == Some(user) && result.value.team == team)
      && (result == Err(Expired) <==> NumericDate(issued + Lifetime(t, kind)) <= now)
      && (result.Ok? ==> now - issued < Lifetime(t, kind))
      && (want == kind && issued <= now && now + SECOND <= issued + Lifetime(t, kind) ==> result.Ok?)
  {
  }

  /**
   A token is accepted exactly when it was signed with this secret by the one method, for
   this system as issuer and audience, as the kind wanted, for some user of some team, and
   the time is within what it was issued for.
   */
  lemma AcceptedIsOurs(t: Tokens, raw: Raw, want: Kind, now: nat)
    ensures Parse(t, raw, want, now).Ok? <==>
      && raw.Signed? && raw.secret == t.secret && raw.alg == "HS256"
      && raw.claims.issuer == "flowcast" && "flowcast-api" in raw.claims.audience && raw.claims.kind == want
      && raw.claims.subject.Some? && raw.claims.team != NIL
      && (raw.claims.notBefore.Some? ==> raw.claims.notBefore.value <= now)
      && raw.claims.expiresAt.Some? && now < raw.claims.expiresAt.value
    ensures Parse(t, raw, want, now).Ok? ==> Parse(t, raw, want, now).value == raw.claims
  {
  }

  // ----- The bearer header ----------------------------------------------------------

  const BEARER_PREFIX := "bearer "

  predicate HasBearerPrefix(header: string) {
    |header| >= |BEARER_PREFIX|
    && ToLower(header[..|BEARER_PREFIX|]) == BEARER_PREFIX
  }

  function BearerToken(header: string): Option<string> {
    if !HasBearerPrefix(header) then None else
    var token := TrimSpace(header[|BEARER_PREFIX|..]);
    if token == "" then None else Some(token)
  }

  /** Without the scheme, or with only white space after it, there is no token. */
  lemma NoBearerToken(header: string)
    ensures BearerToken(header).None? <==>
      |header| < 7 || ToLower(header[..7]) != "bearer " || AllSpace(header[7..])
  {
    if |header| >= 7 {
      var rest := header[7..];
      TrimmedAway(rest);
    }
  }

  /** The scheme is found in any case, and the token without the space around it. */
  lemma BearerTokenFound(scheme: string, before: string, token: string, after: string)
    requires ToLower(scheme) == BEARER_PREFIX
    requires AllSpace(before) && AllSpace(after) && TrimSpace(token) == token
    ensures BearerToken(scheme + (before + token + after)) == if token == "" then None else Some(token)
  {
    var rest := before + token + after;
    assert |scheme| == |ToLower(scheme)|;
    assert (scheme + rest)[..|scheme|] == scheme && (scheme + rest)[|scheme|..] == rest;
    TrimPadded(before, token, after);
  }

  datatype Identity = Identity(user: Id, team: Id)

  datatype AuthError = Unauthorized | TokenExpired

  function Authenticate(t: Tokens, header: string, decode: string -> Raw, now: nat): Result<Identity, AuthError> {
    var raw := BearerToken(header);
    if raw.None? then Err(Unauthorized) else
    match Parse(t, decode(raw.value), Access, now)
    case Err(Expired) => Err(TokenExpired)
    case Err(_) => Err(Unauthorized)
    case Ok(c) => if c.subject.None? then Err(Unauthorized) else Ok(Identity(c.subject.value, c.team))
  }

  // The identity a request runs under is the one signed into a live access token.
  lemma IdentityIsSigned(t: Tokens, header: string, decode: string -> Raw, now: nat, who: Identity)
    ensures Authenticate(t, header, decode, now) == Ok(who) <==>
      && BearerToken(header).Some?
      && var raw := decode(BearerToken(header).value);
         Parse(t, raw, Access, now).Ok? && raw.claims.subject == Some(who.user) && raw.claims.team == who.team
  {
  }

  /**
   Which refusal a request gets. A token of ours whose time is over is told apart, so that
   the caller knows to refresh; everything else, from a missing header to a refresh token
   still good for refreshing, is simply unauthorized.
   */
  lemma RefusalsAreTold(t: Tokens, header: string, decode: string -> Raw, now: nat)
    ensures var answer, token := Authenticate(t, header, decode, now), BearerToken(header);
      && (answer == Err(TokenExpired) <==>
            && token.Some?
            && var raw := decode(token.value);
               && raw.Signed? && raw.secret == t.secret && raw.alg == "HS256"
               && raw.claims.expiresAt.Some? && raw.claims.expiresAt.value <= now)
      && (token.None? ==> answer == Err(Unauthorized))
      && (token.Some? && (decode(token.value).Malformed? || decode(token.value).secret != t.secret) ==>
            answer == Err(Unauthorized))
  {
  }

  /** A handed-out access token lets its user in until its life ends, and is told expired from then on. */
  lemma HandedOutTokenIsAnswered(t: Tokens, user: Id, team: Id, issued: nat, a: Id, r: Id,
                                 header: string, decode: string -> Raw, now: nat)
    requires Usable(t) && IssuePair(t, user, team, issued, a, r).Some? && issued <= now && BearerToken(header).Some?
    ensures var p, raw := IssuePair(t, user, team, issued, a, r).value, decode(BearerToken(header).value);
      && (raw == p.access ==>
            Authenticate(t, header, decode, now) ==
              if now < NumericDate(issued + t.accessTTL) then Ok(Identity(user, team)) else Err(TokenExpired))
      && (raw == p.refresh ==>
            Authenticate(t, header, decode, now) ==
              if now < NumericDate(issued + t.refreshTTL) then Err(Unauthorized) else Err(TokenExpired))
  {
    PairWindow(t, user, team, issued, a, r, Access, Access, now);
    PairWindow(t, user, team, issued, a, r, Refresh, Access, now);
  }
}
