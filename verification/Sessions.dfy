/**
 Refresh-token rotation and revocation: the store of internal/queue/sessions.go and the
 handlers of internal/handlers/auth.go, each request taken as one piece with the several
 clock readings it makes inside.
 */
module Sessions {
  import opened Wrappers
  import opened Tokens

  // ----- The revocation store -------------------------------------------------------

  // Revoked token id to the instant its entry disappears.
  type Entries = map<Id, nat>

  predicate Revoked(entries: Entries, id: Id, now: nat) {
    id in entries && now < entries[id]
  }

  // A SET that fails may still have reached the store.
  datatype SetReply = SetOk | SetFailed(landed: bool)

  function AfterRevoke(entries: Entries, id: Id, ttl: int, landing: nat, reply: SetReply): Entries {
    if ttl <= 0 || reply == SetFailed(false) then entries else entries[id := landing + ttl]
  }

  class SessionStore {
    var entries: Entries

    /** A positive lifetime is stored until landing + ttl; anything else needs no entry. */
    method Revoke(tokenId: Id, ttl: int, landing: nat, reply: SetReply) returns (ok: bool)
      modifies this
      ensures entries == AfterRevoke(old(entries), tokenId, ttl, landing, reply)
      ensures ok <==> ttl <= 0 || reply.SetOk?
    {
      if ttl <= 0 {
        return true;
      }
      if reply != SetFailed(false) {
        entries := entries[tokenId := landing + ttl];
      }
      return reply.SetOk?;
    }

    /** None when the store cannot be reached: never a guess. */
    method IsRevoked(tokenId: Id, now: nat, up: bool) returns (r: Option<bool>)
      ensures r == if up then Some(Revoked(entries, tokenId, now)) else None
    {
      if !up {
        return None;
      }
      return Some(tokenId in entries && now < entries[tokenId]);
    }
  }

  // ----- The handlers ---------------------------------------------------------------

  datatype CookieChange = Untouched | Cleared | SetTo(token: Raw)

  datatype Body = Body(user: Id, team: Id, access: Raw)

  datatype Response = Response(status: nat, cookie: CookieChange, body: Option<Body>)

  const STATUS_OK := 200
  const STATUS_CREATED := 201
  const STATUS_NO_CONTENT := 204
  const STATUS_UNAUTHORIZED := 401
  const STATUS_INTERNAL_ERROR := 500

  const INTERNAL_ERROR := Response(STATUS_INTERNAL_ERROR, Untouched, None)
  const REJECTED_CLEARED := Response(STATUS_UNAUTHORIZED, Cleared, None)

  // When one request reads the clock, and when its SET reaches the store.
  datatype Times = Times(parsed: nat, checked: nat, measured: nat, landed: nat, issued: nat)

  predicate Monotone(at: Times) {
    at.parsed <= at.checked <= at.measured <= at.landed <= at.issued
  }

  function Instant(now: nat): Times { Times(now, now, now, now, now) }

  // Which calls of one request succeed, and the ids it draws.
  datatype Io = Io(check: bool, find: bool, store: SetReply, accessId: Id, refreshId: Id)

  function SessionResponse(t: Tokens, status: nat, user: Id, team: Id, now: nat, io: Io): Response
    requires Usable(t)
  {
    match IssuePair(t, user, team, now, io.accessId, io.refreshId)
    case None => INTERNAL_ERROR
    case Some(p) => Response(status, SetTo(p.refresh), Some(Body(user, team, p.access)))
  }

  function RemainingLife(c: Claims, now: nat): int {
    if c.expiresAt.None? then 0 else c.expiresAt.value - now
  }

  // The token a refresh request presents, when it may be exchanged.
  predicate Exchangeable(t: Tokens, entries: Entries, users: map<Id, Id>, cookie: Option<Raw>, at: Times, io: Io) {
    && cookie.Some? && Parse(t, cookie.value, Refresh, at.parsed).Ok?
    && var c := cookie.value.claims;
       && c.id.Some? && io.check && !Revoked(entries, c.id.value, at.checked)
       && io.find && c.subject.value in users
  }

  // The reply and the store after Refresh.
  function RefreshResult(t: Tokens, entries: Entries, users: map<Id, Id>, cookie: Option<Raw>, at: Times, io: Io)
    : (Response, Entries)
    requires Usable(t)
  {
    if Exchangeable(t, entries, users, cookie, at, io) then
      var c := cookie.value.claims;
      var ttl := RemainingLife(c, at.measured);
      var after := AfterRevoke(entries, c.id.value, ttl, at.landed, io.store);
      if ttl > 0 && !io.store.SetOk? then (INTERNAL_ERROR, after)
      else (SessionResponse(t, STATUS_OK, c.subject.value, users[c.subject.value], at.issued, io), after)
    else if cookie.None? then
      (Response(STATUS_UNAUTHORIZED, Untouched, None), entries)
    else if Parse(t, cookie.value, Refresh, at.parsed).Err? || cookie.value.claims.id.None? then
      (REJECTED_CLEARED, entries)
    else if !io.check || (!Revoked(entries, cookie.value.claims.id.value, at.checked) && !io.find) then
      (INTERNAL_ERROR, entries)
    else
      (REJECTED_CLEARED, entries)
  }

  function LogoutResult(t: Tokens, entries: Entries, cookie: Option<Raw>, at: Times, io: Io): (Response, Entries) {
    if cookie.Some? && Parse(t, cookie.value, Refresh, at.parsed).Ok? && cookie.value.claims.id.Some? then
      var c := cookie.value.claims;
      var ttl := RemainingLife(c, at.measured);
      var status := if ttl > 0 && !io.store.SetOk? then STATUS_INTERNAL_ERROR else STATUS_NO_CONTENT;
      (Response(status, Cleared, None), AfterRevoke(entries, c.id.value, ttl, at.landed, io.store))
    else
      (Response(STATUS_NO_CONTENT, Cleared, None), entries)
  }

  // The response hands out a new pair of this user and team: a refresh token in the cookie,
  // an access token in the body.
  ghost predicate CarriesSession(resp: Response, t: Tokens, user: Id, team: Id, now: nat, io: Io)
    requires Usable(t)
  {
    && resp.cookie.SetTo? && resp.cookie.token.Signed? && resp.body.Some? && resp.body.value.access.Signed?
    && resp.body.value.user == user && resp.body.value.team == team
    && var forCookie, forBody := resp.cookie.token.claims, resp.body.value.access.claims;
       && forCookie.subject == Some(user) && forCookie.team == team && forCookie.kind == Kind.Refresh
       && forBody.subject == Some(user) && forBody.team == team && forBody.kind == Kind.Access
       && forCookie.id == Some(io.refreshId) && forBody.id == Some(io.accessId)
       && (forall later | now <= later ::
             && (Parse(t, resp.cookie.token, Kind.Refresh, later).Ok? <==> later < NumericDate(now + t.refreshTTL))
             && (Parse(t, resp.body.value.access, Kind.Access, later).Ok? <==> later < NumericDate(now + t.accessTTL)))
  }

  /**
   A session is granted unless an id is missing. It carries a refresh and an access token
   of this user and team, each accepted up to the whole second before its life ends.
   */
  lemma SessionIsUsable(t: Tokens, status: nat, user: Id, team: Id, now: nat, io: Io)
    requires Usable(t)
    ensures var resp := SessionResponse(t, status, user, team, now, io);
      if user == NIL || team == NIL then resp == Response(500, Untouched, None)
      else resp.status == status && CarriesSession(resp, t, user, team, now, io)
  {
    if user == NIL || team == NIL {
      return;
    }
    forall later | now <= later
      ensures var resp := SessionResponse(t, status, user, team, now, io);
        && (Parse(t, resp.cookie.token, Kind.Refresh, later).Ok? <==> later < NumericDate(now + t.refreshTTL))
        && (Parse(t, resp.body.value.access, Kind.Access, later).Ok? <==> later < NumericDate(now + t.accessTTL))
    {
      PairWindow(t, user, team, now, io.accessId, io.refreshId, Kind.Refresh, Kind.Refresh, later);
      PairWindow(t, user, team, now, io.accessId, io.refreshId, Kind.Access, Kind.Access, later);
    }
  }

  /** A refresh that succeeds is for the user the presented token names, in that user's team. */
  lemma RefreshIsForTheSubject(t: Tokens, entries: Entries, users: map<Id, Id>, cookie: Option<Raw>, at: Times, io: Io)
    requires Usable(t)
    ensures var resp := RefreshResult(t, entries, users, cookie, at, io).0;
      && (resp.status == 200 ==>
            && cookie.Some? && cookie.value.Signed? && cookie.value.claims.subject.Some?
            && var user := cookie.value.claims.subject.value;
               user in users && CarriesSession(resp, t, user, users[user], at.issued, io))
      && (resp.status != 200 ==> resp.body.None? && !resp.cookie.SetTo?)
  {
    if Exchangeable(t, entries, users, cookie, at, io) {
      AcceptedIsOurs(t, cookie.value, Kind.Refresh, at.parsed);
      var user := cookie.value.claims.subject.value;
      if SessionResponse(t, STATUS_OK, user, users[user], at.issued, io).status == 200 {
        SessionIsUsable(t, STATUS_OK, user, users[user], at.issued, io);
      }
    }
  }

  /**
   Which refusal a refresh gets: no cookie, a token that does not verify, a check or a
   lookup that fails, a token revoked or a user gone, and a revocation that fails.
   */
  lemma RefreshRefusals(t: Tokens, entries: Entries, users: map<Id, Id>, cookie: Option<Raw>, at: Times, io: Io)
    requires Usable(t)
    ensures var resp := RefreshResult(t, entries, users, cookie, at, io).0;
      && (cookie.None? ==> resp == Response(401, Untouched, None))
      && (cookie.Some? && Parse(t, cookie.value, Kind.Refresh, at.parsed).Err? ==> resp == Response(401, Cleared, None))
      && (cookie.Some? && Parse(t, cookie.value, Kind.Refresh, at.parsed).Ok? && cookie.value.claims.id.Some? ==>
            var revoked := Revoked(entries, cookie.value.claims.id.value, at.checked);
            var user := cookie.value.claims.subject.value;
            && (!io.check || (!revoked && !io.find) ==> resp == Response(500, Untouched, None))
            && (io.check && (revoked || (io.find && user !in users)) ==> resp == Response(401, Cleared, None))
            && (io.check && !revoked && io.find && user in users
                  && !io.store.SetOk? && at.measured < cookie.value.claims.expiresAt.value ==>
                  resp == Response(500, Untouched, None)))
  {
    if cookie.Some? && Parse(t, cookie.value, Kind.Refresh, at.parsed).Ok? {
      AcceptedIsOurs(t, cookie.value, Kind.Refresh, at.parsed);
    }
  }

  class AuthHandler {
    const tokens: Tokens
    const sessions: SessionStore
    var users: map<Id, Id>  // user to team

    constructor (tokens: Tokens, sessions: SessionStore)
      ensures this.tokens == tokens && this.sessions == sessions && users == map[]
    {
      this.tokens, this.sessions, users := tokens, sessions, map[];
    }

    method RespondWithSession(status: nat, user: Id, team: Id, now: nat, io: Io) returns (resp: Response)
      requires Usable(tokens)
      ensures resp == SessionResponse(tokens, status, user, team, now, io)
    {
      var pair := IssuePair(tokens, user, team, now, io.accessId, io.refreshId);
      if pair.None? {
        return INTERNAL_ERROR;
      }
      return Response(status, SetTo(pair.value.refresh), Some(Body(user, team, pair.value.access)));
    }

    method Refresh(cookie: Option<Raw>, at: Times, io: Io) returns (resp: Response)
      requires Usable(tokens) && Monotone(at)
      modifies sessions
      ensures (resp, sessions.entries) == RefreshResult(tokens, old(sessions.entries), users, cookie, at, io)
      ensures resp.status == 200 ==>
        && cookie.Some? && cookie.value.Signed? && cookie.value.claims.subject.Some?
        && var user := cookie.value.claims.subject.value;
           user in users && CarriesSession(resp, tokens, user, users[user], at.issued, io)
      ensures resp.status != 200 ==> resp.body.None? && !resp.cookie.SetTo?
    {
      RefreshIsForTheSubject(tokens, sessions.entries, users, cookie, at, io);
      if cookie.None? {
        return Response(STATUS_UNAUTHORIZED, Untouched, None);
      }
      var parsed := Parse(tokens, cookie.value, Kind.Refresh, at.parsed);
      if parsed.Err? {
        return REJECTED_CLEARED;
      }
      var claims := parsed.value;
      if claims.id.None? {
        return REJECTED_CLEARED;
      }
      var revoked := sessions.IsRevoked(claims.id.value, at.checked, io.check);
      if revoked.None? {
        return INTERNAL_ERROR;
      }
      if revoked.value {
        return REJECTED_CLEARED;
      }
      if !io.find {
        return INTERNAL_ERROR;
      }
      if claims.subject.value !in users {
        return REJECTED_CLEARED;
      }
      var ok := sessions.Revoke(claims.id.value, RemainingLife(claims, at.measured), at.landed, io.store);
      if !ok {
        return INTERNAL_ERROR;
      }
      resp := RespondWithSession(STATUS_OK, claims.subject.value, users[claims.subject.value], at.issued, io);
    }

    method Logout(cookie: Option<Raw>, at: Times, io: Io) returns (resp: Response)
      requires Usable(tokens) && Monotone(at)
      modifies sessions
      ensures (resp, sessions.entries) == LogoutResult(tokens, old(sessions.entries), cookie, at, io)
      ensures resp.cookie == Cleared && resp.body.None? && (resp.status == 204 || resp.status == 500)
      ensures resp.status == 500 ==> !io.store.SetOk?
    {
      resp := Response(STATUS_NO_CONTENT, Cleared, None);
      if cookie.None? {
        return;
      }
      var parsed := Parse(tokens, cookie.value, Kind.Refresh, at.parsed);
      if parsed.Err? {
        return;
      }
      if parsed.value.id.Some? {
        var ok := sessions.Revoke(parsed.value.id.value, RemainingLife(parsed.value, at.measured), at.landed, io.store);
        if !ok {
          resp := resp.(status := STATUS_INTERNAL_ERROR);
        }
      }
    }
  }

  // ----- What the store remembers ---------------------------------------------------

  datatype Revocation = Revocation(id: Id, ttl: int, landing: nat, reply: SetReply)

  function EntriesAfter(history: seq<Revocation>): Entries {
    if history == [] then map[] else
    var r := history[|history| - 1];
    AfterRevoke(EntriesAfter(history[..|history| - 1]), r.id, r.ttl, r.landing, r.reply)
  }

  // The revocation left an entry.
  predicate Stored(r: Revocation) { r.ttl > 0 && r.reply != SetFailed(false) }

  // Of the calls, the one at k is the last that left an entry for its id.
  ghost predicate LastFor(history: seq<Revocation>, k: nat, id: Id) {
    && k < |history| && Stored(history[k]) && history[k].id == id
    && forall j | k < j < |history| && history[j].id == id :: !Stored(history[j])
  }

  lemma {:induction false} EntryIsLast(history: seq<Revocation>, id: Id) returns (k: nat)
    ensures id in EntriesAfter(history) ==>
      LastFor(history, k, id) && EntriesAfter(history)[id] == history[k].landing + history[k].ttl
    ensures id !in EntriesAfter(history) ==> forall j | 0 <= j < |history| && history[j].id == id :: !Stored(history[j])
  {
    k := 0;
    if history != [] {
      var n := |history| - 1;
      if history[n].id == id && Stored(history[n]) {
        k := n;
      } else {
        k := EntryIsLast(history[..n], id);
      }
    }
  }

  /**
   After any calls of Revoke, IsRevoked answers that an id is revoked exactly when the last
   call that left an entry for it did so less than its lifetime ago.
   */
  lemma {:induction false} RevokedIsLastEntry(history: seq<Revocation>, id: Id, now: nat)
    ensures Revoked(EntriesAfter(history), id, now) <==>
      exists k: nat :: LastFor(history, k, id) && now < history[k].landing + history[k].ttl
  {
    var last := EntryIsLast(history, id);
    forall k: nat | LastFor(history, k, id) ensures id in EntriesAfter(history) && k == last {
    }
  }

  // ----- What a revocation achieves -------------------------------------------------

  // Refused at now and ever after: expired, or revoked until it is.
  predicate Dead(entries: Entries, c: Claims, now: nat) {
    c.id.Some? && c.expiresAt.Some? && (c.expiresAt.value <= now
      || (c.id.value in entries && c.expiresAt.value <= entries[c.id.value]))
  }

  /** A successful revocation kills the token, whatever was stored for it before. */
  lemma RevocationKills(entries: Entries, c: Claims, measured: nat, landed: nat, reply: SetReply)
    requires c.id.Some? && c.expiresAt.Some? && measured <= landed
    requires RemainingLife(c, measured) <= 0 || reply != SetFailed(false)
    ensures Dead(AfterRevoke(entries, c.id.value, RemainingLife(c, measured), landed, reply), c, landed)
  {
  }

  /** Later revocations, of this token or another, and the passing of time keep it dead. */
  lemma DeadStaysDead(entries: Entries, c: Claims, now: nat, other: Claims, measured: nat, landed: nat, reply: SetReply)
    requires Dead(entries, c, now) && other.id.Some? && measured <= landed
    requires other.id == c.id ==> other.expiresAt == c.expiresAt
    ensures forall later | now <= later ::
      Dead(AfterRevoke(entries, other.id.value, RemainingLife(other, measured), landed, reply), c, later)
  {
  }

  /**
   When a dead token is exchanged all the same: exactly when its entry has gone by the
   time of the check, which takes a request that was verified before the token expired
   and looked the revocation up at or after its expiry.
   */
  lemma DeadTokenExchangedIff(t: Tokens, entries: Entries, users: map<Id, Id>, raw: Raw, at: Times, io: Io)
    requires Usable(t) && Monotone(at) && Parse(t, raw, Refresh, at.parsed).Ok? && Dead(entries, raw.claims, at.parsed)
    requires io.check && io.find && raw.claims.subject.value in users
    ensures Exchangeable(t, entries, users, Some(raw), at, io) <==> entries[raw.claims.id.value] <= at.checked
    ensures Exchangeable(t, entries, users, Some(raw), at, io) ==>
      at.parsed < raw.claims.expiresAt.value <= at.checked
  {
    AcceptedIsOurs(t, raw, Refresh, at.parsed);
  }

  // A token revoked at second 1, verified just before it expires at second 10 and looked
  // up at that second, is exchanged for a new pair.
  lemma StraddlingRefreshSucceeds(t: Tokens)
    requires Usable(t)
    ensures var c := NewClaims(7, 8, Refresh, 9, SECOND, 10 * SECOND);
      var raw := Signed(SIGNING_METHOD, t.secret, c);
      var entries := AfterRevoke(map[], 9, RemainingLife(c, SECOND), SECOND, SetOk);
      var at := Times(10 * SECOND - 1, 10 * SECOND, 10 * SECOND, 10 * SECOND, 10 * SECOND);
      && Dead(entries, c, SECOND)
      && RefreshResult(t, entries, map[7 := 8], Some(raw), at, Io(true, true, SetOk, 1, 2)).0.status == STATUS_OK
  {
    assert NumericDate(10 * SECOND) == 10 * SECOND;
  }

  /** At a single instant a dead token is always refused. */
  lemma DeadTokenRefused(t: Tokens, entries: Entries, users: map<Id, Id>, raw: Raw, now: nat, since: nat, io: Io)
    requires Usable(t) && raw.Signed? && Dead(entries, raw.claims, since) && since <= now
    ensures !Exchangeable(t, entries, users, Some(raw), Instant(now), io)
    ensures RefreshResult(t, entries, users, Some(raw), Instant(now), io).0.status != STATUS_OK
    ensures RefreshResult(t, entries, users, Some(raw), Instant(now), io).1 == entries
  {
  }
}
