/**
 Unbounded runs of sign-ins, refreshes and logouts, each request one atomic step at one
 instant, with any of its calls failing and users coming and going.

 issues is a history: every pair ever handed out, with the chain it belongs to. A sign-in
 starts a chain; a refresh extends the chain of the token it spends. Presented tokens are
 those handed out, or anything not signed with the server's secret.
 */
module SessionRuns {
  import opened Wrappers
  import opened Tokens
  import opened Sessions

  datatype Issue = Issue(chain: nat, refresh: Claims, access: Claims, at: nat)

  datatype World = World(clock: nat, entries: Entries, users: map<Id, Id>, issues: seq<Issue>)

  datatype Step =
    | Tick(to: nat)
    | PutUser(user: Id, team: Id)
    | DropUser(user: Id)
    | SignIn(user: Id, io: Io)
    | Refreshing(cookie: Option<Raw>, io: Io)
    | LoggingOut(cookie: Option<Raw>, io: Io)

  predicate FreshId(w: World, id: Id) {
    forall k | 0 <= k < |w.issues| :: w.issues[k].refresh.id != Some(id)
  }

  predicate Authentic(t: Tokens, w: World, raw: Raw) {
    raw.Signed? && raw.secret == t.secret ==>
      exists k :: 0 <= k < |w.issues| && (raw.claims == w.issues[k].refresh || raw.claims == w.issues[k].access)
  }

  predicate Enabled(t: Tokens, w: World, step: Step) {
    match step
    case Tick(to) => w.clock <= to
    case PutUser(_, _) => true
    case DropUser(_) => true
    case SignIn(user, io) => user in w.users && FreshId(w, io.refreshId)
    case Refreshing(cookie, io) => FreshId(w, io.refreshId) && (cookie.Some? ==> Authentic(t, w, cookie.value))
    case LoggingOut(cookie, _) => cookie.Some? ==> Authentic(t, w, cookie.value)
  }

  // Where the token with this id was issued; |issues| when it never was.
  function IndexOf(issues: seq<Issue>, id: Option<Id>): (k: nat)
    ensures k <= |issues|
    ensures k < |issues| ==> issues[k].refresh.id == id
    ensures forall j | 0 <= j < k :: issues[j].refresh.id != id
  {
    if issues == [] || issues[0].refresh.id == id then 0 else 1 + IndexOf(issues[1..], id)
  }

  function RefreshReply(t: Tokens, w: World, cookie: Option<Raw>, io: Io): (Response, Entries)
    requires Usable(t)
  {
    RefreshResult(t, w.entries, w.users, cookie, Instant(w.clock), io)
  }

  predicate Succeeds(t: Tokens, w: World, step: Step)
    requires Usable(t)
  {
    step.Refreshing? && RefreshReply(t, w, step.cookie, step.io).0.status == STATUS_OK
  }

  // The pair handed out, if any, joins the history.
  function Record(t: Tokens, issues: seq<Issue>, chain: nat, user: Id, team: Id, now: nat, io: Io): seq<Issue>
    requires Usable(t)
  {
    match IssuePair(t, user, team, now, io.accessId, io.refreshId)
    case None => issues
    case Some(p) => issues + [Issue(chain, p.refresh.claims, p.access.claims, now)]
  }

  function Next(t: Tokens, w: World, step: Step): World
    requires Usable(t) && Enabled(t, w, step)
  {
    match step
    case Tick(to) => w.(clock := to)
    case PutUser(user, team) => w.(users := w.users[user := team])
    case DropUser(user) => w.(users := w.users - {user})
    case SignIn(user, io) =>
      w.(issues := Record(t, w.issues, |w.issues|, user, w.users[user], w.clock, io))
    case Refreshing(cookie, io) =>
      var entries := RefreshReply(t, w, cookie, io).1;
      if Succeeds(t, w, step) && cookie.Some? && cookie.value.Signed? then
        var c := cookie.value.claims;
        var k := IndexOf(w.issues, c.id);
        var chain := if k < |w.issues| then w.issues[k].chain else |w.issues|;
        if c.subject.Some? && c.subject.value in w.users then
          w.(entries := entries,
             issues := Record(t, w.issues, chain, c.subject.value, w.users[c.subject.value], w.clock, io))
        else w.(entries := entries)
      else w.(entries := entries)
    case LoggingOut(cookie, io) =>
      w.(entries := LogoutResult(t, w.entries, cookie, Instant(w.clock), io).1)
  }

  ghost predicate ValidRun(t: Tokens, w: World, steps: seq<Step>)
    requires Usable(t)
    decreases |steps|
  {
    steps == [] || (Enabled(t, w, steps[0]) && ValidRun(t, Next(t, w, steps[0]), steps[1..]))
  }

  function Exec(t: Tokens, w: World, steps: seq<Step>): World
    requires Usable(t) && ValidRun(t, w, steps)
    decreases |steps|
  {
    if steps == [] then w else Exec(t, Next(t, w, steps[0]), steps[1..])
  }

  // ----- The invariant --------------------------------------------------------------

  predicate WellIssued(t: Tokens, x: Issue, now: nat)
    requires Usable(t)
  {
    && x.at <= now
    && x.refresh.kind == Refresh && x.access.kind == Access
    && x.refresh.id.Some?
    && x.refresh.expiresAt == Some(NumericDate(x.at + Lifetime(t, Refresh)))
    && x.access.expiresAt == Some(NumericDate(x.at + Lifetime(t, Access)))
  }

  predicate DeadIssue(w: World, x: Issue) {
    Dead(w.entries, x.refresh, w.clock)
  }

  ghost predicate Inv(t: Tokens, w: World)
    requires Usable(t)
  {
    && (forall k | 0 <= k < |w.issues| :: WellIssued(t, w.issues[k], w.clock) && w.issues[k].chain <= k)
    && (forall j, k | 0 <= j < k < |w.issues| :: w.issues[j].refresh.id != w.issues[k].refresh.id)
    && (forall id | id in w.entries :: !FreshId(w, id))
    && (forall j, k | 0 <= j < k < |w.issues| && w.issues[j].chain == w.issues[k].chain :: DeadIssue(w, w.issues[j]))
  }

  const START := World(0, map[], map[], [])

  // A refresh token that verifies is one that was handed out.
  lemma VerifiedIsIssued(t: Tokens, w: World, raw: Raw) returns (k: nat)
    requires Usable(t) && Inv(t, w) && Authentic(t, w, raw) && Parse(t, raw, Refresh, w.clock).Ok?
    ensures k < |w.issues| && raw.Signed? && raw.claims == w.issues[k].refresh && k == IndexOf(w.issues, raw.claims.id)
    ensures raw.claims.id.Some? && raw.claims.expiresAt.Some? && raw == Signed(SIGNING_METHOD, t.secret, raw.claims)
  {
    AcceptedIsOurs(t, raw, Refresh, w.clock);
    k :| 0 <= k < |w.issues| && (raw.claims == w.issues[k].refresh || raw.claims == w.issues[k].access);
    assert WellIssued(t, w.issues[k], w.clock);
    assert raw.claims == w.issues[k].refresh;
    assert IndexOf(w.issues, raw.claims.id) == k;
  }

  // A token that is exchanged is an issued one, and the store has not killed it.
  lemma SpendsAnIssue(t: Tokens, w: World, step: Step)
    requires Usable(t) && Inv(t, w) && Enabled(t, w, step) && Succeeds(t, w, step)
    ensures step.cookie.Some? && step.cookie.value.Signed?
    ensures var c := step.cookie.value.claims; var k := IndexOf(w.issues, c.id);
      && k < |w.issues| && w.issues[k].refresh == c && !DeadIssue(w, w.issues[k])
      && c.subject.Some? && c.subject.value in w.users
      && IssuePair(t, c.subject.value, w.users[c.subject.value], w.clock, step.io.accessId, step.io.refreshId).Some?
      && Dead(RefreshReply(t, w, step.cookie, step.io).1, c, w.clock)
      && RefreshReply(t, w, step.cookie, step.io).1
           == AfterRevoke(w.entries, c.id.value, RemainingLife(c, w.clock), w.clock, SetOk)
  {
    var k := VerifiedIsIssued(t, w, step.cookie.value);
    AcceptedIsOurs(t, step.cookie.value, Refresh, w.clock);
  }

  // The store after the revocation of an issued token.
  predicate RevokesIssue(w: World, entries: Entries, k: nat, reply: SetReply) {
    k < |w.issues| && w.issues[k].refresh.id.Some?
    && var c := w.issues[k].refresh;
       entries == AfterRevoke(w.entries, c.id.value, RemainingLife(c, w.clock), w.clock, reply)
  }

  lemma RefreshStore(t: Tokens, w: World, cookie: Option<Raw>, io: Io) returns (k: Option<nat>)
    requires Usable(t) && Inv(t, w) && (cookie.Some? ==> Authentic(t, w, cookie.value))
    ensures var entries := RefreshReply(t, w, cookie, io).1;
      if k.Some? then RevokesIssue(w, entries, k.value, io.store) else entries == w.entries
  {
    k := None;
    if Exchangeable(t, w.entries, w.users, cookie, Instant(w.clock), io) {
      var i := VerifiedIsIssued(t, w, cookie.value);
      k := Some(i);
    }
  }

  lemma LogoutStore(t: Tokens, w: World, cookie: Option<Raw>, io: Io) returns (k: Option<nat>)
    requires Usable(t) && Inv(t, w) && (cookie.Some? ==> Authentic(t, w, cookie.value))
    ensures var entries := LogoutResult(t, w.entries, cookie, Instant(w.clock), io).1;
      if k.Some? then RevokesIssue(w, entries, k.value, io.store) else entries == w.entries
  {
    k := None;
    if cookie.Some? && Parse(t, cookie.value, Refresh, w.clock).Ok? {
      var i := VerifiedIsIssued(t, w, cookie.value);
      k := Some(i);
    }
  }

  // The store after any step: unchanged, or after one revocation of an issued token.
  lemma StoreStep(t: Tokens, w: World, step: Step) returns (other: Option<nat>, reply: SetReply)
    requires Usable(t) && Inv(t, w) && Enabled(t, w, step)
    ensures other.None? ==> Next(t, w, step).entries == w.entries
    ensures other.Some? ==>
      Next(t, w, step).clock == w.clock && RevokesIssue(w, Next(t, w, step).entries, other.value, reply)
  {
    other, reply := None, SetOk;
    if step.Refreshing? {
      other := RefreshStore(t, w, step.cookie, step.io);
      reply := step.io.store;
    } else if step.LoggingOut? {
      other := LogoutStore(t, w, step.cookie, step.io);
      reply := step.io.store;
    }
  }

  // The issues of a chain are all dead: nothing of it can be exchanged any more.
  predicate ChainDead(w: World, chain: nat) {
    forall k | 0 <= k < |w.issues| && w.issues[k].chain == chain :: DeadIssue(w, w.issues[k])
  }

  lemma RecordShape(t: Tokens, issues: seq<Issue>, chain: nat, user: Id, team: Id, now: nat, io: Io)
    requires Usable(t)
    ensures var r := Record(t, issues, chain, user, team, now, io);
      r == issues || (|r| == |issues| + 1 && issues <= r && WellIssued(t, r[|issues|], now)
        && r[|issues|].chain == chain && r[|issues|].refresh.id == Some(io.refreshId) && r[|issues|].at == now)
  {
  }

  // Once issued tokens that die stay dead through a step.
  lemma DeathsLast(t: Tokens, w: World, step: Step)
    requires Usable(t) && Inv(t, w) && Enabled(t, w, step)
    ensures var w' := Next(t, w, step);
      forall k | 0 <= k < |w.issues| :: DeadIssue(w, w.issues[k]) ==> Dead(w'.entries, w.issues[k].refresh, w'.clock)
  {
    var other, reply := StoreStep(t, w, step);
    if other.Some? {
      var c := w.issues[other.value].refresh;
      forall k | 0 <= k < |w.issues| && DeadIssue(w, w.issues[k])
        ensures Dead(Next(t, w, step).entries, w.issues[k].refresh, w.clock)
      {
        assert c.id == w.issues[k].refresh.id ==> k == other.value;
        DeadStaysDead(w.entries, w.issues[k].refresh, w.clock, c, w.clock, w.clock, reply);
      }
    }
  }

  // The chain a new pair joins is new, or has just had its last live token spent.
  lemma JoinsDeadChain(t: Tokens, w: World, step: Step)
    requires Usable(t) && Inv(t, w) && Enabled(t, w, step)
    ensures var w' := Next(t, w, step);
      && w.issues <= w'.issues && |w'.issues| <= |w.issues| + 1 && w.clock <= w'.clock
      && (|w'.issues| > |w.issues| ==>
            var x := w'.issues[|w.issues|];
            && WellIssued(t, x, w'.clock) && x.at == w.clock && x.chain <= |w.issues|
            && (forall k | 0 <= k < |w.issues| :: w.issues[k].refresh.id != x.refresh.id)
            && forall k | 0 <= k < |w.issues| && w.issues[k].chain == x.chain ::
                 Dead(w'.entries, w.issues[k].refresh, w'.clock))
  {
    var w' := Next(t, w, step);
    DeathsLast(t, w, step);
    if Succeeds(t, w, step) {
      SpendsAnIssue(t, w, step);
      var c := step.cookie.value.claims;
      var k := IndexOf(w.issues, c.id);
      RecordShape(t, w.issues, w.issues[k].chain, c.subject.value, w.users[c.subject.value], w.clock, step.io);
      assert forall j | k < j < |w.issues| :: w.issues[j].chain != w.issues[k].chain;
    } else if step.SignIn? {
      RecordShape(t, w.issues, |w.issues|, step.user, w.users[step.user], w.clock, step.io);
    }
  }

  // Only issued tokens are ever entered in the store.
  lemma EntriesAreIssued(t: Tokens, w: World, step: Step)
    requires Usable(t) && Inv(t, w) && Enabled(t, w, step)
    ensures forall id | id in Next(t, w, step).entries :: !FreshId(w, id)
  {
    var other, reply := StoreStep(t, w, step);
    if other.Some? {
      assert !FreshId(w, w.issues[other.value].refresh.id.value);
    }
  }

  lemma InvGrows(t: Tokens, w: World, w': World)
    requires Usable(t) && Inv(t, w) && w.clock <= w'.clock
    requires w.issues <= w'.issues && |w'.issues| <= |w.issues| + 1
    requires forall k | 0 <= k < |w.issues| :: DeadIssue(w, w.issues[k]) ==> DeadIssue(w', w.issues[k])
    requires forall id | id in w'.entries :: !FreshId(w, id)
    requires |w'.issues| > |w.issues| ==>
      var x := w'.issues[|w.issues|];
      && WellIssued(t, x, w'.clock) && x.chain <= |w.issues|
      && (forall k | 0 <= k < |w.issues| :: w.issues[k].refresh.id != x.refresh.id)
      && forall k | 0 <= k < |w.issues| && w.issues[k].chain == x.chain :: DeadIssue(w', w.issues[k])
    ensures Inv(t, w')
  {
    forall k | 0 <= k < |w.issues| ensures WellIssued(t, w'.issues[k], w'.clock) && w'.issues[k].chain <= k {
      assert WellIssued(t, w.issues[k], w.clock) && w'.issues[k] == w.issues[k];
    }
    forall id | id in w'.entries ensures !FreshId(w', id) {
      var k :| 0 <= k < |w.issues| && w.issues[k].refresh.id == Some(id);
      assert w'.issues[k].refresh.id == Some(id);
    }
  }

  lemma StepInv(t: Tokens, w: World, step: Step)
    requires Usable(t) && Inv(t, w) && Enabled(t, w, step)
    ensures Inv(t, Next(t, w, step))
  {
    DeathsLast(t, w, step);
    JoinsDeadChain(t, w, step);
    EntriesAreIssued(t, w, step);
    InvGrows(t, w, Next(t, w, step));
  }

  lemma {:induction false} RunInv(t: Tokens, w: World, steps: seq<Step>)
    requires Usable(t) && Inv(t, w) && ValidRun(t, w, steps)
    ensures Inv(t, Exec(t, w, steps)) && w.clock <= Exec(t, w, steps).clock
    decreases |steps|
  {
    if steps != [] {
      StepInv(t, w, steps[0]);
      JoinsDeadChain(t, w, steps[0]);
      RunInv(t, Next(t, w, steps[0]), steps[1..]);
    }
  }

  // ----- What every run keeps -------------------------------------------------------

  // A request presenting this refresh token now would be let through by the two checks.
  predicate Live(t: Tokens, w: World, c: Claims, now: nat) {
    && Parse(t, Signed(SIGNING_METHOD, t.secret, c), Refresh, now).Ok?
    && c.id.Some? && !Revoked(w.entries, c.id.value, now)
  }

  /**
   After any run from the empty system, whatever failed on the way, only the newest
   refresh token of a chain can be live, now or later.
   */
  lemma OnlyNewestIsLive(t: Tokens, steps: seq<Step>, j: nat, k: nat, now: nat)
    requires Usable(t) && ValidRun(t, START, steps)
    requires var w := Exec(t, START, steps);
      j < k < |w.issues| && w.issues[j].chain == w.issues[k].chain && w.clock <= now
    ensures var w := Exec(t, START, steps); !Live(t, w, w.issues[j].refresh, now)
  {
    RunInv(t, START, steps);
    var w := Exec(t, START, steps);
    assert DeadIssue(w, w.issues[j]);
  }

  /**
   A successful refresh spends exactly the token presented, which was the newest of its
   chain, and adds exactly one; any other step but a sign-in adds none.
   */
  lemma RefreshRotates(t: Tokens, w: World, step: Step)
    requires Usable(t) && Inv(t, w) && Enabled(t, w, step)
    ensures var w' := Next(t, w, step);
      && (!Succeeds(t, w, step) && !step.SignIn? ==> w'.issues == w.issues)
      && (Succeeds(t, w, step) ==>
            && |w'.issues| == |w.issues| + 1 && w.issues <= w'.issues
            && step.cookie.Some? && step.cookie.value.Signed?
            && var c, x := step.cookie.value.claims, w'.issues[|w.issues|];
               && x.refresh.subject == c.subject
               && Dead(w'.entries, c, w.clock)
               && (exists k :: 0 <= k < |w.issues| && w.issues[k].refresh == c && w.issues[k].chain == x.chain
                     && Live(t, w, c, w.clock)
                     && forall j | k < j < |w.issues| :: w.issues[j].chain != x.chain)
               && (SECOND <= t.refreshTTL ==> Live(t, w', x.refresh, w.clock)))
  {
    if Succeeds(t, w, step) {
      SpendsAnIssue(t, w, step);
      var c := step.cookie.value.claims;
      var k := IndexOf(w.issues, c.id);
      AcceptedIsOurs(t, step.cookie.value, Refresh, w.clock);
      assert step.cookie.value == Signed(SIGNING_METHOD, t.secret, c);
      assert forall j | k < j < |w.issues| :: w.issues[j].chain != w.issues[k].chain;
      RecordShape(t, w.issues, w.issues[k].chain, c.subject.value, w.users[c.subject.value], w.clock, step.io);
      EntriesAreIssued(t, w, step);
      PairWindow(t, c.subject.value, w.users[c.subject.value], w.clock, step.io.accessId, step.io.refreshId,
                 Refresh, Refresh, w.clock);
    }
  }

  // The reply's two tokens are those of the issue.
  predicate HandsOut(t: Tokens, resp: Response, x: Issue) {
    && resp.cookie == SetTo(Signed(SIGNING_METHOD, t.secret, x.refresh))
    && resp.body.Some? && resp.body.value.access == Signed(SIGNING_METHOD, t.secret, x.access)
  }

  /** What a successful refresh answers is the pair that the history records, for the user of the token spent. */
  lemma RefreshHandsOutIssue(t: Tokens, w: World, step: Step)
    requires Usable(t) && Inv(t, w) && Enabled(t, w, step) && Succeeds(t, w, step)
    ensures var issues := Next(t, w, step).issues; var resp := RefreshReply(t, w, step.cookie, step.io).0;
      && |issues| == |w.issues| + 1 && HandsOut(t, resp, issues[|w.issues|])
      && issues[|w.issues|].refresh.subject == issues[|w.issues|].access.subject == step.cookie.value.claims.subject
      && resp.body.value.user in w.users && Some(resp.body.value.user) == step.cookie.value.claims.subject
      && resp.body.value.team == w.users[resp.body.value.user] == issues[|w.issues|].access.team
  {
    SpendsAnIssue(t, w, step);
    var c := step.cookie.value.claims;
    SessionIsUsable(t, STATUS_OK, c.subject.value, w.users[c.subject.value], w.clock, step.io);
  }

  /** So is what a sign-in answers, for the user who signs in. */
  lemma SignInHandsOutIssue(t: Tokens, w: World, step: Step)
    requires Usable(t) && Enabled(t, w, step) && step.SignIn?
    ensures var issues := Next(t, w, step).issues;
      var resp := SessionResponse(t, STATUS_OK, step.user, w.users[step.user], w.clock, step.io);
      if resp.status == STATUS_OK
      then |issues| == |w.issues| + 1 && HandsOut(t, resp, issues[|w.issues|])
           && resp.body.value.user == step.user && resp.body.value.team == w.users[step.user]
      else issues == w.issues
  {
    SessionIsUsable(t, STATUS_OK, step.user, w.users[step.user], w.clock, step.io);
  }

  /** Logging out with the newest token of a chain, when the store takes it, ends the chain. */
  lemma LogoutEndsChain(t: Tokens, w: World, step: Step, k: nat)
    requires Usable(t) && Inv(t, w) && Enabled(t, w, step) && k < |w.issues|
    requires step.LoggingOut? && step.cookie == Some(Signed(SIGNING_METHOD, t.secret, w.issues[k].refresh))
    requires forall j | k < j < |w.issues| :: w.issues[j].chain != w.issues[k].chain
    requires Parse(t, step.cookie.value, Refresh, w.clock).Ok? && step.io.store.SetOk?
    ensures ChainDead(Next(t, w, step), w.issues[k].chain)
  {
    DeathsLast(t, w, step);
    assert WellIssued(t, w.issues[k], w.clock);
    var w' := Next(t, w, step);
    assert w'.issues == w.issues;
    assert DeadIssue(w', w.issues[k]);
  }

  lemma DeadChainStep(t: Tokens, w: World, step: Step, chain: nat)
    requires Usable(t) && Inv(t, w) && Enabled(t, w, step) && ChainDead(w, chain) && chain < |w.issues|
    ensures var w' := Next(t, w, step);
      ChainDead(w', chain) && forall k | |w.issues| <= k < |w'.issues| :: w'.issues[k].chain != chain
  {
    DeathsLast(t, w, step);
    JoinsDeadChain(t, w, step);
    if Succeeds(t, w, step) {
      SpendsAnIssue(t, w, step);
      var k := IndexOf(w.issues, step.cookie.value.claims.id);
      var c := step.cookie.value.claims;
      RecordShape(t, w.issues, w.issues[k].chain, c.subject.value, w.users[c.subject.value], w.clock, step.io);
    } else if step.SignIn? {
      RecordShape(t, w.issues, |w.issues|, step.user, w.users[step.user], w.clock, step.io);
    }
  }

  lemma {:induction false} DeadChainRun(t: Tokens, w: World, steps: seq<Step>, chain: nat)
    requires Usable(t) && Inv(t, w) && ValidRun(t, w, steps) && ChainDead(w, chain) && chain < |w.issues|
    ensures var w' := Exec(t, w, steps);
      && w.issues <= w'.issues && w.clock <= w'.clock && ChainDead(w', chain)
      && forall k | |w.issues| <= k < |w'.issues| :: w'.issues[k].chain != chain
    decreases |steps|
  {
    if steps != [] {
      DeadChainStep(t, w, steps[0], chain);
      StepInv(t, w, steps[0]);
      JoinsDeadChain(t, w, steps[0]);
      DeadChainRun(t, Next(t, w, steps[0]), steps[1..], chain);
    }
  }

  /**
   Once a chain is dead it never issues again, and an access lifetime later no request
   is authenticated by any access token it ever handed out.
   */
  lemma DeadChainLosesAccess(t: Tokens, w: World, steps: seq<Step>, chain: nat, k: nat, now: nat)
    requires Usable(t) && Inv(t, w) && ValidRun(t, w, steps) && ChainDead(w, chain) && chain < |w.issues|
    requires var w' := Exec(t, w, steps); k < |w'.issues| && w'.issues[k].chain == chain
    requires w.clock + t.accessTTL <= now
    ensures k < |w.issues|
    ensures Parse(t, Signed(SIGNING_METHOD, t.secret, Exec(t, w, steps).issues[k].access), Access, now).Err?
    ensures forall later | w.clock <= later :: !Live(t, w, w.issues[k].refresh, later)
  {
    DeadChainRun(t, w, steps, chain);
    assert WellIssued(t, w.issues[k], w.clock);
  }

  /**
   After any run, a request that is let through runs as a user of a team to whom a sign-in
   or a refresh handed an access token less than an access lifetime ago.
   */
  lemma IdentityWasIssued(t: Tokens, steps: seq<Step>, header: string, decode: string -> Raw, now: nat, who: Identity)
    requires Usable(t) && ValidRun(t, START, steps) && Authenticate(t, header, decode, now) == Ok(who)
    requires BearerToken(header).Some? ==> Authentic(t, Exec(t, START, steps), decode(BearerToken(header).value))
    ensures var issues := Exec(t, START, steps).issues;
      exists k :: 0 <= k < |issues| && issues[k].access.subject == Some(who.user) && issues[k].access.team == who.team
        && now < issues[k].at + t.accessTTL
  {
    var w, raw := Exec(t, START, steps), decode(BearerToken(header).value);
    IdentityIsSigned(t, header, decode, now, who);
    AcceptedIsOurs(t, raw, Access, now);
    RunInv(t, START, steps);
    var k :| 0 <= k < |w.issues| && (raw.claims == w.issues[k].refresh || raw.claims == w.issues[k].access);
    assert WellIssued(t, w.issues[k], w.clock);
  }
}
