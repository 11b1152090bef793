/**
 Refreshes and logouts interleaved at their store calls (internal/handlers/auth.go): the
 revocation check and the SET are separate round trips, so requests can run between them.

 Every step happens at the current time and has its own event number. A SET that the
 client gave up on may still land later. Cookies are arbitrary: what this server did not
 sign is refused when the request begins.
 */
module SessionRaces {
  import opened Wrappers
  import opened Tokens
  import opened Sessions

  datatype Job = RefreshJob | LogoutJob

  datatype Phase = Arrived | Checking | Finding | Measuring | Setting | Issuing | Issued | Over

  // An event number is 0 while the event has not happened. passed is the answer of the
  // revocation check, ttl is meaningful once measuredNo is set, and faulted says that a call
  // failed or that the user was gone.
  datatype Request = Request(job: Job, raw: Raw, phase: Phase,
                             parsedAt: nat, checkedAt: nat, checkNo: nat, passed: bool,
                             measuredAt: nat, measuredNo: nat, ttl: int,
                             landedAt: nat, landNo: nat, ackNo: nat, issueNo: nat, faulted: bool)

  datatype State = State(clock: nat, event: nat, entries: Entries, requests: seq<Request>)

  datatype Action =
    | Begin | Check | CheckFails | Find(found: bool) | Measure
    | Land | Acknowledge | SetFails | Issue | IssueFails

  datatype Step = Tick(to: nat) | Do(p: nat, action: Action)

  function NewRequest(job: Job, raw: Raw): Request {
    Request(job, raw, Arrived, 0, 0, 0, false, 0, 0, 0, 0, 0, 0, 0, false)
  }

  predicate Readable(t: Tokens, raw: Raw, now: nat) {
    Parse(t, raw, Refresh, now).Ok? && raw.Signed? && raw.claims.id.Some? && raw.claims.expiresAt.Some?
  }

  predicate Enabled(t: Tokens, s: State, step: Step) {
    match step
    case Tick(to) => s.clock <= to
    case Do(p, action) =>
      p < |s.requests| &&
      var r := s.requests[p];
      match action
      case Begin => r.phase.Arrived?
      case Check => r.phase.Checking?
      case CheckFails => r.phase.Checking?
      case Find(_) => r.phase.Finding?
      case Measure => r.phase.Measuring?
      case Land => r.measuredNo > 0 && r.ttl > 0 && r.landNo == 0
      case Acknowledge => r.phase.Setting? && (r.ttl <= 0 || r.landNo > 0)
      case SetFails => r.phase.Setting? && r.ttl > 0
      case Issue => r.phase.Issuing?
      case IssueFails => r.phase.Issuing?
  }

  function Act(t: Tokens, s: State, r: Request, action: Action): Request {
    match action
    case Begin =>
      if !Readable(t, r.raw, s.clock) then r.(phase := Over)
      else r.(phase := if r.job.RefreshJob? then Checking else Measuring, parsedAt := s.clock)
    case Check =>
      var passed := r.raw.Signed? && r.raw.claims.id.Some? && !Revoked(s.entries, r.raw.claims.id.value, s.clock);
      r.(phase := if passed then Finding else Over, checkedAt := s.clock, checkNo := s.event, passed := passed)
    case CheckFails => r.(phase := Over, faulted := true)
    case Find(found) => r.(phase := if found then Measuring else Over, faulted := !found)
    case Measure =>
      r.(phase := Setting, measuredAt := s.clock, measuredNo := s.event,
         ttl := if r.raw.Signed? then RemainingLife(r.raw.claims, s.clock) else 0)
    case Land => r.(landedAt := s.clock, landNo := s.event)
    case Acknowledge => r.(phase := if r.job.RefreshJob? then Issuing else Over, ackNo := s.event)
    case SetFails => r.(phase := Over, faulted := true)
    case Issue => r.(phase := Issued, issueNo := s.event)
    case IssueFails => r.(phase := Over, faulted := true)
  }

  function Next(t: Tokens, s: State, step: Step): State
    requires Enabled(t, s, step)
  {
    match step
    case Tick(to) => s.(clock := to, event := s.event + 1)
    case Do(p, action) =>
      var r := s.requests[p];
      var entries :=
        if action.Land? && r.raw.Signed? && r.raw.claims.id.Some?
        then AfterRevoke(s.entries, r.raw.claims.id.value, r.ttl, s.clock, SetOk)
        else s.entries;
      State(s.clock, s.event + 1, entries, s.requests[p := Act(t, s, r, action)])
  }

  ghost predicate ValidRun(t: Tokens, s: State, steps: seq<Step>)
    decreases |steps|
  {
    steps == [] || (Enabled(t, s, steps[0]) && ValidRun(t, Next(t, s, steps[0]), steps[1..]))
  }

  function Exec(t: Tokens, s: State, steps: seq<Step>): State
    requires ValidRun(t, s, steps)
    decreases |steps|
  {
    if steps == [] then s else Exec(t, Next(t, s, steps[0]), steps[1..])
  }

  // A token that this server signed. Anyone can present others, with any claims.
  predicate Genuine(t: Tokens, raw: Raw) {
    raw.Signed? && raw.secret == t.secret && raw.alg == SIGNING_METHOD
  }

  predicate SameId(t: Tokens, r: Request, r': Request) {
    Genuine(t, r.raw) && Genuine(t, r'.raw) && r.raw.claims.id == r'.raw.claims.id
  }

  // The server gives no two tokens one id.
  ghost predicate SameTokens(t: Tokens, requests: seq<Request>) {
    forall p, q | 0 <= p < |requests| && 0 <= q < |requests| && SameId(t, requests[p], requests[q]) ::
      requests[p].raw.claims.expiresAt == requests[q].raw.claims.expiresAt
  }

  ghost predicate Init(t: Tokens, s: State) {
    && s.event == 1 && s.entries == map[]
    && SameTokens(t, s.requests)
    && forall p | 0 <= p < |s.requests| :: s.requests[p] == NewRequest(s.requests[p].job, s.requests[p].raw)
  }

  // When the revocation took effect: the SET landed, or was found unnecessary.
  function EffectNo(r: Request): nat {
    if r.landNo > 0 then r.landNo else if r.ttl <= 0 then r.ackNo else 0
  }

  // Verified before its token expired, looked up when it had.
  predicate Straddles(r: Request) {
    r.raw.Signed? && r.raw.claims.expiresAt.Some? && r.parsedAt < r.raw.claims.expiresAt.value <= r.checkedAt
  }

  // When the entry of a SET that landed disappears.
  function Deadline(r: Request): int { r.landedAt + r.ttl }

  predicate Landed(t: Tokens, rs: seq<Request>, p: nat, id: Id) {
    p < |rs| && Genuine(t, rs[p].raw) && rs[p].raw.claims.id == Some(id) && rs[p].landNo > 0
  }

  // p's SET is the last one to land for the id before event no.
  predicate LastLanding(t: Tokens, rs: seq<Request>, p: nat, id: Id, no: nat) {
    && Landed(t, rs, p, id) && rs[p].landNo < no
    && forall r: nat | r < |rs| && Landed(t, rs, r, id) && rs[r].landNo < no :: rs[r].landNo <= rs[p].landNo
  }

  // The store's answer at event no, told from the SETs that landed.
  ghost predicate Blocked(t: Tokens, rs: seq<Request>, id: Id, no: nat, now: nat) {
    exists p: nat :: LastLanding(t, rs, p, id, no) && now < Deadline(rs[p])
  }

  // ----- The invariant --------------------------------------------------------------

  predicate Begun(r: Request) {
    !r.phase.Arrived? && (!r.phase.Over? || r.measuredNo > 0 || r.checkNo > 0)
  }

  predicate Entered(entries: Entries, c: Claims) {
    c.id.Some? && c.expiresAt.Some? && c.id.value in entries && c.expiresAt.value <= entries[c.id.value]
  }

  // How far a request has got, and in which order.
  predicate ProgressInv(r: Request) {
    && (r.phase.Arrived? || r.phase.Checking? ==> r.checkNo == 0 && r.measuredNo == 0)
    && (r.checkNo > 0 || r.phase.Checking? || r.phase.Finding? ==> r.job.RefreshJob?)
    && (r.phase.Finding? ==> r.passed)
    && (r.passed ==> r.checkNo > 0)
    && (r.job.RefreshJob? && (r.phase.Measuring? || r.measuredNo > 0) ==> r.passed)
    && (r.measuredNo == 0 ==> r.landNo == 0 && r.ackNo == 0 && r.ttl == 0)
    && (r.phase.Arrived? || r.phase.Checking? || r.phase.Finding? || r.phase.Measuring? ==> r.measuredNo == 0)
    && (r.phase.Setting? || r.phase.Issuing? || r.phase.Issued? ==> r.measuredNo > 0)
    && (r.measuredNo > 0 && r.checkNo > 0 ==> r.checkNo < r.measuredNo)
    && (r.landNo > 0 ==> r.ttl > 0 && r.measuredNo < r.landNo)
    && (r.ackNo > 0 ==> r.measuredNo < r.ackNo && (r.ttl > 0 ==> 0 < r.landNo < r.ackNo))
    && (r.phase.Issuing? || r.phase.Issued? ==> r.ackNo > 0 && r.job.RefreshJob?)
    && (r.issueNo > 0 ==> r.phase.Issued?)
    && (r.phase.Issued? ==> r.ackNo < r.issueNo)
    && (r.faulted ==> r.phase.Over?)
    && (r.phase.Over? && r.passed ==> r.faulted)
  }

  predicate RequestInv(t: Tokens, s: State, r: Request) {
    && ProgressInv(r)
    && r.checkNo < s.event && r.measuredNo < s.event && r.landNo < s.event && r.ackNo < s.event && r.issueNo < s.event
    && (Begun(r) ==> Genuine(t, r.raw) && r.raw.claims.id.Some? && r.raw.claims.expiresAt.Some?)
    && (Begun(r) ==> r.parsedAt < r.raw.claims.expiresAt.value)
    && r.checkedAt <= s.clock
    && (r.measuredNo > 0 ==> r.measuredAt <= s.clock && r.ttl == r.raw.claims.expiresAt.value - r.measuredAt)
    && (r.landNo > 0 ==> r.measuredAt <= r.landedAt && Entered(s.entries, r.raw.claims))
  }

  // A check that came after a revocation took effect passed only at or past expiry.
  predicate PairInv(t: Tokens, r: Request, r': Request) {
    SameId(t, r, r') && 0 < EffectNo(r) < r'.checkNo && r'.passed && r'.raw.claims.expiresAt.Some? ==>
      r'.raw.claims.expiresAt.value <= r'.checkedAt
  }

  // Two requests' events are different events.
  predicate Distinct(r: Request, r': Request) {
    && (r'.checkNo > 0 ==> r'.checkNo != r.landNo && r'.checkNo != r.ackNo)
    && (r'.landNo > 0 ==> r'.landNo != r.landNo)
  }

  // Each entry is the work of the last SET to land for its id.
  ghost predicate EntriesInv(t: Tokens, entries: Entries, rs: seq<Request>, event: nat) {
    && (forall id | id in entries :: exists p: nat :: LastLanding(t, rs, p, id, event))
    && (forall p: nat, id | LastLanding(t, rs, p, id, event) :: id in entries && entries[id] == Deadline(rs[p]))
  }

  // A revocation check answered what the landings before it make it answer.
  ghost predicate VerdictInv(t: Tokens, rs: seq<Request>, r: Request) {
    r.checkNo > 0 && r.raw.Signed? && r.raw.claims.id.Some? ==>
      (r.passed <==> !Blocked(t, rs, r.raw.claims.id.value, r.checkNo, r.checkedAt))
  }

  ghost predicate RequestsInv(t: Tokens, s: State) {
    forall p | 0 <= p < |s.requests| :: RequestInv(t, s, s.requests[p])
  }

  ghost predicate PairsInv(t: Tokens, rs: seq<Request>) {
    && (forall p, q | 0 <= p < |rs| && 0 <= q < |rs| :: PairInv(t, rs[p], rs[q]))
    && (forall p, q | 0 <= p < |rs| && 0 <= q < |rs| && p != q :: Distinct(rs[p], rs[q]))
  }

  ghost predicate VerdictsInv(t: Tokens, rs: seq<Request>) {
    forall p | 0 <= p < |rs| :: VerdictInv(t, rs, rs[p])
  }

  ghost predicate Inv(t: Tokens, s: State) {
    && s.event > 0 && SameTokens(t, s.requests)
    && RequestsInv(t, s) && PairsInv(t, s.requests)
    && EntriesInv(t, s.entries, s.requests, s.event) && VerdictsInv(t, s.requests)
  }

  lemma OwnStep(t: Tokens, s: State, p: nat, action: Action)
    requires s.event > 0 && Enabled(t, s, Do(p, action)) && RequestInv(t, s, s.requests[p])
    ensures var s' := Next(t, s, Do(p, action)); RequestInv(t, s', s'.requests[p])
  {
    if action.Begin? && Readable(t, s.requests[p].raw, s.clock) {
      AcceptedIsOurs(t, s.requests[p].raw, Refresh, s.clock);
    }
  }

  // Entries of landed revocations never fall below their token's expiry.
  lemma OthersStep(t: Tokens, s: State, p: nat, action: Action, q: nat)
    requires Inv(t, s) && Enabled(t, s, Do(p, action)) && q < |s.requests| && q != p
    ensures RequestInv(t, Next(t, s, Do(p, action)), s.requests[q])
  {
    var r, r' := s.requests[p], s.requests[q];
    assert RequestInv(t, s, r) && RequestInv(t, s, r');
    if action.Land? && r'.landNo > 0 && r.raw.claims.id == r'.raw.claims.id {
      assert SameId(t, r, r');
    }
  }

  // A step of a request takes effect, or looks its token up, only as the current event.
  lemma EventsOf(t: Tokens, s: State, p: nat, action: Action)
    requires s.event > 0 && Enabled(t, s, Do(p, action)) && RequestInv(t, s, s.requests[p])
    ensures var r, r' := s.requests[p], Act(t, s, s.requests[p], action);
      && (EffectNo(r') == EffectNo(r) || EffectNo(r') == s.event)
      && (r'.landNo == r.landNo || r'.landNo == s.event) && (r'.ackNo == r.ackNo || r'.ackNo == s.event)
      && (r'.checkNo == r.checkNo
          || (action.Check? && r'.checkNo == s.event && r'.checkedAt == s.clock && LooksUp(s, r, r')))
      && (r'.checkNo == r.checkNo ==> r'.checkedAt == r.checkedAt && r'.passed == r.passed)
      && EffectNo(r) < s.event && r.checkNo < s.event && r'.raw == r.raw
      && (action.Check? ==> EffectNo(r') == EffectNo(r) && r'.landNo == r.landNo && r'.ackNo == r.ackNo)
  {
  }

  predicate LooksUp(s: State, r: Request, r': Request) {
    && r.raw.Signed? && r.raw.claims.id.Some?
    && (r'.passed <==> !Revoked(s.entries, r.raw.claims.id.value, s.clock))
  }

  // A revocation in effect refuses every check until the token has expired.
  lemma EffectBlocks(t: Tokens, s: State, r: Request, r': Request)
    requires RequestInv(t, s, r) && SameId(t, r, r') && 0 < EffectNo(r)
    requires r.raw.claims.expiresAt == r'.raw.claims.expiresAt
    requires r'.raw.claims.id.Some? && !Revoked(s.entries, r'.raw.claims.id.value, s.clock)
    ensures r'.raw.claims.expiresAt.Some? && r'.raw.claims.expiresAt.value <= s.clock
  {
  }

  lemma PairStep(t: Tokens, s: State, p: nat, action: Action, a: nat, b: nat)
    requires s.event > 0 && Enabled(t, s, Do(p, action)) && a < |s.requests| && b < |s.requests|
    requires RequestInv(t, s, s.requests[p]) && RequestInv(t, s, s.requests[a]) && RequestInv(t, s, s.requests[b])
    requires SameTokens(t, s.requests) && PairInv(t, s.requests[a], s.requests[b])
    ensures var rs := Next(t, s, Do(p, action)).requests; PairInv(t, rs[a], rs[b])
  {
    var r, r' := s.requests[a], s.requests[b];
    EventsOf(t, s, p, action);
    if b == p && action.Check? && SameId(t, r, r') && 0 < EffectNo(r) && Act(t, s, r', action).passed {
      EffectBlocks(t, s, r, r');
    }
  }

  lemma DistinctStep(t: Tokens, s: State, p: nat, action: Action, a: nat, b: nat)
    requires s.event > 0 && Enabled(t, s, Do(p, action)) && a < |s.requests| && b < |s.requests| && a != b
    requires RequestInv(t, s, s.requests[p]) && RequestInv(t, s, s.requests[a]) && RequestInv(t, s, s.requests[b])
    requires Distinct(s.requests[a], s.requests[b])
    ensures var rs := Next(t, s, Do(p, action)).requests; Distinct(rs[a], rs[b])
  {
    EventsOf(t, s, p, action);
  }

  lemma TokensStay(t: Tokens, s: State, p: nat, action: Action)
    requires SameTokens(t, s.requests) && Enabled(t, s, Do(p, action))
    ensures SameTokens(t, Next(t, s, Do(p, action)).requests)
  {
    var s' := Next(t, s, Do(p, action));
    assert forall q | 0 <= q < |s.requests| :: s'.requests[q].raw == s.requests[q].raw;
  }

  // ----- The store told from the landings -------------------------------------------

  // No landing changes, and any new one comes at event no or later.
  ghost predicate LandingsStay(rs: seq<Request>, rs': seq<Request>, no: nat) {
    && |rs'| == |rs|
    && forall p | 0 <= p < |rs| ::
         && rs'[p].raw == rs[p].raw
         && (rs[p].landNo > 0 ==> rs'[p].landNo == rs[p].landNo && Deadline(rs'[p]) == Deadline(rs[p]))
         && (rs[p].landNo == 0 ==> rs'[p].landNo == 0 || no <= rs'[p].landNo)
  }

  lemma LastStays(t: Tokens, rs: seq<Request>, rs': seq<Request>, p: nat, id: Id, no: nat)
    requires LandingsStay(rs, rs', no)
    ensures LastLanding(t, rs', p, id, no) <==> LastLanding(t, rs, p, id, no)
  {
    forall r: nat | r < |rs|
      ensures Landed(t, rs', r, id) && rs'[r].landNo < no <==> Landed(t, rs, r, id) && rs[r].landNo < no
    {
      assert rs'[r].raw == rs[r].raw;
    }
  }

  lemma BlockedStays(t: Tokens, rs: seq<Request>, rs': seq<Request>, id: Id, no: nat, now: nat)
    requires LandingsStay(rs, rs', no)
    ensures Blocked(t, rs', id, no, now) <==> Blocked(t, rs, id, no, now)
  {
    forall p: nat ensures LastLanding(t, rs', p, id, no) <==> LastLanding(t, rs, p, id, no) {
      LastStays(t, rs, rs', p, id, no);
    }
  }

  lemma StepKeepsLandings(t: Tokens, s: State, p: nat, action: Action, no: nat)
    requires Enabled(t, s, Do(p, action)) && ProgressInv(s.requests[p]) && no <= s.event
    ensures LandingsStay(s.requests, Next(t, s, Do(p, action)).requests, no)
  {
  }

  // A lookup is answered by the last SET that landed.
  lemma LookupIs(t: Tokens, s: State, id: Id, now: nat)
    requires EntriesInv(t, s.entries, s.requests, s.event)
    ensures Revoked(s.entries, id, now) <==> Blocked(t, s.requests, id, s.event, now)
  {
    if id in s.entries {
      var p: nat :| LastLanding(t, s.requests, p, id, s.event);
    }
  }

  // Every landing so far came before event no.
  ghost predicate LandedBefore(rs: seq<Request>, no: nat) {
    forall r | 0 <= r < |rs| :: rs[r].landNo < no
  }

  lemma LaterStillLast(t: Tokens, rs: seq<Request>, p: nat, id: Id, no: nat, later: nat)
    requires LandedBefore(rs, no) && no <= later
    ensures LastLanding(t, rs, p, id, later) <==> LastLanding(t, rs, p, id, no)
  {
  }

  // Without a landing, entries and landings stay as they were.
  lemma QuietEntries(t: Tokens, entries: Entries, rs: seq<Request>, rs': seq<Request>, no: nat, later: nat)
    requires EntriesInv(t, entries, rs, no) && LandingsStay(rs, rs', no)
    requires LandedBefore(rs, no) && LandedBefore(rs', no) && no <= later
    ensures EntriesInv(t, entries, rs', later)
  {
    forall p: nat, id ensures LastLanding(t, rs', p, id, later) <==> LastLanding(t, rs, p, id, no) {
      LastStays(t, rs, rs', p, id, no);
      LaterStillLast(t, rs', p, id, no, later);
    }
    forall id | id in entries ensures exists p: nat :: LastLanding(t, rs', p, id, later) {
      var p: nat :| LastLanding(t, rs, p, id, no);
      assert LastLanding(t, rs', p, id, later);
    }
    forall p: nat, id | LastLanding(t, rs', p, id, later) ensures id in entries && entries[id] == Deadline(rs'[p]) {
      assert LastLanding(t, rs, p, id, no);
    }
  }

  // a's SET for the id lands as event no.
  predicate Lands(t: Tokens, rs: seq<Request>, a: nat, r: Request, id: Id, no: nat) {
    && a < |rs| && r.raw == rs[a].raw && Genuine(t, r.raw) && r.raw.claims.id == Some(id)
    && rs[a].landNo == 0 && r.landNo == no > 0 && Deadline(r) >= 0
  }

  lemma LandedIsLast(t: Tokens, rs: seq<Request>, a: nat, r: Request, id: Id, no: nat, later: nat, p: nat)
    requires Lands(t, rs, a, r, id, no) && LandedBefore(rs, no) && no < later
    ensures LastLanding(t, rs[a := r], p, id, later) <==> p == a
  {
    var rs' := rs[a := r];
    assert Landed(t, rs', a, id);
    assert forall k | 0 <= k < |rs| && k != a :: rs'[k] == rs[k];
  }

  lemma OtherIdStays(t: Tokens, rs: seq<Request>, a: nat, r: Request, id: Id, no: nat, later: nat, p: nat, i: Id)
    requires Lands(t, rs, a, r, id, no) && LandedBefore(rs, no) && no < later && i != id
    ensures LastLanding(t, rs[a := r], p, i, later) <==> LastLanding(t, rs, p, i, no)
    ensures LastLanding(t, rs, p, i, no) ==> p != a
  {
    var rs' := rs[a := r];
    forall k: nat | k < |rs| ensures Landed(t, rs', k, i) <==> Landed(t, rs, k, i) && k != a {
    }
    assert forall k | 0 <= k < |rs| && k != a :: rs'[k] == rs[k];
  }

  // A landing replaces its own id's entry and is the last of its id.
  lemma LandedEntries(t: Tokens, entries: Entries, rs: seq<Request>, a: nat, r: Request, id: Id, no: nat, later: nat)
    requires EntriesInv(t, entries, rs, no) && Lands(t, rs, a, r, id, no) && LandedBefore(rs, no) && no < later
    ensures EntriesInv(t, entries[id := Deadline(r)], rs[a := r], later)
  {
    var entries', rs' := entries[id := Deadline(r)], rs[a := r];
    LandedIsLast(t, rs, a, r, id, no, later, a);
    forall p: nat, i | LastLanding(t, rs', p, i, later) ensures i in entries' && entries'[i] == Deadline(rs'[p]) {
      if i == id {
        LandedIsLast(t, rs, a, r, id, no, later, p);
      } else {
        OtherIdStays(t, rs, a, r, id, no, later, p, i);
      }
    }
    forall i | i in entries' ensures exists p: nat :: LastLanding(t, rs', p, i, later) {
      if i != id {
        var p: nat :| LastLanding(t, rs, p, i, no);
        OtherIdStays(t, rs, a, r, id, no, later, p, i);
      }
    }
  }

  lemma LandingsAreBefore(t: Tokens, s: State)
    requires Inv(t, s)
    ensures LandedBefore(s.requests, s.event)
  {
    forall r | 0 <= r < |s.requests| ensures s.requests[r].landNo < s.event {
      assert RequestInv(t, s, s.requests[r]);
    }
  }

  lemma LandIsLanding(t: Tokens, s: State, p: nat)
    requires s.event > 0 && Enabled(t, s, Do(p, Land)) && RequestInv(t, s, s.requests[p])
    ensures var r := s.requests[p]; var r' := Act(t, s, r, Land);
      && r.raw.Signed? && r.raw.claims.id.Some?
      && Lands(t, s.requests, p, r', r.raw.claims.id.value, s.event)
      && Next(t, s, Do(p, Land)).requests == s.requests[p := r']
      && Next(t, s, Do(p, Land)).entries == s.entries[r.raw.claims.id.value := Deadline(r')]
  {
  }

  lemma EntriesStep(t: Tokens, s: State, p: nat, action: Action)
    requires Inv(t, s) && Enabled(t, s, Do(p, action))
    ensures var s' := Next(t, s, Do(p, action)); EntriesInv(t, s'.entries, s'.requests, s'.event)
  {
    var r, s' := s.requests[p], Next(t, s, Do(p, action));
    assert RequestInv(t, s, r);
    LandingsAreBefore(t, s);
    if action.Land? {
      LandIsLanding(t, s, p);
      LandedEntries(t, s.entries, s.requests, p, Act(t, s, r, Land), r.raw.claims.id.value, s.event, s'.event);
    } else {
      StepKeepsLandings(t, s, p, action, s.event);
      QuietEntries(t, s.entries, s.requests, s'.requests, s.event, s'.event);
    }
  }

  lemma VerdictStep(t: Tokens, s: State, p: nat, action: Action, q: nat)
    requires Inv(t, s) && Enabled(t, s, Do(p, action)) && q < |s.requests|
    ensures var rs := Next(t, s, Do(p, action)).requests; VerdictInv(t, rs, rs[q])
  {
    var r, rs := s.requests[q], Next(t, s, Do(p, action)).requests;
    assert RequestInv(t, s, r) && RequestInv(t, s, s.requests[p]) && VerdictInv(t, s.requests, r);
    EventsOf(t, s, p, action);
    StepKeepsLandings(t, s, p, action, rs[q].checkNo);
    if rs[q].checkNo > 0 && r.raw.Signed? && r.raw.claims.id.Some? {
      BlockedStays(t, s.requests, rs, r.raw.claims.id.value, rs[q].checkNo, rs[q].checkedAt);
      LookupIs(t, s, r.raw.claims.id.value, s.clock);
    }
  }

  lemma DoRequests(t: Tokens, s: State, p: nat, action: Action)
    requires Inv(t, s) && Enabled(t, s, Do(p, action))
    ensures RequestsInv(t, Next(t, s, Do(p, action)))
  {
    var s' := Next(t, s, Do(p, action));
    forall q | 0 <= q < |s.requests| ensures RequestInv(t, s', s'.requests[q]) {
      if q == p {
        OwnStep(t, s, p, action);
      } else {
        OthersStep(t, s, p, action, q);
      }
    }
  }

  lemma DoDistinct(t: Tokens, s: State, p: nat, action: Action)
    requires Inv(t, s) && Enabled(t, s, Do(p, action))
    ensures var rs := Next(t, s, Do(p, action)).requests;
      forall a, b | 0 <= a < |rs| && 0 <= b < |rs| && a != b :: Distinct(rs[a], rs[b])
  {
    var rs := Next(t, s, Do(p, action)).requests;
    forall a, b | 0 <= a < |rs| && 0 <= b < |rs| && a != b ensures Distinct(rs[a], rs[b]) {
      assert RequestInv(t, s, s.requests[a]) && RequestInv(t, s, s.requests[b]) && RequestInv(t, s, s.requests[p]);
      assert Distinct(s.requests[a], s.requests[b]);
      DistinctStep(t, s, p, action, a, b);
    }
  }

  lemma DoPairs(t: Tokens, s: State, p: nat, action: Action)
    requires Inv(t, s) && Enabled(t, s, Do(p, action))
    ensures PairsInv(t, Next(t, s, Do(p, action)).requests)
  {
    var rs := Next(t, s, Do(p, action)).requests;
    DoDistinct(t, s, p, action);
    forall a, b | 0 <= a < |rs| && 0 <= b < |rs| ensures PairInv(t, rs[a], rs[b]) {
      assert RequestInv(t, s, s.requests[a]) && RequestInv(t, s, s.requests[b]) && RequestInv(t, s, s.requests[p]);
      assert PairInv(t, s.requests[a], s.requests[b]);
      PairStep(t, s, p, action, a, b);
    }
  }

  lemma DoVerdicts(t: Tokens, s: State, p: nat, action: Action)
    requires Inv(t, s) && Enabled(t, s, Do(p, action))
    ensures VerdictsInv(t, Next(t, s, Do(p, action)).requests)
  {
    var rs := Next(t, s, Do(p, action)).requests;
    forall q | 0 <= q < |rs| ensures VerdictInv(t, rs, rs[q]) {
      VerdictStep(t, s, p, action, q);
    }
  }

  lemma DoInv(t: Tokens, s: State, p: nat, action: Action)
    requires Inv(t, s) && Enabled(t, s, Do(p, action))
    ensures Inv(t, Next(t, s, Do(p, action)))
  {
    TokensStay(t, s, p, action);
    DoRequests(t, s, p, action);
    DoPairs(t, s, p, action);
    EntriesStep(t, s, p, action);
    DoVerdicts(t, s, p, action);
  }

  lemma TickRequests(t: Tokens, s: State, to: nat)
    requires Inv(t, s) && s.clock <= to
    ensures RequestsInv(t, Next(t, s, Tick(to)))
  {
    forall q | 0 <= q < |s.requests| ensures RequestInv(t, Next(t, s, Tick(to)), s.requests[q]) {
      assert RequestInv(t, s, s.requests[q]);
    }
  }

  lemma TickEntries(t: Tokens, s: State)
    requires Inv(t, s)
    ensures EntriesInv(t, s.entries, s.requests, s.event + 1)
  {
    LandingsAreBefore(t, s);
    QuietEntries(t, s.entries, s.requests, s.requests, s.event, s.event + 1);
  }

  lemma TickInv(t: Tokens, s: State, to: nat)
    requires Inv(t, s) && s.clock <= to
    ensures Inv(t, Next(t, s, Tick(to)))
  {
    var s' := Next(t, s, Tick(to));
    assert s' == State(to, s.event + 1, s.entries, s.requests);
    TickEntries(t, s);
    TickRequests(t, s, to);
    assert EntriesInv(t, s'.entries, s'.requests, s'.event);
  }

  lemma StepInv(t: Tokens, s: State, step: Step)
    requires Inv(t, s) && Enabled(t, s, step)
    ensures Inv(t, Next(t, s, step))
  {
    match step
    case Tick(to) => TickInv(t, s, to);
    case Do(p, action) => DoInv(t, s, p, action);
  }

  lemma {:induction false} RunInv(t: Tokens, s: State, steps: seq<Step>)
    requires Inv(t, s) && ValidRun(t, s, steps)
    ensures Inv(t, Exec(t, s, steps))
    decreases |steps|
  {
    if steps != [] {
      StepInv(t, s, steps[0]);
      RunInv(t, Next(t, s, steps[0]), steps[1..]);
    }
  }

  // ----- What every interleaving keeps ----------------------------------------------

  /** No pair is issued without a check that passed and then a revocation that succeeded. */
  lemma IssueFollowsCheckAndRevoke(t: Tokens, s: State, steps: seq<Step>, p: nat)
    requires Init(t, s) && ValidRun(t, s, steps)
    requires p < |Exec(t, s, steps).requests| && Exec(t, s, steps).requests[p].phase.Issued?
    ensures var r := Exec(t, s, steps).requests[p];
      && r.passed && 0 < r.checkNo < r.measuredNo < EffectNo(r) <= r.ackNo < r.issueNo
      && Genuine(t, r.raw) && r.raw.claims.expiresAt.Some? && r.parsedAt < r.raw.claims.expiresAt.value
  {
    RunInv(t, s, steps);
    assert RequestInv(t, Exec(t, s, steps), Exec(t, s, steps).requests[p]);
  }

  /**
   Once a revocation of a token, by a refresh or a logout, has taken effect, a refresh of
   it that checks afterwards gets a pair only by straddling the token's expiry. So two
   refreshes of one token both succeed only if each checked before the other's
   revocation took effect, or straddled.
   */
  lemma SuccessorsNeedARace(t: Tokens, s: State, steps: seq<Step>, p: nat, q: nat)
    requires Init(t, s) && ValidRun(t, s, steps)
    requires var rs := Exec(t, s, steps).requests;
      p < |rs| && q < |rs| && p != q && SameId(t, rs[p], rs[q]) && EffectNo(rs[p]) > 0 && rs[q].phase.Issued?
    ensures var rs := Exec(t, s, steps).requests;
      rs[q].checkNo < EffectNo(rs[p]) || Straddles(rs[q])
  {
    RunInv(t, s, steps);
    var s' := Exec(t, s, steps);
    assert RequestInv(t, s', s'.requests[q]) && PairInv(t, s'.requests[p], s'.requests[q]);
    assert Distinct(s'.requests[p], s'.requests[q]);
  }

  // A refresh that looked its token up and has come to its end.
  predicate Ended(t: Tokens, rs: seq<Request>, q: nat) {
    && q < |rs| && rs[q].checkNo > 0 && (rs[q].phase.Issued? || rs[q].phase.Over?)
    && Genuine(t, rs[q].raw) && rs[q].raw.claims.id.Some? && rs[q].raw.claims.expiresAt.Some?
  }

  // The lookup found the token still valid.
  predicate InTime(r: Request) {
    r.raw.Signed? && r.raw.claims.expiresAt.Some? && r.checkedAt < r.raw.claims.expiresAt.value
  }

  // From any landing there is a last one.
  lemma {:induction false} FindLast(t: Tokens, rs: seq<Request>, p: nat, id: Id, no: nat) returns (last: nat)
    requires Landed(t, rs, p, id) && rs[p].landNo < no
    ensures LastLanding(t, rs, last, id, no)
    decreases no - rs[p].landNo
  {
    if LastLanding(t, rs, p, id, no) {
      last := p;
    } else {
      var r: nat :| r < |rs| && Landed(t, rs, r, id) && rs[p].landNo < rs[r].landNo < no;
      last := FindLast(t, rs, r, id, no);
    }
  }

  // Before expiry, any landing blocks.
  lemma BlockedBeforeExpiry(t: Tokens, s: State, q: nat)
    requires Inv(t, s) && Ended(t, s.requests, q) && InTime(s.requests[q])
    ensures var rs := s.requests; var r := rs[q]; var id := r.raw.claims.id.value;
      Blocked(t, rs, id, r.checkNo, r.checkedAt) <==> exists p: nat :: Landed(t, rs, p, id) && rs[p].landNo < r.checkNo
  {
    var rs := s.requests;
    var r := rs[q];
    var id := r.raw.claims.id.value;
    if p: nat :| Landed(t, rs, p, id) && rs[p].landNo < r.checkNo {
      var last := FindLast(t, rs, p, id, r.checkNo);
      assert RequestInv(t, s, rs[last]) && SameId(t, rs[last], r);
    }
  }

  lemma IssuedIffNotBlocked(t: Tokens, s: State, q: nat)
    requires Inv(t, s) && Ended(t, s.requests, q)
    ensures var r := s.requests[q];
      r.phase.Issued? <==> !r.faulted && !Blocked(t, s.requests, r.raw.claims.id.value, r.checkNo, r.checkedAt)
  {
    assert RequestInv(t, s, s.requests[q]) && VerdictInv(t, s.requests, s.requests[q]);
  }

  lemma LandsElsewhen(t: Tokens, s: State, p: nat, q: nat)
    requires Inv(t, s) && p < |s.requests| && q < |s.requests| && s.requests[q].checkNo > 0
    ensures s.requests[p].landNo != s.requests[q].checkNo
  {
    assert RequestInv(t, s, s.requests[p]);
    assert p != q ==> Distinct(s.requests[p], s.requests[q]);
  }

  /**
   Exactly when a refresh succeeds: when no later call of its own fails and the last SET
   that landed for its token before its lookup, if there was one, had lapsed by then. While
   the token is unexpired that means that none had landed.
   */
  lemma RefreshSucceedsIff(t: Tokens, s: State, steps: seq<Step>, q: nat)
    requires Init(t, s) && ValidRun(t, s, steps) && Ended(t, Exec(t, s, steps).requests, q)
    ensures var rs := Exec(t, s, steps).requests; var r := rs[q]; var id := r.raw.claims.id.value;
      && (r.phase.Issued? <==>
            !r.faulted && forall p: nat | LastLanding(t, rs, p, id, r.checkNo) :: Deadline(rs[p]) <= r.checkedAt)
      && (InTime(r) ==>
            (r.phase.Issued? <==> !r.faulted && forall p: nat | Landed(t, rs, p, id) :: r.checkNo < rs[p].landNo))
  {
    RunInv(t, s, steps);
    var s' := Exec(t, s, steps);
    IssuedIffNotBlocked(t, s', q);
    if InTime(s'.requests[q]) {
      BlockedBeforeExpiry(t, s', q);
      forall p: nat | p < |s'.requests| ensures s'.requests[p].landNo != s'.requests[q].checkNo {
        LandsElsewhen(t, s', p, q);
      }
    }
  }

  /**
   Two refreshes that looked one token up while it was unexpired both succeed exactly when
   neither meets a fault and both lookups came before any SET of the token landed.
   */
  lemma BothSucceedIff(t: Tokens, s: State, steps: seq<Step>, p: nat, q: nat)
    requires Init(t, s) && ValidRun(t, s, steps)
    requires var rs := Exec(t, s, steps).requests;
      && Ended(t, rs, p) && Ended(t, rs, q) && SameId(t, rs[p], rs[q]) && InTime(rs[p]) && InTime(rs[q])
    ensures var rs := Exec(t, s, steps).requests;
      rs[p].phase.Issued? && rs[q].phase.Issued? <==>
        && !rs[p].faulted && !rs[q].faulted
        && forall r: nat | Landed(t, rs, r, rs[p].raw.claims.id.value) ::
             rs[p].checkNo < rs[r].landNo && rs[q].checkNo < rs[r].landNo
  {
    RefreshSucceedsIff(t, s, steps, p);
    RefreshSucceedsIff(t, s, steps, q);
  }

  /**
   A refresh that looks its token up after a SET of it landed, for a logout or for another
   refresh, succeeds exactly when it meets no fault and the last such SET had lapsed; it
   then straddles the expiry.
   */
  lemma RefreshAfterRevocationIff(t: Tokens, s: State, steps: seq<Step>, p: nat, q: nat)
    requires Init(t, s) && ValidRun(t, s, steps)
    requires var rs := Exec(t, s, steps).requests;
      Ended(t, rs, q) && LastLanding(t, rs, p, rs[q].raw.claims.id.value, rs[q].checkNo)
    ensures var rs := Exec(t, s, steps).requests;
      && (rs[q].phase.Issued? <==> !rs[q].faulted && Deadline(rs[p]) <= rs[q].checkedAt)
      && (rs[q].phase.Issued? ==> Straddles(rs[q]))
  {
    RunInv(t, s, steps);
    RefreshSucceedsIff(t, s, steps, q);
    var s' := Exec(t, s, steps);
    var rs := s'.requests;
    var id := rs[q].raw.claims.id.value;
    assert RequestInv(t, s', rs[q]) && RequestInv(t, s', rs[p]) && SameId(t, rs[p], rs[q]);
    forall r: nat | LastLanding(t, rs, r, id, rs[q].checkNo) ensures r == p {
      assert rs[r].landNo <= rs[p].landNo && rs[p].landNo <= rs[r].landNo;
      assert r != p ==> Distinct(rs[p], rs[r]);
    }
  }

  // ----- Both exceptions happen -----------------------------------------------------

  const LIFE := 10 * SECOND

  function SomeToken(t: Tokens): Raw {
    Signed(SIGNING_METHOD, t.secret, NewClaims(7, 8, Refresh, 9, 0, LIFE))
  }

  function Start(t: Tokens, first: Job): State {
    State(0, 1, map[], [NewRequest(first, SomeToken(t)), NewRequest(RefreshJob, SomeToken(t))])
  }

  lemma {:induction false} RunsCompose(t: Tokens, s: State, a: seq<Step>, b: seq<Step>)
    requires ValidRun(t, s, a) && ValidRun(t, Exec(t, s, a), b)
    ensures ValidRun(t, s, a + b) && Exec(t, s, a + b) == Exec(t, Exec(t, s, a), b)
    decreases |a|
  {
    if a == [] {
      assert a + b == b;
    } else {
      assert (a + b)[0] == a[0] && (a + b)[1..] == a[1..] + b;
      RunsCompose(t, Next(t, s, a[0]), a[1..], b);
    }
  }

  // One more step at the end of a run.
  lemma Extend(t: Tokens, s: State, steps: seq<Step>, step: Step)
    requires ValidRun(t, s, steps) && Enabled(t, Exec(t, s, steps), step)
    ensures ValidRun(t, s, steps + [step]) && Exec(t, s, steps + [step]) == Next(t, Exec(t, s, steps), step)
  {
    var s' := Exec(t, s, steps);
    assert [step][1..] == [];
    assert ValidRun(t, Next(t, s', step), []);
    RunsCompose(t, s, steps, [step]);
  }

  // A request that has passed its check while its token lives runs on to a pair.
  lemma Completes(t: Tokens, s: State, steps: seq<Step>, p: nat) returns (all: seq<Step>)
    requires ValidRun(t, s, steps)
    requires var s' := Exec(t, s, steps);
      && p < |s'.requests| && s'.event > 0
      && s'.requests[p].phase.Finding? && s'.requests[p].job.RefreshJob? && s'.requests[p].landNo == 0
      && s'.requests[p].raw == SomeToken(t)
    ensures ValidRun(t, s, all)
    ensures var s', s'' := Exec(t, s, steps), Exec(t, s, all);
      && |s''.requests| == |s'.requests| && s''.requests[p].phase.Issued? && s''.event > 0
      && s''.requests[p].raw == s'.requests[p].raw && s''.requests[p].checkedAt == s'.requests[p].checkedAt
      && s''.requests[p].checkNo == s'.requests[p].checkNo && s''.clock == s'.clock
      && forall q | 0 <= q < |s'.requests| && q != p :: s''.requests[q] == s'.requests[q]
  {
    all := steps;
    Extend(t, s, all, Do(p, Find(true)));
    all := all + [Do(p, Find(true))];
    Extend(t, s, all, Do(p, Measure));
    all := all + [Do(p, Measure)];
    if Exec(t, s, all).requests[p].ttl > 0 {
      Extend(t, s, all, Do(p, Land));
      all := all + [Do(p, Land)];
    }
    Extend(t, s, all, Do(p, Acknowledge));
    all := all + [Do(p, Acknowledge)];
    Extend(t, s, all, Do(p, Issue));
    all := all + [Do(p, Issue)];
  }

  /** The race is real: two refreshes of one unexpired token can both succeed. */
  lemma TwoRefreshesCanBothSucceed(t: Tokens) returns (steps: seq<Step>)
    requires Usable(t)
    ensures Init(t, Start(t, RefreshJob)) && ValidRun(t, Start(t, RefreshJob), steps)
    ensures var rs := Exec(t, Start(t, RefreshJob), steps).requests;
      |rs| == 2 && rs[0].phase.Issued? && rs[1].phase.Issued? && SameId(t, rs[0], rs[1])
      && !Straddles(rs[0]) && !Straddles(rs[1])
  {
    var s := Start(t, RefreshJob);
    steps := [];
    Extend(t, s, steps, Do(0, Begin));
    steps := steps + [Do(0, Begin)];
    Extend(t, s, steps, Do(1, Begin));
    steps := steps + [Do(1, Begin)];
    Extend(t, s, steps, Do(0, Check));
    steps := steps + [Do(0, Check)];
    Extend(t, s, steps, Do(1, Check));
    steps := steps + [Do(1, Check)];
    steps := Completes(t, s, steps, 0);
    steps := Completes(t, s, steps, 1);
  }

  /** So is straddling: a refresh can succeed after a logout of its token was acknowledged. */
  lemma RefreshCanFollowLogout(t: Tokens) returns (steps: seq<Step>)
    requires Usable(t)
    ensures Init(t, Start(t, LogoutJob)) && ValidRun(t, Start(t, LogoutJob), steps)
    ensures var rs := Exec(t, Start(t, LogoutJob), steps).requests;
      |rs| == 2 && 0 < rs[0].ackNo < rs[1].checkNo && rs[1].phase.Issued? && SameId(t, rs[0], rs[1])
  {
    var s := Start(t, LogoutJob);
    steps := [];
    Extend(t, s, steps, Do(0, Begin));
    steps := steps + [Do(0, Begin)];
    Extend(t, s, steps, Do(0, Measure));
    steps := steps + [Do(0, Measure)];
    Extend(t, s, steps, Do(0, Land));
    steps := steps + [Do(0, Land)];
    Extend(t, s, steps, Do(0, Acknowledge));
    steps := steps + [Do(0, Acknowledge)];
    Extend(t, s, steps, Tick(LIFE - 1));
    steps := steps + [Tick(LIFE - 1)];
    Extend(t, s, steps, Do(1, Begin));
    steps := steps + [Do(1, Begin)];
    Extend(t, s, steps, Tick(LIFE));
    steps := steps + [Tick(LIFE)];
    Extend(t, s, steps, Do(1, Check));
    steps := steps + [Do(1, Check)];
    steps := Completes(t, s, steps, 1);
  }
}
