/**
 What holds of the incident repository over whole runs: the table's constraints, the
 separation of teams, paging, and the composition of patches.
 */
module IncidentRuns {
  import opened Wrappers
  import opened Sorting
  import opened Incidents
  import opened IncidentRepository

  // ----- Constraints ----------------------------------------------------------------

  lemma {:induction false} WithoutKeepsUnique(rows: seq<Incident>, s: Selector)
    requires DistinctIds(rows) && ExternalUnique(rows)
    ensures DistinctIds(Without(rows, s)) && ExternalUnique(Without(rows, s))
  {
    if rows != [] {
      var n := |rows| - 1;
      WithoutKeepsUnique(rows[..n], s);
      WithoutMembers(rows[..n], s);
      forall x | x in Without(rows[..n], s)
        ensures x.id != rows[n].id && !SameExternal(x, rows[n].team, rows[n].externalId) {
        var i :| 0 <= i < n && rows[i] == x;
      }
    }
  }

  lemma PatchKeepsUnique(rows: seq<Incident>, key: Selector, p: Patch, trim: string -> string, now: int)
    requires DistinctIds(rows) && ExternalUnique(rows)
    ensures DistinctIds(PatchRows(rows, key, p, trim, now)) && ExternalUnique(PatchRows(rows, key, p, trim, now))
  {
    var r := PatchRows(rows, key, p, trim, now);
    PatchRowsAt(rows, key, p, trim, now);
    forall i | 0 <= i < |rows|
      ensures r[i].id == rows[i].id && r[i].team == rows[i].team && r[i].externalId == rows[i].externalId {
    }
    forall i, j | 0 <= i < j < |r| ensures !SameExternal(r[i], r[j].team, r[j].externalId) {
      assert !SameExternal(rows[i], rows[j].team, rows[j].externalId);
    }
  }

  lemma PatchKeepsValid(rows: seq<Incident>, key: Selector, p: Patch, trim: string -> string, now: int, teams: set<Id>)
    requires Valid(rows, teams) && forall r | r in Select(rows, key) :: Allowed(Patched(r, p, trim, now))
    ensures Valid(PatchRows(rows, key, p, trim, now), teams)
  {
    var after := PatchRows(rows, key, p, trim, now);
    PatchRowsAt(rows, key, p, trim, now);
    PatchKeepsUnique(rows, key, p, trim, now);
    SelectMembers(rows, key);
    forall i | 0 <= i < |after| ensures Allowed(after[i]) && after[i].team in teams {
      assert rows[i] in rows;
    }
  }

  lemma WithoutKeepsValid(rows: seq<Incident>, s: Selector, teams: set<Id>)
    requires Valid(rows, teams)
    ensures Valid(Without(rows, s), teams)
  {
    WithoutKeepsUnique(rows, s);
    WithoutMembers(rows, s);
  }

  lemma CreateKeepsValid(rows: seq<Incident>, r: Incident, teams: set<Id>)
    requires Valid(rows, teams) && Allowed(r) && r.team in teams && !Taken(rows, r)
    ensures Valid(rows + [r], teams)
  {
    assert forall i | 0 <= i < |rows| :: rows[i] in rows;
  }

  lemma RunKeepsValid(e: Env, op: Op, rows: seq<Incident>)
    requires Valid(rows, e.teams)
    ensures Run(e, op, rows).rows == rows || Valid(Run(e, op, rows).rows, e.teams)
  {
    if Run(e, op, rows).rows != rows {
      match op
      case Create(d, id, now) => CreateKeepsValid(rows, NewRow(d, id, now, e.trim), e.teams);
      case Update(team, id, p, now) => PatchKeepsValid(rows, ByKey(team, id), p, e.trim, now, e.teams);
      case Delete(team, id) => WithoutKeepsValid(rows, ByKey(team, id), e.teams);
    }
  }

  /** Every operation, answered or not, leaves a table that satisfies its constraints. */
  lemma OperationsKeepValid(e: Env, op: Op, io: Call, rows: seq<Incident>)
    requires Valid(rows, e.teams)
    ensures Valid(Observe(e, op, io, rows).rows, e.teams)
  {
    RunKeepsValid(e, op, rows);
  }

  // ----- What a call leaves for the next --------------------------------------------

  // In a sound table an id finds its row.
  lemma OnlyRowFound(rows: seq<Incident>, r: Incident)
    requires DistinctIds(rows) && r in rows
    ensures First(Select(rows, ByKey(r.team, r.id))) == Row(r)
  {
    FirstFinds(rows, ByKey(r.team, r.id));
    var x := First(Select(rows, ByKey(r.team, r.id))).row;
    var i :| 0 <= i < |rows| && rows[i] == r;
    var j :| 0 <= j < |rows| && rows[j] == x;
  }

  /** A created or updated incident is what a read of its id answers next, and a deleted one is not found. */
  lemma ReadAfterWrite(e: Env, op: Op, id: Id, rows: seq<Incident>)
    requires Valid(rows, e.teams) && (op.Create? || op.Update? || op.Delete?) && op.id == id
    ensures var o := Run(e, op, rows); var read := Run(e, GetByID(TeamOf(op), id), o.rows);
      && (o.reply.Row? ==> read.reply == o.reply)
      && (o.reply == Deleted || o.reply == Error(NotFound) ==> read.reply == Error(NotFound))
  {
    var o := Run(e, op, rows);
    RunKeepsValid(e, op, rows);
    FirstFinds(o.rows, ByKey(TeamOf(op), id));
    match op
    case Create(d, _, now) =>
      CreateMeans(e, d, id, now, rows);
      if o.reply.Row? {
        OnlyRowFound(o.rows, o.reply.row);
      }
    case Update(team, _, p, now) =>
      UpdateMeans(e, team, id, p, now, rows);
      FoundExists(o.rows, team, id);
      if o.reply.Row? {
        OnlyRowFound(o.rows, o.reply.row);
      }
    case Delete(team, _) =>
      DeleteMeans(e, team, id, rows);
  }

  // ----- Separation of teams --------------------------------------------------------

  lemma {:induction false} SelectWithin(rows: seq<Incident>, s: Selector)
    ensures Select(Select(rows, OfTeam(s.team)), s) == Select(rows, s)
  {
    if rows != [] {
      var n := |rows| - 1;
      SelectWithin(rows[..n], s);
      var mine := Select(rows[..n], OfTeam(s.team));
      assert (mine + [rows[n]])[..|mine|] == mine;
      assert mine + [] == mine;
    }
  }

  lemma {:induction false} PatchWithin(rows: seq<Incident>, key: Selector, p: Patch, trim: string -> string,
                                       now: int, team: Id)
    ensures Select(PatchRows(rows, key, p, trim, now), OfTeam(team))
         == if key.team == team
            then PatchRows(Select(rows, OfTeam(team)), key, p, trim, now)
            else Select(rows, OfTeam(team))
  {
    if rows != [] {
      var n := |rows| - 1;
      PatchWithin(rows[..n], key, p, trim, now, team);
      var after := PatchRows(rows, key, p, trim, now);
      assert after[..n] == PatchRows(rows[..n], key, p, trim, now);
      var mine := Select(rows[..n], OfTeam(team));
      assert (mine + [rows[n]])[..|mine|] == mine;
      assert mine + [] == mine;
    }
  }

  lemma AppendWithin(rows: seq<Incident>, r: Incident, team: Id)
    ensures Select(rows + [r], OfTeam(team)) ==
      if r.team == team then Select(rows, OfTeam(team)) + [r] else Select(rows, OfTeam(team))
  {
    assert (rows + [r])[..|rows|] == rows;
  }

  lemma AppendWithout(rows: seq<Incident>, r: Incident, key: Selector)
    ensures Without(rows + [r], key) == if Selects(key, r) then Without(rows, key) else Without(rows, key) + [r]
  {
    assert (rows + [r])[..|rows|] == rows;
  }

  lemma {:induction false} WithoutWithin(rows: seq<Incident>, key: Selector, team: Id)
    ensures Select(Without(rows, key), OfTeam(team))
         == if key.team == team then Without(Select(rows, OfTeam(team)), key) else Select(rows, OfTeam(team))
  {
    if rows != [] {
      var rest, r := rows[..|rows| - 1], rows[|rows| - 1];
      assert rows == rest + [r];
      WithoutWithin(rest, key, team);
      AppendWithin(rest, r, team);
      AppendWithout(rest, r, key);
      AppendWithin(Without(rest, key), r, team);
      AppendWithout(Select(rest, OfTeam(team)), r, key);
    }
  }

  predicate FreshId(op: Op, rows: seq<Incident>) {
    op.Create? ==> forall r | r in rows :: r.id != op.id
  }

  lemma TakenWithin(rows: seq<Incident>, r: Incident)
    requires forall x | x in rows :: x.id != r.id
    ensures Taken(Select(rows, OfTeam(r.team)), r) == Taken(rows, r)
  {
    SelectMembers(rows, OfTeam(r.team));
  }

  // An update that changes the table changes the team's part of it.
  lemma OwnUpdate(e: Env, team: Id, id: Id, p: Patch, now: int, rows: seq<Incident>)
    ensures var t, o := OfTeam(team), Run(e, Update(team, id, p, now), rows);
      Run(e, Update(team, id, p, now), Select(rows, t)) == Outcome(o.reply, Select(o.rows, t))
  {
    var key := ByKey(team, id);
    var mine, found := Select(rows, OfTeam(team)), Select(rows, key);
    SelectWithin(rows, key);
    assert Select(mine, key) == found;
    if EmptyPatch(p) || found == [] {
      assert Run(e, Update(team, id, p, now), mine) == Outcome(First(found), mine);
    } else if exists r :: r in found && !Allowed(Patched(r, p, e.trim, now)) {
      assert Run(e, Update(team, id, p, now), mine) == Outcome(Error(Failed), mine);
    } else {
      PatchWithin(rows, key, p, e.trim, now, team);
    }
  }

  lemma OwnDelete(e: Env, team: Id, id: Id, rows: seq<Incident>)
    ensures var t, o := OfTeam(team), Run(e, Delete(team, id), rows);
      Run(e, Delete(team, id), Select(rows, t)) == Outcome(o.reply, Select(o.rows, t))
  {
    SelectWithin(rows, ByKey(team, id));
    WithoutWithin(rows, ByKey(team, id), team);
  }

  lemma OwnCreate(e: Env, d: Draft, id: Id, now: int, rows: seq<Incident>)
    requires FreshId(Create(d, id, now), rows)
    ensures var t, o := OfTeam(d.team), Run(e, Create(d, id, now), rows);
      Run(e, Create(d, id, now), Select(rows, t)) == Outcome(o.reply, Select(o.rows, t))
  {
    TakenWithin(rows, NewRow(d, id, now, e.trim));
    AppendWithin(rows, NewRow(d, id, now, e.trim), d.team);
  }

  // One operation of a team is answered by, and changes, that team's rows alone.
  lemma OwnOperation(e: Env, op: Op, rows: seq<Incident>)
    requires FreshId(op, rows)
    ensures var t := OfTeam(TeamOf(op)); var o := Run(e, op, rows);
      Run(e, op, Select(rows, t)) == Outcome(o.reply, Select(o.rows, t))
  {
    match op
    case Create(d, id, now) =>
      OwnCreate(e, d, id, now, rows);
    case GetByID(team, id) =>
      SelectWithin(rows, ByKey(team, id));
    case FindByExternalID(team, x) =>
      SelectWithin(rows, ByExternal(team, x));
    case List(team, f) =>
      SelectWithin(rows, ByFilter(team, f));
    case Update(team, id, p, now) =>
      OwnUpdate(e, team, id, p, now, rows);
    case Delete(team, id) =>
      OwnDelete(e, team, id, rows);
  }

  lemma OthersOperation(e: Env, op: Op, rows: seq<Incident>, team: Id)
    requires team != TeamOf(op)
    ensures Select(Run(e, op, rows).rows, OfTeam(team)) == Select(rows, OfTeam(team))
  {
    match op
    case Create(d, id, now) => AppendWithin(rows, NewRow(d, id, now, e.trim), team);
    case Update(t, id, p, now) => PatchWithin(rows, ByKey(t, id), p, e.trim, now, team);
    case Delete(t, id) => WithoutWithin(rows, ByKey(t, id), team);
    case _ =>
  }

  datatype Request = Request(op: Op, io: Call)

  // Ids are unused when they are generated.
  ghost predicate FreshRun(e: Env, requests: seq<Request>, rows: seq<Incident>) {
    requests == [] || (FreshId(requests[0].op, rows)
      && FreshRun(e, requests[1..], Observe(e, requests[0].op, requests[0].io, rows).rows))
  }

  // What the requests of one team are answered, in order.
  function RepliesTo(e: Env, team: Id, requests: seq<Request>, rows: seq<Incident>): seq<Reply> {
    if requests == [] then [] else
    var o := Observe(e, requests[0].op, requests[0].io, rows);
    (if TeamOf(requests[0].op) == team then [o.reply] else []) + RepliesTo(e, team, requests[1..], o.rows)
  }

  function RequestsOf(team: Id, requests: seq<Request>): seq<Request> {
    if requests == [] then [] else
    (if TeamOf(requests[0].op) == team then [requests[0]] else []) + RequestsOf(team, requests[1..])
  }

  /**
   In any mixed run, with any replies lost, what a team is answered is what it would be
   answered if no other team existed: neither their rows nor their requests show, not even
   in a conflict or in a row not found.
   */
  lemma {:induction false} TeamsAreSeparate(e: Env, team: Id, requests: seq<Request>, rows: seq<Incident>)
    requires FreshRun(e, requests, rows)
    ensures RepliesTo(e, team, requests, rows)
         == RepliesTo(e, team, RequestsOf(team, requests), Select(rows, OfTeam(team)))
    decreases |requests|
  {
    if requests != [] {
      var r := requests[0];
      var o := Observe(e, r.op, r.io, rows);
      TeamsAreSeparate(e, team, requests[1..], o.rows);
      if TeamOf(r.op) == team {
        OwnOperation(e, r.op, rows);
        var own := RequestsOf(team, requests);
        assert own[0] == r && own[1..] == RequestsOf(team, requests[1..]);
        var o' := Observe(e, r.op, r.io, Select(rows, OfTeam(team)));
        assert o' == Outcome(o.reply, Select(o.rows, OfTeam(team)));
        assert RepliesTo(e, team, own, Select(rows, OfTeam(team)))
            == [o'.reply] + RepliesTo(e, team, own[1..], o'.rows);
      } else {
        OthersOperation(e, r.op, rows, team);
        assert RequestsOf(team, requests) == RequestsOf(team, requests[1..]);
        assert RepliesTo(e, team, requests, rows) == RepliesTo(e, team, requests[1..], o.rows);
      }
    }
  }

  // ----- Paging ---------------------------------------------------------------------

  lemma NewestFirstIsOrder()
    ensures StrictWeakOrder(NewestFirst)
  {
  }

  lemma {:induction false} SelectDistinct(rows: seq<Incident>, s: Selector)
    requires DistinctIds(rows)
    ensures DistinctIds(Select(rows, s))
  {
    if rows != [] {
      var n := |rows| - 1;
      SelectDistinct(rows[..n], s);
      SelectMembers(rows[..n], s);
      forall x | x in Select(rows[..n], s) ensures x.id != rows[n].id {
        var i :| 0 <= i < n && rows[i] == x;
      }
    }
  }

  lemma {:induction false} SelectPermutes(rows: seq<Incident>, rows': seq<Incident>, s: Selector)
    requires multiset(rows) == multiset(rows')
    ensures multiset(Select(rows, s)) == multiset(Select(rows', s))
  {
    SelectCounts(rows, s);
    SelectCounts(rows', s);
    assert forall x :: multiset(Select(rows, s))[x] == multiset(Select(rows', s))[x];
  }

  lemma {:induction false} SelectCounts(rows: seq<Incident>, s: Selector)
    ensures forall x :: multiset(Select(rows, s))[x] == if Selects(s, x) then multiset(rows)[x] else 0
  {
    if rows != [] {
      var n := |rows| - 1;
      SelectCounts(rows[..n], s);
      assert rows == rows[..n] + [rows[n]];
    }
  }

  // Without two rows of one id, no two elements tie.
  lemma DistinctIdsNoTies(s: seq<Incident>, t: seq<Incident>)
    requires DistinctIds(s) && multiset(t) == multiset(s)
    ensures forall x, y | x in t && y in t && Equivalent(x, y, NewestFirst) :: x == y
    ensures forall x, y | x in t && y in t && x.id == y.id :: x == y
  {
    forall x, y | x in t && y in t && x.id == y.id ensures x == y {
      assert x in multiset(s) && y in multiset(s);
      var i :| 0 <= i < |s| && s[i] == x;
      var j :| 0 <= j < |s| && s[j] == y;
    }
  }

  lemma ListingSorts(rows: seq<Incident>, team: Id, f: Filter)
    requires DistinctIds(rows)
    ensures var all := Listing(rows, team, f);
      && Sorted(all, NewestFirst) && DistinctIds(Select(rows, ByFilter(team, f)))
      && multiset(all) == multiset(Select(rows, ByFilter(team, f)))
      && forall x, y | x in all && y in all && Equivalent(x, y, NewestFirst) :: x == y
  {
    var s := Select(rows, ByFilter(team, f));
    NewestFirstIsOrder();
    SelectDistinct(rows, ByFilter(team, f));
    StableSortStablySorts(s, NewestFirst);
    StableSortPermutes(s, NewestFirst);
    DistinctIdsNoTies(s, Listing(rows, team, f));
  }

  /** The physical order of the table does not show in a listing. */
  lemma ListingIgnoresHeapOrder(rows: seq<Incident>, rows': seq<Incident>, team: Id, f: Filter)
    requires DistinctIds(rows) && multiset(rows') == multiset(rows)
    ensures Listing(rows', team, f) == Listing(rows, team, f)
  {
    NewestFirstIsOrder();
    ListingSorts(rows, team, f);
    SelectPermutes(rows, rows', ByFilter(team, f));
    StableSortStablySorts(Select(rows', ByFilter(team, f)), NewestFirst);
    StableSortPermutes(Select(rows', ByFilter(team, f)), NewestFirst);
    SortedPermutationsAgree(Listing(rows, team, f), Listing(rows', team, f), NewestFirst);
  }

  /**
   The whole listing is exactly the team's matching incidents, each as often as the table
   has it, newest first and by descending id among those that started together.
   */
  lemma ListingIsExact(rows: seq<Incident>, team: Id, f: Filter)
    requires DistinctIds(rows)
    ensures var all := Listing(rows, team, f);
      && (forall r :: r in all <==>
            && r in rows && r.team == team
            && (f.status == [] || r.status in f.status)
            && (f.severity == [] || r.severity in f.severity)
            && (f.source == [] || r.source in f.source))
      && |all| == |set r | r in all|
      && (forall i, j | 0 <= i < j < |all| ::
            all[i].startedAt > all[j].startedAt || (all[i].startedAt == all[j].startedAt && all[i].id > all[j].id))
  {
    var s, all := Select(rows, ByFilter(team, f)), Listing(rows, team, f);
    ListingSorts(rows, team, f);
    SelectMembers(rows, ByFilter(team, f));
    PermutedIdsDiffer(s, all);
    forall i, j | 0 <= i < j < |all| ensures NewestFirst(all[i], all[j]) {
      assert !NewestFirst(all[j], all[i]) && all[i].id != all[j].id;
    }
    DistinctCount(all);
  }

  lemma PermutedIdsDiffer(s: seq<Incident>, t: seq<Incident>)
    requires DistinctIds(s) && multiset(t) == multiset(s)
    ensures DistinctIds(t)
    ensures forall r :: r in t <==> r in s
  {
    PermutedNoRepeats(s, t);
    DistinctIdsNoTies(s, t);
    forall i, j | 0 <= i < j < |t| ensures t[i].id != t[j].id {
      assert t[i] in t && t[j] in t && t[i] != t[j];
    }
  }

  lemma {:induction false} DistinctCount(s: seq<Incident>)
    requires DistinctIds(s)
    ensures |set r | r in s| == |s|
  {
    if s != [] {
      DistinctCount(s[1..]);
      assert s[0] !in s[1..];
      assert (set r | r in s) == (set r | r in s[1..]) + {s[0]};
    }
  }

  // Where page n starts, n pages of the clamped limit on.
  function PageStart(f: Filter, n: nat): nat {
    if n == 0 then 0 else PageStart(f, n - 1) + Bounds(f).0
  }

  lemma {:induction false} PageStartIs(f: Filter, n: nat)
    ensures PageStart(f, n) == n * Bounds(f).0
  {
    if n > 0 {
      PageStartIs(f, n - 1);
    }
  }

  function PageAt(rows: seq<Incident>, team: Id, f: Filter, from: nat): seq<Incident> {
    ListPage(rows, team, f.(offset := from)).incidents
  }

  // The first n pages put end to end.
  function Pages(rows: seq<Incident>, team: Id, f: Filter, n: nat): seq<Incident> {
    if n == 0 then [] else Pages(rows, team, f, n - 1) + PageAt(rows, team, f, PageStart(f, n - 1))
  }

  lemma SlicesJoin(s: seq<Incident>, from: nat, limit: nat)
    ensures Slice(s, 0, from) + Slice(s, from, limit) == Slice(s, 0, from + limit)
  {
  }

  lemma NextPage(rows: seq<Incident>, team: Id, f: Filter, from: nat)
    ensures var all := Listing(rows, team, f);
      Slice(all, 0, from) + PageAt(rows, team, f, from) == Slice(all, 0, from + Bounds(f).0)
  {
    SameSelection(rows, team, f, f.(offset := from));
    SlicesJoin(Listing(rows, team, f), from, Bounds(f).0);
  }

  lemma {:induction false} PagesJoin(rows: seq<Incident>, team: Id, f: Filter, n: nat)
    ensures Pages(rows, team, f, n) == Slice(Listing(rows, team, f), 0, PageStart(f, n))
  {
    if n > 0 {
      PagesJoin(rows, team, f, n - 1);
      NextPage(rows, team, f, PageStart(f, n - 1));
    }
  }

  /** Paging through an unchanging table gives the whole listing, in order, each row once. */
  lemma PagesAreTheListing(rows: seq<Incident>, team: Id, f: Filter, n: nat)
    ensures Pages(rows, team, f, n) == Slice(Listing(rows, team, f), 0, n * Bounds(f).0)
    ensures |Listing(rows, team, f)| <= n * Bounds(f).0 ==> Pages(rows, team, f, n) == Listing(rows, team, f)
  {
    PagesJoin(rows, team, f, n);
    PageStartIs(f, n);
  }

  lemma {:induction false} SameSelection(rows: seq<Incident>, team: Id, f: Filter, g: Filter)
    requires g == f.(offset := g.offset)
    ensures Select(rows, ByFilter(team, g)) == Select(rows, ByFilter(team, f))
  {
    if rows != [] {
      SameSelection(rows[..|rows| - 1], team, f, g);
    }
  }

  /**
   The reported total is the number of matches exactly when the page has a row or there
   is no match at all: past the last match it is reported as 0.
   */
  lemma TotalIsCountIff(rows: seq<Incident>, team: Id, f: Filter)
    ensures var count := |Select(rows, ByFilter(team, f))|;
      && (ListPage(rows, team, f).total == count <==> Bounds(f).1 < count || count == 0)
      && (ListPage(rows, team, f).incidents != [] <==> Bounds(f).1 < count)
      && (Bounds(f).1 >= count ==> ListPage(rows, team, f).total == 0)
  {
  }

  // One incident, and a page that starts after it: no rows, and a total of 0.
  lemma EmptyPageLosesTotal(r: Incident)
    ensures var f := Filter([], [], [], 0, 1);
      ListPage([r], r.team, f) == Page([], 0) && |Select([r], ByFilter(r.team, f))| == 1
  {
    assert [r][..0] == [];
    var f := Filter([], [], [], 0, 1);
    assert Select([r], ByFilter(r.team, f)) == Select([], ByFilter(r.team, f)) + [r];
  }

  // ----- Patches --------------------------------------------------------------------

  function Later<T>(first: Option<T>, second: Option<T>): Option<T> {
    if second.Some? then second else first
  }

  // Field by field, the later patch wins; setting and clearing resolved_at are one field.
  function Merge(p: Patch, q: Patch): Patch {
    Patch(Later(p.title, q.title), Later(p.description, q.description),
          Later(p.severity, q.severity), Later(p.status, q.status),
          Later(p.resolvedAt, q.resolvedAt),
          q.clearResolvedAt || (p.clearResolvedAt && q.resolvedAt.None?))
  }

  lemma PatchedTwice(r: Incident, p: Patch, q: Patch, trim: string -> string, t1: int, t2: int, t: int)
    ensures Patched(Patched(r, p, trim, t1), q, trim, t2).(updatedAt := t) == Patched(r, Merge(p, q), trim, t)
  {
  }

  // An answered update of one row, and what the row's key selects afterwards.
  lemma AnsweredUpdate(e: Env, team: Id, id: Id, p: Patch, now: int, rows: seq<Incident>) returns (r: Incident)
    requires DistinctIds(rows) && Run(e, Update(team, id, p, now), rows).reply.Row?
    ensures Select(rows, ByKey(team, id)) == [r]
    ensures var o := Run(e, Update(team, id, p, now), rows);
      var r' := if EmptyPatch(p) then r else Patched(r, p, e.trim, now);
      && o.reply == Row(r') && Select(o.rows, ByKey(team, id)) == [r']
      && (EmptyPatch(p) || Allowed(r'))
      && DistinctIds(o.rows)
  {
    var key := ByKey(team, id);
    OneRow(rows, key);
    r := Select(rows, key)[0];
    SelectMembers(rows, key);
    assert r in Select(rows, key);
    PatchedSelection(rows, key, p, e.trim, now);
    assert Select(rows, key) == [r];
    assert PatchRows([r], key, p, e.trim, now) == [Patched(r, p, e.trim, now)] by {
      PatchRowsAt([r], key, p, e.trim, now);
    }
    PatchRowsAt(rows, key, p, e.trim, now);
  }

  // Updates answer for a row exactly when the patch leaves it allowed.
  lemma UpdateOfOne(e: Env, team: Id, id: Id, p: Patch, now: int, rows: seq<Incident>, r: Incident)
    requires Select(rows, ByKey(team, id)) == [r]
    requires EmptyPatch(p) || Allowed(Patched(r, p, e.trim, now))
    ensures Run(e, Update(team, id, p, now), rows).reply == Row(if EmptyPatch(p) then r else Patched(r, p, e.trim, now))
  {
  }

  /**
   Two updates of one incident in a row, both answered, leave the row that the merged
   patch leaves in one update, but for updated_at; the merged patch is never refused.
   */
  lemma PatchesCompose(e: Env, team: Id, id: Id, p: Patch, q: Patch, t1: int, t2: int, rows: seq<Incident>)
    requires Valid(rows, e.teams)
    requires Run(e, Update(team, id, p, t1), rows).reply.Row?
    requires Run(e, Update(team, id, q, t2), Run(e, Update(team, id, p, t1), rows).rows).reply.Row?
    ensures var mid := Run(e, Update(team, id, p, t1), rows).rows;
      var twice, once := Run(e, Update(team, id, q, t2), mid), Run(e, Update(team, id, Merge(p, q), t2), rows);
      && once.reply.Row?
      && twice.reply.row.(updatedAt := t2) == once.reply.row.(updatedAt := t2)
  {
    var mid := Run(e, Update(team, id, p, t1), rows).rows;
    var r := AnsweredUpdate(e, team, id, p, t1, rows);
    var r' := AnsweredUpdate(e, team, id, q, t2, mid);
    SelectMembers(rows, ByKey(team, id));
    assert r in Select(rows, ByKey(team, id));
    PatchedTwice(r, p, q, e.trim, t1, t2, t2);
    UpdateOfOne(e, team, id, Merge(p, q), t2, rows, r);
  }

  lemma {:induction false} PatchedSelection(rows: seq<Incident>, key: Selector, p: Patch,
                                            trim: string -> string, now: int)
    requires key.ByKey?
    ensures Select(PatchRows(rows, key, p, trim, now), key) == PatchRows(Select(rows, key), key, p, trim, now)
  {
    if rows != [] {
      var n := |rows| - 1;
      PatchedSelection(rows[..n], key, p, trim, now);
      assert PatchRows(rows, key, p, trim, now)[..n] == PatchRows(rows[..n], key, p, trim, now);
      var s := Select(rows[..n], key);
      assert (s + [rows[n]])[..|s|] == s && s + [] == s;
    }
  }

  lemma OneRow(rows: seq<Incident>, key: Selector)
    requires DistinctIds(rows) && key.ByKey?
    ensures |Select(rows, key)| <= 1
  {
    SelectDistinct(rows, key);
    var s := Select(rows, key);
    if |s| > 1 {
      assert s[0].id != s[1].id;
    }
    SelectMembers(rows, key);
    forall i | 0 <= i < |s| ensures s[i].id == key.id {
      assert s[i] in s;
    }
  }

  /** The empty patch changes nothing, not even updated_at, and answers as GetByID does. */
  lemma EmptyPatchIsIdentity(e: Env, team: Id, id: Id, p: Patch, now: int, rows: seq<Incident>)
    requires EmptyPatch(p)
    ensures Run(e, Update(team, id, p, now), rows) == Run(e, GetByID(team, id), rows)
    ensures Run(e, Update(team, id, p, now), rows).rows == rows
  {
  }
}
