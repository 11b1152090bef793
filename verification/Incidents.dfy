/**
 The incident repository of internal/repository/incident.go over the incidents table of
 migrations/0003_incidents.sql.

 The queries List and Update build at run time are small syntax trees with numbered
 placeholders and a separate list of arguments; evaluating them is defined here, and the
 two builders are proved to mean what the direct definitions below them say. The table is
 its rows in some physical order; ids are numbers in the order of their bytes.
 */
module Incidents {
  import opened Wrappers
  import opened Sorting
  import Strings = Text

  type Id = nat

  datatype Incident = Incident(id: Id, team: Id, externalId: Option<string>, title: string, description: string,
                               severity: string, status: string, source: string,
                               startedAt: int, resolvedAt: Option<int>, metadata: string,
                               createdAt: int, updatedAt: int)

  // ----- Constraints of the table ---------------------------------------------------

  const SEVERITIES := {"P1", "P2", "P3", "P4"}
  const STATUSES := {"open", "processing", "analysis_ready", "resolved"}
  const SOURCES := {"manual", "pagerduty", "datadog", "slack", "simulation"}
  const MAX_TITLE := 500

  predicate Allowed(r: Incident) {
    && (r.externalId.Some? ==> Strings.BTrim(r.externalId.value) != "")
    && 1 <= |Strings.BTrim(r.title)| <= MAX_TITLE
    && r.severity in SEVERITIES && r.status in STATUSES && r.source in SOURCES
    && (r.resolvedAt.Some? ==> r.startedAt <= r.resolvedAt.value)
  }

  ghost predicate DistinctIds(rows: seq<Incident>) {
    forall i, j | 0 <= i < j < |rows| :: rows[i].id != rows[j].id
  }

  predicate SameExternal(r: Incident, team: Id, externalId: Option<string>) {
    r.team == team && externalId.Some? && r.externalId == externalId
  }

  // At most one incident per external id per team; absent ids do not collide.
  ghost predicate ExternalUnique(rows: seq<Incident>) {
    forall i, j | 0 <= i < j < |rows| :: !SameExternal(rows[i], rows[j].team, rows[j].externalId)
  }

  ghost predicate Valid(rows: seq<Incident>, teams: set<Id>) {
    && DistinctIds(rows) && ExternalUnique(rows)
    && forall r | r in rows :: Allowed(r) && r.team in teams
  }

  // ----- Direct definitions ---------------------------------------------------------

  const DEFAULT_LIMIT := 25
  const MAX_LIMIT := 100

  datatype Filter = Filter(status: seq<string>, severity: seq<string>, source: seq<string>, limit: int, offset: int)

  datatype Page = Page(incidents: seq<Incident>, total: nat)

  function Bounds(f: Filter): (r: (nat, nat))
    ensures 1 <= r.0 <= MAX_LIMIT
  {
    (if f.limit <= 0 then DEFAULT_LIMIT else if f.limit > MAX_LIMIT then MAX_LIMIT else f.limit,
     if f.offset < 0 then 0 else f.offset)
  }

  function Distance(a: int, b: int): nat { if a < b then b - a else a - b }

  /**
   A missing limit gives the default page; any other is replaced by the nearest one from 1
   to the maximum, and the offset by the nearest that is not negative. Bounds that are
   already in range are kept.
   */
  lemma BoundsAreNearest(f: Filter, limit: int, offset: int)
    requires 1 <= limit <= 100 && 0 <= offset
    ensures 1 <= Bounds(f).0 <= 100 && (f.limit <= 0 ==> Bounds(f).0 == 25)
    ensures f.limit > 0 ==> Distance(Bounds(f).0, f.limit) <= Distance(limit, f.limit)
    ensures Distance(Bounds(f).1, f.offset) <= Distance(offset, f.offset)
    ensures Bounds(f.(limit := limit, offset := offset)) == (limit, offset)
  {
  }

  datatype Selector =
    | OfTeam(team: Id)
    | ByKey(team: Id, id: Id)
    | ByExternal(team: Id, externalId: string)
    | ByFilter(team: Id, filter: Filter)

  predicate Selects(s: Selector, r: Incident) {
    r.team == s.team &&
    match s
    case OfTeam(_) => true
    case ByKey(_, id) => r.id == id
    case ByExternal(_, e) => r.externalId == Some(e)
    case ByFilter(_, f) =>
      && (f.status == [] || r.status in f.status)
      && (f.severity == [] || r.severity in f.severity)
      && (f.source == [] || r.source in f.source)
  }

  function Select(rows: seq<Incident>, s: Selector): seq<Incident> {
    if rows == [] then [] else
    var n := |rows| - 1;
    Select(rows[..n], s) + if Selects(s, rows[n]) then [rows[n]] else []
  }

  lemma {:induction false} SelectMembers(rows: seq<Incident>, s: Selector)
    ensures forall x :: x in Select(rows, s) <==> x in rows && Selects(s, x)
  {
    if rows != [] {
      SelectMembers(rows[..|rows| - 1], s);
    }
  }

  predicate NewestFirst(a: Incident, b: Incident) {
    a.startedAt > b.startedAt || (a.startedAt == b.startedAt && a.id > b.id)
  }

  function Slice(s: seq<Incident>, offset: nat, limit: nat): seq<Incident> {
    var from := if offset < |s| then offset else |s|;
    var to := if offset + limit < |s| then offset + limit else |s|;
    s[from..to]
  }

  function Listing(rows: seq<Incident>, team: Id, f: Filter): seq<Incident> {
    StableSort(Select(rows, ByFilter(team, f)), NewestFirst)
  }

  // The total travels on the rows, so an empty page carries none.
  function ListPage(rows: seq<Incident>, team: Id, f: Filter): Page {
    var all := Listing(rows, team, f);
    var page := Slice(all, Bounds(f).1, Bounds(f).0);
    Page(page, if page == [] then 0 else |all|)
  }

  datatype Patch = Patch(title: Option<string>, description: Option<string>, severity: Option<string>,
                         status: Option<string>, resolvedAt: Option<int>, clearResolvedAt: bool)

  predicate EmptyPatch(p: Patch) {
    p == Patch(None, None, None, None, None, false)
  }

  function Or(o: Option<string>, default: string): string {
    if o.Some? then o.value else default
  }

  // trim is Go's strings.TrimSpace.
  function Patched(r: Incident, p: Patch, trim: string -> string, now: int): Incident {
    Incident(r.id, r.team, r.externalId,
             if p.title.Some? then trim(p.title.value) else r.title,
             Or(p.description, r.description), Or(p.severity, r.severity), Or(p.status, r.status),
             r.source, r.startedAt,
             if p.clearResolvedAt then None else if p.resolvedAt.Some? then p.resolvedAt else r.resolvedAt,
             r.metadata, r.createdAt, now)
  }

  // ----- The SQL fragment -----------------------------------------------------------

  datatype Value = IdValue(id: Id) | Text(s: string) | Time(t: int) | Number(n: nat) | Texts(ss: seq<string>)

  datatype Column = IdColumn | TeamColumn | Title | Description | Severity | Status | Source | ResolvedAt

  // $n in the query text.
  type Placeholder = n: nat | 1 <= n witness 1

  datatype Cond = Equals(column: Column, arg: Placeholder) | AnyOf(column: Column, arg: Placeholder)

  datatype SelectQuery = SelectQuery(conds: seq<Cond>, limit: Placeholder, offset: Placeholder)

  datatype Assignment = SetTo(column: Column, arg: Placeholder) | SetNull(column: Column)

  datatype UpdateQuery = UpdateQuery(sets: seq<Assignment>, conds: seq<Cond>)

  predicate Fits(column: Column, v: Value) {
    match column
    case IdColumn => v.IdValue?
    case TeamColumn => v.IdValue?
    case ResolvedAt => v.Time?
    case _ => v.Text?
  }

  // The column's value; None is NULL.
  function Read(r: Incident, column: Column): Option<Value> {
    match column
    case IdColumn => Some(IdValue(r.id))
    case TeamColumn => Some(IdValue(r.team))
    case Title => Some(Text(r.title))
    case Description => Some(Text(r.description))
    case Severity => Some(Text(r.severity))
    case Status => Some(Text(r.status))
    case Source => Some(Text(r.source))
    case ResolvedAt => if r.resolvedAt.Some? then Some(Time(r.resolvedAt.value)) else None
  }

  function Write(r: Incident, column: Column, v: Option<Value>): Incident
    requires v.Some? ==> Fits(column, v.value)
  {
    match column
    case IdColumn => if v.Some? then r.(id := v.value.id) else r
    case TeamColumn => if v.Some? then r.(team := v.value.id) else r
    case Title => if v.Some? then r.(title := v.value.s) else r
    case Description => if v.Some? then r.(description := v.value.s) else r
    case Severity => if v.Some? then r.(severity := v.value.s) else r
    case Status => if v.Some? then r.(status := v.value.s) else r
    case Source => if v.Some? then r.(source := v.value.s) else r
    case ResolvedAt => r.(resolvedAt := if v.Some? then Some(v.value.t) else None)
  }

  predicate CondTyped(c: Cond, args: seq<Value>) {
    c.arg <= |args| &&
    match c
    case Equals(column, n) => Fits(column, args[n - 1])
    case AnyOf(column, n) => args[n - 1].Texts? && Fits(column, Text(""))
  }

  predicate Holds(c: Cond, args: seq<Value>, r: Incident)
    requires CondTyped(c, args)
  {
    match c
    case Equals(column, n) => Read(r, column) == Some(args[n - 1])
    case AnyOf(column, n) =>
      var v := Read(r, column);
      v.Some? && v.value.Text? && v.value.s in args[n - 1].ss
  }

  predicate AllTyped(conds: seq<Cond>, args: seq<Value>) {
    forall c | c in conds :: CondTyped(c, args)
  }

  predicate AllHold(conds: seq<Cond>, args: seq<Value>, r: Incident)
    requires AllTyped(conds, args)
  {
    forall c | c in conds :: Holds(c, args, r)
  }

  function Where(rows: seq<Incident>, conds: seq<Cond>, args: seq<Value>): seq<Incident>
    requires AllTyped(conds, args)
  {
    if rows == [] then [] else
    var n := |rows| - 1;
    Where(rows[..n], conds, args) + if AllHold(conds, args, rows[n]) then [rows[n]] else []
  }

  predicate SelectTyped(q: SelectQuery, args: seq<Value>) {
    && AllTyped(q.conds, args)
    && q.limit <= |args| && args[q.limit - 1].Number?
    && q.offset <= |args| && args[q.offset - 1].Number?
  }

  // Rows in the order of the query, each with count(*) OVER ().
  function EvalSelect(q: SelectQuery, args: seq<Value>, rows: seq<Incident>): (seq<Incident>, nat)
    requires SelectTyped(q, args)
  {
    var all := StableSort(Where(rows, q.conds, args), NewestFirst);
    (Slice(all, args[q.offset - 1].n, args[q.limit - 1].n), |all|)
  }

  predicate AssignmentTyped(a: Assignment, args: seq<Value>) {
    match a
    case SetTo(column, n) => n <= |args| && Fits(column, args[n - 1])
    case SetNull(column) => column == ResolvedAt
  }

  predicate UpdateTyped(q: UpdateQuery, args: seq<Value>) {
    && AllTyped(q.conds, args)
    && (forall a | a in q.sets :: AssignmentTyped(a, args))
    && (forall i, j | 0 <= i < j < |q.sets| :: q.sets[i].column != q.sets[j].column)
  }

  function Assign(r: Incident, sets: seq<Assignment>, args: seq<Value>): Incident
    requires forall a | a in sets :: AssignmentTyped(a, args)
  {
    if sets == [] then r else
    var n := |sets| - 1;
    var before := Assign(r, sets[..n], args);
    assert sets[n] in sets && AssignmentTyped(sets[n], args);
    match sets[n]
    case SetTo(column, k) => Write(before, column, Some(args[k - 1]))
    case SetNull(column) => Write(before, column, None)
  }

  // What an UPDATE makes of one row, with the trigger's timestamp.
  function Updated(q: UpdateQuery, args: seq<Value>, r: Incident, now: int): Incident
    requires UpdateTyped(q, args)
  {
    if AllHold(q.conds, args, r) then Assign(r, q.sets, args).(updatedAt := now) else r
  }

  function Placeholders(conds: seq<Cond>): seq<nat> {
    seq(|conds|, i requires 0 <= i < |conds| => conds[i].arg)
  }

  function SetPlaceholders(sets: seq<Assignment>): seq<nat> {
    if sets == [] then [] else
    var n := |sets| - 1;
    SetPlaceholders(sets[..n]) + if sets[n].SetTo? then [sets[n].arg] else []
  }

  // 1, 2, ..., n in this order: each argument used once, in its place.
  ghost predicate Numbered(ps: seq<nat>, n: nat) {
    |ps| == n && forall i | 0 <= i < n :: ps[i] == i + 1
  }

  // ----- Building the listing query -------------------------------------------------

  // The conditions so far select what s selects, and use the arguments in order.
  ghost predicate Means(conds: seq<Cond>, args: seq<Value>, s: Selector) {
    && AllTyped(conds, args)
    && Numbered(Placeholders(conds), |args|)
    && forall r :: AllHold(conds, args, r) <==> Selects(s, r)
  }

  lemma AddsCondition(conds: seq<Cond>, args: seq<Value>, s: Selector, column: Column, values: seq<string>,
                      s': Selector)
    requires Means(conds, args, s) && Fits(column, Text(""))
    requires forall r :: Selects(s', r) <==>
      Selects(s, r) && Read(r, column).Some? && Read(r, column).value.Text? && Read(r, column).value.s in values
    ensures Means(conds + [AnyOf(column, |args| + 1)], args + [Texts(values)], s')
  {
    var c, args' := AnyOf(column, |args| + 1), args + [Texts(values)];
    forall d | d in conds ensures CondTyped(d, args') {
      assert CondTyped(d, args);
    }
    forall r ensures AllHold(conds + [c], args', r) <==> Selects(s', r) {
      assert forall d | d in conds :: CondTyped(d, args) && Holds(d, args', r) == Holds(d, args, r);
      assert AllHold(conds, args, r) <==> Selects(s, r);
      assert c in conds + [c];
      assert Holds(c, args', r) <==>
        Read(r, column).Some? && Read(r, column).value.Text? && Read(r, column).value.s in values;
    }
    var ps, ps' := Placeholders(conds), Placeholders(conds + [c]);
    forall i | 0 <= i < |ps'| ensures ps'[i] == i + 1 {
      assert i < |ps| ==> ps'[i] == ps[i];
    }
  }

  lemma {:induction false} WhereIsSelect(rows: seq<Incident>, conds: seq<Cond>, args: seq<Value>, s: Selector)
    requires Means(conds, args, s)
    ensures Where(rows, conds, args) == Select(rows, s)
  {
    if rows != [] {
      var n := |rows| - 1;
      WhereIsSelect(rows[..n], conds, args, s);
      assert AllHold(conds, args, rows[n]) <==> Selects(s, rows[n]);
    }
  }

  // LIMIT and OFFSET come last and leave the conditions as they were.
  lemma AddsBounds(conds: seq<Cond>, args: seq<Value>, s: Selector, limit: nat, offset: nat)
    requires Means(conds, args, s)
    ensures var args' := args + [Number(limit), Number(offset)];
      var q := SelectQuery(conds, |args'| - 1, |args'|);
      && SelectTyped(q, args')
      && Numbered(Placeholders(conds) + [q.limit, q.offset], |args'|)
      && forall rows :: EvalSelect(q, args', rows) ==
           var all := StableSort(Select(rows, s), NewestFirst); (Slice(all, offset, limit), |all|)
  {
    var args' := args + [Number(limit), Number(offset)];
    var q := SelectQuery(conds, |args'| - 1, |args'|);
    forall c | c in conds ensures CondTyped(c, args') {
      assert CondTyped(c, args);
    }
    forall rows ensures Where(rows, conds, args') == Select(rows, s) {
      WhereMoreArgs(rows, conds, args, args');
      WhereIsSelect(rows, conds, args, s);
    }
  }

  lemma {:induction false} WhereMoreArgs(rows: seq<Incident>, conds: seq<Cond>, args: seq<Value>, args': seq<Value>)
    requires AllTyped(conds, args) && AllTyped(conds, args') && args <= args'
    ensures Where(rows, conds, args') == Where(rows, conds, args)
  {
    if rows != [] {
      var n := |rows| - 1;
      WhereMoreArgs(rows[..n], conds, args, args');
      assert forall c | c in conds :: CondTyped(c, args) && Holds(c, args', rows[n]) == Holds(c, args, rows[n]);
    }
  }

  // The conditions, clause by clause.
  method BuildConditions(team: Id, f: Filter) returns (conds: seq<Cond>, args: seq<Value>)
    ensures Means(conds, args, ByFilter(team, f))
  {
    conds := [Equals(TeamColumn, 1)];
    args := [IdValue(team)];
    ghost var sofar := f.(status := [], severity := [], source := []);
    assert Means(conds, args, ByFilter(team, sofar)) by {
      assert Equals(TeamColumn, 1) in conds;
    }
    if |f.status| > 0 {
      AddsCondition(conds, args, ByFilter(team, sofar), Status, f.status, ByFilter(team, sofar.(status := f.status)));
      args := args + [Texts(f.status)];
      conds := conds + [AnyOf(Status, |args|)];
    }
    sofar := sofar.(status := f.status);
    if |f.severity| > 0 {
      AddsCondition(conds, args, ByFilter(team, sofar), Severity, f.severity,
                    ByFilter(team, sofar.(severity := f.severity)));
      args := args + [Texts(f.severity)];
      conds := conds + [AnyOf(Severity, |args|)];
    }
    sofar := sofar.(severity := f.severity);
    if |f.source| > 0 {
      AddsCondition(conds, args, ByFilter(team, sofar), Source, f.source, ByFilter(team, f));
      args := args + [Texts(f.source)];
      conds := conds + [AnyOf(Source, |args|)];
    }
    assert sofar.(source := f.source) == f;
  }

  /**
   Builds the listing query. Whatever the filter, each argument is used by exactly one
   placeholder, and the query returns the page of the direct definition.
   */
  method BuildList(team: Id, f: Filter) returns (q: SelectQuery, args: seq<Value>)
    ensures SelectTyped(q, args)
    ensures Numbered(Placeholders(q.conds) + [q.limit, q.offset], |args|)
    ensures forall rows ::
      EvalSelect(q, args, rows) == (Slice(Listing(rows, team, f), Bounds(f).1, Bounds(f).0), |Listing(rows, team, f)|)
  {
    var (limit, offset) := Bounds(f);
    var conds;
    conds, args := BuildConditions(team, f);
    AddsBounds(conds, args, ByFilter(team, f), limit, offset);
    args := args + [Number(limit), Number(offset)];
    q := SelectQuery(conds, |args| - 1, |args|);
  }

  // ----- Building the update --------------------------------------------------------

  predicate SetsTyped(sets: seq<Assignment>, args: seq<Value>) {
    forall a | a in sets :: AssignmentTyped(a, args)
  }

  ghost predicate Patches(sets: seq<Assignment>, args: seq<Value>, p: Patch, trim: string -> string)
    requires SetsTyped(sets, args)
  {
    forall r: Incident, now :: Assign(r, sets, args).(updatedAt := now) == Patched(r, p, trim, now)
  }

  // The columns a patch can name, in the order Update takes them.
  function Rank(column: Column): nat {
    match column
    case Title => 0
    case Description => 1
    case Severity => 2
    case Status => 3
    case ResolvedAt => 4
    case _ => 5
  }

  ghost predicate Below(sets: seq<Assignment>, k: nat) {
    && (forall i | 0 <= i < |sets| :: Rank(sets[i].column) < k)
    && (forall i, j | 0 <= i < j < |sets| :: Rank(sets[i].column) < Rank(sets[j].column))
  }

  // The assignments so far name columns below k, use the arguments in order, and do to
  // every row what p says.
  ghost predicate Does(sets: seq<Assignment>, args: seq<Value>, p: Patch, trim: string -> string, k: nat) {
    && SetsTyped(sets, args) && Below(sets, k)
    && Numbered(SetPlaceholders(sets), |args|)
    && Patches(sets, args, p, trim)
  }

  // Writing v to the column takes a row patched by p to one patched by p'.
  ghost predicate Extends(p: Patch, column: Column, v: Option<Value>, p': Patch, trim: string -> string)
    requires v.Some? ==> Fits(column, v.value)
  {
    forall r: Incident, now :: Write(Patched(r, p, trim, now), column, v) == Patched(r, p', trim, now)
  }

  lemma {:induction false} AssignMoreArgs(r: Incident, sets: seq<Assignment>, args: seq<Value>, args': seq<Value>)
    requires SetsTyped(sets, args) && args <= args'
    ensures SetsTyped(sets, args')
    ensures Assign(r, sets, args') == Assign(r, sets, args)
  {
    forall a | a in sets ensures AssignmentTyped(a, args') {
      assert AssignmentTyped(a, args);
    }
    if sets != [] {
      assert sets[|sets| - 1] in sets;
      AssignMoreArgs(r, sets[..|sets| - 1], args, args');
    }
  }

  lemma TypedMore(sets: seq<Assignment>, args: seq<Value>, args': seq<Value>, a: Assignment)
    requires SetsTyped(sets, args) && args <= args' && AssignmentTyped(a, args')
    ensures SetsTyped(sets + [a], args')
  {
    forall b | b in sets + [a] ensures AssignmentTyped(b, args') {
      if b in sets { assert AssignmentTyped(b, args); }
    }
  }

  lemma AssignLast(r: Incident, sets: seq<Assignment>, args: seq<Value>, args': seq<Value>, a: Assignment)
    requires SetsTyped(sets, args) && args <= args' && AssignmentTyped(a, args')
    ensures SetsTyped(sets + [a], args')
    ensures Assign(r, sets + [a], args')
      == Write(Assign(r, sets, args), a.column, if a.SetTo? then Some(args'[a.arg - 1]) else None)
  {
    TypedMore(sets, args, args', a);
    AssignMoreArgs(r, sets, args, args');
    assert (sets + [a])[..|sets|] == sets;
  }

  lemma PatchesMore(sets: seq<Assignment>, args: seq<Value>, args': seq<Value>, a: Assignment,
                    p: Patch, p': Patch, trim: string -> string)
    requires SetsTyped(sets, args) && args <= args' && AssignmentTyped(a, args') && Patches(sets, args, p, trim)
    requires Extends(p, a.column, if a.SetTo? then Some(args'[a.arg - 1]) else None, p', trim)
    ensures SetsTyped(sets + [a], args') && Patches(sets + [a], args', p', trim)
  {
    TypedMore(sets, args, args', a);
    var v := if a.SetTo? then Some(args'[a.arg - 1]) else None;
    forall r: Incident, now ensures Assign(r, sets + [a], args').(updatedAt := now) == Patched(r, p', trim, now) {
      AssignLast(r, sets, args, args', a);
      assert Assign(r, sets, args).(updatedAt := now) == Patched(r, p, trim, now);
      assert Write(Patched(r, p, trim, now), a.column, v) == Patched(r, p', trim, now);
    }
  }

  lemma AddsAssignment(sets: seq<Assignment>, args: seq<Value>, p: Patch, trim: string -> string, k: nat,
                       column: Column, v: Value, p': Patch)
    requires Does(sets, args, p, trim, k) && k <= Rank(column) && Fits(column, v)
    requires Extends(p, column, Some(v), p', trim)
    ensures Does(sets + [SetTo(column, |args| + 1)], args + [v], p', trim, Rank(column) + 1)
  {
    var a := SetTo(column, |args| + 1);
    assert (sets + [a])[..|sets|] == sets;
    PatchesMore(sets, args, args + [v], a, p, p', trim);
  }

  lemma AddsClear(sets: seq<Assignment>, args: seq<Value>, p: Patch, trim: string -> string, k: nat, p': Patch)
    requires Does(sets, args, p, trim, k) && k <= Rank(ResolvedAt)
    requires Extends(p, ResolvedAt, None, p', trim)
    ensures Does(sets + [SetNull(ResolvedAt)], args, p', trim, Rank(ResolvedAt) + 1)
  {
    assert (sets + [SetNull(ResolvedAt)])[..|sets|] == sets;
    PatchesMore(sets, args, args, SetNull(ResolvedAt), p, p', trim);
  }

  lemma Skipped(sets: seq<Assignment>, args: seq<Value>, p: Patch, p': Patch, trim: string -> string, k: nat)
    requires Does(sets, args, p, trim, k) && p' == p
    ensures Does(sets, args, p', trim, k + 1)
  {
  }

  function KeyedUpdate(sets: seq<Assignment>, args: seq<Value>): UpdateQuery {
    UpdateQuery(sets, [Equals(IdColumn, |args| + 1), Equals(TeamColumn, |args| + 2)])
  }

  // The statement changes the one row of this team and id, in the named columns only.
  ghost predicate UpdatesOne(q: UpdateQuery, args: seq<Value>, team: Id, id: Id, p: Patch, trim: string -> string)
    requires UpdateTyped(q, args)
  {
    && (forall r :: AllHold(q.conds, args, r) <==> Selects(ByKey(team, id), r))
    && (forall r, now ::
          Updated(q, args, r, now) == if Selects(ByKey(team, id), r) then Patched(r, p, trim, now) else r)
  }

  lemma KeyedTyped(sets: seq<Assignment>, args: seq<Value>, k: nat, team: Id, id: Id)
    requires SetsTyped(sets, args) && Below(sets, k)
    ensures var args' := args + [IdValue(id), IdValue(team)];
      UpdateTyped(KeyedUpdate(sets, args), args')
    ensures Numbered(SetPlaceholders(sets), |args|) ==>
      Numbered(SetPlaceholders(sets) + Placeholders(KeyedUpdate(sets, args).conds), |args| + 2)
  {
    var args' := args + [IdValue(id), IdValue(team)];
    forall b | b in sets ensures AssignmentTyped(b, args') {
      assert AssignmentTyped(b, args);
    }
  }

  lemma AddsKey(sets: seq<Assignment>, args: seq<Value>, p: Patch, trim: string -> string, k: nat, team: Id, id: Id)
    requires Does(sets, args, p, trim, k)
    ensures var args', q := args + [IdValue(id), IdValue(team)], KeyedUpdate(sets, args);
      && UpdateTyped(q, args') && UpdatesOne(q, args', team, id, p, trim)
      && Numbered(SetPlaceholders(sets) + Placeholders(q.conds), |args'|)
  {
    var args', q := args + [IdValue(id), IdValue(team)], KeyedUpdate(sets, args);
    KeyedTyped(sets, args, k, team, id);
    forall r ensures AllHold(q.conds, args', r) <==> Selects(ByKey(team, id), r) {
      assert q.conds[0] in q.conds && q.conds[1] in q.conds;
    }
    forall r, now
      ensures Updated(q, args', r, now) == if Selects(ByKey(team, id), r) then Patched(r, p, trim, now) else r
    {
      assert AllHold(q.conds, args', r) <==> Selects(ByKey(team, id), r);
      AssignMoreArgs(r, sets, args, args');
      assert Assign(r, sets, args).(updatedAt := now) == Patched(r, p, trim, now);
    }
  }

  // What the patch does to the column of rank i.
  datatype Change = Leave | Put(column: Column, v: Value) | Clear

  function ChangeOf(p: Patch, trim: string -> string, i: nat): (c: Change)
    ensures c.Put? ==> Fits(c.column, c.v) && Rank(c.column) == i
    ensures c.Clear? ==> i == Rank(ResolvedAt)
  {
    match i
    case 0 => if p.title.Some? then Put(Title, Text(trim(p.title.value))) else Leave
    case 1 => if p.description.Some? then Put(Description, Text(p.description.value)) else Leave
    case 2 => if p.severity.Some? then Put(Severity, Text(p.severity.value)) else Leave
    case 3 => if p.status.Some? then Put(Status, Text(p.status.value)) else Leave
    case 4 =>
      if p.clearResolvedAt then Clear
      else if p.resolvedAt.Some? then Put(ResolvedAt, Time(p.resolvedAt.value)) else Leave
    case _ => Leave
  }

  // The patch cut down to its first k columns.
  function UpTo(p: Patch, k: nat): Patch {
    Patch(if k > 0 then p.title else None,
          if k > 1 then p.description else None,
          if k > 2 then p.severity else None,
          if k > 3 then p.status else None,
          if k > 4 then p.resolvedAt else None,
          k > 4 && p.clearResolvedAt)
  }

  // What the builder has after column i, from what it had before it.
  function Added(sets: seq<Assignment>, args: seq<Value>, c: Change): (seq<Assignment>, seq<Value>) {
    match c
    case Leave => (sets, args)
    case Put(column, v) => (sets + [SetTo(column, |args| + 1)], args + [v])
    case Clear => (sets + [SetNull(ResolvedAt)], args)
  }

  // Assignments and arguments for the first k columns.
  function Assignments(p: Patch, trim: string -> string, k: nat): (seq<Assignment>, seq<Value>) {
    if k == 0 then ([], []) else
    var (sets, args) := Assignments(p, trim, k - 1);
    Added(sets, args, ChangeOf(p, trim, k - 1))
  }

  lemma NextAssignments(p: Patch, trim: string -> string, k: nat, sets: seq<Assignment>, args: seq<Value>)
    requires (sets, args) == Assignments(p, trim, k)
    ensures Assignments(p, trim, k + 1) == Added(sets, args, ChangeOf(p, trim, k))
  {
  }

  lemma ChangeExtends(p: Patch, trim: string -> string, i: nat)
    requires i < 5
    ensures var c := ChangeOf(p, trim, i);
      match c
      case Leave => UpTo(p, i + 1) == UpTo(p, i)
      case Put(column, v) => Extends(UpTo(p, i), column, Some(v), UpTo(p, i + 1), trim)
      case Clear => Extends(UpTo(p, i), ResolvedAt, None, UpTo(p, i + 1), trim)
  {
    var c := ChangeOf(p, trim, i);
    if c.Put? {
      forall r: Incident, now
        ensures Write(Patched(r, UpTo(p, i), trim, now), c.column, Some(c.v)) == Patched(r, UpTo(p, i + 1), trim, now) {
      }
    }
  }

  lemma {:induction false} AssignmentsDo(p: Patch, trim: string -> string, k: nat)
    requires k <= 5
    ensures Does(Assignments(p, trim, k).0, Assignments(p, trim, k).1, UpTo(p, k), trim, k)
  {
    if k > 0 {
      var (sets, args) := Assignments(p, trim, k - 1);
      AssignmentsDo(p, trim, k - 1);
      ChangeExtends(p, trim, k - 1);
      match ChangeOf(p, trim, k - 1)
      case Leave => Skipped(sets, args, UpTo(p, k - 1), UpTo(p, k), trim, k - 1);
      case Put(column, v) => AddsAssignment(sets, args, UpTo(p, k - 1), trim, k - 1, column, v, UpTo(p, k));
      case Clear => AddsClear(sets, args, UpTo(p, k - 1), trim, k - 1, UpTo(p, k));
    }
  }

  // All five columns: every named one is assigned, and the statement does what the patch says.
  lemma PatchAssigned(p: Patch, trim: string -> string, team: Id, id: Id)
    ensures var (sets, args) := Assignments(p, trim, 5);
      var args', q := args + [IdValue(id), IdValue(team)], KeyedUpdate(sets, args);
      && UpdateTyped(q, args') && UpdatesOne(q, args', team, id, p, trim)
      && Numbered(SetPlaceholders(sets) + Placeholders(q.conds), |args'|)
      && (sets == [] <==> EmptyPatch(p))
  {
    var (sets, args) := Assignments(p, trim, 5);
    AssignmentsDo(p, trim, 5);
    assert UpTo(p, 5) == p;
    AddsKey(sets, args, p, trim, 5, team, id);
    NothingAssigned(p, trim, 5);
  }

  lemma {:induction false} NothingAssigned(p: Patch, trim: string -> string, k: nat)
    requires k <= 5
    ensures Assignments(p, trim, k).0 == [] <==> forall i | 0 <= i < k :: ChangeOf(p, trim, i).Leave?
    ensures k == 5 ==> (Assignments(p, trim, 5).0 == [] <==> EmptyPatch(p))
  {
    if k > 0 {
      NothingAssigned(p, trim, k - 1);
    }
    if k == 5 {
      assert EmptyPatch(p) <==> (ChangeOf(p, trim, 0).Leave? && ChangeOf(p, trim, 1).Leave?
        && ChangeOf(p, trim, 2).Leave? && ChangeOf(p, trim, 3).Leave? && ChangeOf(p, trim, 4).Leave?);
    }
  }

  // One assignment, and one argument, for each column the patch names.
  method BuildAssignments(p: Patch, trim: string -> string) returns (sets: seq<Assignment>, args: seq<Value>)
    ensures (sets, args) == Assignments(p, trim, 5)
  {
    sets, args := [], [];
    NextAssignments(p, trim, 0, sets, args);
    if p.title.Some? {
      args := args + [Text(trim(p.title.value))];
      sets := sets + [SetTo(Title, |args|)];
    }
    NextAssignments(p, trim, 1, sets, args);
    if p.description.Some? {
      args := args + [Text(p.description.value)];
      sets := sets + [SetTo(Description, |args|)];
    }
    NextAssignments(p, trim, 2, sets, args);
    if p.severity.Some? {
      args := args + [Text(p.severity.value)];
      sets := sets + [SetTo(Severity, |args|)];
    }
    NextAssignments(p, trim, 3, sets, args);
    if p.status.Some? {
      args := args + [Text(p.status.value)];
      sets := sets + [SetTo(Status, |args|)];
    }
    NextAssignments(p, trim, 4, sets, args);
    if p.clearResolvedAt {
      sets := sets + [SetNull(ResolvedAt)];
    } else if p.resolvedAt.Some? {
      args := args + [Time(p.resolvedAt.value)];
      sets := sets + [SetTo(ResolvedAt, |args|)];
    }
  }

  /**
   Builds the update for a patch; None when it names no column. Whatever the patch, each
   argument is used by exactly one placeholder, and the statement changes the one row of
   this team and id, in the named columns only.
   */
  method BuildUpdate(team: Id, id: Id, p: Patch, trim: string -> string)
    returns (q: Option<UpdateQuery>, args: seq<Value>)
    ensures q.None? <==> EmptyPatch(p)
    ensures q.Some? ==> UpdateTyped(q.value, args) && UpdatesOne(q.value, args, team, id, p, trim)
    ensures q.Some? ==> Numbered(SetPlaceholders(q.value.sets) + Placeholders(q.value.conds), |args|)
  {
    var sets;
    sets, args := BuildAssignments(p, trim);
    PatchAssigned(p, trim, team, id);
    if |sets| == 0 {
      return None, [];
    }
    q := Some(KeyedUpdate(sets, args));
    args := args + [IdValue(id), IdValue(team)];
  }
}
