/**
 The repository of internal/repository/incident.go: what each operation answers and how it
 changes the table, as one function of the operation and the rows, and as methods over a
 mutable table.
 */
module IncidentRepository {
  import opened Wrappers
  import opened Sorting
  import opened Incidents
  import Strings = Text

  datatype RepoError = Conflict | NotFound | Failed

  datatype Reply = Row(row: Incident) | Listed(page: Page) | Deleted | Error(error: RepoError)

  // What Create is given; metadata is None for a nil map.
  datatype Draft = Draft(team: Id, externalId: Option<string>, title: string, description: string,
                         severity: string, status: string, source: string,
                         startedAt: int, resolvedAt: Option<int>, metadata: Option<string>)

  // id and now are what the database generates.
  datatype Op =
    | Create(draft: Draft, id: Id, now: int)
    | GetByID(team: Id, id: Id)
    | FindByExternalID(team: Id, externalId: string)
    | List(team: Id, filter: Filter)
    | Update(team: Id, id: Id, patch: Patch, now: int)
    | Delete(team: Id, id: Id)

  // Whether the reply arrives; a lost one may have taken effect.
  datatype Call = Answered | Lost(took: bool)

  datatype Outcome = Outcome(reply: Reply, rows: seq<Incident>)

  datatype Env = Env(teams: set<Id>, trim: string -> string)

  function NewRow(d: Draft, id: Id, now: int, trim: string -> string): Incident {
    Incident(id, d.team, d.externalId, trim(d.title), d.description, d.severity, d.status, d.source,
             d.startedAt, d.resolvedAt, if d.metadata.Some? then d.metadata.value else "{}", now, now)
  }

  predicate Taken(rows: seq<Incident>, r: Incident) {
    exists x :: x in rows && (x.id == r.id || SameExternal(x, r.team, r.externalId))
  }

  function First(rows: seq<Incident>): Reply {
    if rows == [] then Error(NotFound) else Row(rows[0])
  }

  function PatchRows(rows: seq<Incident>, key: Selector, p: Patch, trim: string -> string, now: int): (r: seq<Incident>)
    ensures |r| == |rows|
  {
    if rows == [] then [] else
    var n := |rows| - 1;
    PatchRows(rows[..n], key, p, trim, now)
      + [if Selects(key, rows[n]) then Patched(rows[n], p, trim, now) else rows[n]]
  }

  function Without(rows: seq<Incident>, s: Selector): seq<Incident> {
    if rows == [] then [] else
    var n := |rows| - 1;
    Without(rows[..n], s) + if Selects(s, rows[n]) then [] else [rows[n]]
  }

  lemma {:induction false} PatchRowsAt(rows: seq<Incident>, key: Selector, p: Patch, trim: string -> string, now: int)
    ensures var r := PatchRows(rows, key, p, trim, now);
      forall i | 0 <= i < |rows| :: r[i] == if Selects(key, rows[i]) then Patched(rows[i], p, trim, now) else rows[i]
  {
    if rows != [] {
      PatchRowsAt(rows[..|rows| - 1], key, p, trim, now);
    }
  }

  lemma {:induction false} WithoutMembers(rows: seq<Incident>, s: Selector)
    ensures forall x :: x in Without(rows, s) <==> x in rows && !Selects(s, x)
  {
    if rows != [] {
      WithoutMembers(rows[..|rows| - 1], s);
    }
  }

  lemma FirstFinds(rows: seq<Incident>, s: Selector)
    ensures First(Select(rows, s)) == Error(NotFound) <==> forall r | r in rows :: !Selects(s, r)
    ensures var reply := First(Select(rows, s));
      reply != Error(NotFound) ==> reply.Row? && reply.row in rows && Selects(s, reply.row)
  {
    var found := Select(rows, s);
    SelectMembers(rows, s);
    if found != [] {
      assert found[0] in found;
    }
    forall r | r in rows && Selects(s, r) ensures found != [] {
      assert r in found;
    }
  }

  function TeamOf(op: Op): Id {
    if op.Create? then op.draft.team else op.team
  }

  /** What an operation answers, and the table after it. */
  function Run(e: Env, op: Op, rows: seq<Incident>): Outcome {
    match op
    case Create(d, id, now) =>
      var r := NewRow(d, id, now, e.trim);
      if !Allowed(r) then Outcome(Error(Failed), rows)
      else if Taken(rows, r) then Outcome(Error(Conflict), rows)
      else if d.team !in e.teams then Outcome(Error(Failed), rows)
      else Outcome(Row(r), rows + [r])
    case GetByID(team, id) => Outcome(First(Select(rows, ByKey(team, id))), rows)
    case FindByExternalID(team, x) => Outcome(First(Select(rows, ByExternal(team, x))), rows)
    case List(team, f) => Outcome(Listed(ListPage(rows, team, f)), rows)
    case Update(team, id, p, now) =>
      var key := ByKey(team, id);
      var found := Select(rows, key);
      if EmptyPatch(p) || found == [] then Outcome(First(found), rows)
      else if exists r :: r in found && !Allowed(Patched(r, p, e.trim, now)) then Outcome(Error(Failed), rows)
      else Outcome(Row(Patched(found[0], p, e.trim, now)), PatchRows(rows, key, p, e.trim, now))
    case Delete(team, id) =>
      var key := ByKey(team, id);
      if Select(rows, key) == [] then Outcome(Error(NotFound), rows)
      else Outcome(Deleted, Without(rows, key))
  }

  function Observe(e: Env, op: Op, io: Call, rows: seq<Incident>): Outcome {
    var o := Run(e, op, rows);
    match io
    case Answered => o
    case Lost(took) => Outcome(Error(Failed), if took then o.rows else rows)
  }

  // The statement's effect on the rows it finds is the operation's.
  lemma StatementOutcome(e: Env, q: UpdateQuery, args: seq<Value>, rows: seq<Incident>,
                         team: Id, id: Id, p: Patch, now: int)
    requires !EmptyPatch(p) && UpdateTyped(q, args) && UpdatesOne(q, args, team, id, p, e.trim)
    ensures var changed := Where(rows, q.conds, args);
      Run(e, Op.Update(team, id, p, now), rows) ==
        if changed == [] then Outcome(Error(NotFound), rows)
        else if exists r :: r in changed && !Allowed(Updated(q, args, r, now)) then Outcome(Error(Failed), rows)
        else Outcome(Row(Updated(q, args, changed[0], now)), EvalUpdate(q, args, rows, now))
  {
    StatementPatches(q, args, rows, team, id, p, e.trim, now);
    var changed := Where(rows, q.conds, args);
    assert changed != [] ==> changed[0] in changed;
  }

  // ----- The answers told from the columns ------------------------------------------

  ghost predicate Exists(rows: seq<Incident>, team: Id, id: Id) {
    exists r :: r in rows && r.team == team && r.id == id
  }

  // The row holds what was given, and what the database adds.
  ghost predicate HoldsDraft(r: Incident, d: Draft, id: Id, now: int, trim: string -> string) {
    && r.id == id && r.team == d.team && r.externalId == d.externalId
    && r.title == trim(d.title) && r.description == d.description
    && r.severity == d.severity && r.status == d.status && r.source == d.source
    && r.startedAt == d.startedAt && r.resolvedAt == d.resolvedAt
    && r.metadata == (if d.metadata.Some? then d.metadata.value else "{}")
    && r.createdAt == now && r.updatedAt == now
  }

  // No row has this id, or this external id of this team.
  ghost predicate NoClash(rows: seq<Incident>, d: Draft, id: Id) {
    forall x | x in rows :: x.id != id && !(d.externalId.Some? && x.team == d.team && x.externalId == d.externalId)
  }

  // The constraints that a draft can break by itself.
  ghost predicate Acceptable(d: Draft, trim: string -> string) {
    && d.severity in {"P1", "P2", "P3", "P4"}
    && d.status in {"open", "processing", "analysis_ready", "resolved"}
    && d.source in {"manual", "pagerduty", "datadog", "slack", "simulation"}
    && 1 <= |Strings.BTrim(trim(d.title))| <= 500
    && (d.externalId.Some? ==> Strings.BTrim(d.externalId.value) != "")
    && (d.resolvedAt.Some? ==> d.startedAt <= d.resolvedAt.value)
  }

  lemma CreateMeans(e: Env, d: Draft, id: Id, now: int, rows: seq<Incident>)
    ensures var o := Run(e, Op.Create(d, id, now), rows);
      && (o.reply.Row? <==> Acceptable(d, e.trim) && NoClash(rows, d, id) && d.team in e.teams)
      && (o.reply.Row? ==> HoldsDraft(o.reply.row, d, id, now, e.trim) && o.rows == rows + [o.reply.row])
      && (!o.reply.Row? ==> o.rows == rows && o.reply.Error?)
      && (o.reply == Error(Conflict) <==> Acceptable(d, e.trim) && !NoClash(rows, d, id))
      && o.reply != Error(NotFound)
  {
  }

  // Named columns have the patch's values, and all others but updated_at are kept.
  ghost predicate HoldsPatch(r: Incident, r': Incident, p: Patch, now: int, trim: string -> string) {
    && r'.title == (if p.title.Some? then trim(p.title.value) else r.title)
    && r'.description == (if p.description.Some? then p.description.value else r.description)
    && r'.severity == (if p.severity.Some? then p.severity.value else r.severity)
    && r'.status == (if p.status.Some? then p.status.value else r.status)
    && (p.clearResolvedAt ==> r'.resolvedAt == None)
    && (!p.clearResolvedAt ==> r'.resolvedAt == if p.resolvedAt.Some? then p.resolvedAt else r.resolvedAt)
    && r'.id == r.id && r'.team == r.team && r'.externalId == r.externalId && r'.source == r.source
    && r'.startedAt == r.startedAt && r'.metadata == r.metadata && r'.createdAt == r.createdAt && r'.updatedAt == now
  }

  lemma FoundExists(rows: seq<Incident>, team: Id, id: Id)
    ensures Select(rows, ByKey(team, id)) != [] <==> Exists(rows, team, id)
    ensures Select(rows, ByKey(team, id)) != [] ==>
      var r := Select(rows, ByKey(team, id))[0]; r in rows && r.team == team && r.id == id
  {
    var found := Select(rows, ByKey(team, id));
    SelectMembers(rows, ByKey(team, id));
    if found != [] {
      assert found[0] in found;
    }
    if r :| r in rows && r.team == team && r.id == id {
      assert r in found;
    }
  }

  lemma UpdateMeans(e: Env, team: Id, id: Id, p: Patch, now: int, rows: seq<Incident>)
    ensures var o := Run(e, Op.Update(team, id, p, now), rows);
      && (o.reply == Error(NotFound) <==> !Exists(rows, team, id))
      && (o.reply.Row? || o.reply == Error(NotFound) || (o.reply == Error(Failed) && !EmptyPatch(p)))
      && (o.reply.Row? ==> o.reply.row in o.rows && o.reply.row.team == team && o.reply.row.id == id)
      && (!o.reply.Row? || EmptyPatch(p) ==> o.rows == rows)
      && |o.rows| == |rows|
      && (forall i | 0 <= i < |rows| && !(rows[i].team == team && rows[i].id == id) :: o.rows[i] == rows[i])
      && (o.reply.Row? && !EmptyPatch(p) ==>
            forall i | 0 <= i < |rows| && rows[i].team == team && rows[i].id == id ::
              HoldsPatch(rows[i], o.rows[i], p, now, e.trim))
  {
    FoundExists(rows, team, id);
    var key := ByKey(team, id);
    var found := Select(rows, key);
    PatchRowsAt(rows, key, p, e.trim, now);
    if found != [] {
      var i :| 0 <= i < |rows| && rows[i] == found[0];
      assert PatchRows(rows, key, p, e.trim, now)[i] == Patched(found[0], p, e.trim, now);
    }
  }

  lemma DeleteMeans(e: Env, team: Id, id: Id, rows: seq<Incident>)
    ensures var o := Run(e, Op.Delete(team, id), rows);
      && (o.reply == if Exists(rows, team, id) then Deleted else Error(NotFound))
      && (!Exists(rows, team, id) ==> o.rows == rows)
      && (forall x :: x in o.rows <==> x in rows && !(x.team == team && x.id == id))
  {
    FoundExists(rows, team, id);
    WithoutMembers(rows, ByKey(team, id));
  }

  class Repository {
    const env: Env
    var rows: seq<Incident>

    constructor (env: Env)
      ensures this.env == env && rows == []
    {
      this.env, rows := env, [];
    }

    method Create(d: Draft, id: Id, now: int, io: Call) returns (reply: Reply)
      modifies this
      ensures Outcome(reply, rows) == Observe(env, Op.Create(d, id, now), io, old(rows))
      ensures reply.Row? <==>
        io.Answered? && Acceptable(d, env.trim) && NoClash(old(rows), d, id) && d.team in env.teams
      ensures reply.Row? ==> rows == old(rows) + [reply.row] && HoldsDraft(reply.row, d, id, now, env.trim)
      ensures reply == Error(Conflict) <==> io.Answered? && Acceptable(d, env.trim) && !NoClash(old(rows), d, id)
      ensures io.Answered? && !reply.Row? ==> rows == old(rows)
      ensures io.Lost? ==> reply == Error(Failed)
    {
      CreateMeans(env, d, id, now, rows);
      if io == Lost(false) {
        return Error(Failed);
      }
      var r := Incident(id, d.team, d.externalId, env.trim(d.title), d.description, d.severity, d.status, d.source,
                        d.startedAt, d.resolvedAt, if d.metadata.Some? then d.metadata.value else "{}", now, now);
      if !Allowed(r) {
        return Error(Failed);
      }
      var i := 0;
      while i < |rows|
        invariant 0 <= i <= |rows|
        invariant forall j | 0 <= j < i :: rows[j].id != id && !SameExternal(rows[j], d.team, d.externalId)
      {
        if rows[i].id == id || SameExternal(rows[i], d.team, d.externalId) {
          assert rows[i] in rows;
          return Error(if io.Answered? then Conflict else Failed);
        }
        i := i + 1;
      }
      if d.team !in env.teams {
        return Error(Failed);
      }
      rows := rows + [r];
      reply := if io.Answered? then Row(r) else Error(Failed);
    }

    method GetByID(team: Id, id: Id, io: Call) returns (reply: Reply)
      ensures Outcome(reply, rows) == Observe(env, Op.GetByID(team, id), io, rows)
      ensures reply == Error(Failed) <==> io.Lost?
      ensures reply == Error(NotFound) <==> io.Answered? && forall r | r in rows :: !(r.team == team && r.id == id)
      ensures reply != Error(Failed) && reply != Error(NotFound) ==>
        reply.Row? && reply.row in rows && reply.row.team == team && reply.row.id == id
    {
      FirstFinds(rows, ByKey(team, id));
      if io.Lost? {
        return Error(Failed);
      }
      reply := First(Select(rows, ByKey(team, id)));
    }

    method FindByExternalID(team: Id, externalId: string, io: Call) returns (reply: Reply)
      ensures Outcome(reply, rows) == Observe(env, Op.FindByExternalID(team, externalId), io, rows)
      ensures reply == Error(Failed) <==> io.Lost?
      ensures reply == Error(NotFound) <==>
        io.Answered? && forall r | r in rows :: !(r.team == team && r.externalId == Some(externalId))
      ensures reply != Error(Failed) && reply != Error(NotFound) ==>
        reply.Row? && reply.row in rows && reply.row.team == team && reply.row.externalId == Some(externalId)
    {
      FirstFinds(rows, ByExternal(team, externalId));
      if io.Lost? {
        return Error(Failed);
      }
      reply := First(Select(rows, ByExternal(team, externalId)));
    }

    /** Runs the built query; the rows are scanned one by one and the last one's total kept. */
    method List(team: Id, f: Filter, io: Call) returns (reply: Reply)
      ensures Outcome(reply, rows) == Observe(env, Op.List(team, f), io, rows)
    {
      var q, args := BuildList(team, f);
      if io.Lost? {
        return Error(Failed);
      }
      var (found, count) := EvalSelect(q, args, rows);
      var page := Page([], 0);
      for i := 0 to |found|
        invariant page.incidents == found[..i]
        invariant page.total == if i == 0 then 0 else count
      {
        page := Page(page.incidents + [found[i]], count);
      }
      assert found[..|found|] == found;
      reply := Listed(page);
    }

    /** Runs the built statement; every changed row must pass the constraints, or none changes. */
    method Update(team: Id, id: Id, p: Patch, now: int, io: Call) returns (reply: Reply)
      modifies this
      ensures Outcome(reply, rows) == Observe(env, Op.Update(team, id, p, now), io, old(rows))
      ensures reply == Error(NotFound) <==> io.Answered? && !Exists(old(rows), team, id)
      ensures reply.Row? ==> reply.row in rows && reply.row.team == team && reply.row.id == id
      ensures |rows| == |old(rows)|
      ensures forall i | 0 <= i < |rows| && !(rows[i].team == team && rows[i].id == id) :: rows[i] == old(rows)[i]
      ensures io.Answered? && (!reply.Row? || EmptyPatch(p)) ==> rows == old(rows)
      ensures reply.Row? && !EmptyPatch(p) ==>
        forall i | 0 <= i < |rows| && rows[i].team == team && rows[i].id == id ::
          HoldsPatch(old(rows)[i], rows[i], p, now, env.trim)
    {
      UpdateMeans(env, team, id, p, now, rows);
      var q, args := BuildUpdate(team, id, p, env.trim);
      if q.None? {
        reply := GetByID(team, id, io);
        return;
      }
      if io == Lost(false) {
        return Error(Failed);
      }
      StatementOutcome(env, q.value, args, rows, team, id, p, now);
      var changed := Where(rows, q.value.conds, args);
      if changed == [] {
        return Error(if io.Answered? then NotFound else Failed);
      }
      if exists r :: r in changed && !Allowed(Updated(q.value, args, r, now)) {
        return Error(Failed);
      }
      rows := EvalUpdate(q.value, args, rows, now);
      reply := if io.Answered? then Row(Updated(q.value, args, changed[0], now)) else Error(Failed);
    }

    method Delete(team: Id, id: Id, io: Call) returns (reply: Reply)
      modifies this
      ensures Outcome(reply, rows) == Observe(env, Op.Delete(team, id), io, old(rows))
      ensures reply == Error(Failed) <==> io.Lost?
      ensures reply == Error(NotFound) <==> io.Answered? && forall x | x in old(rows) :: !(x.team == team && x.id == id)
      ensures reply == Error(NotFound) ==> rows == old(rows)
      ensures reply == Deleted || reply.Error?
      ensures reply == Deleted ==> forall x :: x in rows <==> x in old(rows) && !(x.team == team && x.id == id)
      ensures io.Lost? ==>
        rows == old(rows) || forall x :: x in rows <==> x in old(rows) && !(x.team == team && x.id == id)
    {
      DeleteMeans(env, team, id, rows);
      if io == Lost(false) {
        return Error(Failed);
      }
      var affected := |Select(rows, ByKey(team, id))|;
      rows := Without(rows, ByKey(team, id));
      if affected == 0 {
        SelectMembers(old(rows), ByKey(team, id));
        assert forall i | 0 <= i < |old(rows)| :: old(rows)[i] !in Select(old(rows), ByKey(team, id));
        NothingRemoved(old(rows), ByKey(team, id));
      }
      if io.Lost? {
        return Error(Failed);
      }
      reply := if affected == 0 then Error(NotFound) else Deleted;
    }
  }

  lemma {:induction false} NothingRemoved(rows: seq<Incident>, s: Selector)
    requires forall i | 0 <= i < |rows| :: !Selects(s, rows[i])
    ensures Without(rows, s) == rows
  {
    if rows != [] {
      var n := |rows| - 1;
      NothingRemoved(rows[..n], s);
      assert rows == rows[..n] + [rows[n]];
    }
  }

  function EvalUpdate(q: UpdateQuery, args: seq<Value>, rows: seq<Incident>, now: int): seq<Incident>
    requires UpdateTyped(q, args)
  {
    if rows == [] then [] else
    var n := |rows| - 1;
    EvalUpdate(q, args, rows[..n], now) + [Updated(q, args, rows[n], now)]
  }

  // Running a statement that updates one row patches that row of the table.
  lemma {:induction false} StatementPatches(q: UpdateQuery, args: seq<Value>, rows: seq<Incident>,
                                            team: Id, id: Id, p: Patch, trim: string -> string, now: int)
    requires UpdateTyped(q, args) && UpdatesOne(q, args, team, id, p, trim)
    ensures EvalUpdate(q, args, rows, now) == PatchRows(rows, ByKey(team, id), p, trim, now)
    ensures Where(rows, q.conds, args) == Select(rows, ByKey(team, id))
    ensures forall r | r in Select(rows, ByKey(team, id)) :: Updated(q, args, r, now) == Patched(r, p, trim, now)
  {
    if rows != [] {
      StatementPatches(q, args, rows[..|rows| - 1], team, id, p, trim, now);
    }
  }
}
