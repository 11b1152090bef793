/**
 The foreign keys of migrations/0002 to 0004 and what deleting a row does through them.

 A row is its references and the discriminating column of its unique index, if it has
 one; its other columns never change here. A DELETE queues one referential action for
 each foreign key into the row's table; the queue may be served in any order, and serving
 an action can delete rows and queue more.
 */
module Schema {
  import opened Wrappers

  datatype Table = Teams | Users | Integrations | Incidents | Events | Analyses | Hypotheses | Postmortems
                 | Scenarios | Runs | Results

  datatype Fk = UserTeam | IntegrationTeam | IncidentTeam | EventIncident | AnalysisIncident
              | HypothesisAnalysis | PostmortemIncident | RunScenario | RunTeam | RunIncident | ResultRun

  datatype OnDelete = Cascade | SetNull | Restrict

  function ChildOf(fk: Fk): Table {
    match fk
    case UserTeam => Users
    case IntegrationTeam => Integrations
    case IncidentTeam => Incidents
    case EventIncident => Events
    case AnalysisIncident => Analyses
    case HypothesisAnalysis => Hypotheses
    case PostmortemIncident => Postmortems
    case RunScenario => Runs
    case RunTeam => Runs
    case RunIncident => Runs
    case ResultRun => Results
  }

  function ParentOf(fk: Fk): Table {
    match fk
    case UserTeam => Teams
    case IntegrationTeam => Teams
    case IncidentTeam => Teams
    case EventIncident => Incidents
    case AnalysisIncident => Incidents
    case HypothesisAnalysis => Analyses
    case PostmortemIncident => Incidents
    case RunScenario => Scenarios
    case RunTeam => Teams
    case RunIncident => Incidents
    case ResultRun => Runs
  }

  function Action(fk: Fk): OnDelete {
    if fk.RunScenario? then Restrict else if fk.RunIncident? then SetNull else Cascade
  }

  // NOT NULL on the referencing column.
  predicate Required(fk: Fk) { !fk.RunIncident? }

  datatype Key = Key(table: Table, id: nat)

  datatype Row = Row(refs: map<Fk, Key>, tag: Option<string>)

  type Db = map<Key, Row>

  // ----- Constraints ----------------------------------------------------------------

  // Every reference is to a row of the right table, and no required one is missing.
  ghost predicate Integrity(db: Db) {
    && (forall k, fk | k in db && fk in db[k].refs ::
          ChildOf(fk) == k.table && db[k].refs[fk].table == ParentOf(fk) && db[k].refs[fk] in db)
    && (forall k, fk | k in db && ChildOf(fk) == k.table && Required(fk) :: fk in db[k].refs)
  }

  lemma RequiredRef(db: Db, k: Key, fk: Fk)
    requires Integrity(db) && k in db && (ChildOf(fk) == k.table || fk in db[k].refs)
    ensures ChildOf(fk) == k.table
    ensures Required(fk) ==> fk in db[k].refs
    ensures fk in db[k].refs ==> db[k].refs[fk].table == ParentOf(fk) && db[k].refs[fk] in db
  {
  }

  // The foreign key that is part of a table's unique index.
  function OwnerFk(t: Table): Option<Fk> {
    match t
    case Integrations => Some(IntegrationTeam)
    case Incidents => Some(IncidentTeam)
    case Hypotheses => Some(HypothesisAnalysis)
    case Postmortems => Some(PostmortemIncident)
    case Results => Some(ResultRun)
    case _ => None
  }

  predicate HasUniqueIndex(t: Table) {
    OwnerFk(t).Some? || t.Users? || t.Scenarios?
  }

  // Two rows with the same value under their table's unique index. Only incidents may
  // leave the discriminating column out, and then they do not collide.
  predicate Collide(k: Key, r: Row, k': Key, r': Row) {
    && k.table == k'.table && HasUniqueIndex(k.table)
    && r.tag == r'.tag && (k.table.Incidents? ==> r.tag.Some?)
    && (OwnerFk(k.table).Some? ==>
          var fk := OwnerFk(k.table).value; fk in r.refs && fk in r'.refs && r.refs[fk] == r'.refs[fk])
  }

  ghost predicate Unique(db: Db) {
    forall k, k' | k in db && k' in db && k != k' :: !Collide(k, db[k], k', db[k'])
  }

  ghost predicate Valid(db: Db) {
    Integrity(db) && Unique(db)
  }

  // ----- What a delete should leave -------------------------------------------------

  // References go from a later table to an earlier one.
  function Rank(t: Table): nat {
    match t
    case Teams => 0
    case Scenarios => 0
    case Users => 1
    case Integrations => 1
    case Incidents => 1
    case Runs => 2
    case Events => 2
    case Analyses => 2
    case Postmortems => 2
    case Hypotheses => 3
    case Results => 3
  }

  lemma RankFalls(fk: Fk)
    ensures Rank(ParentOf(fk)) < Rank(ChildOf(fk))
  {
  }

  // The row is the target, or some chain of CASCADE references leads from it there.
  ghost predicate Doomed(db: Db, target: Key, k: Key)
    decreases Rank(k.table)
  {
    k == target || (k in db && exists fk :: DoomedBy(db, target, k, fk))
  }

  ghost predicate DoomedBy(db: Db, target: Key, k: Key, fk: Fk)
    requires k in db
    decreases Rank(k.table), 0
  {
    && fk in db[k].refs && ChildOf(fk) == k.table && db[k].refs[fk].table == ParentOf(fk)
    && Action(fk).Cascade?
    && (RankFalls(fk); Doomed(db, target, db[k].refs[fk]))
  }

  ghost function KeptRefs(db: Db, target: Key, refs: map<Fk, Key>): map<Fk, Key> {
    map fk | fk in refs && !(Action(fk).SetNull? && Doomed(db, target, refs[fk])) :: refs[fk]
  }

  // The rows not doomed, without their nullable references to rows that are.
  ghost function AfterDelete(db: Db, target: Key): Db {
    map k | k in db && !Doomed(db, target, k) :: db[k].(refs := KeptRefs(db, target, db[k].refs))
  }

  // A RESTRICT reference into the rows to be deleted.
  predicate Restricted(db: Db, target: Key) {
    exists k :: k in db && RunScenario in db[k].refs && db[k].refs[RunScenario] == target
  }

  // ----- Referential actions, one at a time -----------------------------------------

  datatype Todo = Todo(fk: Fk, parent: Key)

  datatype State = State(db: Db, todo: set<Todo>)

  const FKS := {UserTeam, IntegrationTeam, IncidentTeam, EventIncident, AnalysisIncident,
                HypothesisAnalysis, PostmortemIncident, RunScenario, RunTeam, RunIncident, ResultRun}

  function ActionsFor(keys: set<Key>): set<Todo> {
    set fk, k | fk in FKS && k in keys && ParentOf(fk) == k.table :: Todo(fk, k)
  }

  function Children(db: Db, a: Todo): set<Key> {
    set k | k in db && a.fk in db[k].refs && db[k].refs[a.fk] == a.parent
  }

  predicate Refused(s: State, a: Todo) {
    Action(a.fk).Restrict? && Children(s.db, a) != {}
  }

  function Cleared(db: Db, a: Todo): Db {
    map k | k in db :: if k in Children(db, a) then db[k].(refs := db[k].refs - {a.fk}) else db[k]
  }

  function Serve(s: State, a: Todo): State {
    var children := Children(s.db, a);
    match Action(a.fk)
    case Cascade => State(s.db - children, s.todo - {a} + ActionsFor(children))
    case SetNull => State(Cleared(s.db, a), s.todo - {a})
    case Restrict => State(s.db, s.todo - {a})
  }

  function Begin(db: Db, target: Key): State {
    if target in db then State(db - {target}, ActionsFor({target})) else State(db, {})
  }

  // ----- The invariant of a delete in progress --------------------------------------

  // Only doomed rows are gone; the rest lack at most nullable references to gone rows.
  ghost predicate OnlyDoomedGone(db0: Db, target: Key, db: Db) {
    && target !in db
    && (forall k | k in db :: k in db0 && db[k].tag == db0[k].tag)
    && (forall k | k in db0 && k !in db :: Doomed(db0, target, k))
    && (forall k, fk | k in db && fk in db[k].refs :: fk in db0[k].refs && db[k].refs[fk] == db0[k].refs[fk])
    && (forall k, fk | k in db && fk in db0[k].refs && fk !in db[k].refs ::
          Action(fk).SetNull? && db0[k].refs[fk] !in db)
  }

  // Every reference still held to a gone row has its action queued.
  ghost predicate Queued(db0: Db, s: State) {
    forall k, fk | k in s.db && fk in s.db[k].refs && s.db[k].refs[fk] in db0 && s.db[k].refs[fk] !in s.db ::
      Todo(fk, s.db[k].refs[fk]) in s.todo
  }

  ghost predicate TodoGone(db0: Db, s: State) {
    forall a | a in s.todo :: a.parent in db0 && a.parent !in s.db && ParentOf(a.fk) == a.parent.table
  }

  ghost predicate Inv(db0: Db, target: Key, s: State) {
    Integrity(db0) && OnlyDoomedGone(db0, target, s.db) && Queued(db0, s) && TodoGone(db0, s)
  }

  lemma AllFks(fk: Fk)
    ensures fk in FKS
  {
  }

  lemma BeginInv(db0: Db, target: Key)
    requires Integrity(db0)
    ensures Inv(db0, target, Begin(db0, target))
  {
    var s := Begin(db0, target);
    forall k, fk | k in s.db && fk in s.db[k].refs && s.db[k].refs[fk] in db0 && s.db[k].refs[fk] !in s.db
      ensures Todo(fk, s.db[k].refs[fk]) in s.todo
    {
      AllFks(fk);
    }
  }

  lemma CascadeInv(db0: Db, target: Key, s: State, a: Todo)
    requires Inv(db0, target, s) && a in s.todo && Action(a.fk).Cascade?
    ensures Inv(db0, target, Serve(s, a))
  {
    var children, s' := Children(s.db, a), Serve(s, a);
    forall k | k in children ensures Doomed(db0, target, k) {
      assert Doomed(db0, target, a.parent);
      assert DoomedBy(db0, target, k, a.fk);
    }
    forall k, fk | k in s'.db && fk in s'.db[k].refs && s'.db[k].refs[fk] in db0 && s'.db[k].refs[fk] !in s'.db
      ensures Todo(fk, s'.db[k].refs[fk]) in s'.todo
    {
      AllFks(fk);
      var p := s'.db[k].refs[fk];
      if p in s.db {
        assert p in children;
      } else {
        assert Todo(fk, p) in s.todo;
        assert Todo(fk, p) == a ==> k in children;
      }
    }
  }

  lemma ClearedRefs(db: Db, a: Todo)
    ensures var after := Cleared(db, a);
      && after.Keys == db.Keys
      && (forall k | k in db :: after[k].tag == db[k].tag)
      && (forall k, fk | k in db && fk in db[k].refs && !(fk == a.fk && db[k].refs[fk] == a.parent) ::
            fk in after[k].refs && after[k].refs[fk] == db[k].refs[fk])
      && (forall k, fk | k in db && fk in after[k].refs ::
            fk in db[k].refs && after[k].refs[fk] == db[k].refs[fk] && !(fk == a.fk && db[k].refs[fk] == a.parent))
  {
  }

  lemma SetNullGone(db0: Db, target: Key, s: State, a: Todo)
    requires OnlyDoomedGone(db0, target, s.db) && a.parent !in s.db && Action(a.fk).SetNull?
    ensures OnlyDoomedGone(db0, target, Cleared(s.db, a))
  {
    ClearedRefs(s.db, a);
  }

  lemma SetNullInv(db0: Db, target: Key, s: State, a: Todo)
    requires Inv(db0, target, s) && a in s.todo && Action(a.fk).SetNull?
    ensures Inv(db0, target, Serve(s, a))
  {
    var s' := Serve(s, a);
    ClearedRefs(s.db, a);
    SetNullGone(db0, target, s, a);
    forall k, fk | k in s'.db && fk in s'.db[k].refs && s'.db[k].refs[fk] in db0 && s'.db[k].refs[fk] !in s'.db
      ensures Todo(fk, s'.db[k].refs[fk]) in s'.todo
    {
      assert Todo(fk, s.db[k].refs[fk]) in s.todo;
    }
  }

  lemma RestrictInv(db0: Db, target: Key, s: State, a: Todo)
    requires Inv(db0, target, s) && a in s.todo && Action(a.fk).Restrict? && !Refused(s, a)
    ensures Inv(db0, target, Serve(s, a))
  {
    forall k, fk | k in s.db && fk in s.db[k].refs && s.db[k].refs[fk] in db0 && s.db[k].refs[fk] !in s.db
      ensures Todo(fk, s.db[k].refs[fk]) in s.todo - {a}
    {
      assert Todo(fk, s.db[k].refs[fk]) == a ==> k in Children(s.db, a);
    }
  }

  lemma ServeInv(db0: Db, target: Key, s: State, a: Todo)
    requires Inv(db0, target, s) && a in s.todo && !Refused(s, a)
    ensures Inv(db0, target, Serve(s, a))
  {
    match Action(a.fk)
    case Cascade => CascadeInv(db0, target, s, a);
    case SetNull => SetNullInv(db0, target, s, a);
    case Restrict => RestrictInv(db0, target, s, a);
  }

  // With nothing queued, no row refers to one that is gone.
  lemma HeldRefsLive(db0: Db, target: Key, s: State)
    requires Inv(db0, target, s) && s.todo == {}
    ensures forall k, fk | k in s.db && fk in s.db[k].refs :: s.db[k].refs[fk] in s.db
  {
    forall k, fk | k in s.db && fk in s.db[k].refs ensures s.db[k].refs[fk] in s.db {
      assert s.db[k].refs[fk] == db0[k].refs[fk];
      assert Todo(fk, s.db[k].refs[fk]) !in s.todo;
    }
  }

  // With nothing queued, no doomed row is left.
  lemma {:induction false} NoDoomedLeft(db0: Db, target: Key, s: State, k: Key)
    requires Inv(db0, target, s) && s.todo == {} && k in s.db
    ensures !Doomed(db0, target, k)
    decreases Rank(k.table)
  {
    HeldRefsLive(db0, target, s);
    forall fk ensures !DoomedBy(db0, target, k, fk) {
      if fk in db0[k].refs && Action(fk).Cascade? {
        RankFalls(fk);
        assert fk in s.db[k].refs;
        if db0[k].refs[fk].table == ParentOf(fk) && ChildOf(fk) == k.table {
          NoDoomedLeft(db0, target, s, db0[k].refs[fk]);
        }
      }
    }
  }

  /** However the queue was served, what is left is the direct definition. */
  lemma DoneIsAfterDelete(db0: Db, target: Key, s: State)
    requires Inv(db0, target, s) && s.todo == {}
    ensures s.db == AfterDelete(db0, target)
  {
    HeldRefsLive(db0, target, s);
    forall k | k in s.db ensures !Doomed(db0, target, k) {
      NoDoomedLeft(db0, target, s, k);
    }
    forall k | k in s.db ensures s.db[k].refs == KeptRefs(db0, target, db0[k].refs) {
      forall fk | fk in db0[k].refs
        ensures fk in s.db[k].refs <==> !(Action(fk).SetNull? && Doomed(db0, target, db0[k].refs[fk]))
      {
        if fk in s.db[k].refs {
          NoDoomedLeft(db0, target, s, s.db[k].refs[fk]);
        }
      }
    }
    assert s.db.Keys == AfterDelete(db0, target).Keys;
  }

  // ----- Any order ------------------------------------------------------------------

  // The actions of an execution, in the order served, none of them refused.
  ghost predicate ValidOrder(s: State, order: seq<Todo>)
    decreases |order|
  {
    order == [] || (order[0] in s.todo && !Refused(s, order[0]) && ValidOrder(Serve(s, order[0]), order[1..]))
  }

  function ServeAll(s: State, order: seq<Todo>): State
    decreases |order|
  {
    if order == [] then s else ServeAll(Serve(s, order[0]), order[1..])
  }

  lemma {:induction false} OrderInv(db0: Db, target: Key, s: State, order: seq<Todo>)
    requires Inv(db0, target, s) && ValidOrder(s, order)
    ensures Inv(db0, target, ServeAll(s, order))
    decreases |order|
  {
    if order != [] {
      ServeInv(db0, target, s, order[0]);
      OrderInv(db0, target, Serve(s, order[0]), order[1..]);
    }
  }

  /** Every complete execution of a delete ends in the same database. */
  lemma OrderDoesNotMatter(db: Db, target: Key, order: seq<Todo>)
    requires Valid(db) && ValidOrder(Begin(db, target), order)
    requires ServeAll(Begin(db, target), order).todo == {}
    ensures ServeAll(Begin(db, target), order).db == AfterDelete(db, target)
  {
    BeginInv(db, target);
    OrderInv(db, target, Begin(db, target), order);
    DoneIsAfterDelete(db, target, ServeAll(Begin(db, target), order));
  }

  // Nothing cascades into a team or a scenario.
  lemma DoomedRoot(db: Db, target: Key, k: Key)
    requires k.table.Teams? || k.table.Scenarios?
    ensures Doomed(db, target, k) <==> k == target
  {
    if k in db {
      forall fk ensures !DoomedBy(db, target, k, fk) {
        RankFalls(fk);
      }
    }
  }

  // Only the deletion of the target itself can queue a RESTRICT check.
  lemma CheckIsTheTargets(db0: Db, target: Key, s: State, a: Todo)
    requires Inv(db0, target, s) && a in s.todo && Action(a.fk).Restrict?
    ensures a.parent == target && target.table.Scenarios?
  {
    assert Doomed(db0, target, a.parent);
    DoomedRoot(db0, target, a.parent);
  }

  lemma RefusalMeansRestricted(db0: Db, target: Key, s: State, a: Todo)
    requires OnlyDoomedGone(db0, target, s.db) && a.parent == target && Refused(s, a)
    ensures Restricted(db0, target)
  {
    var k :| k in Children(s.db, a);
    assert k in db0 && RunScenario in db0[k].refs && db0[k].refs[RunScenario] == target;
  }

  lemma RefusalIsTheTargets(db0: Db, target: Key, s: State, a: Todo)
    requires Inv(db0, target, s) && a in s.todo && Action(a.fk).Restrict?
    ensures a.parent == target && target.table.Scenarios?
    ensures Refused(s, a) ==> Restricted(db0, target)
  {
    CheckIsTheTargets(db0, target, s, a);
    if Refused(s, a) {
      RefusalMeansRestricted(db0, target, s, a);
    }
  }

  /** No action of a delete is ever refused, in any order, unless a run refers to the scenario deleted. */
  lemma NeverRefused(db: Db, target: Key, order: seq<Todo>, a: Todo)
    requires Valid(db) && ValidOrder(Begin(db, target), order)
    requires a in ServeAll(Begin(db, target), order).todo && Refused(ServeAll(Begin(db, target), order), a)
    ensures target.table.Scenarios? && Restricted(db, target)
  {
    BeginInv(db, target);
    OrderInv(db, target, Begin(db, target), order);
    RefusalIsTheTargets(db, target, ServeAll(Begin(db, target), order), a);
  }

  // While a run refers to the deleted scenario, the scenario's check stays queued and the
  // rest of the database stays as it was.
  ghost predicate Held(db0: Db, target: Key, s: State) {
    Restricted(db0, target) ==> Todo(RunScenario, target) in s.todo && s.db == db0 - {target}
  }

  lemma BeginHeld(db0: Db, target: Key)
    requires Integrity(db0)
    ensures Held(db0, target, Begin(db0, target))
  {
    if Restricted(db0, target) {
      var k :| k in db0 && RunScenario in db0[k].refs && db0[k].refs[RunScenario] == target;
      RequiredRef(db0, k, RunScenario);
      AllFks(RunScenario);
    }
  }

  // While a run refers to the deleted scenario, the only action there is to serve is refused.
  lemma RestrictedIsRefused(db0: Db, target: Key, s: State, a: Todo)
    requires Integrity(db0) && TodoGone(db0, s) && Held(db0, target, s) && a in s.todo && Restricted(db0, target)
    ensures Refused(s, a)
  {
    var k :| k in db0 && RunScenario in db0[k].refs && db0[k].refs[RunScenario] == target;
    RequiredRef(db0, k, RunScenario);
    assert a.parent == target;
    assert a == Todo(RunScenario, target);
    assert k in Children(s.db, a);
  }

  // A delete in progress.
  ghost predicate Ongoing(db0: Db, target: Key, s: State) {
    Inv(db0, target, s) && Held(db0, target, s)
  }

  lemma Begins(db0: Db, target: Key)
    requires Valid(db0)
    ensures Ongoing(db0, target, Begin(db0, target))
  {
    BeginInv(db0, target);
    BeginHeld(db0, target);
  }

  lemma Serves(db0: Db, target: Key, s: State, a: Todo)
    requires Ongoing(db0, target, s) && a in s.todo && !Refused(s, a)
    ensures Ongoing(db0, target, Serve(s, a))
  {
    if Restricted(db0, target) {
      RestrictedIsRefused(db0, target, s, a);
    } else {
      ServeInv(db0, target, s, a);
    }
  }

  // What a DELETE comes to: nothing, if it is refused.
  ghost function Outcome(db: Db, target: Key): Option<Db> {
    if Restricted(db, target) then None else Some(AfterDelete(db, target))
  }

  lemma Refuses(db0: Db, target: Key, s: State, a: Todo)
    requires Ongoing(db0, target, s) && a in s.todo && Refused(s, a)
    ensures Outcome(db0, target) == None
  {
    RefusalIsTheTargets(db0, target, s, a);
  }

  lemma Ends(db0: Db, target: Key, s: State)
    requires Ongoing(db0, target, s) && s.todo == {}
    ensures Outcome(db0, target) == Some(s.db)
  {
    DoneIsAfterDelete(db0, target, s);
  }

  // Serves the queue in whatever order the actions come, until one is refused.
  method ServeQueue(db: Db, target: Key) returns (left: Option<Db>)
    requires Valid(db)
    ensures left == Outcome(db, target)
  {
    var s := Begin(db, target);
    Begins(db, target);
    while s.todo != {}
      invariant Ongoing(db, target, s)
      decreases s.db.Keys, s.todo
    {
      var a :| a in s.todo;
      if Refused(s, a) {
        Refuses(db, target, s, a);
        return None;
      }
      Serves(db, target, s, a);
      ServeShrinks(s, a);
      s := Serve(s, a);
    }
    Ends(db, target, s);
    left := Some(s.db);
  }

  class Store {
    var db: Db

    /** Deletes a row with all that follows, or, if some action is refused, changes nothing. */
    method Delete(target: Key) returns (ok: bool)
      requires Valid(db)
      modifies this
      ensures ok <==> !Restricted(old(db), target)
      ensures db == if ok then AfterDelete(old(db), target) else old(db)
      ensures Valid(db)
    {
      var left := ServeQueue(db, target);
      ok := left.Some?;
      if ok {
        DeleteKeepsValid(db, target);
        db := left.value;
      }
    }
  }

  // Serving an action removes rows, or only shortens the queue.
  lemma ServeShrinks(s: State, a: Todo)
    requires a in s.todo
    ensures Serve(s, a).db.Keys < s.db.Keys || (Serve(s, a).db.Keys == s.db.Keys && Serve(s, a).todo < s.todo)
  {
    ClearedRefs(s.db, a);
    var children := Children(s.db, a);
    if Action(a.fk).Cascade? {
      if children == {} {
        assert ActionsFor(children) == {};
        assert s.db - children == s.db;
      } else {
        var k :| k in children;
        assert k in s.db.Keys && k !in Serve(s, a).db.Keys;
      }
    }
  }

  // ----- What a delete means --------------------------------------------------------

  lemma CollideLess(k: Key, r: Row, r0: Row, k': Key, r': Row, r0': Row)
    requires r.tag == r0.tag && r'.tag == r0'.tag
    requires forall fk | fk in r.refs :: fk in r0.refs && r0.refs[fk] == r.refs[fk]
    requires forall fk | fk in r'.refs :: fk in r0'.refs && r0'.refs[fk] == r'.refs[fk]
    requires Collide(k, r, k', r')
    ensures Collide(k, r0, k', r0')
  {
  }

  /** A delete that succeeds leaves every reference and every unique index sound. */
  lemma DeleteKeepsValid(db: Db, target: Key)
    requires Valid(db) && !Restricted(db, target)
    ensures Valid(AfterDelete(db, target))
  {
    var after := AfterDelete(db, target);
    forall k, fk | k in after && fk in after[k].refs
      ensures ChildOf(fk) == k.table && after[k].refs[fk].table == ParentOf(fk) && after[k].refs[fk] in after
    {
      var p := db[k].refs[fk];
      RequiredRef(db, k, fk);
      if Action(fk).Cascade? {
        RankFalls(fk);
        assert DoomedBy(db, target, k, fk) <==> Doomed(db, target, p);
      } else if Action(fk).Restrict? {
        DoomedRoot(db, target, p);
      }
    }
    forall k, k' | k in after && k' in after && k != k' ensures !Collide(k, after[k], k', after[k']) {
      if Collide(k, after[k], k', after[k']) {
        CollideLess(k, after[k], db[k], k', after[k'], db[k']);
      }
    }
  }

  function RefTo(db: Db, k: Key, fk: Fk): Option<Key> {
    if k in db && fk in db[k].refs then Some(db[k].refs[fk]) else None
  }

  /** Only a scenario can be undeletable, and only while some run was made from it. */
  lemma UndeletableIff(db: Db, target: Key)
    requires Valid(db)
    ensures Restricted(db, target) <==>
      target.table.Scenarios? && exists k :: k in db && k.table.Runs? && RefTo(db, k, RunScenario) == Some(target)
  {
    if Restricted(db, target) {
      var k :| k in db && RunScenario in db[k].refs && db[k].refs[RunScenario] == target;
      RequiredRef(db, k, RunScenario);
      assert RefTo(db, k, RunScenario) == Some(target);
    }
  }

  // A row with one cascading reference is doomed exactly when that leads to a doomed row.
  lemma DoomedThrough(db: Db, target: Key, k: Key, fk: Fk)
    requires Valid(db) && k in db && k != target && ChildOf(fk) == k.table && Action(fk).Cascade?
    requires forall g | ChildOf(g) == k.table && Action(g).Cascade? :: g == fk
    ensures RefTo(db, k, fk).Some?
    ensures Doomed(db, target, k) <==> Doomed(db, target, RefTo(db, k, fk).value)
  {
    RequiredRef(db, k, fk);
    RankFalls(fk);
    assert DoomedBy(db, target, k, fk) <==> Doomed(db, target, db[k].refs[fk]);
    forall g | DoomedBy(db, target, k, g) ensures g == fk {
    }
  }

  /**
   Runs are reached twice from a team. Deleting the team takes its own runs, and leaves
   another team's run in place, without its link when the incident was the team's.
   */
  lemma TeamDelete(db: Db, team: Key, run: Key)
    requires Valid(db) && team.table.Teams? && run in db && run.table.Runs?
    ensures run in AfterDelete(db, team) <==> RefTo(db, run, RunTeam) != Some(team)
    ensures var incident := RefTo(db, run, RunIncident);
      run in AfterDelete(db, team) ==>
        RefTo(AfterDelete(db, team), run, RunIncident) ==
          if incident.Some? && RefTo(db, incident.value, IncidentTeam) == Some(team) then None else incident
  {
    RequiredRef(db, run, RunTeam);
    DoomedThrough(db, team, run, RunTeam);
    DoomedRoot(db, team, db[run].refs[RunTeam]);
    if RunIncident in db[run].refs {
      RequiredRef(db, run, RunIncident);
      var incident := db[run].refs[RunIncident];
      RequiredRef(db, incident, IncidentTeam);
      DoomedThrough(db, team, incident, IncidentTeam);
      DoomedRoot(db, team, db[incident].refs[IncidentTeam]);
    }
  }

  // A row with one cascading reference goes exactly when what it refers to goes.
  lemma GoesWithParent(db: Db, target: Key, k: Key, fk: Fk)
    requires Valid(db) && k in db && k != target && ChildOf(fk) == k.table && Action(fk).Cascade?
    requires forall g | ChildOf(g) == k.table && Action(g).Cascade? :: g == fk
    ensures RefTo(db, k, fk).Some? && RefTo(db, k, fk).value in db
    ensures k in AfterDelete(db, target) <==> RefTo(db, k, fk).value in AfterDelete(db, target)
  {
    RequiredRef(db, k, fk);
    DoomedThrough(db, target, k, fk);
  }

  /**
   Everything below an incident goes with it, and nothing else does: its events, analyses
   and postmortem, and the hypotheses of its analyses.
   */
  lemma IncidentTakes(db: Db, incident: Key, k: Key)
    requires Valid(db) && incident.table.Incidents? && k in db
    ensures var kept := k in AfterDelete(db, incident);
      && (k.table.Events? ==> (kept <==> RefTo(db, k, EventIncident) != Some(incident)))
      && (k.table.Analyses? ==> (kept <==> RefTo(db, k, AnalysisIncident) != Some(incident)))
      && (k.table.Postmortems? ==> (kept <==> RefTo(db, k, PostmortemIncident) != Some(incident)))
      && (k.table.Hypotheses? ==>
            var analysis := RefTo(db, k, HypothesisAnalysis);
            analysis.Some? && (kept <==> RefTo(db, analysis.value, AnalysisIncident) != Some(incident)))
      && (k.table.Incidents? ==> (kept <==> k != incident))
  {
    match k.table
    case Events => BelowIncident(db, incident, k, EventIncident);
    case Analyses => BelowIncident(db, incident, k, AnalysisIncident);
    case Postmortems => BelowIncident(db, incident, k, PostmortemIncident);
    case Hypotheses =>
      RequiredRef(db, k, HypothesisAnalysis);
      GoesWithParent(db, incident, k, HypothesisAnalysis);
      BelowIncident(db, incident, RefTo(db, k, HypothesisAnalysis).value, AnalysisIncident);
    case Incidents => if k != incident { OutOfReach(db, incident, k); }
    case _ =>
  }

  lemma BelowIncident(db: Db, incident: Key, k: Key, fk: Fk)
    requires Valid(db) && incident.table.Incidents? && k in db
    requires fk.EventIncident? || fk.AnalysisIncident? || fk.PostmortemIncident?
    requires ChildOf(fk) == k.table
    ensures k in AfterDelete(db, incident) <==> RefTo(db, k, fk) != Some(incident)
  {
    RequiredRef(db, k, fk);
    GoesWithParent(db, incident, k, fk);
    var parent := RefTo(db, k, fk).value;
    if parent != incident {
      OutOfReach(db, incident, parent);
    }
  }

  /** A team takes its users, integrations and incidents, and everything below its incidents. */
  lemma TeamTakes(db: Db, team: Key, k: Key)
    requires Valid(db) && team.table.Teams? && k in db
    ensures var kept := k in AfterDelete(db, team);
      && (k.table.Users? ==> (kept <==> RefTo(db, k, UserTeam) != Some(team)))
      && (k.table.Integrations? ==> (kept <==> RefTo(db, k, IntegrationTeam) != Some(team)))
      && (k.table.Incidents? ==> (kept <==> RefTo(db, k, IncidentTeam) != Some(team)))
      && (k.table.Events? ==>
            RefTo(db, k, EventIncident).Some? && (kept <==> RefTo(db, k, EventIncident).value in AfterDelete(db, team)))
      && (k.table.Teams? ==> (kept <==> k != team)) && (k.table.Scenarios? ==> kept)
  {
    match k.table
    case Users => OfTeam(db, team, k, UserTeam);
    case Integrations => OfTeam(db, team, k, IntegrationTeam);
    case Incidents => OfTeam(db, team, k, IncidentTeam);
    case Events => GoesWithParent(db, team, k, EventIncident);
    case Teams => DoomedRoot(db, team, k);
    case Scenarios => DoomedRoot(db, team, k);
    case _ =>
  }

  lemma OfTeam(db: Db, team: Key, k: Key, fk: Fk)
    requires Valid(db) && team.table.Teams? && k in db && ChildOf(fk) == k.table
    requires fk.UserTeam? || fk.IntegrationTeam? || fk.IncidentTeam?
    ensures k in AfterDelete(db, team) <==> RefTo(db, k, fk) != Some(team)
  {
    RequiredRef(db, k, fk);
    GoesWithParent(db, team, k, fk);
    DoomedRoot(db, team, RefTo(db, k, fk).value);
  }

  // Deleting an incident dooms no other incident, no run and no result.
  lemma {:induction false} OutOfReach(db: Db, incident: Key, k: Key)
    requires Valid(db) && incident.table.Incidents? && k in db && k != incident
    requires k.table.Incidents? || k.table.Runs? || k.table.Results?
    ensures !Doomed(db, incident, k)
    decreases Rank(k.table)
  {
    var fk := if k.table.Incidents? then IncidentTeam else if k.table.Runs? then RunTeam else ResultRun;
    RequiredRef(db, k, fk);
    DoomedThrough(db, incident, k, fk);
    if k.table.Results? {
      OutOfReach(db, incident, db[k].refs[ResultRun]);
    } else {
      DoomedRoot(db, incident, db[k].refs[fk]);
    }
  }

  lemma LinkIsCut(db: Db, incident: Key, k: Key, fk: Fk)
    requires Valid(db) && incident.table.Incidents? && k in db && fk in db[k].refs
    ensures Action(fk).SetNull? && Doomed(db, incident, db[k].refs[fk]) <==>
      fk.RunIncident? && db[k].refs[fk] == incident
  {
    RequiredRef(db, k, fk);
    if fk.RunIncident? && db[k].refs[fk] != incident {
      OutOfReach(db, incident, db[k].refs[fk]);
    }
  }

  /** Deleting an incident keeps every run and every result, unlinking only its own runs. */
  lemma IncidentDelete(db: Db, incident: Key, k: Key)
    requires Valid(db) && incident.table.Incidents? && k in db && (k.table.Runs? || k.table.Results?)
    ensures k in AfterDelete(db, incident)
    ensures AfterDelete(db, incident)[k] == db[k].(refs :=
      if RefTo(db, k, RunIncident) == Some(incident) then db[k].refs - {RunIncident} else db[k].refs)
  {
    OutOfReach(db, incident, k);
    var refs := db[k].refs;
    forall fk | fk in refs
      ensures fk in KeptRefs(db, incident, refs) <==> !(fk.RunIncident? && refs[fk] == incident)
    {
      LinkIsCut(db, incident, k, fk);
    }
    if RefTo(db, k, RunIncident) == Some(incident) {
      assert KeptRefs(db, incident, refs) == refs - {RunIncident};
    } else {
      assert KeptRefs(db, incident, refs) == refs;
    }
  }
}
