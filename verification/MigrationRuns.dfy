/**
 Any number of migrating processes at once (Migrate and applyMigration of
 internal/db/migrate.go), interleaved call by call.

 Each process has a client phase and a database session. The advisory lock and an open
 transaction belong to the session: they disappear when the session ends, which can happen
 at any time. A COMMIT is sent first and takes effect on the server later; the client may
 lose the reply, crash, or never learn the outcome, and the session's queue is in order, so
 ROLLBACK and the unlock are only served after it.
 */
module MigrationRuns {
  import opened Wrappers
  import opened Migrations

  datatype Work = Idle | InTxn(body: bool, row: bool) | Committing(body: bool, row: bool)

  datatype Reply = Waiting | Committed | Aborted

  datatype Session = Session(open: bool, locked: bool, work: Work, reply: Reply)

  datatype Phase =
    | Acquiring | Locking | Ensuring | Reading
    | Looping | Beginning | Running | Recording | SendingCommit | Awaiting
    | RollingBack | Unlocking | Done | Crashed

  // recorded is the one-time snapshot, base the schema when it was taken, applied what the
  // run has applied, files[i] the file it is looking at, and error what it will return.
  datatype Proc = Proc(files: seq<Migration>, phase: Phase, session: Session,
                       recorded: Rows, base: seq<Migration>, i: nat, applied: seq<Migration>,
                       error: Option<MigrateError>)

  datatype State = State(rows: Rows, schema: seq<Migration>, procs: seq<Proc>)

  // executed: the server did what was asked although the client saw an error.
  datatype Action =
    | AcquireOk | LockOk | EnsureOk | ReadOk
    | Skip | Drift | Missing | Finish
    | BeginOk | BodyOk | InsertOk | SendCommit | CommitOk
    | ServerCommit | ServerAbort
    | Fail(executed: bool)
    | RollbackOk | RollbackErr | UnlockOk | UnlockErr(executed: bool)
    | SessionEnd | Crash

  datatype Step = Step(p: nat, action: Action)

  const NEW_SESSION := Session(true, false, Idle, Waiting)

  predicate LockFree(s: State) {
    forall p | 0 <= p < |s.procs| :: !s.procs[p].session.locked
  }

  // Between the advisory lock and its release, as the client sees it.
  predicate InLock(f: Phase) {
    !(f.Acquiring? || f.Locking? || f.Done? || f.Crashed?)
  }

  // Inside the loop over the files.
  predicate InLoop(f: Phase) {
    InLock(f) && !(f.Ensuring? || f.Reading? || f.RollingBack? || f.Unlocking?)
  }

  // Working on files[i].
  predicate InApply(f: Phase) {
    InLoop(f) && !f.Looping?
  }

  predicate Enabled(s: State, step: Step) {
    step.p < |s.procs| &&
    var q := s.procs[step.p];
    var up := q.session.open;
    match step.action
    case AcquireOk => q.phase.Acquiring?
    case LockOk => q.phase.Locking? && up && LockFree(s)
    case EnsureOk => q.phase.Ensuring? && up
    case ReadOk => q.phase.Reading? && up
    case Skip =>
      && q.phase.Looping? && q.i < |q.files|
      && q.files[q.i].version in q.recorded && !Drifted(q.files[q.i], q.recorded)
    case Drift => q.phase.Looping? && q.i < |q.files| && Drifted(q.files[q.i], q.recorded)
    case Missing => q.phase.Looping? && q.i < |q.files| && q.files[q.i].version !in q.recorded
    case Finish => q.phase.Looping? && q.i == |q.files|
    case BeginOk => q.phase.Beginning? && up
    case BodyOk => q.phase.Running? && up && q.session.work.InTxn?
    case InsertOk =>
      && q.phase.Recording? && up && q.session.work.InTxn?
      && q.i < |q.files| && q.files[q.i].version !in s.rows
    case SendCommit => q.phase.SendingCommit? && up && q.session.work.InTxn?
    case CommitOk => q.phase.Awaiting? && q.session.reply.Committed? && q.i < |q.files|
    case ServerCommit => q.session.work.Committing? && q.i < |q.files|
    case ServerAbort => q.session.work.Committing?
    case Fail(executed) =>
      && (InLoop(q.phase) || q.phase.Acquiring? || q.phase.Locking? || q.phase.Ensuring? || q.phase.Reading?)
      && !q.phase.Looping?
      && (executed ==> up && match q.phase
                             case Locking => LockFree(s)
                             case Beginning => true
                             case Running => q.session.work.InTxn?
                             case Recording => q.session.work.InTxn?
                             case _ => false)
    case RollbackOk => q.phase.RollingBack? && up && !q.session.work.Committing?
    case RollbackErr => q.phase.RollingBack?
    case UnlockOk => q.phase.Unlocking? && up && !q.session.work.Committing?
    case UnlockErr(executed) => q.phase.Unlocking? && (executed ==> up && !q.session.work.Committing?)
    case SessionEnd => up
    case Crash => !q.phase.Done? && !q.phase.Crashed?
  }

  // What a call that goes through does to the session.
  function Serve(f: Phase, n: Session): Session {
    match f
    case Locking => n.(locked := true)
    case Beginning => n.(work := InTxn(false, false))
    case Running => if n.work.InTxn? then n.(work := InTxn(true, n.work.row)) else n
    case Recording => if n.work.InTxn? then n.(work := InTxn(n.work.body, true)) else n
    case SendingCommit => if n.work.InTxn? then n.(work := Committing(n.work.body, n.work.row), reply := Waiting) else n
    case _ => n
  }

  // The error of a call that fails in the current phase.
  function FailureOf(q: Proc): Option<MigrateError> {
    match q.phase
    case Acquiring => Some(NoConnection)
    case Locking => Some(NoLock)
    case Ensuring => Some(NoTable)
    case Reading => Some(NoSnapshot)
    case _ => if q.i < |q.files| then Some(ApplyFailed(q.files[q.i])) else None
  }

  function Act(s: State, q: Proc, a: Action): Proc {
    var n := q.session;
    match a
    case AcquireOk => q.(phase := Locking, session := NEW_SESSION)
    case LockOk => q.(phase := Ensuring, session := Serve(q.phase, n))
    case EnsureOk => q.(phase := Reading)
    case ReadOk => q.(phase := Looping, recorded := s.rows, base := s.schema)
    case Skip => q.(i := q.i + 1)
    case Drift =>
      q.(phase := Unlocking, error := if q.i < |q.files| then Some(ChecksumMismatch(q.files[q.i])) else None)
    case Missing => q.(phase := Beginning)
    case Finish => q.(phase := Unlocking)
    case BeginOk => q.(phase := Running, session := Serve(q.phase, n))
    case BodyOk => q.(phase := Recording, session := Serve(q.phase, n))
    case InsertOk => q.(phase := SendingCommit, session := Serve(q.phase, n))
    case SendCommit => q.(phase := Awaiting, session := Serve(q.phase, n))
    case CommitOk =>
      if q.i < |q.files|
      then q.(phase := Looping, session := n.(reply := Waiting), i := q.i + 1, applied := q.applied + [q.files[q.i]])
      else q
    case ServerCommit => q.(session := n.(work := Idle, reply := Committed))
    case ServerAbort => q.(session := n.(work := Idle, reply := Aborted))
    case Fail(executed) =>
      q.(error := FailureOf(q),
         session := if executed then Serve(q.phase, n) else n,
         phase := if q.phase.Acquiring? || q.phase.Locking? then Done
                  else if InApply(q.phase) && !q.phase.Beginning? then RollingBack
                  else Unlocking)
    case RollbackOk => q.(phase := Unlocking, session := n.(work := Idle))
    case RollbackErr => q.(phase := Unlocking)
    case UnlockOk => q.(phase := Done, session := n.(locked := false))
    case UnlockErr(executed) => q.(phase := Done, session := n.(locked := n.locked && !executed))
    case SessionEnd => q.(session := n.(open := false, locked := false, work := Idle))
    case Crash => q.(phase := Crashed)
  }

  // A commit makes whatever its transaction did visible.
  function Next(s: State, step: Step): State
    requires Enabled(s, step)
  {
    var q := s.procs[step.p];
    var procs := s.procs[step.p := Act(s, q, step.action)];
    if step.action.ServerCommit? then
      var m := q.files[q.i];
      State(if q.session.work.row then s.rows[m.version := m.checksum] else s.rows,
            if q.session.work.body then s.schema + [m] else s.schema,
            procs)
    else
      State(s.rows, s.schema, procs)
  }

  ghost predicate ValidRun(s: State, steps: seq<Step>)
    decreases |steps|
  {
    steps == [] || (Enabled(s, steps[0]) && ValidRun(Next(s, steps[0]), steps[1..]))
  }

  function Exec(s: State, steps: seq<Step>): State
    requires ValidRun(s, steps)
    decreases |steps|
  {
    if steps == [] then s else Exec(Next(s, steps[0]), steps[1..])
  }

  // ----- The invariant --------------------------------------------------------------

  function Count(schema: seq<Migration>, version: string): nat {
    if schema == [] then 0 else
    Count(schema[..|schema| - 1], version) + if schema[|schema| - 1].version == version then 1 else 0
  }

  // Each recorded version's body took effect exactly once, no other body did, and the row
  // carries the checksum of the body that ran.
  ghost predicate Consistent(rows: Rows, schema: seq<Migration>) {
    && (forall v :: Count(schema, v) == if v in rows then 1 else 0)
    && Records(rows, schema)
  }

  ghost predicate Records(rows: Rows, ms: seq<Migration>) {
    forall m | m in ms :: m.version in rows && rows[m.version] == m.checksum
  }

  ghost predicate Covers(rows: Rows, sub: Rows) {
    forall v | v in sub :: v in rows && rows[v] == sub[v]
  }

  // files[i] is committed but not counted as applied: not yet, or never if the reply is lost.
  predicate Unacknowledged(q: Proc) {
    q.session.reply.Committed? && q.i < |q.files|
  }

  // What this run has committed.
  function Known(q: Proc): seq<Migration> {
    q.applied + if Unacknowledged(q) then [q.files[q.i]] else []
  }

  // The run stopped before it had its snapshot.
  predicate NoSnapshotTaken(q: Proc) {
    q.error == Some(NoTable) || q.error == Some(NoSnapshot)
  }

  predicate Succeeded(q: Proc) {
    q.phase.Done? && q.error.None?
  }

  // A live claim on the database: the session has the lock, and the snapshot is taken.
  predicate Claims(q: Proc) {
    q.session.locked
    && (InLoop(q.phase) || q.phase.RollingBack? || q.session.work.Committing?
        || (q.phase.Unlocking? && !NoSnapshotTaken(q)))
  }

  // The phases that a commit in flight, or its unread reply, can be found in.
  predicate InCommit(f: Phase) {
    f.Awaiting? || f.RollingBack? || f.Unlocking? || f.Done? || f.Crashed?
  }

  ghost predicate SessionInv(q: Proc) {
    var n := q.session;
    && (n.locked || n.work != Idle ==> n.open)
    && (InLock(q.phase) && n.open ==> n.locked)
    && (n.work.Committing? ==> n.locked && n.work == Committing(true, true) && !n.reply.Committed?)
    && (n.work.Committing? || n.reply.Committed? ==> InCommit(q.phase))
    && (n.open ==>
          match q.phase
          case Running => n.work == InTxn(false, false)
          case Recording => n.work == InTxn(true, false)
          case SendingCommit => n.work == InTxn(true, true)
          case Awaiting => if n.reply.Waiting? then n.work == Committing(true, true) else n.work == Idle
          case RollingBack => true
          case Unlocking => true
          case Done => true
          case Crashed => true
          case _ => n.work == Idle)
  }

  // The error names what stopped the run.
  ghost predicate ErrorInv(q: Proc) {
    match q.error
    case None => !q.phase.RollingBack?
    case Some(e) =>
      && (q.phase.RollingBack? || q.phase.Unlocking? || q.phase.Done? || q.phase.Crashed?)
      && match e
         case ChecksumMismatch(m) => q.i < |q.files| && m == q.files[q.i] && Drifted(m, q.recorded)
         case ApplyFailed(m) => q.i < |q.files| && m == q.files[q.i] && m.version !in q.recorded
         case LoadFailed(_) => false
         case _ => q.i == 0 && (q.phase.RollingBack? || q.phase.Unlocking? ==> NoSnapshotTaken(q))
  }

  ghost predicate LoopInv(q: Proc) {
    && DistinctVersions(q.files)
    && q.i <= FirstDrift(q.files, q.recorded)
    && q.applied == Pending(q.files[..q.i], q.recorded)
    && (InApply(q.phase) || q.session.work.Committing? || q.session.reply.Committed? ==>
          q.i < |q.files| && q.files[q.i].version !in q.recorded)
    && (q.session.work.Committing? || q.session.reply.Committed? ==>
          q.phase.Awaiting? || q.phase.Crashed? || (q.i < |q.files| && q.error == Some(ApplyFailed(q.files[q.i]))))
    && ((q.phase.Unlocking? || q.phase.Done?) && q.error.None? ==> q.i == |q.files|)
    && (q.phase.Acquiring? || q.phase.Locking? || q.phase.Ensuring? || q.phase.Reading? ==> q.i == 0)
    && ErrorInv(q)
  }

  ghost predicate DataInv(rows: Rows, schema: seq<Migration>, q: Proc) {
    && Covers(rows, q.recorded) && Records(rows, Known(q))
    && q.base + Known(q) <= schema
    && (Claims(q) ==> rows == q.recorded + RowsOf(Known(q)) && schema == q.base + Known(q))
  }

  ghost predicate ProcInv(rows: Rows, schema: seq<Migration>, q: Proc) {
    SessionInv(q) && LoopInv(q) && DataInv(rows, schema, q)
  }

  function End(q: Proc): nat { |q.base| + |Known(q)| }

  ghost predicate OneLock(procs: seq<Proc>) {
    forall p, r | 0 <= p < |procs| && 0 <= r < |procs| && procs[p].session.locked && procs[r].session.locked :: p == r
  }

  // Two runs' additions do not overlap, and a run that holds the lock comes last.
  ghost predicate Apart(procs: seq<Proc>) {
    forall p, r | 0 <= p < |procs| && 0 <= r < |procs| && p != r ::
      && (End(procs[p]) <= |procs[r].base| || End(procs[r]) <= |procs[p].base|)
      && (Claims(procs[r]) ==> End(procs[p]) <= |procs[r].base|)
  }

  ghost predicate Inv(s: State) {
    && Consistent(s.rows, s.schema)
    && OneLock(s.procs)
    && Apart(s.procs)
    && forall p | 0 <= p < |s.procs| :: ProcInv(s.rows, s.schema, s.procs[p])
  }

  function NewProc(files: seq<Migration>): Proc {
    Proc(files, Acquiring, Session(false, false, Idle, Waiting), map[], [], 0, [], None)
  }

  // Every process is about to start, over a database earlier runs left consistent.
  ghost predicate Init(s: State) {
    && Consistent(s.rows, s.schema)
    && forall p | 0 <= p < |s.procs| ::
         DistinctVersions(s.procs[p].files)
         && s.procs[p] == NewProc(s.procs[p].files)
  }

  lemma InitInv(s: State)
    requires Init(s)
    ensures Inv(s)
  {
    forall p | 0 <= p < |s.procs| ensures ProcInv(s.rows, s.schema, s.procs[p]) {
      var q := s.procs[p];
      assert q.files[..0] == [] && Known(q) == [] && q.base + Known(q) == [];
    }
  }

  // ----- Preservation, one process's own step ---------------------------------------

  lemma SessionStep(s: State, step: Step)
    requires Enabled(s, step) && SessionInv(s.procs[step.p])
    ensures SessionInv(Act(s, s.procs[step.p], step.action))
  {
  }

  // Past a file that has not drifted, the first drift is still ahead.
  lemma DriftAhead(files: seq<Migration>, recorded: Rows, i: nat)
    requires i < |files| && i <= FirstDrift(files, recorded) && !Drifted(files[i], recorded)
    ensures i + 1 <= FirstDrift(files, recorded)
  {
  }

  lemma LoopSkips(s: State, step: Step)
    requires Enabled(s, step) && SessionInv(s.procs[step.p]) && LoopInv(s.procs[step.p]) && step.action.Skip?
    ensures LoopInv(Act(s, s.procs[step.p], step.action))
  {
    var q := s.procs[step.p];
    DriftAhead(q.files, q.recorded, q.i);
    SkipNext(q.files, q.i, q.recorded);
  }

  lemma LoopApplies(s: State, step: Step)
    requires Enabled(s, step) && SessionInv(s.procs[step.p]) && LoopInv(s.procs[step.p]) && step.action.CommitOk?
    ensures LoopInv(Act(s, s.procs[step.p], step.action))
  {
    var q := s.procs[step.p];
    DriftAhead(q.files, q.recorded, q.i);
    PendingOneMore(q.files, q.i, q.recorded);
  }

  // Every other step leaves the run's position, and starts on files[i] only when it is missing.
  lemma LoopStays(s: State, step: Step)
    requires Enabled(s, step) && SessionInv(s.procs[step.p])
    requires !(step.action.Skip? || step.action.CommitOk? || step.action.ReadOk?)
    ensures var q, q' := s.procs[step.p], Act(s, s.procs[step.p], step.action);
      && q'.files == q.files && q'.i == q.i && q'.recorded == q.recorded && q'.applied == q.applied
      && (step.action.Drift? || step.action.Fail? || q'.error == q.error)
      && (step.action.Drift? ==>
            && q.i < |q.files| && Drifted(q.files[q.i], q.recorded)
            && q'.error == Some(ChecksumMismatch(q.files[q.i])))
      && (step.action.Fail? ==> q'.error == FailureOf(q))
      && (InApply(q'.phase) || q'.session.work.Committing? || q'.session.reply.Committed? ==>
            InApply(q.phase) || q.session.work.Committing? || q.session.reply.Committed?
            || (q.i < |q.files| && q.files[q.i].version !in q.recorded))
  {
  }

  lemma LoopReads(s: State, step: Step)
    requires Enabled(s, step) && SessionInv(s.procs[step.p]) && LoopInv(s.procs[step.p]) && step.action.ReadOk?
    ensures LoopInv(Act(s, s.procs[step.p], step.action))
  {
    assert s.procs[step.p].files[..0] == [];
  }

  lemma LoopRests(s: State, step: Step)
    requires Enabled(s, step) && SessionInv(s.procs[step.p]) && LoopInv(s.procs[step.p])
    requires !(step.action.Skip? || step.action.CommitOk? || step.action.ReadOk?)
    ensures LoopInv(Act(s, s.procs[step.p], step.action))
  {
    LoopStays(s, step);
  }

  lemma LoopStep(s: State, step: Step)
    requires Enabled(s, step) && SessionInv(s.procs[step.p]) && LoopInv(s.procs[step.p])
    ensures LoopInv(Act(s, s.procs[step.p], step.action))
  {
    match step.action
    case Skip => LoopSkips(s, step);
    case CommitOk => LoopApplies(s, step);
    case ReadOk => LoopReads(s, step);
    case _ => LoopRests(s, step);
  }

  // Steps that commit nothing leave what the run knows and claims in place.
  lemma QuietClaims(s: State, step: Step)
    requires Enabled(s, step) && !step.action.ServerCommit? && !step.action.ReadOk?
    requires SessionInv(s.procs[step.p])
    ensures var q, q' := s.procs[step.p], Act(s, s.procs[step.p], step.action);
      Claims(q') ==> Claims(q) && (!step.action.CommitOk? && Unacknowledged(q) ==> Unacknowledged(q'))
  {
  }

  lemma QuietKnown(s: State, step: Step)
    requires Enabled(s, step) && !step.action.ServerCommit? && !step.action.ReadOk?
    requires SessionInv(s.procs[step.p])
    ensures var q, q' := s.procs[step.p], Act(s, s.procs[step.p], step.action);
      && q'.base == q.base && q'.recorded == q.recorded && q'.files == q.files
      && (step.action.CommitOk? ==> Unacknowledged(q) && !Unacknowledged(q'))
      && (!step.action.CommitOk? ==>
            q'.applied == q.applied && (Unacknowledged(q') ==> Unacknowledged(q) && q'.i == q.i))
  {
  }

  lemma QuietStep(s: State, step: Step)
    requires Enabled(s, step) && !step.action.ServerCommit? && !step.action.ReadOk?
    requires SessionInv(s.procs[step.p]) && LoopInv(s.procs[step.p])
    ensures var q, q' := s.procs[step.p], Act(s, s.procs[step.p], step.action);
      && Known(q') <= Known(q) && q'.base == q.base && q'.recorded == q.recorded
      && (Claims(q') ==> Claims(q) && Known(q') == Known(q))
  {
    QuietClaims(s, step);
    QuietKnown(s, step);
    assert s.procs[step.p].applied <= Known(s.procs[step.p]);
  }

  lemma ReadData(s: State, step: Step)
    requires Enabled(s, step) && step.action.ReadOk?
    requires SessionInv(s.procs[step.p]) && LoopInv(s.procs[step.p])
    ensures DataInv(s.rows, s.schema, Act(s, s.procs[step.p], step.action))
  {
    var q := s.procs[step.p];
    assert q.files[..0] == [] && Known(Act(s, q, step.action)) == [];
    assert s.schema + [] == s.schema;
  }

  lemma DataShrinks(rows: Rows, schema: seq<Migration>, q: Proc, q': Proc)
    requires DataInv(rows, schema, q)
    requires Known(q') <= Known(q) && q'.base == q.base && q'.recorded == q.recorded
    requires Claims(q') ==> Claims(q) && Known(q') == Known(q)
    ensures DataInv(rows, schema, q')
  {
    assert forall m | m in Known(q') :: m in Known(q);
  }

  lemma QuietData(s: State, step: Step)
    requires Enabled(s, step) && !step.action.ServerCommit?
    requires ProcInv(s.rows, s.schema, s.procs[step.p])
    ensures DataInv(s.rows, s.schema, Act(s, s.procs[step.p], step.action))
  {
    if step.action.ReadOk? {
      ReadData(s, step);
    } else {
      QuietStep(s, step);
      DataShrinks(s.rows, s.schema, s.procs[step.p], Act(s, s.procs[step.p], step.action));
    }
  }

  // ----- Preservation, the commit itself --------------------------------------------

  // The committing run holds the lock, so its snapshot and its work are the whole table.
  lemma CommitIsNew(s: State, step: Step)
    requires Enabled(s, step) && step.action.ServerCommit?
    requires ProcInv(s.rows, s.schema, s.procs[step.p])
    ensures var q := s.procs[step.p]; var m := q.files[q.i];
      && m.version !in s.rows
      && Next(s, step).rows == s.rows[m.version := m.checksum]
      && Next(s, step).schema == s.schema + [m]
      && Known(q) == q.applied
      && s.schema == q.base + q.applied
      && Next(s, step).rows == q.recorded + RowsOf(q.applied + [m])
  {
    var q := s.procs[step.p];
    assert q.applied + [] == q.applied;
    assert Claims(q);
    ApplyNext(q.files, q.i, q.recorded);
  }

  lemma ConsistentGrows(rows: Rows, schema: seq<Migration>, m: Migration)
    requires Consistent(rows, schema) && m.version !in rows
    ensures Consistent(rows[m.version := m.checksum], schema + [m])
  {
    assert (schema + [m])[..|schema|] == schema;
  }

  lemma CommitKeepsConsistent(s: State, step: Step)
    requires Enabled(s, step) && step.action.ServerCommit?
    requires Consistent(s.rows, s.schema) && ProcInv(s.rows, s.schema, s.procs[step.p])
    ensures Consistent(Next(s, step).rows, Next(s, step).schema)
  {
    CommitIsNew(s, step);
    ConsistentGrows(s.rows, s.schema, s.procs[step.p].files[s.procs[step.p].i]);
  }

  lemma CommitExtends(q: Proc, q': Proc, rows: Rows, schema: seq<Migration>, m: Migration)
    requires Records(rows, q.applied) && Covers(rows, q.recorded) && m.version !in rows
    requires schema == q.base + q.applied
    requires q'.base == q.base && q'.recorded == q.recorded
    requires Known(q') == q.applied || Known(q') == q.applied + [m]
    ensures Covers(rows[m.version := m.checksum], q'.recorded) && Records(rows[m.version := m.checksum], Known(q'))
    ensures q'.base + Known(q') <= schema + [m]
    ensures Known(q') == q.applied + [m] ==> schema + [m] == q'.base + Known(q')
  {
    assert q.base + (q.applied + [m]) == schema + [m];
  }

  lemma CommitData(s: State, step: Step)
    requires Enabled(s, step) && step.action.ServerCommit?
    requires ProcInv(s.rows, s.schema, s.procs[step.p])
    ensures DataInv(Next(s, step).rows, Next(s, step).schema, Act(s, s.procs[step.p], step.action))
  {
    CommitIsNew(s, step);
    var q := s.procs[step.p];
    var q', m := Act(s, q, step.action), q.files[q.i];
    assert q.applied + [] == q.applied;
    assert Known(q') == q.applied + [m];
    CommitExtends(q, q', s.rows, s.schema, m);
  }

  // What any step does to the committed data: at most one new body with its row.
  lemma StepGrows(s: State, step: Step)
    requires Enabled(s, step) && ProcInv(s.rows, s.schema, s.procs[step.p])
    ensures var t := Next(s, step); s.schema <= t.schema && Covers(t.rows, s.rows)
  {
    if step.action.ServerCommit? {
      CommitIsNew(s, step);
    }
  }

  lemma OthersKeepData(s: State, step: Step, r: nat)
    requires Inv(s) && Enabled(s, step) && r < |s.procs| && r != step.p
    ensures DataInv(Next(s, step).rows, Next(s, step).schema, s.procs[r])
  {
    assert ProcInv(s.rows, s.schema, s.procs[r]) && ProcInv(s.rows, s.schema, s.procs[step.p]);
    StepGrows(s, step);
  }

  lemma LockStep(s: State, step: Step)
    requires Enabled(s, step) && OneLock(s.procs) && SessionInv(s.procs[step.p])
    ensures OneLock(Next(s, step).procs)
  {
    var q, t := s.procs[step.p], Next(s, step);
    assert t.procs[step.p].session.locked ==> q.session.locked || LockFree(s);
  }

  // Replacing one process by a run that knows no more and claims no more.
  lemma ApartQuiet(procs: seq<Proc>, p: nat, q': Proc)
    requires Apart(procs) && p < |procs|
    requires End(q') <= End(procs[p]) && q'.base == procs[p].base && (Claims(q') ==> Claims(procs[p]))
    ensures Apart(procs[p := q'])
  {
  }

  // Replacing one process by a run that starts, or grows, after everyone else's additions.
  lemma ApartLast(procs: seq<Proc>, p: nat, q': Proc)
    requires Apart(procs) && p < |procs|
    requires forall r | 0 <= r < |procs| && r != p :: End(procs[r]) <= |q'.base| && !Claims(procs[r])
    ensures Apart(procs[p := q'])
  {
  }

  lemma ApartStep(s: State, step: Step)
    requires Inv(s) && Enabled(s, step)
    ensures Apart(Next(s, step).procs)
  {
    var q, q' := s.procs[step.p], Act(s, s.procs[step.p], step.action);
    assert ProcInv(s.rows, s.schema, q);
    if step.action.ReadOk? || step.action.ServerCommit? {
      forall r | 0 <= r < |s.procs| && r != step.p ensures End(s.procs[r]) <= |q'.base| && !Claims(s.procs[r]) {
        assert ProcInv(s.rows, s.schema, s.procs[r]);
      }
      ApartLast(s.procs, step.p, q');
    } else {
      QuietStep(s, step);
      ApartQuiet(s.procs, step.p, q');
    }
  }

  lemma StepInv(s: State, step: Step)
    requires Inv(s) && Enabled(s, step)
    ensures Inv(Next(s, step))
  {
    var t := Next(s, step);
    assert ProcInv(s.rows, s.schema, s.procs[step.p]);
    SessionStep(s, step);
    LoopStep(s, step);
    if step.action.ServerCommit? {
      CommitKeepsConsistent(s, step);
      CommitData(s, step);
    } else {
      QuietData(s, step);
    }
    LockStep(s, step);
    ApartStep(s, step);
    forall r | 0 <= r < |s.procs| ensures ProcInv(t.rows, t.schema, t.procs[r]) {
      if r != step.p {
        assert ProcInv(s.rows, s.schema, s.procs[r]);
        OthersKeepData(s, step, r);
      }
    }
  }

  // ----- Over whole runs ------------------------------------------------------------

  lemma {:induction false} RunInv(s: State, steps: seq<Step>)
    requires Inv(s) && ValidRun(s, steps)
    ensures var t := Exec(s, steps);
      Inv(t) && s.schema <= t.schema && Covers(t.rows, s.rows) && |t.procs| == |s.procs|
    decreases |steps|
  {
    if steps != [] {
      assert ProcInv(s.rows, s.schema, s.procs[steps[0].p]);
      StepInv(s, steps[0]);
      StepGrows(s, steps[0]);
      RunInv(Next(s, steps[0]), steps[1..]);
    }
  }

  /**
   In every interleaving, with crashes and failed calls anywhere and commits of unknown
   outcome, a version's body took effect exactly once if it has a row and not at all
   otherwise; rows stay, with their checksums, and bodies are only ever added.
   */
  lemma ExactlyOnce(s: State, steps: seq<Step>)
    requires Init(s) && ValidRun(s, steps)
    ensures var t := Exec(s, steps);
      && (forall v :: Count(t.schema, v) == if v in t.rows then 1 else 0)
      && Records(t.rows, t.schema)
      && s.schema <= t.schema && Covers(t.rows, s.rows)
  {
    InitInv(s);
    RunInv(s, steps);
  }

  /**
   Whatever else is running, a process in the loop under the lock is in a state of the
   sequential loop, started from its snapshot: the decision to skip files[i], which reads
   only the snapshot, is right for the table as it is now.
   */
  lemma StepsRefineLoop(s: State, p: nat, io: RunIo)
    requires Inv(s) && p < |s.procs| && s.procs[p].session.locked && s.procs[p].phase.Looping?
    requires AllClean(s.procs[p].applied, io)
    ensures var q := s.procs[p];
      && Progress(q.files, io, q.recorded, q.base, q.i, q.applied, s.rows, s.schema)
      && (q.i < |q.files| ==> (q.files[q.i].version in q.recorded <==> q.files[q.i].version in s.rows))
  {
    var q := s.procs[p];
    assert ProcInv(s.rows, s.schema, q);
    assert Claims(q) && Known(q) == q.applied;
    if q.i < |q.files| && q.files[q.i].version !in q.recorded {
      ApplyNext(q.files, q.i, q.recorded);
    }
  }

  // What the run will return beside its error.
  function Reported(q: Proc): seq<Migration> {
    if q.error.Some? then [] else q.applied
  }

  // A failing call that may nevertheless have taken effect, and one that did not.
  const LOST_COMMIT := TxIo(true, true, true, Lost(true), true)
  const CLEAN := TxIo(true, true, true, Acknowledged, true)
  const NO_EFFECT := TxIo(false, true, true, Acknowledged, true)

  // The sequential run's calls that agree with how this one went.
  function IoOf(q: Proc): RunIo {
    RunIo(true, true, q.error != Some(NoTable), q.error != Some(NoSnapshot), true,
          m => if q.error != Some(ApplyFailed(m)) then CLEAN else if Unacknowledged(q) then LOST_COMMIT else NO_EFFECT)
  }

  lemma {:induction false} AllCleanIf(ms: seq<Migration>, io: RunIo)
    requires forall m | m in ms :: io.tx(m).Clean()
    ensures AllClean(ms, io)
  {
    if ms != [] {
      AllCleanIf(ms[..|ms| - 1], io);
    }
  }

  lemma AppliedAreClean(q: Proc)
    requires LoopInv(q)
    ensures AllClean(q.applied, IoOf(q))
  {
    PendingMembers(q.files[..q.i], q.recorded);
    forall m | m in q.applied ensures q.error != Some(ApplyFailed(m)) {
    }
    AllCleanIf(q.applied, IoOf(q));
  }

  // The database as the sequential run would have found it.
  function Found(s: State, q: Proc): (Rows, seq<Migration>) {
    if NoSnapshotTaken(q) then (s.rows, s.schema) else (q.recorded, q.base)
  }

  // A process that holds the lock, has left the loop, and has no commit in flight.
  predicate Leaving(q: Proc) {
    q.session.locked && q.phase.Unlocking? && !q.session.work.Committing?
  }

  // Where the loop was when it was left.
  lemma LeftAt(s: State, q: Proc)
    requires ProcInv(s.rows, s.schema, q) && Leaving(q) && !NoSnapshotTaken(q)
    ensures Progress(q.files, IoOf(q), q.recorded, q.base, q.i, q.applied,
                     q.recorded + RowsOf(q.applied), q.base + q.applied)
    ensures s.rows == q.recorded + RowsOf(Known(q)) && s.schema == q.base + Known(q)
    ensures ErrorInv(q) && DistinctVersions(q.files) && (q.error.None? ==> q.i == |q.files|)
    ensures !q.error.Some? || !q.error.value.ApplyFailed? ==> Known(q) == q.applied
  {
    AppliedAreClean(q);
    assert Claims(q);
  }

  lemma LeavingFinished(s: State, q: Proc)
    requires ProcInv(s.rows, s.schema, q) && Leaving(q) && q.error.None?
    ensures Ended(q.files, IoOf(q), q.recorded, q.base, s.rows, s.schema, Reported(q), q.error)
  {
    LeftAt(s, q);
    Finishes(q.files, IoOf(q), q.recorded, q.base, q.applied, s.rows, s.schema);
  }

  lemma LeavingDrifted(s: State, q: Proc)
    requires ProcInv(s.rows, s.schema, q) && Leaving(q) && q.error.Some? && q.error.value.ChecksumMismatch?
    ensures Ended(q.files, IoOf(q), q.recorded, q.base, s.rows, s.schema, Reported(q), q.error)
  {
    LeftAt(s, q);
    Skips(q.files, IoOf(q), q.recorded, q.base, q.i, q.applied, s.rows, s.schema);
  }

  // What was committed, told from what was applied before and the file at hand.
  lemma KnownRows(q: Proc)
    requires q.i < |q.files|
    ensures var m, rows, schema := q.files[q.i], q.recorded + RowsOf(q.applied), q.base + q.applied;
      && q.recorded + RowsOf(Known(q)) == (if Unacknowledged(q) then rows[m.version := m.checksum] else rows)
      && q.base + Known(q) == (if Unacknowledged(q) then schema + [m] else schema)
  {
    RowsGain(q.recorded, q.applied, q.files[q.i]);
    assert q.applied + [] == q.applied;
    assert q.base + (q.applied + [q.files[q.i]]) == q.base + q.applied + [q.files[q.i]];
  }

  lemma LeavingFailed(s: State, q: Proc)
    requires ProcInv(s.rows, s.schema, q) && Leaving(q) && q.error.Some? && q.error.value.ApplyFailed?
    ensures Ended(q.files, IoOf(q), q.recorded, q.base, s.rows, s.schema, Reported(q), q.error)
  {
    LeftAt(s, q);
    KnownRows(q);
    Applies(q.files, IoOf(q), q.recorded, q.base, q.i, q.applied, q.recorded + RowsOf(q.applied), q.base + q.applied);
  }

  /**
   Whatever else is running, a process that leaves the loop, for whatever reason, leaves
   the database and returns what the sequential run with those failures would.
   */
  lemma ExitsRefineLoop(s: State, p: nat)
    requires Inv(s) && p < |s.procs| && Leaving(s.procs[p])
    ensures var q := s.procs[p]; var (rows, schema) := Found(s, q);
      Ended(q.files, IoOf(q), rows, schema, s.rows, s.schema, Reported(q), q.error)
  {
    var q := s.procs[p];
    assert ProcInv(s.rows, s.schema, q);
    match q.error
    case None => LeavingFinished(s, q);
    case Some(ChecksumMismatch(_)) => LeavingDrifted(s, q);
    case Some(ApplyFailed(_)) => LeavingFailed(s, q);
    case Some(_) => Starts(q.files, IoOf(q), s.rows, s.schema);
  }

  // Every file the run has passed is in the table, with the checksum it has on disk.
  lemma LookedAt(s: State, p: nat, j: nat)
    requires Inv(s) && p < |s.procs| && j < s.procs[p].i
    ensures s.procs[p].i <= |s.procs[p].files|
    ensures var m := s.procs[p].files[j]; m.version in s.rows && s.rows[m.version] == m.checksum
  {
    var q := s.procs[p];
    assert ProcInv(s.rows, s.schema, q);
    PendingMembers(q.files[..q.i], q.recorded);
    assert q.files[j] in q.files[..q.i];
    if q.files[j].version !in q.recorded {
      assert q.files[j] in q.applied && q.files[j] in Known(q);
    } else {
      assert !Drifted(q.files[j], q.recorded);
    }
  }

  /**
   A run that reports success returns exactly the files its snapshot was missing, in
   order; they are the bodies that followed its snapshot, and from then on every file it
   was given is recorded with its checksum, whatever happens later.
   */
  lemma SuccessMeansApplied(s: State, p: nat, steps: seq<Step>)
    requires Inv(s) && p < |s.procs| && Succeeded(s.procs[p])
    requires ValidRun(s, steps)
    ensures var q, t := s.procs[p], Exec(s, steps);
      && q.applied == Pending(q.files, q.recorded) && FirstDrift(q.files, q.recorded) == |q.files|
      && q.base + q.applied <= t.schema
      && Records(t.rows, q.files)
  {
    var q, t := s.procs[p], Exec(s, steps);
    assert ProcInv(s.rows, s.schema, q);
    RunInv(s, steps);
    assert q.files[..q.i] == q.files;
    assert Known(q) == q.applied;
    forall m | m in q.files ensures m.version in t.rows && t.rows[m.version] == m.checksum {
      var j :| 0 <= j < |q.files| && q.files[j] == m;
      LookedAt(s, p, j);
    }
  }

  lemma {:induction false} CountTwice(schema: seq<Migration>, a: nat, b: nat)
    requires a < b < |schema| && schema[a].version == schema[b].version
    ensures Count(schema, schema[a].version) >= 2
  {
    var n := |schema| - 1;
    if b < n {
      CountTwice(schema[..n], a, b);
    } else {
      CountOnce(schema[..n], a);
    }
  }

  lemma {:induction false} CountOnce(schema: seq<Migration>, a: nat)
    requires a < |schema|
    ensures Count(schema, schema[a].version) >= 1
  {
    if a < |schema| - 1 {
      CountOnce(schema[..|schema| - 1], a);
    }
  }

  // A version's body is at one place in the schema.
  lemma OnePlace(rows: Rows, schema: seq<Migration>, a: nat, b: nat)
    requires Consistent(rows, schema) && a < |schema| && b < |schema| && schema[a].version == schema[b].version
    ensures a == b
  {
    if a < b {
      CountTwice(schema, a, b);
    } else if b < a {
      CountTwice(schema, b, a);
    }
  }

  lemma AppliedAt(s: State, p: nat, i: nat)
    requires Inv(s) && p < |s.procs| && i < |s.procs[p].applied|
    ensures var q := s.procs[p];
      |q.base| + i < End(q) <= |s.schema| && s.schema[|q.base| + i] == q.applied[i]
  {
    var q := s.procs[p];
    assert ProcInv(s.rows, s.schema, q);
    assert (q.base + Known(q))[|q.base| + i] == q.applied[i];
  }

  /** No two runs report the same migration. */
  lemma ReportsAreDisjoint(s: State, p: nat, r: nat, i: nat, j: nat)
    requires Inv(s) && p < |s.procs| && r < |s.procs| && p != r
    requires i < |s.procs[p].applied| && j < |s.procs[r].applied|
    ensures s.procs[p].applied[i].version != s.procs[r].applied[j].version
  {
    AppliedAt(s, p, i);
    AppliedAt(s, r, j);
    if s.procs[p].applied[i].version == s.procs[r].applied[j].version {
      OnePlace(s.rows, s.schema, |s.procs[p].base| + i, |s.procs[r].base| + j);
      assert false;
    }
  }

  // ----- One file set, any number of runs -------------------------------------------

  // The database has got some way through the files it was missing, not past a drifted one.
  ghost predicate OnTheWay(s: State, files: seq<Migration>, rows0: Rows, schema0: seq<Migration>) {
    && (forall p | 0 <= p < |s.procs| :: s.procs[p].files == files)
    && AppliedPrefix(Pending(files, rows0), rows0, schema0, s.rows, s.schema)
    && |s.schema| - |schema0| <= |Pending(files[..FirstDrift(files, rows0)], rows0)|
  }

  lemma PrefixCovers(p: seq<Migration>, k: nat, rows0: Rows)
    requires k <= |p| && DistinctVersions(p) && forall m | m in p :: m.version !in rows0
    ensures Covers(rows0 + RowsOf(p[..k]), rows0)
    ensures forall i | 0 <= i < |p| :: p[i].version in rows0 + RowsOf(p[..k]) <==> i < k
  {
    RowsOfMembers(p[..k]);
    forall v | v in RowsOf(p[..k]) ensures v !in rows0 {
      var m :| m in p[..k] && m.version == v;
      assert m in p;
    }
    forall i | 0 <= i < |p| ensures p[i].version in RowsOf(p[..k]) <==> i < k {
      if i < k {
        assert p[i] in p[..k];
      }
      if p[i].version in RowsOf(p[..k]) {
        var m :| m in p[..k] && m.version == p[i].version;
      }
    }
  }

  // With the files before i in the table and file i not, i is the next pending file.
  lemma NextPending(files: seq<Migration>, i: nat, rows0: Rows, k: nat)
    requires DistinctVersions(files) && i < |files| && k <= |Pending(files, rows0)|
    requires var rows := rows0 + RowsOf(Pending(files, rows0)[..k]);
      files[i].version !in rows && forall j | 0 <= j < i :: files[j].version in rows
    ensures k == |Pending(files[..i], rows0)| < |Pending(files, rows0)|
    ensures Pending(files, rows0)[k] == files[i]
  {
    var p, before := Pending(files, rows0), Pending(files[..i], rows0);
    PendingMembers(files, rows0);
    PendingMembers(files[..i], rows0);
    PrefixCovers(p, k, rows0);
    PendingOfPrefix(files, i, rows0);
    var n := |before|;
    if n > 0 {
      assert p[n - 1] == before[n - 1] && before[n - 1] in files[..i];
    }
    assert p[n].version !in rows0 + RowsOf(p[..k]);
  }

  lemma NoDriftSoFar(files: seq<Migration>, i: nat, rows0: Rows, rows: Rows)
    requires i <= |files| && Covers(rows, rows0)
    requires forall j | 0 <= j < i :: !Drifted(files[j], rows)
    requires i < |files| ==> files[i].version !in rows
    ensures if i < |files| then i < FirstDrift(files, rows0) else FirstDrift(files, rows0) == |files|
  {
  }

  lemma PrefixGrows(p: seq<Migration>, rows0: Rows, schema0: seq<Migration>, rows: Rows, schema: seq<Migration>)
    requires AppliedPrefix(p, rows0, schema0, rows, schema) && |schema| - |schema0| < |p|
    ensures var m := p[|schema| - |schema0|];
      AppliedPrefix(p, rows0, schema0, rows[m.version := m.checksum], schema + [m])
  {
    var k := |schema| - |schema0|;
    assert p[..k + 1] == p[..k] + [p[k]] && p[..k + 1][..k] == p[..k];
    assert schema0 + p[..k] + [p[k]] == schema0 + p[..k + 1];
  }

  lemma FilesBeforeAreIn(s: State, p: nat)
    requires Inv(s) && p < |s.procs|
    ensures var q := s.procs[p]; q.i <= |q.files|
    ensures var q := s.procs[p];
      forall j | 0 <= j < q.i :: q.files[j].version in s.rows && !Drifted(q.files[j], s.rows)
  {
    assert ProcInv(s.rows, s.schema, s.procs[p]);
    forall j | 0 <= j < s.procs[p].i
      ensures var m := s.procs[p].files[j]; m.version in s.rows && !Drifted(m, s.rows)
    {
      LookedAt(s, p, j);
    }
  }

  // The file committed next is the next pending one.
  lemma CommitsNextPending(files: seq<Migration>, i: nat, rows0: Rows, k: nat, rows: Rows)
    requires DistinctVersions(files) && i < |files| && k <= |Pending(files, rows0)|
    requires rows == rows0 + RowsOf(Pending(files, rows0)[..k])
    requires files[i].version !in rows
    requires forall j | 0 <= j < i :: files[j].version in rows && !Drifted(files[j], rows)
    ensures k == |Pending(files[..i], rows0)| < |Pending(files, rows0)| && Pending(files, rows0)[k] == files[i]
    ensures i < FirstDrift(files, rows0) && files[i].version !in rows0
  {
    PendingMembers(files, rows0);
    PrefixCovers(Pending(files, rows0), k, rows0);
    NoDriftSoFar(files, i, rows0, rows);
    NextPending(files, i, rows0, k);
  }

  // The same, as a step of the committed data alone.
  lemma PrefixCommit(files: seq<Migration>, i: nat, rows0: Rows, schema0: seq<Migration>,
                     rows: Rows, schema: seq<Migration>)
    requires DistinctVersions(files) && i < |files|
    requires AppliedPrefix(Pending(files, rows0), rows0, schema0, rows, schema)
    requires files[i].version !in rows
    requires forall j | 0 <= j < i :: files[j].version in rows && !Drifted(files[j], rows)
    ensures var m := files[i];
      AppliedPrefix(Pending(files, rows0), rows0, schema0, rows[m.version := m.checksum], schema + [m])
    ensures |schema| + 1 - |schema0| <= |Pending(files[..FirstDrift(files, rows0)], rows0)|
  {
    CommitsNextPending(files, i, rows0, |schema| - |schema0|, rows);
    PrefixGrows(Pending(files, rows0), rows0, schema0, rows, schema);
    PendingBelow(files, i, FirstDrift(files, rows0), rows0);
  }

  lemma CommitOnTheWay(s: State, step: Step, files: seq<Migration>, rows0: Rows, schema0: seq<Migration>)
    requires Inv(s) && OnTheWay(s, files, rows0, schema0) && Enabled(s, step) && step.action.ServerCommit?
    ensures OnTheWay(Next(s, step), files, rows0, schema0)
  {
    var q := s.procs[step.p];
    assert ProcInv(s.rows, s.schema, q);
    CommitIsNew(s, step);
    FilesBeforeAreIn(s, step.p);
    PrefixCommit(files, q.i, rows0, schema0, s.rows, s.schema);
  }

  lemma PendingBelow(files: seq<Migration>, i: nat, d: nat, rows0: Rows)
    requires i < d <= |files| && files[i].version !in rows0
    ensures |Pending(files[..i], rows0)| < |Pending(files[..d], rows0)|
  {
    PendingOfPrefix(files[..d], i, rows0);
    assert files[..d][..i] == files[..i];
  }

  lemma OnTheWayStep(s: State, step: Step, files: seq<Migration>, rows0: Rows, schema0: seq<Migration>)
    requires Inv(s) && OnTheWay(s, files, rows0, schema0) && Enabled(s, step)
    ensures OnTheWay(Next(s, step), files, rows0, schema0)
  {
    if step.action.ServerCommit? {
      CommitOnTheWay(s, step, files, rows0, schema0);
    }
  }

  // With every file in the table, nothing was left out of the prefix.
  lemma NothingPending(files: seq<Migration>, rows0: Rows, k: nat)
    requires DistinctVersions(files) && k <= |Pending(files, rows0)|
    requires forall j | 0 <= j < |files| :: files[j].version in rows0 + RowsOf(Pending(files, rows0)[..k])
    ensures k == |Pending(files, rows0)|
  {
    var missing := Pending(files, rows0);
    PendingMembers(files, rows0);
    PrefixCovers(missing, k, rows0);
    if missing != [] {
      var last := |missing| - 1;
      assert missing[last] in missing;
      assert missing[last].version in rows0 + RowsOf(missing[..k]);
    }
  }

  lemma AllIn(files: seq<Migration>, rows0: Rows, schema0: seq<Migration>, rows: Rows, schema: seq<Migration>)
    requires DistinctVersions(files)
    requires AppliedPrefix(Pending(files, rows0), rows0, schema0, rows, schema)
    requires forall j | 0 <= j < |files| :: files[j].version in rows && !Drifted(files[j], rows)
    ensures schema == schema0 + Pending(files, rows0) && FirstDrift(files, rows0) == |files|
  {
    var missing, k := Pending(files, rows0), |schema| - |schema0|;
    PendingMembers(files, rows0);
    PrefixCovers(missing, k, rows0);
    NoDriftSoFar(files, |files|, rows0, rows);
    NothingPending(files, rows0, k);
    assert missing[..|missing|] == missing;
  }

  lemma SuccessIsComplete(s: State, p: nat, files: seq<Migration>, rows0: Rows, schema0: seq<Migration>)
    requires Inv(s) && OnTheWay(s, files, rows0, schema0)
    requires p < |s.procs| && Succeeded(s.procs[p])
    ensures s.schema == schema0 + Pending(files, rows0) && FirstDrift(files, rows0) == |files|
  {
    assert ProcInv(s.rows, s.schema, s.procs[p]);
    FilesBeforeAreIn(s, p);
    AllIn(files, rows0, schema0, s.rows, s.schema);
  }

  lemma {:induction false} OnTheWayRun(s: State, steps: seq<Step>, files: seq<Migration>, rows0: Rows,
                                       schema0: seq<Migration>)
    requires Inv(s) && OnTheWay(s, files, rows0, schema0) && ValidRun(s, steps)
    ensures OnTheWay(Exec(s, steps), files, rows0, schema0)
    decreases |steps|
  {
    if steps != [] {
      OnTheWayStep(s, steps[0], files, rows0, schema0);
      StepInv(s, steps[0]);
      OnTheWayRun(Next(s, steps[0]), steps[1..], files, rows0, schema0);
    }
  }

  /**
   With one file set, the committed bodies are at all times the first few of the files
   that were missing at the start, in version order, stopping short of the first file
   that had been edited; and once any run has succeeded they are all of them. So failed,
   interrupted and concurrent runs followed by one success end where one quiet run does.
   */
  lemma RunsConverge(s: State, steps: seq<Step>, files: seq<Migration>)
    requires Init(s) && ValidRun(s, steps) && DistinctVersions(files)
    requires forall p | 0 <= p < |s.procs| :: s.procs[p].files == files
    ensures var t, missing := Exec(s, steps), Pending(files, s.rows);
      && AppliedPrefix(missing, s.rows, s.schema, t.rows, t.schema)
      && |t.schema| <= |s.schema| + |Pending(files[..FirstDrift(files, s.rows)], s.rows)|
      && ((exists p :: 0 <= p < |t.procs| && Succeeded(t.procs[p])) ==>
            t.schema == s.schema + missing && FirstDrift(files, s.rows) == |files|)
  {
    var t := Exec(s, steps);
    InitInv(s);
    assert Pending(files, s.rows)[..0] == [] && s.schema + [] == s.schema;
    OnTheWayRun(s, steps, files, s.rows, s.schema);
    RunInv(s, steps);
    if p :| 0 <= p < |t.procs| && Succeeded(t.procs[p]) {
      SuccessIsComplete(t, p, files, s.rows, s.schema);
    }
  }

  // ----- After a success ------------------------------------------------------------

  // The run has its snapshot yet to take, or has taken it when the schema was complete.
  predicate Late(q: Proc, complete: seq<Migration>) {
    && q.applied == []
    && (InLoop(q.phase) || q.session.work.Committing? || q.session.reply.Committed? ==> q.base == complete)
  }

  // One file set, and some run of it has succeeded: all that was missing is in.
  ghost predicate Settled(s: State, files: seq<Migration>, rows0: Rows, schema0: seq<Migration>, p: nat) {
    Inv(s) && OnTheWay(s, files, rows0, schema0) && p < |s.procs| && Succeeded(s.procs[p])
  }

  lemma SettledStep(s: State, step: Step, files: seq<Migration>, rows0: Rows, schema0: seq<Migration>, p: nat)
    requires Settled(s, files, rows0, schema0, p) && Enabled(s, step)
    ensures Settled(Next(s, step), files, rows0, schema0, p)
    ensures Next(s, step).schema == s.schema && Next(s, step).rows == s.rows
  {
    StepInv(s, step);
    OnTheWayStep(s, step, files, rows0, schema0);
    SuccessIsComplete(s, p, files, rows0, schema0);
    SuccessIsComplete(Next(s, step), p, files, rows0, schema0);
  }

  lemma LateStep(s: State, step: Step, r: nat)
    requires Inv(s) && Enabled(s, step) && Next(s, step).schema == s.schema
    requires r < |s.procs| && Late(s.procs[r], s.schema)
    ensures Late(Next(s, step).procs[r], s.schema)
  {
    assert ProcInv(s.rows, s.schema, s.procs[r]);
  }

  lemma {:induction false} LateRun(s: State, steps: seq<Step>, files: seq<Migration>, rows0: Rows,
                                   schema0: seq<Migration>, p: nat, r: nat)
    requires Settled(s, files, rows0, schema0, p) && ValidRun(s, steps)
    requires r < |s.procs| && Late(s.procs[r], s.schema)
    ensures var t := Exec(s, steps);
      t.schema == s.schema && t.rows == s.rows && r < |t.procs| && t.procs[r].applied == []
    decreases |steps|
  {
    if steps != [] {
      SettledStep(s, steps[0], files, rows0, schema0, p);
      LateStep(s, steps[0], r);
      LateRun(Next(s, steps[0]), steps[1..], files, rows0, schema0, p, r);
    }
  }

  // A process that has not read the table yet.
  predicate Unread(q: Proc) {
    q.phase.Acquiring? || q.phase.Locking? || q.phase.Ensuring? || q.phase.Reading?
  }

  lemma UnreadIsLate(s: State, r: nat)
    requires Inv(s) && r < |s.procs| && Unread(s.procs[r])
    ensures Late(s.procs[r], s.schema)
  {
    assert ProcInv(s.rows, s.schema, s.procs[r]);
    assert s.procs[r].files[..0] == [];
  }

  lemma BecomesSettled(s: State, steps: seq<Step>, files: seq<Migration>, p: nat)
    requires Init(s) && ValidRun(s, steps) && DistinctVersions(files)
    requires forall q | 0 <= q < |s.procs| :: s.procs[q].files == files
    requires p < |Exec(s, steps).procs| && Succeeded(Exec(s, steps).procs[p])
    ensures Settled(Exec(s, steps), files, s.rows, s.schema, p)
  {
    InitInv(s);
    assert Pending(files, s.rows)[..0] == [] && s.schema + [] == s.schema;
    OnTheWayRun(s, steps, files, s.rows, s.schema);
    RunInv(s, steps);
  }

  /**
   With one file set, once a run has succeeded nothing changes any more in any
   interleaving, and a process that took its snapshot afterwards never applies, and never
   reports, anything.
   */
  lemma NothingMoreToDo(s: State, before: seq<Step>, after: seq<Step>, files: seq<Migration>, p: nat, r: nat)
    requires Init(s) && ValidRun(s, before) && ValidRun(Exec(s, before), after) && DistinctVersions(files)
    requires forall q | 0 <= q < |s.procs| :: s.procs[q].files == files
    requires var mid := Exec(s, before);
      p < |mid.procs| && Succeeded(mid.procs[p]) && r < |mid.procs| && Unread(mid.procs[r])
    ensures var mid := Exec(s, before); var t := Exec(mid, after);
      && t.schema == mid.schema && t.rows == mid.rows
      && r < |t.procs| && t.procs[r].applied == [] && Reported(t.procs[r]) == []
  {
    BecomesSettled(s, before, files, p);
    UnreadIsLate(Exec(s, before), r);
    LateRun(Exec(s, before), after, files, s.rows, s.schema, p, r);
  }
}
