/**
 The migration runner of internal/db/migrate.go as one process runs it.

 A database is its bookkeeping table (version to checksum) and its schema, taken as the
 committed migration bodies in the order they took effect: whatever schema they build is a
 fold over that list. Each call that leaves the process can fail; a plan of failures is an
 input, and a COMMIT whose reply is lost may or may not have taken effect.
 */
module Migrations {
  import opened Wrappers
  import opened Sorting
  import opened Text

  datatype Migration = Migration(version: string, filename: string, checksum: string, sql: string)

  // ----- Migration files ------------------------------------------------------------

  // content is None when reading the file fails.
  datatype File = File(name: string, content: Option<string>)

  datatype LoadError =
    | BadName(name: string)
    | RepeatedVersion(version: string, first: string, second: string)
    | Unreadable(name: string)

  predicate IsDigit(c: char) { '0' <= c <= '9' }

  predicate IsSql(name: string) {
    |name| >= 4 && name[|name| - 4..] == ".sql"
  }

  // NNNN_snake_case.sql
  predicate WellNamed(name: string) {
    && |name| >= 10
    && (forall i | 0 <= i < 4 :: IsDigit(name[i]))
    && name[4] == '_'
    && (forall i | 5 <= i < |name| - 4 :: 'a' <= name[i] <= 'z' || IsDigit(name[i]) || name[i] == '_')
    && IsSql(name)
  }

  // Four digits, an underscore, and a lower-case name.
  lemma NamesAccepted()
    ensures WellNamed("0001_initial.sql") && WellNamed("0987_az09_b.sql")
  {
  }

  lemma NamesRefused()
    ensures !WellNamed("1_initial.sql") && !WellNamed("0001_.sql")
    ensures !WellNamed("0001_Initial.sql") && !WellNamed("00010_a.sql")
  {
    assert "1_initial.sql"[1] == '_' && "0001_Initial.sql"[5] == 'I' && "00010_a.sql"[4] == '0';
  }

  function VersionOf(name: string): string
    requires WellNamed(name)
  {
    name[..4]
  }

  function ToMigration(f: File, sha256: string -> string): Migration
    requires WellNamed(f.name) && f.content.Some?
  {
    Migration(VersionOf(f.name), f.name, sha256(f.content.value), f.content.value)
  }

  predicate NameLess(a: File, b: File) { StringLess(a.name, b.name) }

  function Glob(dir: seq<File>): (r: seq<File>)
    ensures forall f :: f in r <==> f in dir && IsSql(f.name)
  {
    if dir == [] then [] else
    (if IsSql(dir[0].name) then [dir[0]] else []) + Glob(dir[1..])
  }

  ghost predicate DistinctNames(dir: seq<File>) {
    forall i, j | 0 <= i < j < |dir| :: dir[i].name != dir[j].name
  }

  ghost predicate Loadable(dir: seq<File>) {
    && (forall f | f in dir && IsSql(f.name) :: WellNamed(f.name) && f.content.Some?)
    && (forall f, g | f in dir && g in dir && IsSql(f.name) && IsSql(g.name)
          && VersionOf(f.name) == VersionOf(g.name) :: f == g)
  }

  ghost predicate Explains(e: LoadError, dir: seq<File>) {
    match e
    case BadName(n) => exists f :: f in dir && f.name == n && IsSql(n) && !WellNamed(n)
    case Unreadable(n) => exists f :: f in dir && f.name == n && IsSql(n) && f.content.None?
    case RepeatedVersion(v, n, n') => 
      && n != n' && WellNamed(n) && WellNamed(n')
      && VersionOf(n) == v == VersionOf(n')
      && (exists f :: f in dir && f.name == n)
      && (exists f :: f in dir && f.name == n')
  }

  ghost predicate Ordered(files: seq<Migration>) {
    forall i, j | 0 <= i < j < |files| :: StringLess(files[i].version, files[j].version)
  }

  lemma {:induction false} GlobKeepsDistinct(dir: seq<File>)
    requires DistinctNames(dir)
    ensures DistinctNames(Glob(dir))
  {
    if dir != [] {
      GlobKeepsDistinct(dir[1..]);
      forall f | f in dir[1..] ensures f.name != dir[0].name {
        var i :| 0 <= i < |dir| - 1 && dir[1..][i] == f;
        assert dir[i + 1] == f;
      }
    }
  }

  // Names in sorted order, with different versions, have their versions in order.
  lemma NameOrderIsVersionOrder(a: string, b: string)
    requires WellNamed(a) && WellNamed(b) && !StringLess(b, a)
    requires VersionOf(a) != VersionOf(b)
    ensures StringLess(VersionOf(a), VersionOf(b))
  {
    assert a == VersionOf(a) + a[4..] && b == VersionOf(b) + b[4..];
    LexBlocks(VersionOf(b), b[4..], VersionOf(a), a[4..], CharLess);
    LexTrichotomy(VersionOf(a), VersionOf(b), CharLess);
  }

  function Number(digits: string): nat
    requires forall c | c in digits :: IsDigit(c)
  {
    if digits == [] then 0 else
    var n := |digits| - 1;
    assert digits[n] in digits && IsDigit(digits[n]);
    10 * Number(digits[..n]) + (digits[n] as int - '0' as int)
  }

  /** Filename order is numeric version order. */
  lemma {:induction false} VersionOrderIsNumeric(a: string, b: string)
    requires |a| == |b|
    requires (forall c | c in a :: IsDigit(c)) && forall c | c in b :: IsDigit(c)
    ensures StringLess(a, b) <==> Number(a) < Number(b)
    ensures a == b <==> Number(a) == Number(b)
  {
    if a != [] {
      var n := |a| - 1;
      VersionOrderIsNumeric(a[..n], b[..n]);
      assert a == a[..n] + [a[n]] && b == b[..n] + [b[n]];
      LexBlocks(a[..n], [a[n]], b[..n], [b[n]], CharLess);
      assert a[n] in a && b[n] in b;
      LastDigit(Number(a[..n]), Number(b[..n]), a[n] as int - '0' as int, b[n] as int - '0' as int);
    }
  }

  lemma LastDigit(x: int, y: int, c: int, d: int)
    requires 0 <= c < 10 && 0 <= d < 10
    ensures 10 * x + c < 10 * y + d <==> x < y || (x == y && c < d)
    ensures 10 * x + c == 10 * y + d <==> x == y && c == d
  {
  }

  // The state of the load after i entries.
  ghost predicate LoadedTo(entries: seq<File>, i: nat, sha256: string -> string,
                           migrations: seq<Migration>, seen: map<string, string>)
  {
    && i == |migrations| <= |entries|
    && (forall k | 0 <= k < i :: WellNamed(entries[k].name) && entries[k].content.Some?
          && migrations[k] == ToMigration(entries[k], sha256) && migrations[k].version in seen)
    && (forall v | v in seen :: exists k :: 0 <= k < i && v == migrations[k].version && seen[v] == entries[k].name)
    && Ordered(migrations)
  }

  lemma SeenGrows(entries: seq<File>, i: nat, migrations: seq<Migration>, m: Migration, seen: map<string, string>)
    requires i == |migrations| < |entries|
    requires forall v | v in seen :: exists k :: 0 <= k < i && v == migrations[k].version && seen[v] == entries[k].name
    ensures var ms, seen' := migrations + [m], seen[m.version := entries[i].name];
      forall v | v in seen' :: exists k :: 0 <= k < i + 1 && v == ms[k].version && seen'[v] == entries[k].name
  {
    var ms, seen' := migrations + [m], seen[m.version := entries[i].name];
    forall v | v in seen' ensures exists k :: 0 <= k < i + 1 && v == ms[k].version && seen'[v] == entries[k].name {
      if v == m.version {
        assert ms[i] == m;
      } else {
        var k :| 0 <= k < i && v == migrations[k].version && seen[v] == entries[k].name;
        assert ms[k] == migrations[k];
      }
    }
  }

  lemma LoadNext(entries: seq<File>, i: nat, sha256: string -> string,
                 migrations: seq<Migration>, seen: map<string, string>)
    requires Sorted(entries, NameLess) && i < |entries|
    requires LoadedTo(entries, i, sha256, migrations, seen)
    requires WellNamed(entries[i].name) && entries[i].content.Some? && VersionOf(entries[i].name) !in seen
    ensures var f := entries[i];
      LoadedTo(entries, i + 1, sha256, migrations + [ToMigration(f, sha256)], seen[VersionOf(f.name) := f.name])
  {
    var m := ToMigration(entries[i], sha256);
    OrderGrows(entries, i, sha256, migrations, seen);
    SeenGrows(entries, i, migrations, m, seen);
  }

  lemma OrderGrows(entries: seq<File>, i: nat, sha256: string -> string,
                   migrations: seq<Migration>, seen: map<string, string>)
    requires Sorted(entries, NameLess) && i == |migrations| < |entries| && Ordered(migrations)
    requires forall k | 0 <= k < i ::
      WellNamed(entries[k].name) && migrations[k].version in seen && migrations[k].version == VersionOf(entries[k].name)
    requires WellNamed(entries[i].name) && entries[i].content.Some? && VersionOf(entries[i].name) !in seen
    ensures Ordered(migrations + [ToMigration(entries[i], sha256)])
  {
    forall k | 0 <= k < i ensures StringLess(migrations[k].version, VersionOf(entries[i].name)) {
      assert !NameLess(entries[i], entries[k]);
      NameOrderIsVersionOrder(entries[k].name, entries[i].name);
    }
  }

  ghost predicate LoadedAll(entries: seq<File>, sha256: string -> string, migrations: seq<Migration>) {
    && |migrations| == |entries|
    && forall k | 0 <= k < |entries| ::
         WellNamed(entries[k].name) && entries[k].content.Some? && migrations[k] == ToMigration(entries[k], sha256)
  }

  lemma EntriesLoaded(entries: seq<File>, sha256: string -> string, migrations: seq<Migration>)
    requires LoadedAll(entries, sha256, migrations)
    ensures forall f | f in entries :: WellNamed(f.name) && f.content.Some? && ToMigration(f, sha256) in migrations
    ensures forall m | m in migrations ::
      exists f :: f in entries && WellNamed(f.name) && f.content.Some? && m == ToMigration(f, sha256)
  {
    forall f | f in entries ensures WellNamed(f.name) && f.content.Some? && ToMigration(f, sha256) in migrations {
      var i :| 0 <= i < |entries| && entries[i] == f;
      assert migrations[i] == ToMigration(f, sha256);
    }
    forall m | m in migrations
      ensures exists f :: f in entries && WellNamed(f.name) && f.content.Some? && m == ToMigration(f, sha256)
    {
      var i :| 0 <= i < |migrations| && migrations[i] == m;
      assert entries[i] in entries;
    }
  }

  lemma LoadedVersionsDiffer(entries: seq<File>, sha256: string -> string, migrations: seq<Migration>, f: File, g: File)
    requires LoadedAll(entries, sha256, migrations) && Ordered(migrations)
    requires f in entries && g in entries && WellNamed(f.name) && WellNamed(g.name)
    requires VersionOf(f.name) == VersionOf(g.name)
    ensures f == g
  {
    OrderedVersionsDiffer(migrations);
    var i :| 0 <= i < |entries| && entries[i] == f;
    var j :| 0 <= j < |entries| && entries[j] == g;
    assert migrations[i].version == migrations[j].version;
  }

  lemma LoadDone(dir: seq<File>, entries: seq<File>, sha256: string -> string, migrations: seq<Migration>)
    requires forall f :: f in entries <==> f in dir && IsSql(f.name)
    requires LoadedAll(entries, sha256, migrations) && Ordered(migrations)
    ensures IsDirectory(migrations, dir, sha256)
  {
    EntriesLoaded(entries, sha256, migrations);
    forall f, g | f in dir && g in dir && IsSql(f.name) && IsSql(g.name) && VersionOf(f.name) == VersionOf(g.name)
      ensures f == g
    {
      assert f in entries && g in entries;
      LoadedVersionsDiffer(entries, sha256, migrations, f, g);
    }
  }

  lemma RepeatExplained(dir: seq<File>, entries: seq<File>, i: nat, sha256: string -> string,
                        migrations: seq<Migration>, seen: map<string, string>)
    requires forall f :: f in entries <==> f in dir && IsSql(f.name)
    requires DistinctNames(entries) && i < |entries| && LoadedTo(entries, i, sha256, migrations, seen)
    requires WellNamed(entries[i].name) && VersionOf(entries[i].name) in seen
    ensures !Loadable(dir)
    ensures var v := VersionOf(entries[i].name); Explains(RepeatedVersion(v, seen[v], entries[i].name), dir)
  {
    var v := VersionOf(entries[i].name);
    var k :| 0 <= k < i && v == migrations[k].version && seen[v] == entries[k].name;
    assert entries[k] in entries && entries[i] in entries;
  }

  /** Succeeds exactly on a loadable directory, with every .sql file once, in version order. */
  method LoadMigrations(dir: seq<File>, sha256: string -> string)
    returns (r: Result<seq<Migration>, LoadError>)
    requires DistinctNames(dir)
    ensures r.Ok? <==> Loadable(dir)
    ensures r.Ok? ==> Ordered(r.value) && IsDirectory(r.value, dir, sha256)
    ensures r.Ok? ==> forall m | m in r.value :: m.checksum == sha256(m.sql) && File(m.filename, Some(m.sql)) in dir
    ensures r.Ok? ==> forall m | m in r.value :: |m.filename| >= 10 && m.version == m.filename[..4]
    ensures r.Ok? ==>
      forall f | f in dir && IsSql(f.name) :: exists m :: m in r.value && f == File(m.filename, Some(m.sql))
    ensures r.Err? ==> Explains(r.error, dir)
  {
    GlobKeepsDistinct(dir);
    var entries := StableSort(Glob(dir), NameLess);
    EntriesAreSorted(dir);
    var migrations: seq<Migration> := [];
    var seen: map<string, string> := map[];
    for i := 0 to |entries|
      invariant LoadedTo(entries, i, sha256, migrations, seen)
    {
      var f := entries[i];
      assert f in entries;
      if !WellNamed(f.name) {
        return Err(BadName(f.name));
      }
      var version := VersionOf(f.name);
      if version in seen {
        RepeatExplained(dir, entries, i, sha256, migrations, seen);
        return Err(RepeatedVersion(version, seen[version], f.name));
      }
      if f.content.None? {
        return Err(Unreadable(f.name));
      }
      LoadNext(entries, i, sha256, migrations, seen);
      seen := seen[version := f.name];
      migrations := migrations + [ToMigration(f, sha256)];
    }
    LoadDone(dir, entries, sha256, migrations);
    DirectoryMeans(migrations, dir, sha256);
    return Ok(migrations);
  }

  // files are exactly the migrations of the directory's .sql files.
  ghost predicate IsDirectory(files: seq<Migration>, dir: seq<File>, sha256: string -> string) {
    && Loadable(dir)
    && (forall f | f in dir && IsSql(f.name) :: ToMigration(f, sha256) in files)
    && (forall m | m in files :: exists f :: f in dir && IsSql(f.name) && m == ToMigration(f, sha256))
  }

  // Each migration is one file as it is in the directory, and each file one migration.
  lemma DirectoryMeans(files: seq<Migration>, dir: seq<File>, sha256: string -> string)
    requires IsDirectory(files, dir, sha256)
    ensures forall m | m in files :: m.checksum == sha256(m.sql) && File(m.filename, Some(m.sql)) in dir
    ensures forall m | m in files :: |m.filename| >= 10 && m.version == m.filename[..4]
    ensures forall f | f in dir && IsSql(f.name) :: exists m :: m in files && f == File(m.filename, Some(m.sql))
  {
    forall m | m in files
      ensures m.checksum == sha256(m.sql) && |m.filename| >= 10
      ensures m.version == m.filename[..4] && File(m.filename, Some(m.sql)) in dir
    {
      var f :| f in dir && IsSql(f.name) && m == ToMigration(f, sha256);
      assert f == File(m.filename, Some(m.sql));
    }
    forall f | f in dir && IsSql(f.name) ensures exists m :: m in files && f == File(m.filename, Some(m.sql)) {
      var m := ToMigration(f, sha256);
      assert m in files && f == File(m.filename, Some(m.sql));
    }
  }

  lemma EntriesAreSorted(dir: seq<File>)
    requires DistinctNames(Glob(dir))
    ensures var entries := StableSort(Glob(dir), NameLess);
      && (forall f :: f in entries <==> f in dir && IsSql(f.name))
      && Sorted(entries, NameLess)
      && DistinctNames(entries)
  {
    var s, t := Glob(dir), StableSort(Glob(dir), NameLess);
    StringOrder();
    assert StrictWeakOrder(NameLess);
    StableSortStablySorts(s, NameLess);
    StableSortPermutes(s, NameLess);
    PermutedNamesDiffer(s, t);
  }

  lemma PermutedNamesDiffer(s: seq<File>, t: seq<File>)
    requires multiset(s) == multiset(t) && DistinctNames(s)
    ensures DistinctNames(t)
    ensures forall f :: f in t <==> f in s
  {
    PermutedNoRepeats(s, t);
    forall i, j | 0 <= i < j < |t| ensures t[i].name != t[j].name {
      assert t[i] in t && t[j] in t;
      var k :| 0 <= k < |s| && s[k] == t[i];
      var l :| 0 <= l < |s| && s[l] == t[j];
      assert k != l;
    }
  }

  lemma OrderedVersionsDiffer(files: seq<Migration>)
    requires Ordered(files)
    ensures DistinctVersions(files)
  {
    forall i, j | 0 <= i < j < |files| ensures files[i].version != files[j].version {
      LexTrichotomy(files[i].version, files[j].version, CharLess);
    }
  }

  // ----- What a run should do -------------------------------------------------------

  type Rows = map<string, string>

  ghost predicate DistinctVersions(files: seq<Migration>) {
    forall i, j | 0 <= i < j < |files| :: files[i].version != files[j].version
  }

  // The files without a bookkeeping row, in version order.
  function Pending(files: seq<Migration>, rows: Rows): seq<Migration> {
    if files == [] then [] else
    var n := |files| - 1;
    Pending(files[..n], rows) + if files[n].version in rows then [] else [files[n]]
  }

  function RowsOf(ms: seq<Migration>): Rows {
    if ms == [] then map[] else
    var n := |ms| - 1;
    RowsOf(ms[..n])[ms[n].version := ms[n].checksum]
  }

  predicate Drifted(m: Migration, rows: Rows) {
    m.version in rows && rows[m.version] != m.checksum
  }

  // Index of the first file edited after it was applied; |files| when there is none.
  function FirstDrift(files: seq<Migration>, rows: Rows): (d: nat)
    ensures d <= |files|
    ensures forall i | 0 <= i < d :: !Drifted(files[i], rows)
    ensures d < |files| ==> Drifted(files[d], rows)
  {
    if files == [] then 0 else
    var n := |files| - 1;
    var d := FirstDrift(files[..n], rows);
    if d < n then d else if Drifted(files[n], rows) then n else n + 1
  }

  // schema and rows are schema0 and rows0 after the first |schema| - |schema0| of ms.
  ghost predicate AppliedPrefix(ms: seq<Migration>, rows0: Rows, schema0: seq<Migration>,
                                rows: Rows, schema: seq<Migration>)
  {
    && |schema0| <= |schema| <= |schema0| + |ms|
    && var k := |schema| - |schema0|;
       schema == schema0 + ms[..k] && rows == rows0 + RowsOf(ms[..k])
  }

  lemma {:induction false} PendingMembers(files: seq<Migration>, rows: Rows)
    ensures forall m :: m in Pending(files, rows) <==> m in files && m.version !in rows
    ensures DistinctVersions(files) ==> DistinctVersions(Pending(files, rows))
  {
    if files != [] {
      var n := |files| - 1;
      PendingMembers(files[..n], rows);
      assert files == files[..n] + [files[n]];
    }
  }

  /** What is missing is applied in version order. */
  lemma {:induction false} PendingIsOrdered(files: seq<Migration>, rows: Rows)
    requires Ordered(files)
    ensures Ordered(Pending(files, rows))
  {
    if files != [] {
      var n := |files| - 1;
      PendingIsOrdered(files[..n], rows);
      PendingMembers(files[..n], rows);
      var before := Pending(files[..n], rows);
      forall i | 0 <= i < |before| ensures StringLess(before[i].version, files[n].version) {
        assert before[i] in files[..n];
        var j :| 0 <= j < n && files[j] == before[i];
      }
    }
  }

  lemma {:induction false} PendingOfPrefix(files: seq<Migration>, i: nat, rows: Rows)
    requires i <= |files|
    ensures Pending(files[..i], rows) <= Pending(files, rows)
    ensures i < |files| && files[i].version !in rows ==>
      |Pending(files[..i], rows)| < |Pending(files, rows)|
      && Pending(files, rows)[|Pending(files[..i], rows)|] == files[i]
    decreases |files|
  {
    if i < |files| {
      var n := |files| - 1;
      PendingOfPrefix(files[..n], i, rows);
      assert files[..n][..i] == files[..i];
    } else {
      assert files[..i] == files;
    }
  }

  lemma {:induction false} RowsOfMembers(ms: seq<Migration>)
    ensures forall v :: v in RowsOf(ms) <==> exists m :: m in ms && m.version == v
    ensures DistinctVersions(ms) ==>
      forall m | m in ms :: m.version in RowsOf(ms) && RowsOf(ms)[m.version] == m.checksum
  {
    if ms != [] {
      var n := |ms| - 1;
      RowsOfMembers(ms[..n]);
      assert ms == ms[..n] + [ms[n]];
      forall v ensures v in RowsOf(ms) <==> exists m :: m in ms && m.version == v {
        if v in RowsOf(ms) && v != ms[n].version {
          assert v in RowsOf(ms[..n]);
          var m :| m in ms[..n] && m.version == v;
        }
      }
      if DistinctVersions(ms) {
        forall m | m in ms[..n] ensures m.version != ms[n].version {
          var i :| 0 <= i < n && ms[i] == m;
        }
      }
    }
  }

  lemma {:induction false} PendingTwice(files: seq<Migration>, rows: Rows, more: Rows)
    ensures Pending(files, rows + more) == Pending(Pending(files, rows), more)
  {
    if files != [] {
      var n := |files| - 1;
      PendingTwice(files[..n], rows, more);
      var q := Pending(files[..n], rows);
      assert q + [] == q && (q + [files[n]])[..|q|] == q;
    }
  }

  lemma {:induction false} PendingSplit(p: seq<Migration>, k: nat, rows: Rows)
    requires k <= |p|
    requires forall i | 0 <= i < |p| :: p[i].version in rows <==> i < k
    ensures Pending(p, rows) == p[k..]
  {
    if p != [] {
      var n := |p| - 1;
      PendingSplit(p[..n], if k <= n then k else n, rows);
    }
  }

  /** What is still pending after the first k pending files is exactly the rest of them. */
  lemma PendingResumes(files: seq<Migration>, rows: Rows, k: nat)
    requires DistinctVersions(files) && k <= |Pending(files, rows)|
    ensures Pending(files, rows + RowsOf(Pending(files, rows)[..k])) == Pending(files, rows)[k..]
  {
    var p := Pending(files, rows);
    PendingMembers(files, rows);
    RowsOfMembers(p[..k]);
    forall i | 0 <= i < |p| ensures p[i].version in RowsOf(p[..k]) <==> i < k {
      if i < k {
        assert p[i] in p[..k];
      }
      if p[i].version in RowsOf(p[..k]) {
        var m :| m in p[..k] && m.version == p[i].version;
      }
    }
    PendingTwice(files, rows, RowsOf(p[..k]));
    PendingSplit(p, k, RowsOf(p[..k]));
  }

  /** A run over files that have all been applied has nothing to do and finds no drift. */
  lemma NothingLeft(files: seq<Migration>, rows: Rows)
    requires DistinctVersions(files) && FirstDrift(files, rows) == |files|
    ensures var rows' := rows + RowsOf(Pending(files, rows));
      Pending(files, rows') == [] && FirstDrift(files, rows') == |files|
  {
    var p := Pending(files, rows);
    PendingResumes(files, rows, |p|);
    assert p[..|p|] == p;
    PendingMembers(files, rows);
    RowsOfMembers(p);
    forall v | v in RowsOf(p) ensures v !in rows {
      var m :| m in p && m.version == v;
    }
    var rows' := rows + RowsOf(p);
    forall i | 0 <= i < |files| ensures !Drifted(files[i], rows') {
      assert files[i].version !in rows ==> files[i] in p;
    }
  }

  // Skipping by the snapshot alone is right: earlier files cannot have this file's version.
  lemma NotYetApplied(files: seq<Migration>, i: nat, recorded: Rows)
    requires DistinctVersions(files) && i < |files| && files[i].version !in recorded
    ensures files[i].version !in recorded + RowsOf(Pending(files[..i], recorded))
  {
    PendingMembers(files[..i], recorded);
    RowsOfMembers(Pending(files[..i], recorded));
    forall m | m in files[..i] ensures m.version != files[i].version {
      var j :| 0 <= j < i && files[j] == m;
    }
  }

  lemma PendingGains(files: seq<Migration>, i: nat, recorded: Rows)
    requires i < |files| && files[i].version !in recorded
    ensures var a, p, m := Pending(files[..i], recorded), Pending(files, recorded), files[i];
      && |a| < |p| && p[|a|] == m && p[..|a|] == a && p[..|a| + 1] == a + [m]
  {
    PendingOfPrefix(files, i, recorded);
    TakeOneMore(Pending(files, recorded), Pending(files[..i], recorded));
  }

  lemma TakeOneMore<T>(p: seq<T>, a: seq<T>)
    requires a <= p && |a| < |p|
    ensures p[..|a|] == a && p[..|a| + 1] == a + [p[|a|]]
  {
  }

  lemma PendingOneMore(files: seq<Migration>, i: nat, recorded: Rows)
    requires i < |files|
    ensures Pending(files[..i + 1], recorded)
         == Pending(files[..i], recorded) + if files[i].version in recorded then [] else [files[i]]
  {
    assert files[..i + 1][..i] == files[..i];
  }

  lemma RowsGain(recorded: Rows, a: seq<Migration>, m: Migration)
    ensures recorded + RowsOf(a + [m]) == (recorded + RowsOf(a))[m.version := m.checksum]
  {
    assert (a + [m])[..|a|] == a;
  }

  // What applying files[i], when it is pending, adds to what was applied before it.
  lemma ApplyNext(files: seq<Migration>, i: nat, recorded: Rows)
    requires DistinctVersions(files) && i < |files| && files[i].version !in recorded
    ensures var a, p, m := Pending(files[..i], recorded), Pending(files, recorded), files[i];
      && |a| < |p| && p[|a|] == m && p[..|a|] == a && p[..|a| + 1] == a + [m]
      && Pending(files[..i + 1], recorded) == a + [m]
      && m.version !in recorded + RowsOf(a)
      && recorded + RowsOf(a + [m]) == (recorded + RowsOf(a))[m.version := m.checksum]
  {
    PendingGains(files, i, recorded);
    PendingOneMore(files, i, recorded);
    NotYetApplied(files, i, recorded);
    RowsGain(recorded, Pending(files[..i], recorded), files[i]);
  }

  lemma SkipNext(files: seq<Migration>, i: nat, recorded: Rows)
    requires i < |files| && files[i].version in recorded
    ensures Pending(files[..i + 1], recorded) == Pending(files[..i], recorded) <= Pending(files, recorded)
  {
    PendingOneMore(files, i, recorded);
    PendingOfPrefix(files, i, recorded);
  }

  // ----- One process, one run -------------------------------------------------------

  datatype CommitReply = Acknowledged | Refused | Lost(took: bool)

  // Which calls of applyMigration come back without an error.
  datatype TxIo = TxIo(begin: bool, body: bool, insert: bool, commit: CommitReply, rollback: bool) {
    predicate Clean() { begin && body && insert && commit == Acknowledged }
    predicate TakesEffect() { begin && body && insert && (commit == Acknowledged || commit == Lost(true)) }
  }

  datatype RunIo = RunIo(acquire: bool, lock: bool, ensureTable: bool, read: bool, unlock: bool,
                         tx: Migration -> TxIo)

  datatype MigrateError =
    | LoadFailed(cause: LoadError)
    | NoConnection
    | NoLock
    | NoTable
    | NoSnapshot
    | ChecksumMismatch(file: Migration)
    | ApplyFailed(file: Migration)

  datatype Txn = NoTxn | Open(bodies: seq<Migration>, rows: Rows)

  predicate AllClean(ms: seq<Migration>, io: RunIo) {
    ms == [] || (AllClean(ms[..|ms| - 1], io) && io.tx(ms[|ms| - 1]).Clean())
  }

  // How a run that found recorded, and applied the first k pending files, may end.
  ghost predicate RunOutcome(files: seq<Migration>, io: RunIo, recorded: Rows, k: nat,
                             applied: seq<Migration>, err: Option<MigrateError>)
  {
    var p, d := Pending(files, recorded), FirstDrift(files, recorded);
    match err
    case None =>
      io.ensureTable && io.read && d == |files| && applied == p && k == |p| && AllClean(p, io)
    case Some(e) =>
      && applied == []
      && match e
         case NoTable => !io.ensureTable && k == 0
         case NoSnapshot => io.ensureTable && !io.read && k == 0
         case ChecksumMismatch(m) =>
           && d < |files| && m == files[d] && k == |Pending(files[..d], recorded)|
           && AllClean(Pending(files[..d], recorded), io)
         case ApplyFailed(m) =>
           && !io.tx(m).Clean()
           && (if io.tx(m).TakesEffect() then 0 < k <= |p| && p[k - 1] == m else k < |p| && p[k] == m)
           && (exists i :: 0 <= i < d && files[i] == m)
         case _ => false
  }

  // The run has looked at files[..i] and applied the pending ones among them.
  ghost predicate Progress(files: seq<Migration>, io: RunIo, recorded: Rows, schema0: seq<Migration>,
                           i: nat, applied: seq<Migration>, rows: Rows, schema: seq<Migration>)
  {
    && i <= FirstDrift(files, recorded)
    && applied == Pending(files[..i], recorded) && AllClean(applied, io)
    && schema == schema0 + applied && rows == recorded + RowsOf(applied)
  }

  // The end of a run: what is in the database, and what the caller is told.
  ghost predicate Ended(files: seq<Migration>, io: RunIo, recorded: Rows, schema0: seq<Migration>,
                        rows: Rows, schema: seq<Migration>, applied: seq<Migration>, err: Option<MigrateError>)
  {
    && AppliedPrefix(Pending(files, recorded), recorded, schema0, rows, schema)
    && RunOutcome(files, io, recorded, |schema| - |schema0|, applied, err)
  }

  lemma Starts(files: seq<Migration>, io: RunIo, recorded: Rows, schema0: seq<Migration>)
    ensures Progress(files, io, recorded, schema0, 0, [], recorded, schema0)
    ensures !io.ensureTable ==> Ended(files, io, recorded, schema0, recorded, schema0, [], Some(NoTable))
    ensures io.ensureTable && !io.read ==> Ended(files, io, recorded, schema0, recorded, schema0, [], Some(NoSnapshot))
  {
    assert Pending(files, recorded)[..0] == [];
  }

  lemma ProgressIsPrefix(files: seq<Migration>, io: RunIo, recorded: Rows, schema0: seq<Migration>,
                         i: nat, applied: seq<Migration>, rows: Rows, schema: seq<Migration>)
    requires Progress(files, io, recorded, schema0, i, applied, rows, schema)
    ensures AppliedPrefix(Pending(files, recorded), recorded, schema0, rows, schema)
  {
    PendingOfPrefix(files, i, recorded);
    assert Pending(files, recorded)[..|applied|] == applied;
  }

  lemma Skips(files: seq<Migration>, io: RunIo, recorded: Rows, schema0: seq<Migration>,
              i: nat, applied: seq<Migration>, rows: Rows, schema: seq<Migration>)
    requires Progress(files, io, recorded, schema0, i, applied, rows, schema)
    requires i < |files| && files[i].version in recorded
    ensures recorded[files[i].version] != files[i].checksum ==>
      Ended(files, io, recorded, schema0, rows, schema, [], Some(ChecksumMismatch(files[i])))
    ensures recorded[files[i].version] == files[i].checksum ==>
      Progress(files, io, recorded, schema0, i + 1, applied, rows, schema)
  {
    ProgressIsPrefix(files, io, recorded, schema0, i, applied, rows, schema);
    SkipNext(files, i, recorded);
  }

  lemma Applies(files: seq<Migration>, io: RunIo, recorded: Rows, schema0: seq<Migration>,
                i: nat, applied: seq<Migration>, rows: Rows, schema: seq<Migration>)
    requires Progress(files, io, recorded, schema0, i, applied, rows, schema)
    requires DistinctVersions(files) && i < |files| && files[i].version !in recorded
    ensures files[i].version !in rows
    ensures var m := files[i];
         var rows', schema' := rows[m.version := m.checksum], schema + [m];
         if io.tx(m).Clean() then Progress(files, io, recorded, schema0, i + 1, applied + [m], rows', schema')
         else if io.tx(m).TakesEffect()
         then Ended(files, io, recorded, schema0, rows', schema', [], Some(ApplyFailed(m)))
         else Ended(files, io, recorded, schema0, rows, schema, [], Some(ApplyFailed(m)))
  {
    ProgressIsPrefix(files, io, recorded, schema0, i, applied, rows, schema);
    ApplyNext(files, i, recorded);
    var d := FirstDrift(files, recorded);
    assert i < d;
    assert (applied + [files[i]])[..|applied|] == applied;
    assert schema0 + applied + [files[i]] == schema0 + (applied + [files[i]]);
  }

  lemma Finishes(files: seq<Migration>, io: RunIo, recorded: Rows, schema0: seq<Migration>,
                 applied: seq<Migration>, rows: Rows, schema: seq<Migration>)
    requires io.ensureTable && io.read
    requires Progress(files, io, recorded, schema0, |files|, applied, rows, schema)
    ensures Ended(files, io, recorded, schema0, rows, schema, applied, None)
  {
    ProgressIsPrefix(files, io, recorded, schema0, |files|, applied, rows, schema);
    assert files[..|files|] == files;
  }

  /** Without a failing call, a run fails exactly on drift, having applied the pending files before it. */
  lemma CleanRunOutcome(files: seq<Migration>, io: RunIo, recorded: Rows, k: nat,
                        applied: seq<Migration>, err: Option<MigrateError>)
    requires RunOutcome(files, io, recorded, k, applied, err)
    requires io.ensureTable && io.read && forall m :: io.tx(m).Clean()
    ensures err.None? <==> FirstDrift(files, recorded) == |files|
    ensures FirstDrift(files, recorded) < |files| ==>
      applied == [] && err == Some(ChecksumMismatch(files[FirstDrift(files, recorded)]))
    ensures k == |Pending(files[..FirstDrift(files, recorded)], recorded)|
  {
    assert files[..|files|] == files;
  }

  // A row's version is that of some file.
  ghost predicate OfDirectory(v: string, dir: seq<File>) {
    exists f :: f in dir && IsSql(f.name) && |f.name| >= 4 && f.name[..4] == v
  }

  // Every file of the directory, and no other, has a row, with the checksum of its content.
  ghost predicate Recorded(recorded: Rows, dir: seq<File>, sha256: string -> string) {
    && (forall f | f in dir && IsSql(f.name) ::
          && |f.name| >= 4 && f.content.Some?
          && f.name[..4] in recorded && recorded[f.name[..4]] == sha256(f.content.value))
    && (forall v | v in recorded :: OfDirectory(v, dir))
  }

  // Of an applied directory, the file f now reads f'; files may have been added.
  ghost predicate Edited(dir: seq<File>, dir': seq<File>, f: File, f': File, sha256: string -> string) {
    && f in dir && f' in dir' && f.name == f'.name && IsSql(f.name)
    && f.content.Some? && f'.content.Some? && sha256(f.content.value) != sha256(f'.content.value)
    && forall g | g in dir && IsSql(g.name) && g != f :: g in dir'
  }

  lemma OnlyTheEditedDrifts(dir: seq<File>, dir': seq<File>, f: File, f': File, sha256: string -> string,
                            recorded: Rows, m: Migration, files: seq<Migration>)
    requires Loadable(dir) && IsDirectory(files, dir', sha256) && Recorded(recorded, dir, sha256)
    requires Edited(dir, dir', f, f', sha256) && m in files
    ensures Drifted(m, recorded) <==> m.filename == f'.name
    ensures m.filename == f'.name ==> m.sql == f'.content.value
  {
    DirectoryMeans(files, dir', sha256);
    var g' := File(m.filename, Some(m.sql));
    assert g' in dir' && VersionOf(g'.name) == m.version;
    if m.version in recorded {
      var g :| g in dir && IsSql(g.name) && |g.name| >= 4 && g.name[..4] == m.version;
      assert VersionOf(g.name) == m.version;
      if g == f {
        assert g' == f';
      } else {
        assert g == g';
      }
    }
  }

  lemma FirstDriftIsTheEdited(dir: seq<File>, dir': seq<File>, f: File, f': File, sha256: string -> string,
                              recorded: Rows, files: seq<Migration>)
    requires Loadable(dir) && IsDirectory(files, dir', sha256) && Recorded(recorded, dir, sha256)
    requires Edited(dir, dir', f, f', sha256)
    ensures var d := FirstDrift(files, recorded);
      d < |files| && files[d].filename == f'.name && files[d].sql == f'.content.value
  {
    DirectoryMeans(files, dir', sha256);
    var m :| m in files && f' == File(m.filename, Some(m.sql));
    OnlyTheEditedDrifts(dir, dir', f, f', sha256, recorded, m, files);
    var d := FirstDrift(files, recorded);
    if d < |files| {
      OnlyTheEditedDrifts(dir, dir', f, f', sha256, recorded, files[d], files);
    }
  }

  /**
   A clean run over a directory in which one applied file has been edited stops at that
   file, if the hash tells the two contents apart.
   */
  lemma EditIsCaught(dir: seq<File>, dir': seq<File>, f: File, f': File, sha256: string -> string,
                     files: seq<Migration>, io: RunIo, recorded: Rows, schema0: seq<Migration>,
                     rows: Rows, schema: seq<Migration>, applied: seq<Migration>, err: Option<MigrateError>)
    requires Loadable(dir) && IsDirectory(files, dir', sha256) && Recorded(recorded, dir, sha256)
    requires Edited(dir, dir', f, f', sha256)
    requires Ended(files, io, recorded, schema0, rows, schema, applied, err)
    requires io.ensureTable && io.read && forall m :: io.tx(m).Clean()
    ensures err.Some? && err.value.ChecksumMismatch? && applied == []
    ensures err.value.file.filename == f'.name && Some(err.value.file.sql) == f'.content
  {
    FirstDriftIsTheEdited(dir, dir', f, f', sha256, recorded, files);
    CleanRunOutcome(files, io, recorded, |schema| - |schema0|, applied, err);
  }

  // After everything missing has been applied, each file has its row.
  lemma AllRecorded(files: seq<Migration>, rows0: Rows, m: Migration)
    requires DistinctVersions(files) && FirstDrift(files, rows0) == |files| && m in files
    ensures var rows := rows0 + RowsOf(Pending(files, rows0)); m.version in rows && rows[m.version] == m.checksum
  {
    PendingMembers(files, rows0);
    RowsOfMembers(Pending(files, rows0));
    var i :| 0 <= i < |files| && files[i] == m;
    assert !Drifted(files[i], rows0);
  }

  lemma OnlyFilesRecorded(files: seq<Migration>, rows0: Rows, v: string)
    requires v in rows0 + RowsOf(Pending(files, rows0)) && v !in rows0
    ensures exists m :: m in files && m.version == v
  {
    PendingMembers(files, rows0);
    RowsOfMembers(Pending(files, rows0));
  }

  /**
   A run that succeeds returns exactly the files without a row, in version order; they and
   their rows, and nothing else, are what it added. One that fails returns nothing.
   */
  lemma ReportMeans(files: seq<Migration>, io: RunIo, rows0: Rows, schema0: seq<Migration>,
                    rows: Rows, schema: seq<Migration>, applied: seq<Migration>, err: Option<MigrateError>)
    requires Ordered(files) && Ended(files, io, rows0, schema0, rows, schema, applied, err)
    ensures err.Some? ==> applied == []
    ensures err.None? ==>
      && Ordered(applied) && schema == schema0 + applied
      && (forall m :: m in applied <==> m in files && m.version !in rows0)
      && (forall v :: v in rows <==> v in rows0 || exists m :: m in applied && m.version == v)
      && (forall m | m in files :: m.version in rows && rows[m.version] == m.checksum)
  {
    var p := Pending(files, rows0);
    PendingMembers(files, rows0);
    PendingIsOrdered(files, rows0);
    RowsOfMembers(p);
    assert p[..|p|] == p;
    OrderedVersionsDiffer(files);
    if err.None? {
      forall m | m in files ensures m.version in rows && rows[m.version] == m.checksum {
        AllRecorded(files, rows0, m);
      }
    }
  }

  /** A run over a directory that succeeds, where nothing else had been applied, records it. */
  lemma SuccessRecords(dir: seq<File>, sha256: string -> string, files: seq<Migration>, io: RunIo, rows0: Rows,
                       schema0: seq<Migration>, rows: Rows, schema: seq<Migration>, applied: seq<Migration>)
    requires IsDirectory(files, dir, sha256) && DistinctVersions(files)
    requires Ended(files, io, rows0, schema0, rows, schema, applied, None)
    requires forall v | v in rows0 :: OfDirectory(v, dir)
    ensures Recorded(rows, dir, sha256)
  {
    assert Pending(files, rows0)[..|Pending(files, rows0)|] == Pending(files, rows0);
    forall f | f in dir && IsSql(f.name)
      ensures |f.name| >= 4 && f.content.Some?
      ensures f.name[..4] in rows && rows[f.name[..4]] == sha256(f.content.value)
    {
      AllRecorded(files, rows0, ToMigration(f, sha256));
    }
    forall v | v in rows ensures OfDirectory(v, dir) {
      if v !in rows0 {
        OnlyFilesRecorded(files, rows0, v);
        var m :| m in files && m.version == v;
        var f :| f in dir && IsSql(f.name) && m == ToMigration(f, sha256);
      }
    }
  }

  class Database {
    var rows: Rows
    var schema: seq<Migration>
    var txn: Txn
    var locked: bool
    var unlockAttempts: nat

    method Commit()
      requires txn.Open?
      modifies this`rows, this`schema, this`txn
      ensures rows == old(rows) + old(txn).rows && schema == old(schema) + old(txn).bodies
      ensures txn == NoTxn
    {
      rows, schema := rows + txn.rows, schema + txn.bodies;
      txn := NoTxn;
    }

    method Rollback(works: bool)
      modifies this`txn
      ensures txn == if works then NoTxn else old(txn)
    {
      if works {
        txn := NoTxn;
      }
    }

    /** The body and its row take effect together or not at all. */
    method ApplyMigration(m: Migration, io: TxIo) returns (ok: bool)
      requires txn == NoTxn
      modifies this`rows, this`schema, this`txn
      ensures ok <==> io.begin && io.body && io.insert && io.commit == Acknowledged && m.version !in old(rows)
      ensures
        if io.begin && io.body && io.insert && m.version !in old(rows)
           && (io.commit == Acknowledged || io.commit == Lost(true))
        then rows == old(rows)[m.version := m.checksum] && schema == old(schema) + [m]
        else rows == old(rows) && schema == old(schema)
      ensures ok || io.rollback ==> txn == NoTxn
    {
      if !io.begin {
        return false;
      }
      txn := Open([], map[]);
      if !io.body {
        Rollback(io.rollback);
        return false;
      }
      txn := txn.(bodies := txn.bodies + [m]);
      if !io.insert || m.version in rows {
        Rollback(io.rollback);
        return false;
      }
      txn := txn.(rows := txn.rows[m.version := m.checksum]);
      match io.commit {
        case Acknowledged =>
          Commit();
          return true;
        case Refused =>
          txn := NoTxn;
        case Lost(took) =>
          if took {
            Commit();
          }
      }
      Rollback(io.rollback);
      return false;
    }

    /** The part of a run that holds the lock. */
    method ApplyPending(files: seq<Migration>, io: RunIo)
      returns (applied: seq<Migration>, err: Option<MigrateError>)
      requires DistinctVersions(files) && txn == NoTxn
      modifies this`rows, this`schema, this`txn
      ensures Ended(files, io, old(rows), old(schema), rows, schema, applied, err)
    {
      ghost var schema0 := schema;
      Starts(files, io, rows, schema);
      if !io.ensureTable {
        return [], Some(NoTable);
      }
      if !io.read {
        return [], Some(NoSnapshot);
      }
      var recorded := rows;
      applied := [];
      for i := 0 to |files|
        invariant txn == NoTxn
        invariant Progress(files, io, recorded, schema0, i, applied, rows, schema)
      {
        var m := files[i];
        if m.version in recorded {
          Skips(files, io, recorded, schema0, i, applied, rows, schema);
          if recorded[m.version] != m.checksum {
            return [], Some(ChecksumMismatch(m));
          }
        } else {
          Applies(files, io, recorded, schema0, i, applied, rows, schema);
          var ok := ApplyMigration(m, io.tx(m));
          if !ok {
            return [], Some(ApplyFailed(m));
          }
          applied := applied + [m];
        }
      }
      Finishes(files, io, recorded, schema0, applied, rows, schema);
      err := None;
    }

    /** A whole run: load, lock, apply, unlock. Every path that took the lock tries to release it. */
    method Migrate(dir: seq<File>, sha256: string -> string, io: RunIo)
      returns (applied: seq<Migration>, err: Option<MigrateError>)
      requires DistinctNames(dir) && txn == NoTxn && !locked
      modifies this
      ensures Loadable(dir) && io.acquire && io.lock ==> unlockAttempts == old(unlockAttempts) + 1
      ensures !(Loadable(dir) && io.acquire && io.lock) ==>
        err.Some? && unchanged(this)
      ensures locked ==> !io.unlock
      ensures err.Some? ==> applied == []
      ensures Loadable(dir) && io.acquire && io.lock ==> exists files ::
        && Ordered(files) && IsDirectory(files, dir, sha256)
        && Ended(files, io, old(rows), old(schema), rows, schema, applied, err)
    {
      var loaded := LoadMigrations(dir, sha256);
      if loaded.Err? {
        return [], Some(LoadFailed(loaded.error));
      }
      if !io.acquire {
        return [], Some(NoConnection);
      }
      if !io.lock {
        return [], Some(NoLock);
      }
      locked := true;
      OrderedVersionsDiffer(loaded.value);
      applied, err := ApplyPending(loaded.value, io);
      unlockAttempts := unlockAttempts + 1;
      if io.unlock {
        locked := false;
      }
    }
  }
}
