/**
 Teams and users (internal/repository/user.go, migrations/0002_identity.sql).

 A registration writes a team and its first user in one transaction. Any statement may
 fail, and a failed COMMIT may or may not have taken effect. Strings are ASCII.
 */
module Users {
  import opened Wrappers
  import opened Text
  import opened Tokens

  function NormalizeEmail(email: string): string { ToLower(TrimSpace(email)) }

  datatype User = User(team: Id, email: string, hash: string, name: string)

  datatype Db = Db(teams: map<Id, string>, users: map<Id, User>)

  const EMPTY := Db(map[], map[])

  // What a caller asks for.
  datatype NewTeam = NewTeam(teamName: string, email: string, hash: string, name: string)

  datatype Commit = Committed | CommitFailed(applied: bool)

  // Which statements of one transaction succeed, and the ids the database draws.
  datatype TxIo = TxIo(begin: bool, team: bool, user: bool, commit: Commit, teamId: Id, userId: Id)

  datatype CreateError = Conflict | Other

  // ----- Constraints of 0002 --------------------------------------------------------

  const MAX_NAME := 200
  const MIN_EMAIL := 3
  const MAX_EMAIL := 320

  predicate NameOk(name: string) { 1 <= |BTrim(name)| <= MAX_NAME }

  predicate EmailOk(email: string) { MIN_EMAIL <= |email| <= MAX_EMAIL }

  predicate Taken(users: map<Id, User>, email: string) {
    exists u :: u in users && ToLower(users[u].email) == ToLower(email)
  }

  // ----- Registration as a whole ----------------------------------------------------

  // The rows pass their CHECK constraints.
  predicate Storable(draft: NewTeam) {
    NameOk(TrimSpace(draft.teamName)) && NameOk(TrimSpace(draft.name)) && EmailOk(NormalizeEmail(draft.email))
  }

  // Every statement up to the user's INSERT gets as far as the unique indexes.
  predicate ReachesIndex(db: Db, draft: NewTeam, io: TxIo) {
    io.begin && io.team && io.user && Storable(draft) && io.teamId !in db.teams
  }

  predicate Clashes(db: Db, draft: NewTeam, io: TxIo) {
    io.userId in db.users || Taken(db.users, NormalizeEmail(draft.email))
  }

  predicate Stored(db: Db, draft: NewTeam, io: TxIo) {
    ReachesIndex(db, draft, io) && !Clashes(db, draft, io) && io.commit != CommitFailed(false)
  }

  function Owner(draft: NewTeam, io: TxIo): User {
    User(io.teamId, NormalizeEmail(draft.email), draft.hash, TrimSpace(draft.name))
  }

  // Both rows or neither.
  function After(db: Db, draft: NewTeam, io: TxIo): Db {
    if Stored(db, draft, io)
    then Db(db.teams[io.teamId := TrimSpace(draft.teamName)], db.users[io.userId := Owner(draft, io)])
    else db
  }

  // The rows a lookup by address selects.
  function Matching(db: Db, email: string): set<Id> {
    set u | u in db.users && ToLower(db.users[u].email) == NormalizeEmail(email)
  }

  datatype FindError = NotFound | Failed

  class UserRepository {
    var teams: map<Id, string>
    var users: map<Id, User>

    function Contents(): Db
      reads this
    {
      Db(teams, users)
    }

    constructor ()
      ensures Contents() == EMPTY
    {
      teams, users := map[], map[];
    }

    method CreateTeamWithOwner(draft: NewTeam, io: TxIo) returns (r: Result<(Id, Id), CreateError>)
      modifies this
      ensures Contents() == After(old(Contents()), draft, io)
      ensures r.Ok? <==> Stored(old(Contents()), draft, io) && io.commit.Committed?
      ensures r.Ok? ==> r.value == (io.teamId, io.userId)
      ensures r.Ok? ==> teams == old(teams)[io.teamId := TrimSpace(draft.teamName)]
      ensures r.Ok? ==> users == old(users)[io.userId :=
        User(io.teamId, NormalizeEmail(draft.email), draft.hash, TrimSpace(draft.name))]
      ensures r == Err(Conflict) ==> teams == old(teams) && users == old(users)
      ensures r == Err(Conflict) <==> ReachesIndex(old(Contents()), draft, io) && Clashes(old(Contents()), draft, io)
    {
      if !io.begin {
        return Err(Other);
      }
      var txTeams, txUsers := teams, users;

      var teamName := TrimSpace(draft.teamName);
      if !io.team || !NameOk(teamName) || io.teamId in txTeams {
        return Err(Other);
      }
      txTeams := txTeams[io.teamId := teamName];

      var user := User(io.teamId, NormalizeEmail(draft.email), draft.hash, TrimSpace(draft.name));
      if !io.user || !EmailOk(user.email) || !NameOk(user.name) {
        return Err(Other);
      }
      if io.userId in txUsers || Taken(txUsers, user.email) {
        return Err(Conflict);
      }
      txUsers := txUsers[io.userId := user];

      if io.commit == CommitFailed(false) {
        return Err(Other);
      }
      teams, users := txTeams, txUsers;
      if io.commit.CommitFailed? {
        return Err(Other);
      }
      return Ok((io.teamId, io.userId));
    }

    method FindByEmail(email: string, up: bool) returns (r: Result<Id, FindError>)
      ensures !up ==> r == Err(Failed)
      ensures up && r.Ok? ==> r.value in Matching(Contents(), email)
      ensures up && r.Err? ==> r.error == NotFound && Matching(Contents(), email) == {}
    {
      if !up {
        return Err(Failed);
      }
      var rows := Matching(Contents(), email);
      if rows == {} {
        return Err(NotFound);
      }
      var u :| u in rows;
      return Ok(u);
    }

    method FindByID(id: Id, up: bool) returns (r: Result<User, FindError>)
      ensures !up ==> r == Err(Failed)
      ensures up ==> r == if id in users then Ok(users[id]) else Err(NotFound)
    {
      if !up {
        return Err(Failed);
      }
      if id !in users {
        return Err(NotFound);
      }
      return Ok(users[id]);
    }
  }

  // ----- The canonical form of an address -------------------------------------------

  // The same letters in any case, with white space around them.
  ghost predicate Variant(v: string, w: string) {
    exists a, s, b :: v == a + s + b && AllSpace(a) && AllSpace(b) && ToLower(s) == ToLower(TrimSpace(w))
  }

  lemma TrimTwice(s: string)
    ensures TrimSpace(TrimSpace(s)) == TrimSpace(s)
  {
    var a, b := TrimSplit(s);
  }

  /** Two addresses have one canonical form exactly when they differ in case and outer space only. */
  lemma NormalizeIffVariant(v: string, w: string)
    ensures NormalizeEmail(v) == NormalizeEmail(w) <==> Variant(v, w)
  {
    if Variant(v, w) {
      var a, s, b :| v == a + s + b && AllSpace(a) && AllSpace(b) && ToLower(s) == ToLower(TrimSpace(w));
      TrimPadded(a, s, b);
      LowerTrim(s);
      LowerTrim(TrimSpace(w));
      TrimTwice(w);
    }
    if NormalizeEmail(v) == NormalizeEmail(w) {
      var a, b := TrimSplit(v);
    }
  }

  // One address, written as people write it.
  lemma AddressExample()
    ensures NormalizeEmail("\t Ada@B.Com ") == "ada@b.com"
  {
    var trimmed := "Ada@B.Com";
    assert "\t Ada@B.Com " == "\t " + trimmed + " ";
    TrimPadded("\t ", trimmed, " ");
    assert TrimSpace(trimmed) == trimmed;
    assert ToLower(trimmed) == "ada@b.com";
  }

  lemma LowerTwice(s: string)
    ensures ToLower(ToLower(s)) == ToLower(s)
  {
  }

  // ----- Every run of registrations -------------------------------------------------

  function Exec(db: Db, run: seq<(NewTeam, TxIo)>): Db
    decreases |run|
  {
    if run == [] then db else Exec(After(db, run[0].0, run[0].1), run[1..])
  }

  // Each team has exactly one user, and each user a team.
  ghost predicate OneToOne(db: Db) {
    && (forall u | u in db.users :: db.users[u].team in db.teams)
    && (forall t | t in db.teams :: exists u :: u in db.users && db.users[u].team == t)
    && (forall u, v | u in db.users && v in db.users && u != v :: db.users[u].team != db.users[v].team)
  }

  // Addresses are canonical and unique.
  ghost predicate Canonical(db: Db) {
    && (forall u | u in db.users :: ToLower(db.users[u].email) == db.users[u].email)
    && (forall u, v | u in db.users && v in db.users && u != v :: db.users[u].email != db.users[v].email)
  }

  ghost predicate Sound(db: Db) { OneToOne(db) && Canonical(db) }

  lemma RegistrationKeepsOneToOne(db: Db, draft: NewTeam, io: TxIo)
    requires OneToOne(db) && Stored(db, draft, io)
    ensures OneToOne(After(db, draft, io))
  {
    var db' := After(db, draft, io);
    forall t | t in db'.teams ensures exists u :: u in db'.users && db'.users[u].team == t {
      if t == io.teamId {
        assert db'.users[io.userId].team == t;
      } else {
        var u :| u in db.users && db.users[u].team == t;
        assert db'.users[u].team == t;
      }
    }
  }

  lemma RegistrationKeepsCanonical(db: Db, draft: NewTeam, io: TxIo)
    requires Canonical(db) && Stored(db, draft, io)
    ensures Canonical(After(db, draft, io))
  {
    LowerTwice(TrimSpace(draft.email));
  }

  lemma RegistrationKeepsSound(db: Db, draft: NewTeam, io: TxIo)
    requires Sound(db)
    ensures Sound(After(db, draft, io))
  {
    if Stored(db, draft, io) {
      RegistrationKeepsOneToOne(db, draft, io);
      RegistrationKeepsCanonical(db, draft, io);
    }
  }

  ghost predicate Keeps(db: Db, db': Db) {
    && (forall u | u in db.users :: u in db'.users && db'.users[u] == db.users[u])
    && (forall t | t in db.teams :: t in db'.teams && db'.teams[t] == db.teams[t])
  }

  lemma {:induction false} RunsKeepRows(db: Db, run: seq<(NewTeam, TxIo)>)
    ensures Keeps(db, Exec(db, run))
    decreases |run|
  {
    if run != [] {
      assert Keeps(db, After(db, run[0].0, run[0].1));
      RunsKeepRows(After(db, run[0].0, run[0].1), run[1..]);
    }
  }

  /** Whatever fails in a run of registrations, what is committed is sound. */
  lemma {:induction false} RunsAreSound(db: Db, run: seq<(NewTeam, TxIo)>)
    requires Sound(db)
    ensures Sound(Exec(db, run))
    decreases |run|
  {
    if run != [] {
      RegistrationKeepsSound(db, run[0].0, run[0].1);
      RunsAreSound(After(db, run[0].0, run[0].1), run[1..]);
    }
  }

  lemma {:induction false} ExecSplit(db: Db, run: seq<(NewTeam, TxIo)>, k: nat)
    requires k <= |run|
    ensures Exec(db, run) == Exec(Exec(db, run[..k]), run[k..])
    decreases k
  {
    if k == 0 {
      assert run[..0] == [] && run[0..] == run;
    } else {
      ExecSplit(After(db, run[0].0, run[0].1), run[1..], k - 1);
      assert run[..k][1..] == run[1..][..k - 1] && run[1..][k - 1..] == run[k..];
    }
  }

  // A lookup in a sound database selects at most one row, the one with that canonical address.
  lemma MatchingIs(db: Db, email: string, u: Id)
    requires Sound(db) && u in db.users
    ensures u in Matching(db, email) <==> NormalizeEmail(email) == db.users[u].email
    ensures u in Matching(db, email) ==> Matching(db, email) == {u}
  {
  }

  // Registration k of the run was stored.
  predicate StoredAt(run: seq<(NewTeam, TxIo)>, k: nat)
    requires k < |run|
  {
    Stored(Exec(EMPTY, run[..k]), run[k].0, run[k].1)
  }

  /** What a stored registration wrote is what lookups by its ids find at the end of the run. */
  lemma StaysStored(run: seq<(NewTeam, TxIo)>, k: nat)
    requires k < |run| && StoredAt(run, k)
    ensures Sound(Exec(EMPTY, run))
    ensures var db, io := Exec(EMPTY, run), run[k].1;
      && io.userId in db.users
      && db.users[io.userId] ==
           User(io.teamId, NormalizeEmail(run[k].0.email), run[k].0.hash, TrimSpace(run[k].0.name))
      && io.teamId in db.teams && db.teams[io.teamId] == TrimSpace(run[k].0.teamName)
  {
    var before := Exec(EMPTY, run[..k]);
    RunsAreSound(EMPTY, run);
    ExecSplit(EMPTY, run, k);
    assert run[k..][0] == run[k];
    RunsKeepRows(After(before, run[k].0, run[k].1), run[k..][1..]);
  }

  lemma ExecLast(run: seq<(NewTeam, TxIo)>)
    requires run != []
    ensures var n := |run| - 1;
      Exec(EMPTY, run) == After(Exec(EMPTY, run[..n]), run[n].0, run[n].1)
  {
    var n := |run| - 1;
    ExecSplit(EMPTY, run, n);
    assert run[n..] == [run[n]] && run[n..][1..] == [];
  }

  // Every user came in with some registration of the run.
  lemma {:induction false} UserIsRegistered(run: seq<(NewTeam, TxIo)>, u: Id) returns (k: nat)
    requires u in Exec(EMPTY, run).users
    ensures k < |run| && StoredAt(run, k) && run[k].1.userId == u
    decreases |run|
  {
    ExecLast(run);
    var n := |run| - 1;
    if u in Exec(EMPTY, run[..n]).users {
      k := UserIsRegistered(run[..n], u);
      assert run[..n][..k] == run[..k] && run[..n][k] == run[k];
    } else {
      k := n;
    }
  }

  /**
   At the end of any run, a stored registration's user is the one row found, by exactly
   the variants of the address it was registered under.
   */
  lemma FoundByItsVariants(run: seq<(NewTeam, TxIo)>, k: nat, email: string)
    requires k < |run| && StoredAt(run, k)
    ensures Variant(email, run[k].0.email) <==> run[k].1.userId in Matching(Exec(EMPTY, run), email)
    ensures Variant(email, run[k].0.email) ==> Matching(Exec(EMPTY, run), email) == {run[k].1.userId}
  {
    StaysStored(run, k);
    NormalizeIffVariant(email, run[k].0.email);
    MatchingIs(Exec(EMPTY, run), email, run[k].1.userId);
  }

  /** From then on any variant of the address is refused, and no refusal changes anything. */
  lemma AddressIsTakenForGood(run: seq<(NewTeam, TxIo)>, k: nat, again: NewTeam, io: TxIo)
    requires k < |run| && StoredAt(run, k) && Variant(again.email, run[k].0.email)
    ensures Clashes(Exec(EMPTY, run), again, io)
    ensures After(Exec(EMPTY, run), again, io) == Exec(EMPTY, run)
  {
    StaysStored(run, k);
    NormalizeIffVariant(again.email, run[k].0.email);
    var db := Exec(EMPTY, run);
    assert ToLower(db.users[run[k].1.userId].email) == ToLower(NormalizeEmail(again.email));
  }
}
