/**
 The registration and login endpoints (internal/handlers/auth.go, internal/models/identity.go,
 internal/auth/password.go) on top of the user repository.
 */
module Accounts {
  import opened Wrappers
  import opened Text
  import opened Tokens
  import opened Users
  import Sessions

  datatype Request = Request(email: string, password: string, name: string, teamName: string)

  const MIN_PASSWORD := 12
  const MAX_PASSWORD := 72

  // ----- Validation -----------------------------------------------------------------

  // Exactly one @, something before it, and a last dot strictly inside what follows.
  ghost predicate EmailShape(s: string) {
    exists at, dot ::
      && 0 < at && at + 1 < dot < |s| - 1 && s[at] == '@' && s[dot] == '.'
      && (forall i | 0 <= i < |s| && s[i] == '@' :: i == at)
      && (forall i | dot < i < |s| :: s[i] != '.')
  }

  method ValidEmail(s: string) returns (ok: bool)
    ensures ok <==> EmailShape(s)
  {
    var at := -1;
    for i := 0 to |s|
      invariant -1 <= at < i
      invariant at != -1 ==> s[at] == '@'
      invariant forall j | 0 <= j < i && s[j] == '@' :: j == at
    {
      if s[i] == '@' {
        if at != -1 {
          return false;
        }
        at := i;
      }
    }
    if at <= 0 || at == |s| - 1 {
      return false;
    }
    var domain := s[at + 1..];
    var dot := -1;
    for i := 0 to |domain|
      invariant -1 <= dot < i
      invariant dot != -1 ==> domain[dot] == '.'
      invariant forall j | dot < j < i :: domain[j] != '.'
    {
      if domain[i] == '.' {
        dot := i;
      }
    }
    ok := dot > 0 && dot < |domain| - 1;
    if dot != -1 {
      assert s[at + 1 + dot] == '.';
    }
    assert forall j | at < j < |s| :: s[j] == domain[j - at - 1];
  }

  datatype Problem = EmailRequired | EmailTooLong | EmailMalformed | NameRequired | TeamNameRequired
                   | PasswordRequired | PasswordTooShort | PasswordTooLong

  ghost predicate Has(req: Request, p: Problem) {
    var email := TrimSpace(req.email);
    match p
    case EmailRequired => email == ""
    case EmailTooLong => |email| > 320
    case EmailMalformed => email != "" && |email| <= 320 && !EmailShape(email)
    case NameRequired => TrimSpace(req.name) == ""
    case TeamNameRequired => TrimSpace(req.teamName) == ""
    case PasswordRequired => req.password == ""
    case PasswordTooShort => 0 < |req.password| < 12
    case PasswordTooLong => |req.password| > 72
  }

  ghost predicate Acceptable(req: Request) {
    forall p :: !Has(req, p)
  }

  // The problems of each field, at most one apiece.
  ghost function AddressProblems(email: string): (r: seq<Problem>)
    ensures |r| <= 1
  {
    if email == "" then [EmailRequired] else if |email| > MAX_EMAIL then [EmailTooLong]
    else if !EmailShape(email) then [EmailMalformed] else []
  }

  ghost function NameProblems(name: string, problem: Problem): (r: seq<Problem>)
    ensures |r| <= 1
  {
    if TrimSpace(name) == "" then [problem] else []
  }

  ghost function PasswordProblems(plain: string): (r: seq<Problem>)
    ensures |r| <= 1
  {
    if plain == "" then [PasswordRequired] else if |plain| < MIN_PASSWORD then [PasswordTooShort]
    else if |plain| > MAX_PASSWORD then [PasswordTooLong] else []
  }

  ghost function Problems(req: Request): seq<Problem> {
    AddressProblems(TrimSpace(req.email)) + NameProblems(req.name, NameRequired)
    + NameProblems(req.teamName, TeamNameRequired) + PasswordProblems(req.password)
  }

  method ValidatePassword(plain: string) returns (issues: seq<Problem>)
    ensures issues == PasswordProblems(plain)
  {
    issues := [];
    if plain == "" {
      issues := issues + [PasswordRequired];
    } else if |plain| < MIN_PASSWORD {
      issues := issues + [PasswordTooShort];
    }
    if |plain| > MAX_PASSWORD {
      issues := issues + [PasswordTooLong];
    }
  }

  method ValidateRegistration(req: Request) returns (issues: seq<Problem>)
    ensures issues == Problems(req)
  {
    issues := [];
    var email := TrimSpace(req.email);
    if email == "" {
      issues := issues + [EmailRequired];
    } else if |email| > MAX_EMAIL {
      issues := issues + [EmailTooLong];
    } else {
      var shaped := ValidEmail(email);
      if !shaped {
        issues := issues + [EmailMalformed];
      }
    }
    if TrimSpace(req.name) == "" {
      issues := issues + [NameRequired];
    }
    if TrimSpace(req.teamName) == "" {
      issues := issues + [TeamNameRequired];
    }
    var passwordIssues := ValidatePassword(req.password);
    issues := issues + passwordIssues;
  }

  lemma InFour<T>(a: seq<T>, b: seq<T>, c: seq<T>, d: seq<T>, x: T)
    ensures x in a + b + c + d <==> x in a || x in b || x in c || x in d
  {
  }

  /** Every problem is reported, and nothing else. */
  lemma ReportsExactly(req: Request, p: Problem)
    ensures p in Problems(req) <==> Has(req, p)
  {
    InFour(AddressProblems(TrimSpace(req.email)), NameProblems(req.name, NameRequired),
           NameProblems(req.teamName, TeamNameRequired), PasswordProblems(req.password), p);
  }

  /** Nothing is reported for a request without problems, and only then. */
  lemma NothingReportedIff(req: Request)
    ensures Problems(req) == [] <==> Acceptable(req)
  {
    forall p ensures p in Problems(req) <==> Has(req, p) {
      ReportsExactly(req, p);
    }
    if Problems(req) != [] {
      assert Problems(req)[0] in Problems(req);
    }
  }

  // ----- Validation against the table constraints -----------------------------------

  lemma BTrimTrimmed(s: string)
    ensures BTrim(TrimSpace(s)) == TrimSpace(s)
  {
    var a, b := TrimSplit(s);
  }

  // A name the handler lets through and the table does not.
  predicate Oversized(req: Request) {
    |TrimSpace(req.name)| > 200 || |TrimSpace(req.teamName)| > 200
  }

  function Asks(req: Request, hash: string): NewTeam {
    NewTeam(req.teamName, req.email, hash, req.name)
  }

  /**
   A request that passes validation satisfies the table constraints exactly when neither
   name is too long: the handler checks the address's length, and not the names'.
   */
  lemma ValidatedIsStorableIff(req: Request, hash: string)
    requires Acceptable(req)
    ensures Storable(Asks(req, hash)) <==> !Oversized(req)
  {
    assert !Has(req, EmailRequired) && !Has(req, EmailTooLong) && !Has(req, EmailMalformed);
    assert !Has(req, NameRequired) && !Has(req, TeamNameRequired);
    BTrimTrimmed(req.name);
    BTrimTrimmed(req.teamName);
  }

  // ----- Registration ---------------------------------------------------------------

  const STATUS_BAD_REQUEST := 400
  const STATUS_CONFLICT := 409
  const STATUS_UNPROCESSABLE := 422

  function Failure(status: nat): Sessions.Response {
    Sessions.Response(status, Sessions.Untouched, None)
  }

  // Nothing fails, and the ids drawn are new.
  predicate Healthy(db: Db, io: TxIo) {
    io.begin && io.team && io.user && io.commit.Committed?
    && io.teamId !in db.teams && io.userId !in db.users && io.teamId != NIL && io.userId != NIL
  }

  /**
   decoded is the request body, if it could be read; hashed is the password's hash, if
   computing one succeeded.
   */
  method Register(repo: UserRepository, tokens: Tokens, decoded: Option<Request>, hashed: Option<string>,
                  io: TxIo, now: nat, sessionIo: Sessions.Io)
    returns (resp: Sessions.Response)
    requires Usable(tokens)
    modifies repo
    ensures resp.status == 400 <==> decoded.None?
    ensures resp.status == 422 <==> decoded.Some? && !Acceptable(decoded.value)
    ensures decoded.Some? && Acceptable(decoded.value) && hashed.None? ==> resp.status == 500
    ensures repo.Contents() ==
      if decoded.Some? && Acceptable(decoded.value) && hashed.Some?
      then After(old(repo.Contents()), Asks(decoded.value, hashed.value), io) else old(repo.Contents())
    ensures resp.status == 201 ==>
      && decoded.Some? && hashed.Some? && Stored(old(repo.Contents()), Asks(decoded.value, hashed.value), io)
      && Sessions.CarriesSession(resp, tokens, io.userId, io.teamId, now, sessionIo)
    ensures resp.status != 201 ==> resp.body.None? && resp.cookie == Sessions.Untouched
    ensures decoded.Some? && Acceptable(decoded.value) && hashed.Some? && Healthy(old(repo.Contents()), io) ==>
      resp.status == if Oversized(decoded.value) then 500
                     else if Taken(old(repo.users), NormalizeEmail(decoded.value.email)) then 409
                     else 201
  {
    if decoded.None? {
      return Failure(STATUS_BAD_REQUEST);
    }
    var req := decoded.value;
    var issues := ValidateRegistration(req);
    NothingReportedIff(req);
    if issues != [] {
      return Failure(STATUS_UNPROCESSABLE);
    }
    if hashed.None? {
      return Sessions.INTERNAL_ERROR;
    }
    var created := repo.CreateTeamWithOwner(Asks(req, hashed.value), io);
    ValidatedIsStorableIff(req, hashed.value);
    if created.Err? {
      return if created.error.Conflict? then Failure(STATUS_CONFLICT) else Sessions.INTERNAL_ERROR;
    }
    Sessions.SessionIsUsable(tokens, Sessions.STATUS_CREATED, io.userId, io.teamId, now, sessionIo);
    resp := Sessions.SessionResponse(tokens, Sessions.STATUS_CREATED, io.userId, io.teamId, now, sessionIo);
  }

  lemma TrimTrimmed(s: string)
    requires s != "" && !IsSpace(s[0]) && !IsSpace(s[|s| - 1])
    ensures TrimSpace(s) == s
  {
  }

  // A valid request with a name of 201 letters fails as an internal error.
  lemma LongNameIsInternalError(password: string, name: string, hash: string)
    requires |password| == 12 && |name| == 201 && !IsSpace(name[0]) && !IsSpace(name[200])
    ensures Acceptable(Request("a@b.c", password, name, "t"))
    ensures !Storable(Asks(Request("a@b.c", password, name, "t"), hash))
  {
    var req := Request("a@b.c", password, name, "t");
    TrimTrimmed(req.email);
    TrimTrimmed(name);
    TrimTrimmed("t");
    var email := "a@b.c";
    assert email[1] == '@' && email[3] == '.' && EmailShape(email);
    ValidatedIsStorableIff(req, hash);
  }

  // ----- Login ----------------------------------------------------------------------

  datatype Credentials = Credentials(email: string, password: string)

  const REJECTED := Failure(Sessions.STATUS_UNAUTHORIZED)

  // What the user found may be answered; verify compares a stored hash with a password.
  function ReplyFor(db: Db, tokens: Tokens, u: Id, password: string, verify: (string, string) -> bool,
                    now: nat, io: Sessions.Io): Sessions.Response
    requires Usable(tokens) && u in db.users
  {
    if verify(db.users[u].hash, password)
    then Sessions.SessionResponse(tokens, Sessions.STATUS_OK, u, db.users[u].team, now, io)
    else REJECTED
  }

  ghost predicate LoginReply(db: Db, tokens: Tokens, c: Credentials, verify: (string, string) -> bool,
                             now: nat, io: Sessions.Io, resp: Sessions.Response)
    requires Usable(tokens)
  {
    if Matching(db, c.email) == {} then resp == REJECTED
    else exists u :: u in Matching(db, c.email) && resp == ReplyFor(db, tokens, u, c.password, verify, now, io)
  }

  /** A wrong password and an unknown address are answered alike; a match gets the session of the row found. */
  method Login(repo: UserRepository, tokens: Tokens, decoded: Option<Credentials>, up: bool,
               verify: (string, string) -> bool, now: nat, io: Sessions.Io)
    returns (resp: Sessions.Response)
    requires Usable(tokens)
    ensures decoded.None? ==> resp == Sessions.Response(400, Sessions.Untouched, None)
    ensures decoded.Some? && !up ==> resp == Sessions.Response(500, Sessions.Untouched, None)
    ensures decoded.Some? && up ==> LoginReply(repo.Contents(), tokens, decoded.value, verify, now, io, resp)
  {
    if decoded.None? {
      return Failure(STATUS_BAD_REQUEST);
    }
    var found := repo.FindByEmail(decoded.value.email, up);
    if found.Err? {
      return if found.error.NotFound? then REJECTED else Sessions.INTERNAL_ERROR;
    }
    var u := found.value;
    if !verify(repo.users[u].hash, decoded.value.password) {
      return REJECTED;
    }
    resp := Sessions.SessionResponse(tokens, Sessions.STATUS_OK, u, repo.users[u].team, now, io);
  }

  // Registration k of the run is the one these credentials fit.
  ghost predicate Fits(run: seq<(NewTeam, TxIo)>, k: nat, c: Credentials, verify: (string, string) -> bool) {
    k < |run| && StoredAt(run, k) && Variant(c.email, run[k].0.email) && verify(run[k].0.hash, c.password)
  }

  lemma RegisteredLogsIn(run: seq<(NewTeam, TxIo)>, k: nat, tokens: Tokens, c: Credentials,
                         verify: (string, string) -> bool, now: nat, io: Sessions.Io, resp: Sessions.Response)
    requires k < |run| && StoredAt(run, k) && Usable(tokens) && Variant(c.email, run[k].0.email)
    requires LoginReply(Exec(EMPTY, run), tokens, c, verify, now, io, resp)
    ensures resp ==
      if verify(run[k].0.hash, c.password)
      then Sessions.SessionResponse(tokens, Sessions.STATUS_OK, run[k].1.userId, run[k].1.teamId, now, io)
      else REJECTED
  {
    FoundByItsVariants(run, k, c.email);
    StaysStored(run, k);
  }

  lemma FittingLogsIn(run: seq<(NewTeam, TxIo)>, k: nat, tokens: Tokens, c: Credentials,
                      verify: (string, string) -> bool, now: nat, io: Sessions.Io, resp: Sessions.Response)
    requires Usable(tokens) && LoginReply(Exec(EMPTY, run), tokens, c, verify, now, io, resp)
    requires Fits(run, k, c, verify) && run[k].1.userId != NIL && run[k].1.teamId != NIL
    ensures resp.status == 200 && Sessions.CarriesSession(resp, tokens, run[k].1.userId, run[k].1.teamId, now, io)
  {
    RegisteredLogsIn(run, k, tokens, c, verify, now, io, resp);
    Sessions.SessionIsUsable(tokens, Sessions.STATUS_OK, run[k].1.userId, run[k].1.teamId, now, io);
  }

  lemma OthersAreRejected(run: seq<(NewTeam, TxIo)>, tokens: Tokens, c: Credentials,
                          verify: (string, string) -> bool, now: nat, io: Sessions.Io, resp: Sessions.Response)
    requires Usable(tokens) && LoginReply(Exec(EMPTY, run), tokens, c, verify, now, io, resp)
    requires forall k: nat :: !Fits(run, k, c, verify)
    ensures resp == Sessions.Response(401, Sessions.Untouched, None)
  {
    var db := Exec(EMPTY, run);
    if u :| u in Matching(db, c.email) {
      var k := UserIsRegistered(run, u);
      FoundByItsVariants(run, k, c.email);
      assert !Fits(run, k, c, verify);
      RegisteredLogsIn(run, k, tokens, c, verify, now, io, resp);
    }
  }

  /**
   At the end of any run of registrations, a login succeeds if and only if the address is
   a variant of a registered one and the password verifies against the hash stored with
   it; it then carries a session of that registration's user and team. Every other login
   is answered alike.
   */
  lemma LoginSucceedsIff(run: seq<(NewTeam, TxIo)>, tokens: Tokens, c: Credentials,
                         verify: (string, string) -> bool, now: nat, io: Sessions.Io, resp: Sessions.Response)
    requires Usable(tokens) && LoginReply(Exec(EMPTY, run), tokens, c, verify, now, io, resp)
    requires forall k | 0 <= k < |run| :: run[k].1.userId != NIL && run[k].1.teamId != NIL
    ensures resp.status == 200 <==> exists k: nat :: Fits(run, k, c, verify)
    ensures forall k: nat | Fits(run, k, c, verify) ::
      Sessions.CarriesSession(resp, tokens, run[k].1.userId, run[k].1.teamId, now, io)
    ensures resp.status != 200 ==> resp == Sessions.Response(401, Sessions.Untouched, None)
  {
    forall k: nat | Fits(run, k, c, verify)
      ensures resp.status == 200
      ensures Sessions.CarriesSession(resp, tokens, run[k].1.userId, run[k].1.teamId, now, io)
    {
      FittingLogsIn(run, k, tokens, c, verify, now, io, resp);
    }
    if forall k: nat :: !Fits(run, k, c, verify) {
      OthersAreRejected(run, tokens, c, verify, now, io, resp);
    }
  }
}
