# FlowCast backend: a verified model

FlowCast's backend keeps incidents per team behind an HTTP API. This project models the
parts of it whose correctness is a matter of state and order, and proves what they keep
over every input, every run and every interleaving.

- **Migrations** (`Migrations`, `MigrationRuns`). Loading the numbered files, and one
  process taking the advisory lock, reading its snapshot and applying what is missing; then
  any number of such processes interleaved call by call, with crashes, failed calls, ended
  sessions and commits of unknown outcome. A process in the loop, or leaving it for whatever
  reason, is shown to be where the sequential run is. Every claim about the resulting schema
  is relative to the files that were pending at the start: a lower number added later is
  applied late, and that is what the code does.
- **Sessions** (`Tokens`, `Sessions`, `SessionRuns`, `SessionRaces`). Token pairs, the
  self-expiring revocation store, and login, refresh and logout: first each request as one
  step of an unbounded run, then split at its store calls. Each request still reads the
  clock several times. Cookies may hold anything, forged tokens included.
- **Incidents** (`Incidents`, `IncidentRepository`, `IncidentRuns`). The run-time built SQL as
  a small syntax tree with numbered placeholders and an evaluator; the repository over a
  mutable table; tenancy, paging and patches over runs of it.
- **Relational schema** (`Schema`). The graph of CASCADE, SET NULL and RESTRICT edges of
  migrations 0002 to 0004, with the referential actions of one DELETE served in any order.
- **Accounts** (`Users`, `Accounts`). The two-row transaction, canonical addresses, the
  endpoint's validation compared with the table's constraints, and login.
- **Middleware** (`Middleware`). The recorder, the recoverer and the logger around any
  finite handler script.
- **Ordering** (`Sorting`, `Text`, `Models`). The in-place stable sort and the order of
  events and hypotheses.
- **Lifecycle** (`Health`, `Shutdown`). The fork and join of the health probes, and the
  shutdown handshake between two goroutines.

Methods on classes follow the code that changes things in place; each is tied to a
function of its inputs and the old state, and the theorems are lemmas about those
functions. `dafny verify dfyconfig.toml` checks the whole project.

## What the proofs found

Where the code does not do what its comments or its layering suggest, the model keeps the
code and states exactly when the property holds.

1. **A revoked refresh token can still be exchanged** when a request verifies it before its
   expiry and looks its revocation up at or after it: the store's entry is then gone and the
   expiry is not looked at again. `DeadTokenExchangedIff` is the exact condition,
   `StraddlingRefreshSucceeds` and `RefreshCanFollowLogout` are concrete runs.
2. **Rotation is not exclusive between concurrent requests**: the check and the SET are
   separate calls. `BothSucceedIff` says exactly when two refreshes of one token both succeed,
   and `RefreshAfterRevocationIff` when one succeeds after a logout or another refresh;
   `TwoRefreshesCanBothSucceed` and `RefreshCanFollowLogout` are runs in which they do.
3. **`IncidentPage.Total` is 0 on a page past the last match**, because the count travels on
   the rows, while its comment calls it the total matching the filter (`TotalIsCountIff`).
4. **A registration that passes validation fails as an internal error when a name is over
   200 characters**: validation has no upper bound on names, the tables do
   (`ValidatedIsStorableIff`).
5. **The logged status is the one asked for first, not always the one sent**: they agree
   exactly when that code is one that can settle a response (`Middleware.ServeHTTP`).
6. **A health report can say degraded while every check it lists is ok**, exactly when each
   failing check's name is used again by a later check (`HiddenFailureIff`, and
   `RepeatedNameHidesFailure` for an instance). The server registers two distinct names, so
   its own report shows every failure (`DistinctNamesShowFailures`).
7. **A missed shutdown deadline hides the listener's own failure** (`ReturnedIsVerdict`, and
   `DeadlineHidesFailure` for a run), and the branch for a listener that stopped unasked
   without an error is never taken.

That a merged patch is accepted need not be asked for: it is never refused when its two
parts were accepted (`PatchesCompose`).

## Model

| member | source | states |
|---|---|---|
| Migrations.LoadMigrations | backend/internal/db/migrate.go:109-148 | Succeeds if and only if every .sql file is well named, readable and alone with its version; then each file is one migration, in version order, with the file's name, its first four characters as version, its content, and the hash of that content; an error names files that really are at fault |
| Migrations.VersionOrderIsNumeric | backend/internal/db/migrate.go:23-25 | Lexical order of equally long digit strings is numeric order, so filename order is application order |
| Migrations.PendingResumes | backend/internal/db/migrate.go:86-104 | After any prefix of the missing files has been applied, a new run finds exactly the remaining ones missing |
| Migrations.NothingLeft | backend/internal/db/migrate.go:45-47 | Over a database that has everything, a further run applies nothing and finds no drift |
| Migrations.CleanRunOutcome | backend/internal/db/migrate.go:86-104 | With no failing call, a run fails if and only if an applied file was edited, names the first such file, and has then committed exactly the pending files below it |
| Migrations.EditIsCaught | backend/internal/db/migrate.go:87-93 | After a directory has been applied, a clean run over one in which a single file has other content, which the hash tells apart, stops at that file |
| Migrations.SuccessRecords | backend/internal/db/migrate.go:187-229 | A run that succeeds leaves a row for each file of the directory, with the hash of its content |
| Migrations.ReportMeans | backend/internal/db/migrate.go:97-106 | A successful run returns exactly the files that had no row, in version order, and added them and their rows and nothing else; a failed one returns nothing |
| Migrations.PendingIsOrdered | backend/internal/db/migrate.go:86-104 | What is missing is applied in version order |
| Migrations.Database.ApplyMigration | backend/internal/db/migrate.go:187-229 | A body and its row take effect together or not at all, under every failure and an unknown commit outcome; an error does not say which |
| Migrations.Database.ApplyPending | backend/internal/db/migrate.go:77-106 | The database ends with a prefix of the missing files, and the reply tells which: all of them on success, else the stop at the edited or failing file |
| Migrations.Database.Migrate | backend/internal/db/migrate.go:52-107 | Nothing changes without the lock; with it there is exactly one unlock attempt on every path, and the outcome is that of the sequential loop over the directory's files |
| MigrationRuns.StepInv | backend/internal/db/migrate.go:52-107 | Every step of every process, including crashes, lost replies and ended sessions, keeps one lock holder whose snapshot plus own commits is the whole table |
| MigrationRuns.ExactlyOnce | backend/internal/db/migrate.go:187-229 | In every interleaving a version's body took effect exactly once if it has a row and not at all otherwise; rows stay and checksums never change |
| MigrationRuns.StepsRefineLoop | backend/internal/db/migrate.go:81-104 | At each turn of the loop, a process under the lock is in a state of the sequential loop, and its one-time snapshot still decides skipping correctly |
| MigrationRuns.ExitsRefineLoop | backend/internal/db/migrate.go:77-106 | A process that has left the loop, finished, on an edited file or on a failed call, with any commit of unknown outcome decided, leaves the database and returns what the sequential run with those failures does |
| MigrationRuns.SuccessMeansApplied | backend/internal/db/migrate.go:86-106 | A successful run reports exactly the files its snapshot was missing, they follow the snapshot in the schema, and all its files stay recorded with their checksums whatever happens later |
| MigrationRuns.ReportsAreDisjoint | backend/internal/db/migrate.go:49-51 | No two concurrent runs report the same migration |
| MigrationRuns.RunsConverge | backend/internal/db/migrate.go:86-106 | With one file set, failed, interrupted and concurrent runs followed by one success end in the schema of one quiet run, and never commit at or above an edited file |
| MigrationRuns.NothingMoreToDo | backend/internal/db/migrate.go:45-47 | After that success nothing changes in any interleaving, and a process that reads the table later applies and reports nothing |
| Tokens.NewTokens | backend/internal/auth/token.go:91-113 | Settings are accepted, and kept, if and only if the secret is long enough and both lives are positive with the access life the shorter |
| Tokens.NumericDate | backend/internal/auth/token.go:153-167 | Claim times lose less than a second and are whole seconds |
| Tokens.PairWindow | backend/internal/auth/token.go:119-212 | A new token is accepted as its own kind from the second of issue up to the whole second before its life ends and never as the other kind, is reported expired from then on, and gives its owner back |
| Tokens.PairSaysItsEnds | backend/internal/auth/token.go:119-146 | A pair needs both ids, and tells its tokens' ends, one life each after the issue, and its refresh token's id as they are signed |
| Tokens.AcceptedIsOurs | backend/internal/auth/token.go:178-212 | A token is accepted if and only if it carries this server's signature and method, issuer, audience and kind, a user and a team, and the time is within its bounds |
| Tokens.BearerTokenFound | backend/internal/middleware/auth.go:64-81 | The scheme is recognised in any case, and the token without the space around it |
| Tokens.NoBearerToken | backend/internal/middleware/auth.go:64-81 | There is no token if and only if the header has not that scheme or only white space after it |
| Tokens.RefusalsAreTold | backend/internal/middleware/auth.go:32-52 | token_expired is answered if and only if the token is one of ours whose time is over; a missing, malformed or foreign one is unauthorized |
| Tokens.HandedOutTokenIsAnswered | backend/internal/middleware/auth.go:29-62 | A handed-out access token lets its user and team in until its end and is told expired from then on; a refresh token is unauthorized until its own |
| Sessions.SessionStore.Revoke | backend/internal/queue/sessions.go:35-44 | An unexpired token gets an entry for its remaining life, an expired one needs none, and a failed SET may have landed |
| Sessions.RevokedIsLastEntry | backend/internal/queue/sessions.go:35-60 | After any calls of Revoke an id is revoked if and only if the last call that left an entry for it did so less than its lifetime ago |
| Sessions.SessionIsUsable | backend/internal/handlers/auth.go:182-199 | Unless an id is missing, a session's cookie and body hold a refresh and an access token of this user and team, each accepted for its own use up to its own end |
| Sessions.AuthHandler.Refresh | backend/internal/handlers/auth.go:267-334 | A 200 carries a new session of the user the presented token names, in that user's team; any other answer carries no token |
| Sessions.RefreshRefusals | backend/internal/handlers/auth.go:271-328 | Which refusal is given: 401 without a cookie, 401 and the cookie cleared for a token that does not verify, is revoked or whose user is gone, 500 when the check, the lookup or the revocation fails |
| Sessions.AuthHandler.Logout | backend/internal/handlers/auth.go:341-375 | The cookie is cleared on every path, only a token that verifies is revoked, and 500 means that the store failed |
| Sessions.RevocationKills | backend/internal/queue/sessions.go:31-44 | After a successful revocation, or a SET that landed unacknowledged, the token is dead whatever was stored before |
| Sessions.DeadStaysDead | backend/internal/queue/sessions.go:35-60 | Neither time nor any later revocation pulls a dead token's entry below its expiry |
| Sessions.DeadTokenExchangedIff | backend/internal/handlers/auth.go:276-328 | A dead token is exchanged all the same if and only if its entry is gone when checked, which takes a request straddling the expiry |
| Sessions.StraddlingRefreshSucceeds | backend/internal/handlers/auth.go:276-328 | A concrete request does so |
| Sessions.DeadTokenRefused | backend/internal/handlers/auth.go:276-306 | At one instant a dead token is refused, without touching the store |
| SessionRuns.StepInv | backend/internal/handlers/auth.go:267-375 | Every request, whatever fails in it, keeps all but the newest token of each chain dead |
| SessionRuns.OnlyNewestIsLive | backend/internal/handlers/auth.go:262-334 | After any run no refresh token but the newest of its chain is usable, now or later |
| SessionRuns.RefreshRotates | backend/internal/handlers/auth.go:267-334 | A successful refresh spends the live, newest token of a chain and adds exactly one; any other step but a sign-in adds none |
| SessionRuns.RefreshHandsOutIssue | backend/internal/handlers/auth.go:333 | The two tokens answered are those of the issue that the run records, for the presented token's user and that user's team |
| SessionRuns.SignInHandsOutIssue | backend/internal/handlers/auth.go:159-199 | So are those a sign-in answers, for the user signing in |
| SessionRuns.LogoutEndsChain | backend/internal/handlers/auth.go:341-375 | A logout with the newest token, when the store takes it, leaves no usable token in the chain |
| SessionRuns.DeadChainRun | backend/internal/handlers/auth.go:267-375 | A dead chain stays dead through every later run and never gets another token |
| SessionRuns.DeadChainLosesAccess | backend/internal/middleware/auth.go:29-62 | An access lifetime after a chain died, no access token it ever handed out authenticates anything |
| SessionRuns.IdentityWasIssued | backend/internal/middleware/auth.go:29-62 | After any run, a request let through runs as a user and team to whom a sign-in or refresh handed an access token less than an access lifetime ago |
| SessionRaces.IssueFollowsCheckAndRevoke | backend/internal/handlers/auth.go:290-333 | In every interleaving a pair is issued only after a check that passed and then a revocation that took effect and was acknowledged |
| SessionRaces.SuccessorsNeedARace | backend/internal/handlers/auth.go:290-333 | Once a token's revocation took effect, a later refresh of it succeeds only if it checked before that or straddles the expiry |
| SessionRaces.RefreshSucceedsIff | backend/internal/handlers/auth.go:290-333 | In every interleaving, a refresh that looked its token up succeeds if and only if none of its later calls fails and the last SET that landed for the token before the lookup, if any, had lapsed; before expiry: if and only if none had landed |
| SessionRaces.BothSucceedIff | backend/internal/handlers/auth.go:290-333 | Two refreshes that looked one unexpired token up both succeed if and only if no later call of theirs fails and both lookups came before any SET of it landed |
| SessionRaces.RefreshAfterRevocationIff | backend/internal/handlers/auth.go:290-375 | A refresh that looked its token up after a SET for it landed, a logout's or another refresh's, succeeds if and only if no later call fails and the last such SET had lapsed; it then straddles the expiry |
| SessionRaces.TwoRefreshesCanBothSucceed | backend/internal/handlers/auth.go:290-333 | Two refreshes of one unexpired token can both succeed |
| SessionRaces.RefreshCanFollowLogout | backend/internal/handlers/auth.go:290-375 | A refresh can succeed after a logout of its token was acknowledged |
| Incidents.BoundsAreNearest | backend/internal/repository/incident.go:271-285 | A missing limit gives 25, any other the nearest from 1 to 100, and the offset becomes the nearest that is not negative; bounds in range are kept |
| Incidents.BuildList | backend/internal/repository/incident.go:149-176 | For every filter each placeholder has its own argument and each argument is used once, and over every table the query gives the page and the count of the direct definition |
| Incidents.BuildUpdate | backend/internal/repository/incident.go:202-242 | For every patch the same, and the statement changes the one row of this team and id in the named columns only; none is built for the empty patch |
| IncidentRepository.StatementOutcome | backend/internal/repository/incident.go:243-255 | Running the built statement answers and changes what the direct definition of an update says |
| IncidentRepository.Repository.Create | backend/internal/repository/incident.go:83-113 | A row is added, with every column as drafted, if and only if the draft meets the checks, its id and external id are free and its team exists; conflict if and only if one of the two is taken |
| IncidentRepository.Repository.GetByID | backend/internal/repository/incident.go:116-130 | A row answered is in the table with this team and id; not found is answered if and only if the call came back and there is none |
| IncidentRepository.Repository.FindByExternalID | backend/internal/repository/incident.go:133-147 | The same for the team's external id |
| IncidentRepository.Repository.List | backend/internal/repository/incident.go:149-198 | The page and total of the direct definition, through the built query |
| IncidentRepository.Repository.Update | backend/internal/repository/incident.go:202-254 | On success the named columns of this team's row hold the patch and all else but updated_at is kept; not found if and only if there is no such row; nothing changes on a refusal |
| IncidentRepository.Repository.Delete | backend/internal/repository/incident.go:257-267 | Deleted leaves exactly the other rows; not found is answered if and only if there was no such row, and changes nothing; a lost reply leaves one or the other |
| IncidentRuns.ReadAfterWrite | backend/internal/repository/incident.go:83-130 | The next read of its id finds a created or updated incident as it was answered, and does not find a deleted one |
| IncidentRuns.OperationsKeepValid | backend/migrations/0003_incidents.sql:7-46 | Every operation, answered or not, keeps the checks, the unique ids and the unique external ids per team |
| IncidentRuns.TeamsAreSeparate | backend/internal/repository/incident.go:34-38 | In any mixed run a team's replies, conflicts and not-founds included, are those of the run with every other team removed |
| IncidentRuns.ListingIgnoresHeapOrder | backend/internal/repository/incident.go:163-176 | The physical order of the table does not show |
| IncidentRuns.ListingIsExact | backend/internal/repository/incident.go:149-176 | A listing holds exactly the team's incidents with a status, severity and source asked for, each once, later starts first and higher ids first among equals |
| IncidentRuns.PagesAreTheListing | backend/internal/repository/incident.go:149-198 | Pages at offsets 0, L, 2L and so on, L the clamped limit, join to the start of the listing, and enough of them to all of it |
| IncidentRuns.TotalIsCountIff | backend/internal/repository/incident.go:58-63 | The total is the match count if and only if the page has a row or nothing matches; past the end it is 0 |
| IncidentRuns.EmptyPageLosesTotal | backend/internal/repository/incident.go:178-198 | One incident and a page after it: total 0 |
| IncidentRuns.PatchesCompose | backend/internal/repository/incident.go:202-235 | Two accepted updates equal the merged one but for updated_at, and the merged one is accepted |
| IncidentRuns.EmptyPatchIsIdentity | backend/internal/repository/incident.go:233-235 | An empty patch changes nothing, updated_at included, and answers as a read |
| Schema.DoneIsAfterDelete | backend/migrations/0004_simulation.sql:42-82 | A delete with nothing left to do has removed exactly the rows from which cascading references lead to the target, and cut exactly the nullable references to them |
| Schema.OrderDoesNotMatter | backend/migrations/0004_simulation.sql:42-51 | Every complete order of referential actions ends in the same database, though runs are reached along two paths |
| Schema.NeverRefused | backend/migrations/0004_simulation.sql:42 | In no order is any action refused, unless a run refers to the scenario being deleted |
| Schema.ServeQueue | backend/migrations/0003_incidents.sql:9-141 | Serving the actions as they come ends, in that database or in the one refusal there can be |
| Schema.Store.Delete | backend/migrations/0002_identity.sql:20-43 | A delete succeeds unless a run refers to the scenario deleted; it then removes the closure, and otherwise nothing; the constraints hold either way |
| Schema.DeleteKeepsValid | backend/migrations/0003_incidents.sql:9-141 | No dangling or missing reference and no duplicate under a unique index is left |
| Schema.UndeletableIff | backend/migrations/0004_simulation.sql:38-42 | A row is undeletable if and only if it is a scenario with a run; teams and incidents always go |
| Schema.TeamDelete | backend/migrations/0004_simulation.sql:42-51 | Deleting a team takes exactly its own runs; another team's run stays, and loses its link exactly when the incident was the team's |
| Schema.IncidentDelete | backend/migrations/0004_simulation.sql:48-51 | Deleting an incident keeps every run and result, and changes only the link of its own runs |
| Schema.IncidentTakes | backend/migrations/0003_incidents.sql:64-141 | It takes exactly its own events, analyses and postmortem, and the hypotheses of its analyses |
| Schema.TeamTakes | backend/migrations/0002_identity.sql:18-54 | A team takes exactly its own users, integrations and incidents, and what its incidents take |
| Users.UserRepository.CreateTeamWithOwner | backend/internal/repository/user.go:42-82 | Team and owner appear together, trimmed and with the canonical address, or not at all, under any failure; conflict if and only if the unique indexes refuse the user |
| Users.UserRepository.FindByEmail | backend/internal/repository/user.go:87-104 | A row whose folded address is the canonical form asked for, or not found exactly when there is none |
| Users.StaysStored | backend/internal/repository/user.go:107-146 | What a stored registration wrote is what lookups by its two ids find after any further registrations |
| Users.NormalizeIffVariant | backend/internal/repository/user.go:28-35 | Two addresses have one canonical form if and only if they differ in case and outer space only |
| Users.RegistrationKeepsSound | backend/migrations/0002_identity.sql:18-31 | A registration keeps teams and users one to one, and addresses canonical and unique |
| Users.RunsAreSound | backend/internal/repository/user.go:37-82 | So does any run of them with failures at any step |
| Users.FoundByItsVariants | backend/internal/repository/user.go:84-104 | A registered user is the one row found, by exactly the variants of the registered address |
| Users.AddressIsTakenForGood | backend/migrations/0002_identity.sql:28-31 | After a registration, every variant of its address is refused for good, with no effect |
| Accounts.ValidEmail | backend/internal/models/identity.go:127-151 | Accepts exactly: one @ with something before it, and a last dot strictly inside what follows |
| Accounts.ValidatePassword | backend/internal/auth/password.go:96-125 | The one way a password breaks the policy, if it does |
| Accounts.ValidateRegistration | backend/internal/handlers/auth.go:218-256 | Collects the problems of all fields, in order, at most one apiece |
| Accounts.ReportsExactly | backend/internal/handlers/auth.go:218-256 | Every problem a request has is reported, and nothing else |
| Accounts.NothingReportedIff | backend/internal/handlers/auth.go:251-255 | Validation passes if and only if there is no problem |
| Accounts.ValidatedIsStorableIff | backend/migrations/0002_identity.sql:6-24 | A validated request meets the table's checks if and only if no trimmed name is over 200 characters |
| Accounts.LongNameIsInternalError | backend/internal/handlers/auth.go:89-119 | A concrete family of valid requests the tables refuse |
| Accounts.Register | backend/internal/handlers/auth.go:89-126 | With nothing failing: 500 if a name is too long, 409 if the address is taken, else 201; a 201 carries a session of the stored user and team, and nothing else carries a token |
| Accounts.Login | backend/internal/handlers/auth.go:128-180 | An unknown address and a wrong password are answered alike; otherwise the session is that of the row the lookup found |
| Accounts.LoginSucceedsIff | backend/internal/handlers/auth.go:128-167 | After any run of registrations, a login succeeds if and only if the address is a variant of a registered one and the password verifies against the hash stored with it, and carries that registration's user and team; every other login gets the same 401 |
| Middleware.ResponseRecorder.WriteHeader | backend/internal/middleware/recorder.go:19-26 | Only the first status asked for counts and reaches the connection |
| Middleware.ResponseRecorder.Write | backend/internal/middleware/recorder.go:28-35 | A first write commits a 200, and the byte count follows what was accepted |
| Middleware.RunHandler | backend/internal/middleware/recorder.go:14-39 | After any script the recorder holds the first status asked for and the bytes accepted, unless that status cannot be sent, which ends the script in a panic |
| Middleware.Recoverer | backend/internal/middleware/recovery.go:17-54 | A panic before any write sends a 500 and the error page; after any write, or without a panic, no error page is sent; an abort goes on up, unlogged |
| Middleware.ServeHTTP | backend/internal/handlers/router.go:91-113 | For every script: its one status line, its bytes, its log entry and level; a panic before any write gives 500 with the error page, logged as an error; the logged status is the one sent if and only if the first code asked for can settle a response |
| Middleware.UnsendableCode | backend/internal/middleware/recorder.go:19-26 | Status 99 is logged and an empty 200 sent |
| Middleware.InformationalStatus | backend/internal/middleware/recorder.go:19-26 | After a 103 a handler's 404 is sent as a 200 |
| Sorting.SortSlice | backend/internal/models/sort.go:6-8 | In place, the slice becomes its stable sort |
| Sorting.StableSortStablySorts | backend/internal/models/sort.go:6-8 | The result is ordered and keeps the order of ties |
| Sorting.StableSortIsUnique | backend/internal/models/sort.go:6-8 | There is one stable sort, so the algorithm used does not matter |
| Sorting.SortedPermutationsAgree | backend/internal/models/event.go:105-110 | Without ties between different elements, arrangements of the same elements sort alike |
| Text.UuidStringOrder | backend/internal/models/event.go:111-118 | The hyphenated lower-case form orders and identifies ids exactly as their bytes do |
| Models.EventOrderIsDeterministic | backend/internal/models/event.go:105-118 | Any two arrangements of the same events sort to one list |
| Models.EventOrderIsChronological | backend/internal/models/event.go:111-118 | That list is in order of time, then of the bytes of the id |
| Models.SortEventsByTime | backend/internal/models/event.go:111-118 | In place, losing and adding nothing |
| Models.Top | backend/internal/models/analysis.go:56-67 | The scan finds the first of the lowest-ranked, which is the element a stable sort by rank would put first |
| Models.ValidateRanks | backend/internal/models/analysis.go:75-101 | Reports too many hypotheses, and a repeated rank, exactly when there are |
| Models.HypothesisOrderIsDeterministic | backend/internal/models/analysis.go:69-72 | With distinct ranks, the sorted list does not depend on the order received |
| Health.RunProbes | backend/internal/handlers/health.go:66-79 | Under every completion order, each slot ends with its own probe's result |
| Health.ServeHTTP | backend/internal/handlers/health.go:66-103 | Under every completion order the report is ok if and only if all probes are, lists every name, and shows the last check of each |
| Health.OneReport | backend/internal/handlers/health.go:66-103 | That determines the report |
| Health.HiddenFailureIff | backend/internal/handlers/health.go:81-92 | Degraded with every listed check ok, if and only if there are failures and each one's name is used again later |
| Health.DistinctNamesShowFailures | backend/cmd/server/main.go:122-129 | With distinct names every check's own result is listed, so the report is ok if and only if each line is |
| Health.RepeatedNameHidesFailure | backend/internal/handlers/health.go:86-92 | Two checks of one name, failing then answering: degraded, with its one line ok |
| Shutdown.StepInv | backend/internal/server/server.go:61-117 | Every step keeps the count of results sent and received and uses up a bounded budget |
| Shutdown.EveryRunReturns | backend/internal/server/server.go:61-117 | Every run stops within seven steps, with Serve returned and exactly one result sent and received |
| Shutdown.ReturnedIsVerdict | backend/internal/server/server.go:74-117 | What Serve returns: the missed deadline if there was one, else the listener's own failure, else nil, which takes a cancellation, a drain in time and a listener closed as asked |
| Shutdown.DeadlineHidesFailure | backend/internal/server/server.go:99-108 | A run in which the listener fails and only the missed deadline is returned |

## Left out

- Driver and library internals (pgx, go-redis, chi, golang-jwt, bcrypt, net/http): each is a small contract; signatures are abstract and cannot be forged.
- The lifetime of Redis entries is exact and the store is never wiped; clocks are one monotone clock. Rounding to milliseconds is not modelled.
- A migration body is one transactional change that can fail; bodies with their own COMMIT or statements outside transactions are not modelled, and neither is what a body does beyond taking effect once.
- A pooled connection returned with a lingering advisory lock and then reused is not modelled: every run starts on a new session.
- JSON, cookies as header text, error wording, log formatting, request ids, timing equalisation in login.
- Unicode case and white space, in addresses, names and the bearer scheme: strings there are ASCII. Incident titles are trimmed by an arbitrary function instead.
- RefreshSucceedsIff: like the other results on interleavings, assumes that the server gives no two tokens one id; tokens signed by others may share one.
- TeamsAreSeparate: requires that generated ids are new, because an id shared by two teams would be a conflict one of them can see.
- CreateTeamWithOwner: takes the transaction's effect at one instant; two registrations in flight at once wait for each other on the unique index, which is PostgreSQL's part.
- Register: does not model the wait between hashing and storing, because other registrations in between only change the table it starts from.
- ServeHTTP: bytes are those net/http accepts, which for a HEAD request are not sent; informational statuses, Flush, Hijack and CORS preflights are covered only as far as they affect the final status.
- SortSlice: is an insertion sort where the standard library merges blocks; StableSortIsUnique makes them agree.
- Shutdown and MigrationRuns and SessionRaces are step systems on values, not classes, because the point is the interleaving.
- Schema: other columns, check constraints and updated_at triggers of the tables, which deletes do not touch.
- Incident embeddings and their indexes, similarity search, integrations, run status transitions: no code here enforces a protocol on them.
- Configuration, enum parsing, single-field validators, connection retries: each is settled by reading one branch.
