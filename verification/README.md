# Verified models of the sign-in, session, routing, logging and shutdown code

This project models six stateful parts of the application and proves what holds over their
whole runs. Each part has a specification (functions over values, or a state machine whose steps
are the points between two awaits), theorems about every run of it, and, where the program
updates objects in place, classes whose methods are proved to compute the specification.

`dafny verify dfyconfig.toml` checks everything.

| file | part |
|---|---|
| `RefreshProtocol.dfy`, `RefreshTokens.dfy` | refresh-token rotation (the scheme of section 4.14 of RFC 9700), interleaved and as whole operations |
| `AdminSessions.dfy` | server-side admin sessions: single Redis commands, whole store methods, browsers and cookies |
| `SqlScan.dfy`, `SqlReadable.dfy`, `SqlComments.dfy`, `Routing.dfy` | the SQL read classifier, and the session that picks writer or replica |
| `Calendar.dfy`, `LogRotation.dfy`, `LogHandler.dfy` | the rotating log file handler: dates, names, sizes, retention |
| `RateLimit.dfy` | the fixed-window rate limiter and the login check on top of it |
| `Resources.dfy`, `BackgroundTasks.dfy` | shutdown: cleanups under one deadline, and the drain of background tasks |
| `UserRevocation.dfy`, `UserStores.dfy` | the rule that ends a user's access before the database commits, and what it leaves usable in the two stores |
| `Basics.dfy` | what the models share |

## How to read it

- Time only grows. A key of the stores is live iff `now < exp`. Refresh tokens and rate limits use
  an integer clock (the rate limiter's counts milliseconds), admin sessions and shutdown a real one.
- Token ids, families, session ids and request ids are opaque and fresh when minted, as `uuid4`
  and `token_urlsafe` make them. The HMAC behind a session key is injective, so ids stand for keys.
- A run is a sequence of enabled steps from the initial state, so a lemma about `After(...)` speaks
  of every interleaving. Steps stand for one Redis call, one database step, or the death of a
  request between two awaits.
- Errors are results: `None`, `false` or a constructor of an outcome datatype.
- `Charset` is the table of what the Unicode database says of a character outside ASCII; every
  statement about SQL text holds for any table.

## What came out

- **Rotation.** Each token is consumed once and each family has at most one live token or rotation
  between consume and register. With whole operations a revoked family never rotates again, even
  after its marker has expired. With interleaving that is false of the marker alone: a rotation past
  its revoked-check can outlive it (`MarkerAloneIsNotEnough`). A family can issue again exactly when
  it has an unexpired token or a rotation in flight (`MayIssueIffAlive`); while the marker is live at
  most one token can still come (`NoIssueWhileMarked`); and with rotations bounded by `D` no token
  comes at all once every remaining token runs out `D` before the marker (`DeadForever`).
  An unused token rotates for exactly its ttl as long as nothing touches its family
  (`TokenRotatesForItsTtl`).
- **Admin sessions.** A session id that died stays dead under any order of late commands. Whole
  requests behave exactly like a notebook with two limits and a list of users per session. Index
  coverage needs `save` and `revoke_user` as single steps. Command by command, a revocation ends
  exactly the sessions it read: one whose `SADD` has not run yet survives (`SavedNotYetListed`), and
  so does one that signs in between `SMEMBERS` and `DEL`, which then leaves it without an index
  (`ListedButUnread`).
- **SQL.** The scanner's loop returns exactly the reported words of a piecewise grammar of the text,
  and printing a tree of names, groups and literals and scanning it gives back the top-level names.
  A word at depth 0 that touches `(` is not reported, a word at depth 1 that touches `)` is, and a
  word that touches a quote is at any depth; `ReportedIff` states it. Comments are removed before
  quotes are recognised, as in the code; `StripKeeps` says over every text what that leaves.
- **Logs.** Nothing is lost or reordered, and no rename overwrites. A handler that starts over an
  existing file goes by the file's modification time, so a record whose write crosses midnight moves
  its file to the later day (`RestartKeepsDayIff`, `LateWriteMovesDay`). The size limit is in bytes
  on disk but the code compares it with the characters of the next line. `SizeBound` gives the slack,
  `WideCharactersOverflow` reaches it for every limit, and `LimitHoldsIff` says exactly which last
  records keep a closed file below the limit.
- **Rate limit.** The bound is `2 * limit - 1` in any interval as long as the window, and it is
  reached. `retry_after` is the remaining time rounded to the nearest second, so a client can be told
  to come back up to half a second early; `RetryAfterIsRounded` says exactly when.
- **Shutdown.** Deadline plus `n - 1` reserves is the exact worst case. The reserve is no floor: just
  before the deadline a cleanup can be given less than the reserve (`ReserveIsNoFloor`).
- **Login counters.** The counter of an address and a name can be shared with another pair only where
  a front part of the joined text, up to another colon, is an address too (`UserKeyIsSharedIff`): never
  among IPv4 addresses, but by `1::2` with the name `3:bob` and `1::2:3` with `bob`.
- **Revocation before commit.** Whatever Redis does, no commit takes a right away before its own edit
  has revoked both stores, even when the row has changed since the edit read it: the session writes
  only fields whose value differs from the one it read, and these are what the rule judged
  (`LossIsJudged`, `FailsClosed`). With each store method as one step, the stores then accept of the
  user only what was stored after that revocation, and a credential outlives its rights only if its
  login overlapped the very edit that took them (`OverlappedLoginSurvives`, `AcceptedIsRightful`).
  Redis call by Redis call, a revocation ends exactly what its SMEMBERS read: a login between that and
  the deletion escapes it and the next one (`RegisteredButUnread`, `ListedButUnread`). Apart from a
  session whose SADD was still to come, an older session survives, within its index's time, only if
  an earlier revocation had missed it like that (`SurvivorWasMissedBefore`).

## Model

| member | source | states |
|---|---|---|
| RefreshTokens.RefreshTokenStore.Register | app/core/security/refresh_store.py:46-53 | the token expires a full ttl later, the index gains the family and a full ttl of its own, nothing else changes |
| RefreshTokens.RefreshTokenStore.Consume | app/core/security/refresh_store.py:55-61 | GETDEL: the live record is returned and gone afterwards; an unknown, used or expired jti gives None |
| RefreshTokens.RefreshTokenStore.RevokeFamily | app/core/security/refresh_store.py:63-65 | the family's marker with a full ttl |
| RefreshTokens.RefreshTokenStore.IsFamilyRevoked | app/core/security/refresh_store.py:67-68 | true iff the marker is live |
| RefreshTokens.RefreshTokenStore.RevokeUser | app/core/security/refresh_store.py:70-78 | the loop marks exactly the families of the live index and deletes the index |
| RefreshTokens.AuthService.IssueFor | app/features/auth/services/auth_service.py:88-95 | a token of the family with the store's ttl, registered under its jti |
| RefreshTokens.AuthService.RotateToken | app/features/auth/services/auth_service.py:101-117 | hands out a successor exactly if the token is accepted, its record live, its family unmarked and its user active; the exits come in the order consume, revoked-check, user lookup, register; refused tokens (kind, iat, exp with leeway, sections 4.1.4 to 4.1.6 of RFC 7519) change nothing |
| RefreshTokens.AuthService.Logout | app/features/auth/services/auth_service.py:119-122 | revokes the token's family, whether or not the token was used |
| RefreshTokens.AcceptedForItsTtl | app/core/security/tokens.py:80-102 | a refresh token is accepted from its issue until its ttl is over, and outside the leeway around that never; an access token never is |
| RefreshProtocol.SingleUse | app/features/auth/services/auth_service.py:88-117 | in every interleaving no jti is consumed twice, a family has at most one live token or rotation between consume and register, and every live token is covered by its owner's index or a marker that expires no earlier |
| RefreshProtocol.TokenLasts | app/core/security/refresh_store.py:46-61 | in every interleaving a registered token that nobody presents is live exactly while less than the ttl has passed |
| RefreshProtocol.InvNext | app/features/auth/services/auth_service.py:88-122 | every step of a login, rotation, logout, revocation or abort keeps the protocol's invariant |
| RefreshProtocol.OneHolderNext | app/core/security/refresh_store.py:46-61 | every step keeps stored tokens and rotations of a family to one in all |
| RefreshProtocol.CoveredNext | app/core/security/refresh_store.py:46-78 | every step keeps each live token covered by index or marker |
| RefreshProtocol.NoIssueWhileMarked | app/features/auth/services/auth_service.py:108-117 | while a family's marker is live it gains at most the one token of a rotation already past its check |
| RefreshProtocol.RefusalEndsFamily | app/features/auth/services/auth_service.py:108-116 | in any interleaving, the rotation of a token that is not live, or of a user found inactive, revokes the family, which then gains at most the one token of a rotation already past its check for as long as the marker lasts |
| RefreshProtocol.LogoutEndsFamily | app/features/auth/services/auth_service.py:119-122 | the same after a logout |
| RefreshProtocol.DeadNext | app/features/auth/services/auth_service.py:108-117 | a family whose tokens run out D before its marker issues nothing in a step of rotations bounded by D, and stays so |
| RefreshProtocol.DeadForever | app/features/auth/services/auth_service.py:108-117 | the same over whole runs, past the marker's expiry |
| RefreshProtocol.MayIssueIffAlive | app/features/auth/services/auth_service.py:101-117 | without a bound on rotations a family can issue again iff it has an unexpired token or a rotation in flight |
| RefreshProtocol.NotAliveForever | app/features/auth/services/auth_service.py:101-117 | a family with neither never issues again |
| RefreshProtocol.FinishRotation | app/features/auth/services/auth_service.py:111-117 | a rotation in flight can be driven to its end, past the marker if need be |
| RefreshProtocol.MarkerAloneIsNotEnough | app/core/security/refresh_store.py:63-68 | a reachable state with a marked family that can still issue |
| RefreshOperations.OperationIsRun | app/features/auth/services/auth_service.py:97-122 | each whole operation is an uninterrupted run of the interleaved protocol with the same result |
| RefreshOperations.DoKeepsInv | app/features/auth/services/auth_service.py:97-122 | whole operations keep the invariant, and a dead family stays dead and issues nothing |
| RefreshOperations.RevokedFamilyNeverRotates | app/core/security/refresh_store.py:46-68 | after any run of whole operations, a family ever marked never rotates again, even after the marker expires |
| RefreshOperations.RefusedRotationEndsFamily | app/features/auth/services/auth_service.py:101-117 | after any run of whole operations a rotation hands out a live token iff its token is live, its family not revoked and its user active; otherwise no token of the family ever rotates again |
| RefreshOperations.TokenRotatesForItsTtl | app/features/auth/services/auth_service.py:88-117 | over any run of whole operations, a token handed out by a login or a rotation and not presented is live exactly for its ttl; while no logout, refusal or revocation touches its family, presenting it hands out the next token exactly within that time and for an active user |
| RefreshOperations.ReuseEndsFamily | app/features/auth/services/auth_service.py:101-110 | presenting a token twice, whatever happened between, ends its family for good |
| RefreshOperations.LogoutEndsFamily | app/features/auth/services/auth_service.py:119-122 | a logout ends the token's family for good, used or not |
| RefreshOperations.RevokedUserNeverRotates | app/core/security/refresh_store.py:70-78 | after `revoke_user` no token issued earlier to the user, nor any of its family, ever rotates |
| RefreshRevocations.RevocationEndsWhatItRead | app/core/security/refresh_store.py:70-78 | in every run with other steps between SMEMBERS and the transaction, a token stays usable exactly if its family was not among those read, and one whose family was is never usable again |
| RefreshRevocations.RegisteredButUnread | app/core/security/refresh_store.py:70-78 | for every user a run in which a login between the two calls keeps its token through this revocation and the next |
| RefreshRevocations.TwoCallsAreOne | app/core/security/refresh_store.py:70-78 | undisturbed, the two calls are the revocation in one step |
| AdminSessionStoreSpec.TtlBounds | app/core/security/admin_session.py:98-100 | the ttl never exceeds idle nor the absolute limit, and is positive iff a whole second is left |
| AdminSessionStoreSpec.LoadIffInAge | app/core/security/admin_session.py:102-112 | a session loads iff its key is live and at least a second of its absolute age is left; an over-age key is deleted |
| AdminSessionCommands.OneLife | app/core/security/admin_session.py:102-158 | over any interleaving of single commands with expiry, a session id that was live and died is never live again |
| AdminSessionCommands.DeadNext | app/core/security/admin_session.py:124-143 | no single late command, SET XX and EXPIRE included, makes a dead id live |
| AdminSessionRuns.SessionsKeepTheirLimits | app/core/security/admin_session.py:98-143 | in every reachable state a key's expiry is within created_at + max_age and last use + idle, and a live logged-in session is in an index that outlives its absolute limit |
| AdminSessionRuns.IndexedNext | app/core/security/admin_session.py:114-158 | every store method keeps the index coverage |
| AdminSessionRuns.LimitsNext | app/core/security/admin_session.py:114-143 | every store method keeps both limits and the creation time |
| AdminSessionRuns.RevokeLeavesNone | app/core/security/admin_session.py:153-158 | after `revoke_user` no live session belongs to the user and the others are untouched |
| AdminSessionBrowsers.VisitRefinesDictionary | app/core/security/admin_session.py:200-259 | a visit leaves for the browser's next request exactly its session, and touches no other browser's |
| AdminSessionBrowsers.EmptyAndRotation | app/core/security/admin_session.py:240-253 | empty means key and cookie are gone; rotation leaves exactly the new id live |
| AdminSessionBrowsers.RunsRefineDictionary | app/core/security/admin_session.py:98-158 | in every run of visits, waits and revocations a request sees exactly what a plain notebook recalls: what its browser last left, while the idle and the absolute limit last and no user the session was saved for is revoked; and the key's expiry is exactly the last use plus the ttl of that moment |
| AdminSessionBrowsers.SessionLasts | app/core/security/admin_session.py:98-143 | after a browser's last visit that left something, its session is seen exactly until the idle limit after that visit or the last second of its absolute limit |
| AdminSessionBrowsers.AgreeNext | app/core/security/admin_session.py:200-259 | every visit, wait and revocation keeps cookie, key, expiry and index of every browser in agreement with the notebook |
| AdminSessionBrowsers.OthersCannotTouch | app/core/security/admin_session.py:200-259 | without a revocation or a visit of its own a browser's session and cookie stay as they are over any run |
| AdminSessionPlans.CommitIsItsCommands | app/core/security/admin_session.py:232-259 | the commands a response sends create only its own new id and together do what `_commit` says |
| AdminSessionPlans.SaveIsItsCommands | app/core/security/admin_session.py:114-135 | `save` is its SET followed by its index update |
| AdminSessionRevocations.RevocationMissesUnread | app/core/security/admin_session.py:153-158 | in every run of interleaved commands a live session survives a revocation's DEL exactly if it was not among the members read at its SMEMBERS; one that was read is never live again |
| AdminSessionRevocations.SavedNotYetListed | app/core/security/admin_session.py:129-135 | for every user a run of real commands in which a revocation between a login's SET and its SADD misses the session |
| AdminSessionRevocations.ListedButUnread | app/core/security/admin_session.py:153-158 | for every user a run in which a login between SMEMBERS and DEL is listed when the DEL runs, survives it, and survives the next revocation too |
| AdminSessionRevocations.SurvivorWasMissedBefore | app/core/security/admin_session.py:129-158 | in every run of interleaved commands, a session whose SADD ran before a revocation's SMEMBERS and that outlives the revocation, within max_age of the SADD, had been missed by the DEL of an earlier revocation |
| AdminSessionClasses.AdminSessionStore.LoadSession | app/core/security/admin_session.py:102-112 | the store and the record after a load |
| AdminSessionClasses.AdminSessionStore.SaveSession | app/core/security/admin_session.py:114-135 | expired, SET XX refused, written and listed |
| AdminSessionClasses.AdminSessionStore.TouchSession | app/core/security/admin_session.py:137-143 | EXPIRE of a live key or DEL, nothing else |
| AdminSessionClasses.AdminSessionStore.DeleteSession | app/core/security/admin_session.py:145-151 | the key and its index member are gone |
| AdminSessionClasses.AdminSessionStore.RevokeSessions | app/core/security/admin_session.py:153-158 | the listed keys and the index are gone |
| AdminSessionClasses.RedisSessionMiddleware.CommitSession | app/core/security/admin_session.py:232-259 | the store and the cookie change of each of the five branches |
| SqlLexer.LexShow | app/core/db/router.py:297-334 | a text written in pieces is read back as these pieces |
| SqlLexer.ShowLex | app/core/db/router.py:297-334 | the pieces read from a text write out as that text |
| SqlLexer.ClosedIffUnits | app/core/db/router.py:306-316 | a literal's inside is closed iff it is a sequence of plain, doubled and backslashed characters |
| SqlScan.SkipLiteral | app/core/db/router.py:303-318 | the inner loop finds the closing quote, or that there is none |
| SqlScan.Depth0Words | app/core/db/router.py:287-337 | terminates and returns the reported words of the recursive specification, None otherwise |
| SqlScan.MachineIsWords | app/core/db/router.py:292-337 | the character machine with its buffer and depth computes the words of the piecewise specification |
| SqlScan.FoldFrom | app/core/db/router.py:321-337 | one pass with a running depth gives the reported words iff the parentheses balance |
| SqlPrint.AcceptedIffWellFormed | app/core/db/router.py:287-337 | not None iff the text is written in pieces with closed literals and balanced parentheses, and then the answer is its reported words |
| SqlPrint.ReportedIff | app/core/db/router.py:299-336 | which words are reported: at depth 0 unless an opening parenthesis touches them, before a literal at any depth, and at depth 1 when the closing parenthesis touches them |
| SqlPrint.InsideQuotesIsIgnored | app/core/db/router.py:303-320 | rewriting the insides of closed literals does not change the answer |
| SqlPrint.PrintThenScan | app/core/db/router.py:297-337 | scanning a printed tree of names, groups and literals gives its top-level names in order, in lower case |
| SqlText.AsciiTables | app/core/db/router.py:329-336 | which ASCII characters make words and white space, and their lower case, by name |
| SqlComments.CleanStays | app/core/db/router.py:257 | a text in which neither opener stands is left as it is |
| SqlComments.BlockIsSpace | app/core/db/router.py:257 | a block comment up to its first end becomes one space |
| SqlComments.LineIsSpace | app/core/db/router.py:257 | a line comment becomes one space, and the newline stays |
| SqlComments.OpenBlockStays | app/core/db/router.py:257 | a block that is not closed stays text |
| SqlComments.OneSignIsCode | app/core/db/router.py:257 | a single minus or slash opens nothing |
| SqlComments.EveryText | app/core/db/router.py:366 | every text is code, block and line comments and unclosed openers in a row |
| SqlComments.StripKeeps | app/core/db/router.py:366 | removing the comments of any text in such parts leaves its code and one space for each comment |
| SqlComments.SingleIff | app/core/db/router.py:366-369 | one statement is found exactly if nothing but white space follows the first semicolon |
| SqlComments.SecondStatementIsSeen | app/core/db/router.py:366-369 | over the text as written: a semicolon outside comments with something behind it other than comments and white space means not readable |
| SqlReadable.TextIsReadable | app/core/db/router.py:366-380 | the decision with all its exits |
| SqlReadable.DefaultDeny | app/core/db/router.py:340-380 | an accepted text is one statement in balanced pieces without a locking phrase, its first reported word is select or with, and each of the seven write keywords at depth zero stands only directly before an opening parenthesis |
| SqlReadable.AcceptedIff | app/core/db/router.py:366-380 | one balanced statement is accepted iff it is single, has no locking phrase, is led by select or with and reports no write keyword |
| SqlReadable.LockingReadIff | app/core/db/router.py:258-260 | a locking read is found iff one of the three phrases stands in the text with white space between its words and word boundaries at its ends |
| SqlReadable.TrimEmptyIffSpaces | app/core/db/router.py:368-371 | what is left after stripping is empty iff the text is white space |
| RoutingRuns.RoutingIsSafe | app/core/db/router.py:156-203 | over any run of any session: after a write under sticky mode only the writer, at most one replica, no write bound by a read-only session, at most one retry |
| RoutingRuns.SessionsNext | app/core/db/router.py:156-203 | every bind, execution and flag change of any session keeps that |
| RoutingRuns.WritesGoToTheWriter | app/core/db/router.py:130-173 | over any run a data change or a locking select is bound to the writer and by no read-only session, and a plain select counts as no write |
| RoutingRuns.RetriesExactlyWhenLost | app/core/db/router.py:185-203 | a session retries exactly when a readable statement of a read-only session not pinned to the writer loses its connection, once, on the writer; no other answer makes it ask again |
| RoutingRuns.RoundRobinIsFair | app/core/db/router.py:104-108 | however sessions interleave, the numbers of sessions on two replicas differ by at most one |
| RoutingRuns.FairNext | app/core/db/router.py:104-108 | every step keeps the replicas before the cursor one session ahead |
| RoutingRuns.ReadsReachReplicas | app/core/db/router.py:104-108 | over any run a bind goes to a replica iff it is no write, the session was not pinned to the writer and there are replicas; the sessions take the replicas in turn |
| RoutingRuns.TurnNext | app/core/db/router.py:156-203 | every action keeps that and the place of the cursor |
| RoutingClasses.DatabaseRouter.TakeReader | app/core/db/router.py:104-108 | the writer without replicas, else the replica at the cursor, which moves on and wraps around |
| RoutingClasses.RoutingSession.Bind | app/core/db/router.py:156-183 | engine, pins and cursor after a bind, or a refusal |
| RoutingClasses.RoutingSession.TryOnce | app/core/db/router.py:383-391 | the read-only contract in front of the bind |
| RoutingClasses.RoutingSession.ExecuteStatement | app/core/db/router.py:185-203 | a lost connection of a read-only session not pinned to the writer asks the writer second, pins it, and succeeds iff that does; any other error, any other session and a refused statement ask no second engine |
| Calendar.NextDayOrdinal | app/utils/logs/handlers.py:52-57 | days are numbered one after the other across months, leap years and centuries |
| Calendar.BeforeIffSmaller | app/utils/logs/handlers.py:71-76 | calendar order is the order of day numbers |
| Calendar.IsoOrder | app/utils/logs/handlers.py:71-76 | comparing ISO dates as strings agrees with calendar order |
| Calendar.IsoOfOrder | app/utils/logs/handlers.py:71-76 | the same for the strings of two day numbers; equal strings mean equal days |
| Calendar.DateOf | app/utils/logs/handlers.py:53-57 | the date of a day number is a valid date with that number |
| Calendar.DaysOfSeconds | app/utils/logs/handlers.py:52-57 | 86400 seconds later it is the next date, and the count starts on January 1, 1970 |
| LogNames.NameMatches | app/utils/logs/handlers.py:38 | the handler's pattern recognises every name it makes and reads its date |
| LogNames.DateInIff | app/utils/logs/handlers.py:38 | the pattern matches exactly the base name, a date and perhaps a dot and digits, and nothing longer or shorter |
| LogNames.NamesAsWritten | app/utils/logs/handlers.py:61-64 | the names of three history files, literally |
| LogNames.NameInjective | app/utils/logs/handlers.py:61-64 | different days or numbers make different names |
| LogRotation.FreeIsNext | app/utils/logs/handlers.py:61-64 | the search for a free number ends at the next number of the day |
| LogRotation.ArchiveAppends | app/utils/logs/handlers.py:60-65 | a rename overwrites nothing and puts the current file at the end of the history |
| LogRotation.DeletionKeepsSuffix | app/utils/logs/handlers.py:68-77 | deleting old files removes a front part of the history and leaves the rest contiguous |
| LogRotation.HistoryIsUnique | app/utils/logs/handlers.py:60-65 | the files have one order by date and number |
| LogRuns.NextEmits | app/utils/logs/handlers.py:40-66 | the run's bookkeeping step is the handler's emit |
| LogRuns.InvNext | app/utils/logs/handlers.py:25-77 | every write and restart keeps the log's invariant; a restart takes the file's modification time |
| LogRuns.LogsAreConserved | app/utils/logs/handlers.py:40-77 | history in (date, number) order and then the current file are the emitted records in order, all of them without retention, else all but a front part past retention; no record is in a file of an earlier day, and every record is in the file of its day if no handler starts over a file changed on a later day than its last record's; numbers are contiguous |
| LogRuns.EmittedAreWritten | app/utils/logs/handlers.py:40-66 | the emitted records are the texts of the writes of the run, in their order |
| LogRuns.NoFileClosedEarly | app/utils/logs/handlers.py:40-66 | in any run a day has a further file only because the one before, with the first record of the further one, reached the size limit; without a limit every day has one file |
| LogRuns.SizeIsSum | app/utils/logs/handlers.py:47-48 | the size of a file is the sum of its records with a newline each |
| LogRuns.RestartKeepsDayIff | app/utils/logs/handlers.py:25-38 | a handler that starts over a file keeps its records under their day exactly if the file was last changed on the day of its last record |
| LogRuns.LateWriteMovesDay | app/utils/logs/handlers.py:25-58 | for every clock reading before a midnight and write after it, a run whose file is named by the later day |
| LogRuns.FilesStayBelowLimit | app/utils/logs/handlers.py:40-48 | with no more bytes than characters in a record a closed file is below the limit or holds one record |
| LogRuns.SizeBound | app/utils/logs/handlers.py:47-48 | in general it is below the limit plus the last record's bytes less its characters |
| LogRuns.WideCharactersOverflow | app/utils/logs/handlers.py:47-48 | for every limit and every last record of more bytes than characters that fits behind another, a run that closes a two-record file of exactly limit + bytes - characters - 1 bytes, which is the bound of SizeBound reached |
| LogRuns.LimitHoldsIff | app/utils/logs/handlers.py:40-48 | closed files that end in a given shape of record stay below the limit exactly if the record has no more bytes than characters or is too long to share a file |
| LogRuns.RetentionIsExact | app/utils/logs/handlers.py:68-77 | in any run, after a record that rolls the file over, the files left are exactly those not older than the retention; of everything ever emitted only records of older days are gone, and exactly these if every record is in the file of its day |
| LogHandler.TakenIff | app/utils/logs/handlers.py:61-62 | a name is taken in the directory iff its day and number are |
| LogHandler.EveryDirectory | app/utils/logs/handlers.py:25-38 | every directory is that of some log, whatever other names it holds |
| LogHandler.OneLog | app/utils/logs/handlers.py:61-64 | and of one log only |
| LogHandler.NameSurvives | app/utils/logs/handlers.py:71-77 | of the names the handler makes the sweep leaves exactly those of days within the retention |
| LogHandler.ExpiredIffOlder | app/utils/logs/handlers.py:74-76 | the string comparison on a file's name is the comparison of its day |
| LogHandler.MovedRepresents | app/utils/logs/handlers.py:65 | renaming to a free name of the day archives the current file and leaves every other file |
| LogHandler.DeletedRepresents | app/utils/logs/handlers.py:74-77 | removing expired names removes exactly the files before the cutoff |
| LogHandler.DailyRotatingFileHandler.constructor | app/utils/logs/handlers.py:25-38 | over whatever files are there: nothing opened or changed, rollover at the midnight after the current file's last change, or after now without one |
| LogHandler.DailyRotatingFileHandler.ShouldRollover | app/utils/logs/handlers.py:40-48 | due exactly if midnight has come or there is a limit, the file has content, and the record and its newline would reach the limit; it may create the file, empty, and changes nothing else |
| LogHandler.DailyRotatingFileHandler.FreeName | app/utils/logs/handlers.py:61-64 | the loop ends at the first free name of the day |
| LogHandler.DailyRotatingFileHandler.RemoveExpired | app/utils/logs/handlers.py:74-77 | the sweep removes exactly the names with a date before the cutoff |
| LogHandler.DailyRotatingFileHandler.DeleteOld | app/utils/logs/handlers.py:68-77 | the directory then represents the log without files past retention |
| LogHandler.DailyRotatingFileHandler.DoRollover | app/utils/logs/handlers.py:50-66 | day, next rollover, archive and deletion as in the specification; with a retention no name dated before the cutoff is left |
| LogHandler.DailyRotatingFileHandler.EmitRecord | app/utils/logs/handlers.py:40-66 | roll over if due, then append: the current file is the record alone after a rollover and its old content with the record otherwise |
| RateLimitSpec.NoOrphansEver | app/core/security/rate_limiter.py:32-36 | no run of hits and resets leaves a counter without an expiry |
| RateLimitSpec.WindowBound | app/core/security/rate_limiter.py:30-39 | in any run without a reset of the key, no interval as long as the window lets more than 2 * limit - 1 hits through |
| RateLimitSpec.WindowBoundIsReached | app/core/security/rate_limiter.py:30-39 | for every limit and window a run that lets exactly that many through |
| RateLimitSpec.AdmitsAtExpiry | app/core/security/rate_limiter.py:30-39 | after a denied hit and any commands before the expiry, the key admits iff the expiry has come |
| RateLimitSpec.RetryAfterIsRounded | app/core/security/rate_limiter.py:37-39 | when retry_after is long enough, when it is exact, and that it is never early by half a second or more nor longer than the window |
| RateLimitSpec.RetryAfterCanBeEarly | app/core/security/rate_limiter.py:37-39 | a client that waits as told and is denied again |
| RateLimitSpec.ResetStartsAnew | app/core/security/rate_limiter.py:41-42 | a reset key admits a full limit again at once, and every other key keeps its counter |
| LoginLimits.LoginsPerAddress | app/features/auth/dependencies/auth_dependencies.py:87-97 | however attempts, successes and registrations interleave, one address starts at most 2 * limit - 1 passing attempts in an interval as long as the window, resets or not |
| LoginLimits.LoginsPerPair | app/features/auth/dependencies/auth_dependencies.py:87-97 | one address and name pass at most 2 * limit - 1 times in an interval as long as the window, by the limit of the name, as long as their counter is not reset |
| LoginLimits.KeysApart | app/features/auth/dependencies/auth_dependencies.py:88-93 | the address counter is shared with no other address, name or registration |
| LoginLimits.UserKeysApart | app/features/auth/dependencies/auth_dependencies.py:88 | two pairs of address and name share a counter only if one address and the other name hold a colon |
| LoginLimits.UserKeyIsSharedIff | app/features/auth/dependencies/auth_dependencies.py:87-88 | whatever addresses can occur, the counter of an address and a name is shared with another pair exactly if a front part of the joined text, up to another colon, is an address too; never if no address holds a colon |
| LoginLimits.SharedByTwoAddresses | app/features/auth/dependencies/auth_dependencies.py:88 | two IPv6 addresses and names that share one |
| LoginLimits.AllowedIsCardinality | app/core/security/rate_limiter.py:37-38 | the running count of allowed hits is the number of allowed positions |
| RateLimitClasses.RateLimiter.Hit | app/core/security/rate_limiter.py:30-39 | INCR, EXPIRE NX and TTL as one step: the counters and the verdict; a refusal asks for a positive wait |
| RateLimitClasses.RateLimiter.Reset | app/core/security/rate_limiter.py:41-42 | the counter is gone, the others stay |
| RateLimitClasses.CallIsAttempt | app/features/auth/dependencies/auth_dependencies.py:87-97 | the commands of a call are those of one attempt of the runs, and of its first count alone if the address has reached its limit |
| RateLimitClasses.LoginRateLimit | app/features/auth/dependencies/auth_dependencies.py:75-97 | passes iff fewer than the limit of the address were counted for it and fewer than the limit of the name for the pair; the second is counted only after the first was allowed; a refusal carries the wait of the refusing count |
| ResourceSchedule.FailedExactly | app/core/resources.py:163-181 | exactly the cleanups that raised or timed out are reported, once, in the order they ran |
| ResourceSchedule.DeadlineBound | app/core/resources.py:150-158 | with a positive deadline n cleanups take at most the deadline plus n - 1 reserves |
| ResourceSchedule.DeadlineBoundIsReached | app/core/resources.py:150-158 | cleanups that hang take exactly that long |
| ResourceSchedule.ReserveBound | app/core/resources.py:152-157 | without a positive deadline they take at most n reserves |
| ResourceSchedule.BudgetBound | app/core/resources.py:158 | they take at most the sum of their budgets |
| ResourceSchedule.ReserveIsNoFloor | app/core/resources.py:152-158 | a cleanup gets the reserve or its smaller budget iff the deadline has passed or that much is left |
| ResourceSchedule.FitsIffInTime | app/core/resources.py:151-163 | when a cleanup fails, in terms of its duration, its budget and the time left |
| ResourceSchedule.EnoughTime | app/core/resources.py:147-163 | cleanups below their budgets and together below the deadline take the sum of their durations, and only those that raise fail |
| Resources.ResourceManager.Register | app/core/resources.py:98-108 | appended, or refused after close |
| Resources.ResourceManager.Acquire | app/core/resources.py:110-131 | registered before the start, also when the start fails |
| Resources.ResourceManager.CleanUp | app/core/resources.py:147-181 | every cleanup is called once, in reverse order, whichever fail; failures and time as specified |
| Resources.ResourceManager.Close | app/core/resources.py:138-197 | the first call cleans up within both time bounds, any later call does nothing |
| TaskRunnerProtocol.TasksAreConserved | app/core/middlewares/background_tasks.py:67-140 | in every interleaving: running tasks within the cap, calls = accepted + dropped + rejected, accepted = running + finished + cancelled, and after a drain returned nothing runs or is tracked |
| TaskRunnerProtocol.InvNext | app/core/middlewares/background_tasks.py:67-126 | every step of spawns, endings, callbacks and drains keeps the invariant |
| TaskRunnerProtocol.NothingAfterClose | app/core/middlewares/background_tasks.py:73-77 | nothing is accepted after admission closes |
| TaskRunnerProtocol.TrackedUntilCallback | app/core/middlewares/background_tasks.py:92-93 | until a drain has returned the tracked tasks are the accepted ones whose done callback has not run |
| TaskRunnerProtocol.SpawnAcceptedIff | app/core/middlewares/background_tasks.py:67-94 | after any actions a spawn is accepted iff none of them closed admission and fewer than the cap of accepted tasks still wait for their callback; turned away for the cap it counts as dropped, after the closing as rejected |
| TaskRunnerProtocol.SlotsComeBack | app/core/middlewares/background_tasks.py:83-94 | under any positive cap any number of tasks pass one after the other |
| TaskRunnerProtocol.CancelledOnlyAfterTimeout | app/core/middlewares/background_tasks.py:112-118 | without a timed-out drain no task is cancelled |
| TaskRunnerProtocol.DrainCanReturn | app/core/middlewares/background_tasks.py:100-126 | from every reachable state an active drain can return, cancelling what has not ended and nothing else |
| BackgroundTasks.BackgroundTaskRunner.SpawnTask | app/core/middlewares/background_tasks.py:67-94 | accepted and tracked iff admission is open and the cap is not reached; otherwise one more dropped or rejected |
| BackgroundTasks.BackgroundTaskRunner.TaskDone | app/core/middlewares/background_tasks.py:93 | the done callback takes this task, and nothing else, out of the tracked ones |
| BackgroundTasks.BackgroundTaskRunner.StopAdmission | app/core/middlewares/background_tasks.py:96-98 | admission is closed |
| BackgroundTasks.BackgroundTaskRunner.BeginDrain | app/core/middlewares/background_tasks.py:100-109 | admission is closed first; the snapshot is what was tracked |
| BackgroundTasks.BackgroundTaskRunner.AfterWait | app/core/middlewares/background_tasks.py:111-118 | exactly the tasks of the snapshot still running are cancelled; with none the drain is over |
| BackgroundTasks.BackgroundTaskRunner.FinishDrain | app/core/middlewares/background_tasks.py:119-126 | nothing is tracked or running, and every accepted task finished or was cancelled |
| UserAccess.LostSomewhere | app/features/user/services/user_service.py:56-67 | what is lost over any chain of edits is lost, and revoked, in one of them |
| UserAccess.LossIsJudged | app/features/user/services/user_service.py:157-164 | an edit takes from the row it meets only what its rule saw it take from the row it read, however the row has changed since: fields sent with the value read are not written |
| UserAccess.RevokedTokensAreUnusable | app/core/security/refresh_store.py:70-78 | no covered refresh token of a revoked user can be used at any later time |
| UserAccess.RevokedSessionsAreGone | app/core/security/admin_session.py:153-158 | no covered admin session of a revoked user is live at any later time |
| UserRuns.FailsClosed | app/features/user/services/user_service.py:70-84 | in every run with failures anywhere, a commit that takes something away, from the row its edit read or from the row it met, comes after the edit's own revocation of every configured store, and from each of its revocations on every live credential of that kind was stored after that revocation |
| UserRuns.RevokesIffTakes | app/features/user/services/user_service.py:62-84 | field by field: in every run an edit revokes only if it deactivates the active user it read, takes its superuser rights or changes its hash, and a commit that does so has revoked; one that committed without revoking left all three to the user |
| UserRuns.RowIsCommitted | app/core/repositories/repository_base.py:356-387 | the row is what the committed edits wrote over the first one, each only the fields it sent with another value than it read; an edit that met a failure has no part in it |
| UserRuns.EditsAgreeNext | app/features/user/services/user_service.py:145-174 | every step keeps the order of each edit's revocations and commit, and each revoked store free of what was stored before |
| UserRuns.RightsHold | app/features/user/services/user_service.py:56-84 | in every run a live credential belongs to a user who has kept every right and the password its login read, unless its login overlapped the very edit that took them, between that edit's revocation and its commit |
| UserRuns.LiveRightfulNext | app/features/user/services/user_service.py:56-84 | every step keeps that |
| UserRuns.OverlappedLoginSurvives | app/features/user/services/user_service.py:163-174 | a login between revocation and commit keeps its credential |
| RefreshTracking.RevokedAreOver | app/core/security/refresh_store.py:70-78 | `revoke_user` puts every token of the user over: expired or under a marker that outlives it |
| RefreshTracking.KeptAfter | app/core/security/refresh_store.py:46-78 | every store method keeps coverage and expiry bounds |
| SessionTracking.NoneOwnedAfterRevoke | app/core/security/admin_session.py:153-158 | `revoke_user` leaves no live session of the user |
| UserStores.FollowsNext | app/features/user/services/user_service.py:70-84 | over the real stores, every step of the user's logins and edits, of other users and of time keeps what the stores accept of the user within the live credentials of the user's run |
| UserStores.NothingOlderIsAccepted | app/features/user/services/user_service.py:70-84 | in every run over the two stores, with each store method as one step, whatever they still accept of the user at an edit's commit or later was stored after that edit's revocation |
| UserStores.AcceptedIsRightful | app/features/user/services/user_service.py:56-84 | and it carries only rights the user still has, unless its login overlapped the edit that took them |
| UserServices.RevokeUserAccess | app/features/user/services/user_service.py:70-84 | which stores are revoked, in order, when a call may fail before or after its effect; true iff none failed |
| UserServices.UserService.UpdateUser | app/features/user/services/user_service.py:145-167 | the order of the three refusals; the four fields after an update; one that deactivates, demotes or changes the hash is committed only with every store revoked, any other leaves the stores alone, and a failure leaves the rows as they were |
| UserServices.UserService.DeleteUser | app/features/user/services/user_service.py:169-174 | committed only with every store revoked; a failure leaves the rows as they were |

## Left out

- RefreshProtocol.CoveredNext: `revoke_user` reads the index and then marks the families; coverage takes both as one step, since a family that joins the index between the two is unmarked and unindexed. RefreshRevocations takes them apart.
- AdminSessionRuns.SessionsKeepTheirLimits: index coverage is one of whole store methods; of single commands it is false, and OneLife and RevocationMissesUnread say what holds of them.
- RefreshTokens.AuthService.RotateToken: signature, issuer and audience checks and the access token are opaque; of a token's checks only its kind and its times are modelled.
- AdminSessionClasses.RedisSessionMiddleware.CommitSession: cookie attributes and the 503 on a Redis error are left out.
- RateLimitSpec.RetryAfterIsRounded: windows and limits are positive, as the settings demand; TTL answers are rounded to the nearest second, as Redis rounds them.
- LogRuns.InvNext: a restart over an empty current file takes the present for the file's last change; what a write leaves in the file is there at one moment.
- LogHandler.DailyRotatingFileHandler.EmitRecord: one process writes the files; a retention of 1968 years or more, which has no cutoff date, and digits outside ASCII in file names are left out; formatting and encoding give each record its characters and bytes.
- SqlReadable.TextIsReadable: what the database server would do with an accepted text is not part of the model, only what the classifier promises about its words.
- RoutingClasses.RoutingSession.ExecuteStatement: which driver errors count as a lost connection is an input.
- RoutingRuns.RoutingIsSafe: a bind without a statement is not judged by a read-only session, in the program as in the model; the bulk hooks are left out.
- Resources.ResourceManager.CleanUp: a cleanup stops when its timeout fires; cancellation of `close` itself and exceptions outside `Exception` end it early in the program and are left out.
- TaskRunnerProtocol.TasksAreConserved: a task's own effects are opaque, and consuming its exception has no effect on the model.
- UserStores.NothingOlderIsAccepted: `save`, `register` and each `revoke_user` are single steps; between their Redis calls it is false, and RefreshRevocations and AdminSessionRevocations say what holds.
- UserStores.FollowsNext: a session becomes a user's only by being created, as the login does by rotating its id.
- UserRuns.RowIsCommitted: an edit's flush and its commit are one step, which the row's lock between them makes them.
- UserRuns.RightsHold: the hash upgrade at login (`verify_credentials`) commits a new hash of the same password without revoking, by design of the login path, and is not an edit of this model.
- UserServices.UserService.UpdateUser: `hashed_password` is a field of a change here because the rule looks at it; the API's own schema never sends it. Validation of the request body happens before.
- Registration, user listing, pagination, ownership of other entities, the admin views and the purge of access logs are simple loops and forwarding.
- Redaction filters, settings validation, application discovery, Celery wiring, migrations and OpenAPI hold no state of their own.
