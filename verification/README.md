# Verification of the session and directory backend

This project models the parts of the backend whose correctness is not visible in any single
function body: refresh-token rotation with reuse detection over the `refresh_tokens` table,
keyset pagination of users, the per-address rate limiter, and the two supports they lean on
(`WithTx` and the encoding of refresh tokens). `dafny verify dfyconfig.toml` checks everything.

## What is modelled

**Tables.** `Schema` holds the two tables as sequences of rows in insertion order and every SQL
statement as a function on them: the guarded UPDATEs, the INSERT with its primary key, UNIQUE
and foreign-key checks, the cascading DELETE, the COALESCE patch. `Constraints` proves that each
statement keeps what the migrations declare, and says column by column what it does. `Queries.Database` runs the same statements as loops
over mutable rows and is proved against those functions.

**Whole calls.** `AuthService.Service` is Login, Refresh, Logout and LogoutAll, step by step over
that database, with the early returns where the code has them. Every statement has a *fate*: it
is applied, it is dropped with an error, or it takes effect and the caller still sees an error.
Reads, the random source and the signing step can fail as well. `AuthSpec.Exec` is the same call
as a function, and `Sessions.Play` is a small automaton that knows no rows: a ledger of sessions,
each with an owner, the history of its token digests, a live flag and an expiry. `Refinement`
proves the commuting square between the two for every call and every run, and `Guarantees`
derives the promises of the scheme from the automaton. `Accounts` states what the calls mean to the
owner of an account: who gets in, what a pair takes, what ends a session.

**Interleaved statements.** No transaction wraps a call, so `Interleaving` makes every statement
one atomic step of a process. Any number of processes, user changes and clock ticks interleave;
a process may stop for good at any point. `Invariants` proves what every reachable state keeps,
`Concurrency` and `Endings` what that means for one chain, `Race` that the lost race is real,
`Doubling` when exactly it can still happen, and `Bridge` that every whole call, and every run of
them, is one of these schedules: the same tables, and every call answered by the process that was
started for it.

**Listing users.** `Paging` is the query (filter, sort, limit), the service's page and the
handler's reading of the parameters, with theorems about whole traversals; `Directory` adds
arbitrary creates, updates and deletes between the pages. `UserService.Service` is the operation.

**Rate limiter.** `TokenBucket` is one bucket and the map of buckets over streams of requests with any
clock readings, in order or not;
`RateLimit` is the mutable limiter and the middleware's decision.

**Support.** `Transactions` is `WithTx` for any body, given as a strategy that reacts to the
answers its statements get; its statements run through the queries on a working copy of the
tables. `Base64Url` and `Jwt` are the token formats.

## Findings

- "A chain has at most one active row" holds in every run of whole calls
  (`Refinement.RunRefines`) and is false once statements interleave: `RevokeRefreshToken` matches
  no row when another refresh was faster, `RefreshTokenRepository.Revoke` reports that as success,
  and both refreshes insert. `Race.TwoActiveRowsReachable` is a schedule from empty tables;
  `Concurrency.ActiveRowsBounded` is the exact count, and `Doubling.TwoActiveRowsExactly` says from
  the tables and the processes of any state whether it can still happen.
- For the same reason the UPDATE of LogoutAll, or of reuse detection, does not end a chain while a
  refresh that read one of its rows as active is in flight. `Race.UncleanLogoutAllReachable` and
  `Race.UncleanReuseReachable` are schedules from empty tables where this happens;
  `Endings.KillIsCleanExactly` and `Endings.BarrenExactly` say exactly when a chain is over.
- `Limiter.Allow` reads the clock before it takes the bucket's lock, so two requests of one address
  can reach the bucket the other way round, and the interval between their readings accrues again.
  `TokenBucket.SwappedReadingsExceed` lets five requests pass within one second at one a second
  with a burst of three. "Burst plus rate times the window" holds for all limits exactly when the
  window's readings are in order (`TokenBucket.WindowBoundExactly`); `TokenBucket.AnyWindowBound`
  is the bound without any order, and it is attained (`TokenBucket.BoundIsTight`).
- The comment on `ErrRefreshTokenRevoked` (internal/auth/errors.go:18-21) covers rows already
  revoked; the code returns it for missing rows only and reports revoked rows as reuse. The model
  follows the code.
- `WithTx` leaves the tables as they were whenever it returns an error, with one exception that
  `Transactions.Repositories.WithTx` spells out: the commit took effect and only its
  acknowledgement was lost.
- `parseLimit` turns a limit above 100 into 20, although the service alone would clamp it to 100;
  `Paging.LimitAboveMaximum` says that this is the only disagreement.

## Assumptions

- Token digest, password check and signature are uninterpreted; a signed access token is a record
  only the holder of the secret can make.
- Generated row, chain and user ids are new. In whole calls nothing is assumed of token digests:
  the UNIQUE constraint rejects a repeated one. Theorems about one token say in a hypothesis
  (`Guarantees.Unrepeated`) that its digest is not drawn again after its row is gone. The step
  model draws each digest once.
- One non-decreasing clock serves the service and the database. Theorems that do not mention time
  do not use it.
- One statement is atomic; a statement that fails on a constraint changes nothing.
- The configuration does not check that the refresh lifetime is positive. Lemmas that construct a
  redeemable row ask for one that is not negative; `Doubling.ReachableExactly` shows that without
  it there is no rotation and no second active row.

## Model

| member | source | states |
|---|---|---|
| Schema.Lookup | internal/db/sqlc/refresh_token.sql.go:49-69 | a lookup by digest finds a row exactly when some row has that digest |
| Schema.Surviving | migrations/00002_refresh_tokens.sql:5 | the cascade removes exactly the rows of the deleted user |
| Constraints.UpdateUserKeepsValid | internal/db/sqlc/user.sql.go:148-157 | a patch keeps every constraint of both tables and every user id |
| Constraints.PatchTakesEffect | internal/db/sqlc/user.sql.go:148-157 | a patch is refused exactly if its email is another user's; otherwise each given column of that user has the new value, each absent one its old, updated_at is now, and nobody else changes |
| Constraints.PatchIsFound | internal/db/sqlc/user.sql.go:148-157 | the patched user is found under the same id |
| Constraints.CreateTakesEffect | internal/db/sqlc/user.sql.go:26-30 | a new user is stored as given unless the id or the email is taken |
| Constraints.DeleteTakesEffect | internal/db/sqlc/user.sql.go:52-54 | exactly the user and their tokens go |
| Constraints.InsertTakesEffect | migrations/00002_refresh_tokens.sql:4-6 | a new token row is stored unless its owner is missing or its id or hash is on another row |
| Constraints.RevokeTakesEffect | internal/db/sqlc/refresh_token.sql.go:71-98 | each UPDATE stamps revoked_at and updated_at of the active rows with that id, chain or owner with now, and nothing else of any row |
| Constraints.DeleteUserKeepsValid | migrations/00002_refresh_tokens.sql:5 | after a user is deleted with the cascade every remaining token still has its owner, and keys stay unique |
| Sessions.HolderIsChain | migrations/00002_refresh_tokens.sql:6 | because the hash is UNIQUE, the session that holds a token is the chain of the row found for it |
| Sessions.AbsNewest | internal/services/auth_service.go:111-125 | an active row is the newest of its chain, and the newest row decides whether the session is live and when it expires |
| Sessions.AbsRevoke | internal/db/sqlc/refresh_token.sql.go:71-98 | a guarded UPDATE on rows is killing exactly the sessions whose newest row it picks |
| Sessions.AbsSurviving | internal/db/sqlc/user.sql.go:52-54 | deleting a user is forgetting their sessions and no others |
| Refinement.IssueRefines | internal/services/auth_service.go:176-197 | issuing a pair is appending one digest to one session, or nothing at all, whichever step fails; a colliding digest is refused exactly when a session holds it |
| Refinement.RotationRefines | internal/services/auth_service.go:127-138 | revoke then insert replaces the newest token of the session and leaves the old one dead |
| Refinement.ReplayRefines | internal/services/auth_service.go:111-121 | presenting a revoked token kills the whole session whether or not it has expired, and reports reuse only if the UPDATE was acknowledged |
| Refinement.LogoutRefines | internal/services/auth_service.go:143-160 | logout kills a session when given its newest token and changes nothing when given a spent or unknown one |
| Refinement.CallRefines | internal/services/auth_service.go:71-170 | for every call and every failure, rows first or sessions first, the ledger and the answer agree, and all table invariants survive |
| Refinement.RunRefines | internal/services/auth_service.go:71-170 | every run of calls is a run of the session automaton; in every state on the way only the newest row of a chain can be active and a chain has one owner |
| Guarantees.CallLimit | internal/services/auth_service.go:99-139 | one call never makes a token redeemable again or for longer, and a redemption uses the token up |
| Guarantees.RunLimit | internal/services/auth_service.go:99-139 | over a run, every redemption of a token is decided before the limit the token had at the start |
| Guarantees.RedeemedOnce | internal/services/auth_service.go:123-138 | a plaintext token is redeemed at most once in the whole run that follows |
| Guarantees.LogoutAllIsCleanCut | internal/services/auth_service.go:164-170 | no token a user had before LogoutAll is redeemed after it, in any run of whole calls, also if the acknowledgement was lost |
| Guarantees.ReuseKillsChain | internal/services/auth_service.go:111-121 | after a reuse was reported, no token of that chain is redeemed again |
| Guarantees.RunLeavesOthers | internal/services/auth_service.go:99-170 | a session is untouched by any run that neither refreshes with one of its tokens nor logs out with its newest one nor concerns its owner: replays of other chains leave it usable |
| Guarantees.OnlyNewestRotates | internal/services/auth_service.go:99-139 | with no failing step, the four answers of Refresh each hold exactly when: newest of a live unexpired session, newest of a live expired one, held by no session, held but not the newest of a live one |
| Guarantees.OnlyLoginOpens | internal/services/auth_service.go:99-170 | no call but Login makes a session live that was not |
| Guarantees.CallIsLocal | internal/db/sqlc/refresh_token.sql.go:82-98 | Refresh and Logout keep every row in place, write only active rows of the presented token's chain, and change only revoked_at and updated_at |
| Guarantees.PairAgrees | internal/services/auth_service.go:176-197 | a pair that is handed out matches: stored active row with its times, newest of its live session, access token naming the row's user and chain and accepted for its whole lifetime but the last second at most |
| Accounts.LoginExactly | internal/services/auth_service.go:71-93 | a pair is handed out exactly if some user has the email and the password and no step fails, and it is that user's; unknown email and wrong password, and nothing else, are invalid credentials |
| Accounts.LoginAfterCreate | internal/services/user_service.go:58-78 | a registered user is stored and is checked against the registered password |
| Accounts.LoginAfterPatch | internal/services/user_service.go:153-175 | after a patch the user is checked under the new email against the new password, where given |
| Accounts.PairNeedsEveryStep | internal/services/auth_service.go:99-197 | no pair is handed out if any step of the call failed, the acknowledgement of the revoke included |
| Accounts.RowsAreAddedLast | internal/services/auth_service.go:127-137 | a call that adds a row had its insert sent, and a refresh had revoked the presented row before |
| Accounts.LogoutExactly | internal/services/auth_service.go:143-160 | logout succeeds exactly if the token is unknown or the UPDATE is acknowledged, leaves no row of the token in service, and changes nothing for a spent or unknown one |
| Accounts.LogoutEndsSession | internal/services/auth_service.go:143-160 | after a logout with the newest token no token of the session is redeemed in any run |
| Accounts.LogoutAllExactly | internal/services/auth_service.go:164-170 | it succeeds exactly if acknowledged; then no row of the user is in service, and no other user's row has changed |
| Accounts.DeletedIsUnknown | internal/db/sqlc/user.sql.go:52-54 | a deleted user's email and tokens are unknown |
| Guarantees.HonestClient | internal/services/auth_service.go:99-139 | a client that presents the last token it was given, undisturbed, never sees reuse or unknown, is refused as expired only past the lifetime, and gets the same user and chain |
| Guarantees.ResumeSession | internal/services/auth_service.go:99-139 | the newest token of a live session is answered with a new pair for it whenever no step fails and it is in time |
| Guarantees.RunOrdered | internal/services/auth_service.go:182-187 | expires_at never decreases in insertion order, and no row outlives the clock by more than the refresh lifetime |
| Guarantees.RotationGap | internal/services/auth_service.go:123-137 | a token that is redeemed is checked at most one refresh lifetime after it was issued |
| Guarantees.IdleChainIsOver | internal/services/auth_service.go:123-125 | over a run that presents a chain's tokens only after its expiry, the chain gets no new token, no pair naming it is handed out, and at most a kill or the removal with its owner shows |
| Guarantees.IdleTokenIsOver | internal/services/auth_service.go:123-125 | and no token of it is redeemed at any later place in a run |
| AuthService.ExecIsPlay | internal/services/auth_service.go:71-170 | whatever the methods do to the database is a step of the session automaton |
| AuthService.RefreshTokenRepository.Revoke | internal/repositories/refresh_token_repository.go:59-66 | the UPDATE by id; matching no row is a success |
| AuthService.Service.IssueRefreshAndAccess | internal/services/auth_service.go:176-197 | generate, insert, sign, in that order: the new table and the answer for every failure |
| AuthService.Service.Login | internal/services/auth_service.go:71-93 | new table and answer; unknown user and wrong password look alike; a step of the session automaton |
| AuthService.Service.Refresh | internal/services/auth_service.go:99-139 | new table and answer for every branch and failure; a step of the session automaton |
| AuthService.Service.Logout | internal/services/auth_service.go:143-160 | new table and answer; a step of the session automaton |
| AuthService.Service.LogoutAll | internal/services/auth_service.go:164-170 | new table and answer; a step of the session automaton |
| Queries.Database.GetRefreshTokenByHash | internal/db/sqlc/refresh_token.sql.go:55-69 | the scan returns the row with the digest, or no row exactly when there is none |
| Queries.Database.GetUserByEmail | internal/db/sqlc/user.sql.go:67-79 | the scan returns the user with the email, or no row exactly when there is none |
| Queries.Database.CreateRefreshToken | internal/db/sqlc/refresh_token.sql.go:28-47 | a row is appended unless the statement is dropped or a constraint refuses it |
| Queries.Database.Update | internal/db/sqlc/refresh_token.sql.go:71-98 | the loop revokes exactly the active rows it selects and reports whether there were any |
| Queries.Database.RevokeRefreshToken | internal/db/sqlc/refresh_token.sql.go:93-104 | returns the id exactly when an active row had it |
| Queries.Database.RevokeChain | internal/db/sqlc/refresh_token.sql.go:82-91 | the UPDATE by chain, and an error exactly when it was not acknowledged |
| Queries.Database.RevokeAllForUser | internal/db/sqlc/refresh_token.sql.go:71-80 | the UPDATE by owner, and an error exactly when it was not acknowledged |
| Queries.Database.CreateUser | internal/db/sqlc/user.sql.go:26-50 | the user is appended as given exactly when neither id nor email is taken, and answered |
| Queries.Database.UpdateUser | internal/db/sqlc/user.sql.go:148-183 | the answer is the stored row, with every given column new and every other one kept; no row for an unknown id, refused exactly when the email is another user's |
| Queries.Database.DeleteUser | internal/db/sqlc/user.sql.go:52-59 | the user and, by the cascade, all of their tokens go |
| Queries.Database.ListUsers | internal/db/sqlc/user.sql.go:101-146 | the collected rows are the filtered, sorted and limited table |
| Interleaving.WriteBalances | internal/db/sqlc/refresh_token.sql.go:15-98 | no write creates or loses an active row of any chain without an entry in the books |
| Interleaving.EffectBalances | internal/services/auth_service.go:99-197 | a step keeps the balance of a chain when its process's claim changes by what the write grants and costs |
| Invariants.StepKeepsInv | internal/services/auth_service.go:71-197 | every step of every process and of the surroundings keeps the constraints, one owner per chain, snapshots that match inserted rows, distinct spenders and the balance |
| Invariants.StepExtends | internal/db/sqlc/refresh_token.sql.go:71-98 | no step reactivates, re-stamps or brings back a row, or reuses an id |
| Invariants.RunKeepsInv | internal/services/auth_service.go:71-197 | both, over every schedule |
| Concurrency.ActiveRowsBounded | internal/services/auth_service.go:102-137 | under every schedule, active rows plus refreshes between revoke and insert are at most 1 plus the revokes that matched nothing, and two rows are active exactly when lost races outnumber pending and burned allowances |
| Concurrency.OneActiveRow | internal/repositories/refresh_token_repository.go:59-66 | without a lost race no chain has two active rows |
| Concurrency.RedeemedOnceOrLost | internal/services/auth_service.go:127-138 | of all refreshes that get past the revoke of one row at most one spent it, and if there are two the chain lost a race |
| Concurrency.IssuedPairAgrees | internal/services/auth_service.go:176-197 | under every schedule a pair names the user its chain was opened for, and the row and the access token agree |
| Concurrency.RevokedIsWriteOnce | internal/db/sqlc/refresh_token.sql.go:71-98 | revoked_at keeps its first value over every schedule, and nothing else of a row but updated_at changes |
| Concurrency.OneOwnerPerChain | internal/services/auth_service.go:133 | the rows a chain has now and at any later time have one owner |
| Concurrency.DropTakesEffect | internal/db/sqlc/user.sql.go:52-54 | deleting a user removes exactly them and their rows in one step |
| Concurrency.DeletedForGood | internal/db/sqlc/user.sql.go:52-54 | once a user is deleted no later state has a row of theirs, and each token they ever had is unknown |
| Endings.RunStaysBarren | internal/services/auth_service.go:111-137 | a chain that no row and no process can extend never gets a row again |
| Endings.Extend | internal/services/auth_service.go:127-137 | every other chain can still get one: a schedule that does it |
| Endings.BarrenExactly | internal/services/auth_service.go:111-137 | the two together: the exact condition under which a chain is over for good |
| Endings.DeadForGood | internal/services/auth_service.go:111-137 | a chain whose rows are all revoked or expired, with no refresh in flight that can still write, stays so under every schedule |
| Endings.KillIsCleanExactly | internal/db/sqlc/refresh_token.sql.go:71-91 | LogoutAll's and reuse detection's UPDATE ends a chain for good if and only if no process that can still write a row of it is in flight |
| Endings.ResidualLifetime | internal/auth/jwt.go:61-82 | when a chain is over and nothing is about to sign for it, every access token that names it is dead one access lifetime later |
| Race.RaceFrom | internal/repositories/refresh_token_repository.go:59-66 | from any state with a redeemable row two interleaved refreshes leave one active row more |
| Race.TwoActiveRowsReachable | internal/repositories/refresh_token_repository.go:59-66 | a schedule from empty tables reaches a chain with two active rows |
| Race.UncleanLogoutAllReachable | internal/db/sqlc/refresh_token.sql.go:71-80 | a schedule from empty tables reaches a LogoutAll UPDATE after which a chain of that user still gets another row |
| Race.UncleanReuseReachable | internal/services/auth_service.go:111-121 | the same for the UPDATE of reuse detection, after one rotation and a replay |
| Doubling.Land | internal/services/auth_service.go:123-137 | a process in flight that can write a row in time, left alone, leaves a row that can be redeemed |
| Doubling.RunCannotDouble | internal/services/auth_service.go:102-137 | a chain with nothing to redeem, no such process and at most one active or prepared row never has two active rows |
| Doubling.TwoActiveRowsExactly | internal/services/auth_service.go:102-137 | some schedule gives a chain two active rows if and only if a row of it can be redeemed, or a process in flight can write one that can, or active and prepared rows are two already |
| Doubling.ReachableExactly | internal/services/auth_service.go:123-133 | from empty tables two active rows are reachable exactly if the refresh lifetime is not negative |
| Bridge.IssueAlone | internal/services/auth_service.go:176-197 | issuing a pair undisturbed is its three steps, for every failure; a call that fails has no process that handed out a pair |
| Bridge.DecideAlone | internal/services/auth_service.go:111-138 | a refresh undisturbed from its decision on is its steps, for every branch and failure |
| Bridge.CallIsSchedule | internal/services/auth_service.go:71-170 | every whole call is a schedule that loses no race, with the same tables and an answer that agrees with the process started for it: the same pair, and no pair where the call fails |
| Bridge.RunIsSchedule | internal/services/auth_service.go:71-170 | every run of whole calls is a schedule that loses no race, with the same final tables, and its k-th answer agrees with the process started for the k-th call |
| Paging.OrderBySorts | internal/db/sqlc/user.sql.go:108 | ORDER BY yields a strictly descending listing of the same users |
| Paging.PageFacts | internal/services/user_service.go:123-151 | a page is in order and before the cursor, skips nothing above its last row, and has no next cursor exactly when it is short |
| Paging.TraverseDescends | internal/db/sqlc/user.sql.go:104-108 | keys strictly decrease over a whole traversal, whatever happens to the table between pages |
| Paging.TraverseMeets | internal/services/user_service.go:142-148 | a traversal that ends meets every key that is there at every page, also when the cursor's row is deleted |
| Paging.TraverseFills | internal/services/user_service.go:123-151 | on a fixed table any number of pages with any limits list the users ahead, in order, as many as the clamped limits have room for |
| Paging.EndsExactly | internal/services/user_service.go:142-148 | such a traversal ends if and only if there is room for more than the users ahead, with the first page that makes it so |
| Paging.FixedTable | internal/services/user_service.go:123-151 | when it ends, the pages concatenate to the full descending sort, whatever the limits |
| Paging.NoCursorNothingLeft | internal/services/user_service.go:142-148 | a page without next cursor has listed everything before its cursor |
| Paging.PageCount | internal/services/user_service.go:123-151 | with one limit a fixed table of n users takes exactly floor(n / limit) + 1 pages |
| Paging.BrowseIsTraverse | internal/handlers/user_handler.go:121-144 | following both halves of the cursor through the handler is a traversal whose limits are between 1 and 100 |
| Paging.PageSize | internal/services/user_service.go:123-133 | a first page has 20 users by default, 100 at most, and otherwise as many as asked for, as far as there are any |
| Paging.FirstPageSize | internal/handlers/user_handler.go:210-220 | over HTTP it has 20 users unless the client asks for 1 to 100 |
| Paging.HalfCursorStartsOver | internal/handlers/user_handler.go:222-243 | a cursor with one half missing or unreadable starts the listing over |
| Paging.NewestFirst | internal/db/sqlc/user.sql.go:108 | users are listed newest first, equal instants by descending id, over a whole traversal |
| Paging.LimitAboveMaximum | internal/handlers/user_handler.go:210-220 | handler and service disagree on a limit exactly if it is above 100, and then the page has 20 |
| Directory.MutationTakesEffect | internal/services/user_service.go:55-78 | what each create, update and delete between the pages leaves in the table |
| Directory.MutateKeepsBirths | internal/db/sqlc/user.sql.go:148-157 | no create, update or delete changes the creation time of an existing id |
| Directory.NeverRepeats | internal/db/sqlc/user.sql.go:101-110 | with arbitrary mutations between pages no user is listed twice |
| Directory.ListsExactlyOnce | internal/services/user_service.go:123-151 | and a traversal that ends lists every user present throughout exactly once |
| UserService.Service.List | internal/services/user_service.go:123-151 | the page and cursor of the specification, and no user before the cursor lost between page and next cursor |
| TokenBucket.AnyWindowBound | internal/middleware/ratelimit.go:31-66 | in any window of any stream, with clock readings in any order, at most burst plus what accrues while the clock goes forward passes |
| TokenBucket.WindowBound | internal/middleware/ratelimit.go:31-66 | in a window whose readings are in order, at most burst plus rate times its length passes, whatever came before and after |
| TokenBucket.BoundIsTight | internal/middleware/ratelimit.go:31-66 | for every sequence of readings there are limits that attain the bound |
| TokenBucket.WindowBoundExactly | internal/middleware/ratelimit.go:31-66 | burst plus rate times the window holds for all limits if and only if its readings are in order |
| TokenBucket.SwappedReadingsExceed | internal/middleware/ratelimit.go:58 | five requests with swapped readings pass where burst plus rate times the window is four |
| TokenBucket.Refills | internal/middleware/ratelimit.go:39 | after a wait worth n tokens, n at most burst, n requests pass however close together and whatever came before: an idle bucket fills up |
| TokenBucket.Recovers | internal/middleware/ratelimit_test.go:161-198 | with burst at least 1, a request 1/rps after the last one that passed passes, whatever the readings before it |
| TokenBucket.BurstPasses | internal/middleware/ratelimit_test.go:77-102 | the first burst requests pass however close together |
| TokenBucket.KeysTellApart | internal/middleware/ratelimit.go:53-56 | two remote addresses share a limiter exactly if they are equal or one is empty and the other "unknown" |
| TokenBucket.Projection | internal/middleware/ratelimit.go:31-60 | in every interleaving of the sections of any requests, the decisions for a remote address are those of one bucket fed only its requests |
| TokenBucket.PrivateBucket | internal/middleware/ratelimit_test.go:106-138 | from the start that is a full bucket of its own |
| TokenBucket.PerAddressBound | internal/middleware/ratelimit.go:31-66 | the bound for any readings holds for each address inside any mixed traffic |
| TokenBucket.PerAddressWindow | internal/middleware/ratelimit.go:31-66 | and burst plus rate times the window, for a window whose readings are in order |
| RateLimit.Limiter.Allow | internal/middleware/ratelimit.go:58 | the mutable bucket moves as the specification says |
| RateLimit.RateLimiter.Get | internal/middleware/ratelimit.go:31-43 | the limiter of a key is created once, full, and never replaced; no other bucket changes |
| RateLimit.RateLimiter.Take | internal/middleware/ratelimit.go:58 | one bucket is charged and no other changes |
| RateLimit.RateLimiter.Handle | internal/middleware/ratelimit.go:48-66 | the bucket of the request's remote address decides and is charged, that of no other address changes, and the decision is that of the stream model |
| Transactions.Perform | internal/repositories/repositories.go:48-51 | the queries, run on the working copy, leave the tables and report the row or error that the statement's specification says |
| Transactions.TokenStatements | internal/db/sqlc/refresh_token.sql.go:15-98 | what each token statement leaves and answers, spelled out: stored unless it conflicts, found by its digest, out of service after its UPDATE |
| Transactions.UserStatements | internal/db/sqlc/user.sql.go:26-183 | the same for the user statements |
| Transactions.ConversationGoesOn | internal/repositories/repositories.go:48-61 | inside a transaction the answers and the working tables are those of running the statements one after another |
| Transactions.Transaction.Exec | internal/repositories/repositories.go:48-51 | one statement in the transaction; after a failed one every later one fails |
| Transactions.Transaction.Converse | internal/repositories/repositories.go:61 | the body is told the truth about every statement until it stops |
| Transactions.IsExactly | internal/repositories/repositories.go:61-67 | an error is found in itself, below its wrappings, in the parts of a join, and nowhere else |
| Transactions.Repositories.WithTx | internal/repositories/repositories.go:42-74 | nil exactly on a clean commit, which installs the sequential composition; otherwise the tables are as before, unless only the acknowledgement of a commit was lost; the body's error comes back as it is or joined with the rollback's, its panic as it is; the constraints hold either way |
| Base64Url.RoundTrip | internal/auth/random.go:19-26 | decoding gives back every byte sequence |
| Base64Url.Injective | internal/auth/random.go:19-26 | distinct byte sequences give distinct strings |
| Base64Url.Length | internal/auth/random.go:19-26 | the length is ceil(4n/3) |
| Base64Url.Alphabet | internal/auth/random.go:16-18 | every character is URL-safe and a cookie-octet |
| Base64Url.SymbolTable | internal/auth/random.go:26 | the symbols are in the order of Table 2 of RFC 4648 |
| Base64Url.GroupKeepsBits | internal/auth/random.go:26 | three bytes and their four symbols are the same 24 bits, most significant first |
| Base64Url.ShortGroupKeepsBits | internal/auth/random.go:26 | a short last group is filled up with zero bits |
| Base64Url.GeneratedTokens | internal/auth/random.go:14-26 | a token has 43 characters a cookie carries unchanged, and repeats exactly if the random bytes do |
| Jwt.AcceptedExactly | internal/auth/jwt.go:88-109 | a token is accepted exactly if signed with the verifier's secret, of the expected issuer, and in force; reported as expired only with a good signature |
| Jwt.SignedClaims | internal/auth/jwt.go:61-73 | the claims name user, chain and issuer, and iat, nbf and exp are the whole seconds at or just before minting and one lifetime later |
| Jwt.SignVerify | internal/auth/jwt.go:61-109 | the matching verifier accepts a token, with its user and chain, for its lifetime but the last second at most, and reports it as expired from the end of its lifetime on |

## Left out

- Concurrency of statements inside the database (isolation levels, row locks, snapshots): each
  statement is one atomic step, and two transactions of `WithTx` do not overlap.
- Collisions of generated ids: a new row, chain or user id is assumed new; only token digests may
  collide, and in the step model not even those.
- bcrypt, SHA-256, HMAC and the random source: uninterpreted functions and inputs.
- `Limiter.reserve` arithmetic of golang.org/x/time/rate: reals instead of float64, waits not
  rounded to nanoseconds, no infinite rate. golang.org/x/time/rate is not part of this model
  beyond the documented token bucket.
- Bodies of `WithTx` that issue statements forever, and uses of the transaction after it ended.
- Resolution of timestamps in the database (microseconds) against the service's nanoseconds.
- Parsing and printing of ids and timestamps; a cursor is an exact pair of instant and id.
- `created_at` equal to infinity: it only ever comes from `now()`.
- `UserService.Create`, `Update`, `Delete` as methods: password hashing and error translation
  around one statement each; the statements are modelled.
- GetByID, Count, HTTP routing, JSON, validation, cookies, CORS, logging, recovery, configuration,
  health checks, migrations tooling and shutdown.
