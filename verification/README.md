# Student event ticketing: verified model

This project models the stateful core of a university ticketing back end (PostgreSQL, Redis, Go) in
Dafny 4.11 and proves what its tables, locks, queues and counters guarantee. `dafny verify dfyconfig.toml`
checks everything.

## What is modelled

**Seats.** An event stores `capacity_available`. Registration decrements it under a row lock; cancelling,
check-in and capacity changes recount it from the tickets. `Seats` holds the tables and one committed
transaction at a time, `SeatRuns` whole runs of them, `SeatSnapshots` runs whose capacity updates count in
older states, `SeatStore` the repository methods statement by statement on mutable tables, and `Payments` the
webhook that gives a seat back.
`SeatLocks` splits Register, Cancel and Use into their SQL statements, with any number of open
transactions, row locks and uncommitted writes, and `SeatRefinement` proves that every interleaving is a
serial run of the atomic transactions and never deadlocks.

**Sessions and roles.** `Tokens` is the `refresh_tokens` table. `Sessions` interleaves sign-up (create,
read the roles back, insert), login (lock, revoke, commit), refresh (read the user, consume, insert) and role
change (snapshot, revoke, rewrite the roles), step by step and under row locks. `SessionTokens` says whose every token is and what it
carries, `SessionRevocation` what ends a session and what outlives
the end, exactly; `SessionCounterexamples` holds two concrete runs.
`UserRoles` is the pair `users.role` and `user_roles`; `RoleClaims` prints roles into token claims and
compares them.

**E-mail queue.** `Notifications` lets any number of workers claim, send, write and stop, with writes
lost at any point. `EmailWorker` is the batch loop of a single worker over its table.

**Rate limiter, analytics, cache, schedule, queries.** `RateLimiter` is the fixed-window counter,
`Stats` the derived statistics, `StatsCache` the read-through cache and its keys, `Schedule` expiry,
check-in window and the end-after-start rule, `ScheduleRaces` updates of that rule checked against earlier
reads, `EventQueries` the two queries assembled with positional
placeholders.

### Reading the model

- UUIDs are natural numbers and instants are integers, in nanoseconds. New ids, token ids and QR hashes are parameters;
  where the source relies on them being new, freshness is a guard of the step that draws them
  (`SeatLocks.Fresh`, `Sessions.Fresh`) or a hypothesis (`SeatRuns.AtMostOneEnding`).
- Statements run at READ COMMITTED: they see the last committed rows and their own writes. `now` is a
  parameter of each call, so commit order and clock order are unrelated.
- An UPDATE of several rows takes its snapshot first, waits for row locks, and then writes those rows of the
  snapshot that still match. For the revocation of a role change these are two steps (`ChangeRole`, `Revoke`).
  For a login they are one: it already holds the user row, so no token of the user can appear meanwhile, and
  tokens that disappear are skipped either way. A consumed token is a single row known beforehand.
- The rollback of a refused transaction is taken together with the statement that refused it.
  `Lose`/`Stop` moves end a transaction, request or worker anywhere else.
- `events.Update` counts tickets inside one UPDATE without locking the event first, so under READ COMMITTED
  its count may be older than the row it writes. In the runs of `SeatRuns` it is one atomic step;
  `SeatSnapshots.StaleUpdateKeepsLawIff` says exactly what may commit between its snapshot and its write for it to
  be that step, and `SeatSnapshots.StaleCountOverbooks` what anything else can lead to. It is not part of the interleaved system; nor is
  event deletion, whose cascade locks in the opposite order.
- A delivery of the payment webhook is one step in `Payments.Service.Webhook` and the lemmas about `Delivered`;
  `Payments.SplitDeliverySettlesIff` puts any transactions between its lookup and its cancellation.
- `Sessions.Info` and the logs (`accepted`, `attempts`, `log`) are history: no step reads them to decide,
  except that only tokens once issued can be presented (their signature is checked).

### Where the code is not what its documentation says

- The configuration table calls the rate limit a sliding window. The code keeps a fixed window, so one
  window's length can admit up to `2 * limit - 1` requests; the bound is proved and proved to be reached. The
  promise holds exactly for a limit of at most one or a window of one clock unit (`RateLimiter.SlidesIff`).
- `RolesEqual` is described as comparing sets. It compares multisets: `["student", "student"]` is not
  equal to `["student"]` (`RoleClaims.RepeatedRoleIsRefused`). For the duplicate-free lists its callers pass
  the two notions agree (`RoleClaims.SameMultisetIff`).
- Changing a role is said to revoke the user's refresh tokens. What outlives the revocation: refreshes in
  flight when its statement starts, tokens of logins and sign-ups that commit while it runs (a login it waits
  for is one of them: `SessionCounterexamples.LoginOutlivesWaitingRevocation`), and tokens refreshed before the
  statement reached their row; nothing else does (`SessionRevocation.RevocationLeavesOnlyArrivals`).
- Changing a role is said to force a new login. A refresh that read the user before the change and consumes
  after it is still accepted, under the old roles (`SessionCounterexamples.OldRolesRefreshedAfterRoleChange`).
  `SessionRevocation.AcceptedStaleIff` gives the tokens for which this can happen, and
  `SessionRevocation.MustSignInAgainIff` exactly when the user must sign in again. Both take a time `t`, the
  earliest instant with which any refresh still to come compares its token's expiry; "some continuation" means
  some interleaving from there on, lost connections included.
- Event updates are meant to keep `end_at` after `starts_at`, but the check reads the row before writing
  it. Two concurrent updates can break the rule together; which patches are safe on whatever row they meet
  (`Schedule.SafeOnEveryRowIff`), and which are safe together however late their checks were
  (`ScheduleRaces.StaleChecksKeepRuleIff`), is characterised exactly.
- A cancel request for a used ticket answers "already cancelled"; the model keeps that answer.

## Model

| member | source | states |
|---|---|---|
| SeatRefinement.EveryInterleavingIsSerial | ticketing/repository/postgres.go:25-405 | in every state reached by any interleaving of statements, starts and lost connections, the committed rows and every reply so far are those of the finished calls run atomically in finishing order |
| SeatRefinement.StatementGood | ticketing/repository/postgres.go:25-405 | a statement either keeps everything the open transaction knows, or ends the call with exactly the answer and rows of one atomic step at that moment |
| SeatRefinement.CommitIsAtomic | ticketing/repository/postgres.go:68-103 | at COMMIT the private view and the reply are those of one atomic step from the committed rows |
| SeatRefinement.CommitElsewhere | ticketing/repository/postgres.go:205-232 | publishing a ticket cannot disturb what another open transaction read under its own locks |
| SeatRefinement.NeededLocksAreFree | ticketing/repository/postgres.go:34-39 | a statement that is not blocked finds the row locks it needs free or its own |
| SeatRefinement.NoRefusalAfterTheInsert | ticketing/repository/postgres.go:87-101 | once its ticket row is written no call is refused; in particular the zero-rows branch of the decrement is unreachable |
| SeatRefinement.WaitsGoDown | ticketing/repository/postgres.go:205-232 | a call waits only for calls with fewer locks still to take: tickets before events |
| SeatRefinement.NoWaitCycle | ticketing/repository/postgres.go:308-340 | no reachable state has a cycle of waiting calls, and wait chains have at most three members |
| SeatRefinement.SomeoneCanAlwaysProceed | ticketing/repository/postgres.go:34-39 | while any call is open, some open call can run its next statement |
| SeatRuns.Run | events/repository/postgres.go:90-121 | from consistent tables every run of transactions ends in consistent tables: constraints hold and each stored counter is the clamped recount |
| SeatSnapshots.StaleUpdateKeepsLawIff | events/repository/postgres.go:247-260 | a capacity update that took its snapshot before any run of transactions and writes after it keeps the counter law exactly when sales and returns of the event balance in between, or the event is full at the new capacity before and after; then it is the atomic update |
| SeatSnapshots.LateCountsKeepLawIff | events/repository/postgres.go:247-260 | a run whose capacity updates count in committed states of any age keeps the counter law throughout exactly when each of them is harmless in that sense; it is then the atomic run |
| SeatSnapshots.StaleCountOverbooks | events/repository/postgres.go:247-260 | saving the unchanged capacity with a count that missed the last sale lets one more registration in, above capacity |
| SeatSnapshots.LastSeatIsReached | events/repository/postgres.go:247-260 | that happens in a run from empty tables with one approved event of one seat |
| SeatRuns.CounterIsFreeSeats | events/repository/postgres.go:247-260 | in every reachable state the stored counter is max(0, capacity_total minus active or used tickets) |
| Seats.DecrementIsRecount | ticketing/repository/postgres.go:87-101 | the fast decrement stores exactly what a recount would have stored |
| Seats.WriteAndRecountKeeps | ticketing/repository/postgres.go:254-266 | cancelling or using a ticket and recounting its event keeps all tables consistent |
| Seats.AtomicKeeps | ticketing/repository/postgres.go:368-380 | Register, Cancel and Use each keep the tables consistent |
| Seats.DeleteKeeps | events/repository/postgres.go:324-333 | deleting an event with its tickets keeps the other counters right and leaves it no held seat |
| Seats.CreateKeeps | events/service/service.go:21-40 | a new event starts with its counter equal to its capacity, which is right because it has no tickets |
| Seats.RegisterSucceedsIff | ticketing/repository/postgres.go:46-85 | registration succeeds exactly for a published, approved, future event with fewer held seats than capacity, once per attendee |
| Seats.RegisterAnswers | ticketing/repository/postgres.go:34-105 | registration answers each refusal in exactly the named case and succeeds in the remaining one, writing one active ticket of the caller |
| Seats.CancelAnswers | ticketing/repository/postgres.go:205-266 | only the owner can cancel; each refusal is answered in exactly the named case, and an active ticket is cancelled exactly before the start or when the start does not matter |
| Seats.UseAnswers | ticketing/repository/postgres.go:308-404 | check-in succeeds exactly for an active ticket of an event not withdrawn, from its start to its end (the start if there is none), and answers each refusal in exactly the named case |
| Seats.UnknownQrIsNotFound | ticketing/repository/postgres.go:308-326 | a QR hash no ticket has is answered not found |
| Seats.ModerationOpensRegistration | events/repository/postgres.go:306-322 | after a moderation only an approved event takes registrations; a rejected published one refuses them as not approved |
| Seats.AnswerIsTheRowWritten | ticketing/repository/postgres.go:239-252 | a refusal changes nothing; a success writes exactly the ticket row it returns and moves no other event |
| SeatRuns.HeldGrowsOnlyByRegistration | ticketing/repository/postgres.go:62-101 | only a successful registration raises the held count, by one, and never beyond capacity |
| SeatRuns.OversoldNeverGrows | events/repository/postgres.go:247-260 | without a capacity decrease, held seats stay within the larger of their starting count and the capacity |
| SeatRuns.NeverOverbooked | ticketing/repository/postgres.go:62-101 | starting empty and never lowering the capacity of an event, its held seats never exceed the capacity |
| SeatRuns.EndingsPaidByIssues | ticketing/repository/postgres.go:239-252 | each issue of a ticket id pays for at most one successful check-in or cancellation |
| SeatRuns.AtMostOneEnding | ticketing/repository/postgres.go:328-366 | with fresh ids a ticket has at most one successful use or cancel in a whole run, never both |
| SeatRuns.FinalStatesStay | ticketing/repository/postgres.go:225-227 | a used or cancelled ticket row never changes again, short of deleting its event |
| SeatRuns.OneSeatPerAttendee | docker/postgres/migrations/000014_tickets_re_register_after_cancel.up.sql:5-7 | at most one active or used ticket per event and attendee, across cancel and re-register |
| SeatStore.Store.RegisterTicket | ticketing/repository/postgres.go:25-109 | the statements of registration do exactly the atomic transaction and give its answer, every refusal before the first write |
| SeatStore.Store.CancelTicket | ticketing/repository/postgres.go:191-292 | likewise for cancelling |
| SeatStore.Store.UseTicketByQRHash | ticketing/repository/postgres.go:294-405 | likewise for check-in |
| SeatStore.Store.RecountEvent | ticketing/repository/postgres.go:255-263 | the recount statement stores the clamped count of one event and touches no other |
| SeatStore.Store.GetByEventAndUser | ticketing/repository/postgres.go:111-132 | finds the attendee's active or used ticket exactly when there is one |
| SeatStore.Store.CreateEvent | events/repository/postgres.go:90-121 | inserts the event exactly when its id is new and its capacity at least one |
| SeatStore.Store.UpdateModeration | events/repository/postgres.go:306-322 | changes the moderation status of an existing event only |
| SeatStore.Store.DeleteEvent | events/repository/postgres.go:324-333 | removes the event and exactly its tickets: no seat of it stays held, and no other event's count moves |
| Payments.Service.Webhook | payments/service/service.go:51-84 | updates the payment, releases the seat of a failed or canceled one, and answers an error exactly for an unknown provider_ref |
| Payments.Service.UpdateStatusByProviderRef | payments/repository/postgres.go:88-115 | sets the status of exactly the payment with this provider_ref |
| Payments.Service.CreateInitiation | payments/repository/postgres.go:24-59 | inserts exactly when provider_ref is given and new, the amount is positive, and user and event exist |
| Payments.RepeatedDeliveryIsOne | payments/service/service.go:64-81 | any number of deliveries after a failed or canceled one leaves the seat tables exactly as that first one did |
| Payments.DeliveryFreesOneSeatIff | payments/service/service.go:64-81 | a delivery raises the counter by one exactly when the payer held an active ticket on an event not oversold, and otherwise leaves it |
| Payments.DeliveryTouchesOnlyPayersActiveTicket | ticketing/repository/postgres.go:239-252 | no delivery changes a used ticket, or anybody else's ticket |
| Payments.DeliveryByStatus | payments/service/service.go:59-81 | a failed or canceled payment leaves its payer no active ticket; a pending or succeeded one changes no seat |
| Payments.DeliveryCancelsActive | payments/service/service.go:64-81 | a failed or canceled payment cancels exactly the payer's active ticket |
| Payments.DeliverySettles | payments/service/service.go:74-80 | after a releasing delivery the payer holds no active ticket for the event |
| Payments.SplitDeliverySettlesIff | payments/service/service.go:64-81 | with any transactions between its lookup and its cancellation, a releasing delivery leaves the payer an active ticket exactly when by then they hold one the lookup did not find; no other ticket changes |
| Payments.DeliveryIsLookupThenCancel | payments/service/service.go:64-81 | with nothing in between, the two database calls are the delivery as one step |
| Payments.LeftoverWasIssuedMeanwhile | payments/service/service.go:64-81 | such a ticket was issued by a registration in between |
| Sessions.AtMostOneBearerPerFamily | auth/service/service.go:124-178 | whatever interleaves, a login or sign-up has at most one descendant that is a live token or a refresh about to insert one |
| Sessions.NoTokenAcceptedTwice | auth/repository/postgres.go:364-384 | no jti (section 4.1.7 of RFC 7519) is accepted twice in a run |
| Sessions.FamiliesKeepTheirRoles | auth/service/service.go:145-175 | every token descended from a login carries the roles of that login, although each is minted from the stored roles: the comparison before consuming makes them agree |
| SessionTokens.LoginTokenSays | auth/service/service.go:94-122 | the token of a login is its user's, carries the roles stored when the login read them, and expires as drawn, in every later state |
| SessionTokens.SignUpTokenSays | auth/service/service.go:67-89 | likewise the token of a sign-up |
| SessionTokens.RefreshTokenSays | auth/service/service.go:155-175 | an accepted refresh spends a valid token; its new one has the same owner, family and roles, and expires as drawn |
| SessionTokens.RoleChangeTakesEffect | auth/repository/postgres.go:204-247 | a role change that runs to its end gives the user exactly the roles asked for and nobody else any |
| SessionTokens.RolesChangeOnlySo | auth/repository/postgres.go:26-72 | no other step changes the roles of an existing user |
| Sessions.MoveKeeps | auth/repository/postgres.go:308-384 | every step of every login, refresh, sign-up, revocation and role change keeps the session invariant, locks included |
| SessionRevocation.RevocationLeavesOnlyArrivals | auth/repository/postgres.go:308-315 | however long the revoking statement runs and whatever follows, usable tokens and pending refreshes number at most the refreshes in flight when it started, plus one for each later sign-in and for each token spent before the statement reached it |
| SessionRevocation.InFlightRefreshSurvivesRevocation | auth/service/service.go:155-175 | each refresh in flight at the write of a revocation can still give the user one live token |
| SessionRevocation.LoginLeavesOneToken | auth/repository/postgres.go:325-362 | right after a login commits its token is the only live one of the user, and only refreshes already in flight when it swept can add another |
| SessionRevocation.StaleGrantsUseUpStaleTokens | auth/service/service.go:136-153 | after a role change and until the next, each refresh accepted under other roles uses up one token whose refresh had read them before; that set never grows |
| SessionRevocation.AcceptedStaleIff | admin/service/service.go:121-131 | after a role change and until the next, the tokens that some continuation accepts under other roles are exactly those, unrevoked and unexpired, whose refresh had read the user before |
| SessionRevocation.MustSignInAgainIff | admin/service/service.go:121-131 | after a role change and until the next, some continuation refreshes the user without a sign-in exactly when an unrevoked, unexpired token carries the new roles or was already checked, or a refresh in flight will insert such a one with the new roles |
| SessionCounterexamples.LoginOutlivesWaitingRevocation | auth/repository/postgres.go:204-207 | a run from the start in which a revocation waits for a login, misses its token, and leaves it live |
| SessionCounterexamples.SessionLapses | auth/repository/postgres.go:364-372 | the session of a new user can be refreshed exactly until its token expires |
| SessionCounterexamples.OldRolesRefreshedAfterRoleChange | auth/repository/postgres.go:204-247 | a run from the start in which a role change revokes and rewrites, and a refresh is accepted afterwards under the old roles |
| Tokens.Store.ConsumeRefreshToken | auth/repository/postgres.go:364-384 | succeeds exactly for an unrevoked, unexpired token of this user, and revokes exactly it |
| Tokens.Store.RotateRefreshToken | auth/repository/postgres.go:325-362 | run alone, leaves the user the new token only, or rolls everything back |
| Tokens.Store.RevokeTokensByUserID | auth/repository/postgres.go:308-315 | revokes every live token of this user and no other |
| Tokens.Store.InsertRefreshToken | auth/repository/postgres.go:317-323 | adds one live token of this user, or refuses a jti already present or an unknown user |
| UserRoles.LegacyRoleStaysPrimary | auth/repository/postgres.go:204-306 | after any role changes and organizer requests users.role is the primary active role |
| UserRoles.RoleChangeIsExact | auth/repository/postgres.go:249-293 | a role change leaves exactly {student}, {student, organizer} or {admin} active |
| UserRoles.User.UpdateUserRole | auth/repository/postgres.go:204-293 | rewrites the rows to those of the new role whatever they were, or rolls back for an unknown role |
| UserRoles.User.MergeRoleRows | auth/repository/postgres.go:165-202 | splits one scan into the active roles, falling back to users.role, and the pending ones |
| UserRoles.User.EnsureOrganizerRolePending | auth/repository/postgres.go:295-306 | makes organizer pending unless it is active; nothing active changes |
| UserRoles.User.RequestOrganizerRole | auth/service/service.go:181-202 | accepted exactly for an active student who is not an active organizer; nothing active changes |
| UserRoles.User.constructor | auth/repository/postgres.go:26-72 | a new user has its one role active and in step with users.role |
| UserRoles.PrimaryOfMerged | internal/infra/auth/jwt.go:261-272 | the primary role of the merged list is users.role in whatever order the rows were scanned |
| RoleClaims.RefreshAccepts | auth/service/service.go:131-147 | a token issued for roles A is accepted against active roles B exactly when A is all known and B lists the same set without repetition |
| RoleClaims.RolesEqual | internal/infra/auth/jwt.go:275-295 | is multiset equality on all inputs |
| RoleClaims.SameMultisetIff | internal/infra/auth/jwt.go:274-295 | against a duplicate-free list multiset equality is set equality without repetition |
| RoleClaims.RepeatedRoleIsRefused | internal/infra/auth/jwt.go:274-295 | two lists with the same set of roles that the comparison refuses |
| RoleClaims.DedupeRolesSorted | internal/infra/auth/jwt.go:231-248 | the result is strictly sorted with exactly the given elements |
| RoleClaims.RoleOrder | internal/infra/auth/jwt.go:244-258 | the sorted order of the three role names |
| RoleClaims.StrictlySortedIsUnique | internal/infra/auth/jwt.go:244-258 | such a list is unique, so the library sort used does not matter |
| RoleClaims.RolesToStrings | internal/infra/auth/jwt.go:219-229 | prints the distinct roles in order |
| RoleClaims.EffectiveRolesFromClaims | internal/infra/auth/jwt.go:192-217 | accepts exactly known roles, reads the legacy claim only without a list, and tells invalid from missing |
| RoleClaims.PrimaryRole | internal/infra/auth/jwt.go:261-272 | admin over organizer over student, whatever the order |
| Notifications.AttemptsEscalateAndStopAtSuccess | notifications/service/worker.go:65-91 | at most four sends per notification, carrying retry counts 0, 1, 2, 3 in turn, and none after a success |
| Notifications.RowsTellTheirAttempts | notifications/service/worker.go:75-91 | a failed row was tried exactly four times in vain, a queued one as often as its retry count says in vain, a sent one successfully |
| Notifications.OutcomeIsWritten | notifications/service/worker.go:75-91 | a write after a send marks the row sent, or queues it with the next retry count below three, or fails it at three, and touches no other row |
| Notifications.NeverSentAgain | notifications/service/worker.go:88-90 | once a send succeeded there is never another one, even if the status write is lost or the worker stops |
| Notifications.NoSharedOwnership | notifications/repository/postgres.go:41-55 | no notification is in two batches, or twice in one |
| Notifications.TerminalForever | notifications/repository/postgres.go:75-104 | sent and failed rows never change again |
| Notifications.SettledForever | notifications/service/worker.go:75-91 | a row left in processing by a stopped worker or a lost write stays so for ever |
| Notifications.MoveKeeps | notifications/service/worker.go:58-92 | every enqueue, claim, send, write and stop keeps the queue invariant |
| EmailWorker.ProcessBatch | notifications/service/worker.go:58-92 | from any table with retry counts in range, settles exactly the oldest queued rows as the sender decides and uses up at least one remaining send for each |
| EmailWorker.Repository.DequeueBatch | notifications/repository/postgres.go:36-73 | claims the oldest queued rows up to the limit (20 by default) and only moves them to processing |
| EmailWorker.Repository.UpdateStatus | notifications/repository/postgres.go:75-89 | sets the status of one row, or reports that it does not exist |
| EmailWorker.Repository.RequeueAfterFailure | notifications/repository/postgres.go:91-104 | queues one row again with its new retry count |
| EmailWorker.Repository.Enqueue | notifications/repository/postgres.go:20-34 | adds one queued row that has never been tried |
| EmailWorker.InQueueCounts | notifications/repository/postgres.go:41-55 | the queue length in the drain bound is the number of queued rows |
| EmailWorker.BatchUsesItsSends | notifications/service/worker.go:65-91 | a batch of k rows lowers the sum of (4 - retry_count) over unfinished rows by at least k, whatever the sender does |
| EmailWorker.DrainedWithinFourBatchesEach | notifications/service/worker.go:75-91 | with nothing enqueued meanwhile n queued notifications are all sent or failed within 4n batches; rows stranded in processing at the start stay as they are |
| RateLimiter.AnyIntervalIsBounded | internal/infra/rate_limit/limiter.go:22-28 | any interval of one window's length admits at most 2 * limit - 1 requests, none for a limit below one |
| RateLimiter.BoundIsReached | internal/infra/rate_limit/limiter.go:48-67 | for every limit and every window of at least two units some timeline admits exactly that many |
| RateLimiter.SlidesIff | README.md:181 | no interval of one window's length ever admits more than the limit exactly when the limit is at most one or the window one clock unit |
| RateLimiter.AnswersAreAdmissions | internal/infra/rate_limit/limiter.go:55-67 | what the bounds count as admitted are the requests that the limiter lets through |
| RateLimiter.WindowAdmitsFirstLimit | internal/infra/rate_limit/limiter.go:55-64 | a window admits exactly the first `limit` requests that arrive in it |
| RateLimiter.WindowNeverExtended | internal/infra/rate_limit/limiter.go:22-28 | requests inside a window, rejected or not, never move its end |
| RateLimiter.Limiter.Handle | internal/infra/rate_limit/limiter.go:48-67 | counts the request and admits it exactly within the limit; admits without counting when the store is unreachable |
| RateLimiter.Limiter.Serve | internal/infra/rate_limit/limiter.go:30-69 | answers a whole timeline as the counter history says; its admissions in any interval are those the bounds count |
| Stats.ForEventAnswers | analytics/repository/postgres.go:70-124 | not found and forbidden in exactly the named cases; otherwise the event's own capacity, active or used tickets, clamped remainder and hourly counts of the last seven days |
| Stats.AggregateAnswers | analytics/repository/postgres.go:126-203 | the aggregate counts the active or used tickets of the events in scope, their clamped remainder and their hours |
| Stats.DerivedIsStored | analytics/repository/postgres.go:95-124 | on a consistent snapshot the derived remaining capacity of an event is its stored counter |
| Stats.CapacitySplitsIff | analytics/repository/postgres.go:24-32 | total is registered plus remaining exactly when the event is not oversold |
| Stats.AggregateAddsUp | analytics/repository/postgres.go:150-196 | aggregate capacity and registrations are the sums over the events in scope; aggregate remaining is at most the sum of theirs |
| Stats.HeldSplitsByEvent | analytics/repository/postgres.go:157-177 | held tickets over a set of events are the sum of the per-event counts |
| Stats.RegistrationTimeline | analytics/repository/postgres.go:205-266 | hours strictly increase, each count is that hour's held tickets, and the counts sum to those of the last seven days |
| StatsCache.RepositoryAnswers | analytics/repository/postgres.go:70-203 | only the organizer of an event and administrators are told its figures, and an organizer's aggregate counts only their own events |
| StatsCache.KeyIdentifiesView | analytics/service/service.go:27-42 | two requests share a cache key exactly when they are equal or both the administrators' aggregate |
| StatsCache.SameKeySameAnswer | analytics/service/service.go:28-30 | requests with one key have the same repository answer, permission checks included, on every database |
| StatsCache.RepliesAreRecentAnswers | analytics/service/service.go:44-82 | every reply is the repository's answer to that very request at a state less than 30 seconds old, and every error is current |
| StatsCache.RepeatedRequestsAreServed | analytics/service/service.go:44-82 | until thirty seconds have passed the same request gets the same answer again |
| StatsCache.Service.EventStats | analytics/service/service.go:44-82 | serves an unexpired entry, otherwise the repository's answer, which it stores unless it is an error |
| Schedule.ListedExpiredIffRefusedExpired | ticketing/service/service.go:81-89 | an active ticket is listed as expired exactly when check-in would refuse it as expired |
| Schedule.AgreementNeedsTheRule | ticketing/repository/postgres.go:346-356 | listing and check-in agree at every instant exactly when the start is no later than the instant after the end |
| Schedule.ExpiryIsMonotone | ticketing/model/ticket.go:29-34 | on an unchanged schedule an expired ticket stays expired and check-in keeps refusing it |
| Schedule.OverlayAll | ticketing/service/service.go:92-102 | overwrites exactly the expired active rows of the listing |
| Schedule.BookingsPrecedeCheckIns | ticketing/repository/postgres.go:235-237 | while an event is not rescheduled every registration or self-cancel time is strictly before every check-in time, in whatever order they commit |
| Schedule.ValidateCreate | events/handler/routes.go:34-42 | accepts a create request exactly when its end, if any, is after its start |
| Schedule.HandleUpdate | events/handler/routes.go:390-403 | accepts a patch exactly when the row it read would have its end after its start |
| Schedule.CheckedRunsKeepTheRule | events/handler/routes.go:34-52 | creates and updates checked one at a time keep every event's end after its start |
| Schedule.SafeOnEveryRowIff | events/handler/routes.go:391-403 | a patch keeps the rule on every valid row exactly when it sets both times in order, or neither |
| ScheduleRaces.StaleChecksKeepRuleIff | events/handler/routes.go:367-410 | the rule survives every run whose updates draw on given patches, each accepted against any earlier read, exactly when no start among them reaches an end that another one sets, patches that both set both times excepted |
| Schedule.ConcurrentUpdatesCanBreakTheRule | events/handler/routes.go:367-410 | two updates accepted against the same read can break the rule together |
| EventQueries.BuildUpdate | events/repository/postgres.go:212-260 | the SET list numbers its placeholders 1..n and, interpreted on any row, is the field-by-field override with the counter recounted |
| EventQueries.Table.Update | events/repository/postgres.go:267-289 | writes exactly the overridden row with the tickets of the table counted, or refuses a missing event or a capacity below one; on the seat columns it is the update transaction of the seat model |
| EventQueries.OverriddenIsThePatchedSeat | events/repository/postgres.go:247-260 | on the seat columns the query is the update transaction of the seat model |
| EventQueries.BuildList | events/repository/postgres.go:148-179 | the WHERE list numbers its placeholders 1..n and means exactly the filter on every row |
| EventQueries.TrimSpaceTrims | events/repository/postgres.go:160-169 | trimming removes the white space at both ends and nothing else |
| EventQueries.List | events/repository/postgres.go:140-210 | from any table the page holds, position by position, the wanted rows in order of latest start, from the offset and up to the limit, with limit 20 and offset 0 as defaults |
| EventQueries.LaterArgumentsChangeNothing | events/repository/postgres.go:217-271 | appending an argument never changes what the fragments so far mean |

## Left out

- HTTP handlers, DTO validation other than event times, routing, CORS, logging, configuration, Swagger, error-to-status mapping and the mobile app: no state of their own.
- JWT signing and parsing, bcrypt, the HMAC webhook signature, SHA-256, QR rendering: library calls. A presented token is one that was issued.
- SMTP, MinIO and Redis or PostgreSQL outages, apart from lost writes of the e-mail worker, lost transactions, and an unreachable rate-limit store.
- `events.Update` and `events.Delete` in the interleaved system: see "Reading the model". Moderation and event creation are single statements and would add nothing there.
- The users table in the seat model: the foreign key from tickets to users, and the lock a login takes on the user row. Users are never deleted.
- Deadlocks between two multi-row token updates of the same user: a revocation writes all its rows in one step, once none of them is held by an uncommitted login.
- SeatRuns.CounterIsFreeSeats: takes the capacity UPDATE and its ticket count as one step; SeatSnapshots.LateCountsKeepLawIff says exactly when older counts make no difference.
- SeatRuns.OversoldNeverGrows: likewise.
- SeatRuns.NeverOverbooked: likewise; SeatSnapshots.StaleCountOverbooks shows the difference.
- SeatStore.Store.UpdateModeration: does not record moderated_by, which nothing modelled reads.
- Payments.Service.Webhook: runs its database calls with nothing in between; see Payments.SplitDeliverySettlesIff. If the event is deleted in between, the source answers an error after updating the payment.
- Payments.DeliverySettles: holds for an uninterrupted delivery; with transactions in between see Payments.SplitDeliverySettlesIff.
- Order of `GetUserTickets` and of UPDATE ... RETURNING: the listing is any array of rows, a claimed batch is some order of the oldest rows.
- ILIKE is an arbitrary predicate.
- EventQueries.List: events that start at the same instant come in one of their possible orders.
- JSON encoding of cached statistics is taken to round-trip, and computing and storing an entry is one step.
- `clientIP` and the choice of rate-limit key: the limiter is modelled for one key.
- Free-text columns outside the two event queries, `updated_at`, cover images, the payment provider URL and the analytics snapshot table.
