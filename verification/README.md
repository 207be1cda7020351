# Token lifecycles: a verified model

This project models, in Dafny, how the repository issues, refreshes, caches and revokes
user sessions, and proves what users and maintainers rely on.

* **The session store of `auth-service`**, at two grains. In `SessionInterleaving` one
  database statement is one step and any number of sign-ins, refreshes, logouts and
  sweeps are in flight. In `AuthDb` one request is one step with one clock reading, and
  accounts, permissions and e-mailed verification tokens are part of the state.
  `SerialRequests` proves that the second is a special case of the first.
  `AuthDecisions` says what every request decides and does without the functions that
  compute it, with lifetimes and limits in plain numbers.
* **The client's single-flight refresher** (`TokenRefresh`): leader, queue, failure latch
  and timers, one step per synchronous section between awaits, with the refresh calls on
  the network and the pending timers in the state.
* **The Redis cache of verified access tokens** in `server-nest` (`TokenCache`), with
  requests that interleave at every call.
* **The infinite product list** (`InfiniteScroll`) and **the CSRF cookie** (`CsrfGuard`).

The parts that the source writes as objects updating their fields are classes here
(`AuthServices`, `ClientStore`, `TokenCache.AuthService`, `CsrfGuard.RequestConfig`); every
method is proved equal to the specification function the theorems are about.

## How time, tokens and the database are modelled

Times are milliseconds; `exp` is in whole seconds (section 4.1.4 of RFC 7519), computed and
compared as `jsonwebtoken` does: `floor(now / 1000) + lifetime`, rejected when
`floor(now / 1000) >= exp`. A token is the value it carries; `signed` is the set of values that
bear a valid signature. bcrypt is an injective function. Random ids and verification tokens
are values not used before. PostgreSQL contributes primary keys, the unique address,
`autoincrement` ids that are never reused and the cascade from users to refresh tokens. The
order of a query's answer is any order the query allows, and the placement of nulls in
`last_used_at asc` is a parameter. A Redis key answers up to and including its deadline.

## What turned out not to hold

* *One row per device.* A refresh from a device on which the user has another session
  leaves two rows for that device, and so does a sign-in whose device clean-up failed.
  `AuthSessions.OnePerDeviceBreaksIff` shows that exactly such requests break it,
  `AuthSessions.TwoRowsForOneDevice` gives a run.
* *Five sessions at most.* With requests one after the other five is right
  (`AuthSessions.SessionLimit`). With K sign-ins overlapping the bound is 4 + K, reached for every K
  (`SessionBoundTight.BoundIsReached`), plus one for each rotation that *escapes* the limit step:
  one that moves a row a sign-in in flight has already chosen to delete, or a row that had expired
  when the limit step last looked (`SessionBound.ConcurrentSessionBound`). All other refreshes may
  overlap the sign-ins freely. At the level of one step such rotations are exactly what spoils the
  room a waiting sign-in counts on, apart from rows stored by other sign-ins
  (`SessionEscapes.RemainderGrowsIff`). One escape and one sign-in at a time give six sessions
  (`SessionBoundTight.OverlappingRefreshPassesLimit`).
* *A user deleted or logged out everywhere stays without sessions.* With requests one after the
  other, yes (`AuthAccounts.DeletionIsFinal`). Among overlapping requests, iff no sign-in of the user
  was under way (`SessionRevocation.RevocationIsFinalIff`).
* *Queued requests wait only for the refresh under way.* A request that arrives during a
  proactive refresh stays queued after it (`TokenRefreshGuarantees.ProactiveRefreshStrandsRequest`);
  `IdleQueueIsWhatProactiveRefreshesMissed` says that these are exactly the ones that wait.
* *Followers of a failed leader are rejected with its error.* They are replayed: the error is
  stored only after the queue is drained (`FollowersOfFailedLeader`, with a run in
  `FollowerOfFailedLeaderIsReplayed`).
* *Signing out stops the refreshing.* Only if no refresh is out and no replaced timer is pending
  (`SignOutStopsRefreshingIff`, with a run in `LeakedTimerRefreshesAfterSignOut`).
* *A cached answer is that of direct verification.* Only while the user has a row
  (`TokenCache.HitAgreesIffUserExists`, with a run in `TokenCache.HitForDeletedUser`).
* *The weekly sweep of unused tokens* never finds a row (`UnusedSweepIsIdle`,
  `UnusedSweepDeletesNothing`); the token-theft branch is never taken for an issued token
  (`TheftAlarmNeverRings`, `RefreshDecides`).
* *A cached answer ends before its token.* Only if storing takes at most two seconds after the
  time to live was computed (`TokenCache.TwoSecondsIsTheTolerance`).
* *Page sizes.* If the client's and the server's ever differ, the list is complete iff it fits one page
  or the client's size divides the server's (`InfiniteScroll.CoversIff`).

A unit test calls a null `last_used_at` the oldest
(`apps/auth-service/src/app/modules/auth/__test__/auth-token-management.service.test.ts:234`);
PostgreSQL's ascending order puts nulls last. Nothing proved here depends on which it is.

## Model

| member | source | states |
|---|---|---|
| `SessionBound.ConcurrentSessionBound` | apps/auth-service/src/app/modules/auth/auth.service.ts:495-604 | in every interleaving of single statements with at most K sign-ins of a user in flight, the user never has more than MAX - 1 + K unexpired rows plus one for each rotation that moved a row already chosen for deletion or expired when the limit step last looked; refreshes, logouts and sweeps may overlap in any way |
| `SessionEscapes.RemainderGrowsIff` | apps/auth-service/src/app/modules/auth/auth.service.ts:497-518 | while a sign-in holds a list of rows to delete, a step leaves it more rows than it counted on iff another sign-in stores a row or a rotation moves a listed or expired row |
| `SessionEscapes.BoundWithHarmlessRefreshes` | apps/auth-service/src/app/modules/auth/auth.service.ts:606-648 | MAX - 1 + K holds with any number of overlapping refreshes, as long as each rotation moves an unexpired row no sign-in has chosen |
| `SessionEscapes.BoundWithoutOverlap` | apps/auth-service/src/app/modules/auth/auth.service.ts:495-604 | MAX - 1 + K holds when no refresh of the user overlaps the sign-ins; K = 1 gives five |
| `SessionBoundTight.BoundIsReached` | apps/auth-service/src/app/modules/auth/auth.service.ts:495-604 | for every K >= 1 a run without overlapping refreshes reaches MAX - 1 + K |
| `SessionBoundTight.OverlappingRefreshPassesLimit` | apps/auth-service/src/app/modules/auth/auth.service.ts:497-518 | a run with one sign-in at a time and exactly one escaping rotation ends with MAX + 1 unexpired rows, so the bound is reached there too |
| `SessionBound.StepKeepsBounded` | apps/auth-service/src/app/modules/auth/auth.service.ts:495-527 | every statement keeps room for each sign-in past or at its limit step, whichever of the waiting deletions happen first; only an escaping rotation takes one place |
| `SessionInterleaving.StepKeepsInv` | apps/auth-service/src/app/modules/auth/auth.service.ts:219-313 | every statement of every request keeps: rows agree with their one token, ids are signed once, a token is spent once and then has no row, rows of different rotation chains stay apart |
| `SessionGuarantees.TokenSpentAtMostOnce` | apps/auth-service/src/app/modules/auth/auth.service.ts:219-297 | however many refreshes and logouts presenting one token overlap, at most one succeeds, and then its row is gone |
| `SessionGuarantees.StoredRowHasOneToken` | apps/auth-service/src/app/modules/auth/auth.service.ts:573-597 | a stored row's hash is that of the one signed token with its id, of the same user, with exp * 1000 <= expires_at |
| `SessionGuarantees.TheftAlarmNeverRings` | apps/auth-service/src/app/modules/auth/auth.service.ts:241-254 | no request presenting an issued token reaches the branch that revokes all sessions, even in a race |
| `SessionGuarantees.ForeignRowRevokesAll` | apps/auth-service/src/app/modules/auth/auth.service.ts:241-254 | for a stored row with a foreign hash the next two statements of the request delete every row of its user and no other |
| `SessionGuarantees.ExpiredRowIsDeleted` | apps/auth-service/src/app/modules/auth/auth.service.ts:235-239 | for a stored row that has expired since its token was checked the next two statements delete that row, alone, and the refresh fails |
| `SessionGuarantees.StoringEffect` | apps/auth-service/src/app/modules/auth/auth.service.ts:581-692 | exactly what each storing statement leaves: a never-used row for 7 days, a row marked as used now from its device, a row moved to the new token for another 7 days, or one row less |
| `SessionGuarantees.SigningEffect` | apps/auth-service/src/app/modules/auth/auth.service.ts:573-634 | a signing statement adds one token of 7 days for the user with the random id, and stores nothing yet |
| `SessionGuarantees.SuccessIff` | apps/auth-service/src/app/modules/auth/auth.service.ts:260-283 | a refresh succeeds by its rotation and a logout by its deletion, and by no other step |
| `SessionGuarantees.MissingRowEndsRequest` | apps/auth-service/src/app/modules/auth/auth.service.ts:231-233 | a refresh or logout that finds its row gone, at whatever statement, ends there and changes nothing |
| `SessionGuarantees.UnusedSweepDeletesNothing` | apps/auth-service/src/app/modules/auth/services/token-cleanup.service.ts:69-101 | at statement grain the unused-token sweep leaves every reachable store as it is |
| `SessionGuarantees.RevocationEndsLineage` | apps/auth-service/src/app/modules/auth/auth.service.ts:279-313 | after a logout that found its row, or the deletion of all rows of a user, no token of the rotation chains it removed refreshes in any continuation, refreshes in flight included |
| `SessionRevocation.RevocationIsFinalIff` | apps/auth-service/src/app/modules/auth/services/user-deletion.service.ts:58-71 | after all rows of a user are deleted, and while no new sign-in of that user starts, the user stays without rows in every continuation iff no sign-in of that user was in flight |
| `SerialRequests.AtomicRequestsRefineStatements` | apps/auth-service/src/app/modules/auth/auth.service.ts:191-431 | every run of atomic requests is matched by a run of single statements with the same rows, clock and tokens |
| `SerialRequests.RequestIsSerial` | apps/auth-service/src/app/modules/auth/auth.service.ts:191-431 | each single request, of every kind, equals some sequence of its statements |
| `RefreshTokenTable.LimitRemovesLeastRecentlyUsed` | apps/auth-service/src/app/modules/auth/auth.service.ts:497-518 | a row the limit step removes was used no later than any survivor that was used; rows never used go last where the database puts nulls last, first where it puts them first |
| `RefreshTokenTable.LimitLeavesRoom` | apps/auth-service/src/app/modules/auth/auth.service.ts:505-518 | after the limit step at most MAX - 1 unexpired rows are left, however many there were |
| `RefreshTokenTable.ActiveQueryHasAnswer` | apps/auth-service/src/app/modules/auth/auth.service.ts:497-503 | the ordered query always has an answer, so no sign-in is excluded by assuming one |
| `AuthInvariant.RequestKeepsInv` | apps/auth-service/src/app/modules/auth/auth.service.ts:57-479 | every request keeps: unique lower-case addresses, rows of active accounts only, rows that agree with their token, at most MAX unexpired rows a user, verification entries as minted |
| `AuthSessions.SessionLimit` | apps/auth-service/src/app/modules/auth/auth.service.ts:495-519 | in every reachable state a user has at most five rows with expires_at after now |
| `AuthSessions.SignInDecides` | apps/auth-service/src/app/modules/auth/auth.service.ts:191-217 | sign-in succeeds, for a given account, iff that account has the lower-cased address, is active and verified and the password matches; a refusal changes nothing |
| `AuthSessions.SignInReplacesSessions` | apps/auth-service/src/app/modules/auth/auth.service.ts:495-604 | after a sign-in whose clean-up did not fail the device has exactly the new row; other rows are unchanged or, if the limit was reached, least recently used and gone; the count of live rows is exact |
| `AuthSessions.RefreshDecides` | apps/auth-service/src/app/modules/auth/auth.service.ts:219-277 | a refresh succeeds iff the token verifies and its row exists, and then moves that row to the new token; otherwise the database is unchanged and the error is exact; the expiry, theft and missing-user branches are not taken |
| `AuthDecisions.FreshTokensWork` | apps/auth-service/src/app/modules/auth/auth.service.ts:563-654 | the pair a sign-in or refresh returns works at once: the access token identifies the user, the refresh token is signed, in time and has its row |
| `AuthDecisions.SignInEffect` | apps/auth-service/src/app/modules/auth/auth.service.ts:191-217 | the three refusals of a sign-in for an existing address, and all that a successful one signs and stores: an access token for 15 minutes, a refresh token and a never-used row for 7 days |
| `AuthDecisions.RefreshEffect` | apps/auth-service/src/app/modules/auth/auth.service.ts:219-277 | a refresh succeeds iff the value is a signed refresh token in time whose row is stored; the row moves to the new token, is renewed for 7 days and keeps its creation date; refusals change nothing |
| `AuthDecisions.RefreshOnForeignRow` | apps/auth-service/src/app/modules/auth/auth.service.ts:235-258 | for a row that agrees with no issued token: an expired one is deleted, a foreign hash revokes every session of the row's user, a missing user is refused |
| `AuthDecisions.LogoutDecides` | apps/auth-service/src/app/modules/auth/auth.service.ts:279-297 | a logout is done iff the value is a signed refresh token in time whose row is stored; then exactly that row goes; the two refusals change nothing |
| `AuthDecisions.LoggedOutNeverRefreshes` | apps/auth-service/src/app/modules/auth/auth.service.ts:279-297 | after a logout in a reachable database the token refreshes in no continuation |
| `AuthDecisions.PrivilegedDecides` | apps/auth-service/src/app/modules/auth/services/user-operation-permission.service.ts:24-71 | a privileged request may go on iff its token is signed, in time and agrees with an active account, the target exists (and is active), and it is oneself or outranked; otherwise the exact error |
| `AuthDecisions.UnsignedIsRefused` | apps/auth-service/src/app/common/utils/jwt-user.util.ts:16-58 | every privileged request with a value the service never signed, or one past its time, is refused and changes nothing |
| `AuthDecisions.LogoutAllDecides` | apps/auth-service/src/app/modules/auth/auth.service.ts:392-431 | exactly the rows of the target go, and their number is reported, iff the bearer may act |
| `AuthDecisions.SoftDeleteDecides` | apps/auth-service/src/app/modules/auth/services/user-deletion.service.ts:24-80 | exactly the rows of the target go and only its account is deactivated, iff the bearer may act |
| `AuthDecisions.HardDeleteDecides` | apps/auth-service/src/app/modules/auth/services/user-deletion.service.ts:82-124 | exactly the account of the target and its rows go, inactive or not, iff the bearer may act |
| `AuthDecisions.UpdateUserDecides` | apps/auth-service/src/app/modules/auth/auth.service.ts:76-136 | an update is done iff the bearer may act, is an ADMIN when the verified flag is given, and the new address is free; then exactly the given fields change |
| `AuthDecisions.RegisterEffect` | apps/auth-service/src/app/modules/auth/auth.service.ts:57-74 | a registration succeeds iff every account with the address is unverified and older than half an hour; it replaces it by a new one and mails an entry for half an hour; otherwise the exact error |
| `AuthDecisions.SameAddressIff` | apps/auth-service/src/app/modules/auth/auth.service.ts:59 | two addresses are the same account iff they differ in the case of ASCII letters only |
| `AuthDecisions.ExpiredSweepDecides` | apps/auth-service/src/app/modules/auth/auth.service.ts:339-355 | exactly the rows with expires_at before now go, and their number is reported |
| `AuthDecisions.UnusedSweepDecides` | apps/auth-service/src/app/modules/auth/services/token-cleanup.service.ts:69-101 | on any table, exactly the unexpired rows last used, or never used and created, more than so many days ago go |
| `AuthDecisions.UnverifiedSweepDecides` | apps/auth-service/src/app/modules/auth/auth.service.ts:357-390 | exactly the unverified accounts older than half an hour go, with their rows and no others |
| `AuthInvariant.VerifiedRowMatches` | apps/auth-service/src/app/modules/auth/auth.service.ts:224-258 | a verified token whose row exists is strictly unexpired, matches the hash and belongs to an active account |
| `AuthSessions.RemovedTokenIsRefused` | apps/auth-service/src/app/modules/auth/auth.service.ts:223-233 | whatever request took a row away, in every continuation its token gets "not found" (or "invalid" once expired) on refresh and logout, and the store stays as it was |
| `AuthSessions.UnusedSweepIsIdle` | apps/auth-service/src/app/modules/auth/services/token-cleanup.service.ts:69-101 | the weekly sweep deletes nothing in any reachable state and reports 0 |
| `AuthSessions.OnePerDeviceBreaksIff` | apps/auth-service/src/app/modules/auth/auth.service.ts:529-648 | a request ends "one row per user and device" iff it is a successful refresh from a device with another row of that user, or a sign-in whose device clean-up failed and whose limit step spares a row of the device |
| `AuthSessions.OnePerDeviceUntilRefreshElsewhere` | apps/auth-service/src/app/modules/auth/auth.service.ts:529-554 | in runs without such a request, one row per user and device |
| `AuthSessions.TwoRowsForOneDevice` | apps/auth-service/src/app/modules/auth/auth.service.ts:636-648 | a run from a seeded database that ends with two rows for one device |
| `AuthAccounts.AccountStepOf` | apps/auth-service/src/app/modules/auth/auth.service.ts:76-189 | the only things a request can do to an existing account, each with who may ask for it |
| `AuthAccounts.RunKeepsIdentities` | apps/auth-service/src/app/modules/auth/auth.service.ts:57-136 | over every run ids are not reused; role, password and registration date never change; a deactivated account stays so |
| `AuthAccounts.DeletionIsFinal` | apps/auth-service/src/app/modules/auth/services/user-deletion.service.ts:24-113 | with requests one after the other: after a soft or hard deletion, in every continuation no request gets tokens for that user, runs on that user's behalf or leaves a row of that user |
| `AuthAccounts.OneAccountPerAddress` | apps/auth-service/src/app/modules/auth/auth.service.ts:57-74 | two accounts never have addresses equal up to case |
| `AuthAccounts.RegisterDecides` | apps/auth-service/src/app/modules/auth/auth.service.ts:158-189 | registration succeeds iff no account with the address is verified or younger than half an hour; a refusal changes nothing |
| `AuthAccounts.CleanupRemovesExactlyLapsed` | apps/auth-service/src/app/modules/auth/auth.service.ts:357-390 | re-registration and the monthly clean-up remove an account iff it is unverified and older than half an hour (and, for registration, has the address) |
| `AuthAccounts.VerificationTokenSpentOnce` | apps/auth-service/src/app/modules/auth/auth.service.ts:462-470 | after one success a verification token is invalid in every continuation |
| `AuthAccounts.VerificationTokenIsForItsRegistration` | apps/auth-service/src/app/modules/auth/services/email-verification-token.service.ts:16-36 | a mailed token works only within half an hour of its registration and verifies that registration's account and no other, whatever was deleted or registered between |
| `AuthAccounts.AdminIsStable` | apps/auth-service/src/app/modules/auth/services/user-operation-permission.service.ts:24-71 | over every run a verified administrator's account is changed or deleted only by requests carrying an access token signed for that administrator and in time |
| `AuthAccounts.SessionEndsOnly` | apps/auth-service/src/app/modules/auth/auth.service.ts:279-431 | the only ways a session can end |
| `AuthAccounts.AdminSessionsAreStable` | apps/auth-service/src/app/modules/auth/auth.service.ts:392-425 | a verified administrator's session ends only by that administrator's own sign-in, refresh token or signed access token, or by expiry |
| `AuthAccounts.VerifiedFlagIsStable` | apps/auth-service/src/app/modules/auth/auth.service.ts:109-126 | over every run email_verified changes only through an e-mailed link of the account or an update requested by an ADMIN |
| `AuthDb.Objection` | apps/auth-service/src/app/modules/auth/services/user-operation-permission.service.ts:24-71 | acting on an account is allowed iff it is one's own or its role ranks strictly lower |
| `AuthAccounts.AccessTokenIdentifiesIff` | apps/auth-service/src/app/common/utils/jwt-user.util.ts:16-58 | in every reachable state an issued access token identifies its account iff it is unexpired and the account exists, is active and has the address it had at issue; a payload mismatch is always a changed address |
| `AuthServices.JwtUserUtil.ExtractUserFromAccessToken` | apps/auth-service/src/app/common/utils/jwt-user.util.ts:16-58 | answers an account iff the value is a signed access token in time for that account, which is active and has the token's address and role; unsigned or late values get INVALID_TOKEN |
| `AuthServices.AuthService.Register` | apps/auth-service/src/app/modules/auth/auth.controller.ts:65-85 | createUser and the mailed token make of the database what DoRegister says |
| `AuthServices.AuthService.CreateUser` | apps/auth-service/src/app/modules/auth/auth.service.ts:57-74 | the account part of a registration, for every token that may be mailed afterwards |
| `AuthServices.AuthService.CheckIfUserUnverifiedAndDelete` | apps/auth-service/src/app/modules/auth/auth.service.ts:158-189 | nothing, a refusal with its error, or the deletion of exactly the lapsed account with that address |
| `AuthServices.AuthService.UpdateUser` | apps/auth-service/src/app/modules/auth/auth.service.ts:76-136 | in-place update equal to DoUpdateUser, refusals and unique violation included |
| `AuthServices.AuthService.VerifyEmail` | apps/auth-service/src/app/modules/auth/auth.service.ts:433-479 | equal to DoVerifyEmail |
| `AuthServices.AuthService.CleanupUnverifiedUsers` | apps/auth-service/src/app/modules/auth/auth.service.ts:357-390 | deletes the lapsed accounts with their rows and reports how many |
| `AuthServices.AuthService.SignIn` | apps/auth-service/src/app/modules/auth/auth.service.ts:191-217 | equal to DoSignIn for every answer the database may give |
| `AuthServices.AuthService.GenerateTokenPair` | apps/auth-service/src/app/modules/auth/auth.service.ts:556-604 | device clean-up, limit step, two signatures and one new row, in that order |
| `AuthServices.AuthService.EnforceTokenLimit` | apps/auth-service/src/app/modules/auth/auth.service.ts:495-527 | exactly the surplus prefix of the answer goes and at most MAX - 1 unexpired rows remain |
| `AuthServices.AuthService.CleanupExistingDeviceToken` | apps/auth-service/src/app/modules/auth/auth.service.ts:529-554 | exactly the rows of this user and device go; if the database fails, none does and the sign-in goes on |
| `AuthServices.AuthService.RefreshToken` | apps/auth-service/src/app/modules/auth/auth.service.ts:219-277 | equal to DoRefresh, every branch included |
| `AuthServices.AuthService.RotateTokens` | apps/auth-service/src/app/modules/auth/auth.service.ts:606-655 | the row leaves its old id for the new token; both new tokens are signed; nothing else changes |
| `AuthServices.AuthService.RevokeRefreshToken` | apps/auth-service/src/app/modules/auth/auth.service.ts:279-297 | equal to DoLogout |
| `AuthServices.AuthService.LogoutAllDevices` | apps/auth-service/src/app/modules/auth/auth.service.ts:392-431 | equal to DoLogoutAll, with the number of rows removed |
| `AuthServices.UserDeletionService.SoftDeleteUser` | apps/auth-service/src/app/modules/auth/services/user-deletion.service.ts:24-80 | equal to DoSoftDelete: all rows of the user go and the account is deactivated |
| `AuthServices.UserDeletionService.HardDeleteUser` | apps/auth-service/src/app/modules/auth/services/user-deletion.service.ts:82-124 | equal to DoHardDelete: the account goes with its rows |
| `AuthServices.TokenCleanupService.CleanupExpiredTokens` | apps/auth-service/src/app/modules/auth/services/token-cleanup.service.ts:38-67 | the batch loop ends, leaves exactly the rows unexpired at its last clock reading, and its total counts exactly the rows that went |
| `AuthServices.TokenCleanupService.CleanupUnusedTokens` | apps/auth-service/src/app/modules/auth/services/token-cleanup.service.ts:69-101 | deletes the unexpired rows unused for so many days and counts them |
| `AuthServices.EmailVerificationTokenService.GenerateVerificationToken` | apps/auth-service/src/app/modules/auth/services/email-verification-token.service.ts:16-23 | stores the account id under the new token for half an hour and changes nothing else |
| `AuthServices.EmailVerificationTokenService.VerifyToken` | apps/auth-service/src/app/modules/auth/services/email-verification-token.service.ts:25-30 | answers iff the token is stored and its time has not run out |
| `TokenRefreshGuarantees.SingleFlightAndLatch` | apps/client-mx/src/app/store/refresh-token-manager/refresh-token-manager.ts:23-62 | in every reachable state one refresh call is out iff isRefreshing, none otherwise; the failure flag is set iff the error is; the two flags never hold together |
| `TokenRefreshGuarantees.RequestsConserved` | apps/client-mx/src/app/store/refresh-token-manager/refresh-token-manager.ts:23-57 | every request that entered is exactly one of: thrown at once, leading, ended as a leader, queued, settled |
| `TokenRefreshGuarantees.RepliesInArrivalOrder` | apps/client-mx/src/app/store/refresh-token-manager/refresh-token-manager.ts:34-38 | queued requests are settled in arrival order, none twice, none dropped, and always by a replay |
| `TokenRefreshGuarantees.ReactiveEndEmptiesQueue` | apps/client-mx/src/app/store/refresh-token-manager/refresh-token-manager.ts:42-56 | a reactive refresh that ends, either way, replays all that is queued and leaves the queue empty |
| `TokenRefreshGuarantees.IdleQueueIsWhatProactiveRefreshesMissed` | apps/client-mx/src/app/store/refresh-token-manager/refresh-token-manager.ts:76-90 | when idle, the queue is exactly what the events of the run say arrived during proactive refreshes since a reactive one last ended |
| `TokenRefreshGuarantees.IdleQueueIsEmpty` | apps/client-mx/src/app/store/refresh-token-manager/refresh-token-manager.ts:34-57 | in runs in which nothing arrives during a proactive refresh, the queue is empty whenever no refresh is under way |
| `TokenRefreshGuarantees.ProactiveRefreshStrandsRequest` | apps/client-mx/src/app/store/refresh-token-manager/refresh-token-manager.ts:76-90 | a run after which a request waits although no refresh is under way and none failed |
| `TokenRefreshGuarantees.OnlyReactiveEndsSettle` | apps/client-mx/src/app/store/refresh-token-manager/refresh-token-manager.ts:115-125 | nothing but the end of a reactive refresh settles a queued request |
| `TokenRefreshGuarantees.FailureLatches` | apps/client-mx/src/app/store/refresh-token-manager/refresh-token-manager.ts:76-113 | any failed refresh, reactive or proactive, latches its error; until someone signs in no refresh is issued and every request answered 401 is thrown exactly that error |
| `TokenRefreshGuarantees.LatchHolds` | apps/client-mx/src/app/store/refresh-token-manager/refresh-token-manager.ts:26-62 | until someone signs in, a latched refresher throws the stored error at every 401 and neither a 401 nor a left-over timer issues a refresh |
| `TokenRefreshGuarantees.FollowersOfFailedLeader` | apps/client-mx/src/app/store/refresh-token-manager/refresh-token-manager.ts:49-53 | the leader alone gets the error, all its followers are replayed with their own configuration; from then on everyone answered 401 gets exactly that error |
| `TokenRefreshGuarantees.FollowerOfFailedLeaderIsReplayed` | apps/client-mx/src/app/store/refresh-token-manager/refresh-token-manager.ts:49-53 | a run in which the leader fails with a follower queued, and the follower is replayed |
| `TokenRefreshGuarantees.UnauthorizedDecides` | apps/client-mx/src/app/store/refresh-token-manager/refresh-token-manager.ts:26-40 | a request answered 401 is thrown back iff latched, queued iff a refresh is out, and leads a new refresh otherwise, with nothing else changed |
| `TokenRefreshGuarantees.AnswerDecides` | apps/client-mx/src/app/store/refresh-token-manager/refresh-token-manager.ts:42-57 | a refresh that answers replays the leader and all followers (a proactive one nobody), sets the timer ten seconds before the end or in one second, and leaves the latch open |
| `TokenRefreshGuarantees.TimerDecides` | apps/client-mx/src/app/store/refresh-token-manager/refresh-token-manager.ts:99-107 | a timer that fires refreshes iff the latch is open and no refresh is out |
| `TokenRefreshGuarantees.UserDataDecides` | apps/client-mx/src/app/store/user-manager/user-manager.ts:32-52 | user data opens the latch iff there is a user; the last timer is replaced when a lifetime is known, cleared when there is no user, and left otherwise |
| `TokenRefreshGuarantees.ScheduleIsInTime` | apps/client-mx/src/app/store/refresh-token-manager/refresh-token-manager.ts:92-107 | the timer is due before the granted token expires iff it was granted for two seconds or more |
| `TokenRefreshGuarantees.KeepAlive` | apps/client-mx/src/app/store/refresh-token-manager/refresh-token-manager.ts:64-108 | from a sign-in until a stop or a failure, whenever no refresh is out a timer is pending that is due strictly before the last granted token expires, leaked timers or not |
| `TokenRefreshGuarantees.SignOutStopsRefreshingIff` | apps/client-mx/src/app/store/refresh-token-manager/refresh-token-manager.ts:69-107 | after a sign-out no refresh is ever issued on its own iff the latch is set, or none was out and no replaced timer was pending |
| `TokenRefreshGuarantees.LeakedTimerRefreshesAfterSignOut` | apps/client-mx/src/app/store/refresh-token-manager/refresh-token-manager.ts:46-74 | a run that ends in a sign-out while idle, after which a timer left by the sign-in issues a refresh by itself |
| `ClientStore.RefreshTokenManager.HandleTokenRefresh` | apps/client-mx/src/app/store/refresh-token-manager/refresh-token-manager.ts:23-40 | throws, queues or leads, changing the fields as Enter says |
| `ClientStore.RefreshTokenManager.LeaderAnswered` | apps/client-mx/src/app/store/refresh-token-manager/refresh-token-manager.ts:42-56 | drains the queue, schedules, and lowers the flag: Succeed |
| `ClientStore.RefreshTokenManager.LeaderRejected` | apps/client-mx/src/app/store/refresh-token-manager/refresh-token-manager.ts:49-56 | drains the queue before it stores the error: Fail |
| `ClientStore.RefreshTokenManager.ProactiveAnswered` | apps/client-mx/src/app/store/refresh-token-manager/refresh-token-manager.ts:76-90 | schedules and leaves the queue alone |
| `ClientStore.RefreshTokenManager.ProcessQueue` | apps/client-mx/src/app/store/refresh-token-manager/refresh-token-manager.ts:115-125 | settles every queued promise once, in order, and empties the queue |
| `ClientStore.RefreshTokenManager.TimerFires` | apps/client-mx/src/app/store/refresh-token-manager/refresh-token-manager.ts:99-107 | starts a refresh unless latched or refreshing |
| `ClientStore.UserManager.SetUserData` | apps/client-mx/src/app/store/user-manager/user-manager.ts:32-52 | with a user: resets the latch and restarts the chain if a lifetime is known; without: stops the last timer |
| `ClientStore.AuthInterceptorService.OnErrorResponse` | apps/client-mx/src/app/http/auth-interceptor/auth-interceptor.service.ts:28-50 | only a 401 that does not opt out reaches the refresher; everything else is passed on untouched |
| `ClientStore.AuthInterceptorService.OnRefreshPromiseRejected` | apps/client-mx/src/app/http/auth-interceptor/auth-interceptor.service.ts:41-46 | clears the user and stops the last timer |
| `TokenCache.DirectDecides` | apps/auth-service/src/app/modules/auth/auth.service.ts:315-337 | direct verification accepts exactly signed tokens before exp * 1000 of users that have a row |
| `TokenCache.LookupDecides` | apps/server-nest/src/app/modules/auth/auth.service.ts:331-337 | a hit answers at once; a miss or an unreachable Redis leads to asking the auth service |
| `TokenCache.CachingDecides` | apps/server-nest/src/app/modules/auth/auth.service.ts:413-455 | a verified token is cached iff more than 8 whole seconds are left, for all but the last 3 of them |
| `TokenCache.CacheRefinesDirect` | apps/server-nest/src/app/modules/auth/auth.service.ts:326-338 | in every interleaving in which the token's user is not removed and storing takes at most 2000 ms, the answer through Redis is that of direct verification, and is the signed payload iff the token is signed, now < exp * 1000 and the user has a row |
| `TokenCache.HitAgreesIffUserExists` | apps/server-nest/src/app/modules/auth/auth.service.ts:326-338 | a hit is the payload of a signed token before exp * 1000, and agrees with direct verification iff the user still has a row |
| `TokenCache.HitForDeletedUser` | apps/server-nest/src/app/modules/auth/auth.service.ts:326-338 | a run after which the cache answers for a user who was removed and direct verification does not |
| `TokenCache.EntryIsSafeIff` | apps/server-nest/src/app/modules/auth/auth.service.ts:413-455 | an entry answers only while its token verifies iff the delay plus the milliseconds lost by rounding stay below the buffer |
| `TokenCache.TwoSecondsIsTheTolerance` | apps/server-nest/src/app/modules/auth/auth.service.ts:434-455 | 2000 ms is exactly the delay between time-to-live and SETEX that is always safe |
| `TokenCache.PromptEntryEndsEarly` | apps/server-nest/src/app/modules/auth/auth.service.ts:413-455 | stored without delay, an entry exists iff more than 8 whole seconds are left, answers until its time to live ends, and never at or after exp * 1000 - 2000 |
| `TokenCache.AuthService.VerifyToken` | apps/server-nest/src/app/modules/auth/auth.service.ts:326-338 | blank token refused; hit returned as cached; a miss accepted iff signed, before exp * 1000 and of an existing user, and then cached if it lives long enough |
| `InfiniteScroll.InfiniteScrollCoversCatalogue` | apps/client-mx/src/app/state/hooks/use-products-infinite-query.ts:18-51 | with a shared page size the pages concatenate to the whole list once, in order, in ceil(n / limit) requests, none refused |
| `InfiniteScroll.PageDecides` | apps/server-nest/src/app/modules/products/products.service.ts:12-55 | an offset is refused iff it is not below the total; otherwise the page holds the next products in order, as many as fit |
| `InfiniteScroll.CoversIff` | apps/server-nest/src/app/modules/products/products.service.ts:12-55 | with different sizes the whole list is shown iff it fits one page or the client's size divides the server's |
| `CsrfGuard.TimingSafeEqual` | apps/server-nest/src/app/common/guards/csrf.guard.ts:82-102 | the OR of XORs accepts iff the strings are equal and at most 64 long |
| `CsrfGuard.CanActivate` | apps/server-nest/src/app/common/guards/csrf.guard.ts:36-77 | which requests pass, and which of the two refusals the others get |
| `CsrfGuard.CsrfTokenRoundTrip` | apps/client-mx/src/app/http/axios-client/axios-client.ts:3-8 | any token that can be percent-encoded, every base64 token among them, is read back unchanged from its cookie among any other cookies with other names |
| `CsrfGuard.NoCsrfCookie` | apps/client-mx/src/app/http/axios-client/axios-client.ts:3-8 | without a cookie of that name there is no token, whatever the other cookies |
| `CsrfGuard.SecondFieldIsCut` | apps/client-mx/src/app/http/axios-client/axios-client.ts:7 | a cookie value with an unescaped "=" is cut there |
| `UriComponent.EncodedBase64` | apps/server-nest/src/app/modules/auth/auth.controller.ts:396-402 | in a base64 token exactly "+", "/" and "=" are escaped, as %2B, %2F and %3D |
| `UriComponent.MalformedEscapeThrows` | apps/client-mx/src/app/http/axios-client/axios-client.ts:7 | a percent sign without two hexadecimal digits behind it makes the reading throw |
| `UriComponent.DecodeEncode` | apps/client-mx/src/app/http/axios-client/axios-client.ts:7 | decodeURIComponent undoes encodeURIComponent on every string the latter accepts, non-ASCII and surrogate pairs included |
| `UriComponent.OnlyUtf8IsRead` | apps/client-mx/src/app/http/axios-client/axios-client.ts:7 | escapes are read as a character only if they are exactly its UTF-8; overlong forms, surrogates and stray octets are not |
| `UriComponent.UnescapedIff` | apps/server-nest/src/app/modules/auth/auth.controller.ts:396-402 | exactly letters, digits and - _ . ! ~ * ' ( ) are left as they are |
| `CsrfGuard.InterceptRequest` | apps/client-mx/src/app/http/axios-client/axios-client.ts:15-30 | writes the header iff the verb mutates and a non-empty token is found; rejects iff decoding throws |
| `CsrfGuard.GuardAcceptsRoundTrip` | apps/server-nest/src/app/common/guards/csrf.guard.ts:36-77 | with the token among its cookies the client's request passes the guard, for every verb but those the client leaves without the header |

## Left out

- Cryptography: signatures, SHA-256 keys and random bytes are abstract. bcrypt compares only the first 72 bytes of its input; the model hashes the whole token, so `TheftAlarmNeverRings` and `RefreshDecides` do not rest on that, but a statement that the branch *is* taken for a forged token would.
- Database errors other than "record not found", a unique violation and a failed device clean-up, and the branches that log and rethrow them. At statement grain `Abort` stands for any request that dies, a foreign-key error included.
- The users table at statement grain: `SessionInterleaving` starts a sign-in after its password check and a refresh after its signature check; what deletion does to refresh tokens is the event `RevokeUser`.
- AuthServices.TokenCleanupService.CleanupExpiredTokens: other requests do not run during its pauses; only time passes.
- AuthServices.Backend: PostgreSQL, Redis and the signing keys are one object, and each method call on it is one statement; connection handling is not modelled.
- Unicode lower-casing: `toLowerCase` is modelled on ASCII letters.
- AuthServices.AuthService.VerifyEmail: the account id is kept as a number in Redis, so the branch for stored text that is not a number is absent; `generateVerificationToken` only ever stores a number.
- Columns that no decision reads: settings, updated_at, deleted_at, original_email. Profile queries (`getUserProfile`) only read.
- Time zones: the unused-token cut-off counts days of 24 hours, as `setDate` does in UTC.
- The client's reading of lifetimes from cookies and `cookieStore`, its loading flag, and the lifetime `undefined` or fractional.
- A Redis outage is a lookup that misses or a store that does not happen; corrupted entries that fail to parse are the same.
- HTTP controllers, validators, throttling, e-mail delivery, the user interface, the cart, error-code tables and input sanitizing.
