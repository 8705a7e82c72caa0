# Verification model of the Mystic Auth backend

A Dafny model of the stateful cores of the backend, with proofs of what they promise over every sequence of
requests. `dafny verify dfyconfig.toml` checks the whole project.

| files | what they model |
|---|---|
| `SessionModel`, `SessionAccounts`, `SessionInvariant`, `SessionTheorems`, `SessionGuarantees`, `SessionOperations`, `AccountOperations`, `SessionKeys`, `SessionServer` | access and refresh tokens, the account and chain version counters in Redis, refresh-token rotation with replay detection (section 4.14.2 of RFC 9700) over `exp` (section 4.1.4 of RFC 7519), the mirrored session rows, account lifecycle |
| `RotationClaim` | the single-use marker of a refresh token on a clock finer than a second |
| `Policies`, `PolicyEvaluator`, `PolicyDecisions` | policies, conditions, the evaluation engine |
| `PolicyStore`, `PolicyTables`, `PolicyHistory`, `PolicyGuard`, `PolicyBaseline`, `PolicyCache`, `PolicyRuns`, `PolicyOperations`, `PolicyServer` | policy table, assignments, history log, grant guard, protected policies, per-user cache, and the account routes that touch them |
| `CacheRace` | one cached policy list under overlapping requests |
| `CompanyModel`, `CompanyForest`, `CompanyCrud`, `CompanyScope`, `CompanyListing`, `CompanyOperations` | the company hierarchy, the list scope against the evaluator, pagination |
| `RateLimiter`, `Lockout`, `PasswordReset` | the Redis counters and one-shot tokens |
| `Redis`, `Wrappers` | GET, INCR, EXPIRE, SET EX with a clock; optional values |

Each core comes in three layers. A specification describes one request as a step from state to state (`Do`, `Run`). A
class holds the same state in fields and has a method per operation, written in the code's own order of checks and
effects, loops included; each method is proved to take exactly its step. The lemmas are about the steps, over every
run, and so hold of the methods. The `Operations` and `PolicyDecisions` modules say of each single operation when it
is accepted and what it leaves behind, without the step's own vocabulary, and follow its effects over later runs.

## Conventions

- Every service call or request is one atomic step, except where a module models the interleaving (`CacheRace`,
  `PasswordReset`, and the overlapping reads of `PolicyStore`). The session protocol counts whole seconds;
  `RotationClaim`, `CacheRace` and `PasswordReset` use real time; the rate limiter and the lockout count any fixed
  unit. A Redis key with deadline d is readable while the clock is below d, and a token is valid while it is below `exp`.
- A token is the record of its claims and its signature is valid exactly when the server issued it. `uuid4` draws are
  counted off, so they do not repeat. A stored password hash stands for the password it was made from.
- A proposition "over every run" quantifies over all step sequences, callers and arguments, from any state that
  satisfies the stated invariant; the invariant holds initially and is proved to be kept. The invariant of
  `SessionInvariant`, on which the results about chains and rows rest, includes that the access lifetime is at
  most the refresh lifetime; the first point of the next section shows that this is needed. The results about accounts
  and single use (`SessionAccounts`) need no order.
- Policy lists are sets, since the query that builds them has no ORDER BY; the class hands them to the evaluator in
  an arbitrary order. Condition handlers other than `resource_attributes` are an arbitrary function of key and
  configuration, fixed during one request.

## Where the code does not do what one would expect

Each of these is a lemma with a concrete witness, next to a lemma that says exactly when the code is fine.

- Revocation of a session is permanent only if the access lifetime does not exceed the refresh lifetime, because the
  chain key lives for the refresh lifetime only. The settings accept any two numbers
  (`SessionGuarantees.RevokedTokenReturns`, `SessionGuarantees.RevocationHoldsExactlyWhenLifetimesAreOrdered`).
- The single-use marker of a refresh token is cut down to whole seconds, so a token can be claimed a second time in
  the last second before it expires, and its chain then has two redeemable tokens
  (`RotationClaim.ReclaimableExactlyWhenTtlIsCut`, `RotationClaim.TwoRedeemableExactlyWhenClaimedTwice`).
- Purging an account does not invalidate its cached policy list. If the address is registered again within the
  minute the new account is served the old account's policies (`PolicyRuns.OldPoliciesAreServed`,
  `PolicyCache.ServedListsAreCurrentExactlyWhenNoneGoesStale`).
- The last-holder guard of system_superuser is on the revoke route only: once the system account has handed the policy
  on, the last holder can be purged (`PolicyRuns.LastSuperuserCanBePurged`,
  `PolicyBaseline.SuperuserIsHeldExactlyWhenPurgesSpareIt`).
- The cache documentation calls the database the one source the cache can never disagree with. Under overlapping
  requests it can, for up to the time to live plus the delay of the slowest fill
  (`CacheRace.StalenessReachesTheBound`, `CacheRace.CoherentExactlyWithoutGaps`).
- A policy whose `resource_attributes` ask only for null values of fields the resource does not have grants every
  company one by one but lists none (`CompanyScope.NullPolicyGrantsAllAndListsNone`,
  `CompanyScope.ListCoversExactlyWithoutNulls`).
- A PATCH that sends a null company name or ticker breaks a NOT NULL constraint at commit and is answered with the
  ticker-already-exists error (`CompanyForest.NullNameBlamesTheTicker`,
  `CompanyForest.ConflictIsTrueExactlyWithoutNulls`).

## Model

The results come first, the operations they are about after them.

| member | source | states |
|---|---|---|
| `SessionGuarantees.ChainRevocationIsPermanent` | backend/mystic_auth/auth/token_logic/jwt_service.py:277-321 | Once a chain has been bumped, in every later run no token of the chain is current and none is ever added to it, although the chain key itself runs out |
| `SessionGuarantees.RevocationHoldsExactlyWhenLifetimesAreOrdered` | backend/mystic_auth/core/settings.py:18-19 | Ending a chain is permanent over all runs if and only if the access lifetime is at most the refresh lifetime, an order the settings do not enforce |
| `SessionGuarantees.RevokedTokenReturns` | backend/mystic_auth/auth/token_logic/jwt_service.py:285-286 | Otherwise a run from a fresh server on which a token of a revoked chain is current again: two logins, one revocation, one wait |
| `SessionGuarantees.LostForever` | backend/mystic_auth/auth/token_logic/jwt_service.py:292-321 | A token that any revocation has hit never verifies and never rotates again, in any run |
| `SessionGuarantees.RevokedRowIsFinal` | backend/mystic_auth/user_session/session_repository.py:102-139 | Nothing on the chain of a revoked session row is current, now or in any later run |
| `SessionAccounts.AccountRevocationIsPermanent` | backend/mystic_auth/auth/refresh_token_logic/refresh_token_service.py:107-125 | On every server, whatever its lifetimes: after logout-all, any password change, soft delete or purge, every token issued for the account so far is dead in every later run |
| `SessionGuarantees.OneRedeemableToken` | backend/mystic_auth/auth/refresh_token_logic/refresh_token_service.py:62-98 | A chain never has two redeemable refresh tokens, and its live row carries the jti and the expiry of the one it has |
| `SessionGuarantees.OneLiveRow` | backend/mystic_auth/user_session/session_repository.py:126-139 | A lookup of a chain's live row never meets two, so it never raises |
| `SessionAccounts.RedeemedOnce` | backend/mystic_auth/auth/token_logic/jwt_service.py:201-229 | On every server a granted rotation of a refresh token is never granted again for that token, in any later run |
| `SessionGuarantees.ReuseIsContained` | backend/mystic_auth/auth/refresh_token_logic/refresh_token_service.py:174-194 | A redeemed but current refresh token presented again ends its whole chain in every later run, and leaves every token of every other chain exactly as usable as before |
| `SessionGuarantees.EndingOneSession` | backend/mystic_auth/user_session/session_service.py:93-115 | Logout, single revocation and reuse each touch one row and one chain: that chain is dead in every later run, every other row and chain is unchanged |
| `SessionAccounts.PasswordChangeLeavesOnlyThePair` | backend/mystic_auth/api/user_routes/user_self_service_routes.py:78-101 | On every server, after a self-service password change the account's only current tokens are the new pair, all its other live rows are revoked, and other accounts are unchanged |
| `SessionGuarantees.PasswordChangeMovesTheRow` | backend/mystic_auth/api/user_routes/user_self_service_routes.py:92-97 | With ordered lifetimes, the row of the caller stays the live row of its chain and carries the new refresh token |
| `SessionAccounts.PasswordChangeIsPermanent` | backend/mystic_auth/api/user_routes/user_self_service_routes.py:83-86 | Every token the account had before the change is dead in every later run, the exempt chain's own old tokens included |
| `SessionAccounts.MintingNeedsActiveAccount` | backend/mystic_auth/auth/current_user/current_user_handler.py:49-61 | No call mints a token for a missing or deactivated account; rotation does not read the account but its token cannot be current then |
| `SessionAccounts.DormantAccountLosesItsTokens` | backend/mystic_auth/api/user_routes/user_lifecycle_routes.py:139-176 | What an account held before it was deactivated or purged stays dead after it is reactivated or its address is registered again |
| `SessionAccounts.LoginGrantsWorkingPair` | backend/mystic_auth/auth/login/login_service.py:63-83 | With positive lifetimes, the pair a login returns works: its access token verifies, its refresh token is redeemable, both on one chain of the caller's account |
| `SessionAccounts.RenewalGrantsWorkingPair` | backend/mystic_auth/auth/refresh_token_logic/refresh_token_service.py:83-100 | Rotation and a password change return a working pair on the caller's own chain |
| `SessionGuarantees.UnprovenPasswordDiesWithGoogleLogin` | backend/mystic_auth/auth/oauth2/oauth2_service.py:216-223 | After a Google login on an unverified account no password opens it, in every later run, until one is set anew |
| `SessionTheorems.NextKeeps` | backend/mystic_auth/auth/refresh_token_logic/refresh_token_service.py:23-104 | Every service call keeps the session invariant: versions bound, key deadlines outlive tokens, jtis and chains are unique, rows mirror the current tokens of active accounts |
| `SessionTheorems.RunKeeps` | backend/mystic_auth/user_session/session_service.py:34-218 | The session invariant holds along every run |
| `SessionInvariant.InitialHolds` | backend/mystic_auth/core/settings.py:18-19 | A server that has issued nothing satisfies the session invariant if the lifetimes are ordered |
| `SessionTheorems.RunIsLater` | backend/mystic_auth/auth/token_logic/jwt_service.py:266-290 | Along every run keys are never forgotten, account versions never fall, and new tokens appear only on new or live chains |
| `SessionAccounts.RunStaysFree` | backend/mystic_auth/auth/token_logic/jwt_service.py:201-290 | On every server, along every run: account counters never fall, redeemed tokens stay marked for life, and only active accounts have tokens level with their counter |
| `SessionAccounts.InitialIsFree` | backend/mystic_auth/core/settings.py:18-19 | A server that has issued nothing satisfies that, with no order on the lifetimes |
| `SessionKeys.NamesAreInjective` | backend/mystic_auth/auth/token_logic/jwt_service.py:23-34 | Different version and marker keys never share a Redis name, whatever the e-mail address contains |
| `RotationClaim.ClaimedAtMostTwice` | backend/mystic_auth/auth/token_logic/jwt_service.py:220-229 | On a real-valued clock a refresh token is claimed at most twice, the second time only in the last second before it expires |
| `RotationClaim.ReclaimableExactlyWhenTtlIsCut` | backend/mystic_auth/auth/token_logic/jwt_service.py:221-225 | A second claim is possible if and only if the first came more than one second before expiry with a fractional rest |
| `RotationClaim.ClaimedOnceOnWholeSeconds` | backend/mystic_auth/auth/token_logic/jwt_service.py:201-229 | On whole seconds every timeline of presentations claims a token at most once |
| `RotationClaim.TwoRedeemableExactlyWhenClaimedTwice` | backend/mystic_auth/auth/refresh_token_logic/refresh_token_service.py:72-98 | A chain ends up with two redeemable refresh tokens if and only if both claims of one token succeeded |
| `PolicyEvaluator.DecisionExplains` | backend/mystic_auth/authorization/evaluators/policy_evaluator.py:75-153 | A decision allows if and only if some policy grants, and its three denial reasons are told apart exactly |
| `PolicyTables.RunKeepsTables` | backend/mystic_auth/api/pbac_routes/policy_crud_routes.py:25-182 | Over every run names stay unique, ids are never reused, no assignment dangles, and every history entry stands for a definition that carries the entry's own name |
| `PolicyTables.DecisionIsGuarded` | backend/mystic_auth/api/pbac_routes/policy_crud_routes.py:103-149 | Whatever a request writes has passed its guards: free name, kept baseline name and active flag, grant within what the caller was shown, last-holder check |
| `PolicyTables.EveryChangeIsAuthored` | backend/mystic_auth/authorization/repositories/policy_repository.py:55-181 | The policy table changes only together with the log, by one appended entry whose recorded author made the request and had, the conditions of that request holding, the permission for that kind of change |
| `PolicyTables.EveryAssignmentHasACause` | backend/mystic_auth/api/pbac_routes/policy_assignment_routes.py:27-107 | An assignment appears only by a permitted assign request or as the baseline policy of a new account, and disappears only by a permitted revocation, with its policy or with its account; permissions are those of the request itself |
| `PolicyTables.ChangedFieldsIsTheFullDiff` | backend/mystic_auth/authorization/repositories/policy_repository.py:117-121 | The recorded changed columns are exactly those in which the two snapshots differ |
| `PolicyHistory.HistoryReplaysToTheTable` | backend/mystic_auth/authorization/repositories/policy_repository.py:55-181 | Over every run, folding the log over the seeded table gives the policy table, and every entry fits the table it was written on |
| `PolicyHistory.HistoryReplaysFromAFreshStore` | backend/mystic_auth/authorization/repositories/policy_repository.py:55-181 | From any store with an empty log, every later table is the fold of the log since |
| `PolicyHistory.ConsecutiveEntriesChain` | backend/mystic_auth/authorization/repositories/policy_repository.py:55-181 | Of two consecutive entries of one policy the later starts from the snapshot the earlier ended on; nothing follows a deletion and nothing is created twice |
| `PolicyHistory.FirstEntryStartsTheChain` | backend/mystic_auth/authorization/repositories/policy_repository.py:55-77 | The first entry of a policy creates it, or starts from its seeded row |
| `PolicyHistory.LastEntryIsTheRow` | backend/mystic_auth/authorization/repositories/policy_repository.py:153-181 | The last entry of a policy decides whether and with what content it is in the table |
| `PolicyHistory.RollbackRestoresTheEntry` | backend/mystic_auth/api/pbac_routes/policy_history_routes.py:129-167 | An accepted rollback leaves the policy equal to the chosen entry's definition under the name it had, changes no other policy or assignment, and appends one entry |
| `PolicyHistory.RollbackUndoesUpdate` | backend/mystic_auth/api/pbac_routes/policy_history_routes.py:108-127 | Rolling back to an entry that shows the policy as it was undoes an accepted edit: the whole table is what it was |
| `PolicyHistory.ComparingNeighboursShowsTheEdit` | backend/mystic_auth/api/pbac_routes/policy_history_routes.py:53-96 | Comparing an edit with the entry before it reports exactly its recorded changes; an empty report means equal definitions |
| `PolicyGuard.NoPowerIsCreated` | backend/mystic_auth/authorization/services/authorization_service.py:288-335 | Given that the baseline policy exists at the start: over every run, with cached and in-flight lists however stale, a guarded action and resource type carried by a policy in use was carried at the start, on that type or on all of them |
| `PolicyGuard.WildcardOnlyFromWildcard` | backend/mystic_auth/authorization/services/authorization_service.py:327-335 | Under the same premise and an empty cache, a guarded action on every resource type is carried only if it was from the start |
| `PolicyGuard.RunStaysContained` | backend/mystic_auth/authorization/services/authorization_service.py:288-335 | The invariant behind it: policies in use, cached lists and lists still being read all stay within the cover |
| `PolicyGuard.EntitledIsWithin` | backend/mystic_auth/authorization/services/authorization_service.py:327-335 | A caller shown only covered policies can grant only covered powers |
| `PolicyBaseline.BaselineSurvivesEveryRun` | backend/mystic_auth/api/pbac_routes/policy_crud_routes.py:121-142 | Over every run a baseline policy keeps its row, its name and its active flag |
| `PolicyBaseline.SuperuserIsHeldExactlyWhenPurgesSpareIt` | backend/mystic_auth/api/pbac_routes/policy_assignment_routes.py:91-105 | system_superuser has a holder all along a run if and only if no purge request on it that the route accepts hits the only holder; the policy routes never take the last one |
| `PolicyBaseline.PurgeKeepsASuperuserExactlyWhenAnotherHolds` | backend/mystic_auth/api/user_routes/user_lifecycle_routes.py:102-153 | A purge request leaves system_superuser without a holder exactly when it is accepted (permitted, target neither a system account nor the caller) and its target is the only holder |
| `PolicyRuns.LastSuperuserCanBePurged` | backend/mystic_auth/api/user_routes/user_lifecycle_routes.py:115-153 | A run of accepted requests that ends without a superuser: the system account hands its assignment over and then purges the heir |
| `PolicyRuns.SeededHasOneSuperuser` | backend/mystic_auth/api/pbac_routes/policy_assignment_routes.py:91-105 | Such runs start from a seeded store in which the system account is the only superuser |
| `PolicyCache.ServedListsAreCurrent` | backend/mystic_auth/authorization/repositories/policy_repository.py:184-212 | Over every run of whole requests without account purges, every list the cache serves is what the query would return at that moment |
| `PolicyCache.ServedListsAreCurrentExactlyWhenNoneGoesStale` | backend/mystic_auth/authorization/repositories/policy_repository.py:184-212 | Over every run of whole requests, purges and sign-ups included, the cache serves only current lists if and only if no purge on it hits an account with a list still cached and no sign-up an address with anything still cached |
| `PolicyCache.LeaveIsCoherentExactlyWhenNothingIsCached` | backend/mystic_auth/api/user_routes/user_lifecycle_routes.py:152 | Removing an account keeps the cache coherent if and only if no non-empty list is still cached for it |
| `PolicyCache.JoinIsCoherentExactlyWhenNothingIsCached` | backend/mystic_auth/authorization/repositories/policy_repository.py:260-265 | A sign-up keeps it coherent if and only if nothing is cached for the address, or the baseline policy would not be listed anyway |
| `PolicyCache.ReRegistrationCanSeeTheOldPolicies` | backend/mystic_auth/authorization/repositories/policy_repository.py:198-200 | After an accepted purge of an account with a cached list, a sign-up at its address within the deadline is served that list |
| `PolicyRuns.OldPoliciesAreServed` | backend/mystic_auth/authorization/repositories/policy_repository.py:198-200 | The whole run: an account reads, is purged and signs up again within the minute; it is served a policy nobody gave it |
| `CacheRace.ReturnedListsAreBarelyStale` | backend/mystic_auth/authorization/caching/authorization_cache_service.py:122-164 | With get, query, fill, commit and invalidation interleaved at will, a returned list is what the query would have returned less than 60 s plus the longest fill delay ago |
| `CacheRace.StalenessReachesTheBound` | backend/mystic_auth/authorization/caching/authorization_cache_service.py:23-27 | The bound is tight: for every delay and slack a run on which a list is served that long after the database stopped holding it |
| `CacheRace.CoherentExactlyWithoutGaps` | backend/mystic_auth/authorization/caching/authorization_cache_service.py:105-118 | Over every interleaving, the live entry agrees with the database at every instant if and only if no commit changes the list while an entry is live and no fill writes an outdated list |
| `CompanyForest.RunKeepsForest` | backend/app/companies/company_crud.py:83-207 | Over every run parents exist and never loop, every row's group root is its topmost ancestor, tickers stay unique |
| `CompanyForest.ConflictIsTrueExactlyWithoutNulls` | backend/app/companies/company_crud.py:165-174 | The ticker-already-exists answer to an update is true on every table if and only if the update sends neither a null name nor a null ticker |
| `CompanyForest.NullNameBlamesTheTicker` | backend/app/companies/company_crud.py:170-174 | The only company there is, renamed to null, is told that its ticker is taken |
| `CompanyForest.CreateConflictIsTrue` | backend/app/companies/company_crud.py:110-121 | Create gives that answer if and only if the parent is no problem and the ticker is taken |
| `CompanyForest.GroupRootSelectsOneTree` | backend/app/companies/company_crud.py:83-90 | Equality on the stored group root holds exactly for the companies below that top company |
| `CompanyForest.TopmostIsUnique` | backend/app/companies/company_crud.py:83-90 | A company has one topmost ancestor |
| `CompanyForest.ClimbIsShort` | backend/app/companies/company_crud.py:126-141 | Walking up the parents visits each company at most once, so it ends |
| `CompanyScope.ListedMeansNamed` | backend/app/companies/company_crud.py:236-242 | The OR clause is never built empty, and the list shows exactly the rows the scope names |
| `CompanyScope.MissedOnlyThroughNulls` | backend/app/access/scope.py:56-98 | A company the evaluator grants can be missing from the list only through a policy that asks for nothing but null attributes |
| `CompanyScope.ListCoversExactlyWithoutNulls` | backend/app/access/scope.py:56-98 | Every granted company is listed if and only if no applicable policy asks for nothing but null attributes, or another opens the whole list |
| `CompanyScope.NullPolicyGrantsAllAndListsNone` | backend/app/access/scope.py:56-98 | The plainest such policy grants every company and lists none |
| `CompanyScope.DocumentedShapesAgree` | backend/app/access/scope.py:9-14 | On the documented condition shapes the list and the per-company decision agree for every company |
| `CompanyScope.GroupScopeListsOneTree` | backend/app/access/scope.py:16-18 | In every reachable table a group scope lists exactly one tree |
| `CompanyListing.PagesTile` | backend/app/companies/company_crud.py:257-297 | For any page size, filter, sort column and direction, page after page gives each company in scope exactly once, in order, and as many as the count says |
| `CompanyListing.ArrangementIsUnique` | backend/app/companies/company_crud.py:284-294 | The id tie-break leaves the order no freedom, null parent names included |
| `CompanyListing.JoinKeepsTheCount` | backend/app/companies/company_crud.py:280-314 | The self-join neither drops nor repeats a company, so the unjoined count is the length of the list |
| `CompanyListing.TotalIsRootsPlusSubsidiaries` | backend/app/companies/company_crud.py:219-227 | Every visible company is a root or a subsidiary, never both |
| `RateLimiter.FixedWindowBound` | backend/mystic_auth/auth/security/rate_limiter_service.py:24-35 | For every timeline and every n, n window lengths let at most (n + 1) times the maximum through on a key |
| `RateLimiter.FixedWindowBoundIsReached` | backend/mystic_auth/auth/security/rate_limiter_service.py:24-35 | The bound is the best possible, for every n |
| `RateLimiter.RecordKeepsBalance` | backend/mystic_auth/auth/security/rate_limiter_service.py:30-35 | One request keeps the books of its key: a new window exactly when the last one is over, at most the maximum from each |
| `Lockout.LockedExactlyWhenFailuresReachTheMaximum` | backend/mystic_auth/auth/security/login_protection_service.py:46-50 | Locked if and only if the failures recorded since the last clearing or expiry reach the maximum |
| `Lockout.CounterMirrorsTheLog` | backend/mystic_auth/auth/security/login_protection_service.py:23-40 | The counter and its deadline are the standing run of failures: how many, and when the first runs out |
| `Lockout.LockEndsExactlyOnTime` | backend/mystic_auth/auth/security/login_protection_service.py:36-40 | Whatever is attempted during a lock, it holds up to one lockout time after the first failure of its run and not beyond |
| `PasswordReset.AtMostOneUpdate` | backend/mystic_auth/auth/password_logic/password_reset_service.py:108-156 | Under every interleaving, entry present plus requests holding it plus finished updates is at most one, so a link changes the password at most once |
| `PasswordReset.GivingBackGainsNoTime` | backend/mystic_auth/auth/password_logic/password_reset_service.py:91-100 | Giving a link back never pushes its entry past the first deadline and the token's expiry |
| `PasswordReset.RestoredNeverOutlivesTheLink` | backend/mystic_auth/auth/password_logic/password_reset_service.py:91-100 | A restored entry is gone by the time the token expires, in every later run |
| `PasswordReset.GivenBackIsRedeemableExactlyWhileWholeSecondsRemain` | backend/mystic_auth/auth/password_logic/password_reset_service.py:95-100 | A retry with a returned link succeeds if and only if it comes within the whole seconds that were left and the token still decodes |
| `SessionOperations.PairKeepsItsKinds` | backend/mystic_auth/auth/token_logic/jwt_service.py:163-168 | In every later run the refresh token of a granted pair opens no route, and its access token neither verifies as a refresh token nor rotates, logs out or revokes anything |
| `SessionOperations.KindDecides` | backend/mystic_auth/auth/token_logic/jwt_service.py:163-168 | Only an access token signs its bearer in, only a refresh token can be rotated |
| `SessionOperations.MarkedVerifiesAsNothing` | backend/mystic_auth/auth/token_logic/jwt_service.py:157-158 | A token whose marker lives verifies as neither kind |
| `SessionOperations.RedeemedVerifiesAsNothing` | backend/mystic_auth/auth/token_logic/jwt_service.py:157-158 | On every server, a redeemed refresh token verifies as nothing in any later run |
| `SessionOperations.PairLastsItsLifetimes` | backend/mystic_auth/auth/token_logic/jwt_service.py:50-110 | A granted pair left alone works for exactly its two lifetimes, in minutes: the access token for one, the refresh token for the other |
| `SessionOperations.RotationIsGrantedExactlyOnce` | backend/mystic_auth/auth/refresh_token_logic/refresh_token_service.py:23-104 | A rotation is granted if and only if the token is a current, unredeemed refresh token; anything else is refused and, unless it is a reuse, changes nothing |
| `SessionOperations.MarkerLastsAsLongAsTheToken` | backend/mystic_auth/auth/token_logic/jwt_service.py:218-229 | On whole seconds the marker of a redeemed token lives until exactly the expiry of the token |
| `SessionOperations.RotationMovesTheRow` | backend/mystic_auth/user_session/session_service.py:60-90 | A granted rotation moves the live row of the presented token to the new refresh token and touches no other row |
| `SessionOperations.RotationBackfillsTheRow` | backend/mystic_auth/user_session/session_service.py:60-90 | If the presented token has no row, rotation writes one for the account of the token |
| `SessionOperations.LoginAddsARow` | backend/mystic_auth/auth/login/login_service.py:67-83 | A granted login adds one live row that carries its refresh token, on a chain no token had before |
| `SessionOperations.LogoutEndsTheSession` | backend/mystic_auth/user_session/session_service.py:93-115 | Logging out with the refresh token of a live row revokes that row and no other; no token of the session is current in any later run, every other chain is as usable as before |
| `SessionOperations.LogoutEndsWhatCouldBeRenewed` | backend/mystic_auth/auth/logout/logout_handler.py:20-39 | Whoever can still rotate a token can log out with it, and then nothing of its session is current in any later run |
| `SessionOperations.OtherLogoutChangesNothing` | backend/mystic_auth/user_session/session_service.py:93-115 | Any other logout, with an access token, an expired one or one without a live row, changes nothing |
| `SessionOperations.RevokeSessionEndsTheSession` | backend/mystic_auth/auth/manage_sessions/session_revoke_handler.py:21-72 | A signed-in caller ends a live session of its own account other than its current one: row revoked, chain dead in every later run, the rest untouched |
| `SessionOperations.OtherRevokeSessionIsRefused` | backend/mystic_auth/auth/manage_sessions/session_revoke_handler.py:21-72 | Every other single revocation is refused and changes nothing |
| `SessionOperations.ReuseEndsTheSession` | backend/mystic_auth/auth/refresh_token_logic/refresh_token_service.py:174-194 | A redeemed, still current refresh token presented again is refused, its live row is revoked, and its chain is dead in every later run |
| `SessionOperations.SigningOutEverywhere` | backend/mystic_auth/auth/refresh_token_logic/refresh_token_service.py:107-154 | Logout-all, a password set by somebody else and a soft delete revoke exactly the live rows of the account and kill all its tokens for every later run |
| `AccountOperations.LoginOpensExactlyWithThePassword` | backend/mystic_auth/auth/login/login_service.py:21-87 | A login is granted if and only if the account exists, is verified and active, and the secret is its stored password; a refused one changes nothing |
| `AccountOperations.NewPasswordOpens` | backend/mystic_auth/auth/login/login_service.py:21-87 | Once a password is set, by change, administrator or reset link, or proven after a sign-up, a login to the verified and active account is granted with it and nothing else, in every later run until a call that can set it anew |
| `AccountOperations.SignupPasswordOpens` | backend/mystic_auth/auth/signup/signup_service.py:33-77 | After sign-up and verification the chosen password, and no other, opens the account, over the same runs |
| `AccountOperations.UnprovenAddressStaysShut` | backend/mystic_auth/auth/login/login_service.py:46-48 | Until an address is proven no secret opens it, in any run, whatever passwords are set for it |
| `AccountOperations.DeletedAccountStaysShut` | backend/mystic_auth/api/user_routes/user_lifecycle_routes.py:46-98 | In every run without a reactivation or purge of it, a soft-deleted account is closed to every secret, to Google and to every token |
| `AccountOperations.PasswordSurvivesDeletion` | backend/mystic_auth/user_crud/user_crud_modules/user_lifecycle_crud.py:34-48 | A reactivated account opens with the password it had before the deletion and with no other |
| `AccountOperations.ChangeIsGrantedExactlyWithTheOldPassword` | backend/mystic_auth/api/user_routes/user_self_service_routes.py:48-76 | A self-service change is granted if and only if the caller is signed in, gives the stored password unless there is none, and wants a different one that is long and mixed |
| `AccountOperations.ChangeStoresThePassword` | backend/mystic_auth/api/user_routes/user_self_service_routes.py:75-76 | A granted change stores the wanted password in the caller's account only; a refused one changes nothing |
| `AccountOperations.SettingIsDoneExactlyForANewStrongPassword` | backend/mystic_auth/api/user_routes/user_management_update_routes.py:47-83 | An administrator's edit or a reset link stores a password if and only if it is new, long and mixed; only the edit spares the system account |
| `AccountOperations.StrongMeans` | backend/mystic_auth/auth/password_logic/password_service.py:47-58 | Accepted passwords have eight characters or more, among them an upper case letter, a lower case letter and a digit |
| `AccountOperations.SignupAddsAnUnprovenAccount` | backend/mystic_auth/auth/signup/signup_service.py:33-77 | A sign-up succeeds exactly for an unused address and adds one active, unverified account with the given password |
| `AccountOperations.VerifyingProvesTheAddress` | backend/mystic_auth/auth/verify_account/user_verification_service.py:13-29 | Verification succeeds exactly for an unverified account and changes only that flag |
| `AccountOperations.RemovingAnAccount` | backend/mystic_auth/api/user_routes/user_lifecycle_routes.py:46-153 | Soft delete and purge are done exactly for another account than the caller's that is not the system account; the first clears and sets two flags, the second removes the account and exactly its rows |
| `AccountOperations.ReactivatingUndoesDeleting` | backend/mystic_auth/api/user_routes/user_lifecycle_routes.py:157-187 | Exactly a deleted account is reactivated, and reactivating right after the deletion restores all accounts |
| `AccountOperations.GoogleOpensEveryActiveAccount` | backend/mystic_auth/auth/oauth2/oauth2_service.py:128-255 | A Google login is granted for every address but the system account's and a deactivated one; it registers or verifies the address, and drops the password of an account that was unverified |
| `AccountOperations.OtherAccountsAreUntouched` | backend/mystic_auth/api/user_routes/user_self_service_routes.py:41-103 | No call changes an account it does not name |
| `AccountOperations.ChangeBackfillsTheRow` | backend/mystic_auth/user_session/session_service.py:140-163 | A password change on a chain without a live row writes one for the caller |
| `PolicyDecisions.SatisfiedExactlyWhenNothingRefuses` | backend/mystic_auth/authorization/conditions/condition_evaluation_service.py:37-68 | Conditions are satisfied if and only if each has a registered handler that answers yes and each listed attribute is on the resource with its value |
| `PolicyDecisions.HandlerDecides` | backend/mystic_auth/authorization/conditions/condition_registry.py:35-41 | A condition with a registered key is decided by its handler, any other is refused |
| `PolicyDecisions.AttributesDecide` | backend/mystic_auth/authorization/conditions/condition_types/resource_attributes_condition.py:14-19 | `resource_attributes` compares field by field, a missing field counting as null; an empty list asks for nothing, not even a resource |
| `PolicyDecisions.FailedKeysComeInOrder` | backend/mystic_auth/authorization/conditions/condition_evaluation_service.py:62-66 | The failed keys of two stretches of conditions are those of the first followed by those of the second |
| `PolicyDecisions.OneConditionFailsUnderItsKey` | backend/mystic_auth/authorization/conditions/condition_evaluation_service.py:65-66 | A single condition is reported under its own key if it fails and not at all if it holds |
| `PolicyDecisions.NamesComeInOrder` | backend/mystic_auth/authorization/evaluators/policy_evaluator.py:93-115 | The names reported for two stretches of policies are those of the first followed by those of the second |
| `PolicyDecisions.FailedIsRecordedForTheRejected` | backend/mystic_auth/authorization/evaluators/policy_evaluator.py:93-115 | Failed conditions are recorded for exactly the rejected policies, each with its failed keys, the last of one name counting |
| `PolicyDecisions.ReportsAreComplete` | backend/mystic_auth/authorization/evaluators/policy_evaluator.py:93-115 | A policy is reported as matched if and only if it grants, as rejected if and only if it applies without granting, and all are listed as evaluated in order |
| `PolicyDecisions.GrantingMeans` | backend/mystic_auth/authorization/evaluators/policy_evaluator.py:93-115 | A policy grants if and only if it names the action, covers the resource type and has its conditions satisfied |
| `PolicyDecisions.RefusedEverywhereIsDenied` | backend/mystic_auth/authorization/evaluators/policy_evaluator.py:75-130 | If every policy carries a condition whose handler refuses, the decision is a denial |
| `PolicyOperations.CreateAnswers` | backend/mystic_auth/api/pbac_routes/policy_crud_routes.py:25-56 | The answer to a create request: permission, well-formed conditions, free name, grant guard, in that order |
| `PolicyOperations.CreateStoresTheSubmission` | backend/mystic_auth/authorization/repositories/policy_repository.py:55-77 | An accepted create stores every submitted field, conditions and description included, active and under an unused id, and touches nothing else |
| `PolicyOperations.UpdateAnswers` | backend/mystic_auth/api/pbac_routes/policy_crud_routes.py:103-149 | The answer to an update of an existing policy: permission, conditions, baseline name, name clash, baseline active flag, grant guard, in that order |
| `PolicyOperations.UpdateStoresTheEdit` | backend/mystic_auth/authorization/repositories/policy_repository.py:94-151 | An accepted update writes its policy and no other, and no assignment or account |
| `PolicyOperations.LastSentValueIsStored` | backend/mystic_auth/authorization/repositories/policy_repository.py:107-115 | The value stored in a column is the last one sent for it |
| `PolicyOperations.RollbackAnswers` | backend/mystic_auth/api/pbac_routes/policy_history_routes.py:100-167 | The answer to a rollback, and the restored definition: what the entry shows after its change, or before it for a deletion |
| `PolicyOperations.ComparisonIsOfOnePolicy` | backend/mystic_auth/api/pbac_routes/policy_history_routes.py:53-96 | Two entries are compared if and only if both exist and bear the requested name |
| `PolicyOperations.DeleteRemovesThePolicy` | backend/mystic_auth/api/pbac_routes/policy_crud_routes.py:159-182 | Exactly the three baseline names are protected; any other policy goes with exactly its own assignments |
| `PolicyOperations.AssignAddsTheRow` | backend/mystic_auth/api/pbac_routes/policy_assignment_routes.py:27-75 | The answer to an assignment, and its one new row; the caller could have granted the guarded actions of the policy itself |
| `PolicyOperations.RevokeRemovesTheRow` | backend/mystic_auth/api/pbac_routes/policy_assignment_routes.py:79-124 | The answer to a revocation, and the one row it takes; the only holder of the superuser policy keeps it |
| `PolicyOperations.RevokeUndoesAssign` | backend/mystic_auth/api/pbac_routes/policy_assignment_routes.py:27-124 | Assigning and revoking again restores the assignments |
| `PolicyOperations.AssignedPolicyIsShownAtOnce` | backend/mystic_auth/authorization/repositories/policy_repository.py:246-287 | A policy given to an account that did not hold it is on its list at once if and only if it is active |
| `PolicyOperations.RevokedPolicyIsHiddenAtOnce` | backend/mystic_auth/authorization/repositories/policy_repository.py:290-314 | A policy taken from an account is off its list at once |
| `PolicyOperations.DeletedPolicyIsHiddenAtOnce` | backend/mystic_auth/authorization/repositories/policy_repository.py:154-181 | A deleted policy is off every list at once |
| `PolicyOperations.EditShowsAtOnce` | backend/mystic_auth/authorization/repositories/policy_repository.py:94-151 | After an accepted edit nobody is shown an inactive policy, and every holder is shown the edited definition if it is active |
| `PolicyOperations.ReadIsCachedForAMinute` | backend/mystic_auth/authorization/caching/authorization_cache_service.py:23-27 | A list read from the database is served from the cache for sixty seconds and no longer |
| `PolicyOperations.PurgeRemovesTheAccount` | backend/mystic_auth/api/user_routes/user_lifecycle_routes.py:102-153 | The answer to a purge, which takes the account and exactly its assignments |
| `PolicyOperations.DeactivationClearsTheFlag` | backend/mystic_auth/api/user_routes/user_lifecycle_routes.py:46-98 | The answer to a soft delete, which clears the active flag and nothing else |
| `PolicyOperations.ReactivationSetsTheFlag` | backend/mystic_auth/api/user_routes/user_lifecycle_routes.py:157-187 | The answer to a reactivation, which sets the active flag and nothing else |
| `PolicyOperations.SystemRoleTakesTwoPermissions` | backend/mystic_auth/api/user_routes/user_management_update_routes.py:87-119 | The system role is given if and only if the caller has both permissions and the target exists without it; no other flag changes |
| `PolicyOperations.OnlyPromotionMakesSystem` | backend/mystic_auth/api/user_routes/user_management_update_routes.py:101-115 | No other request makes a system account, and this one only with the second permission |
| `PolicyOperations.SignUpAddsTheAccount` | backend/mystic_auth/auth/signup/signup_service.py:35-66 | A sign-up adds one active account with an id of its own that holds the baseline policy, if there is one, and nothing else |
| `CompanyOperations.CreateWritesWhatIsSent` | backend/app/companies/company_crud.py:83-123 | An accepted create adds one row with the sent name, ticker and parent under an unused id, and changes no other |
| `CompanyOperations.CreateAnswers` | backend/app/companies/company_crud.py:83-123 | A create is refused for a missing parent, then for a taken ticker, and otherwise accepted |
| `CompanyOperations.UpdateWritesWhatIsSent` | backend/app/companies/company_crud.py:126-176 | An accepted update leaves the row with the sent name, ticker and parent where sent, the old ones where not, and every other row as before; a refused one changes nothing |
| `CompanyOperations.UpdateAnswers` | backend/app/companies/company_crud.py:126-176 | The reasons an update is refused for, in the order of the code |
| `CompanyOperations.DeleteRemovesTheRow` | backend/app/companies/company_crud.py:179-207 | Exactly a company without subsidiaries is deleted, and only its row goes |
| `CompanyOperations.DeleteUndoesCreate` | backend/app/companies/company_crud.py:179-207 | Deleting what was just created restores the rows |
| `CompanyOperations.SelectedMeans` | backend/app/companies/company_crud.py:219-254 | Listed are the rows the scope names, the search finds, and that have no parent for roots and one for subsidiaries |
| `CompanyOperations.ListIsInTheOrderAskedFor` | backend/app/companies/company_crud.py:284-294 | The list is ordered by the column it was asked to be sorted by, id breaking ties, in the asked direction |
| `CompanyOperations.ParentlessComeLast` | backend/app/companies/company_crud.py:280-294 | Sorted by parent name, companies without a parent come last ascending and first descending |
| `RateLimiter.LetThroughExactlyUpToTheMaximum` | backend/mystic_auth/auth/security/rate_limiter_service.py:24-35 | The n-th request on a key in a window passes if and only if n is at most the maximum, and a window ends exactly one length after its first request |
| `PasswordReset.CrashLosesTheLink` | backend/mystic_auth/auth/password_logic/password_reset_service.py:108-156 | A redemption that breaks off while it holds the entry takes the link with it: no later run changes the password |
| `SessionServer.Server.CreateToken` | backend/mystic_auth/auth/token_logic/jwt_service.py:50-110 | Mints a token with the versions current at that moment and a fresh jti, and changes nothing else |
| `SessionServer.Server.VerifyToken` | backend/mystic_auth/auth/token_logic/jwt_service.py:138-180 | Accepts exactly the issued, unexpired, unmarked tokens of current version and expected kind |
| `SessionServer.Server.IsCurrentVersion` | backend/mystic_auth/auth/token_logic/jwt_service.py:292-321 | Compares both embedded versions with the counters, a missing counter reading as 0 |
| `SessionServer.Server.ClaimJtiForRotation` | backend/mystic_auth/auth/token_logic/jwt_service.py:201-229 | Succeeds for exactly the first claim while the marker lives, and sets the marker for the token's remaining life |
| `SessionServer.Server.BumpAccountVersion` | backend/mystic_auth/auth/token_logic/jwt_service.py:266-275 | Increments the counter that never expires |
| `SessionServer.Server.BumpChainVersion` | backend/mystic_auth/auth/token_logic/jwt_service.py:277-290 | Increments the chain counter and re-arms its refresh-lifetime deadline |
| `SessionServer.Server.RotateSession` | backend/mystic_auth/user_session/session_service.py:60-90 | Moves the row of the old jti to the new token, or backfills a row |
| `SessionServer.Server.RotateSessionByChain` | backend/mystic_auth/user_session/session_service.py:140-163 | Moves the live row of a chain to the new token, or backfills a row |
| `SessionServer.Server.RevokeAllSessions` | backend/mystic_auth/user_session/session_repository.py:142-166 | Revokes exactly the user's live rows, sparing those of the exempt chain |
| `SessionServer.Server.RevokeAllTokensForUser` | backend/mystic_auth/auth/refresh_token_logic/refresh_token_service.py:107-154 | One account bump and the matching row update |
| `SessionServer.Server.RevokeChainForUser` | backend/mystic_auth/auth/refresh_token_logic/refresh_token_service.py:157-171 | One chain bump and the matching row update |
| `SessionServer.Server.RefreshTokens` | backend/mystic_auth/auth/refresh_token_logic/refresh_token_service.py:23-104 | Takes exactly the modelled refresh step: quiet refusal, containment of reuse, or rotation |
| `SessionServer.Server.Login` | backend/mystic_auth/auth/login/login_service.py:21-87 | Takes exactly the modelled login step, gates in the order of the code |
| `SessionServer.Server.GoogleLogin` | backend/mystic_auth/auth/oauth2/oauth2_service.py:128-255 | Takes exactly the modelled Google step: refuses the system account, registers or verifies, clears an unproven password, gates on active |
| `SessionServer.Server.Logout` | backend/mystic_auth/auth/logout/logout_handler.py:20-39 | Takes exactly the modelled logout step: bumps the chain of the row the jti still points to, if that row is live |
| `SessionServer.Server.LogoutAll` | backend/mystic_auth/auth/logout_all/logout_all_handler.py:20-45 | Takes exactly the modelled logout-all step |
| `SessionServer.Server.IsSignedIn` | backend/mystic_auth/auth/current_user/current_user_handler.py:25-61 | Lets through exactly verified access tokens of existing active accounts |
| `SessionServer.Server.RevokeSession` | backend/mystic_auth/auth/manage_sessions/session_revoke_handler.py:21-72 | Takes exactly the modelled single-revocation step: own rows only, live ones, never the caller's current chain |
| `SessionServer.Server.ChangePassword` | backend/mystic_auth/api/user_routes/user_self_service_routes.py:41-103 | Takes exactly the modelled self-service password change |
| `SessionServer.Server.SetPassword` | backend/mystic_auth/api/user_routes/user_management_update_routes.py:47-83 | Takes exactly the modelled administrator's password change; a redeemed reset link ends in the same calls without the system guard |
| `SessionServer.Server.SoftDelete` | backend/mystic_auth/api/user_routes/user_lifecycle_routes.py:46-98 | Takes exactly the modelled soft delete |
| `SessionServer.Server.Purge` | backend/mystic_auth/api/user_routes/user_lifecycle_routes.py:102-153 | Takes exactly the modelled purge; the rows of the account go with it |
| `SessionServer.Server.Reactivate` | backend/mystic_auth/user_crud/user_crud_modules/user_lifecycle_crud.py:34-48 | Takes exactly the modelled reactivation |
| `SessionServer.Server.Signup` | backend/mystic_auth/auth/signup/signup_service.py:33-77 | Takes exactly the modelled sign-up |
| `SessionServer.Server.VerifyAccount` | backend/mystic_auth/auth/verify_account/user_verification_service.py:13-29 | Takes exactly the modelled account verification |
| `RotationClaim.Markers.ClaimJtiForRotation` | backend/mystic_auth/auth/token_logic/jwt_service.py:201-233 | The SET NX with the truncated time to live is one step of that machine, and touches no other token's marker |
| `PolicyEvaluator.EvaluateDetailed` | backend/mystic_auth/authorization/evaluators/policy_evaluator.py:75-153 | The loop computes the modelled decision: the matched, rejected and failed reports complete and in order, the verdict and the reason |
| `PolicyEvaluator.EvaluateConditions` | backend/mystic_auth/authorization/conditions/condition_evaluation_service.py:37-68 | Satisfied if and only if every condition holds, an unknown key failing; every failed key is reported, in order |
| `PolicyStore.FindByName` | backend/mystic_auth/authorization/repositories/policy_repository.py:80-82 | Finds a policy of the name exactly when there is one |
| `PolicyServer.Server.GetActivePoliciesForUser` | backend/mystic_auth/authorization/repositories/policy_repository.py:184-212 | Cache-aside: a live entry as it is, else the join, which is cached for 60 s |
| `PolicyServer.Server.UpdateRow` | backend/mystic_auth/authorization/repositories/policy_repository.py:94-151 | Applies the edit, appends one entry with both snapshots and the changed columns, flushes the cache |
| `PolicyServer.Server.CreateRow` | backend/mystic_auth/authorization/repositories/policy_repository.py:56-77 | Adds the row under a new id with its creation entry |
| `PolicyServer.Server.DeleteRow` | backend/mystic_auth/authorization/repositories/policy_repository.py:154-181 | Removes row and assignments with a deletion entry, flushes the cache |
| `PolicyServer.Server.AssignPolicyToUser` | backend/mystic_auth/authorization/repositories/policy_repository.py:246-287 | Idempotent: adds the assignment and drops that account's cache entry, or changes nothing |
| `PolicyServer.Server.RemovePolicyFromUser` | backend/mystic_auth/authorization/repositories/policy_repository.py:290-314 | Reports and removes a held assignment, or changes nothing |
| `PolicyServer.Server.Authorize` | backend/mystic_auth/authorization/services/authorization_service.py:41-106 | One explained decision, on some arrangement of the list the account is shown, for any resource; allowed exactly when a policy on it grants |
| `PolicyServer.Server.AuthorizeBatch` | backend/mystic_auth/authorization/services/authorization_service.py:139-210 | One fetch; in request order, each decision with its reason and reports is the one a single check would have given on that list |
| `PolicyServer.Server.AssertAuthorizedToGrant` | backend/mystic_auth/authorization/services/authorization_service.py:288-335 | Passes exactly when every guarded action is already held on that resource type |
| `PolicyServer.Server.Require` | backend/mystic_auth/authorization/services/authorization_service.py:265-285 | True exactly when the shown list grants the action on the resource type without a resource |
| `PolicyServer.Server.Check` | backend/mystic_auth/auth/current_user/current_user_handler.py:49-61 | Refuses missing accounts, deactivated accounts and those the shown list does not permit, in that order |
| `PolicyServer.Server.Admit` | backend/mystic_auth/authorization/services/authorization_service.py:265-285 | In front of a write: answers a refused request, or leaves exactly the body of its step to be done |
| `PolicyServer.Server.CreatePolicy` | backend/mystic_auth/api/pbac_routes/policy_crud_routes.py:25-56 | Takes exactly the modelled create request, checks in the order of the code |
| `PolicyServer.Server.UpdatePolicy` | backend/mystic_auth/api/pbac_routes/policy_crud_routes.py:81-155 | Takes exactly the modelled update request |
| `PolicyServer.Server.DeletePolicy` | backend/mystic_auth/api/pbac_routes/policy_crud_routes.py:159-182 | Takes exactly the modelled delete request |
| `PolicyServer.Server.RollbackPolicy` | backend/mystic_auth/api/pbac_routes/policy_history_routes.py:100-167 | Takes exactly the modelled rollback request |
| `PolicyServer.Server.ComparePolicyHistory` | backend/mystic_auth/api/pbac_routes/policy_history_routes.py:53-96 | Finds both entries in the code's order of errors and reports exactly the differing columns |
| `PolicyServer.Server.AssignPolicy` | backend/mystic_auth/api/pbac_routes/policy_assignment_routes.py:27-58 | Takes exactly the modelled assign request |
| `PolicyServer.Server.RevokePolicy` | backend/mystic_auth/api/pbac_routes/policy_assignment_routes.py:79-107 | Takes exactly the modelled revoke request with the last-holder guard |
| `PolicyServer.Server.SignUp` | backend/mystic_auth/auth/signup/signup_service.py:35-66 | Takes exactly the modelled registration: the new account gets the baseline policy if there is one |
| `PolicyServer.Server.PurgeUser` | backend/mystic_auth/api/user_routes/user_lifecycle_routes.py:102-153 | Takes exactly the modelled purge request: permission, guards for system accounts and the caller, then cascade; the cache is not touched |
| `PolicyServer.Server.DeactivateUser` | backend/mystic_auth/api/user_routes/user_lifecycle_routes.py:46-98 | Takes exactly the modelled soft-delete request |
| `PolicyServer.Server.ReactivateUser` | backend/mystic_auth/api/user_routes/user_lifecycle_routes.py:157-187 | Takes exactly the modelled reactivation request |
| `PolicyServer.Server.MakeSystem` | backend/mystic_auth/api/user_routes/user_management_update_routes.py:87-119 | Takes exactly the modelled assignment of the system role, second permission included |
| `CompanyCrud.Companies.CreateCompany` | backend/app/companies/company_crud.py:83-123 | Takes exactly the modelled create step |
| `CompanyCrud.Companies.UpdateCompany` | backend/app/companies/company_crud.py:126-176 | Takes exactly the modelled update step, errors in the order of the code |
| `CompanyCrud.Companies.DeleteCompany` | backend/app/companies/company_crud.py:179-207 | Takes exactly the modelled delete step |
| `CompanyCrud.Companies.CountSubsidiaries` | backend/app/companies/company_crud.py:148-151 | Positive exactly when the company has a subsidiary |
| `CompanyScope.GetCompanyScope` | backend/app/access/scope.py:56-98 | Unrestricted, and each id set, exactly as some applicable policy names them |
| `RateLimiter.Service.RecordRequest` | backend/mystic_auth/auth/security/rate_limiter_service.py:24-39 | Counts the request and arms the window with the first; the store is always the one the served requests lead to, other keys are untouched |
| `RateLimiter.Service.Guard` | backend/mystic_auth/auth/security/rate_limiter_service.py:80-118 | The address limit is asked first, and only a request it lets through counts against the account |
| `Lockout.Service.CheckAndRecordAction` | backend/mystic_auth/auth/security/login_protection_service.py:65-93 | Accepted exactly when the key is not locked; the store follows the log of calls |
| `Lockout.Service.RecordFailedAttempt` | backend/mystic_auth/auth/security/login_protection_service.py:23-40 | Counts the failure and arms the expiry only with the first |
| `PasswordReset.Service.ResetPassword` | backend/mystic_auth/auth/password_logic/password_reset_service.py:73-160 | Changes the password exactly when token, entry and all validations allow it; alone it is the machine's steps check, take, then update or give back, and touches no other link |

## Left out

- Cryptography, JWT encoding, Argon2 and PKCE: a token is an unforgeable record of its claims.
- Redis and database failures, and the branches that catch them, log and return a default; INCR and the EXPIRE that follows are one step.
- The permission checks in front of the user and session routes: the session model lets any caller make those calls.
- Version check, claim and mint of one rotation as separate steps: a call is atomic in the session model.
- Counting subsidiaries, or the holders of a policy, as a step apart from the write that follows: both windows are documented in the code and not closed by it.
- Tokens and rows without a chain id and tokens without version claims, which predate the current code; so the branch of the password change and of reuse handling for a missing chain is absent.
- `last_used_at`, user agents, addresses and display names of sessions and users, role changes other than to the system role, and profile edits that do not touch the password; active-session counts and listings.
- Explicit nulls for the NOT NULL columns of a policy update: the model's edits cannot express them.
- Policies seeded or changed by migrations and command-line tools, which bypass the history: a run starts on any seeded table with an empty log.
- Condition handlers and `validate_conditions`: an arbitrary predicate, and a verdict passed with the request.
- Text values of `company_id` and `group_root_id` in policy conditions, which PostgreSQL would reject as a type error in the list query.
- The order of rows a policy query returns, and with it the order of names in a decision made through the cache.
- `change_reason`, `created_by` and timestamps of history entries; listing the history by page; the values beside the column names in a comparison report.
- `reset_counter` of the rate limiter, which no route calls.
- Two reset links for one address minted at the same instant, which would be the same token.
- Letters beyond ASCII in the password-strength check.
- The ticker lookup, LLM chat, e-mail, real-time events, audit logging, cookies, schemas and the frontend.
- SessionServer.Server.SetPassword: the branch of an administrator's edit that leaves the password alone is absent, because it changes nothing the model has.
- PolicyStore.FindByName: says nothing about a table with two policies of one name, where the code raises; `PolicyTables.RunKeepsTables` shows that no run reaches one.
- PasswordReset.Service.ResetPassword: does not include the sign-out that follows a successful reset; that is the reset step of the session model.
- SessionServer.Server.IsCurrentVersion: says nothing about tokens without version or e-mail claims, which predate the current code and which the code lets through.
- SessionServer.Server.ChangePassword: profile edits that leave the password alone are absent, because they change nothing the model has, and so is the fallback for a token without a chain.
- PolicyServer.Server.AuthorizeBatch: the denied answer for a check whose evaluation raises is absent, because evaluation in the model cannot raise.
- PolicyTables.ChangedFieldsIsTheFullDiff: compares conditions as lists of keys with their configuration, so reordering the keys of a JSON object, which the code sees as no change, counts as one.
- PolicyServer.Server.ReactivateUser: takes "not active" for "soft-deleted", since no route of the model deactivates an account in any other way.
