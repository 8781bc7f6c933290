# gosso, verified in Dafny

gosso is an OAuth2/OIDC identity provider. Its hard logic sits in small state
machines over a clocked key-value store (Redis) and a transactional database.
This project models those machines, one module per source area, and proves
what they promise over all runs, all inputs and all interleavings.

How the sources are rendered:

* A Lua script or a database transaction is one atomic step. A request that
  makes several of them is several steps, and the steps of different requests
  interleave freely where the handlers do (`OAuthProtocol`, `RefreshGrant`,
  `TokenChain`, `RefreshLock`, `DeviceGrant`, `ClientRegistry`, `LoginLimits`,
  `ConsentRaces`, `AccountCacheRaces`).
* A Redis key is alive at instant `t` when `t <= expireAt`, in milliseconds;
  `TTL` rounds the remaining milliseconds to seconds. Redis calls that can fail
  have outcomes: done, done but reported failed, lost.
* Hashing, Argon2id, URL scheme checks and CIDR matching are function
  parameters. Random identifiers are inputs that must be new. Clocks are inputs.
* Objects that update fields are classes, loops are loops; each such method is
  proved against a specification function, and the promises are lemmas about
  that function over runs.
* Records kept only to state a property (who issued a code, which attempts were
  admitted) are called history where they are declared; `OAuthHistory` and the
  modules themselves trace them to actions of the run and to database states.

## What is proved

| area | module | main result |
|---|---|---|
| sliding-window limiter | `SlidingWindow` | the trimming, expiring sorted set answers like a limiter that forgets nothing; the exact condition under which an interval holds at most `limit` requests; `retry_after` is the least sufficient wait |
| authorization code | `OAuthProtocol`, `OAuthHandlers`, `OAuthHistory` | single use, binding, scope and PKCE guarantees in every interleaving; every token traced to the actions behind it; the exact extent of two claims that fail |
| refresh tokens | `RefreshGrant`, `TokenChain`, `RefreshLock` | in one run of code flow and refreshes each grant begins one chain, whose scopes stay in the request its code came from; a token has one successor; mutual exclusion exactly as long as the lock lives; at most 202 attempts |
| device grant, clients | `DeviceGrant`, `ClientRegistry`, `ScopeClaims` | status moves one way; one issuance per code; the account a poll saw, vetted and claimed is the token's; registered scopes are permitted scopes; exactly when the words of a scope claim are too |
| password reset | `ResetToken` | the textual JSON edit is the structural update; reading undoes writing; bounded passes and lifetime |
| verification codes | `VerificationCode` | for which configurations comparisons are bounded, in intervals and instants; each code succeeds once; exact effect on the deadline |
| login and MFA limits | `AttemptWindows`, `LoginLimits` | password and code checks per address and per account bounded per window; the exact bound for any interval and any delay between pass and check |
| consent cache | `ConsentCache`, `ConsentRaces` | exactly which steps leave a stale consent, for whole calls and for calls interleaved access by access; exactly when a run ends with one |
| account-status cache | `AccountValidator`, `AccountCacheRaces` | in every interleaving each answer is a lookup whose entry was stamped less than one TTL before the answer, however long before that the lookup was made; the counter's exact drift; exactly when the cap can be passed |
| stored passwords | `Argon2Codec`, `Base64` | parse undoes format for all parameters, salts and hashes |
| accounts | `AccountLifecycle` | nobody is locked out, a deleted account owns nothing, in every serial run |
| query builders | `AuditQuery`, `CredentialInsert`, `SqlText` | the built SQL text, parsed and evaluated, means the filter or the batch |

Where a property one would expect turns out false of the code, the code is
modelled as it is, a lemma gives the failing case, and the exact condition is
proved:

* *Window bound.* Scores are milliseconds, so an interval of one window measured
  in microseconds can hold one request too many (`IntervalBoundExact`).
* *One code per consent id.* `Authorize` stores a consent state also when it
  skips the page, so the unseen form could yield a second code
  (`ConsentIdMayIssueTwice`); with ids learnt only from pages there is one
  (`ConsentIdIssuesOnce`).
* *Scopes as they stand at issue.* Client and consent are read before the code
  is issued (`RevokedBeforeIssue`); the scopes stand exactly when what was read
  still does (`StandExact`, `ScopesAtIssue`).
* *Scope of a refresh chain.* A token without scope gets the roles' scopes at
  the session refresh, and only then a chain leaves its grant
  (`RefreshStaysInGrant`); chains of codes never do (`GrantChainBounded`).
  A first scope list with a spaced item is read back as its words
  (`RefreshStaysInScopes`, `WordsNeedNotBeItems`).
* *Scopes a token's client may have.* Registration checks items; the claim is
  their join, and its readers split it again, at spaces or at white space. A
  registered `openid admin` or `openid<tab>admin` is read as naming `admin`
  (`SpacedScope`, `TabbedScope`, `SpacedRun`). The claim's words are permitted
  exactly when a scope parameter was given or every word of every registered
  scope is registered (`DeviceClaimExact`); at white space exactly under the
  conditions of `DeviceFieldsExact` and `RequestClaimExact`. Registering no
  scope with white space is enough for all (`NoSeparators`).
* *Interval of the device polls.* It is counted in whole seconds of the clock
  and may be almost a second shorter (`PollsSpaced`, `SecondsTruncate`).
* *Checks behind a login counter* come some time after they were let through.
  Fewer than two windows' shares in an interval of a window's length is exactly
  the case without delay; from two milliseconds of delay on it is one less than
  three (`WindowLongExact`, and for any interval `IntervalExact`).
* *Consents under concurrent changes.* A read that writes back what another
  request has changed meanwhile leaves a stale consent for 90 days
  (`WriteBackExact`, `WriteBackRaces`); saves that pass each other do too
  (`SettledExact`, `StaleExact`).
* *One refresh at a time* needs the DEL, not only the rotation, within 30 s
  (`LateReleaseExact`).
* *Deadline of a verification code.* `TTL` rounds (`DeadlineExact`).
* *Attempts against verification codes.* Lifetimes below a second leave them
  unbounded (`IntervalBoundExact`); one instant can see two codes' attempts
  (`InstantBoundExact`, `InstantTwiceExact`).
* *Pages of the audit search.* `ORDER BY created_at` is not a total order
  (`OneOrder`, `TiesRepeat`), and the offset is a 64-bit product that can wrap,
  to an error or to a wrong page (`OffsetExact`, `AnswerExact`, `WrongPage`).
* *Linking by email.* The lookup and the insert are two transactions
  (`LinkExact`, `DeletionBetweenFindAndLink`).
* *Size of the account cache.* Concurrent calls pass the cap (`CapExact`), and
  races make the counter drift either way (`DriftExact`, `SweepStealsEviction`).

## Model

| member | source | states |
|---|---|---|
| SlidingWindow.Limiter.Hit | middleware/redis_ratelimit.go:23-81 | one evaluation of the script gives the verdict, remaining count, reset time and retry time of the reference limiter that keeps every allowed request |
| SlidingWindow.Limiter.Trim | middleware/redis_ratelimit.go:35-40 | expiry and eviction leave exactly the logged requests inside the window, and the cardinality is their number |
| SlidingWindow.Limiter.FirstSlot | middleware/redis_ratelimit.go:60-78 | reset and retry times are the ceilings computed from the oldest request in the window |
| SlidingWindow.Limiter.Admit | middleware/redis_ratelimit.go:44-54 | adding a member and renewing the expiry keeps the set in step with the log |
| SlidingWindow.TrimKeepsCoupled | middleware/redis_ratelimit.go:37-37 | trimming never removes a request the window still needs, whichever of expiry and eviction does it |
| SlidingWindow.MemberInjective | middleware/redis_ratelimit.go:47-47 | two instants never name the same sorted-set member |
| SlidingWindow.IntervalBoundExact | middleware/redis_ratelimit.go:31-47 | an interval holds at most limit allowed requests in every run exactly when the limit is 0, it is shorter than limit instants, or its ends are less than a window apart in milliseconds |
| SlidingWindow.NeverOverLimit | middleware/redis_ratelimit.go:40-54 | the number of requests in the window never exceeds the limit, in any run |
| SlidingWindow.RetryIsLeastWait | middleware/redis_ratelimit.go:60-78 | after a denial retry_after lies in 1..window and is the least number of whole seconds after which a request is allowed again |
| OAuthClient.SplitScope | internal/oauth2/controller/oauth2_controller.go:282-293 | the loop yields the non-empty pieces of the scope string |
| OAuthClient.TokensOfJoin | internal/oauth2/controller/oauth2_controller.go:282-293 | splitting undoes the space-join of any list of scope tokens |
| OAuthClient.IntersectScopes | internal/oauth2/controller/oauth2_controller.go:296-304 | keeps, in order and multiplicity, exactly the requested scopes that are allowed |
| OAuthClient.Client.ValidScopes | internal/oauth2/domain/client.go:112-125 | exactly the requested scopes registered for the client, admin scopes only with the admin capability |
| OAuthClient.Client.ValidateScope | internal/oauth2/domain/client.go:112-125 | the loop computes ValidScopes |
| OAuthClient.Client.ValidateRedirectURI | internal/oauth2/domain/client.go:48-60 | true exactly for an acceptable scheme and a registered URI |
| OAuthProtocol.VerifyPKCE | internal/oauth2/domain/authorization_code.go:69-96 | true exactly without a challenge, or for a 43 to 128 character unreserved verifier whose S256 hash is the challenge |
| OAuthProtocol.BeginAuthorizeKeeps | internal/oauth2/controller/oauth2_authorize.go:54-155 | the checks and the stored consent state keep the protocol invariant |
| OAuthProtocol.ReadConsentKeeps | internal/oauth2/controller/oauth2_authorize.go:157-184 | reading an earlier consent, or showing the page, keeps it |
| OAuthProtocol.GenerateCodeKeeps | internal/oauth2/service/auth_code_service.go:51-93 | issuing a code spends the ticket it is issued for and binds the code to the request |
| OAuthProtocol.BeginSubmitKeeps | internal/oauth2/controller/oauth2_authorize.go:294-331 | a consent state is consumed once, by a matching form or by nothing |
| OAuthProtocol.ValidateSubmitKeeps | internal/oauth2/controller/oauth2_authorize.go:333-360 | revalidation of client, redirect URI, scopes and account keeps the invariant |
| OAuthProtocol.SaveConsentKeeps | internal/oauth2/controller/oauth2_authorize.go:362-371 | saving the consent keeps the invariant, whether the transaction commits, rolls back, or commits and is reported failed |
| OAuthProtocol.BeginTokenKeeps | internal/oauth2/service/auth_code_service.go:97-148 | a code leaves the store when it is read, whether or not it is then accepted |
| OAuthProtocol.FinishTokenKeeps | internal/oauth2/controller/oauth2_token.go:166-201 | a token is granted for the code read, or the code is lost |
| OAuthProtocol.RunKeeps | internal/oauth2/controller/oauth2_authorize.go:54-375 | every interleaving of all steps, client and consent changes included, keeps the invariant |
| OAuthProtocol.CodeRedeemedOnce | internal/oauth2/service/auth_code_service.go:97-105 | in every interleaving a code yields at most one token |
| OAuthProtocol.TokenBoundToRequest | internal/oauth2/controller/oauth2_token.go:194-201 | a token carries its code's account, client, session and scopes, and the code those of its record |
| OAuthProtocol.TicketIssuesOnce | internal/oauth2/controller/oauth2_authorize.go:300-308 | a consent form, or an Authorize that skipped it, ends in at most one code |
| OAuthProtocol.ConsentIdIssuesOnce | internal/oauth2/controller/oauth2_authorize.go:119-192 | when only shown ids are submitted, a consent id yields at most one code |
| OAuthProtocol.PublicCodeNeedsVerifier | internal/oauth2/controller/oauth2_authorize.go:64-115 | every code of a public client carries an S256 challenge and is only redeemed with a valid verifier hashing to it (section 4.6 of RFC 7636) |
| OAuthHandlers.ConsentIdMayIssueTwice | internal/oauth2/controller/oauth2_authorize.go:119-185 | a run in which one consent id yields two codes, the form never having been shown |
| OAuthHandlers.UnshownFormIssuesToo | internal/oauth2/controller/oauth2_authorize.go:157-192 | from any sound state, an Authorize that skips the page leaves a form that yields a second code |
| OAuthHandlers.AuthorizeIssues | internal/oauth2/controller/oauth2_authorize.go:54-192 | uninterrupted, Authorize issues a code exactly when it may skip the page, with scopes inside request, registration and consent as they stand |
| OAuthHandlers.RevokedBeforeIssue | internal/oauth2/controller/oauth2_authorize.go:157-185 | a consent withdrawn between read and issue does not stop the code |
| OAuthHandlers.SubmitIssues | internal/oauth2/controller/oauth2_authorize.go:218-376 | uninterrupted, exactly an approved form that matches, passes every check and has its consent committed ends in a code, issued for that form |
| OAuthHandlers.TokenEnds | internal/oauth2/controller/oauth2_token.go:130-206 | a token exactly for an accepted code; an authenticated client spends the code either way |
| OAuthHandlers.Service.HandleAuthorize | internal/oauth2/controller/oauth2_authorize.go:54-192 | the handler run in sequence, and when it issues a code |
| OAuthHandlers.Service.HandleSubmit | internal/oauth2/controller/oauth2_authorize.go:218-376 | the handler run in sequence, and exactly when it issues a code |
| OAuthHandlers.Service.HandleToken | internal/oauth2/controller/oauth2_token.go:130-206 | the handler run in sequence, and the grant it appends |
| OAuthHistory.CodeComesFromRun | internal/oauth2/controller/oauth2_authorize.go:119-184 | behind every code of a run: the Authorize action that was let through, a later database state its client was read in, a still later one with its consent, and the issuing action, whose scopes are exactly what these allow and not empty |
| OAuthHistory.TokenComesFromRun | internal/oauth2/controller/oauth2_token.go:130-206 | behind every token, in addition, the action that presented its code in time as its client; account, client, session and scopes are those found there |
| OAuthHistory.StandExact | internal/oauth2/controller/oauth2_authorize.go:166-185 | the scopes fixed from a client and a consent still stand, for every request, exactly when every scope token both allowed still does |
| OAuthHistory.ScopesAtIssue | internal/oauth2/controller/oauth2_authorize.go:157-185 | whatever client updates, saves and revocations come between the last read and the code, the code has the scopes of the reads; they stand at issue exactly when every requested scope both allowed then does |
| OAuthHistory.UnchangedSinceRead | internal/oauth2/controller/oauth2_authorize.go:157-185 | so they stand if no action of the run changed the client or the consent since they were read |
| TokenChain.JointIsBoth | internal/oauth2/controller/oauth2_token.go:194-215 | in one run of both, where a chain's first token is issued from an appended grant, each part is a run of its own |
| TokenChain.GrantChainBounded | internal/oauth2/controller/oauth2_token.go:194-215 | every access token refreshed, at either endpoint, over the chain a grant began lies in the request, client and consent that the grant's code came from in the same run |
| TokenChain.OneChainPerCode | internal/oauth2/controller/oauth2_token.go:206-215 | in such a run two chains begun by grants are the same exactly if the grants are for the same code |
| RefreshGrant.ScopeAllowed | internal/oauth2/controller/oauth2_token.go:303-314 | the loop accepts exactly an empty request or a subset of the granted scope tokens |
| RefreshGrant.DrawKeeps | internal/token/service/token_service_revoke.go:115-151 | the successor built from the stored data stays in the chain of the presented token |
| RefreshGrant.SwapKeeps | internal/token/service/token_service_revoke.go:76-99 | the rotation script replaces a token by one successor of the same chain and publishes it for replays |
| RefreshGrant.RunKeeps | internal/oauth2/controller/oauth2_token.go:246-378 | every interleaving of refreshes, expiries and revocations keeps the lineage invariant |
| RefreshGrant.RefreshStaysInGrant | internal/oauth2/controller/oauth2_token.go:303-361 | every refreshed access token is for the account, client and session of its chain's first token, which some issuing action of the run made; at the token endpoint only that client gets it; its scopes lie in the scope first granted (section 6 of RFC 6749), except exactly when the session refresh is used on a chain without scope |
| RefreshGrant.RefreshStaysInScopes | internal/oauth2/controller/oauth2_token.go:206-212 | in terms of the scope list of the action that issued the chain's first token: refreshed scopes are words of its items, and items of it when each item is a single token |
| RefreshGrant.WordsNeedNotBeItems | internal/oauth2/controller/oauth2_token.go:206-212 | a first scope list with one spaced item is read as two scopes, neither of them an item |
| RefreshGrant.RootsStarted | internal/token/service/token_service_revoke.go:115-151 | every chain of a run began with an issuing action of the run |
| RefreshGrant.SessionScopeWithin | internal/auth/service/auth_service.go:371-381 | the session refresh stays within the token's scope exactly when that is not empty |
| RefreshGrant.OneSuccessor | internal/token/service/token_service_revoke.go:76-92 | whoever presents a refresh token, at the token endpoint or for a session, first or as a replay, is handed the same successor |
| RefreshGrant.RotatedStaysGone | internal/token/service/token_service_revoke.go:79-83 | a rotated token is never stored again, whatever happens later |
| RefreshLock.AtMostOneInside | internal/auth/service/auth_session.go:174-199 | if every holder's DEL comes within 30 s of its SETNX, at most one caller per key is inside, in every interleaving, lost replies included |
| RefreshLock.OverrunLetsOthersIn | internal/auth/service/auth_session.go:182-199 | another caller gets in beside a holder exactly when that holder has been inside for more than 30 s |
| RefreshLock.LateReleaseExact | internal/auth/service/auth_session.go:190-197 | it is the unconditional DEL that must be in time: after a punctual fn, two callers that are both in time get in together exactly when the DEL comes after the 30 s |
| RefreshLock.WithLock | internal/auth/service/auth_session.go:174-211 | the loop stops at the first attempt that does not go on, with that attempt's outcome, after at most 202 attempts |
| RefreshLock.AllAttemptsUsed | internal/auth/service/auth_session.go:24-25 | 202 attempts are reached |
| DeviceGrant.DeviceCode.Authorize | internal/oauth2/domain/device_code.go:112-132 | succeeds exactly on a pending code and a non-empty account, and fixes the account |
| DeviceGrant.DeviceCode.Deny | internal/oauth2/domain/device_code.go:135-150 | succeeds exactly on a pending code |
| DeviceGrant.DeviceCode.MarkUsed | internal/oauth2/domain/device_code.go:153-165 | succeeds exactly on an authorized code and keeps its account |
| DeviceGrant.ScriptsEvolve | internal/oauth2/service/device_code_service.go:243-385 | every script moves a code as the domain methods allow and keeps its record sound |
| DeviceGrant.ClaimKeeps | internal/oauth2/service/device_code_service.go:359-385 | the claim gives a code to one request, whatever snapshots other polls hold |
| DeviceGrant.RunKeeps | internal/oauth2/controller/oauth2_device.go:233-344 | every interleaving of polls, decisions and expiries keeps the invariant |
| DeviceGrant.CodeMintedOnce | internal/oauth2/controller/oauth2_device.go:304-318 | at most one poll of a code reaches token issuance |
| DeviceGrant.TokenBoundToApproval | internal/oauth2/controller/oauth2_device.go:294-344 | the account of a token approved its code by an action of the run; the poll that got the token had that account in its own snapshot, found it active at its own account check and claimed the code after it; client and scopes are those of the action that created the code |
| DeviceGrant.StepMoves | internal/oauth2/service/device_code_service.go:301-385 | each step moves a code along pending, authorized, used or pending, denied, or leaves it |
| DeviceGrant.ApprovalIsFinal | internal/oauth2/domain/device_code.go:112-132 | once approved, account, client and scopes never change, whatever follows |
| DeviceGrant.PollsSpaced | internal/oauth2/service/device_code_service.go:243-270 | a poll of an unused code is admitted exactly when the key is there and the clock's whole seconds have advanced by the interval since the last admitted poll; so always after the interval, and never until more than the interval less a second (section 3.5 of RFC 8628) |
| DeviceGrant.SecondsTruncate | internal/oauth2/service/device_code_service.go:243-270 | that bound is sharp for a poll in the last millisecond of its second |
| DeviceGrant.DeviceScopesExact | internal/oauth2/controller/oauth2_device.go:71-81 | of any client value and the items of the scope list: requested scopes are filtered; without a request the code carries only items the client may have exactly when it has the admin capability or no item is an admin scope |
| ClientRegistry.ValidateScopes | internal/oauth2/service/client_service.go:340-353 | accepts exactly at most 30 scopes, none blank or longer than 256 |
| ClientRegistry.ValidateUserManagedScopes | internal/oauth2/service/client_service.go:355-362 | accepts exactly the lists without an admin scope |
| ClientRegistry.SyncAdminCapability | internal/oauth2/service/client_service.go:364-381 | the capability is there afterwards exactly with an admin scope; other metadata stay |
| ClientRegistry.RegisterClient | internal/oauth2/service/client_service.go:66-137 | the registered client, or the first check that fails |
| ClientRegistry.ApplyUpdate | internal/oauth2/service/client_service.go:232-259 | the updated client, fields that are not given staying as they are |
| ClientRegistry.RegisteredScopesGranted | internal/oauth2/service/client_service.go:122-137 | in every run of interleaved registrations, updates and deletions each item of a registered scope list is one the client may have, so device codes carry no other item, with or without a scope parameter |
| OAuthClient.WordsOfJoin | internal/oauth2/controller/oauth2_device.go:338-338 | splitting a joined list, at spaces or at white space, finds exactly the words of its items |
| ScopeClaims.HasScope | internal/auth/middleware/auth_middleware.go:237-244 | the loop finds exactly the white-space fields of the claim |
| ScopeClaims.DeviceClaimExact | internal/oauth2/controller/oauth2_device.go:70-81 | of any registered client: the words of a device claim are scopes the client may have exactly if a scope parameter was given or every word of every registered scope is registered |
| ScopeClaims.DeviceFieldsExact | internal/oauth2/controller/oauth2_device.go:70-81 | split at white space, for every scope parameter exactly if every such word of every registered scope is registered |
| ScopeClaims.RequestClaimExact | internal/oauth2/domain/client.go:112-125 | scopes that were requested and filtered join to a claim whose words are requested and permitted; split at white space they are exactly if no permitted registered token holds another word |
| ScopeClaims.NoSeparators | internal/oauth2/service/client_service.go:340-353 | registering no scope with white space, which the check does not ask, meets all these conditions |
| ScopeClaims.SpacedScope | internal/oauth2/service/client_service.go:340-353 | the registered scope "openid admin" of a client without the admin capability, granted without a scope parameter, is read as naming admin |
| ScopeClaims.TabbedScope | internal/oauth2/service/client_service.go:340-353 | with a tab in it, it is granted as asked, and hasScope reads admin |
| ScopeClaims.DeviceTokenScopes | internal/oauth2/controller/oauth2_device.go:294-344 | the claim of each device token of a run whose clients come from a registry's run joins items the client may have; its words, and its fields, are permitted exactly under those conditions |
| ScopeClaims.CodeTokenScopes | internal/oauth2/controller/oauth2_token.go:194-201 | the claim of each token of a run of the code flow, split at spaces, is the code's scope list; its fields are permitted exactly if those of that list are |
| ScopeClaims.SpacedRun | internal/oauth2/controller/oauth2_device.go:294-344 | a run of registry and device grant whose one token is read as naming a scope its client may not have |
| ClientRegistry.AdminScopeWasAllowed | internal/oauth2/service/client_service.go:117-121 | a client has an admin scope or the capability only after a registration or update of it that was allowed reserved scopes |
| ClientRegistry.ReplacedExact | internal/oauth2/service/client_service.go:165-175 | UpdateClient, which has no caller, would keep this exactly for a client that is itself in step |
| ResetToken.BumpedIsUpdate | internal/auth/service/password_reset_service.go:47-61 | match and gsub on the JSON text give the JSON text of the same record with the counter one higher, for all account ids, emails and user names |
| ResetToken.AttemptsOfMarshal | internal/auth/service/password_reset_service.go:53-53 | the pattern match reads the record's counter |
| ResetToken.KeyNotInHead | internal/auth/service/password_reset_service.go:81-91 | the counter's key occurs nowhere in front of it, because escaping hides every inner quote |
| ResetToken.UnmarshalMarshal | internal/auth/service/password_reset_service.go:81-91 | reading the text back by section 7 of RFC 8259 gives the record |
| ResetToken.TokenLife | internal/auth/service/password_reset_service.go:47-61 | a token passes at most maxAttempts times, its record is otherwise unchanged, and it is gone maxAttempts + 1 lifetimes after its issue |
| ResetToken.TokenStore.CheckAndIncrement | internal/auth/service/password_reset_service.go:47-61 | the script on the stored text is the step on the record |
| VerificationCode.VerificationService.SendCode | internal/auth/service/verification_service.go:167-236 | stores a code and a cooldown unless one is running, and takes the code back when delivery fails |
| VerificationCode.VerificationService.VerifyCode | internal/auth/service/verification_service.go:46-70 | the script's outcomes and the state each leaves, for every lifetime; below a second SETEX can fail |
| VerificationCode.ChecksBounded | internal/auth/service/verification_service.go:46-70 | comparisons in an interval covered by k cooldowns number at most maxAttempts * (1 + k), an instant counting as one cooldown |
| VerificationCode.CodeSucceedsOnce | internal/auth/service/verification_service.go:57-60 | each code sent succeeds at most once |
| VerificationCode.DeadlineExact | internal/auth/service/verification_service.go:61-68 | a mismatch keeps the deadline exactly when a positive whole number of seconds remains |
| VerificationCode.DeadlineMoves | internal/auth/service/verification_service.go:61-68 | otherwise it moves by at most half a second, or in the last half second to a whole lifetime from now |
| VerificationCode.SubSecondLifetimeUncounted | internal/auth/service/verification_service.go:61-68 | with a lifetime below a second a mismatch in the last half second goes uncounted |
| VerificationCode.IntervalBoundExact | internal/auth/service/verification_service.go:46-70 | that bound holds in every run exactly for lifetimes of at least a second or no attempts; otherwise no bound does |
| VerificationCode.InstantBoundExact | internal/auth/service/verification_service.go:61-68 | one instant sees at most maxAttempts comparisons in every run exactly if a code, kept alive by a guess at each deadline, dies before the cooldown ends |
| VerificationCode.InstantTwiceExact | internal/auth/service/verification_service.go:167-200 | all attempts of the old and the new code fit into one instant exactly if a code outlives the cooldown, or attempts go uncounted |
| LoginLimits.Counters.Bump | internal/cache/redis_client.go:234-244 | the script on a counter map, other keys untouched |
| LoginLimits.IsAllowlisted | internal/auth/service/auth_login_helpers.go:171-185 | true exactly when some configured network contains the address |
| AttemptWindows.AdmitKeeps | internal/cache/redis_client.go:234-244 | windows of one counter never overlap and none lets through more than its share |
| AttemptWindows.BetweenBound | internal/cache/redis_client.go:234-244 | an interval lets through at most what Most says: every window that can begin in it, and the late share of one from before |
| AttemptWindows.ChecksBound | internal/cache/redis_client.go:234-244 | checks that follow their passes within d are bounded per window, and in an interval by Most of one longer by d |
| AttemptWindows.MostReached | internal/cache/redis_client.go:234-244 | for every limit, window, delay and interval a run of the counter reaches that bound |
| LoginLimits.AttemptsBounded | internal/auth/service/auth_login.go:36-96 | however requests interleave, whatever is cleared or fails: password and MFA code checks for an address that is not allowlisted number at most maxPerIp - 1 per counter window; if each follows its pass within d, an interval holds at most what an interval longer by d can let through |
| LoginLimits.MfaCodesBounded | internal/auth/service/auth_login.go:161-167 | MFA codes checked for an account are bounded the same way by its own counter, allowlisted addresses included |
| LoginLimits.ChecksRecorded | internal/auth/service/auth_login.go:36-96 | each check under way belongs to one pass, not checked before, and is recorded on it at the instant it is made |
| LoginLimits.IntervalExact | internal/auth/service/auth_login.go:36-96 | a number bounds the checks of an interval, in all runs with delays up to d, exactly if it is at least that bound |
| LoginLimits.MfaIntervalExact | internal/auth/service/auth_login.go:146-170 | the same for the codes of an account |
| LoginLimits.WindowLongExact | internal/auth/service/auth_login.go:36-96 | for an interval of one window's length the least bound is 2n - 1 without delay, 2n with a millisecond, 3n - 1 with more, up to a window, n being a window's share |
| ConsentCache.ConsentService.GetConsent | internal/oauth2/service/consent_service.go:52-91 | answers what the database holds in a coherent state, whatever cache call fails, and keeps it coherent |
| ConsentCache.ConsentService.SaveConsent | internal/oauth2/service/consent_service.go:94-129 | the resulting database and cache for every outcome, and exactly when they still agree |
| ConsentCache.ConsentService.DeleteConsent | internal/oauth2/service/consent_service.go:132-150 | the same for a deletion with its tombstone fallback |
| ConsentCache.ConsentService.DeleteConsentsByAccount | internal/oauth2/service/consent_service.go:172-211 | removes what the replies listed, for this account only, stopping at a failed SCAN or after 1000 replies |
| ConsentCache.CoherenceExact | internal/oauth2/service/consent_service.go:52-150 | a step keeps agreement exactly unless the change misses the cache twice over a live entry that now differs |
| ConsentCache.ReadsAgree | internal/oauth2/service/consent_service.go:52-91 | in every sequential run without such a step reads equal database reads |
| ConsentCache.ReportedRunsAgree | internal/oauth2/service/consent_service.go:115-121 | so they do when no save or delete loses both its writes |
| ConsentCache.EntriesExpire | internal/oauth2/service/consent_service.go:20-25 | whatever is lost, in every run each entry expires within 90 days from now, a stale one too |
| ConsentRaces.GetAlone | internal/oauth2/service/consent_service.go:52-91 | a read nobody interrupts is that of the sequential model, its answer included |
| ConsentRaces.SaveAlone | internal/oauth2/service/consent_service.go:94-129 | so is a save |
| ConsentRaces.DeleteAlone | internal/oauth2/service/consent_service.go:132-150 | so is a deletion |
| ConsentRaces.SettledExact | internal/oauth2/service/consent_service.go:52-150 | access by access: a step leaves a stale consent that no change under way will replace exactly if it caches what the database no longer holds, or a change reaches the cache with neither write over a consent that now differs |
| ConsentRaces.QuietReadsAgree | internal/oauth2/service/consent_service.go:52-91 | in every run without such a step a cached answer equals the database whenever no change of its key is half done |
| ConsentRaces.WriteBackExact | internal/oauth2/service/consent_service.go:74-88 | whatever runs between a read's load and its write-back: a stale consent is left exactly if a change of the key was committed in between and the last one left something else |
| ConsentRaces.EntryAnswers | internal/oauth2/service/consent_service.go:52-70 | an entry nothing touches answers until it expires, however the database changes |
| ConsentRaces.WriteBackRaces | internal/oauth2/service/consent_service.go:84-88 | from every state with a read before its write-back, a save in between is overwritten and the old consent answered for the full 90 days |
| ConsentRaces.StaleExact | internal/oauth2/service/consent_service.go:52-150 | every run ends with a stale consent for a key exactly if the cache shows what the database held at some step and the last change committed since left something else |
| AccountValidator.Adapter.Clean | cmd/gosso/web_modules.go:262-280 | the sweep removes exactly the expired entries and counts them |
| AccountValidator.Adapter.IsActive | cmd/gosso/web_modules.go:259-330 | the method computes the specified call and keeps entries <= counter <= 1024 |
| AccountValidator.CallKeepsCounted | cmd/gosso/web_modules.go:283-311 | the counter drifts by one exactly when a failed lookup follows the eviction of the account's expired entry |
| AccountValidator.SizeBounds | cmd/gosso/web_modules.go:243-247 | for serial calls entries <= counter <= 1024, with equality exactly without such a leak |
| AccountValidator.SaturatedStaysEmpty | cmd/gosso/web_modules.go:307-311 | once 1024 have leaked nothing is ever cached again |
| AccountValidator.AnswersAreLookups | cmd/gosso/web_modules.go:283-330 | for serial calls every answer is the call's own lookup, or that of an earlier call for the account stored less than the TTL before |
| AccountCacheRaces.RepliesAreLookups | cmd/gosso/web_modules.go:282-329 | in every interleaving of calls and sweep, access by access, a reply is the call's own lookup or one for its account that did not fail and got its expiry less than the TTL before |
| AccountCacheRaces.DriftExact | cmd/gosso/web_modules.go:268-328 | in every interleaving the counter is the number of entries, plus what is under way, plus exactly the counts too many, less those missed, plus what clamping changed |
| AccountCacheRaces.SweepStealsEviction | cmd/gosso/web_modules.go:268-293 | a sweep between a call's Load and its Delete leaves as many entries with a counter one lower, from any quiet state with an expired entry |
| AccountCacheRaces.CapExact | cmd/gosso/web_modules.go:306-328 | from any moment of any run the stores already admitted can push the counter past 1024 exactly when it and their number exceed 1024 |
| AccountCacheRaces.TwoPassTheCap | cmd/gosso/web_modules.go:320-328 | two concurrent lookups at 1023 are both admitted |
| AccountCacheRaces.CapKept | cmd/gosso/web_modules.go:306-328 | the counter stays within 1024 in every run whose admissions find room for all admitted before |
| AccountCacheRaces.AloneIsSerial | cmd/gosso/web_modules.go:282-330 | a call that nothing interrupts is the call of the serial model |
| AccountCacheRaces.SweepIsSerial | cmd/gosso/web_modules.go:262-280 | a sweep that nothing interrupts is that of the serial model |
| Base64.DecodeEncode | internal/account/domain/credential.go:271-272 | unpadded base64 (section 4 of RFC 4648) decodes what it encodes, using letters only |
| Argon2Codec.Parse | internal/account/domain/credential.go:306-353 | whatever is accepted has parameters, salt and hash within the bounds |
| Argon2Codec.ParseFormat | internal/account/domain/credential.go:263-353 | parsing recovers parameters, salt and hash exactly, for all of them within the bounds |
| Argon2Codec.VerifyHashed | internal/account/domain/credential.go:263-287 | a password verifies against a stored hash exactly when Argon2id gives it the same key |
| AccountLifecycle.RegisterKeeps | internal/account/service/account_service.go:206-302 | registration keeps the invariant of accounts and their rows |
| AccountLifecycle.UnbindKeeps | internal/account/service/account_service_identity.go:81-131 | unbinding leaves a way in |
| AccountLifecycle.UnbindExact | internal/account/service/account_service_identity.go:101-125 | it is refused exactly when the invariant would break |
| AccountLifecycle.SoftDeleteKeeps | internal/account/service/account_service_manage.go:40-63 | the cascade leaves a deleted account nothing and other accounts everything |
| AccountLifecycle.CreateWithIdentityKeeps | internal/auth/service/social_login_service.go:436-469 | a social account starts with a way in and breaks no index |
| AccountLifecycle.LinkByEmailKeeps | internal/auth/service/social_login_service.go:499-528 | a serial link is safe because a live credential has a live owner |
| AccountLifecycle.LinkExact | internal/auth/service/social_login_service.go:517-519 | the insert alone is safe exactly while the account found before is not deleted |
| AccountLifecycle.DeletionBetweenFindAndLink | internal/auth/service/social_login_service.go:500-519 | a deletion in between leaves a deleted account with a live identity |
| AccountLifecycle.ApplyKeeps | internal/account/service/account_service_identity.go:25-415 | every transaction keeps the invariant, unique indexes included |
| AccountLifecycle.NobodyLockedOut | internal/account/service/account_service_manage.go:22-63 | in every serial run from an empty database a live account has a password or an identity, and a deleted one owns no credential, identity or role link |
| AccountLifecycle.AccountService.UnbindFederatedIdentity | internal/account/service/account_service_identity.go:81-131 | the handler's loops decide as the specification does |
| AccountLifecycle.AccountService.SoftDeleteAccount | internal/account/service/account_service_manage.go:40-63 | the cascade table by table is the specified deletion, and idempotent |
| AuditQuery.Clamp | internal/audit/repository/audit_query_repository_impl.go:17-26 | page, size and 64-bit offset for every pair of integers |
| AuditQuery.BuildWhere | internal/audit/repository/audit_query_repository_impl.go:41-65 | the text and arguments appended step by step are those of the filter's conjuncts, numbered from 1 |
| AuditQuery.WhereParses | internal/audit/repository/audit_query_repository_impl.go:41-69 | the count's text parses to exactly the conjuncts |
| AuditQuery.SelectParses | internal/audit/repository/audit_query_repository_impl.go:78-85 | the select's text parses to the same conjuncts and pages by the next two parameters |
| AuditQuery.BuildSelects | internal/audit/repository/audit_query_repository_impl.go:41-65 | for every filter and record, NULL accounts included, the conjuncts are true exactly of what the filter describes |
| AuditQuery.Query | internal/audit/repository/audit_query_repository_impl.go:38-95 | total is the number of matches; the records are the window of the matches at the wrapped offset, which is the page asked for below 2^63, and a negative offset fails |
| AuditQuery.AnswerExact | internal/audit/repository/audit_query_repository_impl.go:17-26 | the page asked for goes out exactly if the offset is below 2^63 or wraps to one at or past the end |
| AuditQuery.WrongPage | internal/audit/repository/audit_query_repository_impl.go:24-24 | page 2^58 + 1 of 64 records wraps to offset 0 and answers with the first page |
| AuditQuery.OffsetExact | internal/audit/repository/audit_query_repository_impl.go:24-24 | the offset is the mathematical one exactly below 2^63 |
| AuditQuery.PagesListAll | internal/audit/repository/audit_query_repository_impl.go:78-85 | pages 1, 2, ... of one order list every match once, in order |
| AuditQuery.OneOrder | internal/audit/repository/audit_query_repository_impl.go:83-83 | without equal times there is one order |
| AuditQuery.TiesRepeat | internal/audit/repository/audit_query_repository_impl.go:83-83 | with equal times two requests can show a record twice |
| SqlText.ParamNoBack | internal/account/repository/credential_repository_impl.go:67-68 | a placeholder is read back as its number |
| CredentialInsert.ValuesParse | internal/account/repository/credential_repository_impl.go:56-68 | the VALUES text parses to tuples whose placeholder j of credential i is 12*i+j+1 |
| CredentialInsert.BatchInsertsAll | internal/account/repository/credential_repository_impl.go:43-90 | for any batch the statement inserts exactly the credentials, in order, each value in its column |
| CredentialInsert.CreateCredentials | internal/account/repository/credential_repository_impl.go:43-90 | the loop builds such a statement, does nothing for an empty batch, and fails exactly when some metadata does |
| CredentialInsert.WhereParses | internal/account/repository/credential_repository_impl.go:125-139 | the text after WHERE parses to the account, deleted_at and IN conditions, with the placeholders from $2 on, and the order |
| CredentialInsert.TypesSelect | internal/account/repository/credential_repository_impl.go:125-139 | evaluated on any row the condition is true exactly for the account's credentials that are not deleted and have one of the types |
| CredentialInsert.FindByAccountAndTypes | internal/account/repository/credential_repository_impl.go:119-147 | the loop builds a condition and order that parse to those, selecting exactly the account's live credentials of the types, and asks nothing without types |

## Left out

- HTTP, cookies, templates, CSRF, logging, metrics and audit writing: plumbing without state worth proving.
- Cryptography and randomness: function parameters and new values; equal SHA-256 values are taken to mean equal tokens, so tokens key the stores directly.
- WebAuthn, SMTP, SMS and provider HTTP calls: network code.
- Strings are sequences of characters, not UTF-8 bytes; lengths in bytes and invalid UTF-8 are not modelled.
- Redis key text: keys are typed, so different purposes cannot collide. The lock key, which uses a 16-character hash prefix, is any string here, so two tokens may share it.
- SlidingWindow.Limiter.Hit: takes server instants as strictly increasing, as TIME gives them for separate evaluations.
- ResetToken.Gsub: patterns and replacements without magic characters only, which is what the script builds; Lua prints integers exactly below 10^14, and counters here are unbounded.
- ResetToken.Unmarshal: reads the layout the service writes, not every JSON text encoding/json would accept; surrogate escapes are refused.
- RequestReset's cooldown and the session revocation after a reset: the first is the cooldown of VerificationCode again, the second has no bound worth stating.
- VerificationCode.ChecksBounded: assumes the store answers; a cooldown that could not be written is not modelled. SendCode is one step over EXISTS, two SET, the delivery and DEL, so two sends that both see no cooldown are not modelled.
- LoginLimits.AttemptsBounded: the delay between a pass and its check is a parameter, as the code does not limit it; a password check is also the dummy hash computed for an unknown or inactive account; the passkey flag of CompletePasskeyMFALogin counts on the account's counter but is no guess.
- OAuthProtocol, RefreshGrant and DeviceGrant: handlers whose steps interleave are step functions over a state value; the fields a handler updates in place between two steps are the record of its request.
- OAuthProtocol: BeginAuthorize, ValidateSubmit and BeginToken each join lookups of client and account to the Redis call or step they precede, so changes between those lookups are not modelled; the nonce, authentication time and ID token are carried or left out, not checked further; a refused form (approved other than true) is a redirect without state; consent storage is the database's, its cache being ConsentCache.
- OAuthProtocol.SaveConsent: how the transaction ends is an input.
- RefreshGrant: expiry, revocation lists and the session index appear only as keys that may vanish at any time; the session refresh's IP and session checks are part of the input that lets it reply, and its access token, which it makes before it rotates, is recorded with the reply.
- DeviceGrant: the user-code index and its normalisation; a decision addresses the device code directly. Re-encoding of an empty scope list by cjson as an object is not modelled.
- DeviceGrant.PollsSpaced: excludes entries rewritten without expiry, which happens when a script runs in the very millisecond the key expires.
- ConsentCache: the class is the sequential use of the service, ConsentRaces has the concurrent one; timestamps of a consent are left out: the database keeps microseconds and the cache nanoseconds, so agreement is about scopes.
- AccountValidator: the class is the serial use of the adapter; AccountCacheRaces has the concurrent one.
- AccountCacheRaces: the sweep may be handed any expired key, where Range visits each at most once; the counter is an unbounded integer, not 32 bits.
- ClientRegistry: names, descriptions, URIs and grant types are checked as one input, wellFormed; secrets, logout URIs and audit records are not modelled; deleted rows are absent, and identifiers of rows are never drawn twice.
- Argon2Codec.Parse: Sscanf restricted to the three formats used.
- AccountLifecycle: database concurrency within a transaction; creators of credentials outside these services (TOTP, backup codes, email change); AdminChangePassword is ChangePassword without the old password; UpdateAccount, sessions and OAuth2 clients of a deleted account.
- AccountLifecycle.Register: formats of names, addresses and time zones are one input, wellFormed.
- AuditQuery.Query: the table is a list in the order the database chose, JSON columns are left out, and the fixed text before WHERE is not parsed.
- CredentialInsert: the fixed column list is the order of FromRow; PostgreSQL's limit of 65535 parameters is stated (ParameterLimit) but not made an error.
- TOTP decrypts each verified secret and hands secret and code to a library; a backup code is compared with bcrypt hashes and deleted in one transaction under row locks; passkey login hands a signed challenge to a WebAuthn library; the key service loads or generates one RSA key at start; configuration checks reject single values: none of these is modelled.
