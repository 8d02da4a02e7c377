# Markland: verified models of its protocols

Markland is a document-sharing service. This project models the parts of it whose guarantees hold over
whole runs, and proves them with Dafny 4.11: bearer-token resolution with its cache and the revoke
protocol, the two rate limiters, versioned documents and keyset pagination, the one-shot authorisation
flows (device codes, magic links, invites), the access rules, and the email retry queue.

`dafny verify dfyconfig.toml` checks everything.

## How the model is built

Code that updates state in place is a class whose methods follow the program's statements; each method
is proved equal to a pure function of the old state and states field by field what it answers and changes.
The guarantees are lemmas about those functions and about arbitrary runs of them; for most operations
one of them gives the answers from the calls made so far, without the function. Database tables are maps or sequences, and each SQL statement is
atomic. Modules, in dependency order:

| module | what it covers |
|---|---|
| `Base`, `Recency` | small datatypes; recency order of keys, shared by both LRU maps |
| `TokenCache` | the resolved-token cache: TTL, LRU, sequence counter, eviction stamps |
| `RevokeProtocol` | any number of resolvers racing any number of revokers, one lock section or statement a step |
| `TokenFormat`, `Accounts`, `TokenResolution`, `ResolveToken` | token text, principals, the digest / id / legacy-scan resolver against the plain scan, and the cache in front of it |
| `TokenBucket`, `SlidingWindow` | the two rate limiters |
| `DocVersions`, `DocStore` | compare-and-swap updates and the capped revision log against whole histories; the store with publish, update, fork, retitle and delete |
| `Pagination` | the paginators, and walks over tables that change between pages |
| `DeviceFlow` | device codes, polling, confirmation (section 3.5 of RFC 8628) |
| `MagicLink` | single-use links with garbage collection |
| `Invites` | invites, acceptance, the silent grant by email |
| `Access` | permission checks, grants, revokes, accepted invites, visibility, share tokens |
| `EmailQueue` | the dispatcher with retries and stop |

Assumptions that are parameters or hypotheses of contracts: SHA-256 is injective and Argon2 verifies
exactly the minted plaintext (`TokenResolution.Injective`, `WellMinted`; `Invites.Exact`); generated ids,
tokens and secrets are fresh; the cursor encoding is faithful (`Pagination.Faithful`); the signature layer
of magic links accepts ages 0 through `max_age` (`MagicLink.Fresh`); clocks do not run backwards and floats
are reals. The rate limiters need a capacity, limit and maximum of at least 1. Calls of the device flow,
magic links and invites are taken one at a time; concurrency is modelled for the token cache. Random
numbers, clock readings and send outcomes are arguments.

## Where the code differs from its documentation or from what a reader may expect

- Magic links: the documentation says collected rows can never collide with a valid later use. The call
  reads the clock twice, and a link used in the second it was issued is accepted again in its last valid
  second when the clock ticks between the two readings. `MagicLink.ReplayExists` is such a run for every
  validity period, `ReplayIff` is the exact condition, and `SingleUse` holds whenever a call sees one second.
- Device flow: five failed confirmations are said to lock a row against guessing. A confirmation of a pending
  row can only fail after the row's expiry, when every later one fails too, so the lock never changes an answer:
  `DeviceFlow.LockChangesNoAnswer` compares every run with the same run without it.
- Device flow: polling has an answer for the status `denied`, which no call sets, so no poll ever gets it
  (`DeviceFlow.EveryPollAnswer`).
- Silent grants: granting again to an address with an active invite answers with the new level but keeps the
  invite at its old one (`Invites.RegrantKeepsOldLevel`; exact condition in `SilentGrantLevelIff`).
- Access: a direct "view" grant to an agent that could edit through its owner takes edit away
  (`Access.ViewGrantLowersAgent`; exact condition in `GrantSetsStanding`).
- Revokes: an invite outlives a revoke, so a revoked user is back by accepting an active invite to the document
  (`Access.InvitesOutliveRevoke`, an exact condition).
- Pagination: a row that matches throughout is not always returned. `Pagination.UpdatedRowIsSkipped` is such a run;
  with timestamps that only move forward a finished walk misses the row if and only if, between two pages, it was
  updated from below the cursor to at or above it (`MissedIffJumped`). A row whose key does not change is never missed.
- Forks: the title of a fork is written by a separate statement without a new version. With updates in between, the
  result is that of a fork titled from the start if and only if none of them succeeded (`DocVersions.LateRetitleIff`).

## Model

| member | source | states |
|---|---|---|
| `Recency.BoundedIsMostRecent` | src/markland/service/rate_limit.py:64-67 | a bounded list trimmed after every touch is the tail of the unbounded recency list |
| `Recency.SurvivesIff` | src/markland/service/rate_limit.py:57-67 | after any touches a key is still tracked exactly when fewer than the maximum of distinct other keys were touched since its own last touch |
| `Recency.NewerIsSince` | src/markland/service/rate_limit.py:57-67 | the keys more recent than a key are the distinct keys touched since its last touch |
| `TokenCache.ResolvedTokenCache.Get` | src/markland/service/auth.py:292-302 | serves an unexpired entry and makes its key the most recent; an expired one is deleted and not served |
| `TokenCache.ResolvedTokenCache.Put` | src/markland/service/auth.py:304-321 | dropped exactly when the cache was cleared or the principal evicted after the snapshot; otherwise the entry is there with the expiry fixed at the start of the resolve, at the end of the order, the oldest entries popped and no other entry changed |
| `TokenCache.ResolvedTokenCache.PopOldest` | src/markland/service/auth.py:320-321 | the pop loop leaves exactly the most recent maximum of entries |
| `TokenCache.ResolvedTokenCache.EvictPrincipal` | src/markland/service/auth.py:323-329 | whole new cache state: the counter advances, the principal is stamped, exactly its entries go |
| `TokenCache.ResolvedTokenCache.StaleKeys` | src/markland/service/auth.py:327 | finds exactly the keys whose entry belongs to the principal |
| `TokenCache.ResolvedTokenCache.Clear` | src/markland/service/auth.py:331-335 | empties the cache and stamps the clear |
| `TokenCache.RunKeepsInv` | src/markland/service/auth.py:250-339 | over every history the cache stays within its maximum, holds each key once in recency order, and no stamp exceeds the counter |
| `TokenCache.PutAcceptedIff` | src/markland/service/auth.py:304-335 | over every history a put is accepted if and only if neither a clear nor an eviction of its own principal happened since its begin snapshot |
| `TokenCache.EvictIsScoped` | src/markland/service/auth.py:323-329 | an eviction removes every entry of its principal, no other, and keeps the others' order |
| `TokenCache.Survives` | src/markland/service/auth.py:292-329 | an entry stays unchanged, however often it is hit, while fewer than the maximum of other keys are newer or touched, and nothing evicts, clears, expires or rewrites it |
| `TokenCache.LastsIff` | src/markland/service/auth.py:292-335 | over every history an entry lasts if and only if it is never cleared, evicted, expired or replaced and no put brings the keys that moved since its own last hit, and are still cached, to the maximum |
| `TokenCache.LostOnlyBy` | src/markland/service/auth.py:292-335 | one operation loses an entry if and only if it is a clear, an eviction of its principal, its expiry, or an accepted put of a new key into a full cache where it is the oldest |
| `RevokeProtocol.StepKeepsInv` | src/markland/service/auth.py:497-508 | every step of resolvers, revokers, minting, table changes and out-of-process writes keeps the protocol invariant |
| `RevokeProtocol.RunKeepsInv` | src/markland/service/auth.py:207-244 | so does every interleaving |
| `RevokeProtocol.RevokedEntryMeansEvictionPending` | src/markland/service/agents.py:181-190 | while an entry exists for a token or agent an in-process revoker has marked revoked, that revoker's eviction is still pending |
| `RevokeProtocol.NoHitAfterRevokeReturns` | src/markland/service/auth.py:704-724 | once a revoke whose write took effect has returned, no later cache hit yields the token, or any token of the revoked agent |
| `RevokeProtocol.OwnRevokeTakesEffect` | src/markland/service/auth.py:704-724 | a committed revoke of a row by its own principal always takes effect: once it returned, whatever interleaves, the row is revoked and no hit yields a token it stops |
| `RevokeProtocol.WriteKeepsInv` | src/markland/web/routes_agents.py:146-156 | the write step keeps the invariant whether or not it took effect; eviction follows in either case |
| `RevokeProtocol.RevocationBindsWithinTtl` | src/markland/service/auth.py:241-246 | a write from outside the process binds from `revoked_at` plus the TTL on |
| `RevokeProtocol.ServedIsFresh` | src/markland/service/auth.py:287-319 | whatever a hit serves was built by a resolve of that key which began after now minus the TTL, and is the token's own user or agent with the name, admin flag and owner id its row had at some time since that resolve began |
| `RevokeProtocol.ResolveGoesThrough` | src/markland/service/auth.py:453-508 | from every state a resolve of a live token whose owner stands goes through undisturbed, and is then served until exactly one TTL after it began |
| `TokenFormat.ParseFormat` | src/markland/service/auth.py:86-147 | parsing a formatted token returns its type, id and secret, underscores included |
| `TokenFormat.FormatParse` | src/markland/service/auth.py:86-147 | formatting a successful parse gives back the exact plaintext |
| `TokenFormat.ParseIff` | src/markland/service/auth.py:86-147 | a plaintext parses to a type, id and secret exactly when it is `mk_usr_` or `mk_agt_`, the sixteen hex digits, an underscore and the secret |
| `TokenResolution.TokenStore.ResolveByDigest` | src/markland/service/auth.py:545-555 | answers as the plain scan exactly when the matching row has a digest |
| `TokenResolution.TokenStore.ResolveByTokenId` | src/markland/service/auth.py:558-593 | answers as the plain scan exactly when the matching row has no digest and is the one named by id and type; at most one verify |
| `TokenResolution.TokenStore.ResolveLegacy` | src/markland/service/auth.py:596-622 | answers as the plain scan exactly when the matching row has no digest and predates the cutoff; at most one verify a candidate |
| `TokenResolution.TokenStore.ResolveUncached` | src/markland/service/auth.py:511-527 | the answer is the owner of the live row whose plaintext it is, user or agent field by field, and None exactly when there is no such row or the owner is unknown or revoked; only that row is stamped and backfilled, at most one verify more than `legacy_scan`, none when the row has its digest |
| `TokenResolution.ReferenceIsRight` | src/markland/service/auth.py:625-701 | verifying every live row answers with exactly the principal the tables give the plaintext's owner: id, type, display name, admin flag and, for a user-owned agent only, the owner's id |
| `TokenResolution.TokenStore.BuildPrincipalAndTouch` | src/markland/service/auth.py:625-701 | the principal of a known user or unrevoked agent; touch and backfill of that row alone, if the write lands |
| `TokenResolution.BackfillKeepsAnswers` | src/markland/service/auth.py:642-701 | the backfill keeps the minting rules and the answer for every plaintext |
| `TokenResolution.DigestsStayUnique` | src/markland/service/auth.py:642-664 | no two rows ever hold the same digest |
| `TokenResolution.CountersNeverGrow` | src/markland/service/auth.py:752-774 | no resolve, mint or revoke increases `without_digest` or `legacy_scan` |
| `TokenResolution.FallbackLowersCounter` | src/markland/service/auth.py:752-774 | a fallback success whose touch lands lowers `without_digest` by exactly one |
| `TokenResolution.BackfillsAreBounded` | src/markland/service/auth.py:752-774 | over any run at most `without_digest` such resolves happen |
| `TokenResolution.MintKeepsRules` | src/markland/service/auth.py:365-427 | a mint keeps the table rules and the new plaintext resolves to its own principal |
| `TokenResolution.RevokeKeepsRules` | src/markland/service/auth.py:704-724 | revoking rows or agents keeps the table rules |
| `TokenResolution.RevokeStopsExactly` | src/markland/service/agents.py:167-190 | revoking a token stops that token alone from resolving, revoking an agent exactly the tokens of that agent |
| `ResolveToken.Authenticator.Resolve` | src/markland/service/auth.py:453-508 | a hit reads nothing; a miss answers as the plain scan and is then served until exactly one TTL after the snapshot; failures are not cached |
| `TokenBucket.RateLimiter.CheckKey` | src/markland/service/rate_limit.py:51-77 | decision and whole new limiter state of one check; a key without a bucket is allowed and left with the capacity and period of its tier, of "anon" when its tier is unknown, or 20 per 60 seconds, less one token |
| `TokenBucket.RateLimiter.Track` | src/markland/service/rate_limit.py:64-67 | a new key enters as most recent and the pop loop leaves the most recent maximum |
| `TokenBucket.RunKeepsInv` | src/markland/service/rate_limit.py:51-77 | in every run levels stay between zero and the capacity and the map within its maximum |
| `TokenBucket.RunExtends` | src/markland/service/rate_limit.py:51-77 | any further call in time order extends a run |
| `TokenBucket.AllowedIsBounded` | src/markland/service/rate_limit.py:55-77 | allowed checks plus the level left are at most the starting level plus refill plus one bucket for each time the key was evicted |
| `TokenBucket.AdmissionBound` | src/markland/service/rate_limit.py:55-77 | in any interval [s, t] a key that keeps its bucket gets at most cap + cap * (t - s) / period |
| `TokenBucket.GainIsRate` | src/markland/service/rate_limit.py:69-70 | the refill is `capacity` tokens every `period` seconds |
| `TokenBucket.NewKeyIsAllowed` | src/markland/service/rate_limit.py:63-72 | in every run a check of a key without a bucket is allowed |
| `TokenBucket.DeniedIff` | src/markland/service/rate_limit.py:55-77 | while a key keeps the bucket some check gave it, a check is denied if and only if a bucket that was full at some check since would by now, refilled and less the checks allowed since, hold under one token |
| `TokenBucket.BurstIsAllowed` | src/markland/service/rate_limit.py:63-72 | a new key's first `capacity` checks are all allowed while it keeps its bucket |
| `TokenBucket.BirthOf` | src/markland/service/rate_limit.py:57-67 | every bucket of a run from a fresh limiter was given by some check and kept since |
| `TokenBucket.RetryAfterIsExact` | src/markland/service/rate_limit.py:69-77 | after a denial, however many denied checks fall in between, the next check is allowed if and only if it comes `retry_after` later or more |
| `TokenBucket.TracksMostRecent` | src/markland/service/rate_limit.py:57-67 | the keys tracked are the most recently checked ones |
| `TokenBucket.KeptIff` | src/markland/service/rate_limit.py:57-67 | a key keeps its bucket exactly while fewer than `max_keys` distinct other keys were checked since its last check |
| `SlidingWindow.SlidingWindowRateLimiter.Check` | src/markland/web/device_routes.py:56-70 | for every `prune_every`, a check is admitted exactly when fewer than `limit` admitted hits of its key lie in the closed window before it, and `retry_after` counts from the oldest of these |
| `SlidingWindow.SlidingWindowRateLimiter.Prune` | src/markland/web/device_routes.py:72-76 | dropping stale keys keeps that correspondence |
| `SlidingWindow.SlidingWindowRateLimiter.LiveHits` | src/markland/web/device_routes.py:63-65 | popping stale hits leaves exactly the recent times of the log |
| `SlidingWindow.HitsSpread` | src/markland/web/device_routes.py:56-70 | any limit + 1 admitted hits of a key span more than the window |
| `SlidingWindow.DeniedIff` | src/markland/web/device_routes.py:63-70 | the popped and pruned deque decides as counting the admitted hits in the window does, on every log |
| `SlidingWindow.WindowBound` | src/markland/web/device_routes.py:56-70 | no closed interval of the window's length admits more than `limit` hits |
| `SlidingWindow.RetrySuffices` | src/markland/web/device_routes.py:66-68 | after a denial a check is admitted exactly when the oldest recent hit has left the window; waiting `retry_after` is enough and at most one second too long |
| `DocStore.DocumentStore.PublishNew` | src/markland/service/docs.py:121-162 | refused exactly over a million bytes or 500 characters; else version 1 with the content and owner given, no fork link, and the title given or, when none or empty, the one taken from the content |
| `DocStore.DocumentStore.UpdateDoc` | src/markland/service/docs.py:577-667 | too large, missing, conflict with the current state, or success: title and content each as sent or else as they were, version plus one, owner and fork link kept; tables and histories still agree |
| `DocStore.DocumentStore.Commit` | src/markland/service/docs.py:623-648 | snapshot, new row and prune, and one step of the history |
| `DocStore.DocumentStore.Fork` | src/markland/service/docs.py:370-417 | refusals; with nobody in between, the content of the source at version 1 for the new owner, linked to the source, titled as asked or "Fork of" its title, with one seed revision holding the source's text |
| `DocStore.DocumentStore.CopyDoc` | src/markland/service/save.py:38-65 | the copy and its one seed revision |
| `DocStore.DocumentStore.RetitleDoc` | src/markland/service/docs.py:406-415 | the title override as a step of its own: only the title changes, no version, no revision, nothing if the fork is gone |
| `DocStore.DocumentStore.DeleteDoc` | src/markland/db.py:537-541 | the document goes with its revisions, the fork links to it become null, and nothing else changes |
| `DocStore.DoKeepsOk` | src/markland/service/docs.py:577-667 | publish, update, copy, retitle and delete each keep every document's row and revisions in agreement with its history |
| `DocStore.HistoryFollowsCalls` | src/markland/service/docs.py:604-650 | in every run the history of a published document is its first text served the updates sent since |
| `DocStore.PublishedInEveryRun` | src/markland/service/docs.py:604-650 | over any run of all these calls, a published document's version is one plus the updates that won, its title and its content are each those of the last winner that sent one, else the first, and its stored revisions are exactly the last min(50, version - 1) states, each with the text of its version |
| `DocStore.OwnerStays` | src/markland/service/docs.py:638-646 | over any run a document keeps its owner until it is deleted, its version never falls, and its fork link stays until its source is deleted |
| `DocVersions.LateRetitleIff` | src/markland/service/docs.py:401-415 | with updates between copy and retitle, the outcome is that of a fork titled from the start exactly when none of them succeeded |
| `DocVersions.RetitleOk` | src/markland/service/docs.py:406-415 | the retitle rewrites the text of the current version and keeps tables and histories in agreement |
| `DocVersions.VersionCountsSuccesses` | src/markland/service/docs.py:604-650 | over any run of clients the version is the starting one plus the number of successful updates |
| `DocVersions.PublishedDocument` | src/markland/service/docs.py:604-650 | agreement with such a history fixes the stored version, text and revisions of a published document |
| `DocVersions.EachVersionWinsOnce` | src/markland/service/docs.py:616-622 | each `if_version` succeeds at most once |
| `DocVersions.LastSentStays` | src/markland/service/docs.py:604-650 | over any run of clients the version counts the winners, and title and content are each what the last winner that sent one sent, else what they were at first |
| `DocVersions.WinnerMergesItsBase` | src/markland/service/docs.py:624-648 | a winner's state has the title and the content it sent, or those of the very state its `if_version` named, and stays on record |
| `DocVersions.PruneKeepsLast` | src/markland/db.py:834-852 | the prune leaves exactly the last `keep` revisions of its document |
| `DocVersions.PruneSparesOthers` | src/markland/db.py:834-852 | and every revision of every other document |
| `DocVersions.AppendAndPrune` | src/markland/db.py:803-852 | inserting then pruning keeps the stored revisions equal to the newest part of all ever written |
| `DocVersions.CommitOk` | src/markland/service/docs.py:604-650 | an update keeps every document's stored text, version and revisions in agreement with its history |
| `DocVersions.CreateOk` | src/markland/service/save.py:38-65 | so does creating a document, seeded or not |
| `DocVersions.RemoveOk` | src/markland/db.py:537-541 | so does deleting one |
| `DocVersions.StoredRevisions` | src/markland/service/docs.py:574-650 | a published document stores exactly its last min(50, version - 1) superseded states, in order, each as it was |
| `DocVersions.StoredRevisionsOfFork` | src/markland/service/save.py:56-65 | a fork stores its seeded version-1 revision in addition, until fifty later ones push it out |
| `Pagination.LessIsStrictTotalOrder` | src/markland/_mcp_envelopes.py:70-72 | the (sort key, id) order of the queries is a strict total order |
| `Pagination.TextLessIff` | src/markland/_mcp_envelopes.py:70-72 | text is ordered by the first character that differs, the smaller one first; a proper prefix is smaller |
| `Pagination.LessIff` | src/markland/_mcp_envelopes.py:70-72 | rows are ordered by sort key and then by id, each by its first difference |
| `Pagination.Select` | src/markland/service/docs.py:200-213 | the greatest matching rows below the cursor in descending order, up to the limit |
| `Pagination.ListPaginated` | src/markland/service/docs.py:188-223 | clamped limit, malformed cursors refused, and otherwise the page its cursor asks for, newest first and equal sort keys in falling id order, with a next cursor exactly when rows are left |
| `Pagination.WalkDescends` | src/markland/service/grants.py:555-595 | whatever happens to the table between pages, a walk descends strictly, so no (sort key, id) is returned twice |
| `Pagination.ReturnedWasThere` | src/markland/service/agents.py:122-164 | every row returned was matching when its page was read |
| `Pagination.NothingSkipped` | src/markland/service/docs.py:188-223 | a row that stays unchanged has been returned once the cursor is at or below it |
| `Pagination.EveryStayingRowOnce` | src/markland/service/docs.py:491-507 | a finished walk returns every row that stayed exactly once |
| `Pagination.StaticWalkIsFullListing` | src/markland/service/docs.py:188-223 | the pages of a static table concatenate to its full sorted list |
| `Pagination.EndsWhenFull` | src/markland/service/docs.py:209-220 | a static walk ends exactly when its pages can hold the table |
| `Pagination.NoIdTwice` | src/markland/service/invites.py:310-336 | when sort keys never fall, no row appears twice in a walk even if it is updated |
| `Pagination.UpdatedRowIsSkipped` | src/markland/service/docs.py:188-223 | a run in which a row moved behind the cursor is not returned |
| `Pagination.MissedIffJumped` | src/markland/service/docs.py:188-223 | with timestamps that only move forward, a finished walk misses a row that matched throughout if and only if between two pages it moved from below the cursor to at or above it |
| `Pagination.MissedMeansJump` | src/markland/service/docs.py:188-223 | the only-if half holds however timestamps move |
| `Pagination.ClientWalksAreWalks` | src/markland/_mcp_envelopes.py:57-97 | sending back the text of each cursor gives such a walk |
| `DeviceFlow.DeviceStore.Start` | src/markland/service/device_flow.py:122-157 | a pending row with a user code no other row has, expiring 600 seconds from now in whole seconds, or no change after ten taken candidates |
| `DeviceFlow.DeviceStore.UniqueUserCode` | src/markland/service/device_flow.py:104-114 | the code found is unused; none is found only if all ten candidates are used |
| `DeviceFlow.DeviceStore.PollOnce` | src/markland/service/device_flow.py:165-227 | answer and new row of one poll, one token minted exactly on the token answer, no device code ever has two; what the answers are over whole runs is `EveryPollAnswer` |
| `DeviceFlow.DeviceStore.Lookup` | src/markland/service/device_flow.py:235-249 | device code first, then normalized user code; the row found is the only one |
| `DeviceFlow.DeviceStore.Authorize` | src/markland/service/device_flow.py:252-349 | answer and new row of one confirmation, bound or one more failure; the invite is tried only on success and never blocks it |
| `DeviceFlow.DeviceStore.BumpAndMaybeLock` | src/markland/service/device_flow.py:275-305 | one more failure on record, and the fifth expires a row that is still pending |
| `DeviceFlow.RunExplained` | src/markland/service/device_flow.py:165-349 | after any run the row is what its history says: its user is the first to confirm in time, and it is marked expired only after its expiry |
| `DeviceFlow.EveryPollAnswer` | src/markland/service/device_flow.py:165-227 | every poll from its history: slow_down exactly when a poll answered pending or with a token came less than five seconds before, its time in whole seconds; else expired after a token or from the expiry on; else the token of the user bound first, or pending while there is none; never denied |
| `DeviceFlow.EveryConfirmAnswer` | src/markland/service/device_flow.py:307-340 | every confirmation from its history: refused as expired from the expiry on, as already authorized after a successful one, else bound |
| `DeviceFlow.BoundIffFirstInTime` | src/markland/service/device_flow.py:307-340 | a confirmation succeeds exactly when it is the first before the expiry |
| `DeviceFlow.AtMostOneToken` | src/markland/service/device_flow.py:182-219 | a device code yields at most one token |
| `DeviceFlow.TokenIsForTheBinder` | src/markland/service/device_flow.py:206-219 | the token is for the user of the first successful confirmation, and before the expiry |
| `DeviceFlow.TokenIsDelivered` | src/markland/service/device_flow.py:176-219 | once confirmed, the first poll that is neither too soon nor too late gets it |
| `DeviceFlow.NoSlowDownAfterWindow` | src/markland/service/device_flow.py:176-180 | a poll five seconds after the last heard one is not slowed down |
| `DeviceFlow.HeardPollsAreSpread` | src/markland/service/device_flow.py:92-93 | two polls answered pending or with a token are more than four seconds apart despite truncation |
| `DeviceFlow.ConsumedIsAuthorized` | src/markland/service/device_flow.py:206-219 | a consumed row is authorized |
| `DeviceFlow.NeverPendingAgain` | src/markland/service/device_flow.py:165-349 | no call makes a row pending again |
| `DeviceFlow.FailuresOnlyAfterExpiry` | src/markland/service/device_flow.py:275-314 | a pending row has failed confirmations only after its expiry |
| `DeviceFlow.LockChangesNoAnswer` | src/markland/service/device_flow.py:275-305 | every poll and confirmation is answered as in the same run without the lock |
| `DeviceFlow.ShownCodeReadsBack` | src/markland/service/device_flow.py:50-59 | the code shown to the user normalizes back to the stored one |
| `DeviceFlow.SeparatorsDoNotCount` | src/markland/service/device_flow.py:50-59 | dashes and white space typed anywhere in a code change nothing, and a code without them is left as it is |
| `MagicLink.MagicLinks.Consume` | src/markland/service/magic_link.py:106-137 | which refusal each bad token gets, in order; on success the answer and the stored row carry the email in the token; collection and insert-unless-present as one step |
| `MagicLink.EveryAnswer` | src/markland/service/magic_link.py:106-137 | every answer from the calls before it: forged, expired or malformed is said first, an id accepted within the last `max_age` seconds is already used, and otherwise the answer is the email in the token |
| `MagicLink.AcceptedAgainIff` | src/markland/service/magic_link.py:119-136 | after an acceptance, a link is accepted again exactly when its signature passes and the table reading is more than `max_age` later |
| `MagicLink.ReplayNeedsATick` | src/markland/service/magic_link.py:106-136 | two acceptances of one link need the clock to advance across its last second inside the later call |
| `MagicLink.SingleUse` | src/markland/service/magic_link.py:95-104 | when a call sees one second, every link is accepted at most once although rows are deleted |
| `MagicLink.ReplayIff` | src/markland/service/magic_link.py:106-136 | with at most one tick a call, the exact timing in which a second use goes through |
| `MagicLink.ReplayExists` | src/markland/service/magic_link.py:106-136 | such a run, for every validity period |
| `MagicLink.FirstUseSucceeds` | src/markland/service/magic_link.py:106-137 | the first presentation of a good link is accepted |
| `Invites.InviteService.CreateInvite` | src/markland/service/invites.py:57-131 | one use, or a million, and the row appended |
| `Invites.InviteService.ResolveInvite` | src/markland/service/invites.py:160-185 | the scan finds the first live row that verifies, and nothing exactly when no row is unrevoked, unspent, unexpired and of this token |
| `Invites.InviteService.AcceptInvite` | src/markland/service/invites.py:195-241 | takes exactly one use of an open invite and raises the grant to its level, from its creator, unless it was as high; nothing changes when no open invite has the token |
| `Invites.InviteService.RevokeInvite` | src/markland/service/invites.py:261-279 | creator only, the first revocation time stays, no other row changes |
| `Invites.InviteService.GrantViaInvite` | src/markland/service/grants.py:346-474 | reuses the addressee's active invite, else appends a single-use one at the asked level, from the granter, for seven days; the answer is the same function of the request in both cases |
| `Invites.AcceptNeverLowers` | src/markland/service/invites.py:220-241 | accepting lowers no grant and ends exactly at the higher of the old and the invite's level |
| `Invites.ResolvesToItsInvite` | src/markland/models.py:93-100 | a token resolves exactly when its own invite is active, and then to it |
| `Invites.AcceptOk` | src/markland/service/invites.py:213-218 | accepted uses plus remaining uses stay constant, and at most one active invite per document and addressee stays |
| `Invites.AcceptedAtMost` | src/markland/service/invites.py:92 | a single-use invite is accepted at most once, others at most a million times, and a used-up one is never active again |
| `Invites.AppendOk` | src/markland/service/grants.py:374-393 | appending an invite keeps the books, given no active one for its addressee |
| `Invites.RevokeOk` | src/markland/service/invites.py:275-279 | revoking keeps them |
| `Invites.FindsTheOne` | src/markland/service/invites.py:134-157 | the search for an addressee's active invite finds the only one |
| `Invites.SilentGrantLevelIff` | src/markland/service/grants.py:374-393 | after a silent grant the addressee has one active invite, at the granted level exactly when there was none before or it already had that level |
| `Invites.RegrantKeepsOldLevel` | src/markland/service/grants.py:374-379 | a run in which a second grant leaves the old level |
| `Access.StandingDecides` | src/markland/service/permissions.py:61-150 | every answer follows from one standing: the first of ownership, own grant, inheritance and publicity that says anything |
| `Access.AllowedIsDownwardClosed` | src/markland/service/permissions.py:76-150 | owner implies edit implies view; NotFound does not depend on the action |
| `Access.OnlyTheOwnerOwns` | src/markland/service/permissions.py:45-58 | owner actions are allowed exactly to the owning user, never to an agent |
| `Access.ViewChecksAgree` | src/markland/service/save.py:11-22 | `user_can_view` agrees with the view check for users |
| `Access.UserAnswer` | src/markland/service/permissions.py:76-150 | what a user is told and why: owner, own grant, public, in this order, with the reason and the refusal of each |
| `Access.AgentsInherit` | src/markland/service/permissions.py:96-131 | a user's agent without a grant of its own is answered as its user, reason included, when it asks to view or edit, and never passes for the owner |
| `Access.GrantReachesAgents` | src/markland/service/permissions.py:117-131 | a grant to a user reaches the user and those agents: to view, to edit exactly at level edit, never to own |
| `Access.RevokeCutsOff` | src/markland/service/grants.py:488-512 | after a revoke on a private document the user, its agents without direct grants and the old share token reach nothing |
| `Access.RevokeIsScoped` | src/markland/service/grants.py:495-512 | other documents and other principals are unaffected |
| `Access.RevokeOfNothing` | src/markland/service/grants.py:496-497 | a revoke that finds no grant changes nothing, not even the share token |
| `Access.ClosingKillsTheLink` | src/markland/service/docs.py:693-707 | changing visibility kills the old link exactly when it goes from public to private |
| `Access.GrantSetsStanding` | src/markland/db.py:673-699 | a grant sets the standing of anyone but the owner to the granted level, and takes edit away exactly when it says view to someone who could edit |
| `Access.ViewGrantLowersAgent` | src/markland/service/permissions.py:87-94 | an agent that could edit through its owner, cut down by a direct view grant |
| `Access.RunKeepsTokensOk` | src/markland/db.py:579-598 | in every reachable state each document has a share token of its own, one that was handed out |
| `Access.DeadLinksStayDead` | src/markland/db.py:579-598 | over every run, a share link that has stopped working never works again |
| `Access.GrantsFollowHistory` | src/markland/db.py:673-710 | over every run of grants, revokes, deletions and accepted invites, a grant row has the level the calls give: the last grant sets it, an accepted invite raises it, a revoke or deletion ends it |
| `Access.DocsFollowHistory` | src/markland/service/docs.py:138-146 | in every reachable state a document is public exactly as its publisher or, later, its owner last asked, belongs to whom it was published for, and is there until its owner deletes it |
| `Access.LinkStep` | src/markland/service/docs.py:693-707 | a share token changes exactly when the owner closes the public document or revokes an existing grant on the private one |
| `Access.InvitesStay` | src/markland/service/grants.py:495-512 | no grant, revoke, visibility change, acceptance or deletion removes or changes an invite row |
| `Access.HeldWasGiven` | src/markland/service/invites.py:220-241 | whoever holds a grant got it from an owner's grant or an accepted invite, with no revoke or deletion since |
| `Access.GivenIsHeld` | src/markland/service/invites.py:220-241 | and whoever got one and lost it to neither still holds it |
| `Access.InvitesComeFromOwners` | src/markland/server.py:407-428 | every invite in every reachable state was created by the owner of its document, at its level |
| `Access.UsersSeeWhatOwnersGave` | src/markland/service/permissions.py:76-150 | in every reachable state a user sees a private document exactly as its owner, or when an owner's grant or an accepted invite gave access and no later call took it; edits go by the level so held |
| `Access.InvitesOutliveRevoke` | src/markland/service/grants.py:495-512 | after a revoke the user is back exactly by accepting an invite to that document, at the invite's level |
| `Access.AccessService.PublishDoc` | src/markland/service/docs.py:138-146 | a new document with the owner, visibility and share token given |
| `Access.AccessService.GrantTo` | src/markland/service/grants.py:87-120 | owner only; an upsert |
| `Access.AccessService.RevokeFrom` | src/markland/service/grants.py:488-512 | owner only; delete, then rotate if a grant went and the document is private |
| `Access.AccessService.SetDocVisibility` | src/markland/service/docs.py:686-712 | owner only; the visibility asked for, the owner kept, a new token exactly on public to private |
| `Access.AccessService.MakeInvite` | src/markland/server.py:407-428 | owner only; the invite row |
| `Access.AccessService.AcceptInvite` | src/markland/service/invites.py:220-241 | asks only whether the invite is active; keeps a high enough grant, else upserts a user grant |
| `Access.AccessService.DeleteDoc` | src/markland/db.py:537-541 | owner only; grants and document go |
| `EmailQueue.EmailDispatcher.EnqueueEmail` | src/markland/service/email_dispatcher.py:189-208 | a new email at the end of the queue |
| `EmailQueue.EmailDispatcher.StartWorker` | src/markland/service/email_dispatcher.py:169-174 | starts once and clears the stop flag; nothing else changes |
| `EmailQueue.EmailDispatcher.StopWorker` | src/markland/service/email_dispatcher.py:176-187 | abandons only the send under way; queue and timers stay |
| `EmailQueue.EmailDispatcher.TakeNext` | src/markland/service/email_dispatcher.py:217-226 | the worker takes the oldest email and starts a send |
| `EmailQueue.EmailDispatcher.Process` | src/markland/service/email_dispatcher.py:228-265 | sent is delivered; a transient failure waits for its next try while delays are left, the delay being the configured one plus jitter, not negative; any other failure is dropped |
| `EmailQueue.EmailDispatcher.TimerFired` | src/markland/service/email_dispatcher.py:267-275 | back to the queue, or abandoned when stopped |
| `EmailQueue.StepConserves` | src/markland/service/email_dispatcher.py:189-275 | no step loses, copies or invents an email |
| `EmailQueue.ExactlyOnePlace` | src/markland/service/email_dispatcher.py:189-275 | in every reachable state each enqueued email is in exactly one of queued, sending, waiting, delivered, dropped, abandoned |
| `EmailQueue.SendsAreBounded` | src/markland/service/email_dispatcher.py:246-252 | an email is sent at most len(retry_delays) + 1 times, and all sends are paid for by enqueues |
| `EmailQueue.StepRemaining` | src/markland/service/email_dispatcher.py:228-265 | the total of remaining attempts falls by exactly one with each send and never rises without an enqueue |
| `EmailQueue.QueueComesToRest` | src/markland/service/email_dispatcher.py:217-275 | once nothing more is enqueued only as many sends follow as remained |
| `EmailQueue.DroppedAfterLastTry` | src/markland/service/email_dispatcher.py:246-264 | a transient failure drops an email exactly at its last allowed send |
| `EmailQueue.EndsWhereItShould` | src/markland/service/email_dispatcher.py:228-275 | over any run an email is delivered exactly when a send of it ended well, dropped exactly when a send failed for good or failed as the last one allowed, and abandoned exactly when a stop cut its send or found its timer |
| `EmailQueue.NoSendAfterTheEnd` | src/markland/service/email_dispatcher.py:217-275 | after any of these no send of it starts |
| `EmailQueue.FirstSendsInOrder` | src/markland/service/email_dispatcher.py:189-226 | first sends happen in the order of the enqueues, none left out |
| `EmailQueue.FinalIsFinal` | src/markland/service/email_dispatcher.py:176-275 | delivered, dropped and abandoned are final, and only a stop abandons |
| `EmailQueue.RestMeansSettled` | src/markland/service/email_dispatcher.py:217-275 | with the worker at rest and no timer left every email is settled, and none abandoned without a stop |

## Left out

- Web routing, templates, cookies, sessions, search, bookmarks, presence, metrics, audit rows, admin scripts and the waitlist: presentation or short claims.
- SQLite itself: query plans, locks, migrations and durability; a statement is atomic and a revoker's write may or may not have taken effect.
- SHA-256, Argon2, itsdangerous, JSON, base64 and random generators: parameters with the hypotheses listed above.
- Cursors whose JSON is not two strings, and the revisions paginator, whose id column is an integer compared with text.
- TokenResolution.VerifyEveryLiveRow: rows with a principal type other than user or agent, which the minting code never writes, are not modelled.
- TokenResolution.Scan: two rows verifying the same plaintext are excluded by the minting rules; the order of SQL results then does not matter.
- RevokeProtocol: the three lookups of one resolve are one token read that may be repeated; the principal read is separate.
- DocStore.DocumentStore.UpdateDoc: the permission check comes before the transaction and is modelled in `Access`; timestamps and the acting principal of a revision are not stored.
- DocStore.DocumentStore.CopyDoc: the copy and its seed revision are one step; an update between these two statements is not modelled.
- DeviceFlow.NormalizeUserCode: upper-casing and white space are parameters that leave the code alphabet alone; Unicode is not modelled.
- DeviceFlow: two calls on one row at the same time; calls are serial.
- Invites.InviteService.GrantViaInvite: the emails are left out, and the hash behind the synthetic principal id is a parameter; the owner check is modelled in `Access`.
- Invites: times are numbers, not ISO text.
- Access.AccessService.AcceptInvite: whether the invite is active is an argument here and decided in `Invites`; uses and expiry are there too.
- Access.AccessService.GrantTo: resolving an email or agent id to a principal, and the refusal of revoked agents, come before it.
- EmailQueue: an item is a value held in one place at a time, not a shared object; which failures count as permanent is part of the outcome.
