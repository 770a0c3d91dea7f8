# Verified models of the platform's runtime protocols

This project models the small protocols on which a multi-tenant commerce platform rests (message redelivery,
caches, claims, rate limits, a rule language, a boot-time graph scan, tenant provisioning and the entitlement
guard) and proves what their comments promise, for all inputs and all runs. `dafny verify dfyconfig.toml` checks
everything.

## How the models are built

* Code that changes state is a class whose methods have the source's branches in the source's order. The
  `ensures` of each method gives its whole new state as a function of the old one.
* Code with `await` in it is also a state machine over its steps: an event is one uninterrupted stretch of one
  call, a run is any sequence of events, and an event that does not apply changes nothing. Every interleaving,
  crash, duplicate and failed reply is therefore a run. Class and machine are tied: either the methods are the
  machine's steps (`TenantGate`, `TokenStore`, `Watchdog`, `CacheRuns`), or a lemma shows that one call with nothing in between
  is the machine's steps in a row (`Idempotency`, `KafkaConsumer`, `Provisioner`, `EntitlementGuard`).
* What an operation means is also stated apart from how it is computed: laws on its results in the terms of its inputs
  (`ExpressionLaws`, `RuleSetLaws`, `IdempotencyAnswers`, `TenantGateAnswers`, `ProvisioningLaws`, `KafkaIds` and the
  tables in `Guard` and `WatchdogPass`).
* A call to another system ends in one of three ways (`Common.Reply`): done, done but reported as failed, not done.
* Clocks, random bytes, tokens, the serializer, header number parsing and the answers of collaborators are
  parameters. Tokens are fresh. Whole-run theorems about time ask only that the clock does not go back.

| module | models |
|---|---|
| `RetryHeaders`, `Redelivery` | retry header codec, retry schedule, dead letters, the chain of failures of one message |
| `KafkaRuntime`, `KafkaConsumer`, `KafkaIds`, `DeadLetters` | the consumer runtime: records, workers, crashes, markers, transactions, by which id messages are told apart, and which come to rest |
| `TenantGate`, `TenantGateAnswers` | the single-flight tenant status cache, and what its calls get |
| `TokenStore`, `Idempotency`, `IdempotencyAnswers` | token-guarded Redis keys (claims, locks), the Idempotency-Key protocol, and what requests are told |
| `EntitlementCache`, `CacheRuns` | the two-level decision cache, and its runs over any instances with every call split where it waits |
| `CacheIndexes`, `CacheInvalidation`, `CacheAges`, `CacheRaces` | its indexes, what invalidation achieves, how old answers get, and the races that set the limits |
| `Quota`, `Guard`, `EntitlementGuard`, `DecisionId` | policies, quotas, the guard's pipeline and its decision id |
| `RateLimiter` | the in-process and the Redis fixed-window limiters, and degradation to the former |
| `Watchdog`, `WatchdogPass`, `WatchdogBound` | the connector watchdog, with passes that may overlap; what one pass does to a status report; how many restarts a window can hold |
| `Expression`, `ExpressionLaws` | the expression evaluator with its limits, and what expressions mean |
| `Rules`, `RuleSetLaws` | rule sets, and what their results mean |
| `GraphScan` | the scan for construction-time tenants |
| `Provisioning`, `Provisioner`, `ProvisioningLaws` | resumable tenant provisioning, and what a run stores and reports |
| `Uuid` | time-ordered ids (section 5.7 of RFC 9562) |

## Where the code and its comments part

The model follows the code. Each of these is a proved lemma.

* Undecodable messages: the consumer runtime's comment says a poison message rests in the dead-letter topic. A message
  the serializer rejects never does; it is never acknowledged, retried or dead-lettered (`UndecodableStays`). A message
  whose handlings all fail can come to rest there if and only if it decodes (`RestsIffDecodable`).
* Waiting for a retry: the default timer ends a wait above 2^31 - 1 milliseconds after one millisecond, so a retry whose
  due time is further away is handled at once (`KafkaConsumerRuntime.HandleMessage`).
* Idempotency on one Redis: `apps/runtime/src/composition.ts:417-418` and `apps/runtime/src/api.ts:519-520` wire the
  claim store and the response cache to one client, and both use the same key. A duplicate in flight then reads the
  claim token as a snapshot and fails to decode it, instead of getting the documented 409 (`DuplicateInFlight`; a
  UUID is never valid JSON). The model carries both wirings, chosen by the flag `shared`.
* A failed snapshot write releases the claim, so the handler can run to completion twice: for a request that comes
  afterwards exactly when the write did not land, and for one that had already missed unless it landed and both stores
  share the key (`SetFailureRepeatsTheHandler`, `WaitingRequestRepeatsTheHandler`).
* Entitlement cache: "a stale entry can never outlive an explicit invalidation" fails across instances, and fails on
  one instance when calls overlap, because a lookup and an invalidation wait for L2 in the middle
  (`OtherInstancesEntriesSurvive`, `InvalidationDuringLookup`, `SetDuringSweep`). What holds: an older answer can come
  after a moment if and only if a copy is then alive in L1 or L2, in a lookup's hands or on its way to L2
  (`OldAnswerIff`). When the instance's calls about the request come one at a time, an invalidation that covers it
  leaves nothing of its own, and an older answer can follow if and only if another instance's entry is alive in L2 or
  on its way there (`InvalidationIsThorough`, `OlderAfterInvalidationIff`); with one instance the promise then holds
  as written (`AnswersAreNewerThanInvalidation`). A lookup right after a tenant or feature invalidation is answered exactly
  from the live L2 entry that the index did not list (`LookupAfterInvalidate`); a key the instance never set or looked
  up is not listed, and a live L1 key is, but a key it once set may have been dropped from the list since.
* The age of a cached answer: up to two lifetimes and two call delays, less two milliseconds, which is reached
  (`AnswerAge`, `AnswerAgeIsTight`). One lifetime holds on one instance with calls one at a time and L2 writes that land at
  once (`AnswerAgeAlone`); any other delay breaks it (`LateWriteOutlivesTheTtl`), and so do calls that overlap
  (`LookupDuringSweep`).
* The guard caches under the same joined text, so with a colon in a tenant id a request can be answered with an allow that
  was decided for another tenant, exactly when the joined texts agree (`BorrowsIff`, `ColonBorrowsAnAllow`); where
  the tenant is read from a header it is only trimmed (`packages/http/src/tenant-resolution.ts:21`). With colon-free tenants every
  allow goes back to an evaluation of the same tenant, feature and action (`AllowProvenance`).
* Tenant gate: a change made on another instance is visible "within `ttlMs`" only up to the latency of the read: it
  is seen after `ttlMs` plus that latency, and not one millisecond sooner, so the documented bound holds if and only if
  reads resolve without delay (`ChangeIsSeenInTime`, `UnseenLongerThanTtl`, `TtlSufficesIff`).
* Watchdog: the restart cap counts what the memory holds, and the memory is stored only when the restart call is answered.
  Passes start on a bare interval under a lock whose lifetime is that interval (`apps/runtime/src/scheduler.ts:376-392`),
  so a slow pass overlaps the next. The cap is exact in every run in which examinations of one task do not overlap
  (`CapIsExact`). With at most `p` examinations of a task in flight and a cap of `m`, a window holds at most
  C(p + m + 1, p) - 1 - p restarts, C being the binomial coefficient: `m` for one, m(m + 5)/2 for two. That bound is
  reached for every `p` and `m`, so the cap holds if and only if `p` is at most one (`RollingCap`, `BoundIsReached`,
  `CapHoldsIff`).
* Rate limiting: the documented burst of twice the limit is never reached; the exact bound is one less.
* Graph scan: an exempted root key hides a pin that another root key also reaches, if it is walked first, and a
  dotted root key is exempted by its first segment; a pin is reported exactly when the first segment of the first key
  that reaches it is not exempt (`ExemptionIsExact`, `SharedObjectIsHidden`, `DottedKeyIsHidden`).
* Provisioning: "every step is idempotent" is exact except that each run publishes one more version of the baseline
  policy (`SecondRunAddsOnlyAVersion`). Calls for one tenant share a run exactly when their owner texts agree, with no
  owner reading as the empty one, so a call for the owner "" can be told that provisioning is complete while nothing
  of that owner is stored (`JoinsIff`, `EmptyOwnerJoinsOwnerless`).
* Batched entitlement checks share one evaluation per tenant, feature and action, so a metered request behind an
  unmetered one skips its quota (`MeteredRidesAlong`). With a colon in a tenant id the shared key, like the cache's,
  can be another tenant's (`BatchKeysCollide`, `KeysCollide`).

## Model

| member | source | states |
|---|---|---|
| `RetryHeaders.TraceHeaders` | packages/kafka/src/runtime-headers.ts:41-48 | picks exactly the trace headers that are present, verbatim |
| `RetryHeaders.TracedMeans` | packages/kafka/src/runtime-headers.ts:11-11 | which headers are trace headers |
| `RetryHeaders.RetryRoundTrip` | packages/kafka/src/runtime-headers.ts:20-38 | decoding a republished bag gives back attempt, due time, topic and group, whatever retry headers the bag carried before and however numbers are otherwise read |
| `RetryHeaders.DecodeMeans` | packages/kafka/src/runtime-headers.ts:29-38 | what a bag must hold, under the wire names, to decode, and to what |
| `RetryHeaders.OtherHeadersTravel` | packages/kafka/src/consumer-runtime.ts:345-354 | a republished bag keeps every header that is not retry bookkeeping, trace headers included |
| `RetryHeaders.DigitsReadBack` | packages/kafka/src/runtime-headers.ts:20-31 | a reader of plain digits reads back what is written, so the assumption on number reading can be met |
| `Redelivery.DecodeHeaderBag` | packages/kafka/src/consumer-runtime.ts:368-375 | the bag holds the text of every defined header, the first text of a list, and nothing else |
| `Redelivery.ReadMeans` | packages/kafka/src/consumer-runtime.ts:143-148 | what is read of a payload: defined headers, first texts of lists, empty for an absent key or value |
| `Redelivery.WireRoundTrip` | packages/kafka/src/consumer-runtime.ts:143-146 | what is published is what the next consumer reads |
| `Redelivery.OneFailure` | packages/kafka/src/consumer-runtime.ts:317-355 | on any headers, forged ones included, one failure schedules the next attempt exactly its delay from now, or gives up after the last; the schedule is never asked out of range; the copy is the same message |
| `Redelivery.RetryChain` | packages/kafka/src/consumer-runtime.ts:307-365 | along any chain of failures attempts are numbered consecutively, and exactly one failure more than the retries left ends in a dead letter with the original key, bytes and headers |
| `Redelivery.DefaultSchedule` | packages/kafka/src/retry-schedule.ts:13-19 | under the default schedule a fresh message is dead-lettered by its sixth failure and not before |
| `Redelivery.DlqCopyIsFaithful` | packages/kafka/src/dead-letter-publisher.ts:36-57 | the dead-letter copy keeps key, bytes and every header that is not forensic, and its attempt count reads back |
| `Redelivery.LetterTellsItsStory` | packages/kafka/src/dead-letter-publisher.ts:44-80 | copy and row name origin, group, attempts, error, the first 4096 characters of the stack and the time, under the agreed names |
| `Redelivery.DeadLetterPublisher.Publish` | packages/kafka/src/dead-letter-publisher.ts:36-57 | topic first, then row; succeeds only if both did, and a failed publish leaves no row |
| `Redelivery.DeadLetterPublisher.Record` | packages/kafka/src/dead-letter-publisher.ts:66-81 | writes the row alone |
| `KafkaRuntime.RunInvariant` | packages/kafka/src/consumer-runtime.ts:143-365 | every run of the machine keeps the invariants behind the results below |
| `KafkaRuntime.NoMessageLost` | packages/kafka/src/consumer-runtime.ts:143-177 | over any run with crashes, redeliveries, duplicates and failed publishes, every record ever on main or retry is unacknowledged, or its message is effected under the id the serializer gives it, dead-lettered in topic and table, or carried by a later unacknowledged copy |
| `KafkaRuntime.IdIsTheSerializers` | packages/kafka/src/consumer-runtime.ts:226-245 | the id messages are told apart by is what the serializer answers to type, version, content type and bytes |
| `KafkaIds.AllAreNamed` | packages/kafka/src/consumer-runtime.ts:248-305 | in every run markers, effects and handlings are under serializer ids of records that were there |
| `KafkaIds.PrecheckIsById` | packages/kafka/src/consumer-runtime.ts:239-245 | in every run a checked record is handled exactly when no record effected so far has its serializer id |
| `KafkaConsumer.NewMessageIsHandled` | packages/kafka/src/consumer-runtime.ts:143-177 | a message with an unmarked serializer id is handled when all calls end well: effect or handling under that id rises by one, and under no other |
| `KafkaConsumer.OthersAreNot` | packages/kafka/src/consumer-runtime.ts:156-162 | a marked id is acknowledged without effect, a rejected message is not acknowledged |
| `KafkaRuntime.OnwardKept` | packages/kafka/src/consumer-runtime.ts:143-177 | a record that was safe to acknowledge stays safe, however later copies are acknowledged in turn |
| `KafkaRuntime.EffectedAtMostOnce` | packages/kafka/src/consumer-runtime.ts:277-305 | on the atomic path the committed write of a message happened once if its marker exists and never otherwise, in every interleaving |
| `KafkaRuntime.MarkerMeansHandled` | packages/kafka/src/consumer-runtime.ts:257-263 | on the plain path a marker means at least one handling returned |
| `KafkaRuntime.PlainPathCanHandleTwice` | packages/kafka/src/consumer-runtime.ts:61-65 | the window the comment leaves open: without the atomic path two deliveries can both handle a record |
| `KafkaRuntime.UndecodableStays` | packages/kafka/src/consumer-runtime.ts:156-176 | a record that cannot be decoded is never acknowledged, retried or dead-lettered |
| `KafkaRuntime.RetriesAreBounded` | packages/kafka/src/consumer-runtime.ts:307-365 | every record descends from a main-topic record with the same key, bytes and headers by at most the retries that one arrived with, each copy made after a failed handling |
| `KafkaRuntime.DeadLettersAreLast` | packages/kafka/src/consumer-runtime.ts:318-338 | a dead letter comes after exactly one failed record more than the retries its message arrived with, and holds the original |
| `KafkaConsumer.KafkaConsumerRuntime.HandleMessage` | packages/kafka/src/consumer-runtime.ts:143-177 | the whole new state of one delivery and whether it returns or throws; a retry is handled when due if and only if its due time is within what the timer can hold |
| `KafkaConsumer.KafkaConsumerRuntime.Effect` | packages/kafka/src/consumer-runtime.ts:248-269 | effect and marker for both paths, under every failure |
| `KafkaConsumer.KafkaConsumerRuntime.HandleAtomic` | packages/kafka/src/consumer-runtime.ts:277-305 | write and marker together or not at all; a duplicate rolls back and counts as done |
| `KafkaConsumer.KafkaConsumerRuntime.ScheduleRetryOrDeadLetter` | packages/kafka/src/consumer-runtime.ts:307-365 | retry copy or dead letter, and which failures throw |
| `KafkaConsumer.KafkaConsumerRuntime.Deliver` | packages/kafka/src/consumer-runtime.ts:189-199 | the whole new state and whether it throws: it returns only with the marker in place, and publishes nothing |
| `KafkaConsumer.AloneIsHandled` | packages/kafka/src/consumer-runtime.ts:143-177 | the machine's steps of one delivery with nothing in between are `HandleMessage` and its acknowledgement |
| `DeadLetters.RestsIffDecodable` | packages/kafka/src/consumer-runtime.ts:156-176 | a message whose handlings all fail can come to rest in the dead-letter topic if and only if it decodes |
| `DeadLetters.AloneIsRun` | packages/kafka/src/consumer-runtime.ts:143-177 | one delivery from start to end is part of a run of the machine |
| `DeadLetters.FailedDelivery` | packages/kafka/src/consumer-runtime.ts:168-176 | one delivery whose handler fails adds the next copy if a retry is left, and otherwise the letter |
| `TenantGate.CachedTenantGate.Availability` | apps/admin/src/tenant-status-gate.ts:44-69 | the synchronous part of a call: platform tenant, fresh entry, pending read, or a new read |
| `TenantGate.CachedTenantGate.OnResolved` | apps/admin/src/tenant-status-gate.ts:56-63 | only the read still in flight populates the cache |
| `TenantGate.CachedTenantGate.OnSettled` | apps/admin/src/tenant-status-gate.ts:64-66 | a settled read removes only itself |
| `TenantGate.CachedTenantGate.Invalidate` | apps/admin/src/tenant-status-gate.ts:72-75 | drops the entry and the pending read |
| `TenantGate.Invariant` | apps/admin/src/tenant-status-gate.ts:44-75 | the invariant over every interleaving of calls, read progress, invalidations and status changes |
| `TenantGate.NoStaleAnswerAfterInvalidate` | apps/admin/src/tenant-status-gate.ts:27-33 | a call after an invalidation is never served by a read started before it, and returns a status held after it |
| `TenantGate.ChangeVisibleAfterInvalidate` | apps/admin/src/tenant-status-gate.ts:27-28 | a change followed by an invalidation is what every later answered call returns, until the next change |
| `TenantGate.SingleFlight` | apps/admin/src/tenant-status-gate.ts:51-68 | two unsettled reads of one tenant are separated by an invalidation |
| `TenantGate.OnlyFulfilledReadsAreCached` | apps/admin/src/tenant-status-gate.ts:32-33 | a failed read is never cached |
| `TenantGateAnswers.EveryCallIsAnswered` | apps/admin/src/tenant-status-gate.ts:44-69 | in every run each call is answered at once or handed a read |
| `TenantGateAnswers.PlatformIsActive` | apps/admin/src/tenant-status-gate.ts:45-47 | the exempt tenant, and no other, is answered active; an empty id exempts nobody |
| `TenantGateAnswers.PlatformIsNeverRead` | apps/admin/src/tenant-status-gate.ts:7-8 | its status is never read |
| `TenantGateAnswers.FreshEntryIsServed` | apps/admin/src/tenant-status-gate.ts:48-49 | a call within the lifetime of a read that brought a value, not invalidated since, is answered from the cache and starts no read |
| `TenantGate.HitIsYoungerThanTtl` | apps/admin/src/tenant-status-gate.ts:48-49 | a hit returns the status its read sampled, and that read resolved less than the lifetime ago |
| `TenantGate.HitIsYoung` | apps/admin/src/tenant-status-gate.ts:27-31 | if reads resolve within a delay of their sample, the status a hit returns was still held less than lifetime plus delay before the hit |
| `TenantGate.JoinedIsYoung` | apps/admin/src/tenant-status-gate.ts:51-68 | a call that waits for a read gets a status held at most that delay before the read resolved |
| `TenantGate.ChangeIsSeenInTime` | apps/admin/src/tenant-status-gate.ts:27-31 | a change, with its own time, is what hits return from lifetime plus delay on, and what waiting calls get from more than the delay on |
| `TenantGate.UnseenLongerThanTtl` | apps/admin/src/tenant-status-gate.ts:27-31 | for every lifetime and delay a change can be lifetime plus delay less one old and unseen |
| `TenantGate.TtlSufficesIff` | apps/admin/src/tenant-status-gate.ts:27-31 | the documented bound of one lifetime holds if and only if reads resolve without delay |
| `TokenStore.RedisTokenStore.Acquire` | packages/redis/src/locks.ts:33-39 | sets the key only if it is free, under a fresh token (the same call as the idempotency store's claim) |
| `TokenStore.RedisTokenStore.Release` | packages/redis/src/idempotency.ts:4-8 | deletes exactly when the token still owns the key |
| `TokenStore.RedisTokenStore.Extend` | packages/redis/src/locks.ts:12-16 | refreshes exactly when the token still owns the key |
| `TokenStore.LeaseIsHonoured` | packages/redis/src/locks.ts:18-25 | while a lease runs the key is held by its acquisition with exactly its own expiry, whatever others do |
| `TokenStore.StaleTokenIsPowerless` | packages/redis/src/locks.ts:18-21 | a token that does not own the key changes nothing: a stale holder cannot free its successor |
| `TokenStore.Exclusion` | packages/redis/src/locks.ts:33-50 | a second acquisition succeeds only after the first lease is over |
| `Idempotency.IdempotentRoute.Execute` | packages/http/src/server.ts:561-593 | one request from lookup to release, as the protocol's steps with nothing in between |
| `Idempotency.ExecutedAtMostOnce` | packages/http/src/server.ts:561-593 | within one claim lifetime, if snapshot writes succeed, the handler returns at most once, and after its answer come only its replay and 409s |
| `IdempotencyAnswers.LaterRequestIsReplayed` | packages/http/src/server.ts:564-568 | within one lifetime, once a request was answered with a computed response, every later request gets that response replayed |
| `IdempotencyAnswers.LandedWriteIsReplayed` | packages/http/src/server.ts:564-592 | so does a request after a snapshot write that failed but landed |
| `IdempotencyAnswers.ThrowFreesTheKey` | packages/http/src/server.ts:586-592 | after a handler that threw and its release the next request runs the handler |
| `IdempotencyAnswers.AnswersAreTheHandlers` | packages/http/src/server.ts:581-585 | in every run a computed answer is what that request's own handler returned |
| `IdempotencyAnswers.AloneMeans` | packages/http/src/server.ts:561-593 | one request in terms of what it finds under the key and what its handler does |
| `Idempotency.SetFailureRepeatsTheHandler` | packages/http/src/server.ts:581-592 | from any point where a handler has returned, a failed snapshot write lets a later request run it again if and only if the write did not land |
| `Idempotency.WaitingRequestRepeatsTheHandler` | packages/http/src/server.ts:564-592 | a request that had already missed runs it again unless the write landed and both stores share the key |
| `Idempotency.DuplicateInFlight` | packages/http/src/server.ts:564-579 | a duplicate in flight gets 409 with separate stores and a decode failure with one shared key |
| `Idempotency.ComputedAnswersAreALifetimeApart` | packages/http/src/server.ts:569-592 | over any run, computed answers belong to claims at least one lifetime apart, unless a claim was given back |
| `EntitlementCache.KeysCollide` | packages/entitlement/src/cache.ts:43-46 | when two requests share a key, exactly |
| `EntitlementCache.KeysAreDistinct` | packages/entitlement/src/cache.ts:43-46 | with colon-free tenants the key determines tenant, feature and action |
| `EntitlementCache.ColonMergesTenants` | packages/entitlement/src/cache.ts:43-46 | a colon in a tenant id lets two tenants share an entry |
| `EntitlementCache.EntitlementCache.GetLocally` | packages/entitlement/src/cache.ts:48-59 | the first stretch of a lookup: the fresh L1 entry, or an expired one forgotten in L1 and both indexes |
| `EntitlementCache.EntitlementCache.Get` | packages/entitlement/src/cache.ts:48-64 | a whole lookup with nothing in between: L1 if fresh, else L2, remembered when its answer arrives |
| `EntitlementCache.EntitlementCache.Set` | packages/entitlement/src/cache.ts:66-76 | a whole set: L1 and both indexes, then L2 with the lifetime |
| `EntitlementCache.EntitlementCache.Turn` | packages/entitlement/src/cache.ts:79-100 | one turn of any dropping loop: the next key its iterator finds now leaves L1, or the index entry, or everything, is discarded at the end |
| `EntitlementCache.EntitlementCache.Invalidate` | packages/entitlement/src/cache.ts:79-100 | all turns and deletions of an invalidation by tenant, feature or pair, or of a clear, with nothing in between |
| `EntitlementCache.InvalidatedIsExact` | packages/entitlement/src/cache.ts:79-100 | uninterrupted, it removes exactly the keys ahead of its loop from both levels |
| `CacheRuns.AnswersWereSet` | packages/entitlement/src/cache.ts:6-7 | in every interleaving, every answer was set earlier for the very same tenant, feature and action |
| `CacheRuns.OldAnswerIff` | packages/entitlement/src/cache.ts:6-9 | after any run an instance can yet give an answer set before this moment if and only if a copy is alive in its L1 or in L2, in the hands of one of its lookups, or on its way to L2 |
| `CacheRuns.AnswerAge` | packages/entitlement/src/cache.ts:48-76 | across any instances and interleavings an answer is at most two lifetimes plus two call delays less two milliseconds old |
| `CacheIndexes.OrderlyKept` | packages/entitlement/src/cache.ts:106-139 | every step keeps the index invariant of a request whose calls on the instance come one at a time |
| `CacheIndexes.ApartKept` | packages/entitlement/src/cache.ts:106-139 | every step, however calls overlap, keeps key sets holding only their own keys and loops on the keys they cover |
| `CacheInvalidation.IndexesCover` | packages/entitlement/src/cache.ts:29-31 | in such a run the L1 entry, and between calls every live L2 entry the instance wrote, is listed in both indexes |
| `CacheInvalidation.InvalidationIsThorough` | packages/entitlement/src/cache.ts:78-100 | in such a run a covering invalidation returns with nothing left in L1 and nothing alive of its own in L2 |
| `CacheInvalidation.OlderAfterInvalidationIff` | packages/entitlement/src/cache.ts:8-9 | in such a run an older answer can follow the invalidation if and only if another instance has a live entry in L2 or a set on its way there |
| `CacheInvalidation.AnswersAreNewerThanInvalidation` | packages/entitlement/src/cache.ts:8-9 | with one instance up to the return, every later answer was set after the invalidation returned |
| `CacheInvalidation.InvalidationSparesTheRest` | packages/entitlement/src/cache.ts:78-93 | in every run each step of an invalidation leaves the entries it does not cover in L1, indexed, on every instance and in L2 |
| `CacheInvalidation.EndMeans` | packages/entitlement/src/cache.ts:79-100 | what the end of each invalidation discards: its own list, or at a clear everything |
| `CacheInvalidation.LookupAfterInvalidate` | packages/entitlement/src/cache.ts:78-88 | right after a tenant or feature invalidation the instance answers exactly the live L2 entry its index did not list, which another instance wrote |
| `CacheInvalidation.UnseenIsUnlisted` | packages/entitlement/src/cache.ts:106-128 | a key the instance never set or looked up is listed nowhere |
| `CacheRaces.OtherInstancesEntriesSurvive` | packages/entitlement/src/cache.ts:8-9 | a run in sequence in which another instance's entry outlives an invalidation |
| `CacheRaces.InvalidationDuringLookup` | packages/entitlement/src/cache.ts:60-62 | a run on one instance in which an invalidation passes while a lookup holds L2's answer, and the old entry answers afterwards |
| `CacheRaces.SetDuringSweep` | packages/entitlement/src/cache.ts:79-82 | a run on one instance in which a set during a sweep leaves a live entry that no index lists, missed by a later invalidation that overlaps nothing |
| `CacheRaces.LookupDuringSweep` | packages/entitlement/src/cache.ts:60-82 | a run on one instance, every set landing at once, in which a lookup during a sweep brings the entry back for a second lifetime |
| `CacheAges.AnswerAgeAlone` | packages/entitlement/src/cache.ts:66-76 | one instance, calls about the request one at a time and L2 writes that land at once: answers are younger than one lifetime |
| `CacheAges.AnswerAgeIsTight` | packages/entitlement/src/cache.ts:60-62 | the general bound is reached for every lifetime and every delay |
| `CacheAges.LateWriteOutlivesTheTtl` | packages/entitlement/src/cache.ts:66-76 | every positive delay of an L2 write breaks the bound of one lifetime, calls in sequence on one instance |
| `Quota.CountersAreDistinct` | packages/entitlement/src/quota.ts:61-63 | colon-free tenants have counters of their own |
| `Quota.InMemoryUsageQuota.Check` | packages/entitlement/src/quota.ts:83-97 | blocks exactly when throttled or a hard limit would be broken; soft limits and warnings never block |
| `DecisionId.DeriveDecisionId` | packages/entitlement/src/entitlement-guard.ts:134-146 | the wrapping 32-bit loop computes the unbounded hash modulo one word, as eight digits |
| `DecisionId.TurnIsCongruent` | packages/entitlement/src/entitlement-guard.ts:143-144 | one turn with shifts and truncation agrees with times 33 plus the code unit, up to the word |
| `DecisionId.HashIsPolynomial` | packages/entitlement/src/entitlement-guard.ts:139-144 | the hash in closed form, a polynomial in 33 started at 5381 |
| `DecisionId.IdsAreHashes` | packages/entitlement/src/entitlement-guard.ts:145-145 | ids have a fixed width and are equal only for equal hashes |
| `Guard.AllowedIsGranted` | packages/entitlement/src/entitlement-guard.ts:483-579 | fail-closed, exactly: a decision allows if and only if every consulted collaborator answered in favour |
| `Guard.AllowedTable` | packages/entitlement/src/policy.ts:81-101 | the same in terms of the ten policies and the quota states themselves; an allow names a policy that applies and lets the request through |
| `Guard.DenialTable` | packages/entitlement/src/entitlement-guard.ts:483-579 | which source, policy and quota a denial names: the first thing that went wrong |
| `Guard.SeedsDiffer` | packages/entitlement/src/entitlement-guard.ts:134-146 | the hashed text determines tenant, feature, action, source and verdict, if tenant and feature hold no bar |
| `Guard.StampMeans` | packages/entitlement/src/entitlement-guard.ts:134-146 | stamping adds id and correlation and keeps the verdict |
| `Guard.RunInv` | packages/entitlement/src/entitlement-guard.ts:198-254 | the invariant over interleaved evaluations, dry runs, failures and crashes |
| `Guard.AllowProvenance` | packages/entitlement/src/entitlement-guard.ts:198-254 | every allowing result, fresh or cached, goes back to a granted evaluation under the same cache key, and with colon-free tenants of the same tenant, feature and action; the policy it names applied and lets this request through; unless a dry run, to an allow on the audit trail |
| `Guard.BorrowsIff` | packages/entitlement/src/cache.ts:43-46 | a request can be answered with the cached allow of another if and only if action and joined text agree |
| `Guard.ColonBorrowsAnAllow` | packages/entitlement/src/entitlement-guard.ts:581-592 | a run in which a tenant is let in by another tenant's allow, with no evaluation of its own |
| `Guard.CachedIsAudited` | packages/entitlement/src/entitlement-guard.ts:594-645 | what is cached was audited first and is neither metered, a guard error nor an audit failure |
| `Guard.SimulationLeavesNoTrace` | packages/entitlement/src/entitlement-guard.ts:193-197 | no audit record or cache entry comes from a dry run |
| `EntitlementGuard.EntitlementGuard.Evaluate` | packages/entitlement/src/entitlement-guard.ts:198-254 | one call, from cache read to cache write, as the machine's steps |
| `EntitlementGuard.EntitlementGuard.CachedEntry` | packages/entitlement/src/entitlement-guard.ts:581-592 | an entry is found by the joined key, and metered requests never read the cache |
| `EntitlementGuard.EntitlementGuard.RecordAudit` | packages/entitlement/src/entitlement-guard.ts:612-645 | a decision that cannot be recorded becomes a denial |
| `EntitlementGuard.EntitlementGuard.CacheDecision` | packages/entitlement/src/entitlement-guard.ts:594-606 | exactly which decisions are memoized |
| `EntitlementGuard.AloneIsEvaluated` | packages/entitlement/src/entitlement-guard.ts:198-254 | the machine's steps of one evaluation, with nothing in between, as one new state |
| `EntitlementGuard.UncachedMeans` | packages/entitlement/src/entitlement-guard.ts:198-254 | one evaluation the cache has nothing for allows exactly when point, policy and quota do and a real one could be recorded |
| `EntitlementGuard.CachedMeans` | packages/entitlement/src/entitlement-guard.ts:581-592 | a request the cache has an entry for gets that decision and leaves no other trace |
| `EntitlementGuard.EvaluateMany` | packages/entitlement/src/entitlement-guard.ts:346-362 | every request gets the decision of the first request with its key, and exactly those first requests are evaluated |
| `EntitlementGuard.EvaluatedIffFirst` | packages/entitlement/src/entitlement-guard.ts:353-359 | a request is evaluated itself, quota included, exactly when no earlier one has its key |
| `EntitlementGuard.BatchKeysCollide` | packages/entitlement/src/entitlement-guard.ts:353-353 | when two requests share an evaluation, exactly |
| `EntitlementGuard.BatchKeysAreDistinct` | packages/entitlement/src/entitlement-guard.ts:353-353 | with colon-free tenants exactly the requests of one tenant, feature and action do |
| `EntitlementGuard.ColonSharesADecision` | packages/entitlement/src/entitlement-guard.ts:353-353 | a colon in a tenant id gives one tenant the decision taken for another |
| `EntitlementGuard.MeteredRidesAlong` | packages/entitlement/src/entitlement-guard.ts:353-353 | a metered request with an exhausted quota gets an unmetered one's allow |
| `RateLimiter.InProcessRateLimiter.Consume` | packages/http/src/degraded-rate-limiter.ts:20-43 | the new buckets and the decision of one call |
| `RateLimiter.InProcessRateLimiter.SweepIfLarge` | packages/http/src/degraded-rate-limiter.ts:45-50 | the sweep keeps exactly the open buckets, and only above the threshold |
| `RateLimiter.RedisRateLimiter.Consume` | packages/redis/src/rate-limiter.ts:28-40 | the new counters and the decision of one call; limits and windows that are not positive are refused |
| `RateLimiter.RedisRateLimiter.RunScript` | packages/redis/src/rate-limiter.ts:10-15 | increment, arm the expiry on the first hit, report count and time left |
| `RateLimiter.SweepChangesNoDecision` | packages/http/src/degraded-rate-limiter.ts:45-50 | over any run with a monotone clock sweeping changes no decision |
| `RateLimiter.InProcessAgreesWithRedis` | packages/redis/src/rate-limiter.ts:10-40 | the in-process limiter gives the Redis script's answers, call by call |
| `RateLimiter.RetryAfterIsExact` | packages/http/src/degraded-rate-limiter.ts:36-41 | a refused caller is told exactly when the next call is allowed |
| `RateLimiter.RemainingIsExact` | packages/http/src/degraded-rate-limiter.ts:26-43 | an admitted caller is told exactly how many more calls it has at that moment |
| `RateLimiter.IntervalBound` | packages/redis/src/rate-limiter.ts:4-9 | every interval one window long admits at most twice the limit, less one |
| `RateLimiter.SweepingIntervalBound` | packages/http/src/degraded-rate-limiter.ts:20-50 | the same bound for the decisions of the in-process limiter as written, sweeps included |
| `RateLimiter.RedisIntervalBound` | packages/redis/src/rate-limiter.ts:28-40 | the same bound for the decisions of the Redis limiter, among any other calls, refused ones included |
| `RateLimiter.IntervalBoundIsTight` | packages/redis/src/rate-limiter.ts:4-9 | that bound is reached for every limit and every window of two milliseconds or more |
| `RateLimiter.RateLimitStep` | packages/http/src/server.ts:488-545 | the primary's verdict if it answers; otherwise 503, or for public routes the degraded limiter at half the limit |
| `RateLimiter.DegradedIsHalf` | packages/http/src/server.ts:527-531 | the degraded limit is half the configured one, rounded down, and at least one |
| `RateLimiter.OutageStaysUnderTheLimit` | packages/http/src/server.ts:496-531 | through a whole outage one instance admits no more than the configured limit in any window |
| `Watchdog.KeysAreDistinct` | apps/runtime/src/scheduler.ts:107-107 | keys of different tasks differ |
| `WatchdogPass.CdcWatchdog.Begin` | apps/runtime/src/scheduler.ts:101-128 | one task up to the restart call: read and prune its history, apply the cap, issue the call |
| `WatchdogPass.CdcWatchdog.Finish` | apps/runtime/src/scheduler.ts:125-148 | from the answer on: store the history that was read with the restart added, only when acknowledged |
| `WatchdogPass.CdcWatchdog.Examine` | apps/runtime/src/scheduler.ts:101-148 | one task with nothing in between, as the two steps |
| `WatchdogPass.CdcWatchdog.ExamineAll` | apps/runtime/src/scheduler.ts:101-148 | the inner loop over a connector's tasks, with nothing in between |
| `WatchdogPass.CdcWatchdog.RunPass` | apps/runtime/src/scheduler.ts:83-150 | one pass over all connectors, with nothing in between: restart calls go only to tasks listed as FAILED under connector, slash and number, and, if no task is listed twice, to exactly those below the cap, each once, the log gaining the acknowledged ones |
| `WatchdogPass.ExaminationMeans` | apps/runtime/src/scheduler.ts:101-148 | one task: what its state, its remembered restarts and the reply make of memory, calls and log |
| `WatchdogPass.PassMeans` | apps/runtime/src/scheduler.ts:83-150 | the same for a whole pass, as steps of the machine |
| `Watchdog.MemoryIsFaithful` | apps/runtime/src/scheduler.ts:109-113 | with no overlapping examinations of the task, the pruned history filters like the full log from here on |
| `Watchdog.CapIsExact` | apps/runtime/src/scheduler.ts:70-75 | with no overlapping examinations of the task, a restart is issued if and only if it is FAILED and fewer than the cap were acknowledged in the window ending now |
| `Watchdog.OthersAreLeftAlone` | apps/runtime/src/scheduler.ts:102-105 | a look at a task that is not FAILED changes nothing |
| `Watchdog.OnlyFailedTasksAreRestarted` | apps/runtime/src/scheduler.ts:77-79 | in every run each restart call issued, acknowledged or not, goes to a task seen FAILED at that moment |
| `Watchdog.TasksAreIndependent` | apps/runtime/src/scheduler.ts:80-81 | dropping all other tasks changes neither a task's restarts nor its memory nor its open calls |
| `WatchdogBound.RollingCap` | apps/runtime/src/scheduler.ts:70-75 | with at most p examinations of the task in flight, every interval one window long holds at most the bound of acknowledged restarts, whatever overlaps |
| `WatchdogBound.AtMostIs` | apps/runtime/src/scheduler.ts:108-133 | the bound in closed form, a binomial coefficient less p + 1 |
| `WatchdogBound.SmallBounds` | apps/runtime/src/scheduler.ts:70-75 | the bound is the cap for one in flight, and cap * (cap + 5) / 2 for two |
| `WatchdogBound.BoundIsReached` | apps/runtime/src/scheduler.ts:108-133 | for every cap, window and p a run reaches the bound, while the memory never shows more than the cap |
| `WatchdogBound.CapHoldsIff` | apps/runtime/src/scheduler.ts:70-75 | the documented cap holds if and only if at most one examination of a task is in flight |
| `Expression.ResolvePath` | packages/expression/src/evaluate.ts:58-68 | the lookup loop follows the dotted path, undefined through scalars, arrays and gaps |
| `Expression.Measurement.Walk` | packages/expression/src/expression.ts:101-131 | the mutating counter adds the node count, and the result is the depth |
| `Expression.MeasureExpression` | packages/expression/src/expression.ts:101-131 | node count and true depth |
| `Expression.DepthAtMostNodes` | packages/expression/src/expression.ts:89-98 | depth is at least one and at most the node count |
| `Expression.GrowingKeepsScalars` | packages/expression/src/evaluate.ts:58-77 | facts added anywhere keep every path that already resolved to a scalar |
| `Expression.EvaluationIsStable` | packages/expression/src/evaluate.ts:137-251 | an exists-free expression that evaluates gives the same boolean in every context that keeps the scalars already there |
| `Expression.ExistsIsNotStable` | packages/expression/src/evaluate.ts:188-191 | `exists` is not stable |
| `Expression.Evaluator.Node` | packages/expression/src/evaluate.ts:167-232 | the counting evaluator computes the evaluator's result and spends exactly its cost |
| `Expression.Evaluator.Value` | packages/expression/src/evaluate.ts:137-165 | the same for values |
| `Expression.Evaluator.Until` | packages/expression/src/evaluate.ts:198-216 | the operand loop of `and` and `or`, with its early returns |
| `Expression.NodeCostBound` | packages/expression/src/evaluate.ts:137-232 | at most two calls per node and two frames per level |
| `Expression.GatedCost` | packages/expression/src/evaluate.ts:238-251 | whatever passes the limits costs at most 1024 calls and 64 frames |
| `Expression.EvaluateCounted` | packages/expression/src/evaluate.ts:238-251 | limits first: an oversized expression is refused at no evaluation cost |
| `ExpressionLaws.LimitsAreExact` | packages/expression/src/evaluate.ts:238-248 | exactly the expressions deeper than 32, or else larger than 512 nodes, are refused for their size |
| `ExpressionLaws.SizeMeans` | packages/expression/src/expression.ts:101-131 | a node counts once with its operands and lies one level above its deepest one |
| `ExpressionLaws.NotMeans` | packages/expression/src/evaluate.ts:193-196 | the opposite boolean, errors as they are |
| `ExpressionLaws.AndMeans` | packages/expression/src/evaluate.ts:198-207 | true exactly when all operands are; false, or in error, exactly when some operand is after only true ones |
| `ExpressionLaws.OrMeans` | packages/expression/src/evaluate.ts:209-216 | the dual |
| `ExpressionLaws.ValueStands` | packages/expression/src/evaluate.ts:137-165 | what an operand stands for, and its errors |
| `ExpressionLaws.LeavesMean` | packages/expression/src/evaluate.ts:172-191 | literals and references alone, and `exists` |
| `ExpressionLaws.InMeans` | packages/expression/src/evaluate.ts:226-230 | membership |
| `ExpressionLaws.CompareFails` | packages/expression/src/evaluate.ts:218-222 | the left operand's error comes first |
| `ExpressionLaws.EqualityMeans` | packages/expression/src/evaluate.ts:81-84 | equality across all kinds, and its opposite |
| `ExpressionLaws.NumbersAreOrdered` | packages/expression/src/evaluate.ts:122-127 | numbers are ordered as the reals |
| `ExpressionLaws.StringsAreOrdered` | packages/expression/src/evaluate.ts:129-134 | strings are ordered by their first difference |
| `ExpressionLaws.OrderIsTotal` | packages/expression/src/evaluate.ts:86-97 | exactly one of less, equal, greater; the others are their opposites |
| `ExpressionLaws.NoOrderAcrossKinds` | packages/expression/src/evaluate.ts:90-118 | an ordering across kinds is an error and never a coercion |
| `ExpressionLaws.TextMeans` | packages/expression/src/evaluate.ts:105-117 | somewhere, at the start, at the end |
| `ExpressionLaws.PathMeans` | packages/expression/src/evaluate.ts:58-68 | a path up to its first dot names a field, and the rest is looked up in that object |
| `Rules.OrderIsStable` | packages/rules/src/rule.ts:43-49 | rules are ordered by priority and ties keep their declaration order |
| `Rules.OrderFiltered` | packages/rules/src/rule.ts:43-54 | deleting disabled rules commutes with ordering |
| `Rules.EvaluateRuleSet` | packages/rules/src/evaluate-rules.ts:45-95 | the loop computes the specified evaluation, thrown errors included |
| `Rules.Turn` | packages/rules/src/evaluate-rules.ts:54-83 | one turn: what it appends and whether it ends the loop |
| `Rules.TraceExplains` | packages/rules/src/evaluate-rules.ts:5-7 | outcomes are those of the matched entries in order; degraded and thrown exactly when the trace records an error under that policy |
| `RuleSetLaws.ScanTraces` | packages/rules/src/evaluate-rules.ts:54-83 | each trace entry has the status that fits what the rule's condition evaluates to |
| `RuleSetLaws.RuleSetMeans` | packages/rules/src/evaluate-rules.ts:45-95 | fallback exactly when no rule matched; degraded exactly on an error under fail-closed, the default; thrown only under fail, for the first enabled rule in error |
| `Rules.FirstMatchEndsTheTrace` | packages/rules/src/evaluate-rules.ts:79-83 | in first-match mode the trace ends at the only match, or covers every rule |
| `Rules.RulesBehindTheMatchDoNotMatter` | packages/rules/src/evaluate-rules.ts:82-82 | rules behind the match can be changed freely |
| `Rules.DisabledRulesCanBeDeleted` | packages/rules/src/evaluate-rules.ts:55-58 | deleting disabled rules changes only their own trace entries |
| `Rules.RuleSetIsStable` | packages/rules/src/evaluate-rules.ts:45-95 | an undegraded evaluation of an exists-free set gives the same result and trace in every extended context |
| `GraphScan.FindConstructionTimeTenants` | apps/admin/src/tenant-mode-guard.ts:61-96 | the scan and its filter compute the specified paths in order |
| `GraphScan.Scanner.Walk` | apps/admin/src/tenant-mode-guard.ts:69-92 | the recursive walk with its seen set |
| `GraphScan.ScanIsExact` | apps/admin/src/tenant-mode-guard.ts:57-92 | on any graph, cyclic or not, hits are real root-to-pin paths, and every pin of every reachable object is hit |
| `GraphScan.NoObjectTwice` | apps/admin/src/tenant-mode-guard.ts:71-72 | no object is entered twice |
| `GraphScan.NoExemptions` | apps/admin/src/tenant-mode-guard.ts:57-96 | without exemptions the report is empty exactly when no reachable object carries a pin |
| `GraphScan.HitIsReported` | apps/admin/src/tenant-mode-guard.ts:85-95 | on any graph, empty and dotted keys included, a hit is reported if and only if the first segment of its first non-empty key is not exempt |
| `GraphScan.FirstSegmentOfPath` | apps/admin/src/tenant-mode-guard.ts:85-95 | for any trail the path's first segment is that of its first non-empty key |
| `GraphScan.PathIsJoined` | apps/admin/src/tenant-mode-guard.ts:85-85 | a path is its keys joined by dots, empty keys in front dropped |
| `GraphScan.ExemptionIsExact` | apps/admin/src/tenant-mode-guard.ts:57-96 | with named root keys, dotted ones included, a reachable pin is reported if and only if the first segment of the first root key, in walk order, that reaches its object is not exempt |
| `GraphScan.CompleteOutsideExemptions` | apps/admin/src/tenant-mode-guard.ts:57-96 | if no exempted key comes before another key with a shared object, every pin below a key that is not exempted is reported |
| `GraphScan.ExemptLastStandsApart` | apps/admin/src/tenant-mode-guard.ts:95-95 | that holds when exempted keys come last |
| `GraphScan.SharedObjectIsHidden` | apps/admin/src/tenant-mode-guard.ts:71-95 | a shared object hidden by an exempted key that comes first |
| `GraphScan.DottedKeyIsHidden` | apps/admin/src/tenant-mode-guard.ts:95-95 | a dotted root key hidden by the exemption of its first segment |
| `Provisioning.GrantedAtMostOnce` | apps/admin/src/tenant-provisioning.ts:81-161 | in one process, over any runs with failures, lost replies and crashes, an owner gets at most one admin assignment and one grant |
| `Provisioning.MissingIsExact` | apps/admin/src/tenant-provisioning.ts:166-190 | a report misses exactly the steps that are not stored, and is complete exactly when all are |
| `Provisioning.ReportIsExact` | apps/admin/src/tenant-provisioning.ts:25-28 | a report is complete if and only if every step is stored, and carries errors only for missing steps |
| `ProvisioningLaws.CompleteMeans` | apps/admin/src/tenant-provisioning.ts:166-190 | a report is complete exactly when roles, policy, version, profile and the owner's three pieces are stored |
| `Provisioning.ReportsAreReliable` | apps/admin/src/tenant-provisioning.ts:17-28 | over any processes and any debris, a complete report stays true of stored state, and a run without failures reports complete |
| `Provisioning.TwoProcessesCanAssignTwice` | apps/admin/src/tenant-provisioning.ts:34-36 | the race between processes that the comment records |
| `Provisioning.KeysAgreeIff` | apps/admin/src/tenant-provisioning.ts:82-84 | two calls share a key exactly when tenant and owner text agree, no owner reading as the empty one |
| `Provisioning.JoinsIff` | apps/admin/src/tenant-provisioning.ts:81-93 | when a call joins a run under way, and when that run is for another owner, exactly |
| `Provisioning.EmptyOwnerJoinsOwnerless` | apps/admin/src/tenant-provisioning.ts:81-93 | a run in which a call for the owner "" gets a complete report though nothing of that owner is stored |
| `Provisioner.TenantProvisioner.Provision` | apps/admin/src/tenant-provisioning.ts:95-164 | one run from its first call to its report, as the machine's run taken alone |
| `Provisioner.TenantProvisioner.BootstrapSecurity` | services/security/src/interfaces/tenant-baseline.ts:66-125 | the baseline calls in order, stopping at the first failure |
| `Provisioner.TenantProvisioner.AttemptStep` | apps/admin/src/tenant-provisioning.ts:110-129 | an owner step is skipped when stored, and its failure recorded and not thrown |
| `Provisioner.SecondRunAddsOnlyAVersion` | apps/admin/src/tenant-provisioning.ts:17-23 | running again on a provisioned tenant repeats nothing but one policy version |
| `ProvisioningLaws.RunWithoutOutage` | apps/admin/src/tenant-provisioning.ts:95-164 | from any stored state a run whose calls are all answered adds each missing piece once and one version; incomplete exactly for an owner neither registered nor known, with the error |
| `ProvisioningLaws.BaselineMeans` | services/security/src/interfaces/tenant-baseline.ts:66-125 | what each reply of the baseline calls leaves stored |
| `ProvisioningLaws.CallsBuildOnEachOther` | services/security/src/application/authorization.use-cases.ts:157-167 | a call succeeds exactly when answered and what it builds on is there |
| `Uuid.StampsAreMasks` | packages/id/src/crypto-id-generator.ts:17-20 | the version and variant stamps are the source's bit masks on every byte |
| `Uuid.WriteTime` | packages/id/src/crypto-id-generator.ts:16-16 | writes the timestamp big-endian over six bytes in place, or refuses a value that does not fit |
| `Uuid.Generate` | packages/id/src/crypto-id-generator.ts:12-24 | the id text for any random bytes and clock |
| `Uuid.IdsFollowTime` | packages/id/src/crypto-id-generator.ts:4-10 | an earlier millisecond gives a lexicographically smaller id, for all random bits |
| `Uuid.TimeIsRecoverable` | packages/id/src/crypto-id-generator.ts:15-23 | the timestamp can be read back from the text |
| `Uuid.VersionAndVariant` | packages/id/src/crypto-id-generator.ts:17-20 | version digit 7, variant bits 10, every other random bit kept |
| `Uuid.RandomIsRecoverable` | packages/id/src/crypto-id-generator.ts:21-23 | dashes in the usual places, and every random byte can be read back from the text but for the stamped bits |

## Left out

* The decision, policy and quota calls of one guard evaluation are one step of the machine: they touch nothing it models.
* Kafka transport: partitions, offset ranges, group rebalancing, `start` and `stop`. An acknowledgement is per record, and a record may be delivered at any time.
* Several consumer groups on one retry topic: the model has one group.
* Waiting for a due time is in `KafkaConsumer.KafkaConsumerRuntime.HandleMessage`, not in the machine, whose steps may happen at any time.
* Message keys that are not valid UTF-8 text, and the texts of errors, log lines, metrics and traces.
* Header numbers: retry times and attempts that the runtime writes stay below 2^53, where decimal text is exact; schedules with infinite or fractional delays are out.
* `packages/messaging`, the outbox relays and the Prisma stores, whose guarantees (atomic recording inside a transaction) are taken as given.
- Redelivery.DlqCopyIsFaithful: attempts above 2^53, possible only in forged headers, are out, because their text is no longer plain decimal.
- Provisioning.GrantedAtMostOnce: a write that is in flight when a run crashes or times out either has happened by then or never lands.
- WatchdogBound.RollingCap: memory and cap are those of one process; another process that takes over the loop starts with an empty memory.
* The watchdog's pass lock itself: in `Watchdog` passes may overlap freely, and each run says when they do.
* A failing L2 in the entitlement cache, and the guard's explanation data, reason texts, batches of simulations and telemetry.
* The guard's cache in `Guard` may answer any entry ever set under the same key; lifetimes and invalidation are in the `Cache` modules, which take colon-free tenants.
* Characters outside the basic plane in decision ids, where code units and characters differ.
* Steps 1 to 3 and 5 of the HTTP pipeline, and its response formats. A decode failure of the response cache is an answer of its own.
* Redis rounding: a key lives until its expiry and not a millisecond longer.
* Numbers in expressions and contexts are reals: not-a-number, negative zero and rounding are out, and so is prototype lookup in contexts.
* `validateExpressionStructure`, `findUnevaluableRules`, `firstOutcome` and `matchedRuleIds`: one-line readers of what is modelled.
* Getters and proxies in the scanned graph, and the resolver probes beside the scan.
* Security use cases behind provisioning are reduced to what they store for one tenant; nobody else archives, revokes or deletes meanwhile.
* Composition, configuration and boot guards.
