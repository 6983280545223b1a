# TenantCore: verified model

A Dafny model of the stateful core of TenantCore, a multi-tenant SaaS backend written for
Node.js: its Redis job queue and worker, its tenant connection pool, and the counters, locks
and caches it keeps under expiring Redis keys. Every file verifies with

    dafny verify dfyconfig.toml

## What is modelled

**The job queue** (`Ordering`, `QueueModel`, `Queue`, `QueueRuns`, `QueueCommands`,
`QueueInterleavings`, `QueuePromotion`, `QueueRecords`, `QueueTiming`, `QueuePacing`,
`QueueSinglePromoter`, `QueueSolo`, `QueueRaces`, `QueueTraces`). A job is in one of the sorted sets waiting, active,
delayed and dead-letter queue, or completed. There are three levels:

- `QueueClass.Queue` is the object of the original. Each statement of a method is one Redis
  command in the original's order, and each method is proved equal to a function on the store.
- `QueueRuns` takes runs of those functions, one operation at a time: exactly one place,
  conservation, backoff, bounded work, draining order.
- `QueueCommands` interleaves any number of clients one Redis command at a time, since
  `pipeline()` is not a transaction and only the Lua script is atomic. Redis has one clock; a
  client reads it some time between the reply to its last command and the execution of the next.
  `QueueTraces.RunsAreTraces` joins the levels: every run of whole operations is a run of commands.

Under interleaving no job is ever lost, but a job can be in two places, and can be promoted before
its `runAt`: `QueueRaces` has three such runs. The exact conditions are
`QueueInterleavings.UniqueIffNeverMisses` (no promotion or retry ZREM removes a member that is
already gone; the code ignores the reply) and `QueueTiming.DueIffNeverEarly` (no promotion ZADD
inserts a job whose `runAt` lies past the clock), and together they give the backoff
(`QueuePacing.BackoffUnderInterleaving`). `QueueSinglePromoter.ExclusiveIsSafe` gives a discipline
that ensures both: one promotion at a time, which one worker process per queue achieves, and no two
overlapping retries of one job. Neither half is enough alone: two overlapping retries put a job in
two places without any promotion (`QueueRaces.DoubleRetry`).

**The worker** (`Worker`). The event loop between awaits: starts, polls, answers, settlements,
errors and stops in any order.

**The connection pool** (`Lru`, `PoolModel`, `ConnectionPool`, `PoolRuns`). `PoolModel` is the
insertion-ordered map with its scan for the oldest entry; `ConnectionPool.TenantConnectionPool` is the
object, proved equal to it; `Lru` is the recency list. `PoolRuns` says when entries follow the list,
when a larger pool holds all that a smaller one holds, and how far concurrent opens overfill a pool.

**Expiring keys** (`ExpiringKeys`): `RateLimit`, `EndpointLimit` and `RateLimiters` (the request
limiters), `CronLock`, `Quota` and `QuotaRaces` (calls one at a time, and interleaved by command),
`AccessToken` (logout), `Permissions`, `PermissionEngine` and `PermissionCache` (cache-aside).

**Login attempts** (`Lockout`, `LoginRaces`): the account lock, with logins one at a time and
overlapping.

**Slugs** (`Slug`): normalisation and the search for a free suffix.

Clock readings, generated ids, database replies and processor outcomes are parameters. A Redis key
with a lifetime is gone once the clock has passed its expiry.

## Where the code and its comments differ

The model follows the code.

- The queue is not FIFO: ZPOPMIN takes the least (score, id). Promoted and retried jobs get score
  0, so they lose their priority; `QueueRuns.OvertakesIff` says which jobs then overtake which.
- The DLQ is the key `dlq`; the documented key `failed` is never used.
- ioredis answers a missing hash with an empty object, so the null checks in `dequeue` and `fail`
  never fire and a missing record reads as its fallbacks.
- The rate limiters count in fixed windows, not sliding ones: the limit holds for a stretch of one
  window's length only if it is an aligned window (`RateLimit.SlidesIffAligned`), and twice the limit
  can pass within two milliseconds (`RateLimit.TwiceTheLimit`).
- A worker started twice exceeds its concurrency (`WorkerModel.WithinConcurrencyIff`), and
  `Worker.stop` does not stop a poll under way from taking jobs, which it then does not wait for
  (`WorkerModel.StopDrainsIff`).
- The cron lock keeps executions apart in time but makes a tick run once only if its firings fall
  within the first one's lock and before its DEL (`CronLock.RunsOnceIff`), and its unconditional DEL
  lets an overrun spread (`CronLock.OverrunSpreads`).
- The pool evicts by a millisecond clock, so with equal readings it can evict a tenant other than the
  least recently used (`PoolModel.VictimIsTailIff`), and it can exceed its size, since an await lies
  between the size check and the insert (`PoolRuns.ConcurrentBoundIff`).
- Overlapping logins save the failure count they loaded, so the lock allows more than five wrong
  passwords (`LoginRaces.OverlapBoundIff`).
- Resolving permissions reads the user and then the role. For the four roles the user schema admits
  (User.model.js:40-45) the second read plays no part, so an answer is the data of one moment
  (`PermissionCache.StorableAnswersAreOneMoment`); `PermissionCache.OneMomentIff` is about roles
  outside those four, which the code handles and the schema refuses.
- Invalidating a user's cached permissions is undone by any request that read the user before the
  change and stores its result afterwards (`PermissionCache.OutdatedAfterInvalidateIff`).
- The quota rounds a percentage, so it rejects from 99.5% of the limit.
- A denied permission is still held if a wildcard covers it.

## Model

| member | source | states |
|---|---|---|
| Ordering.First | packages/queue-engine/src/Queue.js:92 | the member ZPOPMIN removes precedes every other in (score, id bytes) order |
| Ordering.BelowIff | packages/queue-engine/src/Queue.js:92 | the order of equal scores is that of the ids' bytes: less at the first difference, or a proper prefix |
| QueueClass.Queue.Add | packages/queue-engine/src/Queue.js:44-80 | stores the record, with the queue's own defaults for absent options, and queues it as delayed iff runAt lies ahead, else waiting at minus its priority |
| QueueClass.Queue.DueIds | packages/queue-engine/src/Queue.js:198 | exactly the delayed jobs whose score is at most the reading, in (runAt, id) order |
| QueueClass.Queue.PromoteDelayed | packages/queue-engine/src/Queue.js:196-207 | the loop leaves in delayed exactly the jobs whose score lies past the reading and puts all others in waiting at score 0, where nothing else changes |
| QueueClass.Queue.Dequeue | packages/queue-engine/src/Queue.js:86-104 | promotes, leaving nothing due in delayed, then moves the first waiting job to active and returns its record |
| QueueModel.DequeueTakesFirst | packages/queue-engine/src/Queue.js:86-104 | a dequeue returns the first in (score, id) of all jobs that are waiting or due, a due one counting as score 0, and none only if there is none |
| QueueModel.DequeueLeavesNothingDue | packages/queue-engine/src/Queue.js:86-207 | afterwards delayed holds exactly what lies past the promotion's reading; every other job that stood in line waits with its score; nothing else has changed |
| QueueClass.Queue.Complete | packages/queue-engine/src/Queue.js:109-121 | leaves active, records the result, heads the capped history |
| QueueClass.Queue.Fail | packages/queue-engine/src/Queue.js:126-154 | logs the attempt and either buries the job or delays it by the backoff |
| QueueModel.FailureMoves | packages/queue-engine/src/Queue.js:126-154 | the n-th failure is logged, and goes to the dead-letter queue at the reading if n has reached maxAttempts, else to delayed 1000 * 2^n ms after it |
| QueueModel.BackoffDoubles | packages/queue-engine/src/Queue.js:148-149 | the delays are 2 s, 4 s, 8 s, each twice the last |
| QueueModel.FailureWithoutRecord | packages/queue-engine/src/Queue.js:127-154 | a job whose record is gone is retried as one of three attempts |
| QueueClass.Queue.RetryDLQ | packages/queue-engine/src/Queue.js:184-191 | returns a buried job to waiting with no attempts; otherwise refuses and changes nothing |
| QueueRuns.ExactlyOnePlace | packages/queue-engine/src/Queue.js:86-207 | over every run of whole operations a job is in exactly one place, and status and delayed score agree with it |
| QueueRuns.Conservation | packages/queue-engine/src/Queue.js:44-207 | waiting + active + delayed + dlq + completions is the multiset of adds, and the sizes add up |
| QueueRuns.History | packages/queue-engine/src/Queue.js:117-119 | completed is the newest min(1000, n) completions newest first; the log's tail numbers the attempts since the last retry |
| QueueRuns.BackoffHolds | packages/queue-engine/src/Queue.js:148-152 | successive dequeues of a job are 2^n s apart, the n-th at least 1000(2^n - 2) ms after the first; only due jobs are taken; never more often than the attempts allow |
| QueueRuns.OptionsDecide | packages/queue-engine/src/Queue.js:44-154 | through every run the record keeps the options of its add or their defaults; the job waits at minus its priority until delayed or failed, and is in the dead-letter queue iff it has been dequeued as often as maxAttempts says and the last dequeue has failed too |
| QueueRuns.Fallbacks | packages/queue-engine/src/Queue.js:21-22 | a queue without options, or with zeros, gives priority 0 and three attempts |
| QueueRuns.BoundedWork | packages/queue-engine/src/Queue.js:126-154 | without new adds or retries, operations that move a job number at most the work left |
| QueueRuns.DrainingSorts | packages/queue-engine/src/Queue.js:91-96 | with nothing due, n dequeues list the n waiting jobs in ascending (score, id) order |
| QueueRuns.DrainingFollowsPriority | packages/queue-engine/src/Queue.js:74-76 | undelayed first-time jobs come out in non-increasing priority |
| QueueRuns.DrainedBeforeIff | packages/queue-engine/src/Queue.js:92 | of two waiting jobs the first out is the one of higher priority left, or at equal ones of lesser id, where only an undelayed first-time job has its own priority left and the others have 0 |
| QueueRuns.OvertakesIff | packages/queue-engine/src/Queue.js:74-205 | exactly when a job comes out before one of higher priority: never if both are undelayed and first-time, else by the sign of the priority that is left and then by id |
| QueueCommands.Relocates | packages/queue-engine/src/Queue.js:44-207 | each Redis command takes at most one job from one place to another, even when it misses |
| QueueInterleavings.NeverLost | packages/queue-engine/src/Queue.js:44-207 | under every interleaving of commands each added job is in some structure or carried by a client about to insert it |
| QueuePromotion.EveryDueJobIsPromoted | packages/queue-engine/src/Queue.js:196-207 | under every interleaving each job due when a client scans has left delayed and been queued at score 0 by the time that client takes its job |
| QueueInterleavings.StepUniqueIff | packages/queue-engine/src/Queue.js:188-205 | one command keeps jobs in at most one place iff its promotion or retry ZREM finds its member |
| QueueInterleavings.UniqueIffNeverMisses | packages/queue-engine/src/Queue.js:184-207 | the same over whole interleaved runs |
| QueueRecords.RecordsAgree | packages/queue-engine/src/Queue.js:109-207 | in runs without such a miss every record agrees with the job's place at every command |
| QueueTiming.DueIffNeverEarly | packages/queue-engine/src/Queue.js:196-207 | in such runs every waiting or active job is due at every command iff no promotion ZADD inserts a job whose runAt lies past the clock |
| QueueTiming.UniqueAndDueIff | packages/queue-engine/src/Queue.js:184-207 | over all runs: one place at a time and never before runAt iff no removal misses and no promotion is early |
| QueuePacing.BackoffUnderInterleaving | packages/queue-engine/src/Queue.js:148-152 | in such runs the dequeues of a job are 2^n s apart, the n-th at least 1000(2^n - 2) ms after the first, and never more than its attempts |
| QueueSinglePromoter.ExclusiveIsSafe | packages/queue-engine/src/Queue.js:184-207 | with one promotion at a time and no two retries of one job at a time: one place for each job, never before its runAt, records that agree, the backoff kept, whatever else interleaves |
| QueueRaces.DoublePromotion | packages/queue-engine/src/Queue.js:196-207 | two interleaved promotions leave a job both waiting and active |
| QueueRaces.EarlyPromotion | packages/queue-engine/src/Queue.js:196-207 | a stale promotion returns a failed job to waiting before its backoff is over |
| QueueRaces.DoubleRetry | packages/queue-engine/src/Queue.js:184-191 | two overlapping retries of one job leave it both waiting and active, without any promotion |
| QueueSolo.SoloAdd | packages/queue-engine/src/Queue.js:65-78 | the commands of add, uninterrupted, are the one-step add |
| QueueSolo.SoloDequeue | packages/queue-engine/src/Queue.js:86-104 | likewise for dequeue with its promotion loop |
| QueueSolo.SoloComplete | packages/queue-engine/src/Queue.js:109-121 | likewise for complete |
| QueueSolo.SoloFail | packages/queue-engine/src/Queue.js:126-154 | likewise for fail, on both branches |
| QueueSolo.SoloRetry | packages/queue-engine/src/Queue.js:184-191 | likewise for retryDLQ |
| QueueTraces.RunsAreTraces | packages/queue-engine/src/Queue.js:44-207 | every run of whole operations is matched by a run of commands with the same store, completions and dequeue times |
| WorkerModel.WorkerBound | packages/queue-engine/src/Worker.js:57-103 | started n times, a worker never holds more than n times its concurrency, however its awaits and settlements interleave and whichever loop takes a retried job again; started once, never more than its concurrency |
| WorkerModel.BoundAttained | packages/queue-engine/src/Worker.js:30-35 | started n times it can hold n times its concurrency |
| WorkerModel.WithinConcurrencyIff | packages/queue-engine/src/Worker.js:30-35 | with up to n starts no run exceeds the concurrency iff n is at most 1 |
| WorkerModel.WorksInBatches | packages/queue-engine/src/Worker.js:62-71 | started once and without dequeue errors, no poll begins before every job of the last one is settled |
| WorkerModel.StoppedTakesAtMostReserved | packages/queue-engine/src/Worker.js:40-52 | after stop it takes at most the jobs its polls under way had slots for |
| WorkerModel.StoppedTakesNoneIff | packages/queue-engine/src/Worker.js:65-69 | a stopped worker is sure to take no further job iff no poll under way has a slot left |
| WorkerModel.StopIsFinal | packages/queue-engine/src/Worker.js:40-58 | from the stop on, until a start, a worker takes at most the jobs its polls under way had slots for, and every timer that fires ends its loop |
| WorkerModel.StopDrainsIff | packages/queue-engine/src/Worker.js:45-48 | when all jobs held at the stop are settled the worker is sure to hold none iff no poll under way had a slot left |
| WorkerModel.NoTimerLeftIff | packages/queue-engine/src/Worker.js:42-76 | stop is sure to leave no poll timer behind iff the worker is started at most once |
| WorkerModel.KeepsPolling | packages/queue-engine/src/Worker.js:57-77 | until it is stopped no loop ends, dequeue errors or not: each can reach its next timer once its jobs are settled, and then asks for as many jobs as there is room for |
| WorkerModel.UnansweredAsksNoMore | packages/queue-engine/src/Worker.js:65-69 | a poll whose dequeue finds nothing or throws asks for no more jobs |
| WorkerModel.BatchesDespiteErrorsIff | packages/queue-engine/src/Worker.js:60-76 | with dequeue errors a worker is sure to work in batches iff its concurrency is at most 1 |
| WorkerClass.Worker.Start | packages/queue-engine/src/Worker.js:30-35 | start is the loop's start event |
| WorkerClass.Worker.Stop | packages/queue-engine/src/Worker.js:40-43 | the worker is no longer running and holds what it held; stop is the loop's stop event |
| WorkerClass.Worker.Take | packages/queue-engine/src/Worker.js:66-68 | one turn of the slot loop: settlements, then the answer; the job is held from then on |
| WorkerClass.Worker.Poll | packages/queue-engine/src/Worker.js:57-77 | a whole poll does what the event loop makes of the answers to its awaits |
| WorkerClass.PolledIsRun | packages/queue-engine/src/Worker.js:57-77 | so a poll, from its timer on, is a run of the event loop and inherits what holds of runs |
| Lru.UsedBound | apps/api/src/db/ConnectionPool.js:38-41 | one use keeps the recency list free of duplicates and within the pool's size |
| Lru.RunBound | apps/api/src/db/ConnectionPool.js:23-112 | so does any sequence of uses and releases |
| Lru.Inclusion | apps/api/src/db/ConnectionPool.js:23-112 | of recency lists: on the same calls a smaller pool's list is the front of a larger pool's (for the entries themselves see PoolRuns.StrictInclusion) |
| Lru.InclusionDespiteFailuresIff | apps/api/src/db/ConnectionPool.js:23-46 | with up to f calls that fail in the smaller pool alone the larger one still holds all its tenants iff f is at most the difference in size (or the smaller holds one) |
| Lru.FailsInLargeAlone | apps/api/src/db/ConnectionPool.js:23-46 | one call that fails in the larger pool alone breaks inclusion |
| PoolModel.VictimIsTailIff | apps/api/src/db/ConnectionPool.js:83-97 | the scan picks the least recently used tenant iff no entry inserted before it was touched in the same millisecond |
| PoolModel.FollowsListIff | apps/api/src/db/ConnectionPool.js:23-46 | one request does to the entries what it does to the recency list iff it does not evict in such a tie |
| PoolRuns.FollowsListIffNeverAmbiguous | apps/api/src/db/ConnectionPool.js:23-112 | over every run of requests, dead connections and failed opens included, the pool holds what the list holds in its order iff no eviction falls into such a tie |
| PoolRuns.NeverOverfull | apps/api/src/db/ConnectionPool.js:39-44 | requests one at a time never exceed the size, ties or not |
| PoolRuns.EmptyIdOverfills | apps/api/src/db/ConnectionPool.js:94-98 | an entry of the empty id that is oldest cannot be evicted, and a further miss exceeds the size |
| PoolRuns.StrictInclusion | apps/api/src/db/ConnectionPool.js:23-112 | with strictly increasing readings a larger pool holds every tenant a smaller one holds, with connections dying at any point in either |
| PoolRuns.InclusionWithTiesIff | apps/api/src/db/ConnectionPool.js:83-97 | with equal readings that is sure only for pools of one or of equal size, even if no connection dies |
| PoolRuns.ConcurrentBoundIff | apps/api/src/db/ConnectionPool.js:38-44 | with at most k opens in flight the pool holds at most its size plus k - 1, and no lesser bound holds |
| PoolRuns.OneEntryEach | apps/api/src/db/ConnectionPool.js:43-44 | however opens overlap no tenant has two entries |
| PoolRuns.SoloMoments | apps/api/src/db/ConnectionPool.js:23-46 | without overlap the moments of a call are the one-step request |
| ConnectionPool.TenantConnectionPool.OldestIndex | apps/api/src/db/ConnectionPool.js:84-92 | the scan finds the first entry with the least lastUsed |
| ConnectionPool.TenantConnectionPool.EvictLRU | apps/api/src/db/ConnectionPool.js:83-100 | removes that entry and closes its connection and no other |
| ConnectionPool.TenantConnectionPool.Open | apps/api/src/db/ConnectionPool.js:38-45 | a miss evicts only from a full pool, then inserts the new connection as most recent, ready, connecting or closed; if opening throws it has still evicted |
| ConnectionPool.TenantConnectionPool.Reuse | apps/api/src/db/ConnectionPool.js:24-36 | returns the entry's connection, touched, iff it is ready; a connecting or dead one leaves the pool without being closed |
| ConnectionPool.TenantConnectionPool.GetConnection | apps/api/src/db/ConnectionPool.js:23-46 | does to the entries what PoolModel.After does, from the connection's state; returns the entry's own ready connection or a new one in the state it was opened in; closes the evicted connection and no other |
| ConnectionPool.TenantConnectionPool.Release | apps/api/src/db/ConnectionPool.js:105-112 | removes and closes the tenant's entry only, and keeps it when closing fails |
| ExpiringKeys.SetExpires | apps/api/src/services/cache/CacheService.js:48-52 | a key set with a lifetime reads its value until exactly that has passed, one set without for ever, and no other key changes |
| ExpiringKeys.SetNxOnce | apps/workers/src/index.js:73 | SET NX succeeds iff the key reads nothing, and otherwise changes nothing |
| ExpiringKeys.IncrCounts | apps/api/src/middleware/rateLimit.middleware.js:85-88 | INCR adds to what the key reads and keeps a live key's lifetime; a new key lives for ever until its EXPIRE, and then exactly its lifetime |
| RateLimit.CountsAllIff | apps/api/src/middleware/rateLimit.middleware.js:42-45 | every counter tells its window's requests throughout a run iff no INCR meets the expired counter of its own window |
| RateLimit.PromptIsNeverLate | apps/api/src/middleware/rateLimit.middleware.js:42-45 | which no INCR within two windows of its window's start does |
| RateLimit.WindowAdmitsLimit | apps/api/src/middleware/rateLimit.middleware.js:38-61 | then an aligned window admits exactly its first L requests and its counter outlives the window |
| RateLimit.AdmittedIff | apps/api/src/middleware/rateLimit.middleware.js:38-61 | and a request passes iff fewer than L of its aligned window came before it |
| RateLimit.CountersGo | apps/api/src/middleware/rateLimit.middleware.js:43-45 | two windows after a run's last command no counter is left but those whose EXPIRE is still to come |
| RateLimit.LateWindowAdmits | apps/api/src/middleware/rateLimit.middleware.js:42-45 | in every run, a window admits at most L once more for each INCR that met its expired counter |
| RateLimit.IntervalAdmits | apps/api/src/middleware/rateLimit.middleware.js:38-61 | any interval of k window lengths, by the clock the requests read, admits at most (k + 1) L |
| RateLimit.IntervalCounts | apps/api/src/middleware/rateLimit.middleware.js:38-61 | by the time of their INCRs, if each is within d windows of its reading, at most (k + d + 1) L |
| RateLimit.SlidesIffAligned | apps/api/src/middleware/rateLimit.middleware.js:8-15 | the limit holds for the window's length from a on, in every prompt run, iff a is the start of an aligned window |
| RateLimit.TwiceTheLimit | apps/api/src/middleware/rateLimit.middleware.js:8-15 | for every limit and window, twice the limit can pass within two milliseconds |
| TenantRateLimiterClass.TenantRateLimiter.Handle | apps/api/src/middleware/rateLimit.middleware.js:38-63 | one request is the INCR and, for a new counter, EXPIRE events; admitted iff the count is within the limit; how many remain, the end of the aligned window, and the seconds until then |
| EndpointLimit.EndpointAdmits | apps/api/src/middleware/rateLimit.middleware.js:78-100 | at most max per window and at most 2 max in any interval of the window's length |
| EndpointLimit.AdmittedIff | apps/api/src/middleware/rateLimit.middleware.js:85-93 | over every run a request passes iff fewer than max came before it in its window, which ends one window length after its EXPIRE, and never if that never comes |
| EndpointLimit.OpensAgain | apps/api/src/middleware/rateLimit.middleware.js:86-88 | more than the window's length after its EXPIRE the counter is gone and the next request opens a window, and passes iff max is at least 1 |
| EndpointLimiterClass.EndpointLimiter.Handle | apps/api/src/middleware/rateLimit.middleware.js:79-96 | one request is those events; a request that finds no live counter leaves 1 with the window's lifetime from its EXPIRE, any other one more and the same lifetime; admitted iff the count is within max |
| CronLock.ExclusiveIffNeverUnguarded | apps/workers/src/index.js:69-88 | at most one instance runs at a time iff no timer fires while a handler runs that has outlived its lock or lost it to another's DEL |
| CronLock.OnTimeIsExclusive | apps/workers/src/index.js:69-88 | if every handler and DEL finish within the lifetime: exclusion, and the DEL removes only the caller's lock |
| CronLock.OverrunSpreads | apps/workers/src/index.js:84-86 | for every lifetime, an overrun can let a third instance run beside a second that is on time |
| CronLock.RunsOnceIff | apps/workers/src/index.js:69-88 | from a tick's first firing on, the handler is called exactly once iff every other firing comes within the lock's lifetime and before any DEL |
| CronLock.SecondRunsIff | apps/workers/src/index.js:74-87 | of two firings the second runs the job again iff the first's DEL precedes it or its lock has run out |
| CronLock.LockedJob.Begin | apps/workers/src/index.js:72-78 | the handler is called iff no live lock was there |
| CronLock.LockedJob.Finish | apps/workers/src/index.js:85-86 | the handler's end and then its DEL, which removes the key whoever set it |
| Quota.ThresholdIff | apps/api/src/services/quota/QuotaEngine.js:84-91 | the rounded percentage reaches 100 iff 200 n >= 199 L, and 80 iff 200 n >= 159 L |
| Quota.EnforceCounts | apps/api/src/services/quota/QuotaEngine.js:77-82 | a counter found absent, expired or at 0 holds the amount for 35 days from its EXPIRE, any other grows and keeps its lifetime; no other counter changes |
| Quota.EnforceWarnsIff | apps/api/src/services/quota/QuotaEngine.js:84-98 | rejected iff the count reaches 99.5% of the limit; a warning iff it is accepted from 79.5% on and no flag is live, and then the flag lives a day |
| Quota.NothingAllowed | apps/api/src/services/quota/QuotaEngine.js:64-89 | with limit 0 every count above 0 is rejected and check allows none |
| Quota.QuotaHolds | apps/api/src/services/quota/QuotaEngine.js:71-99 | in a month of positive increments: accepted iff all asked for stays below 99.5%, accepted usage below the limit, no acceptance after a rejection, warnings over 24 h apart |
| Quota.CheckAgreesAfterAcceptance | apps/api/src/services/quota/QuotaEngine.js:56-65 | after an acceptance check still allows |
| Quota.DisagreementIff | apps/api/src/services/quota/QuotaEngine.js:64-89 | enforce rejects what check would allow exactly for counts in the last half percent |
| QuotaRaces.SoloEnforce | apps/api/src/services/quota/QuotaEngine.js:71-99 | the commands of enforce, uninterrupted, are the one-step enforce |
| QuotaRaces.CountsAllIff | apps/api/src/services/quota/QuotaEngine.js:77-121 | under every interleaving of calls, decrements and resets the counter is the total since the last reset all along iff no command meets it expired at another value than 0 |
| QuotaRaces.PromptNeverForgets | apps/api/src/services/quota/QuotaEngine.js:80-82 | which no command within 35 days of the first does |
| QuotaRaces.AcceptedIff | apps/api/src/services/quota/QuotaEngine.js:77-89 | then a call is accepted iff the total up to its INCRBY is below 99.5% of the limit |
| QuotaRaces.NeverOversold | apps/api/src/services/quota/QuotaEngine.js:71-99 | overlapping calls with positive amounts: what is accepted stays below the limit, and after a rejected INCRBY all are rejected |
| QuotaRaces.WarningsSpaced | apps/api/src/services/quota/QuotaEngine.js:91-98 | under every interleaving warnings are more than 24 h apart and for counts from 79.5% to below 99.5%; a call in that band stays silent iff one is at most 24 h old |
| Quota.QuotaEngine.Enforce | apps/api/src/services/quota/QuotaEngine.js:71-99 | counts, sets the lifetime on a first increment, rejects or warns; an unlimited plan does nothing |
| Quota.QuotaEngine.Check | apps/api/src/services/quota/QuotaEngine.js:56-65 | reads the counter and compares it with the limit; reports 100% while allowing exactly in the last half percent |
| Quota.QuotaEngine.Decrement | apps/api/src/services/quota/QuotaEngine.js:104-108 | lowers usage by the amount |
| Quota.QuotaEngine.ResetMonthly | apps/api/src/services/quota/QuotaEngine.js:113-121 | zeroes the two monthly counters of that tenant and month and leaves every other alone |
| AccessToken.LoggedOutIsRejected | apps/api/src/services/auth/TokenStore.js:89-114 | after a logout at any millisecond a request passes only if verified before exp and checked after it |
| AccessToken.SlipsThroughIff | apps/api/src/middleware/auth.middleware.js:41-47 | exactly when a request of a logged-out token passes, whatever its tenant |
| AccessToken.SlipsThrough | apps/api/src/middleware/auth.middleware.js:41-47 | a request that straddles exp does |
| AccessToken.JudgedIff | apps/api/src/middleware/auth.middleware.js:33-69 | each verdict's own condition, in the order of the checks |
| AccessToken.LogoutLists | apps/api/src/services/auth/TokenStore.js:89-104 | a logout lists exactly the token's own id, for its remaining whole seconds, and nothing for an expired or id-less token |
| AccessToken.OthersLogoutsDoNothing | apps/api/src/services/auth/TokenStore.js:109-118 | logging out tokens of other ids, however many, changes no verdict |
| AccessToken.TokenStore.BlacklistAccessToken | apps/api/src/services/auth/TokenStore.js:89-104 | sets the token's key for its remaining whole seconds, nothing for expired or id-less tokens or while Redis is down |
| AccessToken.TokenStore.AuthenticateJwt | apps/api/src/middleware/auth.middleware.js:33-69 | passes iff there is a genuine token that decodes, is verified before exp, is not on the blacklist at the check (while Redis is up), and is the request's tenant's or the request has none; every other verdict as JudgedIff says |
| Permissions.Fetch | apps/api/src/services/rbac/PermissionEngine.js:31-66 | exactly role and grant less deny, each once; the empty list when loading fails, for system roles too |
| Permissions.HasPermissionIff | apps/api/src/services/rbac/PermissionEngine.js:72-80 | a user has a permission, denied or not, iff "*", itself or its resource's wildcard is in the role or granted and not denied |
| Permissions.WildcardOf | apps/api/src/services/rbac/PermissionEngine.js:78-79 | the wildcard of a resource and of each of its permissions is the resource with ":*" |
| Permissions.SystemRoles | apps/api/src/services/rbac/PermissionEngine.js:37-39 | an owner denied nothing has every permission, each other system role all of the one below, none but the owner "*"; the role document plays no part |
| Permissions.CustomRoles | apps/api/src/services/rbac/PermissionEngine.js:40-58 | any other role is its document's permissions or none, with grants and less denials |
| Permissions.DeniedIff | apps/api/src/services/rbac/PermissionEngine.js:51-80 | a denied permission, wildcards included, is still held iff a wildcard that covers it is left after the denials (or it is empty) |
| PermissionEngineClass.CacheService.Wrap | apps/api/src/services/cache/CacheService.js:89-97 | a hit changes nothing; a loaded value is served for exactly its lifetime; an absent one is not cached; other keys stay |
| PermissionEngineClass.PermissionEngine.ResolvePermissions | apps/api/src/services/rbac/PermissionEngine.js:19-25 | the cached list while it lives, else the fetched one, cached for exactly 300 s; no other user's entry changes |
| PermissionEngineClass.PermissionEngine.InvalidateCache | apps/api/src/services/rbac/PermissionEngine.js:96-100 | afterwards nothing is cached for the user, and every other user's entry is as it was |
| PermissionEngineClass.PermissionKeysDiffer | apps/api/src/services/cache/CacheService.js:120 | no two users share an entry |
| PermissionCache.AnswersAreRecent | apps/api/src/services/rbac/PermissionEngine.js:19-66 | every answer is role and grant less deny, the user as read at one moment and the role at a later one, both at most 300 s and one request ago, or empty because loading the role failed then |
| PermissionCache.StorableAnswersAreOneMoment | apps/api/src/services/rbac/PermissionEngine.js:37-60 | for the users the schema admits, each answer is what one version of the data held, at most 300 s and one request ago, or empty because loading failed then |
| PermissionCache.OneMomentIff | apps/api/src/services/rbac/PermissionEngine.js:37-60 | for any role, and so only beyond those the schema admits can it fail: whatever is written, the two reads give what the user held at one moment between them iff every role change between them precedes every user change |
| PermissionCache.SameHeldIff | apps/api/src/services/rbac/PermissionEngine.js:51-60 | two versions of a role give a user the same permissions iff they agree outside the user's own grants and denials |
| PermissionCache.OutdatedAfterInvalidateIff | apps/api/src/services/rbac/PermissionEngine.js:96-100 | an answer from a user older than the invalidation can follow it iff some client holds an outdated user, read before the cache was asked, with time left to store |
| PermissionCache.FreshAfterInvalidate | apps/api/src/services/rbac/PermissionEngine.js:96-100 | when none does, every answer until the next change is what the database holds, or empty because loading failed |
| PermissionCache.OutdatedSpreads | apps/api/src/services/rbac/PermissionEngine.js:19-25 | what an outdated client stores is served to others for the entry's whole lifetime |
| PermissionCache.ServedUntilInvalidated | apps/api/src/services/rbac/PermissionEngine.js:19-25 | whatever changes in the database, a stored answer is what every request gets for 300 s unless another is stored or the user invalidated, and then none |
| Lockout.LockoutRate | apps/api/src/models/tenant/User.model.js:131-142 | n comparisons without success satisfy n <= 5 + (t_n - t_5) / 900000 ms |
| Lockout.LogsInIff | apps/api/src/controllers/auth.controller.js:148-159 | after any logins one is turned away as locked iff five passwords have failed since the last success and the last failure's save is under fifteen minutes ago, then for a suspended or deactivated status, then for its password; only the last two outcomes change the account |
| Lockout.RelocksAtOnce | apps/api/src/models/tenant/User.model.js:136-142 | after five failures each further one locks at once, for exactly fifteen minutes |
| LoginRaces.SoloLogin | apps/api/src/models/tenant/User.model.js:136-142 | load, comparison and save, uninterrupted, are the one-step login |
| LoginRaces.OverlapBound | apps/api/src/models/tenant/User.model.js:131-142 | k overlapping clients: at most C(k + 4, 4) - 1 comparisons do not lock, and each client locks at most once per fifteen minutes begun, less the time between a save's clock reading and its write |
| LoginRaces.WaysClosed | apps/api/src/models/tenant/User.model.js:136-142 | the number in that bound is the binomial coefficient |
| LoginRaces.OverlapBoundIff | apps/api/src/controllers/auth.controller.js:146-157 | with saves that write at once, comparisons within t ms number at most C(k + 4, 4) - 1 + k (1 + t / 900000), and no lesser bound holds |
| Lockout.User.IncrementFailedLogin | apps/api/src/models/tenant/User.model.js:136-142 | counts the failure and locks from the fifth on |
| Lockout.User.ResetFailedLogin | apps/api/src/models/tenant/User.model.js:144-150 | clears failures and lock and counts the login |
| Lockout.User.TryLogin | apps/api/src/controllers/auth.controller.js:149-159 | lock, status, password, in that order, each with its outcome and effect |
| Slug.SlugIsNormal | apps/api/src/services/tenant/TenantProvisioner.js:189-194 | slug alphabet, no leading or doubled hyphen, at most 50; normalising again changes it iff truncation left a final hyphen |
| Slug.SlugIsJoinedWords | apps/api/src/services/tenant/TenantProvisioner.js:189-194 | the slug is the runs of letters and digits of the lower-cased name joined by single hyphens and cut to 50 characters |
| Slug.LowerAscii | apps/api/src/services/tenant/TenantProvisioner.js:190 | ASCII capitals become small letters and no other ASCII character changes |
| Slug.DecimalInjective | apps/api/src/services/tenant/TenantProvisioner.js:203 | different suffixes print differently |
| Slug.DecimalDenotes | apps/api/src/services/tenant/TenantProvisioner.js:203 | a suffix is the decimal digits of its number without leading zeros |
| Slug.FirstFree | apps/api/src/services/tenant/TenantProvisioner.js:196-204 | the search ends within one lookup more than there are slugs, at the first free candidate |
| Slug.GenerateSlug | apps/api/src/services/tenant/TenantProvisioner.js:188-205 | an unused slug with the least suffix on the normalised name |

## Left out

- Crashes and Redis outages: a client that dies with a job keeps it in active for ever, since nothing reclaims it; every client is assumed to finish its operation.
- Backoff delays beyond 2^53 ms, where JavaScript numbers round.
- The record's `error` field, which is never set to anything but null, and `getDLQJobs`.
- Processors, heartbeats and timeouts of the worker: a processor ends when it ends; a timed-out one that keeps running is not counted.
- PolledIsRun: one poll without starts, stops or other polls in between; `WorkerModel.WorkerBound` covers those.
- GetConnection: one call with no other during its await; `PoolRuns.ConcurrentBoundIff` is about the entries when calls overlap, not about which connections are closed. A failed open is one that `_openConnection` throws, as for a malformed URI: the driver returns a connection while it is still connecting, and a connect that fails later rejects nothing.
- `_openConnection`'s URI building, `healthCheck`, `closeAll`.
- Retry-After of the endpoint limiter, which is the counter's TTL read by one more command.
- Rate limiting of requests without a tenant or with Redis not ready, which pass unchecked.
- QuotaHolds: sequential calls, which QuotaRaces goes beyond; the percentage is exact instead of floating point, in both; getUsage is not modelled.
- LoggedOutIsRejected: tokens with the same id have the same expiry, and Redis is up; while it is down nothing is revoked (`AccessToken.JudgedIff` with no keys).
- Refresh tokens, JWT signatures and password hashing.
- LockoutRate: sequential logins; LoginRaces has the overlapping ones.
- OverlapBound: wrong passwords only, with no successful login among them, and saves that do not fail.
- PermissionCache: one user; a request that takes its permissions from an access token does not resolve them and is not modelled.
- `invalidatePattern`, `checkMany`, and the roles table beyond the four system roles.
- Lower-casing in `Slug` distinguishes only letters whose lower case can contain a word character.
- FirstFree: the set of existing slugs does not change during the search.
- Tenant provisioning beyond the slug, HTTP routing, files, search, notifications and the dashboard.
