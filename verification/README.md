# UTTG: the protocols over the shared store

UTTG is a telemetry gateway. API workers, schedulers and webhook workers share one expiring
key-value store (Valkey), a database and a message queue, and its hard logic is what many of them
do to that shared state at the same time. This project models that logic in Dafny and proves what
it guarantees over every run.

| file | what it models |
|---|---|
| `Sets.dfy`, `Powers.dfy`, `Selections.dfy` | sizes of sets, powers of two, picking elements of a sequence in order |
| `Store.dfy` | the store: a clock, entries with an expiry, and the commands that change them in place (`Valkey`), specified by functions on snapshots (`Db`) |
| `Cache.dfy`, `CacheRuns.dfy`, `CacheProgress.dfy` | the single-flight, stale-while-revalidate cache: its scripts, all interleavings of any number of callers, and what they get done |
| `Background.dfy` | the bounded background refreshes of one process |
| `Backoff.dfy`, `Scheduler.dfy` | replicated ingestion jobs over a lease without an owner |
| `Launches.dfy` | the transactional replacement of upcoming launches, with fallback between sources |
| `Circuit.dfy`, `Transport.dfy` | the circuit breaker over all interleavings, and one provider request with retries and fallback |
| `Text.dfy`, `Limiter.dfy`, `Upstream.dfy`, `UpstreamLimits.dfy` | the inbound limiter and the budget guard in front of Space-Track, with runs that show how exact its bounds are |
| `Worker.dfy`, `WorkerProgress.dfy` | webhook delivery over a redelivering queue, and what an undisturbed handling comes to |
| `Analytics.dfy`, `MetricQueue.dfy` | aggregation of request metrics and the bounded queue that feeds it |
| `Lines.dfy`, `TleCatalog.dfy`, `TleKey.dfy` | the lines of a text, the look-ahead parser of element sets, and the cache key of `/orbits/tle` |

## How the model is built

Code that changes shared state appears twice. A method changes a `Valkey` (or another class) step
by step, as the code does, and its contract ties the new state to a function of the old one. The
runs are then sequences of events over those functions: every event of a call is one atomic
command or script, and any number of calls interleave with pauses of any length, crashes, lost
replies, an unreachable store and the traffic of all other keys. An invariant is proved for every
event, and the guarantees follow for every run from an initial state.

What is assumed:

- Time is counted in whole milliseconds, the resolution of the store's expiry clock, and all
  processes read the same clock. A clock reading and the command that uses it are separate steps,
  so a reading may be arbitrarily old, except where a lemma states a bound.
- A key is live strictly before its expiry. The store does not evict live keys, and no key of one
  feature is used by another, so a command never meets a value of the wrong type.
- Cache tokens are unique, and `ttl` and `stale` are fixed for each cache key.
- A database transaction takes effect as a whole or not at all, and one upsert statement may not
  touch a row twice (PostgreSQL refuses that).
- The limiter lemmas hold for any injective naming of the counters; `KeysAreInjective` shows that the
  real names are one.
- Durations and their jitter are exact: a jittered delay is any number of milliseconds between 0.8
  and 1.2 times the base.

## Where the code does less than its description says

- Waiters (`core/cache_layer.py:121-130`) hand out a polled value as fresh with age zero. That
  value may have been written before the waiter's own miss, exactly if it was stamped late: the
  second after the stamped one was already over when the store script ran. `WaitersGetNewValues`
  and `LateStampDefeatsWaiters` are the two halves, and `WaitersCanGetOldValues` is a run from an
  empty cache.
- `ARCHITECTURE.md` says that failures back off up to the job interval. The exponent stops at ten
  doublings, so a job whose interval exceeds 61440 s never backs off that far (`BaseLevelsOff`).
- "Five failures in five minutes" (`ARCHITECTURE.md`) holds only while the EXPIRE follows the
  INCR that creates the counter. If it is at most a delay late, the failures of an opening lie less
  than five minutes and that delay apart (`FailuresLieInOneWindow`), and for every delay a run gets
  within a millisecond of it (`LateExpireStretchesTheWindow`). A call that stops between the two
  leaves a counter that never expires (`AbandonedCounterNeverExpires`).
- A circuit that is open keeps out only the calls whose check is answered: `_circuit_is_open`
  (`providers/transport.py:157-161`) lets a call pass when the store cannot be asked
  (`CheckPassesExactly`). A success whose DEL is lost (`providers/transport.py:151-155`) leaves the
  failures before it on the counter. `UnreachableStoreWeakensTheCircuit` is a run with both.
- The limiter counts exactly if and only if no request's script runs a minute or more after the
  first one of its bucket (`CountIsExactIfAndOnlyIfOnTime`); one later request exceeds the quota
  (`OneLateRequestExceedsTheQuota`). By the instants of the scripts a sliding minute admits at most
  twice the quota if they run inside the minute they have read. If they are less than a minute late
  it is three times, which two milliseconds are enough to reach (`ThreeTimesTheQuotaIsReached`), and
  being on time alone bounds nothing (`OnTimeAloneBoundsNoInstant`).
- The Space-Track budget ("all limits are enforced", `providers/spacetrack.py:26-36`) holds as long
  as every caller counts on a counter that is still there, which is exactly when the count it gets
  is a new one (`CountIsNewIfAndOnlyIfKept`). Callers at most 60 s late always do
  (`TimelyCallersKeepTheBudget`), and that bound is exact: with 60.001 s, 30 calls can pass in a
  minute (`LateCallExceedsTheBudget`). By the instants at which calls pass a sliding minute holds up
  to 87, not 58, as soon as callers are two milliseconds late (`SlidingMinuteCanHoldThreeBudgets`).
- An error from the database does not mean that nothing was written: a commit can be carried out and
  its reply lost. The launch job then raises, or goes on to the next source, although the table has
  been replaced (`UnnoticedCommitChangesRows`; `StoredBySuccess` says what is left in every case).
- Nothing ties the scheduler's lock to its holder: as soon as a round is as old as its lease,
  another replica gets in (`LongRoundBreaksExclusion`, `RoundsExcludeExactlyWithinTheLease`). The
  spacing of the acquisitions needs no such bound.

## Model

| member | source | states |
|---|---|---|
| CacheLayer.EvalRead | core/cache_layer.py:14-39 | a value of age at most ttl is fresh; otherwise whoever finds no lock gets it for 15 s and is told to revalidate, or to compute if there is no value of age at most stale; nobody else changes anything |
| CacheLayer.EvalStore | core/cache_layer.py:41-55 | exactly if the token still holds the lock, value and stamp are there for the stale duration and the lock is free |
| CacheLayer.EvalUnlock | core/cache_layer.py:57-62 | the unlock script frees the lock exactly if the token holds it |
| CacheLayer.Invalidate | core/cache_layer.py:189-190 | data and lock of the key are gone, everything else stays |
| CacheLayer.KeysCollideExactly | core/cache_layer.py:104-105 | a data key is some lock key exactly when its cache key begins with "lock:" and continues with the other; otherwise key names never clash |
| CacheLayer.ConfigForIsValid | core/cache_layer.py:100-105 | the durations accepted are 0 < ttl <= stale, and every accepted call has two different keys |
| CacheLayer.ScriptsAreLocal | core/cache_layer.py:14-62 | what happens to one cache key leaves all other keys alone |
| CacheLayer.MissMeansAbsentOrLate | core/cache_layer.py:22-38 | a reader misses a value that is still there only if it was stamped late, however old the reader's clock reading |
| CacheRuns.StepsRunTheScripts | core/cache_layer.py:94-186 | the steps of a run move the store exactly as the scripts do |
| CacheRuns.StepPreserves | core/cache_layer.py:94-190 | the invariant of the protocol is kept by every step of every call, by invalidations, crashes and pauses |
| CacheRuns.VersionsNeverGoBack | core/cache_layer.py:156-186 | over any run the source version shown under a key never decreases, and neither do the versions ever stored |
| CacheRuns.StoresStayInsideTheirTenure | core/cache_layer.py:41-55 | every stored value was sampled and stored within 15 s of its own token taking the lock, with no invalidation in between |
| CacheRuns.LostLockIsLostForGood | core/cache_layer.py:106-182 | a token that has lost the lock never holds it again and none of its results is stored afterwards |
| CacheRuns.InvalidationIsFinal | core/cache_layer.py:189-190 | after an invalidation nothing is stored by a call that had the lock before it, and the key never shows anything older than the source was then |
| CacheRuns.StalenessBound | core/cache_layer.py:107-130 | at the reader's clock a fresh value was sampled less than ttl + 15 s ago and a stale one less than stale + 15 s ago, and so was a value that a waiter polls, at the poll; for any delays and any compute timeout |
| CacheRuns.SingleFlight | core/cache_layer.py:29-37 | no token holds a lock for 15 s or longer, and of any two overlapping computations one began later, after the other's lock had expired or been invalidated |
| CacheRuns.TakeoverOnlyAfterLoss | core/cache_layer.py:29-37 | whoever takes the lock finds every other running computation expired or invalidated |
| CacheRuns.OthersLeaveALockedKeyAlone | core/cache_layer.py:41-62 | while a token holds the lock, no step of another call changes lock or data |
| CacheRuns.WaitersGetNewValues | core/cache_layer.py:121-130 | if no value is stamped late, every value a waiter polls was written after its own miss |
| CacheRuns.LateStampDefeatsWaiters | core/cache_layer.py:121-130 | from any state that shows a late-stamped value a waiter can be handed that value although it was written before its miss |
| CacheRuns.WaitersCanGetOldValues | core/cache_layer.py:121-182 | such a run starts from an empty cache: a caller stops for two seconds between reading its time stamp and storing |
| CacheProgress.ArrivalReadsTheClock | core/cache_layer.py:107-110 | a caller judges the value by the whole seconds since its stamp at the moment it arrives |
| CacheProgress.ReaderBecomesTheLeader | core/cache_layer.py:27-37 | a reader past the ttl who finds no lock holds it from then on for 15 s and computes, after serving the stale value if there is one and if there is a slot |
| CacheProgress.OtherReadersAreServed | core/cache_layer.py:24-38 | all others get the fresh or the stale value, or wait, without touching the store |
| CacheProgress.PromptLeaderFillsTheCache | core/cache_layer.py:156-182 | a leader who is done within his 15 s leaves the value he sampled, stamped with his clock, and a free lock |
| CacheProgress.WaiterGetsTheValue | core/cache_layer.py:121-131 | a poll hands out the value exactly if there is one |
| CacheProgress.FailureFreesTheLock | core/cache_layer.py:184-186 | a computation that fails releases its lock and leaves the value alone |
| CacheProgress.LockOfTheDeadExpires | core/cache_layer.py:29-35 | a lock whose holder is gone lasts exactly for the rest of its 15 s |
| Background.RefreshesStayBounded | core/cache_layer.py:136-153 | under any schedule at most the configured number of refreshes run at once although unlock tasks share the set |
| Background.BackgroundTasks.ScheduleRefresh | core/cache_layer.py:144-153 | a refresh is started exactly while the set is below its limit, and an unlock otherwise; the bound is kept |
| Backoff.BaseGrowsWithinBounds | ingestion/scheduler.py:116-118 | the base delay never decreases with the failures and lies between min(60, interval) and the interval |
| Backoff.BaseLevelsOff | ingestion/scheduler.py:116-118 | it is constant from the eleventh failure, and reaches the interval exactly if that is at most 61440 s |
| Backoff.SumWhileUncapped | ingestion/scheduler.py:116-118 | the first k uncapped delays add up to 60 * (2^k - 1) s |
| Backoff.RetryDelayRange | ingestion/scheduler.py:116-118 | the jittered delay lies between 0.8 and 1.2 times 2^(k-1) minutes, or of the interval once that is shorter |
| Scheduler.AcquireSlot | ingestion/scheduler.py:121-128 | zero is returned exactly if the lease was taken and the reply arrived; otherwise what is left of the lock but at least 5 s, or 60 s if the store fails at either command |
| Scheduler.HoldSlot | ingestion/scheduler.py:131-135 | the lock is overwritten, whoever holds it, for the whole seconds of the delay but at least one, or the failure is swallowed |
| Scheduler.AcquisitionsAreSpaced | ingestion/scheduler.py:121-179 | over any run of any replicas two acquisitions of a job are at least 48 s apart, and a window of length T holds at most T / 48 s + 1 of them |
| Scheduler.MutualExclusion | ingestion/scheduler.py:50-179 | if every round is shorter than the 900 s lease, no two replicas are ever inside the same job |
| Scheduler.LongRoundBreaksExclusion | ingestion/scheduler.py:121-128 | the bound is exact: once a round is as old as the lease, the next try by another replica gets in |
| Scheduler.RoundsExcludeExactlyWithinTheLease | ingestion/scheduler.py:50-128 | from the start, two replicas exclude each other if and only if the second tries before the lease of the first has passed |
| Scheduler.HoldKeepsEveryoneOut | ingestion/scheduler.py:131-179 | after rounds shorter than the lease, a hold keeps every replica out of the job for the whole seconds of its delay and no longer, whatever happens next; after a success that is the interval |
| Scheduler.RoundsSettle | ingestion/scheduler.py:150-176 | a success forgets the failures and settles for the interval, a failure counts one more and settles for its retry delay |
| Scheduler.SleepsAreExact | ingestion/scheduler.py:145-179 | a replica sleeps exactly for its delay, or for the wait of a refused try |
| Scheduler.FailuresTakeTime | ingestion/scheduler.py:145-173 | a replica ready again after k failures in a row has spent at least 0.8 times the sum of the base delays |
| Scheduler.LoneReplicaWakesToAFreeSlot | ingestion/scheduler.py:131-179 | a lone replica whose hold reached the store wakes to an expired lock and takes the slot |
| Launches.Database.ReplaceUpcoming | ingestion/scheduler.py:469-488 | the transaction replaces the table or, for an empty list, a repeated id or a commit that fails, changes nothing; a commit whose reply is lost is reported as a failure |
| Launches.Database.Ingest | ingestion/scheduler.py:491-513 | the configured sources are asked until one succeeds, each leaving its list in the table if its commit was carried out; if none succeeds the error raised lists every configured source with its own error; each health write gets through or not |
| Launches.StoredBySuccess | ingestion/scheduler.py:491-513 | if a source succeeds, the last thing that happens is the replacement by its list, and the only thing unless a commit before it went unnoticed; if none succeeds and no commit went unnoticed, no launch row changes |
| Launches.UnnoticedCommitChangesRows | ingestion/scheduler.py:487-505 | a commit whose reply is lost replaces the table although the job raises |
| Launches.FirstSuccessIsFirst | ingestion/scheduler.py:494-512 | the source used is the first configured one that succeeds, and none is used exactly when there is none |
| Launches.FailuresAreExplained | ingestion/scheduler.py:493-505 | the failure entries are those of exactly the configured sources, in order, each with its provider and its own error |
| Launches.JoinedInOrder | ingestion/scheduler.py:513 | the message raised lists them in order with "; " between them |
| Launches.AskedSourcesAreReported | ingestion/scheduler.py:494-507 | a configured source that no success precedes is shown as active exactly if it succeeded and otherwise with its error |
| Launches.OthersKeepTheirHealth | ingestion/scheduler.py:494-512 | every other health row is as before |
| Launches.ReplacementContents | ingestion/scheduler.py:472-487 | row by row: listed launches with the provider of a row already present, unlisted past or undated rows untouched, nothing else |
| Launches.UpcomingRowsAreTheList | ingestion/scheduler.py:482-487 | the upcoming rows are exactly the upcoming launches of the list, with no leftovers |
| Launches.ReplacementIsIdempotent | ingestion/scheduler.py:469-488 | replacing twice with the same list at the same instant is replacing once |
| Circuit.OpensOnlyAfterFiveFailures | providers/transport.py:136-155 | over every interleaving the circuit opens only on the fifth or a later failure of one counter; no success that cleared the counter lies between them, and no success at all unless a DEL was lost |
| Circuit.EveryFurtherFailureOpens | providers/transport.py:136-145 | the fifth failure and each one after it opens the circuit for 600 s as soon as its SET gets through |
| Circuit.FewFailuresOnlyCount | providers/transport.py:136-141 | the first four only count, and the first sets the 300 s |
| Circuit.SuccessStartsOver | providers/transport.py:151-153 | after a success whose DEL gets through there is no counter, and the next failure is the first again |
| Circuit.OnlyUnansweredChecksPassAnOpenCircuit | providers/transport.py:136-161 | over every interleaving, whoever passed the check within 600 s of an earlier opening got no answer to it |
| Circuit.CheckPassesExactly | providers/transport.py:157-161 | in every reachable state a check lets its call pass if and only if it gets no answer or all openings lie at least 600 s back |
| Circuit.UnreachableStoreWeakensTheCircuit | providers/transport.py:151-161 | a run from an empty store in which an uncleared success lies between the failures of an opening and an unanswered check passes the open circuit |
| Circuit.FailuresLieInOneWindow | providers/transport.py:136-145 | with follow-up commands at most a delay behind, the failures of an opening lie less than 300 s and that delay apart |
| Circuit.LateExpireStretchesTheWindow | providers/transport.py:136-145 | for every delay a run in which they lie a millisecond less than that apart |
| Circuit.OldFailuresAreForgotten | providers/transport.py:136-155 | when the circuit has lapsed, every failure on a surviving counter came after the last opening |
| Circuit.AbandonedCounterNeverExpires | providers/transport.py:139-141 | a call that stops before its EXPIRE leaves a counter on which failures any time apart open the circuit |
| Transport.Read | providers/transport.py:111-134 | the body is handed out whole exactly if the status is below 400, neither length exceeds the limit and the connection holds; which outcome follows otherwise, an unreadable Content-Length included |
| Transport.ReadWithFallback | providers/transport.py:101-109 | the decision is that of the first client that is not passed on, or of the last |
| Transport.DecisionIsFirst | providers/transport.py:101-109 | what "first not passed on, or last" means, position by position |
| Transport.RecordFailure | providers/transport.py:136-149 | the commands of a recorded failure, or a prefix of them when the store fails |
| Transport.RecordingIsTwoSteps | providers/transport.py:136-145 | these commands are the steps of the circuit's runs |
| Transport.ClearFailures | providers/transport.py:151-155 | a success leaves no counter, or the failure of the store is swallowed |
| Transport.SuccessAndCheckAreSteps | providers/transport.py:151-161 | these commands, too, are the steps of the circuit's runs |
| Transport.ConcatInOrder | providers/transport.py:128-134 | the body is the chunks in order |
| Transport.GetBytes | providers/transport.py:76-99 | nothing is read while the circuit is open; otherwise at most three attempts; a payload clears the counter, the failures that count are recorded once, and other faults change nothing |
| Limiter.EvalFixedWindow | core/rate_limit.py:13-23 | the count goes up by one, lives for 60 s from the first one on, and the answer is what is left of the limit or -1 |
| Limiter.RemainingCountsDown | core/rate_limit.py:13-23 | on time, the first requests of a minute are told how many of the quota are left after them, the others -1 |
| Limiter.Limit | core/rate_limit.py:50-93 | admission, limit, remaining requests and reset time as reported, or status 503 when the store fails; the request is counted whenever the script has run |
| Limiter.KeysAreInjective | core/rate_limit.py:60 | two requests share a counter only if they share class, client and minute |
| Limiter.CountIsExactIfAndOnlyIfOnTime | core/rate_limit.py:13-23 | the count that decides a request is the number of earlier ones of its bucket if and only if the request is on time |
| Limiter.WithinTheMinuteIsOnTime | core/rate_limit.py:55-71 | requests whose scripts run inside the minute they read are on time |
| Limiter.AdmittedIfAndOnlyIfUnderQuota | core/rate_limit.py:13-23 | a request is admitted exactly if fewer than its quota came before it: the first ones are |
| Limiter.ExactlyTheQuotaPasses | core/rate_limit.py:13-30 | of n requests in a minute exactly min(n, quota) are admitted, with quotas of 600, 240, 60 and 30 |
| Limiter.SlidingMinuteAdmitsTwiceTheQuota | core/rate_limit.py:55-71 | any 60 s of clock readings admit at most twice the quota |
| Limiter.SlidingInstantsAdmitTwiceTheQuota | core/rate_limit.py:55-71 | the same for any 60 s of script instants if every script runs inside the minute it has read |
| Limiter.SlidingInstantsAdmitThreeTimesTheQuota | core/rate_limit.py:55-71 | three times the quota if all are on time and less than a minute late |
| Limiter.ThreeTimesTheQuotaIsReached | core/rate_limit.py:55-71 | requests at most two milliseconds late of which three times the quota are admitted within 60 s |
| Limiter.OnTimeAloneBoundsNoInstant | core/rate_limit.py:55-71 | any number of requests can be on time and admitted at one instant |
| Limiter.OneLateRequestExceedsTheQuota | core/rate_limit.py:13-23 | a full quota of requests and one that is late are all admitted in one minute |
| Limiter.ResetIsInANewWindow | core/rate_limit.py:78-92 | the reported reset lies in a later minute than the request |
| Upstream.KeysAreInjective | providers/spacetrack.py:52-53 | the counters of different minutes and hours have different keys |
| Upstream.CountIsNewIfAndOnlyIfKept | providers/spacetrack.py:55-60 | in every state of such a run the next count of a counter is a new one if and only if the counter is alive or has not been used; otherwise it is the count 1 again |
| Upstream.CountsAreRanks | providers/spacetrack.py:55-60 | the counts of a call are its ranks among those who have counted on the same kept counters |
| Upstream.DecidesByTheCounts | providers/spacetrack.py:62-63 | a call passes exactly if these ranks are at most 29 and 299 |
| Upstream.GuardGlobal | providers/spacetrack.py:50-63 | an undisturbed call counts on both counters whatever comes of it, and passes exactly if fewer than 29 and 299 have been counted before |
| UpstreamLimits.GuardIsOneUndisturbedCall | providers/spacetrack.py:50-63 | its commands are the steps of a call in a run |
| Upstream.BudgetPerClockWindow | providers/spacetrack.py:50-63 | for every interleaving in which callers count on kept counters at most 29 pass per clock minute and 299 per clock hour |
| Upstream.TimelyCallersKeepTheBudget | providers/spacetrack.py:50-63 | callers at most 60 s late always find the counters kept, so the budget holds for them |
| Upstream.BudgetPerSlidingWindow | providers/spacetrack.py:50-63 | hence at most 58 in any sliding minute and 598 in any sliding hour of clock readings |
| Upstream.BudgetByInstants | providers/spacetrack.py:50-63 | by the instants at which calls pass, 87 and 897 with callers at most 60 s late, 58 and 598 if calls pass within the windows they have read |
| UpstreamLimits.LostCounterLetsOneMorePass | providers/spacetrack.py:55-63 | whoever counts on a lost counter of its minute passes, however many have passed before, while the hour has calls left |
| UpstreamLimits.LateCallExceedsTheBudget | providers/spacetrack.py:50-63 | from every empty store a run in which no caller is more than 60001 ms late and 30 calls pass on one clock minute |
| UpstreamLimits.SlidingMinuteCanHoldThreeBudgets | providers/spacetrack.py:50-63 | from every empty store a run in which no caller is more than 2 ms late and 87 calls pass within 60 s |
| Upstream.SpaceTrackClient.Get | providers/spacetrack.py:65-85 | every request sent, the login included, has passed a guard of its own; which guards are asked and when the client is authenticated |
| Worker.DeliveryLog.DeliverOnce | ingestion/worker.py:52-95 | one attempt adds one row with the status met and succeeds exactly on an answer from 200 to 299, or raises, without a row or with one whose commit reply is lost |
| Worker.DeliveryLog.Dispatch | ingestion/worker.py:98-122 | rows numbered 1 to k with k at most the maximum, successes exactly for answers from 200 to 299, all but the last failed; it reports delivery exactly on a success, raises exactly at the first row whose write is not confirmed, and pauses between the attempts |
| Worker.PauseIsCappedDoubling | ingestion/worker.py:120-121 | the pause after an attempt is min(2^attempt, 30) s |
| Worker.NothingIsLost | ingestion/worker.py:125-197 | over any run each message is pending or settled, and settled only for its reason: malformed, unwanted, a dispatch that ended in an answer from 200 to 299, or one without any such answer and a copy on the dead-letter subject |
| Worker.DispatchesLeaveGoodRows | ingestion/worker.py:98-122 | every completed dispatch of every run has left rows 1 to k, successes exactly for answers from 200 to 299; without one k is the maximum, or 0 for a payload that is too large |
| WorkerProgress.PendingMessagesAreSettled | ingestion/worker.py:98-160 | an undisturbed handler of a pending message terminates it if malformed, acknowledges it if unwanted, delivers it if an attempt is accepted, and otherwise copies it once to the dead-letter subject |
| Analytics.Aggregate | core/analytics.py:151-176 | one row per key in order of first appearance, which together are the aggregate and count every metric once |
| Analytics.ColumnsAreExact | core/analytics.py:151-176 | each row counts the metrics, server errors and cache hits of its key and holds the sums and the maximum of what they carry |
| Analytics.KeysInOrder | core/analytics.py:151-176 | the keys are those that appear, in the order in which they first do |
| Analytics.BucketsAreMinutes | core/analytics.py:154-155 | a key stands for one minute of one route and method |
| Analytics.WriteBatch | core/analytics.py:72-95 | the upsert of an aggregated batch never touches a row twice and merges the aggregate |
| Analytics.UpsertEachIsMerge | core/analytics.py:74-93 | taking the rows one by one with the conflict clause is merging the tables |
| Analytics.FoldSplits | core/analytics.py:151-176 | the aggregate of a concatenation is the merge of the aggregates |
| Analytics.BatchingDoesNotMatter | core/analytics.py:72-95 | every way of cutting a stream into batches gives the table that the whole stream gives, from any starting table |
| MetricQueue.MetricsWriter.PutNowait | core/analytics.py:145-148 | a metric is dropped exactly at a full queue; a step of the run |
| MetricQueue.MetricsWriter.GatherBatch | core/analytics.py:57-70 | a batch is the front of the queue in order; it ends at the batch size, at the deadline or with the first wait that brings nothing, and no earlier; gathering is a stretch of the run |
| MetricQueue.MetricsWriter.WriteAndSettle | core/analytics.py:71-102 | the aggregate is merged into the table or nothing is, and the batch is settled in either case; a step of the run; a failure is logged also for a commit whose reply is lost |
| MetricQueue.EveryMetricIsAccountedFor | core/analytics.py:57-148 | offered = dropped + queued + in the batch + written + lost, in order, within the limits |
| MetricQueue.TableShowsWhatWasWritten | core/analytics.py:71-102 | the table is at every moment the starting table merged with the aggregate of exactly the metrics written |
| MetricQueue.JoinMeansSettled | core/analytics.py:37-54 | the join at shutdown completes exactly when every accepted metric has been settled |
| TleCatalog.ParseLines | providers/celestrak.py:50-91 | the look-ahead loop yields a record for exactly those pairs that decode with error 0 and a positive number, in order, with that number, the two lines and the name of the pair or else the number as a name |
| TleCatalog.ParseCatalog | providers/celestrak.py:50-91 | the same for a text, of whose lines exactly those that are not blank are kept, each without the white space at its end |
| TleCatalog.NameIsExact | providers/celestrak.py:64 | a name is its line without a leading "0 " and without the white space around the rest |
| TleCatalog.PositionsAreExact | providers/celestrak.py:54-68 | the pairs found are all adjacent "1 ", "2 " pairs, each once and in order |
| TleCatalog.PairsFollowPositions | providers/celestrak.py:55-65 | each is found with its two lines and the name that the line before it gives, unless that line closes another pair |
| TleCatalog.PrintThenParse | providers/celestrak.py:50-91 | printing any mix of named and unnamed sets as a text and parsing gives back the same line pairs in order, and the records of those that decode; names come back stripped and without a leading "0 " |
| TleKey.AcceptedIdsAreCanonical | api/routers/orbital.py:353-364 | which lists are refused; accepted ones are increasing, at most 200 long, in range, and equal exactly for equal sets of numbers |
| TleKey.NormalizedIsExact | api/routers/orbital.py:376 | an accepted search text becomes itself without the blanks at its end and in capitals |
| TleKey.NormalizedIsSafe | api/routers/orbital.py:348-376 | an accepted search text brings no separator into the key and never normalizes to nothing |
| TleKey.CacheKeyIsInjective | api/routers/orbital.py:414 | two queries share a key only if they are the same query |
| TleKey.SameKeySameRequest | api/routers/orbital.py:375-415 | requests that share a key have the same ids, the same normalized search or none, and the same limit |

## Left out

- The polling loop of `cached` and the endless loops of `_run_guarded`, `_writer` and `run_worker`: they are steps of the runs, not loops, since other processes act between their iterations.
- The payload of a cached response: only the source version it shows and the instant it was sampled are modelled; serialization and the size limit appear as a computation that fails.
- The HTTP clients, PostgreSQL, NATS and Valkey connections: an exchange, commit or command succeeds, fails or loses its reply.
- Reading a number out of a part of `ids` and SGP4 decoding: the parser takes the outcome as a parameter.
- TleCatalog.ParseCatalog: the same columns as for `ParseLines` are one value.
- TleCatalog.ParseLines: the designator, the epoch and the elements of a record are one value that the decoder gives, since they are conversions of single fields.
- The other ingestion jobs and provider adapters: field cleaning and plain upserts.
- The columns of a launch other than id, start and provider are one value; `created_at` and `updated_at` are not modelled.
- The cooldown keys of the Space-Track datasets: a check and a set with nothing between them that could be relied on.
- Cancellation of the metrics writer before its queue is drained.
- Limiter.SlidingMinuteAdmitsTwiceTheQuota: counts by clock readings; the `SlidingInstants` lemmas count by the instants of the scripts, where more than twice the quota is possible.
- Upstream.BudgetPerSlidingWindow: counts by clock readings; `BudgetByInstants` counts by the instants at which calls pass.
- Webhook signatures, address checks, secrets and registration limits.
- The rounding of floating-point sums and durations.
