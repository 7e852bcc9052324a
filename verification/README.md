# Verified model of the marketplace backend's schedulers, caches, limiters and bid rules

This project models, in Dafny, the parts of a Django backend for an NFT marketplace whose behaviour depends on
state and on time, and proves what they guarantee over whole runs.  `dafny verify dfyconfig.toml` checks everything.

Time is an explicit clock.  A protocol is a state, a type of events and a function `Apply` from a state and an event
to the next state.  An event that the state does not allow changes nothing, so that a run is any list of events and
a theorem about a run is a theorem about every interleaving.  Objects that the source updates in place are classes
beside these state machines, and each method's contract gives its whole effect in the machine's own functions.
Amounts, scores and clock readings in seconds are exact rationals.  Expiring entries are shared by all modules
(`TimedStore`).

* **Priority task scheduler** (`TaskScheduler`, `SchedulerAccounting`, `PeriodicJobs`, `TaskManager`).  Any number of worker threads
  interleave between the emptiness test, `popleft`, the due check, `appendleft`, the task function and the retry.
* **Two-layer cache** (`CacheLayers`, `CacheRefinement`, `CacheCalls`, `CacheOverlaps`, `CacheManager`).  Many
  processes, each with a local store, share a Redis that may fail at any request; entries come back from Redis for 60
  seconds; each collection has a set of its keys.  Calls are cut wherever they wait for Redis; the whole calls are
  those that nothing interrupts.
* **Limiters** (`LoginLockout`, `LoginOverlaps`, `LoginLimiter`, `ProviderQuota`,
  `ProviderOverspending`, `RateLimit`, `QuotaManager`, `BidSpam`).  Sliding
  windows over all runs, with the exact conditions under which the bounds hold.
* **Perception pipeline** (`PerceptionGraph`, `PerceptionIndex`, `PerceptionCache`, `PerceptionService`,
  `CanonicalJson`, `Webhooks`).  Graph loads that stop half-way, snapshots ordered by measurement time, a
  read-through cache that races with webhooks, and the text that sender and receiver sign.
* **Vitality queue** (`VitalityQueue`, `VitalityTaskManager`).  A FIFO queue with an active set and one worker, and a
  scheduling round that goes on while the worker runs.
* **Secrets** (`SecretCache`, `Secrets`).  Two caches of 300 seconds, one behind the other, over rows that are
  rotated, deactivated and removed.  Encryption is an abstract pair of functions.
* **Bids and fees** (`BidRules`, `FeePercentiles`).  The bid validator against the minimum shown to bidders, and fee
  levels as order statistics.

## What the code does that its comments or names do not say

* The retry delay of the scheduler is called exponential and is linear: two minutes more each time
  (`indexer/background_task_manager.py:161`).
* A periodic job that raises has already added its next copy in `finally` and is retried as well, so every retried
  failure leaves one more copy for good (`CopiesOfPeriodicJob`).
* Two workers can exchange two tasks that are not due (`TwoWorkersReorder`), so a queue is first-in first-out for one
  worker only.
* The vitality worker's retry finds its own address still active and is dropped, whatever `max_retries` says
  (`marketplace/vitality_task_manager.py:230-240`, `RetryIsDropped`); the priority of a task is never looked at.
* Between the check of a provider's quota and the use of the wrapper nothing is reserved.  The bounds count every
  request from its first counter reading on; to count the granted wrappers only is not enough
  (`ChecksInFlightOvershoot`).
* The calls are counted by reading and writing each counter in two accesses.  Overlapping calls lose counts
  (`LimitLost`), and a value written late can carry a counter beyond every bound on the requests in flight
  (`WrittenLate`, `ForgottenMeanwhile`).
* A daily quota counter is stored with the time to live of STATS entries, 30 minutes by default, and the 24 hours set
  in a local variable are not used (`indexer/quota_manager.py:101-111`).  Each time it is forgotten the whole limit
  can be spent again (`ForgottenCounterOverspends`).  A tier's counter lives on only through the calls of that tier,
  the daily one through those of every tier, so a tier with a part of the daily limit can spend all of it.
* Two calls that overlap read the same stored request time and are let through together (`TwoPassTogether`).
* The provider's rate limit spaces the instants at which requests are let through.  Usage tracking follows, so the
  provider's own methods can start closer together (`StartsApart`, `StartsCanCoincide`).
* A login lockout of 300 seconds ends a second early, because the time left is cut down to whole seconds
  (`BoundIsSharp`).  It holds for requests one at a time only.  Overlapping logins lose counts, since the count is read
  and written in two accesses (`CountsLost`), and even a page view can make a failure be forgotten by deleting late
  (`PageViewForgetsFailure`).
* The manipulation probability of a webhook is not validated, and creating a row does not apply the validators of its
  field.  Above 2 it pushes the perception index past the neutral 0.5, above 4 out of [0, 1] (`KeepsItsSideIff`,
  `StaysInRangeIff`, `IndexOutOfRange`).
* A deletion or invalidation that overtakes a `get` is undone for up to 60 seconds, since the `get` then puts what it
  had read into the local layer (`DeletionOvertakesGet`, `InvalidationOvertakesGet`), and two `set` calls that overlap
  can leave different values in the two layers (`SetsDisagree`).  The cache is a plain map exactly for calls one at a
  time (`AgreesIffAlone`).
* Where the Django cache is local to a process, deleting or invalidating does not reach the local layers of other
  processes (`OtherProcessKeepsReading`).  The settings that are in force make it a Redis that all processes share
  (`traitkeeper/settings.py:435-443`).  That is the model's case of one process whose calls are those of all
  processes: whole calls one after another are a plain map then, but calls of different processes overlap, and the
  stale readings above occur.
* After a `delete` that Redis did not carry out, the next `get` puts the value back (`DeleteAnswers`).
* The 300 seconds of the secret caches add up (`OldKeyServedForTenMinutes`), and the environment's key outlives by as
  much the fault that it stood in for (`FallbackOutlivesRepair`).
* A bid threshold of a type that the validator does not know accepts every bid from 0.01 SOL, while the minimum shown
  is that of `BOTH`.  A threshold for everyone can never exist under the table's constraints, although the validator
  looks for one (`NoGlobalThreshold`).
* The price estimate is commented as once the floor at score 50 and twice at 100; the formula, which the model
  follows, gives 1.5 times at 100 (`marketplace/bid_validation_service.py:256-260`, `EstimateFollowsVitality`).

## Model

| member | source | states |
|---|---|---|
| TaskScheduler.RunInv | indexer/background_task_manager.py:115-167 | in every interleaving of any number of workers each unfinished task object is in exactly one place, in the queue of its own priority, starts only when due, and has a history that its retries allow |
| TaskScheduler.SingleOwner | indexer/background_task_manager.py:129-138 | a task in one worker's hands is in no other worker's hands and in no queue |
| TaskScheduler.NoTaskLost | indexer/background_task_manager.py:115-167 | a task is in the system, in one place, exactly as long as it has neither succeeded nor used up its retries, even when `popleft` loses the race for the last task |
| TaskScheduler.LeavesOnlyWhenDone | indexer/background_task_manager.py:140-163 | the only steps that end a task are its executing worker's success, or its failure with no retry left |
| TaskScheduler.ExecutionsOnSchedule | indexer/background_task_manager.py:129-163 | no execution starts before its scheduled time, retry number k starts at least 2k minutes after the failure before it, and there are at most 1 + max_retries executions |
| TaskScheduler.DueLevel | indexer/background_task_manager.py:131-138 | the highest priority whose queue has a due head, if any |
| TaskScheduler.SoloLookSkips | indexer/background_task_manager.py:132-137 | undisturbed, popping a head that is not due and putting it back leaves every queue as it was |
| TaskScheduler.SoloLookTakes | indexer/background_task_manager.py:132-135 | undisturbed, a due head is taken and the rest of its queue keeps its order |
| TaskScheduler.SoloScanTakesDueHead | indexer/background_task_manager.py:129-138 | undisturbed, a worker takes the head of the highest-priority queue whose head is due and changes nothing else, or finds nothing |
| TaskScheduler.HeadTakenInTime | indexer/background_task_manager.py:129-138 | once the time of the head of a queue has come, an undisturbed worker executes the head of that queue or of a higher one |
| TaskScheduler.TwoWorkersReorder | indexer/background_task_manager.py:132-137 | two workers that each hold a head that is not due can put the two back in the other order |
| SchedulerAccounting.PotentialStep | indexer/background_task_manager.py:140-163 | the executions still possible for one-shot tasks go down with every execution, up only with a submission, and are otherwise unchanged |
| SchedulerAccounting.DrainsWithinAllowance | indexer/background_task_manager.py:140-163 | in every run, whatever fails and with whatever retries the one-shot tasks were submitted, their executions and those still possible stay within the sum of max(1, max_retries - retry_count + 1) at submission |
| SchedulerAccounting.DrainsWithinFourEach | indexer/background_task_manager.py:34-53 | with the default of three retries N one-shot tasks take at most 4N executions in every run |
| SchedulerAccounting.CopiesOfPeriodicJob | indexer/background_task_manager.py:159-213 | in every run the live copies of a started periodic job number exactly one plus its failed executions that were retried |
| SchedulerAccounting.PeriodicJobNeverLost | indexer/background_task_manager.py:185-213 | a started periodic job always has a live copy, and exactly one if nothing fails |
| PeriodicJobs.CopyOrigin | indexer/background_task_manager.py:169-213 | in every run each copy of a periodic job was added either by the start of the manager, and is first due at once (indexing) or 10 minutes later (transaction retry), or when the task function of a copy of the same job ended, and is first due 15 or 30 minutes after that instant |
| PeriodicJobs.CopiesApart | indexer/background_task_manager.py:129-213 | a copy not added by the start is first due at least 15 or 30 minutes after an earlier copy of the job first was, and no execution of it starts before |
| PeriodicJobs.CopiesWaitAtTheirLevel | indexer/background_task_manager.py:159-213 | in every run, retries included, copies of indexing wait only in the HIGH queue and copies of transaction retry only in the MEDIUM one |
| PeriodicJobs.BodyAddsCopy | indexer/background_task_manager.py:185-213 | the end of a task function queues one new copy last at HIGH for 15 minutes later, or at MEDIUM for 30, or nothing for any other task |
| PeriodicJobs.StartAddsCopies | indexer/background_task_manager.py:169-183 | the start queues indexing last at HIGH, due at once, and transaction retry last at MEDIUM, due in 10 minutes |
| TaskManager.BackgroundTaskManager.GetNextTask | indexer/background_task_manager.py:129-138 | one worker's call returns the head of the highest-priority queue whose head is due and removes only it; all other queues and the order within them stay |
| TaskManager.BackgroundTaskManager.AddTask | indexer/background_task_manager.py:165-167 | the task goes to the end of its own priority's queue |
| TaskManager.BackgroundTaskManager.ExecuteTask | indexer/background_task_manager.py:140-163 | a task is requeued last, with its retry counted and due two minutes per retry later, exactly if it raised with retries left |
| TaskManager.BackgroundTaskManager.SchedulePeriodicTasks | indexer/background_task_manager.py:169-183 | two new task objects: indexing now at high priority, transaction retry in ten minutes at medium |
| TaskManager.BackgroundTaskManager.RunPeriodicJob | indexer/background_task_manager.py:185-213 | whether or not the job raises, one new copy of it is queued last: indexing at HIGH for 15 minutes later, transaction retry at MEDIUM for 30 |
| CacheCalls.RunJustified | core/cache_manager.py:141-303 | in every interleaving of the calls of any number of processes, cut at each wait for Redis, with Redis failing anywhere and entries evicted at will, each entry in a store was put there by a `set` that it does not outlive by more than 60 seconds and two delays |
| CacheCalls.GetIsRecent | core/cache_manager.py:141-192 | whatever any `get` returned was written under that key by a `set` that began less than its time to live, plus 60 seconds and the two delays of waiting for Redis, before |
| CacheOverlaps.AnswerCanBeThatOld | core/cache_manager.py:141-192 | that bound is sharp: for every smaller age there is a run of one process, without failures and with one call at a time, in which a value of that age is answered |
| CacheCalls.UndisturbedGet | core/cache_manager.py:141-162 | the steps of a `get` that nothing interrupts amount to the whole call |
| CacheCalls.UndisturbedSet | core/cache_manager.py:164-192 | the same for `set`, with and without a collection |
| CacheCalls.UndisturbedDelete | core/cache_manager.py:194-204 | the same for `delete`, and for clearing everything |
| CacheCalls.UndisturbedInvalidate | core/cache_manager.py:207-243 | the same for the invalidation of a collection |
| CacheCalls.InterruptedSet | core/cache_manager.py:164-192 | a `set` that ends because Redis raises, at either request, leaves what the whole call leaves when Redis answers none or one |
| CacheCalls.InterruptedRemoval | core/cache_manager.py:194-302 | the same for `delete`, clearing and invalidation at their first request |
| CacheOverlaps.OneCallAgrees | core/cache_manager.py:141-303 | one process and one call at a time, however long it waits and whatever is evicted: every key reads as in a plain map of the last values set, exactly during its time to live, that or nothing for 60 seconds and a delay more, then nothing |
| CacheOverlaps.AgreesIffAlone | core/cache_manager.py:141-303 | in one process and with Redis answering, every key reads so in all runs, whenever no call is in flight, if and only if at most one call is in flight at a time |
| CacheOverlaps.DeletionOvertakesGet | core/cache_manager.py:149-200 | a `get` waiting with the value it has read, a whole `delete`, then the filling: the deleted value is found |
| CacheOverlaps.InvalidationOvertakesGet | core/cache_manager.py:149-239 | the same with an invalidation of the key's collection |
| CacheOverlaps.SetsDisagree | core/cache_manager.py:174-187 | two overlapping `set` calls leave the one's value in the local layer and the other's in Redis |
| CacheRefinement.RunRefines | core/cache_manager.py:141-303 | whole calls, one after another and each taking no time, in one process with a working Redis refine a plain map from keys to the last value set |
| CacheRefinement.GetAgreesWithPlainMap | core/cache_manager.py:141-192 | after such calls `get` finds the last value set since the last deletion during its time to live, that value or nothing in the next 60 seconds, and then nothing |
| CacheRefinement.InvalidationIsExact | core/cache_manager.py:207-239 | after such calls and an invalidation that nothing interrupts no key set under the collection is in either layer, all other keys read as before, and the count is the number of the collection's keys that were live in Redis |
| CacheRefinement.OtherProcessKeepsReading | core/cache_manager.py:141-239 | where the Django cache is local to a process, another process goes on reading from it what was deleted or invalidated |
| CacheLayers.SetAnswers | core/cache_manager.py:164-192 | `set` answers true exactly if everything was written; whatever Redis does, this process finds the value at once; what is in Redis and in the key sets after each failure |
| CacheLayers.FoundForAMinute | core/cache_manager.py:149-156 | what a `get` found in Redis is found for another 60 seconds whatever becomes of Redis |
| CacheLayers.DeleteAnswers | core/cache_manager.py:194-204 | `delete` answers whether Redis did; if it did not, the next `get` finds what Redis still has |
| CacheLayers.InvalidateAllAnswers | core/cache_manager.py:283-302 | clearing answers whether Redis was cleared; if so nothing is found, otherwise what Redis still has |
| CacheManager.CacheManager.GetTtl | core/cache_manager.py:131-139 | the tier's own time to live, else the ACTIVE tier's, else an hour |
| CacheManager.CacheManager.Get | core/cache_manager.py:141-162 | local layer first, then Redis, with back-population for 60 seconds; nothing on a failure |
| CacheManager.CacheManager.Set | core/cache_manager.py:164-192 | what is in both layers and the key set after a `set` that fails at any point |
| CacheManager.CacheManager.Delete | core/cache_manager.py:194-204 | the key is gone locally, and in Redis if it answered |
| CacheManager.CacheManager.InvalidateCollectionCaches | core/cache_manager.py:207-243 | exactly the collection's keys and its key set are removed from both layers, by the loop over the keys, and counted |
| CacheManager.CacheManager.InvalidateAllCaches | core/cache_manager.py:283-302 | the local layer is empty, and Redis too if it answered |
| LoginLockout.RunInv | admin_panel/views.py:76-149 | in every run in which at most k passwords are looked at at a time and nothing comes between the actions of a check, of counting a failure or of resetting, what has been read and written so far is consistent with the recent failures at every single step |
| LoginLockout.FailuresSpan | admin_panel/views.py:76-199 | in such runs any 5 + k failures with no success between them span more than 299 seconds, through key expiry, re-armed lockouts and truncation |
| LoginLockout.SixFailuresSpan | admin_panel/views.py:76-199 | with one request at a time, page views included, any six failures with no success between them span more than 299 seconds |
| LoginLockout.UndisturbedCheck | admin_panel/views.py:76-106 | the steps of a check that nothing interrupts amount to the whole check |
| LoginLockout.UndisturbedFailure | admin_panel/views.py:109-130 | the steps of counting a failure amount to the whole increment |
| LoginLockout.UndisturbedSuccess | admin_panel/views.py:141-149 | the steps of resetting remove both entries |
| LoginLockout.LockedOut | admin_panel/views.py:76-136 | from the fifth failure on, a check d seconds later is denied with the whole seconds left of the 300 as long as d is at most 299, and after that lets in and forgets everything |
| LoginLockout.DeniedUntil | admin_panel/views.py:89-98 | the seconds told are the whole seconds left of the lockout; below one the entries are deleted |
| LoginLockout.NotLockedOut | admin_panel/views.py:76-136 | up to four failures deny nothing; five without a lockout time start a new one of 300 seconds |
| LoginOverlaps.SixFailureBoundIff | admin_panel/views.py:76-199 | six failures span more than 299 seconds in all runs with at most m requests in flight, page views included, if and only if m is at most 1 and the cache keeps the keys longer than 299 seconds (or m is 0) |
| LoginOverlaps.BoundHoldsIffTtl | admin_panel/views.py:87-136 | for every k, the bound of 5 + k failures holds in all runs with at most k passwords looked at at a time and undivided checks and outcomes if and only if the cache keeps the keys longer than 299 seconds (or k is 0) |
| LoginOverlaps.SixFailureBoundApartIff | admin_panel/views.py:76-199 | the bound of six failures holds in all such runs if and only if k is at most 1 and the keys are kept that long (or k is 0) |
| LoginOverlaps.BoundIsSharp | admin_panel/views.py:90-93 | for every k > 0 and every gap above 299 seconds there is such a run with 4 + k failures and another one that much later, and one with one request at a time for k = 1 |
| LoginOverlaps.CountsLost | admin_panel/views.py:119-122 | with k requests in flight there is a run of 5k failures at one instant: in each of five rounds all of them read the same count and write the same next one |
| LoginOverlaps.PageViewForgetsFailure | admin_panel/views.py:87-98 | one page view that pauses between reading an expired lockout and its two deletes lets six failures happen at one instant, with no two logins overlapping |
| LoginOverlaps.OverlappingRequests | admin_panel/views.py:164-199 | without a limit on the requests in flight any number of failures can happen at one instant |
| LoginLimiter.Limiter.CheckRateLimit | admin_panel/views.py:76-106 | the verdict and the two cache entries afterwards |
| LoginLimiter.Limiter.IncrementFailedAttempt | admin_panel/views.py:109-139 | the counter, the lockout from the fifth failure on, and the notification |
| LoginLimiter.Limiter.ResetFailedAttempts | admin_panel/views.py:141-149 | both entries are removed |
| LoginLimiter.Limiter.LoginView | admin_panel/views.py:156-199 | the cache entries and the page after one request that nothing interrupts: denied, with the whole minutes left (five for a new lockout), or the form, or for a login the reset or the count |
| ProviderQuota.UndisturbedCheck | indexer/quota_manager.py:59-77 | undisturbed, the readings of the two counters pass exactly if both are below their limits |
| ProviderQuota.TierRoom | indexer/quota_manager.py:66-68 | one more request of a tier is within its limit exactly if it is within its share of the daily credits, or within a tenth of them if it has no share configured |
| ProviderQuota.SharesWithinCredits | traitkeeper/settings.py:741-746 | tiers whose shares add up to at most one have limits that add up to at most the daily credits |
| ProviderQuota.ThreeTiers | traitkeeper/settings.py:741-746 | the three tiers of the settings in force have limits that add up to at most the daily credits: six, three and one tenth of them |
| ProviderQuota.RunInv | indexer/quota_manager.py:45-163 | each counter plus what the requests in flight may still spend from it stays under its ceiling, and so does each value about to be written, in every run with one request at a time or with undivided trackings, across midnight too |
| ProviderQuota.CountersBounded | indexer/quota_manager.py:45-163 | with at most w requests in flight, from the first counter reading to the end of the wrapper, and k calls each, the daily counter and every tier counter stay within max(0, limit - 1 + w·k), if w is at most 1 or trackings are undivided |
| ProviderQuota.NeverOverLimitOneByOne | indexer/quota_manager.py:45-163 | with one request in flight at a time and one call each no counter exceeds its limit |
| ProviderQuota.CallsBounded | indexer/quota_manager.py:98-163 | if w is at most 1 or trackings are undivided, the calls of a day are bounded by one ceiling for each time the daily counter started from zero, and are equal to the counter until it is forgotten |
| ProviderOverspending.LimitKeptIff | indexer/quota_manager.py:45-163 | for every setting of limits, tiers, w and k: the daily limit is kept in all runs, and in all runs with undivided trackings, if and only if w·k is at most 1 or nothing can be called at all (k is 0, there is no daily limit to spend, or no tier has one) |
| ProviderOverspending.ChecksInFlightOvershoot | indexer/quota_manager.py:45-77 | for every w and k, and every tier with a positive limit, there is a run with undivided trackings that reaches limit - 1 + w·k although no two wrappers ever exist at a time: passed checks waiting for their wrapper are what counts |
| ProviderOverspending.CeilingKeptIff | indexer/quota_manager.py:103-111 | for every setting: that ceiling is kept in all runs, trackings divided or not, if and only if requests do not overlap or nothing can be called at all |
| ProviderOverspending.ForgottenMeanwhile | indexer/quota_manager.py:106-111 | if the counters are forgotten between the reading and the writing of a call, limit - 1 + (2w - 1)·k is reached |
| ProviderOverspending.WrittenLate | indexer/quota_manager.py:106-111 | without the daily counter ever being forgotten (a tier's may be), values read early and written late reach limit - 1 + (2w - 2)·k, which is beyond the ceiling from three requests on |
| ProviderOverspending.LimitLost | indexer/quota_manager.py:106-111 | two overlapping requests suffice to make limit + 1 calls of which the counter shows one |
| ProviderOverspending.CallsCountedIff | indexer/quota_manager.py:106-111 | for every setting: the counter is the number of calls in all runs, as long as it is not forgotten, if and only if requests do not overlap or nothing can be called at all |
| ProviderOverspending.ForgottenCounterOverspends | indexer/quota_manager.py:101-111 | if the counter is forgotten n times, n + 1 whole limits can be spent, one request after another, by any tier with a positive limit, whatever its share |
| RateLimit.RequestsSpaced | indexer/quota_manager.py:79-96 | in every sequence of calls the requests are let through at least the minimum delay apart |
| RateLimit.WaitsOnlyAsNeeded | indexer/quota_manager.py:79-96 | in every sequence of calls a request that comes the minimum delay after the previous one passes at once, and an earlier one as soon as that time has come |
| RateLimit.DelaysMakeASecond | indexer/quota_manager.py:81-83 | as many delays as requests a second are configured make a second, and five if nothing is |
| RateLimit.SpacedIffTtl | indexer/quota_manager.py:83-96 | that holds for all sequences of calls if and only if the stored request time lives at least the minimum delay |
| RateLimit.SpacedIffAlone | indexer/quota_manager.py:79-96 | with calls that overlap, cut between their reading and their storing of the request time, requests are let through the minimum delay apart in all runs if and only if at most one call is between the two and the stored time lives that long (or no call is made) |
| RateLimit.TwoPassTogether | indexer/quota_manager.py:82-96 | two calls that read the same old time are let through at one instant |
| RateLimit.WindowBound | indexer/quota_manager.py:79-96 | any window of length w holds at most floor(w · requests per second) + 1 requests |
| RateLimit.StartsApart | indexer/quota_manager.py:153-162 | the provider's methods start apart by the minimum delay less the difference in tracking time |
| RateLimit.StartsCanCoincide | indexer/quota_manager.py:153-162 | two provider calls can start at the same instant |
| QuotaManager.ProviderQuotaManager.CheckQuotaAvailable | indexer/quota_manager.py:59-77 | quota is granted exactly if a configuration exists, the day's calls are fewer than the daily credits, and one more call of the tier stays within its share of them, a tenth if none is configured |
| QuotaManager.ProviderQuotaManager.TrackRequest | indexer/quota_manager.py:98-111 | exactly the provider's counters of the day and of the tier go up by one |
| QuotaManager.ProviderQuotaManager.ApplyRateLimiting | indexer/quota_manager.py:79-96 | the instant the request is let through, and that it is the one stored |
| QuotaManager.ProviderQuotaManager.CallProvider | indexer/quota_manager.py:148-163 | an intercepted call is rate limited, then counted once, then made; other providers' entries stay |
| BidSpam.RunInv | marketplace/safety_validation.py:62-94 | for every bidder, NFT and hour, stored bids and those on their way stay within 2 + k in every run |
| BidSpam.SafeIff | marketplace/safety_validation.py:62-94 | an owner is refused; anybody else exactly if three or more of the bidder's bids on the NFT are stored since an hour ago, and is told how many |
| BidSpam.AllowedAfterAnHour | marketplace/safety_validation.py:76-94 | after any run, more than an hour without a bid lets a bidder place one again |
| BidSpam.HourBound | marketplace/safety_validation.py:62-94 | any closed hour holds at most 2 + k bids of one bidder on one NFT with k requests in flight, and at most three with one |
| BidSpam.HourBoundIsReached | marketplace/safety_validation.py:76-94 | for every k there is a run that stores 2 + k bids in an hour |
| BidSpam.ThreeBidsIff | marketplace/safety_validation.py:62-94 | three bids an hour is kept in all runs if and only if at most one request of a bidder on an NFT is in flight |
| VitalityQueue.RunInv | marketplace/vitality_task_manager.py:111-246 | the active set and the outstanding tasks agree in every run |
| VitalityQueue.ActiveIsOutstanding | marketplace/vitality_task_manager.py:186-246 | the active set is exactly the addresses queued and the one being executed, all distinct |
| VitalityQueue.ExecutedOnceInOrder | marketplace/vitality_task_manager.py:111-246 | what was accepted is what was executed followed by the queue: first in, first out, each task once, whatever its priority |
| VitalityQueue.AcceptedWhenFree | marketplace/vitality_task_manager.py:111-246 | in every run a task is queued last exactly if its address is free, and a waiting worker takes the first one |
| VitalityQueue.ExecutionEnds | marketplace/vitality_task_manager.py:186-236 | in every run success, a missing collection and a failure without retries free the address at once; a failure with retries keeps it busy, with the retry counted |
| VitalityQueue.Drains | marketplace/vitality_task_manager.py:111-236 | from every run on, executions that succeed empty the queue in order and free every address |
| VitalityQueue.RetryRefused | marketplace/vitality_task_manager.py:230-242 | the retry is refused because its address is still active |
| VitalityQueue.RetryIsDropped | marketplace/vitality_task_manager.py:230-236 | after the backoff only the address is freed; the task does not come back |
| VitalityTaskManager.ScheduledExactly | marketplace/vitality_task_manager.py:142-184 | a scheduling round that nothing interrupts queues every listed collection that is not busy and was never calculated or not for 300, 1800 or 7200 seconds by tier, no other one, and none twice |
| VitalityTaskManager.RoundExactly | marketplace/vitality_task_manager.py:142-246 | a round during which the worker goes on queues, once each and in listing order, exactly the collections that are due, by the same seconds, and free at their turn; all that are due and were free when it began are among them, and a busy one only if the worker has freed it meanwhile |
| VitalityTaskManager.RoundIsRun | marketplace/vitality_task_manager.py:142-246 | such a round is a run of the queue, so that everything about runs holds during it |
| VitalityTaskManager.DueAfter | marketplace/vitality_task_manager.py:156-184 | a collection is due if it was never calculated, or not for 300 (VIP), 1800 (ACTIVE) or 7200 seconds; its task has priority 3, 2 or 1 |
| VitalityTaskManager.DueInTime | marketplace/vitality_task_manager.py:156-184 | rounds at most g seconds apart find a collection due less than g seconds after its time, and in every round from then on until it is calculated |
| VitalityTaskManager.Manager.AddTask | marketplace/vitality_task_manager.py:238-246 | a task is queued last exactly if its address is not active |
| VitalityTaskManager.Manager.ExecuteTask | marketplace/vitality_task_manager.py:186-236 | an execution leaves the queue as it is, frees its address, records its outcome and counts the retry it loses |
| VitalityTaskManager.Manager.ScheduleCollection | marketplace/vitality_task_manager.py:156-173 | one turn of the loop, in whatever state it finds the manager, queues a task of priority 3, 2 or 1 for the collection exactly if it is not busy and was never calculated or not for 300, 1800 or 7200 seconds |
| VitalityTaskManager.Manager.ScheduleVitalityTasks | marketplace/vitality_task_manager.py:142-173 | uninterrupted, the loop appends the round's tasks, with their priorities, in listing order |
| VitalityTaskManager.Manager.TriggerImmediateCalculation | marketplace/vitality_task_manager.py:248-262 | a known collection that is not busy gets one critical task; otherwise nothing changes |
| PerceptionGraph.NoDanglingEdge | marketplace/perception_service.py:402-447 | after any sequence of loads, wherever each one failed, every edge joins two stored nodes of its own graph |
| PerceptionGraph.NoDanglingEdgeInterleaved | marketplace/perception_service.py:415-447 | however loads of the same or different graphs interleave, at every database access, no edge ever dangles |
| PerceptionGraph.UndisturbedLoad | marketplace/perception_service.py:402-447 | the accesses of a load that nothing interrupts store what the whole load stores |
| PerceptionGraph.WholeLoadsAreRuns | marketplace/perception_service.py:402-447 | whole loads one after the other are among the interleaved runs |
| PerceptionGraph.CompletedLoad | marketplace/perception_service.py:402-447 | a completed load leaves for each node what its last entry says, with the defaults for what that leaves out, appends the edges in order, each from its own source to its own target, and touches no other graph |
| PerceptionGraph.FailedLoadIsPrefix | marketplace/perception_service.py:402-447 | a failed load leaves what a completed load of a first part of it would |
| PerceptionGraph.RepeatedLoad | marketplace/perception_service.py:414-447 | sending a completed payload again succeeds, changes no node and appends its edges once more |
| PerceptionIndex.LatestIsMaximum | marketplace/perception_service.py:511-516 | the snapshot used is one of the entity's with the largest measurement time |
| PerceptionIndex.ArrivalOrderIrrelevant | marketplace/perception_service.py:511-549 | with distinct measurement times the index does not depend on the order of arrival |
| PerceptionIndex.LateArrivals | marketplace/perception_service.py:511-516 | snapshots measured earlier than the latest one never change it |
| PerceptionService.LatestMeasurementWins | marketplace/perception_service.py:382-549 | after any sequence of webhooks, storable or not, the index is that of the payload with the latest time of measuring, in whatever order they arrived, drawn towards 0.5 by half its manipulation probability if that is above 0.7; the time of arrival counts only where the payload names none |
| PerceptionService.EitherOrder | marketplace/perception_service.py:382-549 | of two measurements of an entity the later one decides, whichever arrives first |
| PerceptionService.IndexInRange | marketplace/perception_service.py:309-549 | after any sequence of webhooks whose manipulation probabilities are at most 4 every index is in [0, 1] |
| PerceptionService.StorableIff | marketplace/perception_service.py:104-173 | which webhooks store a snapshot |
| PerceptionIndex.DampeningPullsToNeutral | marketplace/perception_service.py:538-549 | for a manipulation probability of at most 2 the dampened index is on its side of 0.5, no further from it; certain manipulation halves the distance |
| PerceptionIndex.StaysInRangeIff | marketplace/perception_service.py:309-315 | every index that validation lets through stays in [0, 1] when dampened if and only if the manipulation probability, which is not validated, is at most 4 |
| PerceptionIndex.KeepsItsSideIff | marketplace/perception_service.py:540-549 | every such index stays on its side of 0.5 if and only if the probability is at most 2 |
| PerceptionIndex.IndexOutOfRange | marketplace/perception_service.py:382-549 | a stored probability of 10 makes the index of a snapshot of 1 come out as -1.5 |
| PerceptionCache.RunInv | marketplace/perception_service.py:104-173 | in every interleaving each cached value is the index of the log as it stood at a known instant, and every later webhook missing from it is accounted for |
| PerceptionCache.GetIsRecent | marketplace/perception_service.py:504-556 | what is returned is the index of the log as it stood less than 300 seconds, plus a reader's filling delay, ago |
| PerceptionCache.GetIsCurrent | marketplace/perception_service.py:472-556 | what is returned is the current index unless a webhook with a newer measurement failed after storing, is still open, or finished while the cache was being filled |
| PerceptionCache.FailedWebhookIsOverlooked | marketplace/perception_service.py:132-173 | a webhook that fails after storing the latest measurement leaves the old index in the cache until it expires, while the current index is that measurement's |
| PerceptionCache.OpenOrFailedIsStale | marketplace/perception_service.py:104-173 | for any two measurements of an entity there are runs in which the older one is answered although the newer is stored: its webhook is still open, or has failed |
| PerceptionCache.RacedFillIsStale | marketplace/perception_service.py:504-556 | and one in which the newer webhook succeeded, between a reader's reading of the log and its filling of the cache |
| PerceptionService.Service.ProcessPerceptionGraph | marketplace/perception_service.py:402-447 | the two loops store exactly what the graph load stores, up to the first entry that fails |
| PerceptionService.Service.StoreSnapshot | marketplace/perception_service.py:104-173 | one snapshot with the payload's own entity, index, manipulation probability and time of measuring (the time of arrival if it names none) stays, and so does the loaded part of the graph, on a failure too; the cached index is dropped only on success |
| PerceptionService.Service.ProcessWebhook | marketplace/perception_service.py:60-173 | which of the four statuses is logged, and the same about what is stored |
| PerceptionService.Service.GetPerceptionIndex | marketplace/perception_service.py:485-556 | a cached value, else the dampened latest index, which is cached; the default is not cached |
| CanonicalJson.CanonicalFormDecides | parallel_lines_webhook_template.py:57 | recursive key sorting gives two payloads the same form if and only if they differ only in the order of keys, at any depth |
| CanonicalJson.DumpsPrefix | parallel_lines_webhook_template.py:57 | the serialised text of a value determines the value: it can be read back in one way only |
| CanonicalJson.FormatByExample | marketplace/perception_service.py:206-213 | one space after commas and colons, keys in quotes, a backslash before quotes and backslashes |
| CanonicalJson.SignedTextDecides | marketplace/perception_service.py:206-213 | the signed texts of two payloads are equal if and only if the payloads differ only in the order of keys |
| Webhooks.SignedPayloadAccepted | marketplace/perception_service.py:193-216 | the receiver accepts a signed payload in whatever key order it arrives |
| Webhooks.AcceptedIffEquivalent | marketplace/perception_service.py:206-221 | with an HMAC that does not collide, the signature is accepted for exactly the payloads equal up to key order |
| Webhooks.AcceptedAfterRotation | marketplace/perception_service.py:201-216 | once the webhook secret's rotation is 300 seconds old, plus a filling delay, the receiver accepts what is signed with the new secret, whatever it had cached and whatever other secrets went through |
| Webhooks.WrongSignatureRejected | marketplace/perception_service.py:193-254 | a signature that does not match is final unless it cannot be compared at all; then it counts as absent |
| Webhooks.ApiKeyDecides | marketplace/perception_service.py:223-243 | a sender with an API key is accepted exactly if it is the stored one |
| Webhooks.FirstUsableCredentialDecides | marketplace/perception_service.py:193-270 | the signature decides if it and the secret can be used, else the API key if it and the stored one are there, else the development setting |
| Webhooks.SendWithRetry | parallel_lines_webhook_template.py:120-164 | how many attempts are made, how long is waited between them, and which response or error comes out |
| SecretCache.RunInv | admin_secure/models.py:271-323 | in every interleaving of reads, fills, evictions and changes each cached value was the stored one at a known instant |
| SecretCache.SecretIsRecent | admin_secure/models.py:289-320 | `get_secret_value` returns the active, unexpired value as of some instant less than 300 seconds, plus a filling delay, ago |
| SecretCache.KeyIsRecent | marketplace/solana_client.py:678-713 | `_get_program_authority_key` returns the stored key as of some instant less than 600 seconds, plus two delays, ago, or else the environment's key because the stored one could not be read less than 300 seconds ago |
| SecretCache.RotationTakesEffect | admin_secure/models.py:208-224 | once a rotation is 300 seconds old, plus a filling delay, every read gives the new value, whatever other rows and accounts went through since |
| SecretCache.KeyRotationTakesEffect | marketplace/solana_client.py:678-697 | the same for the client's key after 600 seconds and two delays; the environment's key is not used then |
| SecretCache.RevocationTakesEffect | admin_secure/models.py:172-180 | a secret that has been removed, deactivated, expired or undecryptable for 300 seconds, plus a filling delay, is refused, whatever other rows went through since |
| SecretCache.OldKeyServedForTenMinutes | marketplace/solana_client.py:678-697 | for every time short of 600 seconds there is a run in which a replaced key is still returned that much later |
| SecretCache.FallbackOutlivesRepair | marketplace/solana_client.py:678-713 | for every time short of 300 seconds there is a run in which the environment's key is still returned that long after the stored one has become readable |
| SecretCache.ReadableIff | admin_secure/models.py:158-180 | a secret can be read exactly while it is stored, active, not past its expiry and decryptable, and some superuser exists |
| SecretCache.KeyComesFrom | marketplace/solana_client.py:666-718 | the client's key is its cached entry, else the cached or stored authority secret, else the environment's, where empty ones count as none |
| Secrets.EncryptedSecret.EncryptAndSave | admin_secure/models.py:129-145 | only a superuser stores a value; it reads back as the plaintext; a failure changes nothing |
| Secrets.EncryptedSecret.RotateSecret | admin_secure/models.py:208-224 | the new value replaces the old one and reads back; creator and key version stay; a failure changes nothing |
| Secrets.EncryptedSecret.DecryptValue | admin_secure/models.py:158-206 | the order of refusals, and that exactly the successful decryptions are counted |
| Secrets.SystemUser | admin_secure/models.py:298-309 | a superuser is found exactly if there is one, and it is the one named system if there is such a superuser |
| Secrets.SecretStore.GetSecretValue | admin_secure/models.py:271-323 | a cached value is returned uncounted; a read one is counted once and cached for 300 seconds; a failure changes nothing |
| Secrets.SolanaClient.GetProgramAuthorityKey | marketplace/solana_client.py:666-718 | the answer of the two layers and the fallback, and which cache entries are written |
| Secrets.CacheKeysApart | admin_secure/models.py:290 | the client's cache key and the keys of different secrets never collide |
| BidRules.MostSpecific | marketplace/bid_validation_service.py:97-133 | the threshold used is the earliest of the most specific active rows for the NFT, and none is used only if none applies |
| BidRules.NoGlobalThreshold | marketplace/vitality_models.py:538-546 | under the table's constraints the threshold is the NFT's or its collection's |
| BidRules.AcceptedFromMinimum | marketplace/bid_validation_service.py:31-95 | with sufficient vitality and a complete threshold a bid is accepted if and only if it reaches max(0.01, minimum shown) |
| BidRules.SuggestionDecides | marketplace/bid_validation_service.py:139-335 | with a suggested price p, whatever floor and score, bids from 0.01 on are accepted from 0.8 p without a threshold, from p(1 + q/100) for a percentage q, from an absolute minimum, or from the larger of both, and that number is shown; a missing field is an error |
| BidRules.EstimateStandsIn | marketplace/bid_validation_service.py:167-267 | without a suggestion, or with a zero one, everything is as if floor · (0.5 + score/100) were suggested, the floor being one SOL if unset or zero |
| BidRules.RefusalNamesTheFirstFault | marketplace/bid_validation_service.py:31-95 | which fault a bid is refused for, in order, and that a refusal for its amount names the minimum shown |
| BidRules.DisplayAgreesIff | marketplace/bid_validation_service.py:269-335 | for all inputs, the minimum shown is the one enforced if and only if vitality is sufficient and the threshold complete, or unknown with a minimum of at most 0.01 |
| BidRules.UnknownKindShowsAnotherMinimum | marketplace/bid_validation_service.py:162-164 | a concrete threshold of unknown type for which one SOL is shown and a hundredth accepted |
| BidRules.EstimateFollowsVitality | marketplace/bid_validation_service.py:245-267 | the estimated price is the floor at score 50, grows with the score in proportion to the floor, and stays between half and one and a half times the floor |
| BidRules.AcceptanceMonotone | marketplace/bid_validation_service.py:31-95 | a higher bid is accepted wherever a lower one is |
| BidRules.DefaultIsAThreshold | marketplace/bid_validation_service.py:220-243 | having no threshold and having one of twenty per cent below vitality give the same verdicts, messages and display |
| BidRules.BothIsConjunction | marketplace/bid_validation_service.py:150-160 | `BOTH` accepts exactly what the vitality rule and the absolute rule each accept |
| BidRules.RejectionQuotesDistance | marketplace/bid_validation_service.py:179-200 | the price that a rejection divides by is never zero, and the percentage quoted is the bid's distance from it; for a positive price it lies below the allowed percentage in exactly the rejections |
| FeePercentiles.IndicesAscend | marketplace/views.py:582-586 | all five indices are in range and ascend, also across the switch at twenty samples |
| FeePercentiles.PriorityFees | marketplace/views.py:576-586 | the five levels are the sorted samples at those indices; without samples there are none |
| FeePercentiles.LevelsAscend | marketplace/views.py:582-586 | min <= low <= medium <= high <= very high |
| FeePercentiles.PickIsOrderStatistic | marketplace/views.py:576-586 | a level at index i is one of the samples, with at least i + 1 samples no larger and n - i no smaller |
| FeePercentiles.LevelIsPercentile | marketplace/views.py:581-586 | the levels are percentiles in the usual sense: more than 0, 25, 50, 75 and, from twenty samples on, 95 per cent of the samples are no larger, and at least the rest no smaller |
| FeePercentiles.OrderIrrelevant | marketplace/views.py:576-586 | the levels do not depend on the order of the samples |
| FeePercentiles.VeryHighIsMaximum | marketplace/views.py:586 | below twenty samples the top level is the dearest one |

## Left out

* Crypto, floats and decimals: Fernet and HMAC-SHA256 are abstract functions, and rounding of `float` and `Decimal` is not modelled.
* JSON text: number formatting and the `\u` escapes of `ensure_ascii` are not modelled; a number is a string of number characters. Values are assumed to come back unchanged from `json.dumps` and `json.loads` in the cache.
* CacheRefinement.GetAgreesWithPlainMap: for whole calls that do not overlap and take no time; `CacheOverlaps` says what holds when they do.
* CacheRefinement.InvalidationIsExact: likewise.
* Cache keys are assumed not to begin with `collection_keys:`, and the branches for a Redis client that is not configured are not modelled. The first cache layer never fails in the model; a Django cache in Redis can.
* QuotaManager.ProviderQuotaManager.TrackRequest: one uninterrupted call; `ProviderQuota` takes it apart.
* ProviderQuota.CountersBounded: counters are read from one cache that all processes share; readings that are stale because another process has its own local layer are not modelled.
* RateLimit.SpacedIffTtl: for calls one after another; `SpacedIffAlone` is about calls that overlap. A sleep is never shorter than asked and the rate is positive.
* LoginLockout.FailuresSpan: the cache is one that all processes share, answers always, is never cleared and keeps entries for their time to live.
* BidSpam.HourBound: bids are stored after a check; settlement in `marketplace/services.py`, which stores them and can store a confirmed bid again, is not modelled, and neither are quest eligibility and the safety score.
* VitalityTaskManager.ScheduledExactly: a round that nothing interrupts; `RoundExactly` covers the worker running between the turns. Manual triggers during a round are not in it; they are additions like others in `VitalityQueue`.
* VitalityTaskManager.Manager.ScheduleVitalityTasks: likewise, the method is one uninterrupted call; `ScheduleCollection` is one turn in whatever state it finds.
* PerceptionCache.GetIsCurrent: ties of measurement times, which the database resolves in no stated way, are taken to keep the earlier arrival and count as newer measurements.
* PerceptionService.Service.StoreSnapshot: snapshots of traits cannot be created because the model has no such field; the other metrics of a snapshot, the metadata of nodes and edges, and database faults are not modelled, and `transaction.atomic` on a coroutine is taken to undo nothing. A manipulation probability that is not a number is not modelled.
* SecretCache.SecretIsRecent: the row, the superuser's account and the expiry are read at one instant. The source reads them one after another (`admin_secure/models.py:295-312`), so an answer need not come from a single state of the database.
* SecretCache.KeyIsRecent: the environment's key does not change during a run, and the master key is the same throughout.
* Secrets.EncryptedSecret.RotateSecret: an administrator's outdated copy of a row can overwrite newer fields when saved whole; in the class a row is one object, and in `SecretCache` any write of any row is allowed instead.
* FeePercentiles.PriorityFees: sorting is a library call, modelled as an insertion sort whose result is the only sorted permutation; the RPC call and the labels around the levels are not modelled.
* TaskScheduler.NoTaskLost: a task function that raises something other than an `Exception`, such as `asyncio.CancelledError`, passes both handlers (`indexer/background_task_manager.py:125-154`), ends its worker thread and is lost; such errors are not modelled.
* Stopping the managers, status pages, task history limits, logging and notifications.
* RPC, WebSocket and HTTP calls, transaction building, Borsh layouts, models, templates, serializers and the remaining views: declarations and foreign calls with no hard property of their own.
