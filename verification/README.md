# Verification of the work-report backend

This project models the backend's hand-written concurrency, crash recovery and flow control
in Dafny and proves what they promise. A piece of code that runs between two waits is one
step; a property is proved for every run, that is for every sequence of such steps with any
timing, failures and interleaving. Where the code updates an object in place, a Dafny class
has the same fields and methods, each proved to turn its old state into exactly what the
specification function of that step says; the theorems are about those functions.

`dafny verify dfyconfig.toml` checks everything.

## What is modelled

* **Report service** (`ReportTask`, `ReportTaskStore`, `EnqueueContract`, `DispatchProtocol`,
  `DispatchSafety`, `DispatchOnce`, `DispatchTwice`, `DispatchRefusal`, `DispatchRecords`,
  `DispatchExamples`). Client mutations are queued, persisted as whole snapshots by a serial
  chain of writes, and dispatched only after a snapshot that shows them running is on disk.
  After a crash the reload decides which interrupted ones may have written upstream. Main
  results, over any number of crashes: with any clock the dispatch barrier holds and the
  reload's verdict is sound (`BarrierIsSound`); and one mutation id starts at most one worker,
  plus one for each acknowledged observation and each pruning of its records, as long as no
  work for it is accepted dated before a newer retryable record of it (`AtMostOnce`). That is
  the exact condition: `SecondStartIff`. Each step changes exactly the records and fields it
  should (`WorkerEndIsRecorded`, `ObservationResolves`, `RestartIsRecorded`), and a schedule
  mutation that may have been written stays on record over any run until an observation names
  it (`InDoubtUntilObserved`).
* **Read cache** (`ReadCache`, `ReadCacheSafety`, `ReadSharing`). Reads share loads in flight;
  writes clear cache entries and bump generations. Main results: a read begun after a clear
  never gets a value loaded from before it, from the cache or from a load it joins
  (`NoStaleRead`), and over any run a started load is shared, and its value served, exactly
  until an event that must end it (`LoadIsShared`, `FetchedValueIsServed`); only fetched values
  are ever cached (`CachedValuesWereFetched`).
* **Token bucket and composed limiters** (`TokenBucket`, `RateBounds`, `RateProgress`,
  `RateComposition`, `RateOrder`, `RateBurst`, `RateExcess`). Grants over any window are
  bounded whatever the clock does; lazy refilling is invisible; waiters are served by priority
  and then first come first served, within a bounded number of refill checks. All lanes
  together stay within the global bucket, which serves writes before reads and reads before
  background work. A class of lanes stays within its own bound for tokens, but not for started
  calls: `ExceedsIff` says, from the state in which a window opens, exactly when some run
  passes the bound in it, and `ClassStartsWithinLanes` (in `LaneRates`) how far the lanes' own
  limits let it.
* **Circuit breaker** (`CircuitBreaker`, `BreakerHistory`). The breaker's state is a function
  of the run's events; nothing is admitted during a cooldown; half-open probing is limited,
  `SingleProbeIff` says exactly which runs keep to one probe, and probing never gets stuck.
* **Ragic lane and MiniMax scheduler** (`Queues`, `ConcurrencyLane`, `LaneSafety`,
  `MiniMaxScheduler`, `MiniMaxSafety`). Two semaphores with different hand-overs. The MiniMax
  one never passes its limit and settles each item by what happened to it. The lane gives a
  slot up before the woken waiter takes it: `LimitHoldsIff` says exactly which runs keep the
  limit, and `LimitMayBeExceeded` is a run with one slot and two holders.
* **Retry, deadline and budget** (`ReadRetryPolicy`, `ReadRetry`). One deadline bounds lane
  wait, token waits, upstream call and backoff together, and an accepted policy's budget is
  never what stops a retry while attempts keep to their timeout. `AttemptEndsExactly` and
  `RequestSucceedsIff` say exactly how an attempt and a request end.
* **Presence store** (`Text`, `PresenceStore`, `PresenceSafety`, `PresenceService`,
  `PresenceRecords`, `PresenceReports`, `BlockGate`). A blocked address stays blocked through
  pruning, eviction and reconnects until a command clears it, and `RefusedIff` says exactly
  when its requests are turned away. What each command and each report does to every record and
  queue is stated field by field.
* **Graceful shutdown** (`Shutdown`, `ShutdownSafety`). The SQLite close comes only after
  everything has settled and been flushed, and the force timer ends every run that is stuck.
* **Demo rate limit, cursor paging, dates** (`DemoRateLimit`, `CursorPaging`, `DateOnly`).

## Where the code and its comments differ

The model follows the code. In each case what does hold is proved, next to a run, or a
family of inputs, that shows the difference.

* One mutation id may start twice although nothing was acknowledged or pruned, because a
  reload keeps the record made last (backend/src/services/createReportTaskService.ts:833-846)
  by the clock, not by the order of the requests. `SecondStartIff`: in any state that a run has
  reached, with any clock and with room in the history, accepted work can be followed by two
  starts for its id exactly if it is dated before the newest stored record of that id and that
  record is retryable. `ClockMayNotGoBack` is a run.
* The breaker's comment (backend/src/infra/circuitBreaker.ts:29-30) lets one probe through in
  half-open. A completion that is not counted clears the flag while the probe still runs, so
  a second check passes. `NextProbeIff`: while a probe runs, the next check is let through
  exactly if some task has ended uncounted since the last admission; `SingleProbeIff`: a run
  keeps to one probe exactly if no check comes then. `OlderTaskMayAddAProbe` is a run.
* Inside the cooldown a task is let through exactly if an earlier check since the failure read
  a clock past its end, and no probe stands in the way: `EarlyAdmissionIff`, with the run
  `ClockBackAdmitsEarly`.
* A lane's limit on requests in flight (backend/src/infra/ragicRequestScheduler.ts:369) holds
  exactly while no request arrives between a release and the resumption it woke:
  `LimitHoldsIff`, `LimitMayBeExceeded`.
* A limiter class keeps its rate for tokens, not for started calls. `ExceedsIff`: a window can
  see more calls than the class's bound exactly if, for some length of it, the requests that
  hold a class token together with the whole class tokens to come pass the bound, and so do
  the whole global tokens to come. With a global rate above the class's that is so exactly if
  those requests and the class tokens at the opening exceed the class's capacity
  (`FasterGlobalExceedsIff`); with a global bucket that is neither larger nor faster it never
  is (`SmallGlobalNeverExceeds`). `ClassMayExceedItsBound` is a run.
* A due refill check need not let anyone through: `TickGrantsIff`, `TickMayGrantNobody`.
* A mutation id that is refused to a different operation does not stay refused. Over a whole
  run, with any crashes, it does exactly if no step forgets: no request with the id may run the
  record again and is held back or carries no fingerprint, no crash comes while the disk's last
  record of the id is not a different operation's, and none prunes the record
  (`RefusedThroughoutIff`; `ConflictKeptIff`, `ConflictAfterReloadIff` and
  `ConflictOutlivesPruningIff` for each kind of step, `HeldBackRerunForgetsTheFingerprint` and
  `AnonymousRerunAnswersAnyOperation` for what comes of it).
* A blocked address is turned away by the API only if the last command that named it gave a
  reason that is not empty (backend/src/server.ts:301-306 tests the reason, not the block):
  `RefusedIff`, `BlockWithoutReasonLetsThrough`.

## Model

| member | source | states |
|---|---|---|
| DispatchOnce.AtMostOnce | backend/src/services/createReportTaskService.ts:206-305 | In every run from every snapshot, with any crashes and any clock, in which no work for a mutation id is accepted dated before a newer retryable record of it, the workers started for the id are at most 1 plus its acknowledged observations plus its pruned records |
| DispatchOnce.AtMostOnceSince | backend/src/services/createReportTaskService.ts:206-305 | The same counted from any acceptance on, whatever the run did before it |
| DispatchOnce.PredatesInWords | backend/src/services/createReportTaskService.ts:948-965 | The guard in terms of what is stored: the newer record is a newest one of the id, and there is none if no record of the id is dated after now |
| DispatchTwice.SecondStartIff | backend/src/services/createReportTaskService.ts:833-846 | From any reachable state with room in the history, accepted work can be followed by two starts for its id with nothing acknowledged, pruned or dated back again, exactly if it is dated before the newest stored record of the id and that record is retryable |
| DispatchTwice.DatedBackStartsTwo | backend/src/services/createReportTaskService.ts:833-846 | The failing family: each such acceptance has a continuation that starts two workers |
| DispatchTwice.AcceptedWorkStarts | backend/src/services/createReportTaskService.ts:400-547 | Whatever else is queued, being written or running, accepted work can go on to start its worker |
| DispatchSafety.BarrierIsSound | backend/src/services/createReportTaskService.ts:418-438 | At every crash point of every run, with any clock, a started, unpruned record is on disk, and the reload either leaves it alone or marks it as possibly written |
| DispatchSafety.ClearedNeverStarted | backend/src/services/createReportTaskService.ts:868-902 | With any clock, what a reload clears of having written, or does not find on disk, never started a worker |
| DispatchSafety.NoBarrierNoVerdict | backend/src/services/createReportTaskService.ts:868-895 | A snapshot written without the dispatch barrier never clears an interrupted record and never makes it retryable |
| DispatchSafety.RunKeepsInv | backend/src/services/createReportTaskService.ts:400-547 | The protocol invariant holds after every run, with any clock: lists, index, phases, pending writes and disk agree on what may have started; the count of starts is kept separately, under the condition of AtMostOnce |
| DispatchExamples.EventsRunTheService | backend/src/services/createReportTaskService.ts:549-610 | Each protocol event changes memory exactly as the service operation of that name |
| DispatchExamples.ClockMayNotGoBack | backend/src/services/createReportTaskService.ts:833-846 | A run from a first start in which a clock that goes back once lets one id start twice with nothing acknowledged or pruned |
| EnqueueContract.AcceptedIff | backend/src/services/createReportTaskService.ts:206-305 | New work is queued exactly when its mutation id is free or its record may run again and nothing holds it back; it then takes charge of the id and leaves every other record and id alone |
| EnqueueContract.EnqueueAnswers | backend/src/services/createReportTaskService.ts:206-305 | The answer to every request, by the newest record of its mutation id: conflict, the record itself, held back, closed, or a new record made for it; and what a refusal leaves of memory and index |
| EnqueueContract.RepeatReturnsTheSameRecord | backend/src/services/createReportTaskService.ts:209-236 | Repeating an accepted request returns its record and changes nothing |
| EnqueueContract.ConflictKeptIff | backend/src/services/createReportTaskService.ts:206-260 | A mutation id that is refused to a different operation is still refused to it after a further request exactly unless that request may run the record again and is held back or carries no fingerprint |
| EnqueueContract.ConflictOutlivesPruningIff | backend/src/services/createReportTaskService.ts:904-931 | Pruning ends such a refusal exactly if it deletes the record in charge |
| EnqueueContract.ConflictAfterReloadIff | backend/src/services/createReportTaskService.ts:833-846 | A crash ends such a refusal exactly if the last record on disk of the id, if any, is not of another operation |
| DispatchRefusal.RefusedAfterStepIff | backend/src/services/createReportTaskService.ts:206-260 | One step of the protocol, of any kind, keeps a refusal exactly if it is none of the forgetting ones |
| DispatchRefusal.RefusedThroughoutIff | backend/src/services/createReportTaskService.ts:206-260 | Over any run from any reachable state, with any crashes, a different operation is refused all the time exactly if no step forgets |
| DispatchRecords.WorkerEndIsRecorded | backend/src/services/createReportTaskService.ts:483-545 | After a worker's success or failure, or a dispatch refused for want of its barrier, the record of that id, if still stored, has exactly the reported status, error, verdict and time; its other fields and all other records are as before, less finished records that need no observation |
| DispatchRecords.RunningIsRecorded | backend/src/services/createReportTaskService.ts:418-435 | Waiting for a sync and being dispatched mark the one record running at that time and change nothing else; progress changes nothing |
| DispatchRecords.InDoubtUntilObserved | backend/src/services/createReportTaskService.ts:535-541 | A schedule mutation whose worker failed with the write in doubt stays stored and in need of an observation over any run, with crashes at any point and any clock, exactly as long as no observation names it |
| DispatchRecords.ObservationResolves | backend/src/services/createReportTaskService.ts:315-357 | An observation stamps exactly the records it names that need one, and takes their doubt away; all other fields and records are unchanged, and none it names needs one afterwards |
| DispatchRecords.ObservingTwiceIsOnce | backend/src/services/createReportTaskService.ts:328-346 | The same observation once more acknowledges nothing and changes nothing |
| DispatchRecords.ObservationFindsIt | backend/src/services/createReportTaskService.ts:328-346 | In any run, observing the form and entry that a request in doubt was made for resolves its record and is counted |
| DispatchRecords.AcceptedWorkIsStored | backend/src/services/createReportTaskService.ts:262-292 | Accepted work is stored as it was asked for, pending, dated now, without verdict, observation or error, and no other record is touched but by pruning |
| DispatchRecords.RecordsCarryTheirRequest | backend/src/services/createReportTaskService.ts:262-292 | In every run with any crashes, what is stored, saved or being saved under an id carries the request that the id was accepted for |
| DispatchRecords.RestartIsRecorded | backend/src/services/createReportTaskService.ts:868-902 | After a restart memory holds what the disk held: finished records as they were, all others failed as recovered at that time, cleared of having written only if the disk shows them pending under the barrier; what pruning takes needs no observation |
| DispatchRecords.RecordsAreConserved | backend/src/services/createReportTaskService.ts:904-931 | No record is lost or counted twice: a step adds what it accepts and takes away what it counts as pruned |
| EnqueueContract.HeldBackRerunForgetsTheFingerprint | backend/src/services/createReportTaskService.ts:228-260 | A re-run that is held back takes its record out of charge, so a different operation is then let in under the same id although the record is still there |
| EnqueueContract.AnonymousRerunAnswersAnyOperation | backend/src/services/createReportTaskService.ts:208-236 | After a re-run without a fingerprint a different operation under the same id is answered with the re-run's record |
| ReportTaskStore.CreateReportTaskService.EnqueueTask | backend/src/services/createReportTaskService.ts:206-305 | The service's memory after an enqueue: refused, answered with the record in charge, or queued and indexed, then pruned; what is queued is what was asked for (EnqueueAnswers, AcceptedWorkIsStored) |
| ReportTaskStore.CreateReportTaskService.UpdateTask | backend/src/services/createReportTaskService.ts:549-587 | A patch changes the one record, prunes and schedules a write; an unknown id changes nothing; what the patches of a worker's end and of a dispatch leave is WorkerEndIsRecorded and RunningIsRecorded |
| ReportTaskStore.CreateReportTaskService.MarkWaitingForSync | backend/src/services/createReportTaskService.ts:589-610 | The same for waiting on an upstream sync |
| ReportTaskStore.CreateReportTaskService.BeginDispatch | backend/src/services/createReportTaskService.ts:418-435 | The record is marked running before its barrier write is awaited |
| ReportTaskStore.CreateReportTaskService.AcknowledgeScheduleMutationObservation | backend/src/services/createReportTaskService.ts:315-357 | Exactly the unresolved records of the entry that are named are stamped and resolved (ObservationResolves); the answer is the larger of their number and the registry's |
| ReportTaskStore.CreateReportTaskService.RecoverInterruptedTasks | backend/src/services/createReportTaskService.ts:868-902 | Every unfinished record becomes failed, with the verdict the barrier allows |
| ReportTaskStore.CreateReportTaskService.LoadFromDisk | backend/src/services/createReportTaskService.ts:819-866 | Memory after a start is the recovered snapshot with the newest record per mutation id in charge |
| ReportTaskStore.CreateReportTaskService.PruneHistory | backend/src/services/createReportTaskService.ts:904-931 | The pruning loop deletes exactly the specified victims and their index entries |
| ReportTaskStore.CreateReportTaskService.TakeSnapshot | backend/src/services/createReportTaskService.ts:948-965 | A snapshot lists every record in order of creation |
| ReportTaskStore.PruneBoundsHistory | backend/src/services/createReportTaskService.ts:904-931 | Pruning stops at the limit or when nothing that may go is left, changes nothing below the limit, never deletes unfinished or unresolved work, and deletes the oldest updates first |
| ReportTaskStore.PruneDeletesVictims | backend/src/services/createReportTaskService.ts:904-931 | Sorting and deleting one by one removes exactly the oldest surplus and keeps the order of the rest |
| ReportTaskStore.VictimsAreOldest | backend/src/services/createReportTaskService.ts:912-931 | No record that goes was updated later than one that stays and could have gone |
| ReportTaskStore.IndexAllIsLast | backend/src/services/createReportTaskService.ts:833-846 | A reload leaves the last record per mutation id in charge |
| ReportTask.StableSortSorts | backend/src/services/createReportTaskService.ts:955-959 | The sort orders its list and keeps its members |
| ReportTask.StableSortKeepsSorted | backend/src/services/createReportTaskService.ts:955-959 | Sorting a sorted list changes nothing, so equal times keep their order |
| ReadCacheSafety.NoStaleRead | backend/src/ragic/client.ts:753-798 | A read begun after a clear that covers its key gets the value of a load begun no earlier than that clear, for every interleaving |
| ReadCacheSafety.CurrentLoadsAreRegistered | backend/src/ragic/client.ts:774-796 | An unsettled load whose generation is current is registered under its in-flight key |
| ReadCacheSafety.SupersededLoadKeepsSuccessor | backend/src/ragic/client.ts:789-794 | A superseded load that settles never unregisters its successor |
| ReadCacheSafety.ClearCoversItsPath | backend/src/ragic/client.ts:652-673 | Clearing a path covers every cache key under which that path's data is stored, with or without the trailing slash |
| ReadCacheSafety.ClearCoversOnlyItsPath | backend/src/ragic/client.ts:652-673 | Clearing a path covers the form, page and entry data stored under that path or its other spelling, and of no other path |
| ReadCacheSafety.SharedMeansSame | backend/src/ragic/client.ts:800-814 | Two reads have the same in-flight key only if they ask for the same data in the same way |
| ReadCacheSafety.ClearFormDrops | backend/src/ragic/client.ts:652-673 | A clear removes and bumps: what it drops from the registry can no longer write the cache, and all else is kept |
| ReadCacheSafety.ClearFormRegistry | backend/src/ragic/client.ts:816-834 | After a clear no covered load is registered |
| ReadCacheSafety.ClearFormCache | backend/src/ragic/client.ts:652-671 | After a clear no covered value is cached |
| ReadCacheSafety.RunKeepsInv | backend/src/ragic/client.ts:753-853 | The registration and freshness invariant holds in every reachable state |
| ReadCacheSafety.OneCurrentLoadPerKey | backend/src/ragic/client.ts:767-797 | At most one unsettled load of a key can still write the cache |
| ReadSharing.LoadIsShared | backend/src/ragic/client.ts:753-798 | In any run, a load that a read started stays the one that reads of its key join exactly until it unregisters itself or a clear covers its key; so long no other load of that key starts |
| ReadSharing.FetchedValueIsServed | backend/src/ragic/client.ts:759-788 | In any run, the value of a load that was still joined when it arrived answers cached reads of its key exactly until it expires, a clear covers it, or a later load of the key stores its own |
| ReadSharing.RegisteredIffCurrent | backend/src/ragic/client.ts:774-853 | In every reachable state an unsettled load may still write the cache exactly if it is the one that reads of its key join |
| ReadSharing.CachedValuesWereFetched | backend/src/ragic/client.ts:776-788 | In every run, what stands in the cache was stored by an event in which its load arrived with a value, had asked for the cache, had this cache key and was still current |
| ReadSharing.NoValueIsNeverCached | backend/src/ragic/client.ts:781-784 | A load that ends without a value never answers a later read from the cache |
| ReadCache.RagicReadCache.RunCacheableRead | backend/src/ragic/client.ts:753-798 | A read is served from the cache, joins a load, or starts and registers one, as specified |
| ReadCache.RagicReadCache.OnLoadFulfilled | backend/src/ragic/client.ts:776-788 | A load writes the cache only if it asked for it, its captured generation is still current and it has a value (CachedValuesWereFetched) |
| ReadCache.RagicReadCache.OnLoadFinally | backend/src/ragic/client.ts:789-794 | Only the registered load unregisters itself |
| ReadCache.RagicReadCache.ClearInFlightReadsByPrefix | backend/src/ragic/client.ts:823-834 | The loop unregisters every key with the prefix and bumps each one's cache key once per load |
| ReadCache.RagicReadCache.ClearFormCache | backend/src/ragic/client.ts:652-673 | The loop over spellings, caches and registries computes the specified clear |
| ReadCache.RagicReadCache.ClearCache | backend/src/ragic/client.ts:675-682 | A full clear empties all maps and advances the global generation |
| TokenBucket.RefillInTwoSteps | backend/src/infra/tokenBucket.ts:200-211 | Refilling at two instants equals refilling at the later one |
| RateBounds.ClockBackAddsNothing | backend/src/infra/tokenBucket.ts:200-205 | Over any run that reads the clock no later than the last refill, the tokens there were pay for every grant: tokens left plus grants stay the same |
| TokenBucket.ApplyKeepsOk | backend/src/infra/tokenBucket.ts:222-243 | Every step keeps the queue sorted by priority and sequence, tokens within capacity, and the timer armed whenever someone waits |
| TokenBucket.RateLimiter.AcquireToken | backend/src/infra/tokenBucket.ts:90-176 | Fast path, insertion in place, drain and arming of the timer, as specified |
| TokenBucket.RateLimiter.WaitForToken | backend/src/infra/tokenBucket.ts:97-175 | The slow path: in at its place, whole tokens to the front of the queue, timer armed |
| TokenBucket.RateLimiter.TryAcquireToken | backend/src/infra/tokenBucket.ts:179-186 | A token now and with nobody waiting, or nothing |
| TokenBucket.RateLimiter.OnRefillTimer | backend/src/infra/tokenBucket.ts:226-234 | An armed refill check, whenever it fires, refills, drains and re-arms while someone waits |
| TokenBucket.RateLimiter.DrainWaiters | backend/src/infra/tokenBucket.ts:237-243 | The loop grants the longest prefix of the queue that whole tokens pay for |
| TokenBucket.RateLimiter.FindInsertionIndex | backend/src/infra/tokenBucket.ts:163-172 | The search finds the one place that keeps the queue sorted |
| TokenBucket.RateLimiter.RemoveFromQueue | backend/src/infra/tokenBucket.ts:114-123 | A timed-out or aborted waiter leaves and the timer is cancelled when nobody is left |
| RateBounds.RateBound | backend/src/infra/tokenBucket.ts:90-95 | Over any window the grants are at most capacity plus refill for its length, whatever the clock does inside it and whenever refill checks fire |
| RateBounds.StepConservesTokens | backend/src/infra/tokenBucket.ts:200-211 | A step's grants plus the tokens left equal the tokens there were after refilling |
| RateBounds.ExtraRefillIsInvisible | backend/src/infra/tokenBucket.ts:189-211 | Refilling once more at any instant never changes any later grant, so lazy refilling refines continuous refilling |
| RateBounds.PriorityFifo | backend/src/infra/tokenBucket.ts:163-172 | Of two waiters queued together the smaller by priority and sequence is never granted after the other, unless it left |
| RateBounds.AskIsAnswered | backend/src/infra/tokenBucket.ts:90-176 | A request that finds a whole token and nobody waiting has it at once, aborted or not; without one an aborted request leaves no trace and any other waits in one place of the queue with the check armed |
| RateBounds.GivingUpTakesOneOut | backend/src/infra/tokenBucket.ts:114-123 | A waiter that gives up leaves, the others keep tokens and places, and the check is disarmed once nobody waits |
| RateBounds.ServedInOrder | backend/src/infra/tokenBucket.ts:163-172 | So the callers of two queued waiters get their tokens in that order |
| RateBounds.GrantsAreReportedInOrder | backend/src/infra/tokenBucket.ts:237-243 | A run hands tokens to the owners of its waiters in the order in which the waiters leave the queue |
| RateBounds.WaiterFate | backend/src/infra/tokenBucket.ts:114-123 | A waiter stays, is granted, or is removed by name; no step loses one |
| RateProgress.BoundedWaiting | backend/src/infra/tokenBucket.ts:222-243 | With a clock that does not go back, the waiter at place i is granted within i+1 due refill checks, or i+2 if someone was granted since the check was armed, unless it leaves or is overtaken by priority |
| RateProgress.WaiterIsServed | backend/src/infra/tokenBucket.ts:222-243 | And its caller gets the token within the run |
| RateProgress.TickGrantsIff | backend/src/infra/tokenBucket.ts:226-234 | A refill check grants someone exactly when someone waits and a whole token is there |
| RateProgress.TickMayGrantNobody | backend/src/infra/tokenBucket.ts:173-174 | A run in which a due refill check grants nobody, since an acquire in between drained the queue |
| RateComposition.ComposedRateBound | backend/src/infra/ragicRequestScheduler.ts:433-452 | Over any window all five lanes together start no more calls than the global bucket allows, even when requests time out |
| RateOrder.LanesInOrder | backend/src/infra/ragicRequestScheduler.ts:89-93 | Of two requests waiting for a global token in any run, a write or mutation goes before a user read that waits with it, and both before sync and background, unless it leaves |
| RateOrder.RunAllKeepsPriorities | backend/src/infra/ragicRequestScheduler.ts:89-93 | In every run each request waits for a global token with the priority of its lane |
| RateComposition.ClassTokenBound | backend/src/infra/ragicRequestScheduler.ts:541-549 | Each limiter class hands out tokens within its own bound |
| RateComposition.ClassStartBound | backend/src/infra/ragicRequestScheduler.ts:433-452 | A class's started calls exceed its bound by at most the requests waiting with a class token when the window opened |
| LaneRates.ClassStartsWithinLanes | backend/src/infra/ragicRequestScheduler.ts:425-448 | In a window a class starts at most its bound plus its lanes' limits plus one for each request that overtook a woken waiter |
| RateExcess.ExceedsIff | backend/src/infra/ragicRequestScheduler.ts:433-452 | From the state in which a window opens, some run in it starts more calls of a class than the class's bound exactly if for some length the requests holding a class token with the whole class tokens to come pass the bound, and so do the whole global tokens to come |
| RateExcess.FasterGlobalExceedsIff | backend/src/infra/ragicRequestScheduler.ts:541-561 | With a global rate above the class's, that is so exactly if the requests holding a class token and the class tokens at the opening exceed the class's capacity |
| RateExcess.SmallGlobalNeverExceeds | backend/src/infra/ragicRequestScheduler.ts:541-561 | With a global bucket neither larger nor faster than the class's, no run passes the class's bound |
| RateExcess.StartsWithinTokensIff | backend/src/infra/ragicRequestScheduler.ts:433-452 | In every run from a state a class starts at most as many calls as it takes class tokens, exactly if none of its requests waits for a global token in that state |
| RateComposition.RequestsAreConserved | backend/src/infra/ragicRequestScheduler.ts:477-519 | Every request that got a class token has started, waits for a global one, or has burned it |
| RateBurst.ClassMayExceedItsBound | backend/src/infra/ragicRequestScheduler.ts:551-561 | A run in which a class starts more calls in a window than its bucket's bound |
| BreakerHistory.BreakerIsItsHistory | backend/src/infra/circuitBreaker.ts:52-141 | State, failure count and opening time are functions of the run's events; not closed exactly when counted failures since the last success reach the threshold |
| BreakerHistory.NoAdmissionDuringCooldown | backend/src/infra/circuitBreaker.ts:59-77 | With a clock that does not go back and no success since, nothing is admitted within the cooldown of a counted failure that left the circuit not closed |
| BreakerHistory.RetryAfterIsExact | backend/src/infra/circuitBreaker.ts:69-77 | The refusal of an open circuit names the exact wait: later checks pass, earlier ones do not |
| BreakerHistory.RefusalNamesTheWait | backend/src/infra/circuitBreaker.ts:52-80 | In every run both checks refuse alike: an open circuit for the rest of the cooldown since the last failure, a half-open one with its probe out for a whole cooldown, and no other |
| BreakerHistory.ProbesAreLimited | backend/src/infra/circuitBreaker.ts:59-67 | Admissions since becoming half-open are at most 1 plus the uncounted completions since |
| BreakerHistory.RunningProbesAreLimited | backend/src/infra/circuitBreaker.ts:115-119 | Probes running are at most 1 plus the older requests that ended uncounted |
| BreakerHistory.SingleProbe | backend/src/infra/circuitBreaker.ts:59-67 | At most one probe runs when no older request ended uncounted |
| BreakerHistory.NextProbeIff | backend/src/infra/circuitBreaker.ts:59-67 | While a probe runs, the next check is let through exactly if some task has ended uncounted since the last admission |
| BreakerHistory.SingleProbeIff | backend/src/infra/circuitBreaker.ts:29-30 | A run keeps to one probe at a time exactly if no task asks to run while a probe runs and some task has ended uncounted since the last admission |
| BreakerHistory.FlagHasARunningTask | backend/src/infra/circuitBreaker.ts:59-67 | A set probe flag belongs to an admission that is still running |
| BreakerHistory.HalfOpenMovesOn | backend/src/infra/ragicRequestScheduler.ts:227-256 | In half-open a check is let through, or something runs whose every way of ending lets the next one through or reopens the circuit |
| BreakerHistory.NotificationsFormAPath | backend/src/infra/circuitBreaker.ts:122-140 | The notified changes form one path of legal steps from closed to the current state, opening only with enough failures |
| BreakerHistory.NotificationsAreHistory | backend/src/infra/circuitBreaker.ts:122-140 | In every run the notified changes are those of the state by history, each with the failures counted, and each opening with the last failure's time plus the cooldown |
| BreakerHistory.OlderTaskMayAddAProbe | backend/src/infra/circuitBreaker.ts:115-119 | A run with two probes at once, after an older request ended uncounted |
| BreakerHistory.ClockBackAdmitsEarly | backend/src/infra/circuitBreaker.ts:69-77 | A run with a clock that goes back that admits inside the cooldown |
| BreakerHistory.GrantedIff | backend/src/infra/circuitBreaker.ts:52-77 | A task is let through to run exactly if too few failures are counted, or the cooldown is over by this reading or an earlier check's and no probe stands in the way, all in terms of the events |
| BreakerHistory.EarlyAdmissionIff | backend/src/infra/circuitBreaker.ts:69-77 | Inside the cooldown that is exactly if an earlier check read a clock past its end and no probe stands in the way; never with a clock that does not go back |
| CircuitBreaker.CircuitBreaker.CheckBeforeQueue | backend/src/infra/circuitBreaker.ts:52-57 | The check before queueing, its refusal and its change of state |
| CircuitBreaker.CircuitBreaker.CheckBeforeRun | backend/src/infra/circuitBreaker.ts:59-67 | The check before running, which sets the probe flag in half-open |
| CircuitBreaker.CircuitBreaker.TransitionOpenIfCooldownElapsed | backend/src/infra/circuitBreaker.ts:69-77 | Open turns half-open once the cooldown is over, and refuses with the rest of it before |
| CircuitBreaker.CircuitBreaker.RecordSuccess | backend/src/infra/circuitBreaker.ts:79-85 | A success clears count and flag and closes the circuit |
| CircuitBreaker.CircuitBreaker.RecordFailure | backend/src/infra/circuitBreaker.ts:87-99 | A counted failure reopens or opens the circuit and restarts the cooldown |
| CircuitBreaker.CircuitBreaker.GetAdmissionState | backend/src/infra/circuitBreaker.ts:105-113 | A look at the state may itself end the cooldown |
| CircuitBreaker.CircuitBreaker.ReleaseHalfOpenProbe | backend/src/infra/circuitBreaker.ts:115-119 | An uncounted completion clears the flag in half-open only |
| CircuitBreaker.CircuitBreaker.ChangeState | backend/src/infra/circuitBreaker.ts:122-140 | A real change is notified once, with the cooldown's end when opening, and leaves the flag set only in half-open |
| LaneSafety.SlotsAreConserved | backend/src/infra/ragicRequestScheduler.ts:280-316 | In every run the counter is the number of slots held, each request is in exactly one place, and nobody waits while a slot is free and unpromised |
| LaneSafety.ReleaseIsOneShot | backend/src/infra/ragicRequestScheduler.ts:303-314 | A release frees one slot and a second call of it changes nothing |
| LaneSafety.EndGivesSlotBack | backend/src/infra/ragicRequestScheduler.ts:227-256 | However a request ends, by the second breaker check or by its call, its slot is given back in the same step |
| LaneSafety.OutcomeCounts | backend/src/infra/ragicRequestScheduler.ts:238-256 | The end of a request closes the breaker, adds one failure, or, if it does not count, changes neither its state nor its count |
| LaneSafety.SlotStaysReturned | backend/src/infra/ragicRequestScheduler.ts:303-314 | A request that has ended holds no slot in any later run |
| LaneSafety.LimitHoldsIff | backend/src/infra/ragicRequestScheduler.ts:280-316 | Slots in use and promised stay within the limit throughout a run exactly when no request arrives into a slot that a woken waiter was promised |
| LaneSafety.OvershootIsOvertakings | backend/src/infra/ragicRequestScheduler.ts:280-316 | The limit is exceeded by at most the number of such arrivals |
| LaneSafety.RunningIsLimited | backend/src/infra/ragicRequestScheduler.ts:206-257 | The requests running at once are at most the limit plus such arrivals |
| LaneSafety.LimitMayBeExceeded | backend/src/infra/ragicRequestScheduler.ts:303-314 | A run of a one-slot lane in which two requests hold a slot |
| LaneSafety.WaiterFate | backend/src/infra/ragicRequestScheduler.ts:280-299 | A waiter keeps its place or moves up one, is woken from the front, or times out; no step loses one |
| LaneSafety.ReleaseServesOldest | backend/src/infra/ragicRequestScheduler.ts:303-314 | A release wakes the request that has waited longest and keeps the sum of slots in use and promised |
| LaneSafety.LaneRunsItsBreaker | backend/src/infra/ragicRequestScheduler.ts:206-257 | Whatever a lane does, its breaker goes through a feasible run of its own, so the breaker's theorems hold of lanes |
| ConcurrencyLane.RequestLane.Admit | backend/src/infra/ragicRequestScheduler.ts:214-218 | A request is refused before queueing, takes a free slot, or joins the queue |
| ConcurrencyLane.RequestLane.OnQueueTimeout | backend/src/infra/ragicRequestScheduler.ts:288-294 | A timed-out waiter leaves the queue |
| ConcurrencyLane.RequestLane.OnWoken | backend/src/infra/ragicRequestScheduler.ts:303-304 | The woken waiter takes its slot only when it resumes |
| ConcurrencyLane.RequestLane.BeforeTask | backend/src/infra/ragicRequestScheduler.ts:227-234 | The second breaker check, giving the slot back when it refuses |
| ConcurrencyLane.RequestLane.AfterTask | backend/src/infra/ragicRequestScheduler.ts:238-256 | Success, counted and uncounted failure are recorded and the slot is given back |
| ConcurrencyLane.RequestLane.Release | backend/src/infra/ragicRequestScheduler.ts:305-314 | The one-shot release: free the slot first, then wake the first waiter |
| Queues.WithoutOne | backend/src/infra/ragicRequestScheduler.ts:288-292 | Taking one waiter out of a queue in order of arrival removes just it and keeps the order |
| MiniMaxSafety.SlotsAreConserved | backend/src/infra/minimaxRequestScheduler.ts:68-110 | Active equals the releases outstanding, never passes the limit, and equals it whenever someone waits |
| MiniMaxSafety.EachItemIsSettledOnce | backend/src/infra/minimaxRequestScheduler.ts:68-118 | Each promise is settled at most once, and exactly when its item no longer waits |
| MiniMaxSafety.VerdictsAreEarned | backend/src/infra/minimaxRequestScheduler.ts:68-118 | In every run an item is granted only after asking, aborted only by its signal and timed out only by its timer |
| MiniMaxSafety.GivingUpSettles | backend/src/infra/minimaxRequestScheduler.ts:81-92 | While an item waits, the first of its signal and its timer takes just it out and rejects it accordingly; afterwards they do nothing |
| MiniMaxSafety.GrantsAreFirstComeFirstServed | backend/src/infra/minimaxRequestScheduler.ts:97-110 | Grants are made in order of arrival, and nobody is granted while an earlier arrival waits |
| MiniMaxSafety.ReleaseHandsOver | backend/src/infra/minimaxRequestScheduler.ts:97-110 | A release passes the slot to the front of the queue in the same step, and a second call does nothing |
| MiniMaxSafety.RunKeepsInv | backend/src/infra/minimaxRequestScheduler.ts:68-123 | All of it for every interleaving of requests, releases, aborts and timeouts |
| MiniMaxScheduler.MiniMaxRequestScheduler.AcquireSlot | backend/src/infra/minimaxRequestScheduler.ts:68-95 | Rejected when already aborted, granted a free slot, or queued |
| MiniMaxScheduler.MiniMaxRequestScheduler.ReleaseSlot | backend/src/infra/minimaxRequestScheduler.ts:97-110 | The one-shot release with direct hand-over |
| MiniMaxScheduler.MiniMaxRequestScheduler.RemoveQueuedItem | backend/src/infra/minimaxRequestScheduler.ts:112-118 | The search removes the item if it waits and says whether it did |
| MiniMaxScheduler.MiniMaxRequestScheduler.OnGiveUp | backend/src/infra/minimaxRequestScheduler.ts:81-92 | An abort or timeout rejects only an item that still waits |
| ReadRetryPolicy.BackoffsFitTheBudget | backend/src/infra/ragicReadRetryPolicy.ts:21-42 | For every base delay, retry count and draws, the summed delays are at most the maximum backoff budget |
| ReadRetryPolicy.DelayBound | backend/src/infra/ragicReadRetryPolicy.ts:17-29 | A delay is at least its exponential part and at most that plus the jitter range less one |
| ReadRetryPolicy.BudgetIsReached | backend/src/infra/ragicReadRetryPolicy.ts:31-42 | Some draws use the whole budget, so it is the least bound |
| ReadRetryPolicy.PolicyIff | backend/src/infra/ragicReadRetryPolicy.ts:44-73 | A configured total is accepted exactly if it is a safe integer with room for all timeouts and a second for each retry, and for all timeouts and any delays; without one the least such total is taken, and a refusal names it |
| ReadRetryPolicy.AcceptedPolicyHasRoom | backend/src/infra/ragicReadRetryPolicy.ts:44-73 | An accepted total budget holds every attempt's timeout and any run of delays |
| ReadRetry.AttemptFitsItsBudget | backend/src/infra/ragicRequestScheduler.ts:404-458 | Lane wait, both token waits and the call end within the attempt's budget, and the call begins strictly before its end |
| ReadRetry.AttemptWithoutBudget | backend/src/infra/ragicRequestScheduler.ts:414-423 | Without a budget, three queue timeouts and one request timeout bound an attempt |
| ReadRetry.AttemptEndsExactly | backend/src/infra/ragicRequestScheduler.ts:404-458 | Each ending of an attempt, exactly: as the upstream answered if it is not refused, each wait is within its timeout and the budget and the answer comes in time; cut off, refused or never called otherwise; with the times of slot, call and end |
| ReadRetry.CutOffEndsAt | backend/src/infra/ragicRequestScheduler.ts:404-458 | A wait or a call that is cut off ends when its timeout is over, or at the deadline if that is earlier |
| ReadRetry.RunWithReadRetry | backend/src/infra/ragicReadRetry.ts:80-130 | The retry loop makes exactly the specified attempts |
| ReadRetry.RunReadRequest | backend/src/ragic/client.ts:695-741 | The client's request makes at least one attempt and at most one more than the retries; each but the last failed retryably and the next starts one delay later; with a budget all start before the deadline and end by it; it ends well exactly if an attempt that is reached is answered well and in time |
| ReadRetry.RequestAttemptsAreLimited | backend/src/infra/ragicReadRetry.ts:98-104 | At most one attempt more than the retries |
| ReadRetry.NextAttempt | backend/src/infra/ragicReadRetry.ts:98-128 | An attempt is followed by another only after a retryable failure, one delay later, and before the deadline |
| ReadRetry.MadeIffReached | backend/src/infra/ragicReadRetry.ts:98-130 | The attempts made are exactly those before which all others failed retryably, with a retry left and their delays over before the deadline |
| ReadRetry.RequestSucceedsIff | backend/src/infra/ragicReadRetry.ts:98-130 | A request ends well exactly if some attempt that is reached is answered well and in time |
| ReadRetry.NoSlotWhileBackingOff | backend/src/ragic/client.ts:705-713 | At no time during a backoff does any attempt of the request hold a lane slot |
| ReadRetry.RequestMeetsItsDeadline | backend/src/ragic/client.ts:714-740 | With a total budget every attempt starts before the deadline and is over by it |
| ReadRetry.AcceptedBudgetIsEnough | backend/src/infra/ragicReadRetry.ts:104-108 | Under an accepted policy, with attempts that keep to the timeout, the deadline never stops a request that has retries left |
| PresenceSafety.BlockSurvives | backend/src/observability/workReportClientPresenceStore.ts:150-341 | A blocked address stays blocked through every run without a command that clears it; its clients are marked and every status question about its requests is answered with blocked |
| PresenceSafety.BlockedAfterStepIff | backend/src/observability/workReportClientPresenceStore.ts:435-479 | An address is blocked after a step exactly if a command just blocked it, or it was blocked and none just cleared it |
| BlockGate.RefusedIff | backend/src/server.ts:288-320 | After any run a request is turned away exactly if its path is guarded and the last command that named its address blocked it with a reason that is not empty, which the refusal then states |
| BlockGate.BlockIsTheLastWord | backend/src/observability/workReportClientPresenceStore.ts:435-473 | Whether and why an address is blocked after a run is what the last command that named it said |
| BlockGate.BlockWithoutReasonLetsThrough | backend/src/server.ts:300-306 | A block without a reason lets every request through, although the status question is answered with blocked |
| PresenceSafety.RunKeepsInv | backend/src/observability/workReportClientPresenceStore.ts:150-595 | After every run: clients at blocked addresses are marked, events and commands belong to present clients, and the three bounds hold |
| PresenceSafety.ClearNeedsAPresentClient | backend/src/observability/workReportClientPresenceStore.ts:444-473 | Clearing by a client of which no tab is present unblocks nothing |
| PresenceSafety.CommandReachesItsTargets | backend/src/observability/workReportClientPresenceStore.ts:475-495 | A command is the newest of every client it names or, where addresses decide, of every client present at one of them |
| PresenceSafety.EventsAreTheLastFifty | backend/src/observability/workReportClientPresenceStore.ts:275-283 | A present client's events are its last fifty in order |
| PresenceSafety.UnackedIsTheRest | backend/src/observability/workReportClientPresenceStore.ts:533-551 | Acknowledging takes out exactly the named commands |
| PresenceSafety.EnqueueKeepsInv | backend/src/observability/workReportClientPresenceStore.ts:435-526 | A command keeps the invariant and changes the blocked addresses exactly as its kind says |
| PresenceSafety.EnforceLimitRestores | backend/src/observability/workReportClientPresenceStore.ts:553-574 | Eviction restores the bound on clients and takes their events and commands with them |
| PresenceSafety.EvictedAreOldest | backend/src/observability/workReportClientPresenceStore.ts:553-568 | No client that is given up was seen, or at the same time changed, after one that is kept |
| PresenceSafety.ConnectRegisters | backend/src/observability/workReportClientPresenceStore.ts:150-218 | While there is room, a connected client is present, online, at its address and seen now, and other clients that are not stale are as they were |
| PresenceRecords.CommandIsObeyed | backend/src/observability/workReportClientPresenceStore.ts:435-526 | Each client present when a command is delivered has obeyed it in every field if it is named, or is at a named address where addresses decide, and is otherwise as it was |
| PresenceRecords.CommandIsQueued | backend/src/observability/workReportClientPresenceStore.ts:481-495 | Each client that a command reaches has it once, at the end of its last twenty commands; the queues of the others are as they were |
| PresenceRecords.ClearUnblocks | backend/src/observability/workReportClientPresenceStore.ts:444-526 | After a clear every client at a cleared address is unmarked and is told it is not blocked |
| PresenceRecords.BlockTells | backend/src/observability/workReportClientPresenceStore.ts:351-374 | A client that a block reaches is told it is blocked, and with the reason given, whatever address it asks from |
| PresenceReports.ReportIsRecorded | backend/src/observability/workReportClientPresenceStore.ts:150-341 | After a connection, presence report, event, delivery or disconnect the client's record says field by field what was reported, with the block its address demands, and no other client changes while there are fewer than 2000 |
| PresenceReports.LookForgets | backend/src/observability/workReportClientPresenceStore.ts:576-595 | A look forgets exactly the clients not seen for ten minutes, with their events and commands, and nothing of the others |
| PresenceReports.ListingShowsStatus | backend/src/observability/workReportClientPresenceStore.ts:122-136 | A listed client is online exactly while connected, offline for ten minutes after it was last seen, and stale then |
| PresenceReports.AckTakesTheNamed | backend/src/observability/workReportClientPresenceStore.ts:533-551 | Acknowledging takes exactly the commands that the given texts name, spaces aside, out of that client's queue, keeps the rest in order and touches nothing else |
| PresenceReports.SpacesDoNotMatter | backend/src/observability/workReportClientPresenceStore.ts:351-374 | Spaces around an address or a client's names change nothing about whether it is blocked |
| PresenceService.WorkReportClientPresenceStore.Connect | backend/src/observability/workReportClientPresenceStore.ts:150-218 | A connection updates or creates its client and marks it as its address demands |
| PresenceService.WorkReportClientPresenceStore.Post | backend/src/observability/workReportClientPresenceStore.ts:220-273 | A presence report does the same and lets the report's own block flag stand otherwise |
| PresenceService.WorkReportClientPresenceStore.Disconnect | backend/src/observability/workReportClientPresenceStore.ts:316-341 | A disconnect takes the client offline and re-checks its address |
| PresenceService.WorkReportClientPresenceStore.Record | backend/src/observability/workReportClientPresenceStore.ts:275-297 | An event is kept for a present client and ignored for others |
| PresenceService.WorkReportClientPresenceStore.Enqueue | backend/src/observability/workReportClientPresenceStore.ts:435-526 | Blocking, unblocking and the fan-out over targets |
| PresenceService.WorkReportClientPresenceStore.Ack | backend/src/observability/workReportClientPresenceStore.ts:533-551 | Acknowledged commands go, and their number is returned |
| PresenceService.WorkReportClientPresenceStore.PruneStaleClients | backend/src/observability/workReportClientPresenceStore.ts:576-587 | The loop forgets exactly the clients not seen for ten minutes |
| PresenceService.WorkReportClientPresenceStore.EnforceClientLimit | backend/src/observability/workReportClientPresenceStore.ts:553-574 | The oldest clients above the limit go |
| PresenceService.WorkReportClientPresenceStore.BlockedStatus | backend/src/observability/workReportClientPresenceStore.ts:351-374 | A request is blocked by its client or by its address |
| ShutdownSafety.SqliteClosesLast | backend/src/server.ts:182-229 | The SQLite close begins only after the stores closed, after a flush ended that began once the server's close and both drains had resolved |
| ShutdownSafety.ExitIsJustified | backend/src/server.ts:226-238 | The process exits once at most: with the requested code after the full sequence, with 1 by the timer |
| ShutdownSafety.ForceTimerIsArmed | backend/src/server.ts:161-172 | A shutdown that has begun and not exited can always be ended by the timer |
| ShutdownSafety.FailedRunsEndByForce | backend/src/server.ts:161-172 | Once a call has thrown, only the timer ends the process |
| ShutdownSafety.SequenceNeverStalls | backend/src/server.ts:188-229 | Unless a call has thrown, the sequence always waits for something that can still end |
| ShutdownSafety.RepeatedSignalsAreIgnored | backend/src/server.ts:153-157 | A run is the same without the signals after the first |
| ShutdownSafety.OpeningIsOrderly | backend/src/server.ts:174-193 | Admission closes before event streams, and both before the server's close and the drains begin, wherever the opening throws |
| ShutdownSafety.OpeningStopsWhereItThrows | backend/src/server.ts:153-193 | An opening that throws stays in the stage of the call that threw, with exactly the effects before it and exactly the waits begun by then |
| ShutdownSafety.EarlyFlushIff | backend/src/server.ts:195-219 | The early flush is made at most once, and exactly in the runs in which a checkpoint comes while the sequence waits |
| Shutdown.GracefulShutdownHandler.Begin | backend/src/server.ts:153-193 | The opening's effects and stage, up to where a call throws |
| Shutdown.GracefulShutdownHandler.WaitSettled | backend/src/server.ts:189-221 | A settlement ends the wait, fails it, or leaves it waiting |
| Shutdown.GracefulShutdownHandler.DrainCheckpointFired | backend/src/server.ts:195-219 | A slow drain leads to one early flush |
| Shutdown.GracefulShutdownHandler.RegistriesFlushed | backend/src/server.ts:218-227 | After the early flush the wait goes on; after the final one the stores close |
| Shutdown.GracefulShutdownHandler.ServiceStoresClosed | backend/src/server.ts:224-228 | Once the stores have closed the SQLite close begins; a failure there stops the sequence |
| Shutdown.GracefulShutdownHandler.SqliteHasClosed | backend/src/server.ts:228-239 | The timer is cleared and the requested code used |
| Shutdown.GracefulShutdownHandler.ForceExitTimerFired | backend/src/server.ts:161-172 | The timer exits with 1 |
| DemoRateLimit.SweepIsInvisible | backend/src/middleware/demoRateLimit.ts:70-75 | With a clock that does not go back, sweeping never changes an answer, in any run |
| DemoRateLimit.TwiceTheLimit | backend/src/middleware/demoRateLimit.ts:77-119 | With a clock that does not go back, a key gets at most twice its limit through in any stretch of one window's length |
| DemoRateLimit.AdmittedInInterval | backend/src/middleware/demoRateLimit.ts:77-119 | With such a clock, for any stretch: its limit for each window begun and once more |
| DemoRateLimit.TwiceTheLimitIsReached | backend/src/middleware/demoRateLimit.ts:87-96 | Some run reaches twice the limit |
| DemoRateLimit.RetryAfterIsEnough | backend/src/middleware/demoRateLimit.ts:98-111 | After the wait that a refusal names, the key is let through with a fresh window |
| DemoRateLimit.CountsDown | backend/src/middleware/demoRateLimit.ts:77-119 | Within a window the remaining count falls by one with each request of the key, from 299 or 29 to 0, and the next ones are refused until it ends |
| DemoRateLimit.DemoRateLimiter.Sweep | backend/src/middleware/demoRateLimit.ts:70-75 | The loop drops exactly the expired buckets once there are enough |
| DemoRateLimit.DemoRateLimiter.Handle | backend/src/middleware/demoRateLimit.ts:77-119 | Count, refusal with its wait, and what remains |
| CursorPaging.FollowingYieldsTheFilteredList | backend/src/routes/meetingDemoLibraryRecordings.ts:1297-1337 | Following the cursors over an ordered list yields the filtered list exactly once, in order |
| CursorPaging.ShownAtMostOnce | backend/src/routes/meetingDemoLibraryRecordings.ts:1305-1314 | However the list changes between pages, no row is shown on two |
| CursorPaging.LastingRowIsShown | backend/src/routes/meetingDemoLibraryRecordings.ts:1305-1314 | A row in the list each time is shown by the time the pages end |
| CursorPaging.PageAt | backend/src/routes/meetingDemoLibraryRecordings.ts:1305-1337 | A page is the next slice, and has a cursor exactly when rows are left |
| CursorPaging.FilterKeepsOrder | backend/src/routes/meetingDemoLibraryRecordings.ts:1297-1304 | Filtering keeps the order and exactly the matching rows |
| CursorPaging.MatchesIff | backend/src/routes/meetingDemoLibraryRecordings.ts:1297-1304 | A row matches exactly if the query is empty or occurs somewhere in its id, its name or one of its titles |
| CursorPaging.OrderedIffNewestFirst | backend/src/routes/meetingDemoLibraryRecordings.ts:1305-1314 | Under a total order of texts the cursor test agrees with the list exactly if it is newest first, and by id within a moment |
| CursorPaging.TotalsCountWhatFollows | backend/src/routes/meetingDemoLibraryRecordings.ts:1315-1337 | The totals on every page are the number of rows, and the sum of their recordings, that following the cursors yields |
| CursorPaging.CursorRoundTrip | backend/src/routes/meetingDemoLibraryRecordings.ts:81-116 | A cursor comes back as itself for its query and is refused for another; nothing else is taken for it, and only a missing or empty parameter for none |
| CursorPaging.ResolveLimit | backend/src/routes/meetingDemoLibraryRecordings.ts:1280-1283 | The page size is from 1 to 200: a number in that range cut to a whole one, its nearer end outside it, and 50 without a finite number |
| DateOnly.AcceptedIffReal | backend/src/utils/dateOnly.ts:1-21 | Accepted are exactly the well-formed texts of real dates in the years 100 to 9999, printed as themselves |
| DateOnly.ReadIffSpelled | backend/src/utils/dateOnly.ts:3-10 | What is read are exactly the spellings of a date: four digits, one or two, one or two, with either separator, and perhaps a time |
| DateOnly.SpacesAreCut | backend/src/utils/dateOnly.ts:1-21 | Spaces around a date make no difference |
| DateOnly.SurvivesIffReal | backend/src/utils/dateOnly.ts:11-18 | A date survives the trip through its day number exactly if it is real |
| DateOnly.RealDatesAreAccepted | backend/src/utils/dateOnly.ts:1-21 | Every real date can be written with either separator |
| DateOnly.NormalizingTwiceIsOnce | backend/src/utils/dateOnly.ts:1-21 | Normalising is idempotent |
| DateOnly.RagicRoundTrip | backend/src/utils/dateOnly.ts:23-29 | The upstream form normalises back to the date |

## Left out

- HTTP, axios, Express wiring, event streams, file streaming, SQLite and child processes: only success, failure and timing of their calls, as steps or parameters.
- Logging, metrics, latency percentiles, environment parsing, UI and demo fixtures: nothing is decided by them.
- DispatchOnce.AtMostOnce: assumes that the first snapshot lists tasks with different ids in order of creation, as the code writes it; that only a reload gives a record the recovered-after-restart error code; that a per-key serial queue, not part of this model, starts each accepted item once in a process; and that persistence is enabled and snapshots are readable.
- DispatchSafety.RunKeepsInv: a restart reads the snapshot in one step, while the code loads it asynchronously; that is the same only because the server awaits the initialisation before it accepts requests (backend/src/server.ts:383).
- DispatchSafety.BarrierIsSound: writing a temporary file and renaming it is one atomic step that may fail; loss of data that the file system had confirmed is not modelled.
- ReportTaskStore.CreateReportTaskService.EnqueueTask: identifiers and times are numbers, and payloads, trimming of identifiers, result normalisation, lifecycle labels, timing fields and the registry are not modelled; whether an error is indeterminate is an arbitrary boolean.
- ReadCacheSafety.NoStaleRead: values are identified by the load that fetched them, cached values may expire at any time, cloning is not modelled, and form paths contain no NUL character.
- RateBounds.RateBound: arithmetic is over the reals, without floating-point rounding; token buckets see one clock reading per operation.
- RateProgress.BoundedWaiting: counts the checks that fire when the clock says they are due; earlier ones, which a clock that went back allows, are in the runs but not counted.
- RateExcess.ExceedsIff: the runs do not limit how many requests are under way at once, while the lanes do, so a run that passes the bound may need more of them than the lanes' limits admit; buckets hold at least one token, as the configuration makes them, and were last refilled no later than the window opens.
- LaneSafety.SlotsAreConserved: request counters, latencies and the text of errors are not modelled; woken waiters may resume in any order.
- BreakerHistory.BreakerIsItsHistory: requires the threshold of at least 1 that the configuration enforces.
- ReadRetryPolicy.BackoffsFitTheBudget: times are whole milliseconds as the configuration makes them, and three tenths of the base delay is exact rather than a floating-point product.
- ReadRetry.NoSlotWhileBackingOff: the random draws lie in [0, 1), as Math.random gives them.
- ReadRetry.RequestMeetsItsDeadline: timers fire on time and code between waits takes no time; the retry log is not modelled.
- PresenceSafety.RunKeepsInv: descriptive fields of a client that no decision reads are left out; a client's time text is its rank among texts and the instant it parses to; the order in which a listing sorts clients by status is left out, as the fan-out does not depend on it.
- RateExcess.FasterGlobalExceedsIff: the same.
- LaneRates.ClassStartsWithinLanes: that who waits for a global token runs in its lane, and waits once, is a hypothesis; the code asks the limiters inside the lane's run.
- DispatchTwice.SecondStartIff: room for two more records in the history; without it a pruning may come between.
- BlockGate.RefusedIff: finding the address of a request is a parameter.
- ShutdownSafety.ForceTimerIsArmed: the timers do not keep the process alive by themselves, so a process with nothing else left may also end on its own; that is not modelled.
- CursorPaging.CursorRoundTrip: base64url and JSON are the platform's; the model's cursor is the value they decode to, so what is proved is the check of version, query and fields around them.
- CursorPaging.FollowingYieldsTheFilteredList: the library list arrives ordered by the comparison the route itself uses; text comparison and lower-casing are parameters, and a cursor's base64url and JSON text is represented by what it decodes to.
- DemoRateLimit.TwiceTheLimit: needs a clock that does not go back; the choice of scope, address and protected paths from a request is a parameter.
- Constructors that throw on a capacity, rate or limit that is not positive have that as a precondition.
- Provider validation, the Dev AI routes, downtime reports and the mock client: easy members only.
