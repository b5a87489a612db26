# Verification of the backend's concurrency and integrity protocols

A Dafny model of the protocols the backend implements by hand, with proofs of what their comments
promise. `dafny verify dfyconfig.toml` checks all of it.

Six groups of modules, each usable on its own:

- **Transactions.** `TransactionCall` is one outer transaction call as a state machine whose
  environment, the MongoDB driver, chooses every outcome; `TransactionRetries` says by the driver's
  answers alone when it retries and when it throws. `UnitOfWork` is the runner as coded, with its
  nested retry loops, proved to be a run of that machine. `TransactionSemaphore` refines the
  first-come-first-served lock of `FifoLock`; `TransactionSystem` interleaves any number of callers
  over one lock; `TransactionRetry` walks error causes on a possibly cyclic heap;
  `TransactionMetrics` holds the counters and what each call added to them.
- **Outbox.** `Outbox` has the repository's updates as atomic steps on documents and the claim loop
  as coded; `OutboxProtocol` has runs of any number of workers.
- **Job queue.** `JobQueue` has runs of any number of loops over the four lists, `JobOrder` says
  exactly when they keep enqueue order, `QueueStartup` exactly when a startup launches a loop;
  `TransactionQueue` is the service as coded, where callers and other loops act at every suspension.
- **Archive.** `CanonicalJson` and `JsonText` are the canonical form and its text, with a parser,
  `KeyOrder` and `JsonForm` what order and text mean; `ForensicChain` and `ForensicIntegrity` build
  and verify hash-chained bundles for an arbitrary hash, and `ForensicBinding` says what bundles,
  hashes and verdicts bind; `ForensicSealing` and `ForensicArchive` seal a day among racing sealers.
- **Paging.** `KeysetPaging` is paging in general; `FeedPipeline`, `FeedReading` and
  `MessagePaging` apply it to an aggregation pipeline and to a query, and `FeedRows` says over the
  fields of posts what the feed shows.
- **Telemetry and presence.** `TelemetryEvents`, `DimensionLedger`, `Telemetry` and
  `TelemetrySummary` model the metrics bucket, `TelemetryReadings` says what it holds of the events;
  `SocketPresence` and `SocketServer` model a socket's presence queue, `PresenceHistory` what the
  answers it gets make of it.

`Prelude`, `Lists` and `Sorting` hold what several of them share.

## Assumptions

- The MongoDB driver, from the section "Error Labels" of the driver Transactions specification: a
  commit error labelled transient and not unknown means the attempt did not commit; a commit that
  returns is durable; committing again is idempotent; a body that threw has committed nothing. They
  are exactly the predicate `TransactionCall.Legal`. An unlabelled commit error says nothing.
- One outbox call is one atomic document update. The clock never goes back, and worker ids in
  `OutboxProtocol` are not empty.
- Redis writes succeed and jobs are well formed.
- The hash and the file digest are arbitrary functions. No result assumes that collisions do not
  exist: each names the two texts that would collide, or says that some exist.
- Documents of a collection have distinct ids. The groups of an aggregation come in any order.

## Where the code does less than it seems

- `UnitOfWork.ts:240` reports success for a callback that ended the transaction itself, also when
  nothing was committed (`EarlyReturnCanLoseWrites`).
- Fencing by worker id does not protect a worker from its own earlier updates once it has claimed an
  event again, and not at all when the id is omitted or empty (`SameWorkerIsNotFenced`,
  `OwnerIsComparedIffIdIsGiven` in `OutboxProtocol`).
- An event whose `exhaustedAt` is an explicit null is counted as pending by `getBacklogStats` but
  neither by `countPendingEvents` nor by any claim (`CountsDifferIffNull`,
  `NullExhaustionIsStuckPending`). No run of the protocol writes such a null.
- A bare repost of a bare repost counts as the repost it repeats, not as the original, so both are
  in the feed (`RepostOfRepostIsShown`).
- With a limit of 0 a page says that there is more but gives no cursor, so a reader stops with
  nothing (`ReadingIsComplete`, `ReadingTheFeed`).
- A disconnect enqueues a clear of the stored presence, but a clear that fails is only logged
  (`DisconnectClearsExactlyIfEffective`).
- The queue's lists are first in, first out, but a restart does not wait for the loop of the stopped
  generation, so two loops can overlap and finish jobs of one priority out of order
  (`OverlappingLoopsReorder`; `OrderHoldsExactlyInTurn` and `FinishedInOrderExactlyIfNoneOvertaken` say
  exactly when).
- A job is counted as enqueued only after Redis has answered its push, and may have been popped and
  finished before: processed plus failed can exceed enqueued (`JobCanEndBeforeItIsCounted`).
- A start after a stop joins a startup that is still pending and is rejected with it. An enqueue
  then reports an error although its job is queued (`StartAfterStopIsRejected`,
  `RejectedEnqueueLeavesItsJob`).

## Model

| member | source | states |
|---|---|---|
| `TransactionCall.CommitsExactlyOnce` | backend/src/database/UnitOfWork.ts:199-317 | For every sequence of session, body, abort and commit outcomes: at most one body attempt is ever durable; a normal return through the commit loop means exactly the last attempt is; a throw with no commit result in doubt means none is; nothing is durable while a body runs |
| `TransactionCall.RerunOnlyAfterSettledCommit` | backend/src/database/UnitOfWork.ts:264-308 | Between an unknown commit result and any later body run lies a commit error that is transient and not unknown |
| `TransactionCall.AmbiguousExactlyWhenUnknown` | backend/src/database/UnitOfWork.ts:282-325 | The call ends as ambiguous exactly when its last commit error was an unknown result, provided no callback or driver throws the ambiguous error itself |
| `TransactionCall.EarlyReturnReportsSuccess` | backend/src/database/UnitOfWork.ts:240-244 | When the callback itself ended the transaction the call still returns normally, and its writes are durable if and only if the callback made them so |
| `TransactionCall.EarlyReturnCanLoseWrites` | backend/src/database/UnitOfWork.ts:240-244 | A run in which the call returns normally with nothing durable: the condition of the previous row is needed |
| `TransactionCall.AttemptsAreBounded` | backend/src/database/UnitOfWork.ts:199-314 | Body runs are at most maxBodyAttempts and commit calls at most maxBodyAttempts times maxCommitAttempts |
| `TransactionCall.CallEnds` | backend/src/database/UnitOfWork.ts:199-349 | A rank falls with every driver answer, so every call ends |
| `TransactionCall.StepKeepsInv` | backend/src/database/UnitOfWork.ts:195-349 | Every answer keeps durability, justification of re-runs, counters and bounds together |
| `TransactionCall.HistoryGuarantees` | backend/src/database/UnitOfWork.ts:162-349 | The guarantees above for a call told by its recorded intermediate states, as the coded runner leaves it |
| `TransactionRetries.RetriesExactlyWhenAllowed` | backend/src/database/UnitOfWork.ts:199-316 | Over every legal run, by the driver's answers alone: after a failed body or commit the next body runs exactly when the failure was retryable, nothing was left active or the abort succeeded, and fewer than maxBody bodies have run; a commit of doubtful outcome is tried again exactly when time is left and fewer than maxCommit tries of that body were made |
| `TransactionRetries.ThrowsOnlyWhenSpent` | backend/src/database/UnitOfWork.ts:220-330 | A call that throws has nothing left to try: no session; or its last attempt failed with an error that is not retryable, left its transaction active, or was body number maxBody; or its last commit is in doubt and its time is up or maxCommit tries of that body were made; it is ambiguous exactly in that doubt, or when the error says so itself |
| `TransactionRetries.VerdictOfLastTry` | backend/src/database/UnitOfWork.ts:240-330 | How a call ends is what its last answers say |
| `TransactionRetries.HistoryIsDoneAsTold` | backend/src/database/UnitOfWork.ts:162-349 | The same of a call told by its recorded history, as the coded runner leaves it |
| `UnitOfWork.Runner.ExecuteInTransaction` | backend/src/database/UnitOfWork.ts:162-349 | Among other calls that record, acquire, time out and release at every await, queued or not: afterwards the call holds no permit and waits for none, and free permits plus holders are the capacity; a nested or rejected call touches no session; an ended one has the exactly-once, bound and re-run guarantees, has recorded exactly what its history says, has run bodies and commits again exactly where its driver's answers allow it, and ends as the last of them says |
| `UnitOfWork.Runner.ExecuteAdmitted` | backend/src/database/UnitOfWork.ts:331-348 | Whatever the session, body, commit, abort or endSession does, and whatever other calls do meanwhile, a call that held a permit has given it back |
| `UnitOfWork.Runner.AttemptBodies` | backend/src/database/UnitOfWork.ts:196-319 | The nested loops refine the state machine and never leave by their own bound: the throw after the body loop is not reached |
| `UnitOfWork.Runner.AttemptCommits` | backend/src/database/UnitOfWork.ts:246-314 | The commit loop ends by a return, a throw or a body retry, with the machine in the matching state, never by its bound |
| `UnitOfWork.Runner.AwaitTurn` | backend/src/database/UnitOfWork.ts:174-184 | While others join, time out and release, and with its own timer firing at any point: what happened is a run of the first-come-first-served lock; the caller is granted, and holds a permit, exactly when that run grants its waiter, and else exactly its own timeout is in the run |
| `UnitOfWork.Runner.Admit` | backend/src/database/UnitOfWork.ts:174-184 | With a free permit the call is admitted at once; otherwise it ends up holding a permit, or neither holding nor waiting |
| `UnitOfWork.Runner.AbortIfActive` | backend/src/database/UnitOfWork.ts:351-365 | Aborts only an active transaction, and reports whether none is left active |
| `UnitOfWork.Runner.TryCommit` | backend/src/database/UnitOfWork.ts:252-313 | One commit try leaves by success, another try, another body or a throw, each exactly after the answers, limits and counters that call for it, with machine and counters in the matching state |
| `UnitOfWork.Runner.TryBody` | backend/src/database/UnitOfWork.ts:204-316 | One body attempt likewise; after a failed one the body runs again exactly when the error is transient and not unknown, nothing is left active and an attempt is left |
| `UnitOfWork.Runner.TryAndCatch` | backend/src/database/UnitOfWork.ts:195-330 | After the catch clause the outcome, and everything the call recorded among the recordings of others, are those of the machine |
| `UnitOfWork.ResolveAttemptLimit` | backend/src/database/UnitOfWork.ts:94-97 | The limit is at least 1 for every input, the fallback for an absent, NaN or infinite one, and otherwise the floor when that is larger than 1 |
| `UnitOfWork.ResolveConfig` | backend/src/database/UnitOfWork.ts:110-133 | Each limit is usable and comes from its own option, or the older one when that is missing, independently of the other limit; the wait is never negative, the default unless it is finite; the delays are the given ones or the defaults |
| `UnitOfWork.BackoffDelay` | backend/src/database/transaction-retry.ts:74-84 | For every base and maximum, fractional, negative or not finite: a finite delay is a whole number of at least 10 ms, and when above 10 ms it is below the maximum and below the doubled base, for every random value; what it is exactly is in DelayMeans |
| `UnitOfWork.DelayMeans` | backend/src/database/transaction-retry.ts:74-84 | The delay is the random part of the cap in whole milliseconds, 10 when that part is below 11 ms; the cap is the base doubled for each attempt before, or the maximum if that is less |
| `UnitOfWork.InfiniteDelay` | backend/src/database/transaction-retry.ts:74-84 | And what it is without a finite cap |
| `TransactionRetry.InspectCauseChain` | backend/src/database/transaction-retry.ts:9-47 | Terminates on every finite heap of errors, cyclic or not; each flag is set exactly when some error reachable through cause shows it |
| `TransactionRetry.PrefixIsEnough` | backend/src/database/transaction-retry.ts:20-21 | Stopping at the first revisited error, or at a non-object, loses no evidence |
| `TransactionRetry.FoundMeans` | backend/src/database/transaction-retry.ts:9-47 | What the walk finds is what some error at the end of a path of causes shows |
| `TransactionRetry.IsRetryableBodyError` | backend/src/database/transaction-retry.ts:62-68 | True exactly when an error with the transient label and none with the unknown label is reached from cause to cause |
| `TransactionRetry.IsUnknownCommitResult` | backend/src/database/transaction-retry.ts:49-52 | True exactly when an error with the unknown-result label is reached from cause to cause |
| `TransactionRetry.IsTransientError` | backend/src/database/transaction-retry.ts:54-56 | True exactly when an error with the transient label is reached from cause to cause |
| `TransactionRetry.IsMaxTimeExpired` | backend/src/database/transaction-retry.ts:58-60 | True exactly when an error with code 50 or the name of that code is reached from cause to cause |
| `TransactionRetry.WrappingKeepsEvidence` | backend/src/database/transaction-retry.ts:43-43 | Wrapping an error as a cause keeps all its evidence and adds only the wrapper's own |
| `TransactionSemaphore.Semaphore.Acquire` | backend/src/database/transaction-semaphore.ts:25-52 | Takes a free permit for the caller, or queues a new unsettled waiter last; the abstract lock makes its acquire step, and free permits plus holders stay the capacity |
| `TransactionSemaphore.Semaphore.FireTimeout` | backend/src/database/transaction-semaphore.ts:40-49 | Removes exactly the waiter and rejects it when it is still waiting, and changes nothing when it is settled |
| `TransactionSemaphore.Semaphore.Release` | backend/src/database/transaction-semaphore.ts:54-66 | The caller's permit goes to the first waiter, or is free when there is none; the abstract lock makes its release step, and free permits plus holders stay the capacity |
| `TransactionSemaphore.Semaphore.HandOver` | backend/src/database/transaction-semaphore.ts:54-66 | The loop of a release skips exactly the settled waiters before the first unsettled one, which it grants, and leaves all others as they are, whatever the array holds |
| `FifoLock.RunKeepsWellFormed` | backend/src/database/transaction-semaphore.ts:25-66 | Over every run a free permit means an empty queue, and the queue holds no waiter twice |
| `FifoLock.ServedInTurn` | backend/src/database/transaction-semaphore.ts:54-63 | The waiter at position k is served by the time of the (k+1)-th release unless it times out |
| `FifoLock.NoOvertaking` | backend/src/database/transaction-semaphore.ts:37-57 | While a waiter waits only those ahead of it are served |
| `FifoLock.TimedOutIsNeverServed` | backend/src/database/transaction-semaphore.ts:40-48 | A waiter that timed out never receives a permit |
| `FifoLock.ServedOnce` | backend/src/database/transaction-semaphore.ts:54-63 | No waiter receives two permits |
| `TransactionMetrics.CountersCount` | backend/src/database/transaction-metrics.ts:49-82 | After any recordings each counter is the number of those it is named after: attempts, successes, failures, ambiguous and rejected calls, retries of each kind, successes that needed more than one body; the retry total adds up the attempts beyond the first of the successes |
| `TransactionMetrics.SharesAddUp` | backend/src/database/transaction-metrics.ts:49-82 | Every counter is the sum of what the single callers recorded: in no interleaving is a recording lost or counted twice |
| `TransactionMetrics.AverageIsSound` | backend/src/database/transaction-metrics.ts:84-90 | The reported average number of retries is 0 exactly when no call was retried, otherwise at least 1 and within half a hundredth of the mean |
| `TransactionSystem.PermitsAreConserved` | backend/src/database/UnitOfWork.ts:166-184 | In every interleaving of any number of callers free permits plus open transactions are the capacity, waiters exist only without free permits, and releases equal finished admitted calls |
| `TransactionSystem.CountersAreAccounted` | backend/src/database/UnitOfWork.ts:174-330 | In every interleaving success, failed, ambiguous and rejected add up to the calls that ended; attempts are retries plus loops entered, for bodies and for commits |
| `TransactionSystem.EveryCallIsExactlyOnce` | backend/src/database/UnitOfWork.ts:162-349 | Each interleaved call keeps its exactly-once and attempt guarantees |
| `TransactionSystem.AdvanceKeepsInv` | backend/src/database/UnitOfWork.ts:331-348 | A step of one caller, with its release at the end, keeps the invariant of the whole system |
| `Outbox.Repository.ClaimPendingEvents` | backend/src/repositories/outbox.repository.ts:99-161 | Alone and with a non-negative stale window: distinct events, as many as asked for and eligible, oldest first, none left behind older than a claimed one, each with worker and time of the loop in its fields and nothing else changed |
| `Outbox.Repository.MarkAsProcessed` | backend/src/repositories/outbox.repository.ts:236-268 | Exactly when the owner filter matches the event is processed, at a time of the call, unclaimed and without error or schedule, and nothing else changes; the answer says whether the document changed |
| `Outbox.Repository.MarkHandlerProcessed` | backend/src/repositories/outbox.repository.ts:270-290 | Adds the handler once, exactly when the owner filter matches and it was not there |
| `Outbox.Repository.MarkAsFailed` | backend/src/repositories/outbox.repository.ts:292-334 | Exactly when the owner filter matches one retry more, the message, no claim, and the exhaustion or the next attempt that is asked for, or neither changed; nothing else changes |
| `Outbox.Repository.RequeueExhaustedEvent` | backend/src/repositories/outbox.repository.ts:336-372 | Takes effect exactly on an unprocessed, idle event that is out of retries or marked exhausted, which leaves the exhausted side of the backlog for the pending one, may be claimed at once by any loop and keeps payload and finished handlers; no other event changes |
| `Outbox.Repository.RenewClaim` | backend/src/repositories/outbox.repository.ts:374-380 | Exactly for the owner of an event in progress processingStartedAt becomes the time of the call; every other field and event stays |
| `Outbox.Repository.GetBacklogStats` | backend/src/repositories/outbox.repository.ts:181-234 | Counts pending and exhausted unprocessed events and finds the oldest pending one |
| `Outbox.Repository.CountPendingEvents` | backend/src/repositories/outbox.repository.ts:163-179 | The count differs from the pending side of the backlog by exactly the events whose exhaustedAt is an explicit null |
| `OutboxProtocol.PendingCountsAgree` | backend/src/repositories/outbox.repository.ts:163-217 | In every reachable state there are no such events, and the two counts are the same |
| `Outbox.Repository.SaveEvent` | backend/src/repositories/outbox.repository.ts:38-72 | Adds one event that is pending, carries the payload and a time of the call, and may be claimed by the next loop; every other event and the exhausted side of the backlog stay as they are |
| `Outbox.ResolveMaxRetries` | backend/src/repositories/outbox.repository.ts:10-19 | The retry limit is the configured one when it is positive, otherwise 5 |
| `Outbox.DistinctCount` | backend/src/repositories/outbox.repository.ts:109-151 | Distinct claimed events are no more than the eligible ones, and as many when all are claimed |
| `Outbox.EligibleShrinks` | backend/src/repositories/outbox.repository.ts:109-137 | What is still eligible during the loop is what was eligible and is not claimed |
| `Outbox.ClaimStep` | backend/src/repositories/outbox.repository.ts:109-151 | One turn of the claim loop keeps order, distinctness and the claim stamps |
| `OutboxProtocol.RunKeepsInv` | backend/src/repositories/outbox.repository.ts:99-391 | Over every multi-worker run an owned event is processing, unprocessed, below the limit and not exhausted; retries stay within the limit; next attempt and exhaustion are never both set |
| `OutboxProtocol.LeaseHolds` | backend/src/repositories/outbox.repository.ts:99-143 | A lease that stands at s keeps its owner until s plus the smallest window that any other worker's claim of the event uses, whatever the others do, unless the owner gives it up |
| `OutboxProtocol.RenewalExtendsLease` | backend/src/repositories/outbox.repository.ts:374-380 | After a successful renewal at t, in every run: the worker is still the owner while now is at most t plus that window, unless it gives the event up |
| `OutboxProtocol.ClaimTakesLease` | backend/src/repositories/outbox.repository.ts:105-151 | After a claim at t likewise |
| `OutboxProtocol.OwnerIsServed` | backend/src/repositories/outbox.repository.ts:236-380 | The owner's renewals, completions and failures always take effect, and a checkpoint exactly when its handler had not finished |
| `OutboxProtocol.FailureIsRespected` | backend/src/repositories/outbox.repository.ts:305-325 | After its owner failed an event with a next attempt, no run without a requeue touches the event before that time, and none at all once it was exhausted |
| `OutboxProtocol.FailedIsClaimableWhenDue` | backend/src/repositories/outbox.repository.ts:109-143 | It is open to claims exactly from that time on, and never when exhausted |
| `OutboxProtocol.PassedWindowIsTakenOver` | backend/src/repositories/outbox.repository.ts:105-143 | The bound is exact: a claim whose window has passed takes a lone event from its owner |
| `OutboxProtocol.FencedWorkerHasNoEffect` | backend/src/repositories/outbox.repository.ts:382-391 | Once a worker has lost an event, and until it claims it again, every update it sends for it is turned down, and the run goes exactly as if it had sent none |
| `OutboxProtocol.ProgressIsPermanent` | backend/src/repositories/outbox.repository.ts:236-290 | Processed is permanent, finished handlers only grow, payload and creation time never change |
| `OutboxProtocol.CheckpointGrantedOnce` | backend/src/repositories/outbox.repository.ts:270-290 | Over any run one handler's checkpoint on one event is granted at most once, to all workers together |
| `OutboxProtocol.CompletedOnce` | backend/src/repositories/outbox.repository.ts:236-268 | Over any run an event is completed at most once |
| `OutboxProtocol.FailuresAreBounded` | backend/src/repositories/outbox.repository.ts:292-334 | Between two requeues an event fails no more often than the limit |
| `OutboxProtocol.BacklogPartitionsUnprocessed` | backend/src/repositories/outbox.repository.ts:188-217 | Pending and exhausted partition the unprocessed events of any collection |
| `OutboxProtocol.RequeueExactlyExhausted` | backend/src/repositories/outbox.repository.ts:336-372 | In every reachable state requeue succeeds on exactly the exhausted events and leaves them pending, claimable, with handler progress kept |
| `JobQueue.RunConserves` | backend/src/services/transaction-queue.service.ts:89-114 | Over every run, with any number of loops, the ids that entered at a priority are those queued, in flight and finished; each job left for the right reason, and its handler ran as often as its limit says |
| `JobQueue.JobsAddUp` | backend/src/services/transaction-queue.service.ts:89-114 | At every moment the jobs that entered are those that left, those in flight and those queued |
| `JobQueue.NoTryIsLost` | backend/src/services/transaction-queue.service.ts:313-349 | Over every run a job that left because its handler threw has run exactly max(1, maxAttempts) times; one that succeeded ran no more, one without a handler less |
| `JobQueue.PriorityIsKept` | backend/src/services/transaction-queue.service.ts:277-350 | A list may be popped exactly when every list of a higher priority is empty |
| `JobOrder.OrderKeptExactlyInTurn` | backend/src/services/transaction-queue.service.ts:267-350 | Any step of any number of loops keeps a priority in enqueue order if it ends no job of it out of turn, and with distinct ids only if: a job leaves in turn when no earlier pop of its priority is still in flight, and goes back in turn when no later one is |
| `JobOrder.OrderHoldsExactlyInTurn` | backend/src/services/transaction-queue.service.ts:193-350 | Over every run of any number of loops a priority is in enqueue order at every moment if, and with distinct ids only if, every job of it ends in turn |
| `JobOrder.OutOfTurnIsForGood` | backend/src/services/transaction-queue.service.ts:193-350 | A job that leaves out of turn has broken the order of the finished jobs for every later run |
| `JobOrder.FinishedInOrderExactlyIfNoneOvertaken` | backend/src/services/transaction-queue.service.ts:193-350 | Over every run of any number of loops, with distinct ids, the jobs of a priority have finished in enqueue order if and only if none left while one that entered before it was queued or in flight |
| `JobOrder.FinishedInEnqueueOrder` | backend/src/services/transaction-queue.service.ts:267-334 | One loop finishes the jobs of a priority in the order they were enqueued, retries included |
| `JobOrder.OverlappingLoopsReorder` | backend/src/services/transaction-queue.service.ts:193-267 | From every idle queue two overlapping loops can finish two jobs of one priority in reverse |
| `JobQueue.QueueDrains` | backend/src/services/transaction-queue.service.ts:267-353 | Without new jobs every run is no longer than twice the tries left, the sum of max(1, maxAttempts) - attempts, plus the jobs in flight |
| `JobQueue.WorkIsNat` | backend/src/services/transaction-queue.service.ts:267-353 | That measure is never negative, and 0 only when all lists and slots are empty |
| `JobQueue.NeverStuck` | backend/src/services/transaction-queue.service.ts:267-353 | Unless nothing is queued or in flight some loop can pop or end a job |
| `JobQueue.DrainedQueueIsEmpty` | backend/src/services/transaction-queue.service.ts:267-353 | So a run without new jobs that cannot go on has left nothing queued and nothing in flight |
| `TransactionQueue.Service.BrPop` | backend/src/services/transaction-queue.service.ts:277-310 | Pops the right end of the first non-empty list in priority order, and nothing only when all four are empty |
| `TransactionQueue.Service.HandleJob` | backend/src/services/transaction-queue.service.ts:308-350 | While its handler runs other loops pop, settle and end, and callers enqueue, stop and restart; then exactly the popped job ends, wherever its slot has moved to: after a throw it is at the popping end of its list with one run more exactly when attempts are left, and counted as failed otherwise; after success it is counted as processed, and without a handler at once as failed |
| `TransactionQueue.Service.Settle` | backend/src/services/transaction-queue.service.ts:313-349 | The same of lists, counters and jobs in flight for any job whose outcome is known, and they are those of the history with that end |
| `TransactionQueue.Service.ProcessLoop` | backend/src/services/transaction-queue.service.ts:267-353 | Among any number of other loops, launched by restarts while old ones still hold jobs: ids balance, handler runs stay within the limit, and enqueued plus unanswered pushes is processed plus failed plus queued plus in flight; a priority whose jobs all ended in turn has finished them in enqueue order, and all have when no two jobs were ever in flight at once; the loop stops only when its generation is not current |
| `TransactionQueue.Service.OthersRun` | backend/src/services/transaction-queue.service.ts:193-353 | What the others do keeps balance, limits and counters, and leaves this loop the job it holds, in the slot that is told |
| `TransactionQueue.Service.CountersAddUp` | backend/src/services/transaction-queue.service.ts:99-114 | At every suspension enqueued plus the pushes whose callers still await the reply is processed plus failed plus queued plus in flight; enqueued alone is so exactly when no push is unanswered |
| `TransactionQueue.JobCanEndBeforeItIsCounted` | backend/src/services/transaction-queue.service.ts:110-111 | From every idle queue with all pushes answered: a job that is popped and fails before its push is answered leaves more jobs ended than enqueued |
| `TransactionQueue.Service.ConnectionAnswered` | backend/src/services/transaction-queue.service.ts:203-251 | Launches a loop exactly when the connection succeeded and the client is still current; otherwise no loop is current, and the startup stays pending, to be joined and to reject, until it settles |
| `TransactionQueue.Service.Push` | backend/src/services/transaction-queue.service.ts:99-110 | Redis takes a fresh job in at the left end of its priority's list, as the step the theorems about runs are about; nothing is counted yet |
| `TransactionQueue.Service.PushAnswered` | backend/src/services/transaction-queue.service.ts:111-114 | After the reply exactly one job more is counted, and the queue is started: a generation begins exactly when none is starting or running and a client could be made |
| `TransactionQueue.Service.StartProcessing` | backend/src/services/transaction-queue.service.ts:179-202 | Joins a pending startup, or finds the loop running, or begins a new generation, as the start of the generations' machine |
| `TransactionQueue.Service.StopProcessing` | backend/src/services/transaction-queue.service.ts:256-262 | No generation is current afterwards, while a pending startup stays pending and the queue stays sound |
| `QueueStartup.LaunchesExactlyIfNotStopped` | backend/src/services/transaction-queue.service.ts:179-262 | In every interleaving of starts, stops and crashes: a startup launches a loop exactly when its connection succeeds and nobody stopped the queue since it began; all starts in between join it; otherwise it rejects for all of them and leaves no current loop |
| `QueueStartup.StartAfterStopIsRejected` | backend/src/services/transaction-queue.service.ts:179-251 | A start after a stop, while the stopped startup is pending, changes nothing and is rejected whatever the connection does, and only a start after it has settled begins anew |
| `QueueStartup.RunKeepsInv` | backend/src/services/transaction-queue.service.ts:179-262 | Over every run processing is on exactly for a current client that is not connecting any more, and a connecting one is the only one that may be current |
| `TransactionQueue.RejectedEnqueueLeavesItsJob` | backend/src/services/transaction-queue.service.ts:110-113 | An enqueue that joins such a startup is rejected although its job was pushed, and the job stays queued for as long as no loop is launched |
| `CanonicalJson.NormalizeIsIdempotent` | backend/src/services/forensic-archive.service.ts:72-99 | Normalising a normalised value changes nothing |
| `CanonicalJson.NormalFormDecides` | backend/src/services/forensic-archive.service.ts:72-99 | Two values have the same normal form if and only if they have the same value at every key, item by item, dates and ids counting as their strings |
| `CanonicalJson.BlindToOrderAndUndefined` | backend/src/services/forensic-archive.service.ts:91-95 | Key order and undefined fields do not matter |
| `CanonicalJson.CanonicalIsOrdered` | backend/src/services/forensic-archive.service.ts:91-95 | The object made from sorted entries enumerates array-index keys by value, then the others in code-unit order, and loses no field |
| `CanonicalJson.NormalizeIsNormal` | backend/src/services/forensic-archive.service.ts:72-99 | The result has ordered, defined fields at every level and no dates or object ids |
| `CanonicalJson.PrecedesIsTotal` | backend/src/services/forensic-archive.service.ts:68-70 | The comparison orders any two different strings one way |
| `KeyOrder.PrecedesIsByCodeUnits` | backend/src/services/forensic-archive.service.ts:68-70 | It compares two strings as their sequences of UTF-16 code units |
| `KeyOrder.KeyOrderMeans` | backend/src/services/forensic-archive.service.ts:91-95 | Keys are enumerated with array indices first, by the number they are, and the others by code units |
| `KeyOrder.IndexIsNumber` | backend/src/services/forensic-archive.service.ts:91-95 | An array-index key is the usual notation of a number below 2^32 - 1 |
| `JsonForm.NormalMeans` | backend/src/services/forensic-archive.service.ts:72-99 | A normal form has the string of a date or object id, and item by item and key by key the normal forms of an array's items and an object's values |
| `JsonText.PrintReads` | backend/src/services/forensic-archive.service.ts:101-103 | What is printed reads back wherever it stands in a text (sections 4 to 7 of RFC 8259) |
| `JsonText.RoundTripKeepsText` | backend/src/services/forensic-archive.service.ts:101-103 | A print-then-parse round trip does not change the stable text |
| `JsonText.TextDecidesContent` | backend/src/services/forensic-archive.service.ts:101-103 | Two values have the same stable text if and only if they have the same content |
| `JsonText.StableTextReads` | backend/src/services/forensic-archive.service.ts:101-103 | The stable text parses to the content of the value, also with the line feed an archive adds |
| `JsonForm.ObjectText` | backend/src/services/forensic-archive.service.ts:101-103 | A printed object is braces around its fields in order, as key, colon and value between commas, without the undefined ones |
| `JsonForm.ArrayText` | backend/src/services/forensic-archive.service.ts:101-103 | A printed array is brackets around its items with commas between them |
| `JsonForm.SpecialText` | backend/src/services/forensic-archive.service.ts:101-103 | A quote, backslash or control character is escaped where it stands, each by its own escape; OrdinaryText has the rest |
| `JsonForm.OrdinaryText` | backend/src/services/forensic-archive.service.ts:101-103 | A string of other characters is printed as it is, between quotes |
| `JsonForm.LeafText` | backend/src/services/forensic-archive.service.ts:101-103 | Words, numbers, dates and ids; null for what has no text |
| `ForensicChain.CanonicalRecordsForgetOrder` | backend/src/services/forensic-archive.service.ts:157-167 | Every permutation of records with unique event ids gives the same canonical list |
| `ForensicChain.BuildBundle` | backend/src/services/forensic-archive.service.ts:169-208 | The loop builds the manifest and the events that BuiltBundleSays is about |
| `ForensicChain.VerifyBundle` | backend/src/services/forensic-archive.service.ts:287-361 | The loop computes the verdict that VerdictMeans is about, the throw for null events and records included |
| `ForensicChain.ChainEvents` | backend/src/services/forensic-archive.service.ts:175-182 | Each event is linked to the hash of the one before |
| `ForensicChain.WalkChain` | backend/src/services/forensic-archive.service.ts:320-338 | The walk succeeds exactly when every event carries the hashes before and after its record |
| `ForensicBinding.LinkTextDecides` | backend/src/services/forensic-archive.service.ts:178-178 | Two links have the same text if and only if their records are alike and their previous hashes are the same |
| `ForensicBinding.LinkTextSays` | backend/src/services/forensic-archive.service.ts:178-178 | A link's text parses to an object with exactly the record and the previous hash |
| `ForensicBinding.ChainBinds` | backend/src/services/forensic-archive.service.ts:175-182 | Two lists with the same hash after k records, the final one or any before, are alike record by record up to there, or two named link texts collide |
| `ForensicBinding.AlikeListsHaveOneChain` | backend/src/services/forensic-archive.service.ts:175-182 | Lists that are alike have the same hash after every record |
| `ForensicBinding.BuiltBundleSays` | backend/src/services/forensic-archive.service.ts:169-208 | Property by property: a built manifest names version, type, window, ordering, count, ids and the hash of the list; event i holds record i, the hash of event i - 1, or 64 zeros, and the hash of both; the ends are those of the events |
| `ForensicBinding.VerdictMeans` | backend/src/services/forensic-archive.service.ts:287-361 | The verdict over the properties of the stored bundle: which checks fail with which error, in which order, and that it is accepted exactly when all hold |
| `ForensicBinding.CanonicalRecordsAreSorted` | backend/src/services/forensic-archive.service.ts:157-167 | The canonical records are the given ones, normalised, by time and, at equal times, by the code units of their ids |
| `ForensicBinding.DecimalMeans` | backend/src/services/forensic-archive.service.ts:195-195 | The count is written as the decimal number it is |
| `ForensicIntegrity.CanonicalRecordsAreCanon` | backend/src/services/forensic-archive.service.ts:157-167 | The canonical records are ones the theorems on bundles apply to |
| `ForensicIntegrity.SealedReads` | backend/src/services/forensic-archive.service.ts:460-468 | What is read back from a sealed text agrees with the bundle it was made from |
| `ForensicIntegrity.LinkTextsAgree` | backend/src/services/forensic-archive.service.ts:328-330 | Alike records have the same link text |
| `ForensicIntegrity.VerifyDecides` | backend/src/services/forensic-archive.service.ts:287-361 | Verification accepts every stored bundle that agrees with what building from the expected records makes, and accepts another one only if two named texts collide under the hash |
| `ForensicIntegrity.SealedIsAccepted` | backend/src/services/forensic-archive.service.ts:169-208 | The sealed text parses to a bundle that is accepted for the records it was built from |
| `ForensicIntegrity.ParsedIsStored` | backend/src/services/forensic-archive.service.ts:251-285 | Whatever text an archive decrypts to, a parsed bundle is one the theorem on verification covers |
| `ForensicIntegrity.AcceptedForBoth` | backend/src/services/forensic-archive.service.ts:301-315 | A text accepted for two lists of records shows them alike one by one, or a collision exists |
| `ForensicIntegrity.ListTextDecides` | backend/src/services/forensic-archive.service.ts:174-174 | Two record lists have the same text if and only if they are alike one by one |
| `ForensicSealing.FilesAreWrittenOnce` | backend/src/services/forensic-archive.service.ts:363-389 | In every run a file that exists is never changed or removed |
| `ForensicSealing.RacingSealersAgree` | backend/src/services/forensic-archive.service.ts:430-495 | Starting without an archive, in every interleaving: once a sealer finished exactly one created the archive, all finished ones report its digest and their record count, and the checksum file holds that digest and the archive's name |
| `ForensicSealing.FailuresHaveReasons` | backend/src/services/forensic-archive.service.ts:391-418 | In every run a sealer refuses the archive only if it is not accepted for its records, reports a checksum conflict only if the file holds something else, and a file error only if an operation of its own had one |
| `ForensicSealing.FinishedSealersReadTheSame` | backend/src/services/forensic-archive.service.ts:446-493 | Two sealers that finished read records alike one by one, or a hash collision exists |
| `ForensicSealing.SameRecordsNeverConflict` | backend/src/services/forensic-archive.service.ts:391-418 | Sealers of the same records never refuse in any interleaving without file errors |
| `ForensicSealing.SealersEnd` | backend/src/services/forensic-archive.service.ts:430-495 | No run is longer than six steps a sealer |
| `ForensicSealing.ResealReuses` | backend/src/services/forensic-archive.service.ts:446-458 | With an archive in place whoever finishes says it reused it, and reports its digest |
| `ForensicSealing.ResealOverOthersThrows` | backend/src/services/forensic-archive.service.ts:446-458 | Sealing over records the archive is not accepted for throws and leaves both files untouched |
| `ForensicSealing.OtherRecordsAreBarred` | backend/src/services/forensic-archive.service.ts:301-315 | The archive of other records is not accepted, or a hash collision exists |
| `ForensicArchive.Directory.SealDate` | backend/src/services/forensic-archive.service.ts:430-495 | The coded sealing among interfering sealers: a result names the archive and checksum that are there, verified for the records read; an archive of its own is the one sealed for them at the given time, an existing one is reused or refused; each failure is reported for its real reason, a file error exactly if an operation of this sealer had one |
| `ForensicArchive.Directory.EnsureSidecar` | backend/src/services/forensic-archive.service.ts:391-418 | The checksum file ends as the expected one, or the sealer fails with a conflict or a file error |
| `ForensicArchive.Directory.EnsureArchive` | backend/src/services/forensic-archive.service.ts:446-488 | An existing archive is verified, otherwise one is linked, and the winner's is verified when another sealer was faster |
| `ForensicArchive.Directory.VerifyExisting` | backend/src/services/forensic-archive.service.ts:452-458 | The sealer goes on exactly when the archive there passes verification for its records |
| `ForensicSealing.EnvIsSound` | backend/src/services/forensic-archive.service.ts:460-468 | What a sealer builds is accepted for its own records |
| `ForensicSealing.StepKeepsInv` | backend/src/services/forensic-archive.service.ts:363-418 | Every step of every sealer keeps the files, results and the one creator consistent |
| `FeedPipeline.FeedMeans` | backend/src/repositories/feed-pipeline.helpers.ts:15-34 | The feed holds exactly the newest active post of every identity, once, newest first; IdentityIsCompetition says what an identity is |
| `FeedRows.IdentityIsCompetition` | backend/src/repositories/feed-pipeline.helpers.ts:15-24 | Over the fields: two posts share an identity if and only if they are the same, one is a bare repost (no body or an empty one, no image) of the other, which is not bare itself, or both are bare reposts of one post |
| `FeedRows.ContentIsShown` | backend/src/repositories/feed-pipeline.helpers.ts:15-34 | An active post with a body or an image is in the feed if and only if no active bare repost of it is newer |
| `FeedRows.RepostOfRepostIsShown` | backend/src/repositories/feed-pipeline.helpers.ts:19-24 | A bare repost of a bare repost competes with it in no case: both are shown |
| `FeedRows.PageMeansByFields` | backend/src/repositories/feed-pipeline.helpers.ts:64-92 | A page in either direction, over the fields of posts and cursor: newest first the first posts, up to the limit, of those that win their row, lie beyond the cursor and are not in its snapshot; there is more exactly if one is left; both cursors are rows of it |
| `FeedPipeline.BuildCreatedAtCursorFilter` | backend/src/repositories/feed-pipeline.helpers.ts:36-62 | No filter exactly for no cursor or an empty payload, an error exactly when only a part is given or a part is unusable, otherwise the filter for exactly the given row; a createdAt that is no date is not an error and filters on an invalid date |
| `FeedReading.PipelineMeans` | backend/src/repositories/feed-pipeline.helpers.ts:64-92 | The pipeline returns the first limit + 1 rows of its side of the feed, whatever order the grouping returns its groups in; PageMeansByFields says which rows these are |
| `FeedReading.UnseenMeans` | backend/src/repositories/feed-pipeline.helpers.ts:80-82 | The feed without excluded identities holds exactly the visible posts of the others |
| `FeedReading.ForwardPage` | backend/src/repositories/read/FeedReadDao.ts:556-582 | A forward page is the keyset page of the feed after the cursor |
| `FeedReading.BackwardPage` | backend/src/repositories/read/FeedReadDao.ts:556-582 | A backward page is the piece of the feed just before the cursor, in feed order, its next cursor being its first row |
| `FeedReading.ReadingTheFeed` | backend/src/repositories/read/FeedReadDao.ts:525-582 | Following the cursors over fixed posts returns exactly the feed in full pages, if and only if the limit is positive or the feed empty |
| `FeedReading.NoIdentityTwice` | backend/src/repositories/feed-pipeline.helpers.ts:64-92 | While posts are only inserted no identity is ever shown twice |
| `KeysetPaging.WalkIsComplete` | backend/src/repositories/message.repository.ts:60-75 | The general fact behind both: following the cursors returns the list if and only if a page can hold a row or there is none |
| `KeysetPaging.JourneyDescends` | backend/src/repositories/message.repository.ts:60-75 | Whatever changes between pages, the rows go strictly downwards |
| `MessagePaging.HistoryMeans` | backend/src/repositories/message.repository.ts:43-46 | The history holds exactly the messages of the conversation newer than clearedAt, newest first |
| `MessagePaging.PageOfHistory` | backend/src/repositories/message.repository.ts:43-77 | The query with a cursor is a keyset page of the history |
| `MessagePaging.PageMeansByFields` | backend/src/repositories/message.repository.ts:33-82 | A page over the fields of the messages: newest first the newest, up to the limit, of those in the conversation, later than clearedAt and beyond the cursor; there is more exactly if one is left, and the next cursor is its last row |
| `MessagePaging.ReadingIsComplete` | backend/src/repositories/message.repository.ts:33-82 | Following nextCursor over fixed data returns exactly the history in full pages, if and only if the limit is positive or the history empty |
| `MessagePaging.NoMessageTwice` | backend/src/repositories/message.repository.ts:33-82 | Whatever is inserted or deleted between pages, no message is given twice |
| `Telemetry.BucketAccounts` | backend/src/services/telemetry.service.ts:138-286 | Events since rotation are invalid plus dropped plus samples plus all scroll, start, complete and abandon counts |
| `Telemetry.AdmittedAggregatesAreExact` | backend/src/services/telemetry.service.ts:189-325 | At most 128 feeds and 32 flows are told apart, create_post always; the aggregate of an admitted one is that of exactly its events |
| `Telemetry.DepthsAreBounded` | backend/src/services/telemetry.service.ts:218-227 | 25·r25 + 25·r50 + 25·r75 + 15·r90 + 10·r100 <= totalDepth <= 100·count per feed, and an upper bound by the counters |
| `Telemetry.CoalescedMeans` | backend/src/services/telemetry.service.ts:311-325 | coalescedDimensions counts the events in the common aggregates that named something else |
| `Telemetry.SamplesHold` | backend/src/services/telemetry.service.ts:169-187 | The samples are the first 10,000 valid durations; the rest is counted as dropped |
| `Telemetry.ScrollCounts` | backend/src/services/telemetry.service.ts:218-228 | A feed's counters are the number of its events at or above each threshold |
| `Telemetry.ScrollIsBounded` | backend/src/services/telemetry.service.ts:218-227 | The bounds hold of the aggregate of any events |
| `TelemetryReadings.BucketReads` | backend/src/services/telemetry.service.ts:138-286 | Over the events themselves: the numbers of a flow or feed that is told apart are the counts and totals over all events of that kind with its name, blanks trimmed, and a valid number; a name that is not has none |
| `TelemetryReadings.SamplesRead` | backend/src/services/telemetry.service.ts:169-187 | The samples are the first 10,000 durations between 0 and 60,000, in order; the others and the events that are not valid are counted |
| `TelemetryReadings.NamesRead` | backend/src/services/telemetry.service.ts:311-325 | create_post is told apart, and every name that occurs, unless 32 flows or 128 feeds are |
| `TelemetryReadings.EntryOfFlow` | backend/src/services/telemetry.service.ts:231-286 | Which events start, complete or abandon a flow, over their fields |
| `TelemetryReadings.NormalizeNames` | backend/src/services/telemetry.service.ts:302-309 | A normalised dimension is the text between the blanks at its ends, if there is any and it is not too long in code units |
| `Telemetry.TelemetryService.ProcessEvents` | backend/src/services/telemetry.service.ts:138-167 | The bucket is the one the events since the last rotation make |
| `Telemetry.TelemetryService.ProcessScrollDepth` | backend/src/services/telemetry.service.ts:189-229 | The coded handler makes the bucket's step for a scroll event |
| `Telemetry.TelemetryService.ProcessTTFI` | backend/src/services/telemetry.service.ts:169-187 | The coded handler makes the bucket's step for a sample |
| `Telemetry.TelemetryService.ProcessFlowStart` | backend/src/services/telemetry.service.ts:231-240 | The coded handler makes the bucket's step for a started flow |
| `Telemetry.TelemetryService.ProcessFlowComplete` | backend/src/services/telemetry.service.ts:242-275 | The coded handler makes the bucket's step for a completed flow |
| `Telemetry.TelemetryService.ProcessFlowAbandon` | backend/src/services/telemetry.service.ts:277-286 | The coded handler makes the bucket's step for an abandoned flow |
| `Telemetry.TelemetryService.AdmitDimension` | backend/src/services/telemetry.service.ts:311-325 | Admits a name while there is room, otherwise counts it as coalesced |
| `Telemetry.TelemetryService.RaiseThresholds` | backend/src/services/telemetry.service.ts:223-228 | Raises exactly the thresholds that the depth reaches |
| `Telemetry.TelemetryService.RotateBucket` | backend/src/services/telemetry.service.ts:118-123 | Starts from an empty bucket |
| `DimensionLedger.BookIsExact` | backend/src/services/telemetry.service.ts:311-325 | Under an admitted name exactly the entries of that name are held, in order |
| `DimensionLedger.BookIsComplete` | backend/src/services/telemetry.service.ts:311-325 | Nothing is lost or filed twice |
| `DimensionLedger.NamesHold` | backend/src/services/telemetry.service.ts:311-325 | Never more names than allowed, and all of them taken once one was turned away |
| `DimensionLedger.FeedsTurnedAway` | backend/src/services/telemetry.service.ts:311-325 | The foreign entries of the feeds' common book are as many as the names turned away |
| `DimensionLedger.FlowsTurnedAway` | backend/src/services/telemetry.service.ts:311-325 | And so are those of the flows' three common books together |
| `TelemetrySummary.PercentileMeans` | backend/src/services/telemetry.service.ts:327-341 | A percentile is one of the samples; more than that share of them is at most it, and at most that share is less |
| `TelemetrySummary.SummaryMeans` | backend/src/services/telemetry.service.ts:327-341 | p50, p90 and p99 are these percentiles, in order, and 0 without samples |
| `SocketPresence.StoredIsActive` | backend/src/server/socketServer.ts:682-811 | In every interleaving stored presence is within the active conversation and what failed clears left behind; with working clears, within the active conversation |
| `PresenceHistory.UpdatesAreAsAnswered` | backend/src/server/socketServer.ts:704-795 | Over every run, by the answers of the awaited calls alone: an opening goes on exactly as far as its checks pass, a refused or failed access check disconnects, an invalid session ends it, and its conversation becomes active exactly when access, session and, after a switch, the session again have passed |
| `PresenceHistory.StoredIsAsAnswered` | backend/src/server/socketServer.ts:720-811 | Only the last call of an opening stores its conversation, only the call of a close or of a switch clears the one before, and nothing else but expiry changes what is stored |
| `SocketPresence.DrainedIsEmpty` | backend/src/server/socketServer.ts:258-268 | After disconnect and drain nothing is active, and what is stored is exactly what clears without effect left behind: with working clears, nothing |
| `SocketPresence.DisconnectClearsExactlyIfEffective` | backend/src/server/socketServer.ts:797-815 | A socket at rest drains in one clear, which is not retried: its conversation's presence is gone exactly when that clear took effect or nothing was stored |
| `SocketPresence.UpdatesEnd` | backend/src/server/socketServer.ts:682-690 | Without new requests the queued updates come to an end |
| `SocketServer.Socket.HandleConversationOpened` | backend/src/server/socketServer.ts:704-760 | The coded handler, suspended at each call, leaves the socket idle with the old or the opened conversation active |
| `SocketServer.Socket.HandleConversationClosed` | backend/src/server/socketServer.ts:762-795 | Closes exactly the matching active conversation, whose presence is gone unless its clear failed |
| `SocketServer.Socket.Drain` | backend/src/server/socketServer.ts:682-690 | Running the queued updates one at a time keeps stored presence within the bounds above |
| `SocketServer.Socket.ValidateSocketSession` | backend/src/server/socketServer.ts:718-732 | Opening goes on only with a valid session and a live connection, to the step the previous conversation calls for |
| `SocketServer.Socket.SafeClearConversationPresence` | backend/src/server/socketServer.ts:797-815 | A clear that fails is swallowed; the entry is gone unless it failed |
| `SocketServer.Socket.MarkConversation` | backend/src/server/socketServer.ts:734-759 | The conversation stays active whether or not its presence could be stored |
| `SocketServer.Socket.Disconnect` | backend/src/server/socketServer.ts:258-268 | Takes the connection down and enqueues the closing of whatever is active, once |
| `SocketServer.Socket.EnqueuePresenceUpdate` | backend/src/server/socketServer.ts:682-690 | Puts the update behind those that wait |
| `SocketPresence.RunKeepsInv` | backend/src/server/socketServer.ts:682-815 | Every step keeps what is stored within the active conversation and the leaked ones, and a close pending for a lost connection |

## Left out

- Real MongoDB, Redis, file system, gzip, AES-GCM and SHA-256: atomic steps, lists, write-once files, a text an archive decrypts to, and function parameters stand for them.
- Timers and randomness: a timeout may fire at any time while armed, jitter is any value in its range, and the waiting itself is not modelled.
- Logging, breadcrumbs, tracing maps and error redaction.
- `executeWithoutTransaction`, the read semaphore, the duration totals and the resetting of the metrics while calls run.
- UnitOfWork.Runner.ExecuteAdmitted: what other calls do to the semaphore while the transaction runs is gathered before the release, because the transaction itself never looks at it.
- UnitOfWork.BackoffDelay: how a timer treats a delay that is not finite.
- Outbox.Repository.ClaimPendingEvents: with a negative stale window only the length bound is stated, because the loop may then claim an event again.
- `getUnprocessedEvents`, the payload preparation of `saveEvent`, and the outbox worker that calls the repository.
- `executeOrQueue`, `clearQueues`, queue sizes, the Redis metrics, and a crash of the loop between a pop and the end of its handler.
- Strings are sequences of Unicode characters, compared in the order of their UTF-16 code units; lone surrogates and their escapes are not modelled.
- ForensicChain.VerifyBundle: compares numbers by their texts, as JsonText.Parse keeps them.
- JsonText.Parse: a number is its text, so in a stored bundle `1.0` is not the number `1`, which the code takes it for; bundles that were built hold `1`. The formatting of doubles, white space between JSON tokens, and dates that are not valid are not modelled.
- `parseEncryptionKey`, `utcWindow` and the configuration of the archive service.
- Lookups and projections after the paging stages, the trending and hydration pipelines, and `buildTrendingSnapshotPipeline`.
- Cursor encoding and signatures: a cursor is the key it carries, and what the database makes of a filter on an invalid date is not modelled.
- `findMessagesByConversation` with page numbers, negative limits, and the updates of read receipts.
- Telemetry averages and rates with their rounding; durations are real numbers, and TelemetrySummary computes the percentile index exactly where the code multiplies doubles.
- Socket authentication, session timers and rooms; the access and session checks are outcomes of awaited calls.
