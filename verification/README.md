# Verified model of the distributed job scheduler

The repository runs jobs from a PostgreSQL table. An elected leader polls the table and publishes due
jobs to a Redis stream. Workers consume the stream, run handlers under a per-job Redis lock, record an
execution history, retry with backoff and finally move a job to a dead letter queue. This project
models that system in Dafny and proves what it guarantees, over every run and every input.

There are three layers.

**The protocol as a step system.** `Protocol` holds the shared state (job rows, lock keys, stream and
consumer group, history, dead letters) and one event per awaited call. Any number of API callers, poll
loops and workers interleave between any two awaits. Every call can be answered, or lost before or after
taking effect; workers and loops can crash anywhere; time passes freely. A run is a sequence of events
(`IsRun`), and `After` is the state it leads to. `Stages` is the control flow of `_executeJob` with one
stage per await. Token, history id and lock ticket of an execution are positions in the run, so they are
unique, as the UUIDs of the source are taken to be. The theorems are in `MessagePaths`, `RowLocks`,
`BoundedExecution`, `ExactlyOnce`, `StartCauses`, `DuplicateRun`, `SecondStarts`, `SerialExecution`,
`Outcomes`, `MessageAccounting`, `TerminalStates`, `LiveJobs`, `FinishedJobs`, `RetryBudget`,
`AttemptNumbers` and `ExecutionHistory`; concrete runs are put together from the steps in `RunSteps`.
`LastWrites`, `Tables`, `HistoryStatus` and `Crashes` say what the shared state holds after a run.
`CodeRuns`, `LoopRuns` and `LeaseCalls` show that the steps are those of the objects below.

**The objects.** `DistributedLock`, `LeaderElection`, `JobService`, `Streams`, `Executions`, `Worker` and
`Scheduler` are the source's classes with their fields, methods, loops, branches and error paths, each
method proved against the whole new state or against a specification function. The job-row statements
(`JobRows`), lock commands (`LeaseStore`), consumer group bookkeeping (`ConsumerGroup`), status column
(`HistoryRows`), stages and retry decision are the same definitions the protocol uses. `ExecutionPaths`
is `_executeJob` as a table of conditions, `PollDrain` follows repeated polls, and `Recurrence` the runs
of a recurring job.

**The arithmetic.** `JsText`, `CronField`, `Calendar`, `CronSearch`, `CronCompleteness`, `Schedules` and
`CronWitnesses` cover the cron engine from text to calendar, with dates as section 21.4.1 of ECMA-262
defines them. `Retry` covers the backoff over the reals.

## Where the code and its documentation differ

The model follows the code. Each of these has an exact statement below.

- Exactly-once does not hold without conditions. A second handler start has one of eight causes: the row
  lock gone stale after five minutes (`locked_at` is never refreshed while a handler runs), a manual unlock,
  a trigger, the unlock after a lost lock or publish reply, a failed attempt with a retry to come, a
  recurring completion, a resume or a DLQ retry. Without any of them there is none; each makes one possible
  by itself (`SecondStarts.SecondStartNeedsACause`, `StartCauses.StartsBoundedByCauses`). Nothing but a
  stale lock is left when nothing gives the job back before it completes; then a second start is possible
  exactly when the job takes more than five minutes from lock to completion, and needs no fault
  (`DuplicateRun.SecondStartPossibleExactlyWhen`).
- The execution key contains the time in milliseconds, so it does not recognise an attempt
  (`Executions.SecondStartRefusedExactlyWhen`).
- Jitter is added after the cap, so a delay can exceed `maxDelayMs` (`Retry.CapIsKeptExactlyWhen`).
- `getNextFireTime` is null for some valid expressions with later matches, and a recurring job then stays
  active without ever running again. The exact condition holds for every expression
  (`CronCompleteness.FoundExactlyWhen`, `Recurrence.SurvivesCompletionExactlyWhen`), with two such
  expressions in `CronWitnesses`.
- Day of month and day of week are both required, and Sunday is only 7 in the day-of-week field
  (`Schedules.TextFires`, `CronField.SundayIsSevenOnly`).
- A lost `lockJob` reply makes the loop unlock the row whoever holds it
  (`Scheduler.RejectedLockFreesTheHolder`).
- Resuming an immediate job never makes it due (`JobService.ResumedRowDue`). Triggering a finished job sets
  it active, and runs it exactly when its row still has a fire time (`JobService.TriggeredFinishedRowDue`):
  never straight after it finished, but after a lost acknowledge, whose failure path gives the completed row
  a retry time (`FinishedJobs.LostAcknowledgeLeavesFireTime`).
- A consumer group lost after the first `initialize` is not created again, and one created anew delivers
  every entry of the stream again (`Streams.StreamManager.Consume`).
- A job with `max_retries` 0 is stored in `dead_letter_queue` as having been allowed five retries
  (`Executions.ExecutionService.WriteToDLQTable`).

## Model

| member | source | states |
|---|---|---|
| BoundedExecution.BoundedHandlerStarts | src/scheduler/scheduler.js:88-115 | In every run, per job: handler starts <= entries published <= successful lockJob calls <= 1 + lock-clearing writes + locks retaken after five minutes |
| BoundedExecution.EachStageAtMostOnce | src/worker/worker.js:81-212 | One stream entry reaches each call of `_executeJob` at most once in a run: one handler start, one completion, one failure |
| BoundedExecution.PublishHasItsOwnLock | src/scheduler/scheduler.js:95-105 | No double enqueue with any number of loops: every entry has its own earlier successful lockJob, taken after the row was read |
| BoundedExecution.UnclearedLocksSpread | src/services/job-service.js:157-171 | k locks of a job with no clear between them span more than (k - 1) * 5 minutes |
| RowLocks.LocksHold | src/services/job-service.js:157-206 | In every reachable state, a lock not cleared since is still on the row, and two locks of a job are separated by a clear or by more than five minutes |
| ExactlyOnce.StartsExactlyOnce | src/worker/worker.js:102-162 | A one-time job whose first lock-clearing write is a completion within five minutes of every lock before it, and that is never resumed, triggered or requeued, has exactly one lock, one entry and one handler start |
| StartCauses.StartsBoundedByCauses | src/scheduler/scheduler.js:88-115 | In every run, per job and without any hypothesis: handler starts <= 1 + writes that give the job back + locks retaken after five minutes; a write gives it back when it clears the lock without ending the job, or activates the ended job |
| StartCauses.StartsOfUnactivatedJob | src/services/job-service.js:157-249 | For a job never resumed, triggered or requeued, only the lock-clearing writes that do not end it and the retaken locks count |
| SecondStarts.SecondStartNeedsACause | README.md:217-227 | For every set of the eight causes: a run in which only these occur can start a handler twice exactly when the set is not empty; so each cause suffices by itself and there is no other |
| SecondStarts.NoCauseNoSecondStart | src/scheduler/scheduler.js:88-115 | Where nothing gave the job back and no lock was retaken, its handler starts at most once, whatever is lost, refused or crashes |
| SecondStarts.LostPublishStartsAgain | src/scheduler/scheduler.js:105-113 | The publish takes effect, its reply is lost and the loop unlocks the row: a run within a millisecond in which the one-time job completes and its handler starts twice |
| SecondStarts.StaleLockStartsAgain | src/services/job-service.js:157-171 | A run in which every call succeeds, with no cause but the stale lock, and two handler starts |
| SecondStarts.EveryCauseSuffices | src/worker/worker.js:157-204 | For each cause and every job and worker, a run with two handler starts in which nothing else gave the job back and, unless it is the cause, no lock had time to go stale |
| DuplicateRun.SecondStartPossibleExactlyWhen | README.md:217-227 | Only for runs where nothing gives the one-time job back before it completes (its row lock is first cleared by its completion, a given time after it was first locked, and it is never resumed, triggered or requeued): a second handler start is possible exactly when that time exceeds five minutes, whatever calls are refused or lost and whatever crashes; and then in a run in which every call succeeds |
| DuplicateRun.SlowHandlerStartsTwice | src/services/job-service.js:157-171 | For every longer time, such a run: the job lock is extended throughout, the job completes, and the handler starts again |
| SerialExecution.AtMostOneInSection | src/worker/worker.js:107-212 | In every reachable state at most one worker with a live lease is between acquire and release for a job |
| SerialExecution.ExecutionsAreSerial | src/worker/worker.js:107-212 | If leases stay live, the recordStart, handler, complete, fail and dead-letter calls of a job's executions form non-overlapping blocks over the whole run |
| SerialExecution.LeasesHold | src/lib/distributed-lock.js:50-104 | In every reachable state, a worker inside its section and within the TTL of its last grant has the key in Redis under its token |
| LeaseCalls.AcquireIsLockAcquire | src/lib/distributed-lock.js:50-61 | The acquire of an execution succeeds exactly when no live key is there, and has the effect and flag of the lock object |
| LeaseCalls.ExtendIsLockExtend | src/lib/distributed-lock.js:90-120 | So has a firing of the auto-extend |
| LeaseCalls.ReleaseIsLockRelease | src/lib/distributed-lock.js:67-84 | So has the release; a worker that lost its lock sends no command |
| LeaseCalls.OtherEventsKeepKeys | src/lib/distributed-lock.js:90-120 | No other step touches a key, but an extend still under way when its execution ended |
| MessagePaths.PathsHold | src/lib/stream-manager.js:89-132 | In every reachable state, undelivered, pending and acknowledged entries partition the stream, no two workers execute one entry, and its calls only move forward |
| MessageAccounting.EntryIsInOnePlace | src/lib/stream-manager.js:89-200 | Each published entry is in exactly one of undelivered, pending with one consumer, acknowledged, whatever crashes or throws |
| Crashes.GroupIsTheLog | src/lib/stream-manager.js:89-200 | In every run a pending entry is with the consumer it was last handed to, and an entry is acknowledged exactly when an acknowledge of it took effect |
| Crashes.CrashedEntryStaysPending | src/lib/stream-manager.js:165-200 | An entry whose worker crashed is never worked on again and, unless acknowledged before, stays pending for good, reclaimed or not |
| MessageAccounting.AcknowledgedMeansSettled | src/worker/worker.js:111-204 | An acknowledged entry had its lock refused, was judged a duplicate, or had completeExecution or failExecution return first; one entry never completes the job after failing it |
| MessageAccounting.DeadLettersNeverOutnumberFailures | src/worker/worker.js:186-196 | Per job: permanent failures >= DLQ stream entries >= DLQ table inserts |
| MessageAccounting.DeadLetterGaps | src/worker/worker.js:186-196 | Per job, each of the two gaps is the number of executions whose next call is missing, and it is missing exactly when a worker is paused before it, or was stopped there by a crash or a lost call |
| Outcomes.OutcomesHold | src/worker/worker.js:157-204 | In every reachable state, what each call presupposes has happened: a completion its recorded start, a DLQ entry its permanent failure, a DLQ row its entry |
| Outcomes.HandlerRunsOnlyAfter | src/worker/worker.js:111-155 | In every run, a start is recorded for an entry only after its lock was acquired and its handler found, and the handler runs only after its start was recorded |
| TerminalStates.TerminalStatesAbsorb | src/services/job-service.js:134-257 | A row that completed or failed permanently, without a resume, trigger or DLQ retry since, is never due, never lockable and never picked, whatever late executions or pauses write |
| LastWrites.RowIsLastWritten | src/services/job-service.js:157-341 | In every reachable state the status, fire time, last error, last run, lock and retry limit of a row are what the last event writing them wrote |
| LastWrites.PausedIsNeverPicked | src/services/job-service.js:134-171 | From a pause to the next resume, trigger or DLQ retry the job is never due and never locked |
| LiveJobs.NoJobIsLost | src/services/job-service.js:134-171 | In every reachable state an active row is ever due exactly when it has a fire time, and then exactly from that time, or from five minutes after its lock if that is later, whatever crashed |
| LiveJobs.ActiveRowHasFireTime | src/services/job-service.js:177-293 | In every run an active row has a fire time, so it comes up again, unless a creation, resume or update gave it none, a trigger activated it, or it is recurring and completed with no next time |
| RetryBudget.RetryCountIsFailures | src/services/job-service.js:189-238 | In every reachable state `retry_count` is the number of failExecution calls since creation or the last reset |
| RetryBudget.AttemptIsOneMoreThanCount | src/lib/stream-manager.js:72 | The attempt of every entry is one more than the failures counted when its row was read |
| AttemptNumbers.AttemptsCountUp | src/worker/worker.js:176-201 | With one entry outstanding at a time and no reset, the n-th entry of a job carries attempt n |
| AttemptNumbers.FailsPermanentlyAtBudget | src/worker/worker.js:176-201 | An always-failing job fails permanently exactly at attempt max(1, maxRetries), and has at most that many entries and handler starts |
| ExecutionHistory.HistoryOnlyMovesUp | src/services/execution-service.js:48-89 | Between any two points of a run a history row's status only moves up running < success < failed < dlq, for the same job and entry |
| HistoryStatus.StatusIsLastWritten | src/services/execution-service.js:48-89 | In every run the status of a history row is what the last of the three recording calls for its entry wrote |
| Tables.HistoryIsTheLog | src/services/execution-service.js:19-43 | In every reachable state job_executions holds exactly the recorded starts of existing jobs, each with the job, worker, entry and key of its start, and no key twice |
| Tables.DeadLettersAreTheLog | src/services/execution-service.js:94-110 | dead_letter_queue holds exactly the dead letters of existing jobs, stamped with their last retry, and the DLQ stream all ever sent, in order |
| Tables.RequeueHasDeadLetter | src/api/routes/dlq.js:92-110 | In every run a DLQ retry requeues a job only on account of a dead letter of it written before |
| Tables.ReferencesHold | src/db/migrate.js:51-75 | No history row and no dead letter refers to a job that does not exist |
| Tables.DeletedJobIsGone | src/services/job-service.js:343-351 | A job exists exactly when it was created and never deleted; a deleted one leaves no history and no dead letter, whatever late executions do |
| Tables.NotFoundMeansDeleted | src/services/job-service.js:180-181 | completeExecution finds no row only for a job deleted before |
| Stages.AdvanceMovesForward | src/worker/worker.js:102-212 | Whatever a call answers, control moves strictly forward through the stages, so an execution ends |
| Worker.Worker.ExecuteJob | src/worker/worker.js:102-212 | The code with its try, catch and finally makes exactly the calls of the stage machine; it throws exactly when the message was not acknowledged or the release was rejected; what `currentJob` is left as |
| Worker.Worker.Try | src/worker/worker.js:128-162 | The try block ends at the catch block's entry exactly when it throws, and at the release otherwise |
| Worker.Worker.Handle | src/worker/worker.js:166-204 | The catch block always ends at the release, and throws exactly when one of its own calls was rejected |
| Worker.SettledExactlyWhen | src/worker/worker.js:111-204 | Over all answers, an acknowledge returns exactly when no rejected call escapes: a failed handler, a lost success record or a lost acknowledge still ends acknowledged |
| Worker.ReleasedExactlyWhenAcquired | src/worker/worker.js:206-211 | The lock is released, as the last call, exactly when it was acquired |
| ExecutionPaths.CalledExactlyWhen | src/worker/worker.js:102-212 | Each of the seventeen calls of an execution is made exactly under a condition on the answers of the calls before it, for all answers |
| ExecutionPaths.HandlerRunsExactlyWhen | src/worker/worker.js:111-155 | A start is recorded exactly when the lock was acquired and the handler is registered, and the handler runs exactly when the start was recorded too |
| ExecutionPaths.CallsInOrder | src/worker/worker.js:102-212 | The calls come in the order of the code, each with its own answer |
| CodeRuns.RunsFollowTheCode | src/worker/worker.js:81-212 | In every run, the calls made for an entry are the beginning of one execution of the code, and all of it once its worker is done and did not crash |
| DistributedLock.Lock.Acquire | src/lib/distributed-lock.js:50-61 | Succeeds exactly when the key is absent or expired, then holds it for the TTL; a rejected call keeps the flag as it was, also when it took the key |
| DistributedLock.Lock.Release | src/lib/distributed-lock.js:67-84 | Deletes the key exactly when it is held under this token; the interval ends either way, and the flag unless the call is rejected |
| DistributedLock.Lock.Extend | src/lib/distributed-lock.js:90-104 | Renews the TTL exactly when the key is held under this token; an answer of no gives up the flag, a rejected call keeps it |
| DistributedLock.Lock.AutoExtend | src/lib/distributed-lock.js:111-120 | One firing of the interval: an answer of no also stops the interval, and a rejected extend leaves it running |
| DistributedLock.KeyStep | src/lib/distributed-lock.js:16-31 | Any one command keeps the leases granted on a key in order and the newest in agreement with Redis |
| DistributedLock.LeasesAreDisjoint | src/lib/distributed-lock.js:50-104 | For every interleaving of acquires, extends, releases, expiries and crashes, lease intervals granted on one key never overlap |
| DistributedLock.CommandsGrant | src/lib/distributed-lock.js:50-104 | In every reachable state an acquire is granted exactly when no lease on the key runs; an extend or release under the token of the running one moves its end and nothing else; after a release none runs |
| DistributedLock.LiveExactlyWhileRunning | src/lib/distributed-lock.js:50-104 | A key is live exactly while a granted lease runs |
| DistributedLock.StaleHoldersAreHarmless | src/lib/distributed-lock.js:16-31 | No command under another token or key touches a live entry |
| LeaderElection.Election.RunElection | src/lib/leader-election.js:67-104 | Every branch: stopped, already leader, won, refused, rejected before or after taking effect |
| LeaderElection.Election.Renew | src/lib/leader-election.js:109-142 | Leadership survives a renewal exactly when the key still carried the node's token and the reply arrived |
| LeaderElection.Election.Stop | src/lib/leader-election.js:44-62 | Resigning deletes the key only if it still carries the node's token; a rejected release throws and leaves isLeader set on the stopped node |
| LeaderElection.OneTimedLeader | src/lib/leader-election.js:67-142 | In every reachable state at most one node has isLeader and a successful acquire or extend within the last TTL of Redis time, with calls that never arrive and replies that never return |
| LeaderElection.SuccessorKeepsItsKey | src/lib/leader-election.js:44-62 | A resigning, deposed or late node never removes or renews its successor's key |
| LeaderElection.Election.Start | src/lib/leader-election.js:35-39 | The node takes part and runs a first election at once |
| LeaderElection.ElectionIsRunElection | src/lib/leader-election.js:67-104 | In the cluster, an election call and its reply do what the method ensures, for every outcome of the call |
| LeaderElection.RenewalIsRenew | src/lib/leader-election.js:109-142 | So do a renewal and its reply; an extend that took effect moves the grant |
| LeaderElection.ResignationIsStop | src/lib/leader-election.js:44-62 | So do a stop and its reply |
| LeaderElection.FreeKeyIsWon | src/lib/leader-election.js:67-104 | From every cluster reached, a node that joins and tries while no live key is there becomes leader, with the key under its token, and is current for one TTL |
| LeaderElection.CrashedNodeIsGone | src/lib/leader-election.js:67-142 | A crash leaves the key to expire; until it joins again the node leads nothing and none of its calls or replies takes place |
| JobService.JobService.GetDueJobs | src/services/job-service.js:134-149 | Distinct due rows in order of next_run_at, as many as the limit allows, none later than a due row left out |
| JobService.JobService.LockJob | src/services/job-service.js:157-171 | Succeeds exactly on an active row that is unlocked or locked over five minutes ago, without looking at next_run_at; the row is then lockable again only after five minutes, and otherwise as it was |
| JobService.JobService.CompleteExecution | src/services/job-service.js:177-206 | A one-time job is completed and never due again; a recurring one keeps its status, starts over with count 0 and no error, and is due from its next time on if active, never without one; the lock is gone, the run is dated, and no other column or row changes |
| JobService.JobService.FailExecution | src/services/job-service.js:214-238 | One more failure counted, the error stored and the lock gone; due from the retry time on if the row was active, and failed for good and never lockable again without a retry time; no other column or row changes |
| JobService.JobService.UnlockJob | src/services/job-service.js:243-249 | Clears the two lock columns of one row and nothing else |
| JobService.JobService.PauseJob | src/services/job-service.js:254-257 | A paused row can be locked at no time, and keeps every other column |
| JobService.JobService.ResumeJob | src/services/job-service.js:262-279 | A missing job is an error; otherwise active, and due at exactly the times past its lock and past the next time of a recurring job, or the scheduled time of a delayed one still to come; every other column as it was |
| JobService.JobService.TriggerNow | src/services/job-service.js:284-293 | Active in every case; free and due from now exactly if it was active or paused; every other column as it was |
| JobService.JobService.UpdateJob | src/services/job-service.js:298-341 | Refuses a bad cron expression with no change; otherwise the row gets exactly the update asked for, column by column, with next_run_at recomputed exactly when an expression is supplied |
| JobService.BuildUpdate | src/services/job-service.js:298-341 | For every combination of fields, the SET list built, with its placeholders and values, means the direct record update on any row |
| JobService.EmptyTextIsNoUpdate | src/services/job-service.js:304-331 | An empty text updates nothing, as if absent; a limit of 0 is an update |
| JobService.InterpretAppend | src/services/job-service.js:304-331 | A clause pushed with the next placeholder refers to the value pushed with it, and no other clause changes meaning |
| JobService.ResumedRowDue | src/services/job-service.js:262-279 | A resumed row, locked or not, is ever due exactly when recurring with a next time, or delayed with its time to come |
| JobService.TriggeredRowDue | src/services/job-service.js:284-293 | A triggered row is due at once exactly when it was active or paused, or already due but for its status |
| JobService.TriggeredFinishedRowDue | src/services/job-service.js:284-293 | Triggering a finished row, free or with a dated lock, sets it active, and it is then ever due exactly when it has a fire time |
| JobService.FinishedThenFailedRowDue | src/services/job-service.js:177-238 | A trigger runs nothing on a row straight after its completion or permanent failure, and runs a completed row again that failExecution gave a retry time since |
| FinishedJobs.LostAcknowledgeLeavesFireTime | src/worker/worker.js:162-204 | Such a row is reachable: the acknowledge after completeExecution is lost, failExecution follows with a retry time, and a trigger would run the completed job again |
| Streams.StreamManager.Initialize | src/lib/stream-manager.js:30-56 | Idempotent: an existing group keeps its position, pending entries and acknowledgements; a new one starts at the first entry with nothing pending |
| Streams.StreamManager.Publish | src/lib/stream-manager.js:63-79 | Appends one entry and keeps the partition of the stream |
| Streams.StreamManager.Consume | src/lib/stream-manager.js:89-122 | Hands over the next undelivered entries, decoded and pending with the caller; without a group nothing, and the group is created at the first entry only on the first initialize |
| Streams.StreamManager.Acknowledge | src/lib/stream-manager.js:128-132 | A pending entry becomes acknowledged; any other id changes nothing |
| Streams.StreamManager.SendToDLQ | src/lib/stream-manager.js:139-155 | The new last entry of the dead letter stream reads back as the message's job, handler, payload and attempt with the error, and the earlier entries stay |
| Streams.StreamManager.ReclaimStale | src/lib/stream-manager.js:165-200 | Moves the first stale pending entries, at most ten, to the claimer; all stay pending and no other claim changes |
| Streams.DecodeFields | src/lib/stream-manager.js:106-109 | The decode loop computes the map that decoding is proved about |
| Streams.DecodeFlattened | src/lib/stream-manager.js:66-75 | Decoding undoes the flat encoding of any list of distinct keys |
| Streams.LaterFieldWins | src/lib/stream-manager.js:106-109 | Of a repeated key the last value counts |
| Streams.PublishedJobIsRead | src/lib/stream-manager.js:63-110 | A consumed message carries the published job; its attempt parses to retry_count + 1 and its limit to max_retries |
| Streams.DeadLetterKeepsMessage | src/lib/stream-manager.js:139-155 | The dead letter entry of a message keeps its job, handler, payload and attempt, and always has an error message |
| Executions.ExecutionService.RecordStart | src/services/execution-service.js:19-43 | Refused exactly when the key is taken; keys stay unique; a deleted job is a rejection; every column of the new row |
| Executions.ExecutionService.RecordSuccess | src/services/execution-service.js:48-58 | Status success, end and duration; error, start columns and all other rows as they were |
| Executions.ExecutionService.RecordFailure | src/services/execution-service.js:63-74 | Status failed, end, duration and the error given; start columns and all other rows as they were |
| Executions.ExecutionService.RecordDLQ | src/services/execution-service.js:79-89 | Status dlq, end and duration; the error recorded before, start columns and all other rows as they were |
| Executions.ExecutionService.WriteToDLQTable | src/services/execution-service.js:94-110 | A row is added exactly for an existing job; its stored limit is the true one exactly when that is not 0, and 5 otherwise |
| Executions.ExecutionService.RetryDeadLetter | src/api/routes/dlq.js:86-125 | An unknown entry changes nothing; otherwise the job is due exactly from now on with count 0 and no error, the entry is stamped, and no other column or row changes |
| Executions.KeysEqualExactlyWhen | src/services/execution-service.js:22 | Execution keys are equal exactly when job, attempt and millisecond are |
| Executions.SecondStartRefusedExactlyWhen | src/services/execution-service.js:22-35 | A second start of the same attempt is refused exactly when it falls in the same millisecond |
| Scheduler.Scheduler.EnqueueOne | src/scheduler/scheduler.js:95-113 | The row and the stream after lock, publish and unlock, for every combination of rejected calls and every state of the row |
| Scheduler.Scheduler.EnqueueDueJobs | src/scheduler/scheduler.js:88-115 | A pass handles each row of a due batch once, in order; every row and entry is as its own calls left it, and nothing else changes |
| Scheduler.Scheduler.PollLoop | src/scheduler/scheduler.js:67-83 | A stopped scheduler does nothing; errors never end the polling; the timer is re-armed exactly while running |
| Scheduler.PublishedTwiceExactlyWhen | src/scheduler/scheduler.js:95-113 | A published job is left due exactly when its publish was rejected after taking effect and the unlock took effect |
| Scheduler.StrandedExactlyWhen | src/scheduler/scheduler.js:95-113 | A job is left locked without a message exactly when the unlock was lost after an unpublished lock, and only for five minutes |
| Scheduler.RejectedLockFreesTheHolder | src/scheduler/scheduler.js:109-113 | A job locked by another loop becomes due again exactly when lockJob is rejected and the unlock takes effect |
| Scheduler.Scheduler.Start | src/scheduler/scheduler.js:30-45 | Nothing on a running scheduler; the groups are there before the first poll; a rejected initialize leaves it stopped |
| LoopRuns.HandlingIsEnqueueOne | src/scheduler/scheduler.js:94-114 | In the protocol, the steps of a loop for one row leave the row, the stream and the remaining batch as the method does, for every outcome of the calls |
| LoopRuns.FetchIsGetDueJobs | src/services/job-service.js:134-149 | In the protocol a loop fetches distinct due rows up to the limit, and can fetch whatever getDueJobs returns |
| LoopRuns.UnlocksOnlyAfterLoss | src/scheduler/scheduler.js:109-113 | In every run, a loop unlocks a row only after its own lock or publish of it was rejected |
| LoopRuns.CrashedLoopNeverPublishes | src/scheduler/scheduler.js:95-105 | In every run, a lock whose loop crashed before publishing never gets an entry |
| PollDrain.EnqueueIsAPass | src/scheduler/scheduler.js:88-115 | Without rejected calls a pass locks its batch and publishes one entry per job, in order |
| PollDrain.PassesDrain | src/scheduler/scheduler.js:67-115 | k passes publish exactly once each the min(10k, n) of the n eligible rows with the smallest next_run_at, in that order; all of them once 10k >= n |
| Retry.BackoffBounds | src/lib/retry.js:16-33 | For every draw the delay is non-negative and within the jitter factor plus half a millisecond of min(base * 2^n, max) |
| Retry.RoundIsNearest | src/lib/retry.js:32 | Rounding gives the nearest whole number, the larger one at a half |
| Retry.DelayAtDraws | src/lib/retry.js:30-32 | The smallest draw gives 0.8 times the nominal delay and the middle one the nominal delay, rounded |
| Retry.DelayGrowsWithDraw | src/lib/retry.js:30-32 | A larger draw never gives a shorter delay |
| Retry.RetryTimeBounds | src/lib/retry.js:40-43 | A retry is never scheduled in the past, and between 0.8 and 1.2 times the nominal delay ahead, up to half a millisecond |
| Retry.DelaysIncrease | src/lib/retry.js:16-33 | Below the cap, with a whole base of at least 1 ms, every possible delay is shorter than every possible next one |
| Retry.TotalWait | src/worker/worker.js:176-179 | The waits before the dead letter queue add up to at most 1.2 * base * (2^M - 2) + (M - 1) / 2, and to at most M - 1 jittered caps |
| Retry.TotalWaitAtLeast | src/worker/worker.js:176-179 | Uncapped, the waits add up to at least 0.8 * base * (2^M - 2) - (M - 1) / 2 |
| Retry.CapIsKeptExactlyWhen | src/lib/retry.js:24-32 | No draw exceeds the cap exactly when 1.2 times the nominal delay is at most the cap plus half a millisecond |
| Retry.ConfiguredCap | src/config.js:44-45 | With the configured delays the cap is kept exactly up to attempt 7 |
| JsText.SplitJoin | src/lib/cron-parser.js:67 | Splitting a joined list at its separator gives the list back |
| JsText.ParseWritten | src/lib/cron-parser.js:76-101 | parseInt and Number read back every written number, with any number of leading zeros |
| JsText.ParsePrefix | src/lib/cron-parser.js:76-101 | parseInt reads a written number up to the first character that is no digit |
| JsText.EveryNumeral | src/lib/cron-parser.js:76-101 | Every text of digits is a written number, so the field theorems cover every such text |
| JsText.NotANumber | src/lib/cron-parser.js:76-101 | What is NaN to parseInt and to Number, and that Number of nothing is 0 |
| JsText.FieldsSpaced | src/lib/cron-parser.js:29 | Trimming and splitting on white space reads back fields with any blanks before, between and after them |
| CronField.StepLoop | src/lib/cron-parser.js:87-89 | The step loop accepts a value exactly when it is in the progression, NaN bounds and NaN step included |
| CronField.MatchesField | src/lib/cron-parser.js:63-105 | The loop over the parts computes membership, for every text whose steps parse to at least 1 |
| CronField.ItemLanguage | src/lib/cron-parser.js:69-101 | Each kind of part, with numbers written plain or with leading zeros, matches exactly the set it stands for |
| CronField.FieldLanguage | src/lib/cron-parser.js:63-105 | For every list of `*`, values, ranges and stepped ranges printed as text, matching is membership in its set, with Sunday as 7 |
| CronField.SundayIsSevenOnly | src/lib/cron-parser.js:65 | A literal 0 matches no day, and a range up to 6 does not match Sunday |
| CronField.OpenRanges | src/lib/cron-parser.js:94-98 | An open end of a range is 0: `-9` is 0 to 9 |
| CronField.LaterPiecesIgnored | src/lib/cron-parser.js:94-98 | Only the first two pieces of a range count |
| Calendar.FormulaAddsYears | src/lib/cron-parser.js:35-54 | The closed formula of ECMA-262 for the day of New Year adds up the lengths of the years, leap years included, before and after 1970 |
| Calendar.MonthsFollowPattern | src/lib/cron-parser.js:35-54 | The days before each month from March on follow the closed 153-day pattern, plus the leap day |
| Calendar.YearSpan | src/lib/cron-parser.js:35-54 | The decoded year of any day is the one whose days include it |
| Calendar.EncodeDecoded | src/lib/cron-parser.js:35-54 | Encoding the decoded year, month and date of any day gives the day back |
| Calendar.DecodeEncoded | src/lib/cron-parser.js:35-54 | Decoding an encoded date gives the date back |
| Calendar.LastDayIsMonthLength | src/lib/cron-parser.js:112 | Day 0 of the next month is the length of the month, across New Year and in leap years |
| Calendar.MinutesAreTicks | src/lib/cron-parser.js:53 | After n increments, the candidate's minute, hour, day, month, year and weekday are the start carried forward n minutes on a calendar clock |
| CronSearch.MatchesDayOfMonth | src/lib/cron-parser.js:110-117 | `L` is the last day of the month; otherwise the field's set |
| CronSearch.GetNextFireTime | src/lib/cron-parser.js:26-58 | The least firing minute after `after` and before the two-year limit, null exactly when there is none or the expression is invalid, in at most 731 * 1440 rounds |
| CronSearch.LimitSpan | src/lib/cron-parser.js:39-40 | The window is between 730 and 731 days long |
| CronSearch.SameNext | src/lib/cron-parser.js:26-58 | Restarting anywhere before the answer finds the same answer, if it finds one |
| CronSearch.RestartGives | src/lib/cron-parser.js:39-57 | A search restarted before the answer gives it again exactly when it still lies before the new limit, and null otherwise |
| CronSearch.IterationListsAll | src/lib/cron-parser.js:26-58 | Iterating the search lists every firing minute up to its last answer in order, and nothing else |
| Schedules.TextFires | src/lib/cron-parser.js:29-48 | A schedule written as text, however it is spaced, fires exactly on the minutes whose month, day (or last day, for `L`), weekday, hour and minute are all in their sets |
| Schedules.LastDayIsBeforeFirst | src/lib/cron-parser.js:110-117 | `L` fires exactly on the days before the first of a month |
| CronCompleteness.Complete | src/lib/cron-parser.js:26-58 | With every weekday, some hour and minute, and some accepted day of a common year (or `L`), a time is always found, at most 366 days ahead |
| CronCompleteness.FoundExactlyWhen | src/lib/cron-parser.js:26-57 | For every expression, a time is found exactly when month, day of month and weekday accept a date of this year with an accepted time to come, of next year with any accepted time, or of the year after next with an accepted time before the date and time of the search |
| CronCompleteness.FoundWithEveryWeekday | src/lib/cron-parser.js:39-57 | With every weekday accepted, a time is found exactly when an hour and minute are accepted and a day that exists in every year is, or 29 February is and one lies within reach |
| CronCompleteness.CompleteOnWeekdays | src/lib/cron-parser.js:26-58 | With seven dates in a row accepted, some weekday, hour and minute, a time is always found, at most 371 days ahead |
| CronCompleteness.CompleteWithinAWeek | src/lib/cron-parser.js:26-58 | With every month and day accepted, some weekday, hour and minute, such as `0 9 * * 1-5`, a time is always found within seven days |
| CronWitnesses.LeapDayBeyondLimit | src/lib/cron-parser.js:39-57 | `0 0 29 2 *` from 1 March 2024 gives null although 29 February 2028 matches |
| CronWitnesses.NewYearMondayBeyondLimit | src/lib/cron-parser.js:39-57 | `0 0 1 1 1` from 2 January 2024 gives null although 1 January 2029 matches |
| Recurrence.SurvivesCompletionExactlyWhen | src/services/job-service.js:186-197 | A recurring job is ever due after its completion exactly when its row is active and its expression has a date ahead within reach; otherwise it keeps its status with no fire time |
| Recurrence.SurvivesPauseExactlyWhen | src/services/job-service.js:262-279 | A resumed recurring job is ever due exactly when its expression has a date ahead within reach |

## Left out

- Internals of Redis, PostgreSQL and node-cron: each command or statement is one atomic step. `isValid` is a parameter, with the assumption that a valid expression has no step that parses to zero or less.
- Loss of Redis data: in the protocol the stream, its consumer group and the lock keys are never lost. BoundedExecution.EachStageAtMostOnce, BoundedExecution.BoundedHandlerStarts and SerialExecution.LeasesHold rest on that; a group created anew delivers every entry again (Streams.StreamManager.Consume).
- Two clocks: Redis, database and process time are one clock per module. The leader election and lock theorems are in Redis time.
- Local time zones and daylight saving: times are UTC milliseconds, without the range limit of a JavaScript date. The `timezone` column is never read by the calculator.
- Cron text with month or day names, signs, exponents or hexadecimal digits: `Number` and `parseInt` are modelled on digits and a leading minus sign.
- Floating-point rounding in the backoff: the arithmetic is over the reals.
- JSON: payloads are opaque text, `JSON.stringify` and `JSON.parse` are not applied to them, so the second stringify of `writeToDLQTable` is not visible.
- `FOR UPDATE SKIP LOCKED`: the query is its own transaction, so its row locks do not outlast it. Exclusion rests on `lockJob`.
- Handler timeouts as cancellation: the losing handler of the race keeps running. Exclusion is stated for the section between acquire and release, not for the handler body.
- Handler bodies, except that `detect-stale-jobs` and manual unlocks are the lock-clearing `Unlock` step of the protocol.
- Running a reclaimed message: `reclaimStale` results are discarded by the scheduler and `consume` reads only new entries, so a message left pending by a crash is never executed again (Crashes.CrashedEntryStaysPending).
- The `while` loop of `Worker.start`, its one-second pause and the 30-second wait of `stop`: in the protocol a free worker may consume at any step.
- `_reclaimLoop`, and a stopped loop that is still in flight when a new one starts: the protocol allows any number of poll loops at any time instead.
- `withLock`, the handler registry, the XPENDING fallback, job creation, listing, reading and deleting, discarding dead letters: no hard property.
- ExactlyOnce.StartsExactlyOnce: one direction, for runs whose first lock-clearing write is a completion in time, because a single run can also start a handler exactly once by luck after a stale lock or an unlock; when a second start is possible at all is SecondStarts.SecondStartNeedsACause.
- DuplicateRun.SecondStartPossibleExactlyWhen: does not cover runs in which the job is given back before it completes, by an unlock, a trigger or a retry; SecondStarts.SecondStartNeedsACause does.
- SerialExecution.ExecutionsAreSerial: assumes that every lease stays live until its release, which the source's auto-extend is there to provide but cannot guarantee.
- PollDrain.PassesDrain: all passes end within five minutes of the first fetch, because a row locked longer than that becomes eligible again.
- Streams.StreamManager.ReclaimStale: does not model the limit on how many pending entries XAUTOCLAIM scans in one call.
