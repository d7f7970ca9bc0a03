// src/services/execution-service.js over the job_executions and dead_letter_queue tables, and the retry
// route of src/api/routes/dlq.js.
module Executions {
  import opened Base
  import opened HistoryRows
  import opened JobRows
  import opened JsText
  import opened Streams

  /** A row of job_executions. */
  datatype Execution = Execution(
    jobId: JobId, workerId: WorkerId, status: ExecStatus, attempt: int, executionKey: string,
    startedAt: int, completedAt: Option<int>, durationMs: Option<int>,
    errorMessage: Option<string>, errorStack: Option<string>)

  /** A row of dead_letter_queue. */
  datatype DeadLetter = DeadLetter(
    jobId: JobId, handlerName: string, payload: string, errorMessage: string, errorStack: string,
    retryCount: int, maxRetries: int, failedAt: int, requeuedAt: Option<int>)

  type RowId = string

  type History = map<RowId, Execution>

  datatype StartResult = Recorded(id: RowId) | Duplicate | Rejected

  // ----- the execution key -----

  /** `${jobId}:${attempt}:${Date.now()}` */
  function KeyText(jobId: JobId, attempt: int, stamp: int): string {
    jobId + ":" + (ShowInt(attempt) + ":" + ShowInt(stamp))
  }

  lemma NoColon(n: int)
    ensures ':' !in ShowInt(n)
  {
    var digits := Show(if n < 0 then -n else n);
    assert forall i :: 0 <= i < |digits| ==> IsDigit(digits[i]);
    assert n < 0 ==> ShowInt(n) == ['-'] + digits;
  }

  lemma KeyParts(jobId: JobId, attempt: int, stamp: int)
    requires ':' !in jobId
    ensures SplitOn(KeyText(jobId, attempt, stamp), ':') == [jobId, ShowInt(attempt), ShowInt(stamp)]
  {
    hide ShowInt, SplitOn;
    NoColon(attempt);
    NoColon(stamp);
    SplitAtFirst(jobId, ':', ShowInt(attempt) + ":" + ShowInt(stamp));
    SplitAtFirst(ShowInt(attempt), ':', ShowInt(stamp));
    SplitWithout(ShowInt(stamp), ':');
  }

  /** Two execution keys are the same exactly when job, attempt and millisecond are. */
  lemma KeysEqualExactlyWhen(job: JobId, attempt: int, stamp: int, job': JobId, attempt': int, stamp': int)
    requires ':' !in job && ':' !in job'
    ensures KeyText(job, attempt, stamp) == KeyText(job', attempt', stamp') <==>
            job == job' && attempt == attempt' && stamp == stamp'
  {
    hide KeyText, ShowInt, SplitOn;
    KeyParts(job, attempt, stamp);
    KeyParts(job', attempt', stamp');
    ParseShownInt(attempt);
    ParseShownInt(attempt');
    ParseShownInt(stamp);
    ParseShownInt(stamp');
    if KeyText(job, attempt, stamp) == KeyText(job', attempt', stamp') {
      assert [job, ShowInt(attempt), ShowInt(stamp)][1] == [job', ShowInt(attempt'), ShowInt(stamp')][1];
      assert [job, ShowInt(attempt), ShowInt(stamp)][2] == [job', ShowInt(attempt'), ShowInt(stamp')][2];
      assert [job, ShowInt(attempt), ShowInt(stamp)][0] == [job', ShowInt(attempt'), ShowInt(stamp')][0];
    }
  }

  predicate KeyTaken(history: History, key: string) {
    exists r :: r in history && history[r].executionKey == key
  }

  function StartedRow(jobId: JobId, workerId: WorkerId, attempt: int, stamp: int, now: int): Execution {
    Execution(jobId, workerId, Running, attempt, KeyText(jobId, attempt, stamp), now, None, None, None, None)
  }

  /** INSERT ... ON CONFLICT (execution_key) DO NOTHING */
  function AfterStart(history: History, id: RowId, row: Execution): History {
    if KeyTaken(history, row.executionKey) then history else history[id := row]
  }

  /** The duplicate check does not recognise an attempt: right after one start of it has been recorded, a
      second start of the same job and attempt is refused exactly when it falls in the same millisecond. */
  lemma SecondStartRefusedExactlyWhen(
      history: History, jobId: JobId, attempt: int, w: WorkerId, v: WorkerId, id: RowId, stamp: int, stamp': int,
          now: int)
    requires ':' !in jobId && id !in history
    requires !KeyTaken(history, KeyText(jobId, attempt, stamp)) && !KeyTaken(history, KeyText(jobId, attempt, stamp'))
    ensures KeyTaken(AfterStart(history, id, StartedRow(jobId, w, attempt, stamp, now)),
            KeyText(jobId, attempt, stamp'))
            <==> stamp == stamp'
  {
    hide KeyText;
    KeysEqualExactlyWhen(jobId, attempt, stamp, jobId, attempt, stamp');
    var row := StartedRow(jobId, w, attempt, stamp, now);
    var after := AfterStart(history, id, row);
    assert after == history[id := row];
    assert id in after && after[id].executionKey == KeyText(jobId, attempt, stamp);
    forall r | r in after && r != id
      ensures after[r].executionKey != KeyText(jobId, attempt, stamp')
    {
      assert r in history && history[r] == after[r];
    }
  }

  // ----- the transitions of a history row -----

  function Finished(row: Execution, status: ExecStatus, now: int): Execution {
    row.(status := status, completedAt := Some(now), durationMs := Some(now - row.startedAt))
  }

  function FailedRow(row: Execution, now: int, errorMessage: string, errorStack: string): Execution {
    Finished(row, Failed, now).(errorMessage := Some(errorMessage), errorStack := Some(errorStack))
  }

  /** The columns of a history row that are written once. */
  predicate SameStart(a: Execution, b: Execution) {
    && a.jobId == b.jobId && a.workerId == b.workerId && a.attempt == b.attempt
    && a.executionKey == b.executionKey && a.startedAt == b.startedAt
  }

  /** UPDATE ... WHERE id = $1 */
  function PutRow(history: History, id: RowId, row: Execution): History {
    if id in history then history[id := row] else history
  }

  /** job.max_retries || parseInt(job.maxRetries || '5'), called without a maxRetries field. */
  function StoredMaxRetries(maxRetries: int): int {
    if maxRetries == 0 then 5 else maxRetries
  }

  class ExecutionService {
    var jobs: JobTable
    var history: History
    var deadLetters: map<RowId, DeadLetter>

    /** Keys are unique, and a row is finished exactly when it has an end and a duration, which agree. */
    ghost predicate Valid()
      reads this
    {
      && (forall r, s :: r in history && s in history && history[r].executionKey == history[s].executionKey ==> r == s)
      && (forall r :: r in history ==>
            var row := history[r];
            && (row.status.Running? <==> row.completedAt.None?)
            && (row.completedAt.Some? ==> row.durationMs == Some(row.completedAt.value - row.startedAt)))
    }

    constructor (jobs: JobTable)
      ensures Valid() && this.jobs == jobs && history == map[] && deadLetters == map[]
    {
      this.jobs, history, deadLetters := jobs, map[], map[];
    }

    /** `id` is a new UUID, `stamp` the worker's Date.now(). A taken key is a duplicate; a start for a job
        that has been deleted violates the foreign key. */
    method RecordStart(
        jobId: JobId, workerId: WorkerId, attempt: int, id: RowId, stamp: int, now: int) returns (r: StartResult)
      requires Valid() && id !in history
      modifies this`history
      ensures Valid()
      ensures r == Duplicate <==> old(KeyTaken(history, KeyText(jobId, attempt, stamp)))
      ensures r.Recorded? <==> r != Duplicate && jobId in jobs
      ensures r.Recorded? ==> r.id == id
      ensures history ==
              if r.Recorded? then old(history)[id := StartedRow(jobId, workerId, attempt, stamp, now)]
              else old(history)
      ensures r.Recorded? ==>
                var row := history[id];
                && row.jobId == jobId && row.workerId == workerId && row.attempt == attempt
                && row.executionKey == KeyText(jobId, attempt, stamp)
                && row.status.Running? && row.startedAt == now && row.completedAt == None && row.durationMs == None
                && row.errorMessage == None && row.errorStack == None
    {
      hide KeyText;
      var executionKey := KeyText(jobId, attempt, stamp);
      if KeyTaken(history, executionKey) {
        return Duplicate;
      }
      if jobId !in jobs {
        return Rejected;
      }
      history := history[id := StartedRow(jobId, workerId, attempt, stamp, now)];
      return Recorded(id);
    }

    method RecordSuccess(id: RowId, now: int)
      requires Valid()
      modifies this`history
      ensures Valid() && OnlyRow(old(history), history, id)
      ensures id in history ==>
                var (row, was) := (history[id], old(history)[id]);
                && row.status.Success? && row.completedAt == Some(now) && row.durationMs == Some(now - was.startedAt)
                && row.errorMessage == was.errorMessage && row.errorStack == was.errorStack && SameStart(row, was)
    {
      if id in history {
        history := PutRow(history, id, Finished(history[id], Success, now));
      }
    }

    method RecordFailure(id: RowId, errorMessage: string, errorStack: string, now: int)
      requires Valid()
      modifies this`history
      ensures Valid() && OnlyRow(old(history), history, id)
      ensures id in history ==>
                var (row, was) := (history[id], old(history)[id]);
                && row.status.Failed? && row.completedAt == Some(now) && row.durationMs == Some(now - was.startedAt)
                && row.errorMessage == Some(errorMessage) && row.errorStack == Some(errorStack) && SameStart(row, was)
    {
      if id in history {
        history := PutRow(history, id, FailedRow(history[id], now, errorMessage, errorStack));
      }
    }

    /** Keeps the error recorded by recordFailure. */
    method RecordDLQ(id: RowId, now: int)
      requires Valid()
      modifies this`history
      ensures Valid() && OnlyRow(old(history), history, id)
      ensures id in history ==>
                var (row, was) := (history[id], old(history)[id]);
                && row.status.Dlq? && row.completedAt == Some(now) && row.durationMs == Some(now - was.startedAt)
                && row.errorMessage == was.errorMessage && row.errorStack == was.errorStack && SameStart(row, was)
    {
      if id in history {
        history := PutRow(history, id, Finished(history[id], Dlq, now));
      }
    }

    /** `id` is a new UUID. The insert fails when the job has been deleted. The limit is stored as it was
        unless it is 0: a job with no retries allowed is recorded as having been allowed five. */
    method WriteToDLQTable(jobId: JobId, handlerName: string, payload: string, errorMessage: string, errorStack: string,
                           retryCount: int, maxRetries: int, id: RowId, now: int) returns (ok: bool)
      requires id !in deadLetters
      modifies this`deadLetters
      ensures ok == (jobId in jobs)
      ensures deadLetters ==
              if ok then old(deadLetters)[id := DeadLetter(jobId, handlerName, payload, errorMessage, errorStack,
                                                           retryCount, StoredMaxRetries(maxRetries), now, None)]
              else old(deadLetters)
      ensures ok ==> (deadLetters[id].maxRetries == maxRetries <==> maxRetries != 0)
      ensures ok && maxRetries == 0 ==> deadLetters[id].maxRetries == 5
    {
      ok := jobId in jobs;
      if ok {
        deadLetters := deadLetters[id := DeadLetter(jobId, handlerName, payload, errorMessage, errorStack,
                                                    retryCount, StoredMaxRetries(maxRetries), now, None)];
      }
    }

    /** POST /api/dlq/:id/retry. An unknown entry is a 404 and changes nothing; otherwise the job, if it
        still exists, is due at once with a whole retry budget, and the entry is stamped. */
    method RetryDeadLetter(id: RowId, now: int) returns (jobId: Option<JobId>)
      modifies this`jobs, this`deadLetters
      ensures jobId == if id in old(deadLetters) then Some(old(deadLetters)[id].jobId) else None
      ensures jobId.None? ==> jobs == old(jobs) && deadLetters == old(deadLetters)
      ensures jobId.Some? ==>
                && deadLetters == old(deadLetters)[id := old(deadLetters)[id].(requeuedAt := Some(now))]
                && (jobs ==
                    if jobId.value in old(jobs)
                    then old(jobs)[jobId.value := RequeueRow(old(jobs)[jobId.value], now)]
                    else old(jobs))
                && OnlyRow(old(jobs), jobs, jobId.value)
                && (jobId.value in jobs ==>
                      var (row, was) := (jobs[jobId.value], old(jobs)[jobId.value]);
                      && (forall t :: Due(row, t) <==> now <= t)
                      && row.retryCount == 0 && row.lastError == None && row.lastRunAt == was.lastRunAt
                      && SameDefinition(row, was))
    {
      if id !in deadLetters {
        return None;
      }
      var dlqEntry := deadLetters[id];
      if dlqEntry.jobId in jobs {
        jobs := jobs[dlqEntry.jobId := RequeueRow(jobs[dlqEntry.jobId], now)];
      }
      deadLetters := deadLetters[id := dlqEntry.(requeuedAt := Some(now))];
      return Some(dlqEntry.jobId);
    }
  }
}
