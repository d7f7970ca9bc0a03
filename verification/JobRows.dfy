// Rows of the jobs table (src/db/migrate.js) and the SQL statements of
// src/services/job-service.js and src/api/routes/dlq.js, each as a function on one row.
module JobRows {
  import opened Base

  datatype Kind = Cron | Delayed | Immediate
  datatype Status = Active | Paused | Completed | FailedPermanent

  /** Times are milliseconds of the database clock; None is SQL NULL. */
  datatype Job = Job(
    name: string,
    kind: Kind,
    status: Status,
    cronExpression: Option<string>,
    scheduledAt: Option<int>,
    timezone: string,
    handlerName: string,
    payload: string,
    maxRetries: int,
    retryCount: int,
    lastError: Option<string>,
    lastRunAt: Option<int>,
    nextRunAt: Option<int>,
    lockedBy: Option<string>,
    lockedAt: Option<int>)

  type JobTable = map<JobId, Job>

  /** config.execution.batchSize */
  const BATCH_SIZE: nat := 10

  /** INTERVAL '5 minutes' */
  const LOCK_STALE_MS: int := 300000

  /** locked_by IS NULL OR locked_at < NOW() - INTERVAL '5 minutes' */
  predicate LockFree(row: Job, now: int) {
    row.lockedBy.None? || (row.lockedAt.Some? && row.lockedAt.value < now - LOCK_STALE_MS)
  }

  /** The WHERE clause of lockJob. */
  predicate Lockable(row: Job, now: int) {
    row.status.Active? && LockFree(row, now)
  }

  /** The WHERE clause of getDueJobs. */
  predicate Due(row: Job, now: int) {
    Lockable(row, now) && row.nextRunAt.Some? && row.nextRunAt.value <= now
  }

  /** getDueJobs can return the row at some time, if nothing writes it before. */
  ghost predicate EverDue(row: Job) {
    exists t :: Due(row, t)
  }

  /** When an active row with a fire time is due at the latest, whatever lock is on it. */
  function DueFrom(row: Job): int
    requires row.nextRunAt.Some?
  {
    var unlocked := if row.lockedAt.Some? then row.lockedAt.value + LOCK_STALE_MS + 1 else row.nextRunAt.value;
    if row.nextRunAt.value < unlocked then unlocked else row.nextRunAt.value
  }

  function LockRow(row: Job, holder: string, now: int): Job {
    row.(lockedBy := Some(holder), lockedAt := Some(now))
  }

  function UnlockRow(row: Job): Job {
    row.(lockedBy := None, lockedAt := None)
  }

  /** completeExecution: `cron` is the branch taken on the row read before, `next` the computed fire time. */
  function CompleteRow(row: Job, cron: bool, next: Option<int>, now: int): Job {
    if cron then
      UnlockRow(row).(lastRunAt := Some(now), nextRunAt := next, retryCount := 0, lastError := None)
    else
      UnlockRow(row).(lastRunAt := Some(now), status := Completed, nextRunAt := None)
  }

  /** failExecution: a retry when `retryAt` is given, otherwise a permanent failure. */
  function FailRow(row: Job, error: string, retryAt: Option<int>): Job {
    var failed := UnlockRow(row).(retryCount := row.retryCount + 1, lastError := Some(error), nextRunAt := retryAt);
    if retryAt.Some? then failed else failed.(status := FailedPermanent)
  }

  function PauseRow(row: Job): Job {
    row.(status := Paused)
  }

  function ResumeRow(row: Job, next: Option<int>): Job {
    row.(status := Active, nextRunAt := next)
  }

  /** The WHERE clause of triggerNow's first statement. */
  predicate Triggerable(row: Job) {
    row.status.Active? || row.status.Paused?
  }

  /** The two statements of triggerNow. */
  function TriggerRow(row: Job, now: int): Job {
    UnlockRow(row).(nextRunAt := Some(now))
  }

  function ActivateRow(row: Job): Job {
    row.(status := Active)
  }

  /** The reset of POST /api/dlq/:id/retry. */
  function RequeueRow(row: Job, now: int): Job {
    UnlockRow(row).(status := Active, retryCount := 0, lastError := None, nextRunAt := Some(now))
  }

  /** The columns of a job that only updateJob writes. */
  predicate SameDefinition(a: Job, b: Job) {
    && a.name == b.name && a.kind == b.kind && a.cronExpression == b.cronExpression && a.scheduledAt == b.scheduledAt
    && a.timezone == b.timezone && a.handlerName == b.handlerName && a.payload == b.payload
    && a.maxRetries == b.maxRetries
  }

  /** An UPDATE ... WHERE id = $1 writes nothing when the row is absent. */
  function Put(jobs: JobTable, id: JobId, row: Job): JobTable {
    if id in jobs then jobs[id := row] else jobs
  }
}
