// The jobs table over a whole run, column by column: in every reachable state each column holds what the
// last event that writes it wrote. And what follows for paused jobs and for the retry limit of entries.
module LastWrites {
  import opened Base
  import opened JobRows
  import opened Protocol
  import opened MessagePaths
  import opened RowLocks
  import opened TerminalStates

  /** The columns one event writes; retry_count is the subject of RetryBudget. */
  datatype Columns = Columns(
    status: Option<Status>, nextRunAt: Option<Option<int>>, lastError: Option<Option<string>>,
    lastRunAt: Option<Option<int>>, lock: Option<Option<(string, int)>>, maxRetries: Option<int>)

  const NO_COLUMNS := Columns(None, None, None, None, None, None)

  /** What an event writes to the row of a job of this type. */
  function ColumnsOf(e: Event, kind: Kind): Columns {
    var freed := NO_COLUMNS.(lock := Some(None));
    match e
    case Create(_, _, row) =>
      Columns(Some(Active), Some(row.nextRunAt), Some(None), Some(None), Some(None), Some(row.maxRetries))
    case Pause(_, _) => NO_COLUMNS.(status := Some(Paused))
    case Resume(_, _, next) => NO_COLUMNS.(status := Some(Active), nextRunAt := Some(next))
    case TriggerDue(at, _) => freed.(nextRunAt := Some(Some(at)))
    case TriggerActivate(_, _) => NO_COLUMNS.(status := Some(Active))
    case Update(_, _, next, limit) => NO_COLUMNS.(nextRunAt := next, maxRetries := limit)
    case Unlock(_, _) => freed
    case Requeue(at, _, _) => freed.(status := Some(Active), nextRunAt := Some(Some(at)), lastError := Some(None))
    case Lock(at, _, _, r) => if Took(r) then NO_COLUMNS.(lock := Some(Some(("scheduler", at)))) else NO_COLUMNS
    case Recover(_, _, _, r) => if Took(r) then freed else NO_COLUMNS
    case Work(at, _, _, _, stage, r, arg, error) =>
      if !Took(r) then NO_COLUMNS
      else if stage.CompleteWrite? && kind.Cron? then
        freed.(nextRunAt := Some(arg), lastRunAt := Some(Some(at)), lastError := Some(None))
      else if stage.CompleteWrite? then
        freed.(status := Some(Completed), nextRunAt := Some(None), lastRunAt := Some(Some(at)))
      else if stage.FailJob? then
        freed.(status := if arg.None? then Some(FailedPermanent) else None, nextRunAt := Some(arg),
               lastError := Some(Some(error)))
      else NO_COLUMNS
    case _ => NO_COLUMNS
  }

  /** The job whose row an event can write. */
  predicate Concerns(e: Event, job: JobId) {
    match e
    case Create(_, j, _) => j == job
    case Pause(_, j) => j == job
    case Resume(_, j, _) => j == job
    case TriggerDue(_, j) => j == job
    case TriggerActivate(_, j) => j == job
    case Update(_, j, _, _) => j == job
    case Unlock(_, j) => j == job
    case Requeue(_, j, _) => j == job
    case Lock(_, _, j, _) => j == job
    case Recover(_, _, j, _) => j == job
    case Work(_, _, j, _, _, _, _, _) => j == job
    case _ => false
  }

  function Written(e: Event, job: JobId, kind: Kind): Columns {
    if Concerns(e, job) then ColumnsOf(e, kind) else NO_COLUMNS
  }

  function OrKept<V>(written: Option<V>, before: V): V {
    if written.Some? then written.value else before
  }

  /** The values last written, from a row not yet written. */
  datatype Values = Values(
    status: Status, nextRunAt: Option<int>, lastError: Option<string>, lastRunAt: Option<int>,
    lock: Option<(string, int)>, maxRetries: int)

  const NOTHING_YET := Values(Active, None, None, None, None, 0)

  function Overwritten(v: Values, c: Columns): Values {
    Values(OrKept(c.status, v.status), OrKept(c.nextRunAt, v.nextRunAt), OrKept(c.lastError, v.lastError),
           OrKept(c.lastRunAt, v.lastRunAt), OrKept(c.lock, v.lock), OrKept(c.maxRetries, v.maxRetries))
  }

  ghost function LastWritten(log: seq<Event>, job: JobId, kind: Kind): Values {
    if log == [] then NOTHING_YET
    else Overwritten(LastWritten(log[..|log| - 1], job, kind), Written(log[|log| - 1], job, kind))
  }

  function ValuesOf(row: Job): Values {
    Values(row.status, row.nextRunAt, row.lastError, row.lastRunAt,
           if row.lockedBy.Some? && row.lockedAt.Some? then Some((row.lockedBy.value, row.lockedAt.value)) else None,
           row.maxRetries)
  }

  ghost predicate Holds(row: Job, v: Values) {
    ValuesOf(row) == v && (row.lockedBy.Some? <==> row.lockedAt.Some?)
  }

  ghost predicate ColumnInv(jobs: JobTable, log: seq<Event>) {
    forall j :: j in jobs ==> Holds(jobs[j], LastWritten(log, j, jobs[j].kind))
  }

  /** One step overwrites the columns of its event and keeps the others. */
  ghost predicate Rewritten(s: World, e: Event, j: JobId, row: Job) {
    if e.Create? && e.job == j then Holds(row, Overwritten(NOTHING_YET, Written(e, j, row.kind)))
    else
      && j in s.jobs && row.kind == s.jobs[j].kind
      && ((s.jobs[j].lockedBy.Some? <==> s.jobs[j].lockedAt.Some?) ==>
            Holds(row, Overwritten(ValuesOf(s.jobs[j]), Written(e, j, row.kind))))
  }

  lemma WorkRewrites(s: World, e: Event, j: JobId)
    requires Legal(s, e) && e.Work? && j in Jobs(s, e)
    requires e.stage.CompleteWrite? && e.job in s.jobs ==> s.workers[e.worker].cron == s.jobs[e.job].kind.Cron?
    ensures Rewritten(s, e, j, Jobs(s, e)[j])
  {
    hide Answers;
  }

  lemma OthersRewrite(s: World, e: Event, j: JobId)
    requires Legal(s, e) && !e.Work? && j in Jobs(s, e)
    ensures Rewritten(s, e, j, Jobs(s, e)[j])
  {
    hide AtHead, Due, Triggerable, Lockable;
  }

  lemma CreateOverwritesAll(e: Event, job: JobId, kind: Kind, v: Values, w: Values)
    requires e.Create? && e.job == job
    ensures Overwritten(v, Written(e, job, kind)) == Overwritten(w, Written(e, job, kind))
  {
  }

  lemma ColumnStep(s: World, e: Event)
    requires LockInv(s) && TerminalInv(s) && ColumnInv(s.jobs, s.log) && Legal(s, e)
    ensures ColumnInv(Jobs(s, e), s.log + [e])
  {
    hide Overwritten, Written, ValuesOf;
    if e.Work? {
      WorkIsByItsWorker(s, e);
    }
    forall j | j in Jobs(s, e)
      ensures Holds(Jobs(s, e)[j], LastWritten(s.log + [e], j, Jobs(s, e)[j].kind))
    {
      var kind := Jobs(s, e)[j].kind;
      assert (s.log + [e])[..|s.log|] == s.log;
      if e.Work? {
        WorkRewrites(s, e, j);
      } else {
        OthersRewrite(s, e, j);
      }
      if e.Create? && e.job == j {
        CreateOverwritesAll(e, j, kind, LastWritten(s.log, j, kind), NOTHING_YET);
      }
    }
  }

  lemma {:induction false} ColumnsHold(log: seq<Event>)
    requires IsRun(log)
    ensures ColumnInv(After(log).jobs, After(log).log)
  {
    if |log| > 0 {
      var s, e := After(log[..|log| - 1]), log[|log| - 1];
      ColumnsHold(log[..|log| - 1]);
      LocksHold(log[..|log| - 1]);
      TerminalsHold(log[..|log| - 1]);
      ColumnStep(s, e);
    }
  }

  /** In every reachable state the status, fire time, last error, last run, lock and retry limit of a row are
      the last values written to them, by whatever interleaving of callers, loops and workers. */
  lemma RowIsLastWritten(log: seq<Event>, job: JobId)
    requires IsRun(log) && job in After(log).jobs
    ensures var (row, v) := (After(log).jobs[job], LastWritten(log, job, After(log).jobs[job].kind));
            && row.status == v.status && row.nextRunAt == v.nextRunAt && row.lastError == v.lastError
            && row.lastRunAt == v.lastRunAt && row.maxRetries == v.maxRetries
            && row.lockedBy == (if v.lock.Some? then Some(v.lock.value.0) else None)
            && row.lockedAt == (if v.lock.Some? then Some(v.lock.value.1) else None)
  {
    hide LastWritten;
    ColumnsHold(log);
    LogIsTheRun(log);
    assert Holds(After(log).jobs[job], LastWritten(log, job, After(log).jobs[job].kind));
  }

  // ----- paused jobs -----

  lemma {:induction false} StaysPaused(log: seq<Event>, job: JobId, kind: Kind, p: int)
    requires 0 <= p < |log| && log[p].Pause? && log[p].job == job
    requires forall i :: p < i < |log| ==> !Activates(log[i], job) && !(log[i].Create? && log[i].job == job)
    ensures !LastWritten(log, job, kind).status.Active?
    decreases |log|
  {
    if p < |log| - 1 {
      var front := log[..|log| - 1];
      StaysPaused(front, job, kind, p);
    }
  }

  /** A job that exists at some point of a run is not created later. */
  lemma {:induction false} NoSecondCreate(log: seq<Event>, p: nat, job: JobId)
    requires IsRun(log) && p <= |log| && IsRun(log[..p]) && job in After(log[..p]).created
    ensures job in After(log).created
    ensures forall i :: p <= i < |log| ==> !(log[i].Create? && log[i].job == job)
  {
    hide Legal, Apply;
    if p < |log| {
      var front := log[..|log| - 1];
      assert front[..p] == log[..p];
      NoSecondCreate(front, p, job);
      StaysCreated(After(front), log[|log| - 1], job);
    } else {
      assert log[..p] == log;
    }
  }

  lemma StaysCreated(s: World, e: Event, job: JobId)
    requires Legal(s, e) && job in s.created
    ensures job in Apply(s, e).created && !(e.Create? && e.job == job)
  {
  }

  /** Nothing picks a paused job: from a pause to the next resume, trigger or DLQ retry no getDueJobs returns it
      and no lockJob takes it, so no entry is published for it. */
  lemma PausedIsNeverPicked(log: seq<Event>, p: nat, q: nat)
    requires IsRun(log) && p < q < |log| && log[p].Pause?
    requires forall i :: p < i < q ==> !Activates(log[i], log[p].job)
    ensures !Picks(log[q], log[p].job)
  {
    hide Activates, Picks, LastWritten;
    var job, before := log[p].job, log[..q];
    StepIsLegal(log, q);
    PausedExists(before, p);
    NoSecondCreate(before, p, job);
    if Picks(log[q], job) {
      PicksActiveRow(After(before), log[q], job);
      assert forall i :: p < i < q ==> before[i] == log[i];
      StaysPaused(before, job, After(before).jobs[job].kind, p);
      RowIsLastWritten(before, job);
    }
  }

  lemma PausedExists(log: seq<Event>, p: nat)
    requires IsRun(log) && p < |log| && log[p].Pause?
    ensures IsRun(log[..p]) && log[p].job in After(log[..p]).created
  {
    hide TimeInv, GapInv, TicketInv, LoopInv;
    StepIsLegal(log, p);
    LocksHold(log[..p]);
    PausesExistingJob(After(log[..p]), log[p]);
  }

  lemma PausesExistingJob(s: World, e: Event)
    requires HeldInv(s.jobs, s.created, s.log) && Legal(s, e) && e.Pause?
    ensures e.job in s.created
  {
  }
}
