// Every cause of a second handler start, with a run for each: together they are exactly what a second
// start needs.
module SecondStarts {
  import opened Base
  import opened JobRows
  import opened LeaseStore
  import opened Stages
  import opened Protocol
  import opened RowLocks
  import opened TerminalStates
  import opened BoundedExecution
  import opened StartCauses
  import opened RunSteps
  import opened DuplicateRun

  /** The row lock went stale; somebody unlocked or triggered the job; a loop unlocked it after a lost
      reply; an attempt failed with a retry to come; a recurring run completed; or an ended job was
      resumed or requeued from the dead letter queue. */
  datatype Cause = StaleLock | ManualUnlock | Trigger | Recovery | FailedAttempt | Recurrence | Resumption | DlqRetry

  function CauseOf(e: Event): Cause {
    match e
    case Unlock(_, _) => ManualUnlock
    case TriggerDue(_, _) => Trigger
    case TriggerActivate(_, _) => Trigger
    case Recover(_, _, _, _) => Recovery
    case Resume(_, _, _) => Resumption
    case Requeue(_, _, _) => DlqRetry
    case Work(_, _, _, _, stage, _, _, _) => if stage.FailJob? then FailedAttempt else Recurrence
    case _ => StaleLock
  }

  /** Whatever gave the job back or retook its lock has one of these causes. */
  ghost predicate OnlyBy(log: seq<Event>, created: map<JobId, Kind>, job: JobId, causes: set<Cause>) {
    forall i :: i in Reopenings(log, created, job) + Retakes(log, job) ==> 0 <= i < |log| && CauseOf(log[i]) in causes
  }

  ghost predicate StartsAgain(log: seq<Event>, job: JobId, causes: set<Cause>) {
    IsRun(log) && |HandlerStarts(log, job)| >= 2 && OnlyBy(log, After(log).created, job, causes)
  }

  lemma NothingWithoutCause(log: seq<Event>, created: map<JobId, Kind>, job: JobId)
    requires OnlyBy(log, created, job, {})
    ensures Reopenings(log, created, job) == {} && Retakes(log, job) == {}
  {
    hide Reopenings, Retakes;
    var reopenings, retakes := Reopenings(log, created, job), Retakes(log, job);
    forall i
      ensures i !in reopenings && i !in retakes
    {
      assert i in reopenings || i in retakes ==> i in reopenings + retakes;
    }
  }

  /** Without any cause a handler starts at most once. */
  lemma NoCauseNoSecondStart(log: seq<Event>, job: JobId)
    requires IsRun(log) && OnlyBy(log, After(log).created, job, {})
    ensures |HandlerStarts(log, job)| <= 1
  {
    StartsBoundedByCauses(log, job);
    NothingWithoutCause(log, After(log).created, job);
  }

  // ----- what the witness runs are built from -----

  /** All lock-clearing writes and activations of the job have the one cause, or end the job. */
  ghost predicate ClearsBy(log: seq<Event>, created: map<JobId, Kind>, job: JobId, cause: Cause) {
    forall i | 0 <= i < |log| && (Clears(log[i], job) || Activates(log[i], job)) :: Allowed(log[i], created, job, cause)
  }

  predicate Allowed(e: Event, created: map<JobId, Kind>, job: JobId, cause: Cause) {
    CauseOf(e) == cause || (Clears(e, job) && Ends(created, e))
  }

  lemma ContinuedClears(log: seq<Event>, longer: seq<Event>, created: map<JobId, Kind>, job: JobId, cause: Cause)
    requires ClearsBy(log, created, job, cause) && Continued(log, longer)
    ensures ClearsBy(longer, created, job, cause)
  {
    assert forall i :: 0 <= i < |log| ==> longer[i] == log[i];
  }

  lemma AppendedClears(log: seq<Event>, e: Event, created: map<JobId, Kind>, job: JobId, cause: Cause)
    requires ClearsBy(log, created, job, cause)
    requires Clears(e, job) || Activates(e, job) ==> Allowed(e, created, job, cause)
    ensures ClearsBy(log + [e], created, job, cause)
  {
  }

  /** A call of a worker that writes no outcome clears nothing. */
  lemma QuietCall(log: seq<Event>, e: Event, created: map<JobId, Kind>, job: JobId, cause: Cause)
    requires ClearsBy(log, created, job, cause) && e.Work? && !Outcome(e)
    ensures ClearsBy(log + [e], created, job, cause)
  {
    AppendedClears(log, e, created, job, cause);
  }

  lemma ContinuedIsLonger(log: seq<Event>, longer: seq<Event>)
    requires Continued(log, longer)
    ensures log <= longer
  {
  }

  lemma {:induction false} TimesAreNotNegative(log: seq<Event>)
    requires IsRun(log)
    ensures 0 <= After(log).now && forall i :: 0 <= i < |log| ==> 0 <= log[i].at
  {
    hide Legal, Apply;
    if |log| > 0 {
      var front, e := log[..|log| - 1], log[|log| - 1];
      TimesAreNotNegative(front);
      StepTime(After(front), e);
    }
  }

  lemma StepTime(s: World, e: Event)
    requires Legal(s, e)
    ensures s.now <= e.at == Apply(s, e).now
  {
  }

  /** A run with two starts, one cause, and no time for a lock to go stale unless that is the cause. */
  ghost predicate Witness(s: World, job: JobId, cause: Cause) {
    && Reached(s) && |HandlerStarts(s.log, job)| >= 2
    && ClearsBy(s.log, s.created, job, cause)
    && (cause.StaleLock? || s.now <= LOCK_STALE_MS)
  }

  lemma WitnessIsOnlyBy(s: World, job: JobId, cause: Cause)
    requires Witness(s, job, cause)
    ensures StartsAgain(s.log, job, {cause})
  {
    LocksHold(s.log);
    TimesAreNotNegative(s.log);
    LogIsTheRun(s.log);
    OnlyThisCause(s.log, s.now, s.created, job, cause);
  }

  lemma OnlyThisCause(log: seq<Event>, now: int, created: map<JobId, Kind>, job: JobId, cause: Cause)
    requires TimeInv(now, log) && (forall i :: 0 <= i < |log| ==> 0 <= log[i].at)
    requires ClearsBy(log, created, job, cause) && (cause.StaleLock? || now <= LOCK_STALE_MS)
    ensures OnlyBy(log, created, job, {cause})
  {
    forall i | i in Reopenings(log, created, job) + Retakes(log, job)
      ensures 0 <= i < |log| && CauseOf(log[i]) == cause
    {
      if i in Reopenings(log, created, job) {
        assert Allowed(log[i], created, job, cause);
      } else {
        assert Locks(log[i], job);
        assert log[i].at <= now;
      }
    }
  }

  /** A new job due at once. */
  function NewJob(kind: Kind, maxRetries: int): Job {
    Job("", kind, Active, Some("* * * * *"), Some(0), "", "", "", maxRetries, 0, None, None, Some(0), None, None)
  }

  /** The handler of a one-time job is running, and a second entry of the job is waiting. */
  ghost predicate Waiting(s: World, job: JobId, w: WorkerId) {
    && Ready(s, w, s.now, RunHandler) && s.now == 0 && s.workers.Keys == {w}
    && s.workers[w].job == job && s.workers[w].held && Holds(s.leases, job, s.workers[w].msg, 0)
    && s.loops == map[] && |s.stream| == s.delivered + 1 && s.stream[s.delivered].job == job
    && !s.jobs[job].kind.Cron? && OneTime(s.created, job)
    && (forall r :: r in s.history ==> s.history[r].key.2 == 0)
  }

  /** The waiting execution completes the job, in no time. */
  lemma Finishes(s: World, job: JobId, w: WorkerId, cause: Cause) returns (t: World)
    requires Waiting(s, job, w) && ClearsBy(s.log, s.created, job, cause)
    ensures Reached(t) && t.now == 0 && t.workers.Keys == {} && t.stream == s.stream && t.delivered == s.delivered
    ensures t.jobs == s.jobs[job := CompleteRow(s.jobs[job], false, None, 0)] && t.created == s.created
    ensures job !in t.leases && s.log <= t.log && ClearsBy(t.log, s.created, job, cause)
    ensures forall r :: r in t.history ==> t.history[r].key.2 == 0
  {
    hide Reached, ClearsBy, Continued;
    var s1 := Succeeds(s, w, 0);
    var s2 := CompletesJob(s1, w, 0);
    t := Leaves(s2, w, 0);
    ContinuedClears(s.log, s1.log, s.created, job, cause);
    var middle, e := s2.log[..|s1.log| + 1], s2.log[|s1.log| + 1];
    ContinuedClears(s1.log, middle, s.created, job, cause);
    AppendedClears(middle, e, s.created, job, cause);
    assert middle + [e] == s2.log;
    ContinuedClears(s2.log, t.log, s.created, job, cause);
    ContinuedIsLonger(s.log, s1.log);
    ContinuedIsLonger(s1.log, middle);
    ContinuedIsLonger(s2.log, t.log);
  }

  /** The first execution completes the job; the second starts the handler again. */
  lemma FinishesAndStartsAgain(s: World, job: JobId, w: WorkerId, start: int, cause: Cause) returns (t: World)
    requires Waiting(s, job, w) && ClearsBy(s.log, s.created, job, cause)
    requires 0 <= start < |s.log| && Starts(s.log[start], job)
    ensures Witness(t, job, cause) && t.now == 1 && job in t.jobs && t.jobs[job].status.Completed?
  {
    hide Reached, ClearsBy, Starts, Continued;
    var s1 := Finishes(s, job, w, cause);
    var s2 := Enters(s1, w, 1);
    t := Begins(s2, w, 1);
    ContinuedClears(s1.log, s2.log, s.created, job, cause);
    ContinuedClears(s2.log, t.log, s.created, job, cause);
    ContinuedIsLonger(s1.log, s2.log);
    ContinuedIsLonger(s2.log, t.log);
    assert t.log[start] == s.log[start];
    TwoStarts(t.log, job, start, |t.log| - 1);
  }

  /** A job with nothing running or waiting is enqueued and started once more. */
  lemma EnqueuesAndStartsAgain(s: World, job: JobId, w: WorkerId, at: int, start: int, cause: Cause) returns (t: World)
    requires Reached(s) && s.now <= at && 0 < at <= LOCK_STALE_MS && s.workers == map[] && s.loops == map[]
    requires |s.stream| == s.delivered && job in s.jobs && Due(s.jobs[job], at) && job !in s.leases
    requires forall r :: r in s.history ==> s.history[r].key.2 == 0
    requires ClearsBy(s.log, s.created, job, cause) && 0 <= start < |s.log| && Starts(s.log[start], job)
    ensures Witness(t, job, cause)
  {
    hide Reached, ClearsBy, Starts, Continued;
    var s1 := Enqueues(s, job, 0, at);
    var s2 := Enters(s1, w, at);
    t := Begins(s2, w, at);
    ContinuedClears(s.log, s1.log, s.created, job, cause);
    ContinuedClears(s1.log, s2.log, s.created, job, cause);
    ContinuedClears(s2.log, t.log, s.created, job, cause);
    ContinuedIsLonger(s.log, s1.log);
    ContinuedIsLonger(s1.log, s2.log);
    ContinuedIsLonger(s2.log, t.log);
    assert t.log[start] == s.log[start];
    TwoStarts(t.log, job, start, |t.log| - 1);
  }

  lemma StartsByNothing(log: seq<Event>, created: map<JobId, Kind>, job: JobId, cause: Cause)
    requires Continued([], log)
    ensures ClearsBy(log, created, job, cause)
  {
  }

  // ----- one run for each cause -----

  /** A handler that outlives the row lock, in a run in which every call succeeds. */
  lemma StaleLockStartsAgain(job: JobId, w: WorkerId) returns (s: World)
    ensures Witness(s, job, StaleLock) && AllAnswered(s.log)
  {
    hide Reached;
    s := SlowHandlerStartsTwice(job, NewJob(Immediate, 5), w, LOCK_STALE_MS + 1);
    AnsweredOutcomesEnd(s.log, s.created, job);
  }

  /** When every call succeeds, nothing but the completion of a one-time job clears its lock. */
  lemma AnsweredOutcomesEnd(log: seq<Event>, created: map<JobId, Kind>, job: JobId)
    requires AllAnswered(log) && OneTime(created, job) && NothingFails(log)
    ensures ClearsBy(log, created, job, StaleLock)
  {
    forall i | 0 <= i < |log| && (Clears(log[i], job) || Activates(log[i], job))
      ensures Allowed(log[i], created, job, StaleLock)
    {
      assert Answered(log[i]);
    }
  }

  /** The run of one enqueue and start, with a second enqueue after the write that gave the job back. */
  lemma EnqueuedAgain(s: World, r: World, job: JobId, w: WorkerId, e: Event, cause: Cause) returns (t: World)
    requires FirstRunning(s, job, NewJob(Immediate, 5), w) && s.now == 0
    requires Reached(r) && r.log == s.log + [e] && CauseOf(e) == cause && r.now == 0 && job in r.jobs
    requires Due(r.jobs[job], 0)
    requires r == s.(now := r.now, jobs := r.jobs, log := r.log) && r.jobs[job].kind.Immediate?
    ensures Waiting(t, job, w) && ClearsBy(t.log, t.created, job, cause) && s.log <= t.log
  {
    hide Reached, ClearsBy, Continued;
    t := Enqueues(r, job, 0, 0);
    StartsByNothing(s.log, s.created, job, cause);
    AppendedClears(s.log, e, s.created, job, cause);
    ContinuedClears(r.log, t.log, s.created, job, cause);
    ContinuedIsLonger(r.log, t.log);
  }

  /** Unlocked by hand, or by the detection of stale jobs, while its handler runs. */
  lemma UnlockStartsAgain(job: JobId, w: WorkerId) returns (s: World)
    ensures Witness(s, job, ManualUnlock)
  {
    hide Reached, Waiting, Witness, ClearsBy, Starts;
    var s0, start := FirstStart(job, NewJob(Immediate, 5), w);
    var s1 := Unlocks(s0, job, 0);
    var s2 := EnqueuedAgain(s0, s1, job, w, Unlock(0, job), ManualUnlock);
    assert s2.log[start] == s0.log[start];
    s := FinishesAndStartsAgain(s2, job, w, start, ManualUnlock);
  }

  /** Triggered while its handler runs. */
  lemma TriggerStartsAgain(job: JobId, w: WorkerId) returns (s: World)
    ensures Witness(s, job, Trigger)
  {
    hide Reached, Waiting, Witness, ClearsBy, Starts;
    var s0, start := FirstStart(job, NewJob(Immediate, 5), w);
    var s1 := Triggers(s0, job, 0);
    var s2 := EnqueuedAgain(s0, s1, job, w, TriggerDue(0, job), Trigger);
    assert s2.log[start] == s0.log[start];
    s := FinishesAndStartsAgain(s2, job, w, start, Trigger);
  }

  /** The publish reached the stream but its reply was lost, so the loop unlocked the row: a second entry
      follows, and the handler starts twice although the job completes at the time of its locks. */
  lemma LostPublishStartsAgain(job: JobId, w: WorkerId) returns (s: World)
    ensures Witness(s, job, Recovery) && s.now == 1 && job in s.jobs && s.jobs[job].status.Completed?
  {
    hide Reached, Waiting, Witness, Starts;
    var s3 := LostPublish(job);
    var s4 := Enqueues(s3, job, 0, 0);
    var s5 := Enters(s4, w, 0);
    var s6 := Begins(s5, w, 0);
    ContinuedClears(s3.log, s4.log, s6.created, job, Recovery);
    ContinuedClears(s4.log, s5.log, s6.created, job, Recovery);
    ContinuedClears(s5.log, s6.log, s6.created, job, Recovery);
    IsWaiting(s6, job, w);
    s := FinishesAndStartsAgain(s6, job, w, |s6.log| - 1, Recovery);
  }

  lemma IsWaiting(s: World, job: JobId, w: WorkerId)
    requires Ready(s, w, s.now, RunHandler) && s.now == 0 && s.workers.Keys == {w}
    requires s.workers[w].job == job && s.workers[w].held && Holds(s.leases, job, s.workers[w].msg, 0)
    requires s.loops == map[] && |s.stream| == s.delivered + 1 && s.stream[s.delivered].job == job
    requires !s.jobs[job].kind.Cron? && OneTime(s.created, job)
    requires forall r :: r in s.history ==> s.history[r].key.2 == 0
    ensures Waiting(s, job, w)
  {
  }

  lemma LostPublish(job: JobId) returns (s: World)
    ensures Reached(s) && ClearsBy(s.log, s.created, job, Recovery) && s.now == 0
    ensures s.jobs == map[job := UnlockRow(LockRow(NewJob(Immediate, 5), "scheduler", 0))]
    ensures s.created == map[job := Immediate]
    ensures |s.stream| == 1 && s.stream[0].job == job && s.delivered == 0
    ensures s.loops == map[] && s.workers == map[] && s.leases == map[] && s.history == map[]
  {
    hide Reached;
    var s0 := Creates(job, NewJob(Immediate, 5));
    var s1 := Fetches(s0, job, 0, 0);
    var s2 := LocksRow(s1, job, 0, 0);
    var s3 := LosesPublishReply(s2, job, 0, 0);
    s := Recovers(s3, job, 0, 0);
    assert s.loops == map[];
  }

  /** The handler of the first start throws. */
  lemma HandlerFails(job: JobId, row: Job, w: WorkerId, cause: Cause) returns (s: World, start: int)
    requires row == NewRow(row) && row.nextRunAt == Some(0)
    ensures Ready(s, w, 0, FailJob) && s.now == 0 && s.workers.Keys == {w} && s.workers[w].job == job
    ensures s.workers[w].msg == 0
    ensures s.workers[w].held && s.workers[w].record.Some? && s.loops == map[] && |s.stream| == s.delivered == 1
    ensures s.stream[0].attempt == 1 && s.stream[0].maxRetries == row.maxRetries
    ensures s.jobs == map[job := LockRow(row, "scheduler", 0)] && s.created == map[job := row.kind]
    ensures job in s.leases && s.leases[job] == Lease(0, JOB_LOCK_TTL_MS)
    ensures (forall r :: r in s.history ==> s.history[r].key.2 == 0) && ClearsBy(s.log, s.created, job, cause)
    ensures 0 <= start < |s.log| && Starts(s.log[start], job)
  {
    hide Reached, ClearsBy, Starts, Continued;
    var s0, first := FirstStart(job, row, w);
    start := first;
    StartsByNothing(s0.log, s0.created, job, cause);
    s := FailureRecorded(s0, w, job, cause);
    assert s.log[start] == s0.log[start];
  }

  lemma FailureRecorded(s: World, w: WorkerId, job: JobId, cause: Cause) returns (t: World)
    requires Ready(s, w, 0, RunHandler) && s.workers[w].record.Some? && ClearsBy(s.log, s.created, job, cause)
    ensures Reached(t) && t.now == 0 && t.jobs == s.jobs && t.leases == s.leases && t.created == s.created
    ensures t.stream == s.stream && t.delivered == s.delivered && t.loops == s.loops && s.log <= t.log
    ensures t.workers == s.workers[w := s.workers[w].(stage := FailJob)]
    ensures forall r :: r in t.history ==> r in s.history && t.history[r].key == s.history[r].key
    ensures ClearsBy(t.log, s.created, job, cause)
  {
    hide Reached, ClearsBy;
    var s1 := Throws(s, w, 0, RunHandler);
    QuietCall(s.log, No(s, w, 0), s.created, job, cause);
    t := PassesFailure(s1, w, 0, RecordFailure, FailJob);
    QuietCall(s1.log, Yes(s1, w, 0), s.created, job, cause);
  }

  /** The worker gives the job lock back after a failure. */
  lemma ReleasesAfterFailure(
      s: World, job: JobId, w: WorkerId, created: map<JobId, Kind>, cause: Cause) returns (t: World)
    requires Ready(s, w, 0, AckFailed) && s.now == 0 && s.workers.Keys == {w} && s.workers[w].job == job
    requires s.workers[w].msg == 0
    requires s.workers[w].held && s.workers[w].record.Some? && Holds(s.leases, job, 0, 0)
    requires ClearsBy(s.log, created, job, cause) && forall r :: r in s.history ==> s.history[r].key.2 == 0
    ensures Reached(t) && t.now == 0 && t.workers == map[] && t.loops == s.loops && t.stream == s.stream
    ensures t.delivered == s.delivered
    ensures t.jobs == s.jobs && t.created == s.created && job !in t.leases && t.dlqTable == s.dlqTable && s.log <= t.log
    ensures (forall r :: r in t.history ==> t.history[r].key.2 == 0) && ClearsBy(t.log, created, job, cause)
  {
    hide Reached, ClearsBy, Clears, Activates, Allowed;
    var s1 := PassesFailure(s, w, 0, AckFailed, Release);
    t := ReleasesLease(s1, w, 0);
    QuietCall(s.log, Yes(s, w, 0), created, job, cause);
    QuietCall(s1.log, Yes(s1, w, 0), created, job, cause);
    assert t.workers.Keys == {};
  }

  /** An attempt that fails with retries left is followed by another. */
  lemma RetryStartsAgain(job: JobId, w: WorkerId) returns (s: World)
    ensures Witness(s, job, FailedAttempt)
  {
    hide Reached, Witness, ClearsBy, Starts;
    var s0, start := HandlerFails(job, NewJob(Immediate, 5), w, FailedAttempt);
    var s1 := FailsRow(s0, w, 0, Some(1000));
    AppendedClears(s0.log, Fail(s0, w, 0, Some(1000)), s0.created, job, FailedAttempt);
    var s2 := ReleasesAfterFailure(s1, job, w, s0.created, FailedAttempt);
    assert s2.log[start] == s0.log[start];
    s := EnqueuesAndStartsAgain(s2, job, w, 1000, start, FailedAttempt);
  }

  /** failExecution without a retry time ends the job. */
  lemma PermanentFailure(s: World, job: JobId, w: WorkerId, cause: Cause) returns (t: World)
    requires Ready(s, w, 0, FailJob) && s.workers[w].job == job && !Retry(s.stream[s.workers[w].msg])
    requires ClearsBy(s.log, s.created, job, cause)
    ensures Reached(t) && Kept(s, t, Fail(s, w, 0, None)) && t.leases == s.leases && t.history == s.history
    ensures t.jobs == s.jobs[job := FailRow(s.jobs[job], "", None)]
    ensures t.workers == s.workers[w := s.workers[w].(stage := SendDlq)]
    ensures ClearsBy(t.log, s.created, job, cause)
  {
    hide Reached, ClearsBy;
    t := FailsRow(s, w, 0, None);
    AppendedClears(s.log, Fail(s, w, 0, None), s.created, job, cause);
  }

  /** The dead letter entry and row are written. */
  lemma WritesBothDeadLetters(s: World, job: JobId, w: WorkerId, cause: Cause) returns (t: World, entry: nat)
    requires Ready(s, w, 0, SendDlq) && s.workers[w].job == job && s.workers[w].record.Some?
    requires ClearsBy(s.log, s.created, job, cause)
    ensures Reached(t) && t.now == 0 && t.jobs == s.jobs && t.created == s.created && t.leases == s.leases
    ensures t.stream == s.stream && t.delivered == s.delivered && t.loops == s.loops && s.log <= t.log
    ensures t.workers == s.workers[w := s.workers[w].(stage := RecordDlq)]
    ensures entry in t.dlqTable && t.dlqTable[entry].job == job
    ensures forall r :: r in t.history ==> r in s.history && t.history[r].key == s.history[r].key
    ensures ClearsBy(t.log, s.created, job, cause)
  {
    hide Reached, ClearsBy;
    var s1 := PassesFailure(s, w, 0, SendDlq, WriteDlq);
    QuietCall(s.log, Yes(s, w, 0), s.created, job, cause);
    t := WritesDeadLetter(s1, w, 0);
    entry := |s1.log|;
    QuietCall(s1.log, Yes(s1, w, 0), s.created, job, cause);
  }

  /** The rest of the failure path: the dead letters are written and the lock is given back. */
  lemma DeadLettered(s: World, job: JobId, w: WorkerId, cause: Cause) returns (t: World, entry: nat)
    requires Ready(s, w, 0, SendDlq) && s.now == 0 && s.workers.Keys == {w} && s.workers[w].job == job
    requires s.workers[w].msg == 0
    requires s.workers[w].held && s.workers[w].record.Some? && Holds(s.leases, job, 0, 0)
    requires ClearsBy(s.log, s.created, job, cause) && forall r :: r in s.history ==> s.history[r].key.2 == 0
    ensures Reached(t) && t.now == 0 && t.workers == map[] && t.loops == s.loops && t.stream == s.stream
    ensures t.delivered == s.delivered
    ensures t.jobs == s.jobs && t.created == s.created && job !in t.leases && s.log <= t.log
    ensures entry in t.dlqTable && t.dlqTable[entry].job == job
    ensures (forall r :: r in t.history ==> t.history[r].key.2 == 0) && ClearsBy(t.log, s.created, job, cause)
  {
    hide Reached, ClearsBy, Outcome;
    var s1, written := WritesBothDeadLetters(s, job, w, cause);
    entry := written;
    var s2 := PassesFailure(s1, w, 0, RecordDlq, AckFailed);
    IsNoOutcome(s1, w);
    QuietCall(s1.log, Yes(s1, w, 0), s.created, job, cause);
    t := ReleasesAfterFailure(s2, job, w, s.created, cause);
  }

  lemma IsNoOutcome(s: World, w: WorkerId)
    requires w in s.workers && !s.workers[w].stage.FailJob? && !s.workers[w].stage.CompleteWrite?
    ensures !Outcome(Yes(s, w, 0))
  {
  }

  /** The only attempt fails, and the job is in the dead letter queue. */
  lemma FailsForGood(job: JobId, row: Job, w: WorkerId, cause: Cause) returns (s: World, start: int, entry: nat)
    requires row == NewRow(row) && row.nextRunAt == Some(0) && row.maxRetries == 1
    ensures Reached(s) && s.now == 0 && s.workers == map[] && s.loops == map[] && |s.stream| == s.delivered
    ensures s.jobs == map[job := FailRow(LockRow(row, "scheduler", 0), "", None)] && job !in s.leases
    ensures entry in s.dlqTable && s.dlqTable[entry].job == job
    ensures (forall r :: r in s.history ==> s.history[r].key.2 == 0) && ClearsBy(s.log, s.created, job, cause)
    ensures 0 <= start < |s.log| && Starts(s.log[start], job)
  {
    hide Reached, ClearsBy, Starts;
    var s0, first := HandlerFails(job, row, w, cause);
    start := first;
    var s1 := PermanentFailure(s0, job, w, cause);
    s, entry := DeadLettered(s1, job, w, cause);
    assert s.log[start] == s0.log[start];
  }

  /** A job that failed for good is retried from the dead letter queue. */
  lemma DlqRetryStartsAgain(job: JobId, w: WorkerId) returns (s: World)
    ensures Witness(s, job, DlqRetry)
  {
    hide Reached, Witness, ClearsBy, Starts;
    var s0, start, entry := FailsForGood(job, NewJob(Immediate, 1), w, DlqRetry);
    var s1 := Requeues(s0, job, entry, 0);
    AppendedClears(s0.log, Requeue(0, job, entry), s0.created, job, DlqRetry);
    assert s1.log[start] == s0.log[start];
    s := EnqueuesAndStartsAgain(s1, job, w, 1, start, DlqRetry);
  }

  /** A recurring job that failed for good is resumed. */
  lemma ResumeStartsAgain(job: JobId, w: WorkerId) returns (s: World)
    ensures Witness(s, job, Resumption)
  {
    hide Reached, Witness, ClearsBy, Starts;
    var s0, start, _ := FailsForGood(job, NewJob(Cron, 1), w, Resumption);
    var s1 := Resumes(s0, job, Some(60000), 0);
    AppendedClears(s0.log, Resume(0, job, Some(60000)), s0.created, job, Resumption);
    assert s1.log[start] == s0.log[start];
    s := EnqueuesAndStartsAgain(s1, job, w, 60000, start, Resumption);
  }

  /** completeExecution of a recurring job. */
  lemma CompletesRecurring(s: World, job: JobId, w: WorkerId, next: int) returns (t: World)
    requires Ready(s, w, 0, CompleteRead) && s.workers[w].job == job && s.jobs[job].kind.Cron?
    requires ClearsBy(s.log, s.created, job, Recurrence)
    ensures Reached(t) && t.now == 0 && t.jobs == s.jobs[job := CompleteRow(s.jobs[job], true, Some(next), 0)]
    ensures t.created == s.created && t.leases == s.leases && t.history == s.history && t.loops == s.loops
    ensures t.stream == s.stream && t.delivered == s.delivered && s.log <= t.log
    ensures t.workers == s.workers[w := s.workers[w].(stage := AckDone, cron := true)]
    ensures ClearsBy(t.log, s.created, job, Recurrence)
  {
    hide Reached, ClearsBy;
    var s2 := ReadsRow(s, w, 0);
    QuietCall(s.log, Yes(s, w, 0), s.created, job, Recurrence);
    t := WritesNextRun(s2, w, 0, Some(next));
    AppendedClears(s2.log, t.log[|s2.log|], s.created, job, Recurrence);
  }

  /** A recurring job completes and comes up again a minute later. */
  lemma RecurrenceStartsAgain(job: JobId, w: WorkerId) returns (s: World)
    ensures Witness(s, job, Recurrence)
  {
    hide Reached, Witness, ClearsBy, Starts, Continued;
    var s0, start := FirstStart(job, NewJob(Cron, 5), w);
    StartsByNothing(s0.log, s0.created, job, Recurrence);
    var s1 := Succeeds(s0, w, 0);
    ContinuedClears(s0.log, s1.log, s0.created, job, Recurrence);
    ContinuedIsLonger(s0.log, s1.log);
    var s2 := CompletesRecurring(s1, job, w, 60000);
    var s3 := Leaves(s2, w, 0);
    ContinuedClears(s2.log, s3.log, s0.created, job, Recurrence);
    ContinuedIsLonger(s2.log, s3.log);
    assert s3.log[start] == s0.log[start] && s3.workers.Keys == {};
    s := EnqueuesAndStartsAgain(s3, job, w, 60000, start, Recurrence);
  }

  lemma EveryCauseSuffices(job: JobId, w: WorkerId, cause: Cause) returns (s: World)
    ensures Witness(s, job, cause)
  {
    hide Witness;
    match cause
    case StaleLock => s := StaleLockStartsAgain(job, w);
    case ManualUnlock => s := UnlockStartsAgain(job, w);
    case Trigger => s := TriggerStartsAgain(job, w);
    case Recovery => s := LostPublishStartsAgain(job, w);
    case FailedAttempt => s := RetryStartsAgain(job, w);
    case Recurrence => s := RecurrenceStartsAgain(job, w);
    case Resumption => s := ResumeStartsAgain(job, w);
    case DlqRetry => s := DlqRetryStartsAgain(job, w);
  }

  /** The exact condition: if only some causes occur in a run, a second handler start is possible exactly
      when there are any. None is superfluous, each is enough by itself, and nothing else is. */
  lemma SecondStartNeedsACause(causes: set<Cause>)
    ensures (exists log, job :: StartsAgain(log, job, causes)) <==> causes != {}
  {
    hide OnlyBy, Witness;
    if cause :| cause in causes {
      var s := EveryCauseSuffices("job", "worker", cause);
      WitnessIsOnlyBy(s, "job", cause);
      MoreCauses(s.log, After(s.log).created, "job", {cause}, causes);
      assert StartsAgain(s.log, "job", causes);
    } else {
      assert causes == {};
      forall log, job
        ensures !StartsAgain(log, job, causes)
      {
        if IsRun(log) && OnlyBy(log, After(log).created, job, {}) {
          NoCauseNoSecondStart(log, job);
        }
      }
    }
  }

  lemma MoreCauses(log: seq<Event>, created: map<JobId, Kind>, job: JobId, fewer: set<Cause>, causes: set<Cause>)
    requires OnlyBy(log, created, job, fewer) && fewer <= causes
    ensures OnlyBy(log, created, job, causes)
  {
  }
}
