// Unconditional exactly-once does not hold: a handler that outlives the five-minute row lock lets a
// second entry be published, and the worker that takes it never looks at the row again. Such a run is
// built below one call at a time; nothing in it crashes or throws. Together with ExactlyOnce it says when
// the stale lock is such a cause; SecondStarts covers every cause.
module DuplicateRun {
  import opened Base
  import opened JobRows
  import opened Protocol
  import opened RowLocks
  import opened TerminalStates
  import opened BoundedExecution
  import opened ExactlyOnce
  import opened RunSteps

  /** The handler runs on until `at`, and the auto-extend keeps the job lock. */
  lemma {:induction false} RunsOn(s: World, job: JobId, row: Job, w: WorkerId, at: int) returns (t: World)
    requires FirstRunning(s, job, row, w) && s.now <= at
    ensures FirstRunning(t, job, row, w) && t.now <= at < t.now + JOB_LOCK_TTL_MS && s.log <= t.log
    decreases at - s.now
  {
    hide Reached;
    if at < s.now + JOB_LOCK_TTL_MS {
      t := s;
    } else {
      var next := s.now + 240000;
      var s1 := Renews(s, w, next);
      ContinuedGrows([], s.log, Extend(next, w, Returned(true)));
      t := RunsOn(s1, job, row, w, at);
    }
  }

  /** Once the row lock is stale the row is enqueued again; then the first execution completes the job. */
  lemma CompletesLate(s: World, job: JobId, row: Job, w: WorkerId, at: int) returns (t: World, c: int)
    requires FirstRunning(s, job, row, w) && s.now <= at < s.now + JOB_LOCK_TTL_MS && at > LOCK_STALE_MS
    requires row == NewRow(row) && !row.kind.Cron? && row.nextRunAt.Some? && row.nextRunAt.value <= 0
    ensures Reached(t) && t.now == at && t.created == s.created && |t.stream| == t.delivered + 1
    ensures t.stream[t.delivered].job == job
    ensures t.workers == map[] && job in t.jobs && job !in t.leases
    ensures forall r :: r in t.history ==> t.history[r].key.2 == 0
    ensures s.log <= t.log && |s.log| <= c < |t.log| && Completes(t.log[c], job, at)
    ensures Continued([], t.log[..c]) && Continued(t.log[..c + 1], t.log)
  {
    hide Reached;
    var s5 := Enqueues(s, job, 0, at);
    var s6 := Succeeds(s5, w, at);
    var s7 := CompletesJob(s6, w, at);
    t := Leaves(s7, w, at);
    c := |s6.log| + 1;
    ContinuedOn([], s.log, s5.log);
    ContinuedOn([], s5.log, s6.log);
    ContinuedOn([], s6.log, s7.log[..c]);
    assert t.log[..c] == s7.log[..c] && t.log[..c + 1] == s7.log;
    assert t.workers.Keys == {};
  }

  /** The first lock-clearing write of a one-time job is a completion, `elapsed` milliseconds after the job
      was first locked, and the job is never resumed, triggered or requeued. Everything else is free:
      refused and lost calls, crashes, and writes to this and other jobs that keep its lock. */
  ghost predicate CompletesAfter(log: seq<Event>, created: map<JobId, Kind>, job: JobId, elapsed: int) {
    && OneTime(created, job)
    && (forall i :: 0 <= i < |log| ==> !Activates(log[i], job))
    && exists p, c ::
        && 0 <= p < c < |log| && Locks(log[p], job)
        && log[c].Work? && log[c].job == job && log[c].stage.CompleteWrite? && Took(log[c].reply)
        && log[c].at == log[p].at + elapsed
        && (forall i :: 0 <= i < p ==> !Locks(log[i], job))
        && (forall i :: 0 <= i < c ==> !Clears(log[i], job))
  }

  predicate FailsJob(e: Event) {
    e.Work? && e.stage.FailJob?
  }

  ghost predicate NothingFails(log: seq<Event>) {
    forall i :: 0 <= i < |log| ==> !FailsJob(log[i])
  }

  /** The job completes late, with a second entry waiting. */
  lemma SlowCompletion(job: JobId, row: Job, w: WorkerId, at: int) returns (t: World, start: int, c: int)
    requires row == NewRow(row) && !row.kind.Cron? && row.nextRunAt.Some? && row.nextRunAt.value <= 0
    requires at > LOCK_STALE_MS
    ensures Reached(t) && t.now == at && t.created == map[job := row.kind] && |t.stream| == t.delivered + 1
    ensures t.stream[t.delivered].job == job && t.workers == map[] && job in t.jobs && job !in t.leases
    ensures forall r :: r in t.history ==> t.history[r].key.2 == 0
    ensures 2 < c < |t.log| && 0 <= start < |t.log| && Starts(t.log[start], job) && Completes(t.log[c], job, at)
    ensures !t.log[0].Lock? && !t.log[1].Lock? && Locks(t.log[2], job) && t.log[2].at == 0
    ensures Continued([], t.log[..c]) && Continued(t.log[..c + 1], t.log)
  {
    hide Reached;
    var s0, first := FirstStart(job, row, w);
    start := first;
    var s1 := RunsOn(s0, job, row, w, at);
    t, c := CompletesLate(s1, job, row, w, at);
    assert t.log[start] == s0.log[start];
    assert t.log[0] == s1.log[0] && t.log[1] == s1.log[1] && t.log[2] == s1.log[2];
  }

  /** A one-time job whose handler outlives the row lock, on a worker that extends its job lock
      throughout: nothing fails, the job completes, and its handler is started again after that. */
  lemma SlowHandlerStartsTwice(job: JobId, row: Job, w: WorkerId, elapsed: int) returns (s: World)
    requires row == NewRow(row) && !row.kind.Cron? && row.nextRunAt.Some? && row.nextRunAt.value <= 0
    requires elapsed > LOCK_STALE_MS
    ensures Reached(s) && AllAnswered(s.log) && NothingFails(s.log) && CompletesAfter(s.log, s.created, job, elapsed)
    ensures |HandlerStarts(s.log, job)| >= 2
  {
    hide Reached, CompletesAfter, Starts, Locks, AllAnswered;
    var s2, first, c := SlowCompletion(job, row, w, elapsed);
    var s3 := Enters(s2, w, elapsed);
    s := Begins(s3, w, elapsed);
    var second := |s.log| - 1;
    assert s.log[first] == s2.log[first] && s.log[c] == s2.log[c] && s.log[..c] == s2.log[..c];
    TwoStarts(s.log, job, first, second);
    AnsweredThroughout(s2.log, s3.log, s.log, c);
    assert s.log[0] == s2.log[0] && s.log[1] == s2.log[1] && s.log[2] == s2.log[2];
    IsCompletion(s.log, s.created, job, elapsed, c);
  }

  lemma IsCompletion(log: seq<Event>, created: map<JobId, Kind>, job: JobId, elapsed: int, c: int)
    requires OneTime(created, job) && AllAnswered(log) && 2 < c < |log| && Continued([], log[..c])
    requires !log[0].Lock? && !log[1].Lock? && Locks(log[2], job) && log[2].at == 0 && Completes(log[c], job, elapsed)
    ensures CompletesAfter(log, created, job, elapsed)
  {
    assert forall i :: 0 <= i < c ==> log[i] == log[..c][i];
    forall i | 0 <= i < |log|
      ensures !Activates(log[i], job) && (i < c ==> !Clears(log[i], job))
    {
      assert Answered(log[i]);
    }
  }

  lemma AnsweredThroughout(log: seq<Event>, middle: seq<Event>, longer: seq<Event>, c: int)
    requires 0 <= c < |log| && Answered(log[c]) && Continued([], log[..c]) && Continued(log[..c + 1], log)
    requires Continued(log, middle) && Continued(middle, longer) && !FailsJob(log[c])
    ensures AllAnswered(longer) && NothingFails(longer)
  {
    forall i | 0 <= i < |longer|
      ensures Answered(longer[i]) && !FailsJob(longer[i])
    {
      if i < c {
        assert longer[i] == log[..c][i];
      } else if i < |log| {
        assert longer[i] == log[i];
      } else if i < |middle| {
        assert longer[i] == middle[i];
      }
    }
  }

  ghost predicate StartsTwice(log: seq<Event>, job: JobId, elapsed: int) {
    IsRun(log) && CompletesAfter(log, After(log).created, job, elapsed) && |HandlerStarts(log, job)| >= 2
  }

  lemma CompletionInTimeIsUndisturbed(
      log: seq<Event>, now: int, created: map<JobId, Kind>, job: JobId, elapsed: int) returns (c: int)
    requires TimeInv(now, log) && CompletesAfter(log, created, job, elapsed) && elapsed <= LOCK_STALE_MS
    ensures UndisturbedCompletion(log, created, job, c)
  {
    var p, completion :|
      && 0 <= p < completion < |log| && Locks(log[p], job)
      && log[completion].Work? && log[completion].job == job
      && log[completion].stage.CompleteWrite? && Took(log[completion].reply)
      && log[completion].at == log[p].at + elapsed
      && (forall i :: 0 <= i < p ==> !Locks(log[i], job))
      && (forall i :: 0 <= i < completion ==> !Clears(log[i], job));
    c := completion;
    forall q | 0 <= q < c && Locks(log[q], job)
      ensures log[c].at <= log[q].at + LOCK_STALE_MS
    {
      assert q >= p;
    }
  }

  /** When nothing gives the job back before it completes (its row lock is first cleared by its completion,
      `elapsed` milliseconds after it was first locked, and it is not activated again), a second handler
      start is possible exactly when that is more than the five minutes of the row lock. Then it needs no
      fault: it happens in a run in which every call succeeds. */
  lemma SecondStartPossibleExactlyWhen(elapsed: int)
    ensures (exists log, job :: StartsTwice(log, job, elapsed)) <==> elapsed > LOCK_STALE_MS
    ensures elapsed > LOCK_STALE_MS ==> exists log, job :: StartsTwice(log, job, elapsed) && AllAnswered(log)
  {
    if elapsed > LOCK_STALE_MS {
      var row := Job("", Immediate, Active, None, None, "", "", "", 0, 0, None, None, Some(0), None, None);
      var s := SlowHandlerStartsTwice("job", row, "worker", elapsed);
      assert StartsTwice(s.log, "job", elapsed);
    } else if log, job :| StartsTwice(log, job, elapsed) {
      LocksHold(log);
      LogIsTheRun(log);
      var c := CompletionInTimeIsUndisturbed(log, After(log).now, After(log).created, job, elapsed);
      StartsExactlyOnce(log, job, c);
    }
  }
}
