// retry_count, the attempt numbers of the entries, and how many attempts a failing job gets.
module RetryBudget {
  import opened Base
  import opened JobRows
  import opened Protocol
  import opened MessagePaths
  import opened RowLocks
  import opened TerminalStates

  /** failExecution took effect. */
  predicate Fails(e: Event, job: JobId) {
    e.Work? && e.job == job && e.stage.FailJob? && Took(e.reply)
  }

  /** A write that sets retry_count to 0: a DLQ retry, or the completion of a recurring run. */
  predicate Resets(e: Event, job: JobId, cron: bool) {
    (e.Requeue? && e.job == job)
    || (cron && e.Work? && e.job == job && e.stage.CompleteWrite? && Took(e.reply))
  }

  /** failExecution calls on `job` since the last reset. */
  ghost function FailsSince(log: seq<Event>, job: JobId, cron: bool): nat {
    if |log| == 0 then 0
    else
      var front, last := log[..|log| - 1], log[|log| - 1];
      if Resets(last, job, cron) then 0
      else FailsSince(front, job, cron) + (if Fails(last, job) then 1 else 0)
  }

  /** retry_count is the number of failExecution calls since creation or the last reset. */
  ghost predicate CountInv(jobs: JobTable, log: seq<Event>) {
    forall j :: j in jobs ==> jobs[j].retryCount == FailsSince(log, j, jobs[j].kind.Cron?)
  }

  ghost predicate ReadAt(log: seq<Event>, created: map<JobId, Kind>, job: JobId, fetched: nat, count: int) {
    fetched <= |log| && job in created && count == FailsSince(log[..fetched], job, created[job].Cron?)
  }

  /** Every entry carries one more than the retry_count its row had when it was read. */
  ghost predicate AttemptInv(
      log: seq<Event>, created: map<JobId, Kind>, stream: seq<Message>, loops: map<LoopId, Loop>)
  {
    && (forall m :: 0 <= m < |stream| ==> ReadAt(log, created, stream[m].job, stream[m].fetched, stream[m].attempt - 1))
    && (forall l, i :: l in loops && 0 <= i < |loops[l].todo| ==>
          ReadAt(log, created, loops[l].todo[i].job, loops[l].fetched, loops[l].todo[i].retryCount))
  }

  /** An entry is worked on only after the lock that preceded its publish. */
  ghost predicate WorkAfterLock(log: seq<Event>, stream: seq<Message>) {
    forall i :: 0 <= i < |log| && log[i].Work? ==> log[i].msg < |stream| && stream[log[i].msg].ticket < i
  }

  ghost predicate BudgetInv(s: World) {
    && CountInv(s.jobs, s.log)
    && AttemptInv(s.log, s.created, s.stream, s.loops)
    && WorkAfterLock(s.log, s.stream)
  }

  lemma CountGrows(log: seq<Event>, e: Event, job: JobId, cron: bool)
    ensures FailsSince(log + [e], job, cron) ==
            if Resets(e, job, cron) then 0 else FailsSince(log, job, cron) + (if Fails(e, job) then 1 else 0)
  {
    assert (log + [e])[..|log|] == log;
  }

  lemma {:induction false} NoFailsNoCount(log: seq<Event>, job: JobId, cron: bool)
    requires forall i :: 0 <= i < |log| ==> !Fails(log[i], job)
    ensures FailsSince(log, job, cron) == 0
  {
    if |log| > 0 {
      NoFailsNoCount(log[..|log| - 1], job, cron);
    }
  }

  /** What one step does to the retry_count of a row. */
  ghost predicate Recounted(s: World, e: Event, j: JobId, row: Job) {
    if e.Create? && e.job == j then j !in s.created && row.retryCount == 0
    else
      && j in s.jobs && row.kind == s.jobs[j].kind
      && row.retryCount ==
         if Resets(e, j, row.kind.Cron?) then 0 else s.jobs[j].retryCount + (if Fails(e, j) then 1 else 0)
  }

  lemma RetryColumn(s: World, e: Event, j: JobId)
    requires Legal(s, e) && j in Jobs(s, e)
    requires e.Work? && e.stage.CompleteWrite? ==>
               s.workers[e.worker].job in s.jobs ==>
               s.workers[e.worker].cron == s.jobs[s.workers[e.worker].job].kind.Cron?
    ensures Recounted(s, e, j, Jobs(s, e)[j])
  {
  }

  lemma CountStep(s: World, e: Event)
    requires LockInv(s) && TerminalInv(s) && BudgetInv(s) && Legal(s, e)
    ensures CountInv(Jobs(s, e), s.log + [e])
  {
    forall j | j in Jobs(s, e)
      ensures Jobs(s, e)[j].retryCount == FailsSince(s.log + [e], j, Jobs(s, e)[j].kind.Cron?)
    {
      if e.Work? {
        WorkIsByItsWorker(s, e);
      }
      RetryColumn(s, e, j);
      CountGrows(s.log, e, j, Jobs(s, e)[j].kind.Cron?);
      if e.Create? && e.job == j {
        NoFailsNoCount(s.log, j, Jobs(s, e)[j].kind.Cron?);
      }
    }
  }

  lemma ReadAtPersists(log: seq<Event>, e: Event, created: map<JobId, Kind>, grown: map<JobId, Kind>)
    requires forall j :: j in created ==> j in grown && grown[j] == created[j]
    ensures forall j, f, c :: ReadAt(log, created, j, f, c) ==> ReadAt(log + [e], grown, j, f, c)
  {
    forall f: nat | f <= |log|
      ensures (log + [e])[..f] == log[..f]
    {
    }
  }

  /** Rows still to be handled by a loop come from its own fetch. */
  ghost predicate Refilled(s: World, e: Event, l: LoopId, y: Loop) {
    forall i :: 0 <= i < |y.todo| ==>
      || (l in s.loops && y.fetched == s.loops[l].fetched && y.todo[i] in s.loops[l].todo)
      || (y.fetched == |s.log| && y.todo[i].job in s.jobs && y.todo[i].retryCount == s.jobs[y.todo[i].job].retryCount)
  }

  lemma TodoFrom(s: World, e: Event, l: LoopId)
    requires Legal(s, e) && l in Loops(s, e)
    ensures Refilled(s, e, l, Loops(s, e)[l])
  {
  }

  lemma FetchReads(s: World, e: Event, job: JobId)
    requires LockInv(s) && BudgetInv(s) && job in s.jobs
    ensures ReadAt(s.log + [e], s.created, job, |s.log|, s.jobs[job].retryCount)
  {
    assert (s.log + [e])[..|s.log|] == s.log;
  }

  lemma CreatedGrows(s: World, e: Event)
    requires Legal(s, e)
    ensures forall j :: j in s.created ==> j in Created(s, e) && Created(s, e)[j] == s.created[j]
  {
  }

  lemma LoopReads(s: World, e: Event, l: LoopId, i: int)
    requires LockInv(s) && BudgetInv(s) && Legal(s, e) && l in Loops(s, e) && 0 <= i < |Loops(s, e)[l].todo|
    ensures var y := Loops(s, e)[l];
            ReadAt(s.log + [e], Created(s, e), y.todo[i].job, y.fetched, y.todo[i].retryCount)
  {
    TodoFrom(s, e, l);
    CreatedGrows(s, e);
    ReadAtPersists(s.log, e, s.created, Created(s, e));
    var y := Loops(s, e)[l];
    if y.fetched == |s.log| && y.todo[i].job in s.jobs && y.todo[i].retryCount == s.jobs[y.todo[i].job].retryCount {
      FetchReads(s, e, y.todo[i].job);
    } else {
      var k :| 0 <= k < |s.loops[l].todo| && s.loops[l].todo[k] == y.todo[i];
      assert ReadAt(s.log, s.created, s.loops[l].todo[k].job, s.loops[l].fetched, s.loops[l].todo[k].retryCount);
    }
  }

  /** A new entry has the job, the read position and the count of its loop's current row. */
  lemma AttemptPublished(s: World, e: Event)
    requires LoopInv(s.log, s.stream, s.loops) && Legal(s, e)
    ensures Stream(s, e) == s.stream
            || (&& e.Publish? && e.loop in s.loops
                && exists m: Message :: Stream(s, e) == s.stream + [m] && m.job == s.loops[e.loop].todo[0].job
                     && m.fetched == s.loops[e.loop].fetched && m.attempt == s.loops[e.loop].todo[0].retryCount + 1)
  {
    if e.Publish? && Took(e.reply) {
      var m := Stream(s, e)[|s.stream|];
      assert Stream(s, e) == s.stream + [m];
    }
  }

  lemma AttemptStep(s: World, e: Event)
    requires LockInv(s) && BudgetInv(s) && Legal(s, e)
    ensures AttemptInv(s.log + [e], Created(s, e), Stream(s, e), Loops(s, e))
  {
    AttemptPublished(s, e);
    CreatedGrows(s, e);
    ReadAtPersists(s.log, e, s.created, Created(s, e));
    forall m | 0 <= m < |Stream(s, e)|
      ensures ReadAt(s.log + [e], Created(s, e), Stream(s, e)[m].job, Stream(s, e)[m].fetched,
              Stream(s, e)[m].attempt - 1)
    {
      if m < |s.stream| {
        assert Stream(s, e)[m] == s.stream[m];
      } else {
        assert ReadAt(s.log, s.created, s.loops[e.loop].todo[0].job, s.loops[e.loop].fetched,
            s.loops[e.loop].todo[0].retryCount);
      }
    }
    forall l, i | l in Loops(s, e) && 0 <= i < |Loops(s, e)[l].todo|
      ensures ReadAt(s.log + [e], Created(s, e), Loops(s, e)[l].todo[i].job, Loops(s, e)[l].fetched,
              Loops(s, e)[l].todo[i].retryCount)
    {
      LoopReads(s, e, l, i);
    }
  }

  lemma WorkAfterLockStep(s: World, e: Event)
    requires PathInv(s) && LockInv(s) && BudgetInv(s) && Legal(s, e)
    ensures WorkAfterLock(s.log + [e], Stream(s, e))
  {
    StreamGrows(s, e);
    if e.Work? {
      WorkIsByItsWorker(s, e);
      assert IsTicket(s.log, s.stream[e.msg].ticket, s.stream[e.msg].job);
    }
  }

  lemma {:induction false} BudgetsHold(log: seq<Event>)
    requires IsRun(log)
    ensures BudgetInv(After(log))
  {
    if |log| > 0 {
      var s, e := After(log[..|log| - 1]), log[|log| - 1];
      BudgetsHold(log[..|log| - 1]);
      TerminalsHold(log[..|log| - 1]);
      PathsHold(log[..|log| - 1]);
      LocksHold(log[..|log| - 1]);
      CountStep(s, e);
      AttemptStep(s, e);
      WorkAfterLockStep(s, e);
    }
  }

  /** retry_count is the number of failExecution calls since the job was created, or since the last DLQ
      retry or completed recurring run. */
  lemma RetryCountIsFailures(log: seq<Event>, job: JobId)
    requires IsRun(log) && job in After(log).jobs
    ensures var row := After(log).jobs[job]; row.retryCount == FailsSince(log, job, row.kind.Cron?)
  {
    BudgetsHold(log);
    LogIsTheRun(log);
  }

  /** An entry's attempt number is one more than the failures counted when its row was read. */
  lemma AttemptIsOneMoreThanCount(log: seq<Event>, m: nat)
    requires IsRun(log) && m < |After(log).stream|
    ensures var x := After(log).stream[m];
            && x.fetched <= |log| && x.job in After(log).created
            && x.attempt == FailsSince(log[..x.fetched], x.job, After(log).created[x.job].Cron?) + 1
  {
    BudgetsHold(log);
    LogIsTheRun(log);
    var x := After(log).stream[m];
    assert ReadAt(log, After(log).created, x.job, x.fetched, x.attempt - 1);
  }
}
