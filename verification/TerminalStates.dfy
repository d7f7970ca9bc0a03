// completed and failed_permanent absorb: without a resume, a trigger or a DLQ retry, a row that
// reached one of them is never due and never locked again, whatever late executions still write.
module TerminalStates {
  import opened Base
  import opened JobRows
  import opened Protocol
  import opened MessagePaths
  import opened RowLocks

  /** A write that can make a row active. */
  predicate Activates(e: Event, job: JobId) {
    (e.Resume? && e.job == job) || (e.TriggerActivate? && e.job == job) || (e.Requeue? && e.job == job)
  }

  ghost predicate ActivatedBetween(log: seq<Event>, job: JobId, p: int, q: int) {
    exists c :: 0 <= c < |log| && p < c < q && Activates(log[c], job)
  }

  ghost predicate NeverActivated(log: seq<Event>, job: JobId) {
    forall i :: 0 <= i < |log| ==> !Activates(log[i], job)
  }

  predicate OneTime(created: map<JobId, Kind>, job: JobId) {
    job in created && !created[job].Cron?
  }

  /** The event put its job in a terminal state: a one-time job completed, or any job failed permanently. */
  predicate Ends(created: map<JobId, Kind>, e: Event) {
    e.Work? && Took(e.reply)
    && ((e.stage.FailJob? && e.arg.None?) || (e.stage.CompleteWrite? && OneTime(created, e.job)))
  }

  /** The scheduler selected the row: getDueJobs returned it, or lockJob took it. */
  predicate Picks(e: Event, job: JobId) {
    Locks(e, job) || (e.Fetch? && job in e.batch)
  }

  /** The type a worker read agrees with the row, and only created jobs are worked on. */
  ghost predicate CronInv(
      created: map<JobId, Kind>, workers: map<WorkerId, Exec>, stream: seq<Message>, log: seq<Event>)
  {
    && (forall w :: w in workers && workers[w].stage.CompleteWrite? ==>
          workers[w].job in created && workers[w].cron == created[workers[w].job].Cron?)
    && (forall m :: 0 <= m < |stream| ==> stream[m].job in created)
    && (forall i :: 0 <= i < |log| && log[i].Work? ==> log[i].job in created)
  }

  ghost predicate EndedInv(jobs: JobTable, created: map<JobId, Kind>, log: seq<Event>) {
    forall p | 0 <= p < |log| && Ends(created, log[p]) && log[p].job in jobs
        && !ActivatedBetween(log, log[p].job, p, |log|)
      :: !jobs[log[p].job].status.Active?
  }

  ghost predicate AbsorbInv(created: map<JobId, Kind>, log: seq<Event>) {
    forall p, q | 0 <= p < q < |log| && Ends(created, log[p]) && Picks(log[q], log[p].job)
      :: ActivatedBetween(log, log[p].job, p, q)
  }

  ghost predicate TerminalInv(s: World) {
    && CronInv(s.created, s.workers, s.stream, s.log)
    && EndedInv(s.jobs, s.created, s.log)
    && AbsorbInv(s.created, s.log)
  }

  /** Only the SELECT of completeExecution leads to its UPDATE, and hands it the type it read. */
  lemma CronRead(s: World, e: Event, w: WorkerId)
    requires Legal(s, e) && w in Workers(s, e) && Workers(s, e)[w].stage.CompleteWrite?
    ensures w in s.workers && Workers(s, e)[w].job == s.workers[w].job
    ensures || (s.workers[w].stage.CompleteWrite? && Workers(s, e)[w].cron == s.workers[w].cron)
            || (s.workers[w].job in s.jobs && Workers(s, e)[w].cron == s.jobs[s.workers[w].job].kind.Cron?)
  {
    WorkerMoves(s, e, w);
  }

  lemma PublishesCreatedJobs(s: World, e: Event)
    requires LockInv(s) && TerminalInv(s) && Legal(s, e)
    ensures forall m :: 0 <= m < |Stream(s, e)| ==> Stream(s, e)[m].job in s.created
  {
    StreamAppends(s, e);
  }

  lemma CreatesNewJob(s: World, e: Event)
    requires Legal(s, e) && e.Create?
    ensures e.job !in s.created
  {
  }

  lemma CronStep(s: World, e: Event)
    requires PathInv(s) && LockInv(s) && TerminalInv(s) && Legal(s, e)
    ensures CronInv(Created(s, e), Workers(s, e), Stream(s, e), s.log + [e])
  {
    if e.Create? {
      CreatesNewJob(s, e);
    }
    PublishesCreatedJobs(s, e);
    forall w | w in Workers(s, e) && Workers(s, e)[w].stage.CompleteWrite?
      ensures Workers(s, e)[w].job in s.created && Workers(s, e)[w].cron == s.created[Workers(s, e)[w].job].Cron?
    {
      CronRead(s, e, w);
    }
    if e.Work? {
      WorkIsByItsWorker(s, e);
    }
  }

  /** A row is active after a step only if it was before, or the step inserts or activates it; and a
      step that ends a job leaves it inactive. */
  ghost predicate Restated(s: World, e: Event, j: JobId, row: Job) {
    if e.Create? && e.job == j then j !in s.created
    else
      && j in s.jobs
      && (row.status.Active? ==> s.jobs[j].status.Active? || Activates(e, j))
      && (Ends(s.created, e) && e.job == j ==> !row.status.Active?)
  }

  lemma StatusColumn(s: World, e: Event, j: JobId)
    requires PathInv(s) && TerminalInv(s) && Legal(s, e) && j in Jobs(s, e)
    ensures Restated(s, e, j, Jobs(s, e)[j])
  {
  }

  lemma PicksActiveRow(s: World, e: Event, j: JobId)
    requires Legal(s, e) && Picks(e, j)
    ensures j in s.jobs && s.jobs[j].status.Active?
  {
  }

  lemma StillInactive(log: seq<Event>, e: Event, j: JobId, p: int)
    requires p < |log| && !ActivatedBetween(log + [e], j, p, |log| + 1)
    ensures !ActivatedBetween(log, j, p, |log|) && !Activates(e, j)
  {
    assert forall c :: 0 <= c < |log| ==> (log + [e])[c] == log[c];
    assert (log + [e])[|log|] == e;
  }

  lemma ActivationsPersist(log: seq<Event>, e: Event)
    ensures forall j, p, q :: q <= |log| ==> (ActivatedBetween(log + [e], j, p, q) <==> ActivatedBetween(log, j, p, q))
  {
    assert forall c :: 0 <= c < |log| ==> (log + [e])[c] == log[c];
  }

  lemma EndedStays(s: World, e: Event, jobs: JobTable)
    requires TerminalInv(s)
    requires forall j :: j in jobs ==> Restated(s, e, j, jobs[j])
    requires e.Create? ==> e.job !in s.created
    requires e.Work? ==> e.job in s.created
    ensures EndedInv(jobs, Created(s, e), s.log + [e])
  {
    var log := s.log + [e];
    forall p | 0 <= p < |log| && Ends(Created(s, e), log[p]) && log[p].job in jobs
               && !ActivatedBetween(log, log[p].job, p, |log|)
      ensures !jobs[log[p].job].status.Active?
    {
      assert log[p].job in s.created;
      assert Restated(s, e, log[p].job, jobs[log[p].job]);
      if p < |s.log| {
        StillInactive(s.log, e, log[p].job, p);
      }
    }
  }

  lemma AbsorbStays(s: World, e: Event)
    requires TerminalInv(s)
    requires e.Create? ==> e.job !in s.created
    requires forall j :: Picks(e, j) ==> j in s.jobs && s.jobs[j].status.Active?
    requires forall i :: 0 <= i < |s.log| && s.log[i].Work? ==> s.log[i].job in s.created
    ensures AbsorbInv(Created(s, e), s.log + [e])
  {
    ActivationsPersist(s.log, e);
    assert forall p :: 0 <= p < |s.log| && Ends(Created(s, e), s.log[p]) ==> Ends(s.created, s.log[p]);
  }

  lemma TerminalStep(s: World, e: Event)
    requires PathInv(s) && LockInv(s) && TerminalInv(s) && Legal(s, e)
    ensures EndedInv(Jobs(s, e), Created(s, e), s.log + [e])
    ensures AbsorbInv(Created(s, e), s.log + [e])
  {
    forall j | j in Jobs(s, e)
      ensures Restated(s, e, j, Jobs(s, e)[j])
    {
      StatusColumn(s, e, j);
    }
    forall j | Picks(e, j)
      ensures j in s.jobs && s.jobs[j].status.Active?
    {
      PicksActiveRow(s, e, j);
    }
    if e.Work? {
      WorkIsByItsWorker(s, e);
    } else if e.Create? {
      CreatesNewJob(s, e);
    }
    EndedStays(s, e, Jobs(s, e));
    AbsorbStays(s, e);
  }

  lemma {:induction false} TerminalsHold(log: seq<Event>)
    requires IsRun(log)
    ensures TerminalInv(After(log))
  {
    if |log| > 0 {
      var s, e := After(log[..|log| - 1]), log[|log| - 1];
      TerminalsHold(log[..|log| - 1]);
      PathsHold(log[..|log| - 1]);
      LocksHold(log[..|log| - 1]);
      CronStep(s, e);
      TerminalStep(s, e);
    }
  }

  /** A job that ended, and was not resumed, triggered or requeued since, is not due and cannot be
      locked at any time; and no getDueJobs or lockJob picked it since. */
  lemma TerminalStatesAbsorb(log: seq<Event>, p: int, now: int)
    requires IsRun(log) && 0 <= p < |log| && Ends(After(log).created, log[p])
    requires !ActivatedBetween(log, log[p].job, p, |log|)
    ensures log[p].job in After(log).jobs ==>
              !Due(After(log).jobs[log[p].job], now) && !Lockable(After(log).jobs[log[p].job], now)
    ensures forall q :: p < q < |log| ==> !Picks(log[q], log[p].job)
  {
    TerminalsHold(log);
    LogIsTheRun(log);
    forall q | p < q < |log|
      ensures !Picks(log[q], log[p].job)
    {
      assert ActivatedBetween(log, log[p].job, p, q) ==> ActivatedBetween(log, log[p].job, p, |log|);
    }
  }
}
