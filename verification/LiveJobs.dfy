// No job is lost: whatever crashes, throws or stays pending, an active row with a fire time comes up for
// getDueJobs again, at a time that can be read off the row.
module LiveJobs {
  import opened Base
  import opened JobRows
  import opened Protocol
  import opened MessagePaths
  import opened TerminalStates
  import opened RetryBudget

  /** locked_by and locked_at are set together. */
  ghost predicate LocksAreDated(jobs: JobTable) {
    forall j :: j in jobs ==> (jobs[j].lockedBy.Some? <==> jobs[j].lockedAt.Some?)
  }

  lemma DatedStep(s: World, e: Event, j: JobId)
    requires LocksAreDated(s.jobs) && Legal(s, e) && j in Jobs(s, e)
    ensures Jobs(s, e)[j].lockedBy.Some? <==> Jobs(s, e)[j].lockedAt.Some?
  {
    hide Answers, AtHead, Due, Triggerable, CanLock;
  }

  lemma {:induction false} LocksStayDated(log: seq<Event>)
    requires IsRun(log)
    ensures LocksAreDated(After(log).jobs)
  {
    if |log| > 0 {
      var s, e := After(log[..|log| - 1]), log[|log| - 1];
      LocksStayDated(log[..|log| - 1]);
      forall j | j in Jobs(s, e)
        ensures Jobs(s, e)[j].lockedBy.Some? <==> Jobs(s, e)[j].lockedAt.Some?
      {
        DatedStep(s, e, j);
      }
    }
  }

  lemma DueExactlyFrom(row: Job)
    requires row.status.Active? && (row.lockedBy.Some? <==> row.lockedAt.Some?)
    ensures EverDue(row) <==> row.nextRunAt.Some?
    ensures row.nextRunAt.Some? ==> forall t :: Due(row, t) <==> DueFrom(row) <= t
  {
    if row.nextRunAt.Some? {
      assert Due(row, DueFrom(row));
    }
  }

  /** In every reachable state, an active row is ever due exactly when it has a fire time; then it is due
      exactly from its fire time, or from five minutes after its lock if that is later, until something
      writes it. */
  lemma NoJobIsLost(log: seq<Event>, job: JobId)
    requires IsRun(log) && job in After(log).jobs && After(log).jobs[job].status.Active?
    ensures var row := After(log).jobs[job];
            && (EverDue(row) <==> row.nextRunAt.Some?)
            && (row.nextRunAt.Some? ==> forall t :: Due(row, t) <==> DueFrom(row) <= t)
  {
    LocksStayDated(log);
    DueExactlyFrom(After(log).jobs[job]);
  }

  // ----- which active rows have a fire time -----

  /** A write that leaves an active row of `job` without a fire time: it was created, resumed or updated
      with none, activated by a trigger, or is recurring and completed with no next time. */
  predicate LeavesNoTime(created: map<JobId, Kind>, e: Event, job: JobId) {
    || (e.Create? && e.job == job && e.row.nextRunAt.None?)
    || (e.Resume? && e.job == job && e.next.None?)
    || (e.Update? && e.job == job && e.nextRun == Some(None))
    || (e.TriggerActivate? && e.job == job)
    || (e.Work? && e.job == job && e.stage.CompleteWrite? && Took(e.reply) && e.arg.None?
        && job in created && created[job].Cron?)
  }

  ghost predicate LeftWithoutTime(created: map<JobId, Kind>, log: seq<Event>, job: JobId) {
    exists i :: 0 <= i < |log| && LeavesNoTime(created, log[i], job)
  }

  ghost predicate TimesInv(jobs: JobTable, created: map<JobId, Kind>, log: seq<Event>) {
    forall j :: j in jobs && jobs[j].status.Active? && jobs[j].nextRunAt.None? ==> LeftWithoutTime(created, log, j)
  }

  /** A row that is active without a fire time after a step was so before, or the step left it so. */
  ghost predicate Retimed(s: World, e: Event, j: JobId, row: Job) {
    row.status.Active? && row.nextRunAt.None? ==>
      || LeavesNoTime(Created(s, e), e, j)
      || (j in s.jobs && s.jobs[j].status.Active? && s.jobs[j].nextRunAt.None?)
  }

  lemma TimeColumn(s: World, e: Event, j: JobId)
    requires PathInv(s) && CronInv(s.created, s.workers, s.stream, s.log) && Legal(s, e) && j in Jobs(s, e)
    ensures Retimed(s, e, j, Jobs(s, e)[j])
  {
    if e.Work? {
      WorkIsByItsWorker(s, e);
    }
  }

  lemma TimesStay(s: World, e: Event, jobs: JobTable)
    requires TimesInv(s.jobs, s.created, s.log)
    requires forall j :: j in jobs ==> Retimed(s, e, j, jobs[j])
    requires forall j :: j in s.created ==> j in Created(s, e) && Created(s, e)[j] == s.created[j]
    ensures TimesInv(jobs, Created(s, e), s.log + [e])
  {
    var log := s.log + [e];
    forall j | j in jobs && jobs[j].status.Active? && jobs[j].nextRunAt.None?
      ensures LeftWithoutTime(Created(s, e), log, j)
    {
      if LeavesNoTime(Created(s, e), e, j) {
        assert LeavesNoTime(Created(s, e), log[|s.log|], j);
      } else {
        var i :| 0 <= i < |s.log| && LeavesNoTime(s.created, s.log[i], j);
        assert LeavesNoTime(Created(s, e), log[i], j);
      }
    }
  }

  lemma TimesStep(s: World, e: Event)
    requires PathInv(s) && TerminalInv(s) && TimesInv(s.jobs, s.created, s.log) && Legal(s, e)
    ensures TimesInv(Jobs(s, e), Created(s, e), s.log + [e])
  {
    forall j | j in Jobs(s, e)
      ensures Retimed(s, e, j, Jobs(s, e)[j])
    {
      TimeColumn(s, e, j);
    }
    CreatedGrows(s, e);
    TimesStay(s, e, Jobs(s, e));
  }

  lemma {:induction false} TimesHold(log: seq<Event>)
    requires IsRun(log)
    ensures TimesInv(After(log).jobs, After(log).created, After(log).log)
  {
    if |log| > 0 {
      var s, e := After(log[..|log| - 1]), log[|log| - 1];
      TimesHold(log[..|log| - 1]);
      PathsHold(log[..|log| - 1]);
      TerminalsHold(log[..|log| - 1]);
      TimesStep(s, e);
    }
  }

  /** In every run, an active row has a fire time, unless a creation, resume or update gave it none, a
      trigger activated it, or it is recurring and completed with no next time. With NoJobIsLost: no
      crash and no lost call ever loses a job. */
  lemma ActiveRowHasFireTime(log: seq<Event>, job: JobId)
    requires IsRun(log) && job in After(log).jobs && After(log).jobs[job].status.Active?
    requires !LeftWithoutTime(After(log).created, log, job)
    ensures After(log).jobs[job].nextRunAt.Some? && EverDue(After(log).jobs[job])
  {
    TimesHold(log);
    LogIsTheRun(log);
    NoJobIsLost(log, job);
  }
}
