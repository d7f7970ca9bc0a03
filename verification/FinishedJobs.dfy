// A run that leaves a finished job with a fire time.
module FinishedJobs {
  import opened Base
  import opened JobRows
  import opened Stages
  import opened Protocol
  import opened RunSteps
  import JS = JobService

  /** A one-time job has completed, and its worker is about to acknowledge. */
  lemma CompletesOnce(job: JobId, row: Job, w: WorkerId) returns (s: World)
    requires row == NewRow(row) && row.kind.Immediate? && row.nextRunAt == Some(0)
    ensures Ready(s, w, 0, AckDone) && s.workers[w].job == job && s.workers[w].record.Some? && s.workers[w].msg == 0
    ensures s.jobs[job] == CompleteRow(LockRow(row, "scheduler", 0), false, None, 0)
    ensures s.stream[0].attempt == 1 && s.stream[0].maxRetries == row.maxRetries
  {
    hide Reached;
    var s0, _ := FirstStart(job, row, w);
    var s1 := Succeeds(s0, w, 0);
    s := CompletesJob(s1, w, 0);
  }

  /** The acknowledge after a completion is lost, so the failure path records a retry on the completed
      row: a trigger then runs the finished job again. */
  lemma LostAcknowledgeLeavesFireTime(job: JobId, row: Job, w: WorkerId, at: int) returns (s: World)
    requires row == NewRow(row) && row.kind.Immediate? && row.nextRunAt == Some(0) && row.maxRetries > 1
    ensures Reached(s) && job in s.jobs
    ensures s.jobs[job].status.Completed? && s.jobs[job].nextRunAt.Some?
    ensures EverDue(JS.TriggeredRow(s.jobs[job], at))
  {
    hide Reached, JS.TriggeredRow, EverDue;
    var s0 := CompletesOnce(job, row, w);
    var s1 := Throws(s0, w, 0, AckDone);
    var s2 := PassesFailure(s1, w, 0, RecordFailure, FailJob);
    s := FailsRow(s2, w, 0, Some(1000));
    JS.TriggeredFinishedRowDue(s.jobs[job], at);
  }
}
