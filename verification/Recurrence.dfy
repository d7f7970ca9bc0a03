// When a recurring job has another run: the row updates of src/services/job-service.js with the fire time
// that src/lib/cron-parser.js computes for them.
module Recurrence {
  import opened Base
  import opened JobRows
  import opened JsText
  import opened CronSearch
  import opened CronCompleteness
  import JS = JobService

  /** The expression is valid and an accepted date lies ahead within reach of the search. */
  ghost predicate HasNextRun(expression: string, valid: bool, clock: int) {
    && valid && |Fields(expression)| >= 5 && Runs(Fields(expression))
    && exists y, m, dt :: DateAhead(Fields(expression), clock, y, m, dt)
  }

  lemma NextRunExactlyWhen(expression: string, valid: bool, clock: int, next: Option<int>)
    requires IsNextFireTime(expression, valid, clock, next)
    ensures next.Some? <==> HasNextRun(expression, valid, clock)
    ensures next.Some? ==> clock < next.value
  {
    hide IsNext, DateAhead, Runs, Fields;
    if valid && |Fields(expression)| >= 5 {
      FoundExactlyWhen(Fields(expression), clock, next);
      FoundIsLater(Fields(expression), clock, next);
    }
  }

  lemma FoundIsLater(parts: seq<string>, after: int, r: Option<int>)
    requires Runs(parts) && IsNext(parts, after, r)
    ensures r.Some? ==> after < r.value
  {
    hide FiresAt, Limit;
  }

  /** A recurring job survives its own completion exactly when its row is active and its expression has a
      next run within reach; otherwise the row keeps its status with no fire time and never runs again.
      `clock` is the process time at which the fire time is computed, `now` the database time. */
  lemma SurvivesCompletionExactlyWhen(row: Job, valid: bool, clock: int, now: int, next: Option<int>)
    requires row.cronExpression.Some? && IsNextFireTime(row.cronExpression.value, valid, clock, next)
    ensures var completed := CompleteRow(row, true, next, now);
            && (EverDue(completed) <==> row.status.Active? && HasNextRun(row.cronExpression.value, valid, clock))
            && (!HasNextRun(row.cronExpression.value, valid, clock) ==> completed.nextRunAt == None)
            && completed.status == row.status
            && forall t :: Due(completed, t) ==> clock < t
  {
    hide IsNextFireTime, HasNextRun;
    NextRunExactlyWhen(row.cronExpression.value, valid, clock, next);
    var completed := CompleteRow(row, true, next, now);
    if next.Some? && row.status.Active? {
      assert Due(completed, next.value);
    }
  }

  /** A resumed recurring job is ever due again exactly when its expression has a next run within reach,
      and not before the time it was resumed. */
  lemma SurvivesPauseExactlyWhen(row: Job, valid: bool, clock: int, next: Option<int>)
    requires row.kind.Cron? && row.cronExpression.Some? && IsNextFireTime(row.cronExpression.value, valid, clock, next)
    requires row.lockedBy.None? || row.lockedAt.Some?
    ensures var resumed := ResumeRow(row, JS.NextAfterResume(row, next, clock));
            && (EverDue(resumed) <==> HasNextRun(row.cronExpression.value, valid, clock))
            && forall t :: Due(resumed, t) ==> clock < t
  {
    hide IsNextFireTime, HasNextRun;
    NextRunExactlyWhen(row.cronExpression.value, valid, clock, next);
    JS.ResumedRowDue(row, next, clock);
  }
}
