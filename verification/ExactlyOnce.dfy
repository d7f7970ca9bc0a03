// The conditions under which a one-time job starts its handler exactly once.
module ExactlyOnce {
  import opened Base
  import opened JobRows
  import opened Stages
  import opened Protocol
  import opened MessagePaths
  import opened RowLocks
  import opened Outcomes
  import opened TerminalStates
  import opened BoundedExecution

  /** The completion at `c` is the first lock-clearing write of a one-time job, comes within five
      minutes of every lock taken before it, and the job is never resumed, triggered or requeued. */
  ghost predicate UndisturbedCompletion(log: seq<Event>, created: map<JobId, Kind>, job: JobId, c: int) {
    && OneTime(created, job)
    && 0 <= c < |log|
    && log[c].Work? && log[c].job == job && log[c].stage.CompleteWrite? && Took(log[c].reply)
    && (forall i :: 0 <= i < c ==> !Clears(log[i], job))
    && (forall i :: 0 <= i < |log| ==> !Activates(log[i], job))
    && (forall p :: 0 <= p < c && Locks(log[p], job) ==> log[c].at <= log[p].at + LOCK_STALE_MS)
  }

  lemma LockComesBefore(log: seq<Event>, created: map<JobId, Kind>, job: JobId, c: int, q: int)
    requires AbsorbInv(created, log) && UndisturbedCompletion(log, created, job, c) && q in LocksTaken(log, job)
    ensures q < c
  {
    assert Ends(created, log[c]);
    assert Picks(log[q], log[c].job);
    assert !ActivatedBetween(log, job, c, q);
  }

  lemma LocksLieFarApart(log: seq<Event>, created: map<JobId, Kind>, job: JobId, c: int, p: int, q: int)
    requires GapInv(log) && UndisturbedCompletion(log, created, job, c)
    requires p in LocksTaken(log, job) && q in LocksTaken(log, job) && p < q < c
    ensures log[q].at > log[p].at + LOCK_STALE_MS
  {
    assert !ClearedBetween(log, job, p, q);
  }

  lemma OnlyOneLock(log: seq<Event>, s: World, job: JobId, c: int)
    requires TimeInv(s.now, log) && GapInv(log) && AbsorbInv(s.created, log)
    requires UndisturbedCompletion(log, s.created, job, c)
    ensures |LocksTaken(log, job)| <= 1
  {
    var locks := LocksTaken(log, job);
    forall p, q | p in locks && q in locks
      ensures p == q
    {
      LockComesBefore(log, s.created, job, c, p);
      LockComesBefore(log, s.created, job, c, q);
      if p < q {
        LocksLieFarApart(log, s.created, job, c, p, q);
      } else if q < p {
        LocksLieFarApart(log, s.created, job, c, q, p);
      }
    }
    MatchingBoundsSize(locks, {0}, (p, one) => true);
  }

  lemma CompletionHasStart(log: seq<Event>, s: World, job: JobId, c: int)
    requires CallInv(log, s.stream) && LogInv(s.stream, s.delivered, log)
    requires 0 <= c < |log| && log[c].Work? && log[c].job == job && log[c].stage.CompleteWrite?
    ensures HandlerStarts(log, job) != {}
  {
    assert Explained(log, s.stream, log[c]);
    var i :| 0 <= i < |log| && Call(log[i], log[c].msg, RecordStart, Returned(true));
    assert i in HandlerStarts(log, job);
  }

  /** Exactly once: one lock, one entry, one handler start, however many schedulers and workers run. */
  lemma StartsExactlyOnce(log: seq<Event>, job: JobId, c: int)
    requires IsRun(log) && UndisturbedCompletion(log, After(log).created, job, c)
    ensures |HandlerStarts(log, job)| == 1
    ensures |Entries(After(log).stream, job)| == 1 && |LocksTaken(log, job)| == 1
  {
    var s := After(log);
    PathsHold(log);
    LocksHold(log);
    OutcomesHold(log);
    TerminalsHold(log);
    LogIsTheRun(log);
    OnlyOneLock(log, s, job, c);
    CompletionHasStart(log, s, job, c);
    BoundedHandlerStarts(log, job);
  }
}
