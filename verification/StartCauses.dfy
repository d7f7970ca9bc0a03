// What lets a job be locked, and so started, more than once: a lock gone stale, or a write that gives the
// row back to the scheduler.
module StartCauses {
  import opened Base
  import opened JobRows
  import opened Protocol
  import opened RowLocks
  import opened TerminalStates
  import opened BoundedExecution

  /** A write gives the job back: it clears the row lock without ending the job, or it activates a job
      whose last lock-clearing write ended it. */
  ghost predicate Reopens(log: seq<Event>, created: map<JobId, Kind>, job: JobId, i: int)
    requires 0 <= i < |log|
  {
    if Clears(log[i], job) then !Ends(created, log[i])
    else
      var c := LastClear(log, job, i);
      Activates(log[i], job) && 0 <= c && Ends(created, log[c])
  }

  ghost function Reopenings(log: seq<Event>, created: map<JobId, Kind>, job: JobId): set<int> {
    set i | 0 <= i < |log| && Reopens(log, created, job, i)
  }

  /** Position of the last activation of `job` before `q`, or -1. */
  ghost function LastActivation(log: seq<Event>, job: JobId, q: int): (d: int)
    requires 0 <= q <= |log|
    ensures -1 <= d < q
    ensures 0 <= d ==> Activates(log[d], job)
    ensures forall i :: d < i < q ==> !Activates(log[i], job)
  {
    if q == 0 then -1 else if Activates(log[q - 1], job) then q - 1 else LastActivation(log, job, q - 1)
  }

  /** What allowed the lock at `q`: itself when it is a retake; the last clear before it, when that did not
      end the job; the last activation, when it did; -1 for the first lock. */
  ghost function Permit(log: seq<Event>, created: map<JobId, Kind>, job: JobId, q: int): int
    requires 0 <= q < |log|
  {
    var c := LastClear(log, job, q);
    if Retaken(log, job, q) then q
    else if c < 0 || !Ends(created, log[c]) then c
    else LastActivation(log, job, q)
  }

  lemma LastClearIs(log: seq<Event>, job: JobId, q: int, c: int)
    requires 0 <= c < q <= |log| && Clears(log[c], job) && forall i :: c < i < q ==> !Clears(log[i], job)
    ensures LastClear(log, job, q) == c
  {
  }

  /** An ended job is locked again only after an activation. */
  lemma ActivatedSinceEnd(log: seq<Event>, created: map<JobId, Kind>, job: JobId, q: int)
    requires AbsorbInv(created, log) && q in LocksTaken(log, job)
    requires var c := LastClear(log, job, q); 0 <= c && Ends(created, log[c])
    ensures LastClear(log, job, q) < LastActivation(log, job, q)
    ensures LastActivation(log, job, q) in Reopenings(log, created, job)
  {
    var c, d := LastClear(log, job, q), LastActivation(log, job, q);
    assert Picks(log[q], log[c].job);
    assert ActivatedBetween(log, job, c, q);
    LastClearIs(log, job, d, c);
  }

  lemma PermitIsCause(log: seq<Event>, created: map<JobId, Kind>, job: JobId, q: int)
    requires AbsorbInv(created, log) && q in LocksTaken(log, job)
    ensures Permit(log, created, job, q) in {-1} + Reopenings(log, created, job) + Retakes(log, job)
  {
    var c := LastClear(log, job, q);
    if 0 <= c && Ends(created, log[c]) {
      ActivatedSinceEnd(log, created, job, q);
    }
  }

  lemma PermitsTellLocksApart(log: seq<Event>, created: map<JobId, Kind>, job: JobId, p: int, q: int)
    requires GapInv(log) && AbsorbInv(created, log) && p in LocksTaken(log, job) && q in LocksTaken(log, job) && p < q
    ensures Permit(log, created, job, p) <= p < Permit(log, created, job, q)
  {
    var c := LastClear(log, job, q);
    if !Retaken(log, job, q) {
      assert ClearedBetween(log, job, p, q);
      assert p < c;
      if Ends(created, log[c]) {
        ActivatedSinceEnd(log, created, job, q);
      }
    }
  }

  lemma LocksBoundedByCauses(log: seq<Event>, created: map<JobId, Kind>, job: JobId)
    requires GapInv(log) && AbsorbInv(created, log)
    ensures |LocksTaken(log, job)| <= 1 + |Reopenings(log, created, job)| + |Retakes(log, job)|
  {
    hide GapInv, AbsorbInv, Permit, LocksTaken, Reopenings, Retakes;
    var locks, reopenings, retakes := LocksTaken(log, job), Reopenings(log, created, job), Retakes(log, job);
    forall p, q | p in locks && q in locks && p != q
      ensures InLog(log, p) && InLog(log, q) && Permit(log, created, job, p) != Permit(log, created, job, q)
    {
      LocksAreInLog(log, job);
      if p < q {
        PermitsTellLocksApart(log, created, job, p, q);
      } else {
        PermitsTellLocksApart(log, created, job, q, p);
      }
    }
    LocksAreInLog(log, job);
    forall q | q in locks
      ensures InLog(log, q) && Permit(log, created, job, q) in {-1} + reopenings + retakes
    {
      PermitIsCause(log, created, job, q);
    }
    MatchingBoundsSize(locks, {-1} + reopenings + retakes,
        (q, r) => InLog(log, q) && Permit(log, created, job, q) == r);
  }

  predicate InLog(log: seq<Event>, i: int) {
    0 <= i < |log|
  }

  lemma LocksAreInLog(log: seq<Event>, job: JobId)
    ensures forall q :: q in LocksTaken(log, job) ==> InLog(log, q)
  {
  }

  /** In every run, per job, without any hypothesis: handler starts are at most one more than the writes
      that gave the job back and the locks retaken after five minutes. */
  lemma StartsBoundedByCauses(log: seq<Event>, job: JobId)
    requires IsRun(log)
    ensures |HandlerStarts(log, job)| <= 1 + |Reopenings(log, After(log).created, job)| + |Retakes(log, job)|
  {
    hide GapInv, AbsorbInv;
    LocksHold(log);
    TerminalsHold(log);
    LogIsTheRun(log);
    BoundedHandlerStarts(log, job);
    LocksBoundedByCauses(log, After(log).created, job);
  }

  /** Clears that leave the job to be run again. */
  ghost function OpenClears(log: seq<Event>, created: map<JobId, Kind>, job: JobId): set<int> {
    set c | 0 <= c < |log| && Clears(log[c], job) && !Ends(created, log[c])
  }

  /** For a job that is never resumed, activated by a trigger or requeued, only lock-clearing writes that
      do not end it count. */
  lemma StartsOfUnactivatedJob(log: seq<Event>, job: JobId)
    requires IsRun(log) && NeverActivated(log, job)
    ensures |HandlerStarts(log, job)| <= 1 + |OpenClears(log, After(log).created, job)| + |Retakes(log, job)|
  {
    StartsBoundedByCauses(log, job);
    assert Reopenings(log, After(log).created, job) == OpenClears(log, After(log).created, job);
  }
}
