// Handler starts, published entries and row locks of one job, counted over a whole run.
module BoundedExecution {
  import opened Base
  import opened JobRows
  import opened Protocol
  import opened MessagePaths
  import opened RowLocks

  /** recordStart inserted its row and returned: the handler is called next, with no await between. */
  predicate Starts(e: Event, job: JobId) {
    e.Work? && e.job == job && e.stage.RecordStart? && e.reply == Returned(true)
  }

  ghost function HandlerStarts(log: seq<Event>, job: JobId): set<int> {
    set i | 0 <= i < |log| && Starts(log[i], job)
  }

  ghost function Entries(stream: seq<Message>, job: JobId): set<int> {
    set m | 0 <= m < |stream| && stream[m].job == job
  }

  ghost function LocksTaken(log: seq<Event>, job: JobId): set<int> {
    set p | 0 <= p < |log| && Locks(log[p], job)
  }

  ghost function LockClears(log: seq<Event>, job: JobId): set<int> {
    set c | 0 <= c < |log| && Clears(log[c], job)
  }

  /** The lock at `q` replaced one taken more than five minutes earlier and never cleared. */
  ghost predicate Retaken(log: seq<Event>, job: JobId, q: int)
    requires 0 <= q < |log|
  {
    exists p :: 0 <= p < q && Locks(log[p], job) && !ClearedBetween(log, job, p, q)
                && log[q].at > log[p].at + LOCK_STALE_MS
  }

  ghost function Retakes(log: seq<Event>, job: JobId): set<int> {
    set q | 0 <= q < |log| && Locks(log[q], job) && Retaken(log, job, q)
  }

  /** Two steps of one entry at the same stage are the same step; so an entry reaches
      _executeJob, starts its handler, and completes or fails its job at most once each. */
  lemma EachStageAtMostOnce(log: seq<Event>, i: int, k: int)
    requires IsRun(log) && 0 <= i < |log| && 0 <= k < |log|
    requires log[i].Work? && log[k].Work? && log[i].msg == log[k].msg && log[i].stage == log[k].stage
    ensures i == k
  {
    PathsHold(log);
    LogIsTheRun(log);
  }

  lemma StartsBoundedByEntries(
      stream: seq<Message>, delivered: nat, log: seq<Event>, workers: map<WorkerId, Exec>, job: JobId)
    requires LogInv(stream, delivered, log) && ForwardInv(log, workers)
    ensures |HandlerStarts(log, job)| <= |Entries(stream, job)|
  {
    forall i | i in HandlerStarts(log, job)
      ensures log[i].msg in Entries(stream, job) && 0 <= i < |log| && WorkOn(log[i], log[i].msg)
    {
    }
    MatchingBoundsSize(HandlerStarts(log, job), Entries(stream, job),
        (i, m) => 0 <= i < |log| && log[i].Work? && log[i].msg == m);
  }

  lemma EntriesBoundedByLocks(log: seq<Event>, stream: seq<Message>, job: JobId)
    requires TicketInv(log, stream)
    ensures |Entries(stream, job)| <= |LocksTaken(log, job)|
  {
    forall m | m in Entries(stream, job)
      ensures stream[m].ticket in LocksTaken(log, job)
    {
      assert IsTicket(log, stream[m].ticket, stream[m].job);
    }
    MatchingBoundsSize(Entries(stream, job), LocksTaken(log, job),
        (m, p) => 0 <= m < |stream| && stream[m].ticket == p);
  }

  /** Position of the last clear of `job` before `q`, or -1. */
  ghost function LastClear(log: seq<Event>, job: JobId, q: int): (c: int)
    requires 0 <= q <= |log|
    ensures -1 <= c < q
    ensures 0 <= c ==> Clears(log[c], job)
    ensures forall d :: c < d < q ==> !Clears(log[d], job)
  {
    if q == 0 then -1 else if Clears(log[q - 1], job) then q - 1 else LastClear(log, job, q - 1)
  }

  /** What allowed the lock at `q`: itself when it is a retake, otherwise the last clear before it. */
  ghost function Reason(log: seq<Event>, job: JobId, q: int): int
    requires 0 <= q < |log|
  {
    if Retaken(log, job, q) then q else LastClear(log, job, q)
  }

  lemma ReasonTellsLocksApart(log: seq<Event>, job: JobId, p: int, q: int)
    requires GapInv(log) && p in LocksTaken(log, job) && q in LocksTaken(log, job) && p < q
    ensures Reason(log, job, p) != Reason(log, job, q)
  {
    if !Retaken(log, job, q) {
      assert ClearedBetween(log, job, p, q);
    }
  }

  lemma ReasonIsClearOrRetake(log: seq<Event>, job: JobId, q: int)
    requires q in LocksTaken(log, job)
    ensures Reason(log, job, q) in {-1} + LockClears(log, job) + Retakes(log, job)
  {
  }

  lemma LocksBoundedByClears(log: seq<Event>, job: JobId)
    requires GapInv(log)
    ensures |LocksTaken(log, job)| <= 1 + |LockClears(log, job)| + |Retakes(log, job)|
  {
    var locks, clears, retakes := LocksTaken(log, job), LockClears(log, job), Retakes(log, job);
    forall p, q | p in locks && q in locks && p != q
      ensures Reason(log, job, p) != Reason(log, job, q)
    {
      if p < q {
        ReasonTellsLocksApart(log, job, p, q);
      } else {
        ReasonTellsLocksApart(log, job, q, p);
      }
    }
    forall q | q in locks
      ensures Reason(log, job, q) in {-1} + clears + retakes
    {
      ReasonIsClearOrRetake(log, job, q);
    }
    MatchingBoundsSize(locks, {-1} + clears + retakes, (q, r) => 0 <= q < |log| && Reason(log, job, q) == r);
  }

  /** Handler starts <= entries published <= successful lockJob calls
      <= 1 + lock-clearing writes + locks retaken after five minutes. */
  lemma BoundedHandlerStarts(log: seq<Event>, job: JobId)
    requires IsRun(log)
    ensures |HandlerStarts(log, job)| <= |Entries(After(log).stream, job)| <= |LocksTaken(log, job)|
    ensures |LocksTaken(log, job)| <= 1 + |LockClears(log, job)| + |Retakes(log, job)|
  {
    var s := After(log);
    PathsHold(log);
    LocksHold(log);
    LogIsTheRun(log);
    StartsBoundedByEntries(s.stream, s.delivered, log, s.workers, job);
    EntriesBoundedByLocks(log, s.stream, job);
    LocksBoundedByClears(log, job);
  }

  /** Locks taken at the given increasing positions, with no clear anywhere between the first and the last. */
  ghost predicate UnclearedLocks(log: seq<Event>, job: JobId, locks: seq<int>) {
    && (forall i :: 0 <= i < |locks| ==> 0 <= locks[i] < |log| && Locks(log[locks[i]], job))
    && (forall i, k :: 0 <= i < k < |locks| ==> locks[i] < locks[k])
    && (|locks| > 0 ==> !ClearedBetween(log, job, locks[0], locks[|locks| - 1]))
  }

  lemma {:induction false} UnclearedLocksSpreadIn(log: seq<Event>, job: JobId, locks: seq<int>)
    requires GapInv(log) && |locks| > 1 && UnclearedLocks(log, job, locks)
    ensures log[locks[|locks| - 1]].at > log[locks[0]].at + (|locks| - 1) * LOCK_STALE_MS
  {
    var last := |locks| - 1;
    var p, q := locks[last - 1], locks[last];
    assert locks[0] <= p < q;
    assert !ClearedBetween(log, job, p, q);
    assert log[q].at > log[p].at + LOCK_STALE_MS;
    if last > 1 {
      assert !ClearedBetween(log, job, locks[0], p);
      UnclearedLocksSpreadIn(log, job, locks[..last]);
    }
  }

  /** k locks with no clear between them span more than (k - 1) * 5 minutes. */
  lemma UnclearedLocksSpread(log: seq<Event>, job: JobId, locks: seq<int>)
    requires IsRun(log) && |locks| > 1 && UnclearedLocks(log, job, locks)
    ensures log[locks[|locks| - 1]].at > log[locks[0]].at + (|locks| - 1) * LOCK_STALE_MS
  {
    LocksHold(log);
    LogIsTheRun(log);
    UnclearedLocksSpreadIn(log, job, locks);
  }

  /** Every entry has a successful lockJob of its own, taken after the row was read; no two entries
      share one, however many loops run. */
  lemma PublishHasItsOwnLock(log: seq<Event>, m: nat, n: nat)
    requires IsRun(log) && m < |After(log).stream| && n < |After(log).stream| && m != n
    ensures var stream := After(log).stream;
            && stream[m].fetched < stream[m].ticket < |log| && Locks(log[stream[m].ticket], stream[m].job)
            && stream[m].ticket != stream[n].ticket
  {
    LocksHold(log);
    LogIsTheRun(log);
  }
}
