// Repeated passes of _enqueueDueJobs (src/scheduler/scheduler.js) with no other writer and no rejected
// call: how many rows they publish, which ones, and how often.
module PollDrain {
  import opened Base
  import opened JobRows
  import opened JobService
  import opened Scheduler
  import opened Streams

  /** One pass from `now` to `until`: the batch is fetched, and each of its rows locked at some moment. */
  ghost predicate Pass(jobs: JobTable, now: int, until: int, batch: seq<JobId>, next: JobTable) {
    && IsDueBatch(jobs, now, BATCH_SIZE, batch)
    && next.Keys == jobs.Keys
    && forall j :: j in jobs ==> if j in batch then LockedWithin(jobs[j], next[j], now, until) else next[j] == jobs[j]
  }

  ghost predicate LockedWithin(row: Job, next: Job, now: int, until: int) {
    && next.lockedAt.Some? && now <= next.lockedAt.value <= until
    && next == LockRow(row, "scheduler", next.lockedAt.value)
  }

  /** Without rejected calls, what EnqueueDueJobs ensures is such a pass, with one entry on the stream
      for each job of the batch, in its order. */
  lemma EnqueueIsAPass(
      before: JobTable, after: JobTable, batch: seq<JobId>, times: map<JobId, int>, now: int, until: int, at: string)
    requires IsDueBatch(before, now, BATCH_SIZE, batch) && RowsHandled(before, after, batch, map[], times, now)
    requires now <= until && forall j :: j in times ==> times[j] <= until
    ensures Pass(before, now, until, batch, after)
    ensures forall i :: 0 <= i < |batch| ==> batch[i] in before
    ensures |EntriesFor(batch, before, map[], at)| == |batch|
    ensures forall i :: 0 <= i < |batch| ==>
              EntriesFor(batch, before, map[], at)[i] == Flatten(JobFields(batch[i], before[batch[i]], at))
  {
    hide EntriesFor, JobFields, Flatten;
    BatchRows(before, now, batch);
    forall j | j in batch
      ensures LockedWithin(before[j], after[j], now, until)
    {
      StillLockable(before[j], now, LockTime(times, j, now));
    }
    OneEntryEach(before, batch, at);
  }

  lemma {:induction false} OneEntryEach(jobs: JobTable, batch: seq<JobId>, at: string)
    requires forall i :: 0 <= i < |batch| ==> batch[i] in jobs
    ensures |EntriesFor(batch, jobs, map[], at)| == |batch|
    ensures forall i :: 0 <= i < |batch| ==>
              EntriesFor(batch, jobs, map[], at)[i] == Flatten(JobFields(batch[i], jobs[batch[i]], at))
  {
    hide JobFields, Flatten;
    if batch != [] {
      OneEntryEach(jobs, batch[..|batch| - 1], at);
    }
  }

  /** k passes: pass i runs from times[i] to at most times[i + 1]. */
  ghost predicate Passes(states: seq<JobTable>, times: seq<int>, batches: seq<seq<JobId>>) {
    && |states| == |times| == |batches| + 1
    && forall i :: 0 <= i < |batches| ==>
        times[i] <= times[i + 1] && Pass(states[i], times[i], times[i + 1], batches[i], states[i + 1])
  }

  /** The first pass sees every row that is ever eligible, and the last ends before a lock goes stale. */
  ghost predicate Closed(jobs: JobTable, start: int, end: int) {
    && end - start <= LOCK_STALE_MS
    && forall j :: j in jobs && Due(jobs[j], end) ==> Due(jobs[j], start)
  }

  /** All published jobs, in order. */
  function Published(batches: seq<seq<JobId>>): seq<JobId> {
    if batches == [] then [] else Published(batches[..|batches| - 1]) + batches[|batches| - 1]
  }

  ghost predicate Distinct(s: seq<JobId>) {
    forall i, k :: 0 <= i < k < |s| ==> s[i] != s[k]
  }

  /** Some of the rows due at first, each once, in order of next_run_at, none later than one left out. */
  ghost predicate EarliestDue(first: JobTable, start: int, done: seq<JobId>) {
    && Distinct(done)
    && (forall i :: 0 <= i < |done| ==> done[i] in DueJobs(first, start))
    && (forall i, k :: 0 <= i < k < |done| ==> DueAt(first, done[i]) <= DueAt(first, done[k]))
    && (forall i, j :: 0 <= i < |done| && j in DueJobs(first, start) && j !in done ==>
        DueAt(first, done[i]) <= DueAt(first, j))
  }

  /** Published rows are locked and nothing else about them, or about any other row, has changed. */
  ghost predicate OnlyLocked(first: JobTable, start: int, jobs: JobTable, now: int, done: seq<JobId>) {
    && jobs.Keys == first.Keys
    && (forall j :: j in done ==> j in first && LockedWithin(first[j], jobs[j], start, now))
    && (forall j :: j in jobs && j !in done ==> jobs[j] == first[j])
  }

  ghost predicate Drained(first: JobTable, start: int, jobs: JobTable, now: int, done: seq<JobId>) {
    EarliestDue(first, start, done) && OnlyLocked(first, start, jobs, now, done)
  }

  function Items(s: seq<JobId>): set<JobId> {
    set j | j in s
  }

  lemma {:induction false} DistinctSize(s: seq<JobId>)
    requires Distinct(s)
    ensures |Items(s)| == |s|
  {
    if s != [] {
      var front := s[..|s| - 1];
      DistinctSize(front);
      assert Items(s) == Items(front) + {s[|s| - 1]};
    }
  }

  /** The rows still eligible are the first ones not yet published. */
  lemma StillDue(first: JobTable, start: int, jobs: JobTable, now: int, end: int, done: seq<JobId>)
    requires Drained(first, start, jobs, now, done) && start <= now <= end && Closed(first, start, end)
    ensures DueJobs(jobs, now) == DueJobs(first, start) - Items(done)
  {
    forall j | j in jobs
      ensures Due(jobs[j], now) <==> Due(first[j], start) && j !in done
    {
      if j in done {
        assert LockedWithin(first[j], jobs[j], start, now);
      } else if Due(jobs[j], now) {
        StillLockable(first[j], now, end);
      } else if Due(first[j], start) {
        StillLockable(first[j], start, now);
      }
    }
  }

  lemma {:induction false} DrainedAfter(states: seq<JobTable>, times: seq<int>, batches: seq<seq<JobId>>)
    requires Passes(states, times, batches) && Closed(states[0], times[0], times[|batches|])
    ensures times[0] <= times[|batches|]
    ensures Drained(states[0], times[0], states[|batches|], times[|batches|], Published(batches))
    ensures var n := |DueJobs(states[0], times[0])|;
            |Published(batches)| == if n < BATCH_SIZE * |batches| then n else BATCH_SIZE * |batches|
    decreases |batches|
  {
    if batches != [] {
      var k := |batches| - 1;
      AllLater(states, times, batches);
      EarlierIsClosed(states[0], times[0], times[k], times[k + 1]);
      DrainedAfter(states[..k + 1], times[..k + 1], batches[..k]);
      OnePass(states[0], times[0], states[k], times[k], times[k + 1], Published(batches[..k]), batches[k],
          states[k + 1]);
    }
  }

  lemma AllLater(states: seq<JobTable>, times: seq<int>, batches: seq<seq<JobId>>)
    requires Passes(states, times, batches) && batches != []
    ensures Passes(states[..|batches|], times[..|batches|], batches[..|batches| - 1])
    ensures times[|batches| - 1] <= times[|batches|]
    ensures Pass(states[|batches| - 1], times[|batches| - 1], times[|batches|], batches[|batches| - 1],
            states[|batches|])
  {
    hide Pass;
  }

  lemma EarlierIsClosed(jobs: JobTable, start: int, now: int, end: int)
    requires Closed(jobs, start, end) && now <= end
    ensures Closed(jobs, start, now)
  {
    forall j | j in jobs && Due(jobs[j], now)
      ensures Due(jobs[j], start)
    {
      StillLockable(jobs[j], now, end);
    }
  }

  /** The batch holds the earliest of the rows not yet published. */
  ghost predicate NextEarliest(first: JobTable, start: int, done: seq<JobId>, batch: seq<JobId>) {
    && (forall i :: 0 <= i < |batch| ==> batch[i] in DueJobs(first, start) && batch[i] !in done)
    && (forall i, k :: 0 <= i < k < |batch| ==>
        batch[i] != batch[k] && DueAt(first, batch[i]) <= DueAt(first, batch[k]))
    && (forall i, j :: 0 <= i < |batch| && j in DueJobs(first, start) && j !in done && j !in batch ==>
          DueAt(first, batch[i]) <= DueAt(first, j))
  }

  lemma BatchIsNext(
      first: JobTable, start: int, jobs: JobTable, now: int, end: int, done: seq<JobId>, batch: seq<JobId>)
    requires Drained(first, start, jobs, now, done) && start <= now <= end && Closed(first, start, end)
    requires IsDueBatch(jobs, now, BATCH_SIZE, batch)
    ensures NextEarliest(first, start, done, batch)
    ensures var left := |DueJobs(first, start)| - |done|; |batch| == if left < BATCH_SIZE then left else BATCH_SIZE
  {
    hide Due, LockedWithin, Closed;
    StillDue(first, start, jobs, now, end, done);
    var due := DueJobs(jobs, now);
    assert forall j :: j in due ==> j !in done && j in jobs && jobs[j] == first[j] && DueAt(jobs, j) == DueAt(first, j);
    DistinctSize(done);
    assert Items(done) <= DueJobs(first, start);
    assert |due| == |DueJobs(first, start)| - |done|;
    assert forall i :: 0 <= i < |batch| ==> batch[i] in due;
    assert forall j :: j in DueJobs(first, start) && j !in done ==> j in due;
  }

  lemma EarliestGrows(first: JobTable, start: int, done: seq<JobId>, batch: seq<JobId>)
    requires EarliestDue(first, start, done) && NextEarliest(first, start, done, batch)
    ensures EarliestDue(first, start, done + batch)
  {
    hide DueAt, DueJobs;
    var all := done + batch;
    assert forall j :: j in all <==> j in done || j in batch;
    forall i, k | 0 <= i < k < |all|
      ensures all[i] != all[k] && DueAt(first, all[i]) <= DueAt(first, all[k])
    {
      if |done| <= k {
        assert all[k] == batch[k - |done|];
        assert |done| <= i ==> all[i] == batch[i - |done|];
      }
    }
    forall i, j | 0 <= i < |all| && j in DueJobs(first, start) && j !in all
      ensures DueAt(first, all[i]) <= DueAt(first, j)
    {
      assert |done| <= i ==> all[i] == batch[i - |done|];
    }
  }

  lemma LocksGrow(first: JobTable, start: int, jobs: JobTable, now: int, until: int, done: seq<JobId>,
      batch: seq<JobId>, next: JobTable)
    requires OnlyLocked(first, start, jobs, now, done) && start <= now <= until && Pass(jobs, now, until, batch, next)
    requires forall i :: 0 <= i < |batch| ==> batch[i] !in done
    ensures OnlyLocked(first, start, next, until, done + batch)
  {
    hide IsDueBatch;
    assert forall j :: j in done + batch <==> j in done || j in batch;
    forall j | j in done + batch
      ensures j in first && LockedWithin(first[j], next[j], start, until)
    {
      if j in batch {
        BatchRows(jobs, now, batch);
      } else {
        assert LockedWithin(first[j], jobs[j], start, now);
      }
    }
  }

  lemma OnePass(first: JobTable, start: int, jobs: JobTable, now: int, until: int, done: seq<JobId>,
      batch: seq<JobId>, next: JobTable)
    requires Drained(first, start, jobs, now, done) && start <= now <= until && Closed(first, start, until)
    requires Pass(jobs, now, until, batch, next)
    ensures Drained(first, start, next, until, done + batch)
    ensures var left := |DueJobs(first, start)| - |done|;
            |done + batch| == |done| + if left < BATCH_SIZE then left else BATCH_SIZE
  {
    BatchIsNext(first, start, jobs, now, until, done, batch);
    EarliestGrows(first, start, done, batch);
    LocksGrow(first, start, jobs, now, until, done, batch, next);
  }

  /** With no other writer, no rejected call and no further row becoming eligible, k passes publish the
      min(10k, n) eligible rows with the smallest next_run_at, each exactly once and in that order; so
      once 10k reaches n, every eligible row has been published. */
  lemma PassesDrain(states: seq<JobTable>, times: seq<int>, batches: seq<seq<JobId>>)
    requires Passes(states, times, batches) && Closed(states[0], times[0], times[|batches|])
    ensures var eligible, published := DueJobs(states[0], times[0]), Published(batches);
            && EarliestDue(states[0], times[0], published)
            && |published| == (if |eligible| < BATCH_SIZE * |batches| then |eligible| else BATCH_SIZE * |batches|)
            && (|eligible| <= BATCH_SIZE * |batches| ==> Items(published) == eligible)
  {
    DrainedAfter(states, times, batches);
    var eligible, published := DueJobs(states[0], times[0]), Published(batches);
    DistinctSize(published);
    assert Items(published) <= eligible;
    if |published| == |eligible| {
      SameSize(Items(published), eligible);
    }
  }

  lemma SameSize(a: set<JobId>, b: set<JobId>)
    requires a <= b && |a| == |b|
    ensures a == b
  {
    assert |b - a| == 0;
  }
}
