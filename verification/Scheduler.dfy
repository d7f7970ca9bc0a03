// src/scheduler/scheduler.js: one pass of _enqueueDueJobs with any of its calls rejected, and how
// repeated passes drain the due rows.
module Scheduler {
  import opened Base
  import opened JobRows
  import JS = JobService
  import opened ConsumerGroup
  import opened Streams

  // ----- one pass -----

  /** Which calls for a job are rejected, and whether the command took effect all the same. */
  datatype Fault = Fault(lock: Option<bool>, publish: Option<bool>, unlock: Option<bool>)

  type Faults = map<JobId, Fault>

  function FaultOf(faults: Faults, j: JobId): Fault {
    if j in faults then faults[j] else Fault(None, None, None)
  }

  /** The database time at which a job is locked: no earlier than the fetch. */
  function LockTime(times: map<JobId, int>, j: JobId, now: int): (t: int)
    ensures now <= t
  {
    if j in times && now <= times[j] then times[j] else now
  }

  /** The message of a job reaches the stream. */
  predicate Publishes(f: Fault) {
    f.lock.None? && f.publish != Some(false)
  }

  /** A call before the end of the try block was rejected. */
  predicate Caught(f: Fault) {
    f.lock.Some? || f.publish.Some?
  }

  /** A row after the calls for its job, made at time t. The unlock of the catch block does not ask who
      holds the lock. */
  function RowAfter(row: Job, f: Fault, t: int): Job {
    if f.lock.None? && !Lockable(row, t) then row
    else
      var tried := if f.lock != Some(false) && Lockable(row, t) then LockRow(row, "scheduler", t) else row;
      if Caught(f) && f.unlock != Some(false) then UnlockRow(tried) else tried
  }

  /** The entries published for some fetched rows, in order. */
  function EntriesFor(batch: seq<JobId>, jobs: JobTable, faults: Faults, at: string): seq<seq<string>>
    requires forall i :: 0 <= i < |batch| ==> batch[i] in jobs
  {
    if batch == [] then []
    else
      var j := batch[|batch| - 1];
      EntriesFor(batch[..|batch| - 1], jobs, faults, at)
      + (if Publishes(FaultOf(faults, j)) then [Flatten(JobFields(j, jobs[j], at))] else [])
  }

  /** The table after the first jobs of a batch have been handled. */
  ghost predicate RowsHandled(
      before: JobTable, jobs: JobTable, handled: seq<JobId>, faults: Faults, times: map<JobId, int>, now: int)
  {
    && jobs.Keys == before.Keys
    && forall j :: j in jobs ==>
        jobs[j] == if j in handled then RowAfter(before[j], FaultOf(faults, j), LockTime(times, j, now)) else before[j]
  }

  /** A fetched row stays eligible until something writes it. */
  lemma StillLockable(row: Job, now: int, t: int)
    requires Due(row, now) && now <= t
    ensures Due(row, t) && Lockable(row, t)
  {
  }

  /** A job whose message is on the stream is left due, to be published again by the next pass, exactly
      when its publish was rejected after taking effect and the unlock took effect. */
  lemma PublishedTwiceExactlyWhen(row: Job, f: Fault, now: int, t: int)
    requires Due(row, now) && now <= t
    ensures Publishes(f) && Due(RowAfter(row, f, t), t) <==>
            f.publish == Some(true) && f.lock.None? && f.unlock != Some(false)
  {
    Answers(f.lock);
    Answers(f.publish);
    Answers(f.unlock);
  }

  lemma Answers(o: Option<bool>)
    ensures o == None || o == Some(true) || o == Some(false)
  {
    if o.Some? {
      assert o == Some(o.value);
      assert o.value || !o.value;
    }
  }

  /** A job is left locked without a message exactly when the lock took effect, the publish did not, and
      the unlock was lost: nothing happens to it for five minutes. */
  lemma StrandedExactlyWhen(row: Job, f: Fault, now: int, t: int)
    requires Due(row, now) && now <= t
    ensures !Publishes(f) && !Due(RowAfter(row, f, t), t) <==>
            f.unlock == Some(false) && (f.lock == Some(true) || (f.lock.None? && f.publish == Some(false)))
    ensures !Publishes(f) ==> Due(RowAfter(row, f, t), t + LOCK_STALE_MS + 1)
  {
    Answers(f.lock);
    Answers(f.publish);
    Answers(f.unlock);
  }

  /** A rejected lockJob frees the lock of whoever holds the row: a job another loop has just enqueued
      becomes due again. */
  lemma RejectedLockFreesTheHolder(row: Job, f: Fault, t: int)
    requires row.status.Active? && row.nextRunAt.Some? && row.nextRunAt.value <= t && !LockFree(row, t)
    ensures Due(RowAfter(row, f, t), t) <==> f.lock.Some? && f.unlock != Some(false)
  {
  }

  lemma EntriesOneMore(batch: seq<JobId>, i: nat, jobs: JobTable, faults: Faults, at: string)
    requires i < |batch| && forall k :: 0 <= k < |batch| ==> batch[k] in jobs
    ensures EntriesFor(batch[..i + 1], jobs, faults, at)
            == EntriesFor(batch[..i], jobs, faults, at)
               + if Publishes(FaultOf(faults, batch[i])) then [Flatten(JobFields(batch[i], jobs[batch[i]], at))] else []
  {
    assert batch[..i + 1][..i] == batch[..i];
  }

  /** What the loop needs of a fetched batch. */
  lemma BatchRows(jobs: JobTable, now: int, batch: seq<JobId>)
    requires JS.IsDueBatch(jobs, now, BATCH_SIZE, batch)
    ensures forall i :: 0 <= i < |batch| ==> batch[i] in jobs && Due(jobs[batch[i]], now) && batch[i] !in batch[..i]
  {
  }

  lemma HandleOne(before: JobTable, jobs: JobTable, handled: seq<JobId>, j: JobId, after: JobTable, faults: Faults,
                  times: map<JobId, int>, now: int)
    requires RowsHandled(before, jobs, handled, faults, times, now) && j in before && jobs.Keys == before.Keys
    requires after.Keys == before.Keys && after[j] == RowAfter(before[j], FaultOf(faults, j), LockTime(times, j, now))
    requires forall k :: k in jobs && k != j ==> after[k] == jobs[k]
    ensures RowsHandled(before, after, handled + [j], faults, times, now)
  {
    assert forall k :: k in handled + [j] <==> k in handled || k == j;
  }

  lemma NothingHandled(before: JobTable, faults: Faults, times: map<JobId, int>, now: int, at: string)
    ensures RowsHandled(before, before, [], faults, times, now) && EntriesFor([], before, faults, at) == []
  {
  }

  lemma Untouched(
      before: JobTable, jobs: JobTable, handled: seq<JobId>, j: JobId, faults: Faults, times: map<JobId, int>, now: int)
    requires RowsHandled(before, jobs, handled, faults, times, now) && j in before && j !in handled
    ensures j in jobs && jobs[j] == before[j] && jobs.Keys == before.Keys
  {
  }

  class Scheduler {
    const jobService: JS.JobService
    const streamManager: StreamManager
    var running: bool
    var pollTimer: bool

    constructor (jobService: JS.JobService, streamManager: StreamManager)
      ensures this.jobService == jobService && this.streamManager == streamManager && !running && !pollTimer
    {
      this.jobService, this.streamManager, running, pollTimer := jobService, streamManager, false, false;
    }

    /** Called when the node becomes leader: nothing on a running scheduler; otherwise the consumer groups are
        there before the first poll, and a rejected initialize leaves the scheduler stopped. */
    method Start(rejected: bool)
      requires streamManager.redis.Valid()
      modifies this`running, streamManager, streamManager.redis`group, streamManager.redis`dlqGroup
      ensures streamManager.redis.Valid() && running == (old(running) || !rejected)
      ensures !old(running) && !rejected ==> streamManager.initialized
      ensures !old(running) && !rejected && !old(streamManager.initialized) ==> streamManager.redis.group
      ensures old(running) || rejected ==>
                streamManager.redis.group == old(streamManager.redis.group)
                && streamManager.initialized == old(streamManager.initialized)
    {
      if running || rejected {
        return;
      }
      streamManager.Initialize();
      running := true;
    }

    /** The body of the for loop for one fetched job, with its try and catch: `job` is the row as it was
        fetched, which may have changed since. */
    method EnqueueOne(id: JobId, job: Job, f: Fault, at: string, t: int)
      requires streamManager.redis.Valid()
      modifies jobService, streamManager.redis`entries
      ensures streamManager.redis.Valid()
      ensures jobService.jobs ==
              if id in old(jobService.jobs)
              then old(jobService.jobs)[id := RowAfter(old(jobService.jobs)[id], f, t)]
              else old(jobService.jobs)
      ensures var able := id in old(jobService.jobs) && Lockable(old(jobService.jobs)[id], t);
              streamManager.redis.entries ==
              old(streamManager.redis.entries)
              + if able && Publishes(f) then [Flatten(JobFields(id, job, at))] else []
    {
      var threw := f.lock.Some?;
      if f.lock != Some(false) {
        var locked := jobService.LockJob(id, "scheduler", t);
        if !locked && !threw {
          assert id in jobService.jobs ==> jobService.jobs == jobService.jobs[id := jobService.jobs[id]];
          return;
        }
      }
      if !threw {
        if f.publish != Some(false) {
          var _ := streamManager.Publish(id, job, at);
        }
        threw := f.publish.Some?;
      }
      if threw && f.unlock != Some(false) {
        jobService.UnlockJob(id);
      }
      assert id in jobService.jobs ==> jobService.jobs == jobService.jobs[id := jobService.jobs[id]];
    }

    /** Every fetched row is handled once, in the order of next_run_at: its row and its message are as
        its own calls left them, and no other row changes. */
    method EnqueueDueJobs(now: int, times: map<JobId, int>, at: string, faults: Faults) returns (batch: seq<JobId>)
      requires streamManager.redis.Valid()
      modifies jobService, streamManager.redis`entries
      ensures streamManager.redis.Valid()
      ensures JS.IsDueBatch(old(jobService.jobs), now, BATCH_SIZE, batch)
      ensures forall i :: 0 <= i < |batch| ==> batch[i] in old(jobService.jobs)
      ensures RowsHandled(old(jobService.jobs), jobService.jobs, batch, faults, times, now)
      ensures streamManager.redis.entries ==
              old(streamManager.redis.entries) + EntriesFor(batch, old(jobService.jobs), faults, at)
    {
      hide JS.IsDueBatch, RowAfter, Publishes, EntriesFor, RowsHandled, JobFields, Flatten, Due, Lockable, Partition,
          FaultOf, LockTime;
      batch := jobService.GetDueJobs(now, BATCH_SIZE);
      ghost var before, entries := jobService.jobs, streamManager.redis.entries;
      var fetched := jobService.jobs;
      BatchRows(before, now, batch);
      NothingHandled(before, faults, times, now, at);
      assert batch[..0] == [];
      var i := 0;
      while i < |batch|
        invariant 0 <= i <= |batch|
        invariant streamManager.redis.Valid()
        invariant RowsHandled(before, jobService.jobs, batch[..i], faults, times, now)
        invariant streamManager.redis.entries == entries + EntriesFor(batch[..i], before, faults, at)
      {
        var id := batch[i];
        ghost var jobs := jobService.jobs;
        StillLockable(before[id], now, LockTime(times, id, now));
        Untouched(before, jobs, batch[..i], id, faults, times, now);
        EntriesOneMore(batch, i, before, faults, at);
        EnqueueOne(id, fetched[id], FaultOf(faults, id), at, LockTime(times, id, now));
        assert jobService.jobs.Keys == jobs.Keys;
        HandleOne(before, jobs, batch[..i], id, jobService.jobs, faults, times, now);
        assert batch[..i + 1] == batch[..i] + [id];
        i := i + 1;
      }
      assert batch[..i] == batch;
    }

    /** One run of _pollLoop. `fetchLost` says that getDueJobs was rejected, `stopped` that stop() ran
        during the pass. Errors never end the polling: the timer is re-armed exactly while running. */
    method PollLoop(now: int, times: map<JobId, int>, at: string, faults: Faults, fetchLost: bool, stopped: bool)
      requires streamManager.redis.Valid()
      modifies this, jobService, streamManager.redis`entries
      ensures streamManager.redis.Valid() && running == (old(running) && !stopped)
      ensures pollTimer == if !old(running) then old(pollTimer) else running
      ensures !old(running) || fetchLost ==>
                && jobService.jobs == old(jobService.jobs)
                && streamManager.redis.entries == old(streamManager.redis.entries)
      ensures old(running) && !fetchLost ==>
                exists batch ::
                  && JS.IsDueBatch(old(jobService.jobs), now, BATCH_SIZE, batch)
                  && (forall i :: 0 <= i < |batch| ==> batch[i] in old(jobService.jobs))
                  && RowsHandled(old(jobService.jobs), jobService.jobs, batch, faults, times, now)
                  && streamManager.redis.entries ==
                     old(streamManager.redis.entries) + EntriesFor(batch, old(jobService.jobs), faults, at)
    {
      if !running {
        return;
      }
      pollTimer := false;
      if !fetchLost {
        var batch := EnqueueDueJobs(now, times, at, faults);
      }
      if stopped {
        Stop();
      }
      if running {
        pollTimer := true;
      }
    }

    method Stop()
      modifies this
      ensures !running && !pollTimer
    {
      running := false;
      if pollTimer {
        pollTimer := false;
      }
    }
  }
}
