// The poll loops of the protocol run the code of _enqueueDueJobs (module Scheduler); what a loop does after a
// lost call, and what becomes of a lock when its loop crashes.
module LoopRuns {
  import opened Base
  import opened JobRows
  import opened Protocol
  import opened RowLocks
  import S = Scheduler

  /** The loop at its head row, about to lock it. */
  ghost predicate AtRow(s: World, l: LoopId, job: JobId, t: int) {
    AtHead(s, l, job) && s.loops[l].phase.ToLock? && s.now <= t && job in s.jobs
  }

  ghost predicate InPhase(s: World, l: LoopId, job: JobId, t: int, phase: Phase) {
    AtHead(s, l, job) && s.loops[l].phase == phase && s.now <= t && job in s.jobs
  }

  /** The for loop at the next row, or done. */
  ghost function Onward(loops: map<LoopId, Loop>, l: LoopId): map<LoopId, Loop>
    requires l in loops && |loops[l].todo| > 0
  {
    if |loops[l].todo| == 1 then loops - {l}
    else loops[l := loops[l].(todo := loops[l].todo[1..], phase := ToLock)]
  }

  /** A loop handles what getDueJobs can return: distinct due rows, as many as the limit allows; and whatever it
      returns, if anything, is such a batch. */
  lemma FetchIsGetDueJobs(s: World, l: LoopId, batch: seq<JobId>, t: int)
    requires s.now <= t && l !in s.loops && batch != []
    ensures Legal(s, Fetch(t, l, batch)) ==>
              && |batch| <= BATCH_SIZE
              && (forall i :: 0 <= i < |batch| ==> batch[i] in S.JS.DueJobs(s.jobs, t))
              && (forall i, k :: 0 <= i < k < |batch| ==> batch[i] != batch[k])
    ensures S.JS.IsDueBatch(s.jobs, t, BATCH_SIZE, batch) ==> Legal(s, Fetch(t, l, batch))
  {
  }

  // ----- one call -----

  lemma LockCall(s: World, l: LoopId, job: JobId, t: int, r: Reply)
    requires AtRow(s, l, job, t) && Guarded(r, CanLock(s, job, t))
    ensures Legal(s, Lock(t, l, job, r))
    ensures Apply(s, Lock(t, l, job, r)) ==
            s.(now := t, log := s.log + [Lock(t, l, job, r)],
               jobs := if Took(r) then s.jobs[job := LockRow(s.jobs[job], "scheduler", t)] else s.jobs,
               loops := if r == Returned(true) then s.loops[l := s.loops[l].(phase := ToPublish(|s.log|))]
                        else if r.Lost? then s.loops[l := s.loops[l].(phase := ToUnlock)]
                        else Onward(s.loops, l))
  {
  }

  lemma PublishCall(s: World, l: LoopId, job: JobId, t: int, ticket: nat, r: Reply)
    requires InPhase(s, l, job, t, ToPublish(ticket)) && Plain(r)
    ensures Legal(s, Publish(t, l, job, r))
    ensures var head := s.loops[l].todo[0];
            var entry := Message(job, head.retryCount + 1, head.maxRetries, s.loops[l].fetched, ticket);
            Apply(s, Publish(t, l, job, r)) ==
            s.(now := t, log := s.log + [Publish(t, l, job, r)],
               stream := if Took(r) then s.stream + [entry] else s.stream,
               loops := if r.Lost? then s.loops[l := s.loops[l].(phase := ToUnlock)] else Onward(s.loops, l))
  {
  }

  lemma RecoverCall(s: World, l: LoopId, job: JobId, t: int, r: Reply)
    requires InPhase(s, l, job, t, ToUnlock) && Plain(r)
    ensures Legal(s, Recover(t, l, job, r))
    ensures Apply(s, Recover(t, l, job, r)) ==
            s.(now := t, log := s.log + [Recover(t, l, job, r)],
               jobs := if Took(r) then s.jobs[job := UnlockRow(s.jobs[job])] else s.jobs,
               loops := Onward(s.loops, l))
  {
  }

  // ----- one row -----

  /** The steps of the loop for one row, its calls ending as the fault says, all at time t. */
  ghost function Handled(s: World, l: LoopId, job: JobId, f: S.Fault, t: int): World
    requires AtRow(s, l, job, t)
  {
    var reply := ReplyOf(CanLock(s, job, t), f.lock);
    LockCall(s, l, job, t, reply);
    var locked := Apply(s, Lock(t, l, job, reply));
    if reply == Returned(false) then locked
    else if reply.Lost? then Unlocked(locked, l, job, f, t)
    else Published(locked, l, job, f, t, |s.log|)
  }

  ghost function Published(s: World, l: LoopId, job: JobId, f: S.Fault, t: int, ticket: nat): World
    requires InPhase(s, l, job, t, ToPublish(ticket))
  {
    var reply := ReplyOf(true, f.publish);
    PublishCall(s, l, job, t, ticket, reply);
    var published := Apply(s, Publish(t, l, job, reply));
    if reply.Lost? then Unlocked(published, l, job, f, t) else published
  }

  ghost function Unlocked(s: World, l: LoopId, job: JobId, f: S.Fault, t: int): World
    requires InPhase(s, l, job, t, ToUnlock)
  {
    RecoverCall(s, l, job, t, ReplyOf(true, f.unlock));
    Apply(s, Recover(t, l, job, ReplyOf(true, f.unlock)))
  }

  /** A phase on the way does not matter for where the loop goes next. */
  lemma OnwardFrom(loops: map<LoopId, Loop>, l: LoopId, phase: Phase)
    requires l in loops && |loops[l].todo| > 0
    ensures Onward(loops[l := loops[l].(phase := phase)], l) == Onward(loops, l)
  {
  }

  lemma UnlockedIs(s: World, l: LoopId, job: JobId, f: S.Fault, t: int)
    requires InPhase(s, l, job, t, ToUnlock)
    ensures var r := Unlocked(s, l, job, f, t);
            r == s.(now := t, log := r.log, loops := Onward(s.loops, l),
                    jobs := if f.unlock == Some(false) then s.jobs else s.jobs[job := UnlockRow(s.jobs[job])])
  {
    hide Legal, Apply;
    RecoverCall(s, l, job, t, ReplyOf(true, f.unlock));
  }

  lemma PublishedIs(s: World, l: LoopId, job: JobId, f: S.Fault, t: int, ticket: nat)
    requires InPhase(s, l, job, t, ToPublish(ticket))
    ensures var r, head := Published(s, l, job, f, t, ticket), s.loops[l].todo[0];
            var entry := Message(job, head.retryCount + 1, head.maxRetries, s.loops[l].fetched, ticket);
            r == s.(now := t, log := r.log, loops := Onward(s.loops, l),
                    jobs := if f.publish.Some? && f.unlock != Some(false) then s.jobs[job := UnlockRow(s.jobs[job])]
                            else s.jobs,
                    stream := if f.publish == Some(false) then s.stream else s.stream + [entry])
  {
    hide Legal, Apply, Onward, Unlocked;
    PublishCall(s, l, job, t, ticket, ReplyOf(true, f.publish));
    var published := Apply(s, Publish(t, l, job, ReplyOf(true, f.publish)));
    if f.publish.Some? {
      UnlockedIs(published, l, job, f, t);
      OnwardFrom(s.loops, l, ToUnlock);
    }
  }

  /** Scheduler.RowAfter along the calls of one row: what lockJob, with its reply, and the calls after it do. */
  lemma RowAlong(row: Job, f: S.Fault, t: int)
    ensures var reply := ReplyOf(Lockable(row, t), f.lock);
            var tried := if Took(reply) then LockRow(row, "scheduler", t) else row;
            var freed := if f.unlock == Some(false) then tried else UnlockRow(tried);
            S.RowAfter(row, f, t) ==
            if reply == Returned(false) then row
            else if reply.Lost? || f.publish.Some? then freed
            else tried
  {
    S.Answers(f.lock);
    S.Answers(f.unlock);
  }

  lemma Rewrites<K, V>(m: map<K, V>, k: K, v: V, w: V)
    requires k in m
    ensures m[k := v][k := w] == m[k := w] && m[k := m[k]] == m
  {
  }

  /** For every outcome of its calls and every state of the row, the steps of a loop leave the row and the
      stream as Scheduler.EnqueueOne does, go on to the next fetched row, and change nothing else. */
  lemma HandlingIsEnqueueOne(s: World, l: LoopId, job: JobId, f: S.Fault, t: int)
    requires AtRow(s, l, job, t)
    ensures var r, head := Handled(s, l, job, f, t), s.loops[l].todo[0];
            var entry := Message(job, head.retryCount + 1, head.maxRetries, s.loops[l].fetched, |s.log|);
            r == s.(now := t, log := r.log, loops := Onward(s.loops, l),
                    jobs := s.jobs[job := S.RowAfter(s.jobs[job], f, t)],
                    stream := if Lockable(s.jobs[job], t) && S.Publishes(f) then s.stream + [entry] else s.stream)
  {
    hide Legal, Apply, Onward, Unlocked, Published, Lockable, S.RowAfter, LockRow, UnlockRow;
    RowAlong(s.jobs[job], f, t);
    Rewrites(s.jobs, job, LockRow(s.jobs[job], "scheduler", t), S.RowAfter(s.jobs[job], f, t));
    var reply := ReplyOf(CanLock(s, job, t), f.lock);
    LockCall(s, l, job, t, reply);
    var locked := Apply(s, Lock(t, l, job, reply));
    OnwardFrom(s.loops, l, ToPublish(|s.log|));
    OnwardFrom(s.loops, l, ToUnlock);
    if reply == Returned(true) {
      PublishedIs(locked, l, job, f, t, |s.log|);
    } else if reply.Lost? {
      UnlockedIs(locked, l, job, f, t);
    }
  }

  // ----- after a lost call, and after a crash -----

  predicate LosesCall(e: Event, l: LoopId, job: JobId) {
    (e.Lock? || e.Publish?) && e.loop == l && e.job == job && e.reply.Lost?
  }

  ghost predicate LostBefore(log: seq<Event>, l: LoopId, job: JobId, n: int) {
    exists i :: 0 <= i < |log| && i < n && LosesCall(log[i], l, job)
  }

  /** Only a lost lock or publish reply takes a loop to its catch block. */
  ghost predicate CatchInv(log: seq<Event>, loops: map<LoopId, Loop>) {
    forall l :: l in loops && loops[l].phase.ToUnlock? ==>
      |loops[l].todo| > 0 && LostBefore(log, l, loops[l].todo[0].job, |log|)
  }

  lemma EntersCatch(s: World, e: Event, l: LoopId)
    requires Legal(s, e) && l in Loops(s, e) && Loops(s, e)[l].phase.ToUnlock?
    ensures |Loops(s, e)[l].todo| > 0 || (l in s.loops && Loops(s, e)[l] == s.loops[l])
    ensures || (l in s.loops && Loops(s, e)[l] == s.loops[l])
            || (|Loops(s, e)[l].todo| > 0 && LosesCall(e, l, Loops(s, e)[l].todo[0].job))
  {
  }

  lemma CatchStep(s: World, e: Event)
    requires CatchInv(s.log, s.loops) && Legal(s, e)
    ensures CatchInv(s.log + [e], Loops(s, e))
  {
    hide Legal, Loops, LosesCall;
    var log := s.log + [e];
    assert forall i :: 0 <= i < |s.log| ==> log[i] == s.log[i];
    assert log[|s.log|] == e;
    forall l | l in Loops(s, e) && Loops(s, e)[l].phase.ToUnlock?
      ensures |Loops(s, e)[l].todo| > 0 && LostBefore(log, l, Loops(s, e)[l].todo[0].job, |log|)
    {
      EntersCatch(s, e, l);
      if l in s.loops && Loops(s, e)[l] == s.loops[l] {
        var i :| 0 <= i < |s.log| && LosesCall(s.log[i], l, s.loops[l].todo[0].job);
        assert LosesCall(log[i], l, s.loops[l].todo[0].job);
      }
    }
  }

  lemma {:induction false} CatchesHold(log: seq<Event>)
    requires IsRun(log)
    ensures CatchInv(After(log).log, After(log).loops)
  {
    if |log| > 0 {
      var s, e := After(log[..|log| - 1]), log[|log| - 1];
      CatchesHold(log[..|log| - 1]);
      CatchStep(s, e);
    }
  }

  /** A loop unlocks a row only after its own lock or publish of it was rejected. */
  lemma UnlocksOnlyAfterLoss(log: seq<Event>, i: nat)
    requires IsRun(log) && i < |log| && log[i].Recover?
    ensures LostBefore(log, log[i].loop, log[i].job, i)
  {
    StepIsLegal(log, i);
    CatchesHold(log[..i]);
    LogIsTheRun(log[..i]);
    RecoversHead(After(log[..i]), log[i]);
    var k :| 0 <= k < i && LosesCall(log[..i][k], log[i].loop, log[i].job);
    assert LosesCall(log[k], log[i].loop, log[i].job);
  }

  lemma RecoversHead(s: World, e: Event)
    requires CatchInv(s.log, s.loops) && Legal(s, e) && e.Recover?
    ensures LostBefore(s.log, e.loop, e.job, |s.log|)
  {
  }

  /** The lock taken at `ticket` has no entry and no loop that could publish one. */
  ghost predicate TicketGone(s: World, ticket: nat) {
    && ticket < |s.log|
    && (forall m :: 0 <= m < |s.stream| ==> s.stream[m].ticket != ticket)
    && (forall l :: l in s.loops ==> s.loops[l].phase != ToPublish(ticket))
  }

  lemma GoneStaysGone(s: World, e: Event, ticket: nat)
    requires LockInv(s) && TicketGone(s, ticket) && Legal(s, e)
    ensures TicketGone(Apply(s, e), ticket)
  {
    hide Legal, Loops, Stream, Jobs, Workers, History, Leases, Pending, Acked, DlqTable;
    StreamAppends(s, e);
    forall l | l in Loops(s, e)
      ensures Loops(s, e)[l].phase != ToPublish(ticket)
    {
      LoopMoves(s, e, l);
    }
  }

  lemma CrashLosesTicket(s: World, e: Event, ticket: nat)
    requires LockInv(s) && Legal(s, e) && e.LoopCrash? && s.loops[e.loop].phase == ToPublish(ticket)
    ensures TicketGone(Apply(s, e), ticket)
  {
    assert Publishing(s.loops, e.loop);
    assert IsTicket(s.log, ticket, s.loops[e.loop].todo[0].job);
  }

  lemma {:induction false} GoneForGood(log: seq<Event>, n: nat, ticket: nat)
    requires IsRun(log) && n <= |log| && IsRun(log[..n]) && TicketGone(After(log[..n]), ticket)
    ensures TicketGone(After(log), ticket)
  {
    if n < |log| {
      var front := log[..|log| - 1];
      assert front[..n] == log[..n];
      GoneForGood(front, n, ticket);
      LocksHold(front);
      GoneStaysGone(After(front), log[|log| - 1], ticket);
    } else {
      assert log[..n] == log;
    }
  }

  /** When a loop crashes between its lock and its publish, that lock never gets an entry: the row waits for the
      lock to go stale or to be cleared. */
  lemma CrashedLoopNeverPublishes(log: seq<Event>, n: nat, ticket: nat)
    requires IsRun(log) && n < |log| && IsRun(log[..n]) && log[n].LoopCrash? && log[n].loop in After(log[..n]).loops
    requires After(log[..n]).loops[log[n].loop].phase == ToPublish(ticket)
    ensures forall m :: 0 <= m < |After(log).stream| ==> After(log).stream[m].ticket != ticket
  {
    hide LockInv, TicketGone, Legal, Apply;
    StepIsLegal(log, n);
    LocksHold(log[..n]);
    CrashLosesTicket(After(log[..n]), log[n], ticket);
    assert log[..n + 1][..n] == log[..n];
    PrefixIsRun(log, n + 1);
    GoneForGood(log, n + 1, ticket);
    GoneMeans(After(log), ticket);
  }

  lemma GoneMeans(s: World, ticket: nat)
    requires TicketGone(s, ticket)
    ensures forall m :: 0 <= m < |s.stream| ==> s.stream[m].ticket != ticket
  {
  }
}
