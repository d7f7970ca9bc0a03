// The 5-minute row lock under any number of poll loops: when lockJob can succeed again, and what
// that says about the entries published.
module RowLocks {
  import opened Base
  import opened JobRows
  import opened Protocol

  /** A lockJob that took the row. */
  predicate Locks(e: Event, job: JobId) {
    e.Lock? && e.job == job && Took(e.reply)
  }

  /** A write that sets locked_by to NULL. */
  predicate Clears(e: Event, job: JobId) {
    || (e.Unlock? && e.job == job)
    || (e.TriggerDue? && e.job == job)
    || (e.Requeue? && e.job == job)
    || (e.Recover? && e.job == job && Took(e.reply))
    || (e.Work? && e.job == job && Took(e.reply) && (e.stage.CompleteWrite? || e.stage.FailJob?))
  }

  ghost predicate ClearedBetween(log: seq<Event>, job: JobId, p: int, q: int) {
    exists c :: 0 <= c < |log| && p < c < q && Clears(log[c], job)
  }

  lemma ClearsPersist(log: seq<Event>, e: Event)
    ensures forall j, p, q :: q <= |log| ==> (ClearedBetween(log + [e], j, p, q) <==> ClearedBetween(log, j, p, q))
  {
    assert forall c :: 0 <= c < |log| ==> (log + [e])[c] == log[c];
  }

  lemma StillUncleared(log: seq<Event>, e: Event, j: JobId, p: int)
    requires p < |log| && !ClearedBetween(log + [e], j, p, |log| + 1)
    ensures !ClearedBetween(log, j, p, |log|) && !Clears(e, j)
  {
    assert forall c :: 0 <= c < |log| ==> (log + [e])[c] == log[c];
    assert (log + [e])[|log|] == e;
  }

  /** The run's clock never goes back. */
  ghost predicate TimeInv(now: int, log: seq<Event>) {
    && (forall i :: 0 <= i < |log| ==> log[i].at <= now)
    && (forall i, k :: 0 <= i < k < |log| ==> log[i].at <= log[k].at)
  }

  /** A lock taken and not cleared since is still on the row, no older than when it was taken. */
  ghost predicate HeldInv(jobs: JobTable, created: map<JobId, Kind>, log: seq<Event>) {
    && (forall j :: j in jobs ==> j in created && created[j] == jobs[j].kind)
    && (forall p :: 0 <= p < |log| && log[p].Lock? && Took(log[p].reply) ==> log[p].job in created)
    && (forall p | 0 <= p < |log| && log[p].Lock? && Took(log[p].reply) && log[p].job in jobs
                   && !ClearedBetween(log, log[p].job, p, |log|)
          :: var row := jobs[log[p].job]; row.lockedBy.Some? && row.lockedAt.Some? && log[p].at <= row.lockedAt.value)
  }

  /** A lock is retaken without a clear only after more than five minutes. */
  ghost predicate GapInv(log: seq<Event>) {
    forall p, q | 0 <= p < q < |log| && log[p].Lock? && Took(log[p].reply)
                  && Locks(log[q], log[p].job) && !ClearedBetween(log, log[p].job, p, q)
      :: log[q].at > log[p].at + LOCK_STALE_MS
  }

  /** The lockJob at position `ticket` of the run took `job`. */
  ghost predicate IsTicket(log: seq<Event>, ticket: nat, job: JobId) {
    ticket < |log| && Locks(log[ticket], job)
  }

  /** Every published entry has a successful lockJob of its own. */
  ghost predicate TicketInv(log: seq<Event>, stream: seq<Message>) {
    && (forall m :: 0 <= m < |stream| ==>
          IsTicket(log, stream[m].ticket, stream[m].job) && stream[m].fetched < stream[m].ticket)
    && (forall m, n :: 0 <= m < n < |stream| ==> stream[m].ticket != stream[n].ticket)
  }

  predicate Publishing(loops: map<LoopId, Loop>, l: LoopId) {
    l in loops && loops[l].phase.ToPublish?
  }

  /** So does every loop about to publish. */
  ghost predicate LoopInv(log: seq<Event>, stream: seq<Message>, loops: map<LoopId, Loop>) {
    && (forall l :: l in loops ==> |loops[l].todo| > 0 && loops[l].fetched < |log|)
    && (forall l :: Publishing(loops, l) ==>
          && IsTicket(log, loops[l].phase.ticket, loops[l].todo[0].job)
          && loops[l].fetched < loops[l].phase.ticket)
    && (forall l, m :: Publishing(loops, l) && 0 <= m < |stream| ==> stream[m].ticket != loops[l].phase.ticket)
    && (forall k, l :: Publishing(loops, k) && Publishing(loops, l) && k != l ==>
        loops[k].phase.ticket != loops[l].phase.ticket)
  }

  ghost predicate LockInv(s: World) {
    && TimeInv(s.now, s.log)
    && HeldInv(s.jobs, s.created, s.log)
    && GapInv(s.log)
    && TicketInv(s.log, s.stream)
    && LoopInv(s.log, s.stream, s.loops)
  }

  /** What one step does to the kind and lock columns of a row. */
  ghost predicate Relocked(s: World, e: Event, j: JobId, row: Job) {
    if e.Create? && e.job == j then j !in s.created && row.kind == e.row.kind
    else
      && j in s.jobs && row.kind == s.jobs[j].kind
      && (Clears(e, j)
          || (Locks(e, j) && row.lockedBy.Some? && row.lockedAt == Some(e.at))
          || (!Locks(e, j) && row.lockedBy == s.jobs[j].lockedBy && row.lockedAt == s.jobs[j].lockedAt))
  }

  lemma LockColumns(s: World, e: Event, j: JobId)
    requires Legal(s, e) && j in Jobs(s, e)
    ensures Relocked(s, e, j, Jobs(s, e)[j])
  {
  }

  lemma LockNeedsFreeRow(s: World, e: Event, j: JobId)
    requires Legal(s, e) && Locks(e, j)
    ensures j in s.jobs && s.jobs[j].status.Active? && LockFree(s.jobs[j], e.at)
  {
  }

  lemma TimeStep(s: World, e: Event)
    requires LockInv(s) && Legal(s, e)
    ensures TimeInv(e.at, s.log + [e])
  {
  }

  lemma HeldStep(s: World, e: Event)
    requires LockInv(s) && Legal(s, e)
    ensures HeldInv(Jobs(s, e), Created(s, e), s.log + [e])
  {
    forall j | j in Jobs(s, e)
      ensures Relocked(s, e, j, Jobs(s, e)[j])
    {
      LockColumns(s, e, j);
    }
    if e.Lock? && Took(e.reply) {
      LockNeedsFreeRow(s, e, e.job);
    }
    LocksStayHeld(s, e, Jobs(s, e));
  }

  lemma LocksStayHeld(s: World, e: Event, jobs: JobTable)
    requires LockInv(s) && s.now <= e.at
    requires forall j :: j in jobs ==> Relocked(s, e, j, jobs[j])
    requires e.Lock? && Took(e.reply) ==> e.job in s.jobs
    ensures HeldInv(jobs, Created(s, e), s.log + [e])
  {
    var log := s.log + [e];
    forall p | 0 <= p < |log| && log[p].Lock? && Took(log[p].reply) && log[p].job in jobs
               && !ClearedBetween(log, log[p].job, p, |log|)
      ensures var row := jobs[log[p].job];
              row.lockedBy.Some? && row.lockedAt.Some? && log[p].at <= row.lockedAt.value
    {
      assert Relocked(s, e, log[p].job, jobs[log[p].job]);
      if p < |s.log| {
        StillUncleared(s.log, e, log[p].job, p);
      }
    }
  }

  lemma GapStep(s: World, e: Event)
    requires LockInv(s) && Legal(s, e)
    ensures GapInv(s.log + [e])
  {
    ClearsPersist(s.log, e);
    if e.Lock? && Took(e.reply) {
      LockNeedsFreeRow(s, e, e.job);
    }
  }

  /** A loop that is about to publish either was already, or has just taken its lock. */
  ghost predicate LoopMoved(s: World, e: Event, l: LoopId, y: Loop) {
    && |y.todo| > 0 && y.fetched <= |s.log|
    && (y.phase.ToPublish? ==>
          && l in s.loops && y.todo == s.loops[l].todo && y.fetched == s.loops[l].fetched && y.fetched < |s.log|
          && if Locks(e, y.todo[0].job) && e.loop == l
             then y.phase.ticket == |s.log|
             else y.phase == s.loops[l].phase && !(e.Publish? && e.loop == l))
  }

  lemma LoopMoves(s: World, e: Event, l: LoopId)
    requires LoopInv(s.log, s.stream, s.loops) && Legal(s, e) && l in Loops(s, e)
    ensures LoopMoved(s, e, l, Loops(s, e)[l])
  {
  }

  /** Only the publish of a loop holding a ticket adds an entry, with that ticket. */
  lemma StreamAppends(s: World, e: Event)
    requires LoopInv(s.log, s.stream, s.loops) && Legal(s, e)
    ensures Stream(s, e) == s.stream
            || (&& e.Publish? && Publishing(s.loops, e.loop)
                && exists m: Message :: Stream(s, e) == s.stream + [m] && m.job == s.loops[e.loop].todo[0].job
                     && m.ticket == s.loops[e.loop].phase.ticket && m.fetched == s.loops[e.loop].fetched)
  {
    if e.Publish? && Took(e.reply) {
      var m := Stream(s, e)[|s.stream|];
      assert Stream(s, e) == s.stream + [m];
    }
  }

  lemma TicketStep(s: World, e: Event)
    requires LockInv(s) && Legal(s, e)
    ensures TicketInv(s.log + [e], Stream(s, e))
    ensures LoopInv(s.log + [e], Stream(s, e), Loops(s, e))
  {
    StreamAppends(s, e);
    forall l | l in Loops(s, e)
      ensures LoopMoved(s, e, l, Loops(s, e)[l])
    {
      LoopMoves(s, e, l);
    }
    TicketsStayApart(s, e, Stream(s, e), Loops(s, e));
  }

  lemma TicketsStayApart(s: World, e: Event, stream: seq<Message>, loops: map<LoopId, Loop>)
    requires LockInv(s)
    requires stream == s.stream
             || (&& e.Publish? && Publishing(s.loops, e.loop)
                 && exists m: Message :: stream == s.stream + [m] && m.job == s.loops[e.loop].todo[0].job
                      && m.ticket == s.loops[e.loop].phase.ticket && m.fetched == s.loops[e.loop].fetched)
    requires forall l :: l in loops ==> LoopMoved(s, e, l, loops[l])
    ensures TicketInv(s.log + [e], stream)
    ensures LoopInv(s.log + [e], stream, loops)
  {
    var log := s.log + [e];
    assert forall i :: 0 <= i < |s.log| ==> log[i] == s.log[i];
    assert log[|s.log|] == e;
  }

  lemma {:induction false} LocksHold(log: seq<Event>)
    requires IsRun(log)
    ensures LockInv(After(log))
  {
    if |log| > 0 {
      var s, e := After(log[..|log| - 1]), log[|log| - 1];
      LocksHold(log[..|log| - 1]);
      TimeStep(s, e);
      HeldStep(s, e);
      GapStep(s, e);
      TicketStep(s, e);
    }
  }
}
