// What becomes of one stream entry: it is undelivered, pending or acknowledged, at most one worker
// ever executes it, and the stages it reaches only move forward.
module MessagePaths {
  import opened Base
  import opened Stages
  import opened Protocol
  import opened ConsumerGroup

  /** Event `e` is a step of the execution of entry `m`. */
  predicate WorkOn(e: Event, m: nat) {
    e.Work? && e.msg == m
  }

  /** Workers agree with the stream, and no two of them execute the same entry. */
  ghost predicate OwnerInv(stream: seq<Message>, delivered: nat, workers: map<WorkerId, Exec>) {
    && delivered <= |stream|
    && (forall w :: w in workers ==> workers[w].msg < delivered && workers[w].job == stream[workers[w].msg].job)
    && (forall v, w :: v in workers && w in workers && v != w ==> workers[v].msg != workers[w].msg)
  }

  /** The steps logged name delivered entries and their jobs. */
  ghost predicate LogInv(stream: seq<Message>, delivered: nat, log: seq<Event>) {
    && delivered <= |stream|
    && (forall i :: 0 <= i < |log| && log[i].Work? ==> log[i].msg < delivered && log[i].job == stream[log[i].msg].job)
  }

  /** The steps taken for one entry go through strictly increasing stages, and the worker executing
      it now is beyond all of them. */
  ghost predicate ForwardInv(log: seq<Event>, workers: map<WorkerId, Exec>) {
    && (forall i, k :: 0 <= i < k < |log| && log[i].Work? && WorkOn(log[k], log[i].msg) ==>
          Rank(log[i].stage) < Rank(log[k].stage))
    && (forall w, i :: w in workers && 0 <= i < |log| && WorkOn(log[i], workers[w].msg) ==>
          Rank(log[i].stage) < Rank(workers[w].stage))
  }

  ghost predicate PathInv(s: World) {
    && Partition(|s.stream|, s.delivered, s.pending, s.acked)
    && OwnerInv(s.stream, s.delivered, s.workers)
    && LogInv(s.stream, s.delivered, s.log)
    && ForwardInv(s.log, s.workers)
  }

  lemma StreamGrows(s: World, e: Event)
    requires Legal(s, e)
    ensures s.stream <= Stream(s, e)
    ensures Delivered(s, e) == if e.Consume? then s.delivered + 1 else s.delivered
    ensures e.Consume? ==> s.delivered < |s.stream|
  {
  }

  lemma StreamStep(s: World, e: Event)
    requires PathInv(s) && Legal(s, e)
    ensures Partition(|Stream(s, e)|, Delivered(s, e), Pending(s, e), Acked(s, e))
  {
    StreamGrows(s, e);
  }

  /** A worker busy after a step either just received the next undelivered entry, or was busy with
      the same entry before and is no further back. */
  ghost predicate Moved(s: World, e: Event, w: WorkerId, y: Exec) {
    if w in s.workers then
      && y.msg == s.workers[w].msg && y.job == s.workers[w].job
      && if WorkOn(e, y.msg) && e.worker == w
         then e.stage == s.workers[w].stage && Rank(e.stage) < Rank(y.stage)
         else y.stage == s.workers[w].stage && y.record == s.workers[w].record
    else
      && e.Consume? && e.worker == w && s.delivered < |s.stream|
      && y.msg == s.delivered && y.job == s.stream[s.delivered].job && y.stage == Acquire && y.record == None
  }

  lemma WorkerMoves(s: World, e: Event, w: WorkerId)
    requires Legal(s, e) && w in Workers(s, e)
    ensures Moved(s, e, w, Workers(s, e)[w])
  {
    if e.Work? && e.worker == w {
      AdvanceMovesForward(At(e.stage, s.workers[w].record), e.reply, Retry(s.stream[e.msg]), |s.log|);
    }
  }

  /** A logged step is its worker's. */
  lemma WorkIsByItsWorker(s: World, e: Event)
    requires Legal(s, e) && e.Work?
    ensures e.worker in s.workers
    ensures var x := s.workers[e.worker]; x.msg == e.msg && x.job == e.job && x.stage == e.stage
  {
  }

  lemma OwnerStep(s: World, e: Event)
    requires PathInv(s) && Legal(s, e)
    ensures OwnerInv(Stream(s, e), Delivered(s, e), Workers(s, e))
    ensures LogInv(Stream(s, e), Delivered(s, e), s.log + [e])
  {
    StreamGrows(s, e);
    forall w | w in Workers(s, e)
      ensures Moved(s, e, w, Workers(s, e)[w])
    {
      WorkerMoves(s, e, w);
    }
    if e.Work? {
      WorkIsByItsWorker(s, e);
    }
  }

  lemma ForwardStep(s: World, e: Event)
    requires PathInv(s) && Legal(s, e)
    ensures ForwardInv(s.log + [e], Workers(s, e))
  {
    forall w | w in Workers(s, e)
      ensures Moved(s, e, w, Workers(s, e)[w])
    {
      WorkerMoves(s, e, w);
    }
    if e.Work? {
      WorkIsByItsWorker(s, e);
    }
  }

  lemma {:induction false} PathsHold(log: seq<Event>)
    requires IsRun(log)
    ensures PathInv(After(log))
  {
    if |log| > 0 {
      var s, e := After(log[..|log| - 1]), log[|log| - 1];
      PathsHold(log[..|log| - 1]);
      StreamStep(s, e);
      OwnerStep(s, e);
      ForwardStep(s, e);
    }
  }
}
