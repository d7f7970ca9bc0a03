// Why an entry was acknowledged, and how permanent failures, dead letter entries and dead letter
// rows account for each other.
module Outcomes {
  import opened Base
  import opened Stages
  import opened Protocol
  import opened MessagePaths

  predicate Call(e: Event, m: nat, stage: Stage, r: Reply) {
    WorkOn(e, m) && e.stage == stage && e.reply == r
  }

  /** In the execution of entry `m`, the call at `stage` ended with `r`. */
  ghost predicate Happened(log: seq<Event>, m: nat, stage: Stage, r: Reply) {
    exists i :: 0 <= i < |log| && Call(log[i], m, stage, r)
  }

  /** The call before `next` on the way of a permanently failed job to the dead letter table. */
  function Before(next: Stage): Stage {
    if next.SendDlq? then FailJob else SendDlq
  }

  predicate Breaks(e: Event, m: nat, next: Stage) {
    (WorkOn(e, m) && e.reply.Lost? && (e.stage == Before(next) || e.stage == next)) || (e.Crash? && e.msg == m)
  }

  /** The execution broke off between two calls: the reply to one of the two was lost, or the worker crashed. */
  ghost predicate Interrupted(log: seq<Event>, m: nat, next: Stage) {
    exists i :: 0 <= i < |log| && Breaks(log[i], m, next)
  }

  /** The job lock was refused, the execution was judged a duplicate, or completeExecution or
      failExecution returned. */
  ghost predicate Settled(log: seq<Event>, m: nat) {
    || Happened(log, m, Acquire, Returned(false))
    || Happened(log, m, RecordStart, Returned(false))
    || Happened(log, m, CompleteRead, Returned(false))
    || Happened(log, m, CompleteWrite, Returned(true))
    || Happened(log, m, FailJob, Returned(true))
  }

  /** registry.has(handlerName) */
  ghost predicate Registered(log: seq<Event>, m: nat) {
    Happened(log, m, CheckHandler, Returned(true))
  }

  /** What has happened before a worker can be at a stage. */
  ghost predicate Precedes(log: seq<Event>, stream: seq<Message>, x: Exec) {
    match x.stage
    case AckRefused => Happened(log, x.msg, Acquire, Returned(false))
    case CheckHandler => Happened(log, x.msg, Acquire, Returned(true))
    case RecordStart => Happened(log, x.msg, Acquire, Returned(true)) && Registered(log, x.msg)
    case AckDuplicate => Happened(log, x.msg, RecordStart, Returned(false))
    case RunHandler =>
      && Happened(log, x.msg, Acquire, Returned(true)) && Registered(log, x.msg)
      && Happened(log, x.msg, RecordStart, Returned(true))
    case RecordSuccess => Happened(log, x.msg, RecordStart, Returned(true))
    case CompleteRead => Happened(log, x.msg, RecordStart, Returned(true))
    case CompleteWrite => Happened(log, x.msg, RecordStart, Returned(true))
    case AckDone =>
      Happened(log, x.msg, CompleteWrite, Returned(true)) || Happened(log, x.msg, CompleteRead, Returned(false))
    case SendDlq => Happened(log, x.msg, FailJob, Returned(true)) && x.msg < |stream| && !Retry(stream[x.msg])
    case WriteDlq => Happened(log, x.msg, FailJob, Returned(true)) && Happened(log, x.msg, SendDlq, Returned(true))
    case RecordDlq => Happened(log, x.msg, FailJob, Returned(true))
    case AckFailed => Happened(log, x.msg, FailJob, Returned(true))
    case _ => true
  }

  ghost predicate PrecedesInv(log: seq<Event>, stream: seq<Message>, workers: map<WorkerId, Exec>) {
    forall w :: w in workers ==> Precedes(log, stream, workers[w])
  }

  ghost predicate AckInv(log: seq<Event>, acked: set<nat>) {
    forall m :: m in acked ==> Settled(log, m)
  }

  /** What one call of an execution says about the earlier ones. */
  ghost predicate Explained(log: seq<Event>, stream: seq<Message>, e: Event)
    requires e.Work?
  {
    match e.stage
    case RecordStart => Happened(log, e.msg, Acquire, Returned(true)) && Registered(log, e.msg)
    case RunHandler =>
      && Happened(log, e.msg, Acquire, Returned(true)) && Registered(log, e.msg)
      && Happened(log, e.msg, RecordStart, Returned(true))
    case CompleteWrite => Happened(log, e.msg, RecordStart, Returned(true))
    case FailJob => e.msg < |stream| && (e.arg.Some? <==> Retry(stream[e.msg]))
    case SendDlq =>
      Happened(log, e.msg, FailJob, Returned(true)) && e.msg < |stream| && !Retry(stream[e.msg]) && Plain(e.reply)
    case WriteDlq => Happened(log, e.msg, SendDlq, Returned(true)) && Plain(e.reply)
    case _ => true
  }

  ghost predicate CallInv(log: seq<Event>, stream: seq<Message>) {
    forall i :: 0 <= i < |log| && log[i].Work? ==> Explained(log, stream, log[i])
  }

  /** A worker is about to make the call of `stage` for entry `m`. */
  ghost predicate WorkerAt(workers: map<WorkerId, Exec>, m: nat, stage: Stage) {
    exists w :: w in workers && workers[w].msg == m && workers[w].stage == stage
  }

  /** After the call before `next` took effect, `next` is still to be made, or returned, or the execution
      broke off there. */
  ghost predicate Continues(log: seq<Event>, workers: map<WorkerId, Exec>, m: nat, next: Stage) {
    WorkerAt(workers, m, next) || Happened(log, m, next, Returned(true)) || Interrupted(log, m, next)
  }

  ghost predicate DlqInv(log: seq<Event>, workers: map<WorkerId, Exec>) {
    && (forall i :: 0 <= i < |log| && log[i].Work? && Took(log[i].reply) ==>
          && (log[i].stage.FailJob? && log[i].arg.None? ==> Continues(log, workers, log[i].msg, SendDlq))
          && (log[i].stage.SendDlq? ==> Continues(log, workers, log[i].msg, WriteDlq)))
  }

  ghost predicate OutcomeInv(s: World) {
    && PrecedesInv(s.log, s.stream, s.workers)
    && AckInv(s.log, s.acked)
    && CallInv(s.log, s.stream)
    && DlqInv(s.log, s.workers)
  }

  lemma HistoryGrows(log: seq<Event>, e: Event)
    ensures forall m, stage, r :: Happened(log, m, stage, r) ==> Happened(log + [e], m, stage, r)
    ensures forall m, next :: Interrupted(log, m, next) ==> Interrupted(log + [e], m, next)
    ensures e.Work? ==> Happened(log + [e], e.msg, e.stage, e.reply)
    ensures forall m, next :: Breaks(e, m, next) ==> Interrupted(log + [e], m, next)
  {
    var grown := log + [e];
    assert grown[|log|] == e;
    assert e.Work? ==> Call(grown[|log|], e.msg, e.stage, e.reply);
    forall m, next | Breaks(e, m, next)
      ensures Interrupted(grown, m, next)
    {
      assert Breaks(grown[|log|], m, next);
    }
    assert forall i :: 0 <= i < |log| ==> grown[i] == log[i];
  }

  /** The stages a call leads to, with the reply that leads there. */
  lemma WhereFrom(s: World, e: Event)
    requires Legal(s, e) && e.Work? && e.worker in Workers(s, e)
    ensures match Workers(s, e)[e.worker].stage
            case AckRefused => e.stage.Acquire? && e.reply == Returned(false)
            case CheckHandler => e.stage.Acquire? && e.reply == Returned(true)
            case RecordStart => e.stage.CheckHandler? && e.reply == Returned(true)
            case AckDuplicate => e.stage.RecordStart? && e.reply == Returned(false)
            case RunHandler => e.stage.RecordStart? && e.reply == Returned(true)
            case RecordSuccess => e.stage.RunHandler?
            case CompleteRead => e.stage.RecordSuccess?
            case CompleteWrite => e.stage.CompleteRead?
            case AckDone =>
              || (e.stage.CompleteWrite? && e.reply == Returned(true))
              || (e.stage.CompleteRead? && e.reply == Returned(false))
            case SendDlq => e.stage.FailJob? && e.reply == Returned(true) && !Retry(s.stream[e.msg])
            case WriteDlq => e.stage.SendDlq? && e.reply == Returned(true)
            case RecordDlq => e.stage.WriteDlq?
            case AckFailed => e.stage.RecordDlq? || e.stage.WriteDlq? || (e.stage.FailJob? && e.reply == Returned(true))
            case _ => true
    ensures Workers(s, e)[e.worker].msg == e.msg
  {
  }

  lemma PrecedesStep(s: World, e: Event, w: WorkerId)
    requires PathInv(s) && OutcomeInv(s) && Legal(s, e) && w in Workers(s, e)
    ensures Precedes(s.log + [e], Stream(s, e), Workers(s, e)[w])
  {
    StreamGrows(s, e);
    WorkerMoves(s, e, w);
    HistoryGrows(s.log, e);
    if e.Work? {
      WorkIsByItsWorker(s, e);
      if e.worker == w {
        WhereFrom(s, e);
      }
    }
  }

  /** An entry newly acknowledged is one a worker was acknowledging. */
  lemma NewAck(s: World, e: Event, m: nat)
    requires Legal(s, e) && m in Acked(s, e) && m !in s.acked
    ensures e.Work? && e.msg == m && IsAck(e.stage)
  {
  }

  lemma AckStep(s: World, e: Event)
    requires OutcomeInv(s) && Legal(s, e)
    ensures AckInv(s.log + [e], Acked(s, e))
  {
    HistoryGrows(s.log, e);
    forall m | m in Acked(s, e)
      ensures Settled(s.log + [e], m)
    {
      if m !in s.acked {
        NewAck(s, e, m);
        WorkIsByItsWorker(s, e);
        assert Precedes(s.log, s.stream, s.workers[e.worker]);
      }
    }
  }

  lemma FailArgument(s: World, e: Event)
    requires Legal(s, e) && e.Work? && e.stage.FailJob?
    ensures e.msg < |s.stream| && (e.arg.Some? <==> Retry(s.stream[e.msg]))
  {
  }

  lemma CallStep(s: World, e: Event)
    requires OutcomeInv(s) && Legal(s, e)
    ensures CallInv(s.log + [e], Stream(s, e))
  {
    StreamGrows(s, e);
    HistoryGrows(s.log, e);
    if e.Work? {
      WorkIsByItsWorker(s, e);
      assert Precedes(s.log, s.stream, s.workers[e.worker]);
      if e.stage.FailJob? {
        FailArgument(s, e);
      } else if e.stage.SendDlq? || e.stage.WriteDlq? {
        ReturnsOrBreaks(s, e);
      }
    }
  }

  /** A worker about to make a call stays there until it makes it or crashes. */
  lemma WorkerStays(s: World, e: Event, m: nat, stage: Stage)
    requires Legal(s, e) && WorkerAt(s.workers, m, stage)
    ensures WorkerAt(Workers(s, e), m, stage) || (WorkOn(e, m) && e.stage == stage) || (e.Crash? && e.msg == m)
  {
    var w :| w in s.workers && s.workers[w].msg == m && s.workers[w].stage == stage;
    if !(e.Work? && e.worker == w) && !(e.Crash? && e.worker == w) {
      assert w in Workers(s, e);
    }
  }

  lemma ContinuesStep(s: World, e: Event, m: nat, next: Stage)
    requires Legal(s, e) && Continues(s.log, s.workers, m, next)
    requires next.SendDlq? || next.WriteDlq?
    ensures Continues(s.log + [e], Workers(s, e), m, next)
  {
    HistoryGrows(s.log, e);
    if WorkerAt(s.workers, m, next) {
      WorkerStays(s, e, m, next);
      if WorkOn(e, m) && e.stage == next {
        ReturnsOrBreaks(s, e);
        assert e.reply.Lost? ==> Breaks(e, m, next);
      }
      assert e.Crash? && e.msg == m ==> Breaks(e, m, next);
    }
  }

  lemma ReturnsOrBreaks(s: World, e: Event)
    requires Legal(s, e) && e.Work? && (e.stage.SendDlq? || e.stage.WriteDlq? || e.stage.FailJob?)
    ensures e.reply == Returned(true) || e.reply.Lost?
  {
  }

  lemma NextIsDue(s: World, e: Event)
    requires Legal(s, e) && e.Work? && e.reply == Returned(true)
    ensures e.stage.FailJob? && e.arg.None? ==> WorkerAt(Workers(s, e), e.msg, SendDlq)
    ensures e.stage.SendDlq? ==> WorkerAt(Workers(s, e), e.msg, WriteDlq)
  {
    if (e.stage.FailJob? && e.arg.None?) || e.stage.SendDlq? {
      assert e.worker in Workers(s, e);
    }
  }

  lemma DlqStep(s: World, e: Event)
    requires OutcomeInv(s) && Legal(s, e)
    ensures DlqInv(s.log + [e], Workers(s, e))
  {
    HistoryGrows(s.log, e);
    forall m, next: Stage | (next.SendDlq? || next.WriteDlq?) && Continues(s.log, s.workers, m, next)
      ensures Continues(s.log + [e], Workers(s, e), m, next)
    {
      ContinuesStep(s, e, m, next);
    }
    if e.Work? && (e.stage.SendDlq? || e.stage.FailJob?) {
      ReturnsOrBreaks(s, e);
      if e.reply == Returned(true) {
        NextIsDue(s, e);
      } else {
        assert Breaks(e, e.msg, if e.stage.FailJob? then SendDlq else WriteDlq);
      }
    }
  }

  lemma {:induction false} OutcomesHold(log: seq<Event>)
    requires IsRun(log)
    ensures OutcomeInv(After(log))
  {
    if |log| > 0 {
      var s, e := After(log[..|log| - 1]), log[|log| - 1];
      OutcomesHold(log[..|log| - 1]);
      PathsHold(log[..|log| - 1]);
      forall w | w in Workers(s, e)
        ensures Precedes(s.log + [e], Stream(s, e), Workers(s, e)[w])
      {
        PrecedesStep(s, e, w);
      }
      AckStep(s, e);
      CallStep(s, e);
      DlqStep(s, e);
    }
  }

  /** The same, before position `n` of the run. */
  ghost predicate HappenedBefore(log: seq<Event>, m: nat, stage: Stage, r: Reply, n: int) {
    exists i :: 0 <= i < |log| && i < n && Call(log[i], m, stage, r)
  }

  /** The calls of an entry are in the order of their stages. */
  lemma HappenedEarlier(log: seq<Event>, workers: map<WorkerId, Exec>, n: int, stage: Stage, r: Reply)
    requires ForwardInv(log, workers) && 0 <= n < |log| && log[n].Work? && Rank(stage) < Rank(log[n].stage)
    requires Happened(log, log[n].msg, stage, r)
    ensures HappenedBefore(log, log[n].msg, stage, r, n)
  {
    var i :| 0 <= i < |log| && Call(log[i], log[n].msg, stage, r);
    assert i < n;
  }

  /** In every run, a start is recorded for an entry only after its lock was acquired and its handler was
      found registered; and the handler runs only after, in addition, its start was recorded. */
  lemma HandlerRunsOnlyAfter(log: seq<Event>, i: int)
    requires IsRun(log) && 0 <= i < |log| && log[i].Work? && (log[i].stage.RecordStart? || log[i].stage.RunHandler?)
    ensures HappenedBefore(log, log[i].msg, Acquire, Returned(true), i)
    ensures HappenedBefore(log, log[i].msg, CheckHandler, Returned(true), i)
    ensures log[i].stage.RunHandler? ==> HappenedBefore(log, log[i].msg, RecordStart, Returned(true), i)
  {
    hide PrecedesInv, AckInv, CallInv, DlqInv, HappenedBefore, ForwardInv, LogInv, OwnerInv;
    OutcomesHold(log);
    PathsHold(log);
    LogIsTheRun(log);
    HandlerRunsAt(log, After(log).stream, After(log).workers, i);
  }

  lemma HandlerRunsAt(log: seq<Event>, stream: seq<Message>, workers: map<WorkerId, Exec>, i: int)
    requires CallInv(log, stream) && ForwardInv(log, workers)
    requires 0 <= i < |log| && log[i].Work? && (log[i].stage.RecordStart? || log[i].stage.RunHandler?)
    ensures HappenedBefore(log, log[i].msg, Acquire, Returned(true), i)
    ensures HappenedBefore(log, log[i].msg, CheckHandler, Returned(true), i)
    ensures log[i].stage.RunHandler? ==> HappenedBefore(log, log[i].msg, RecordStart, Returned(true), i)
  {
    hide ForwardInv, Happened, HappenedBefore;
    assert Explained(log, stream, log[i]);
    HappenedEarlier(log, workers, i, Acquire, Returned(true));
    HappenedEarlier(log, workers, i, CheckHandler, Returned(true));
    if log[i].stage.RunHandler? {
      HappenedEarlier(log, workers, i, RecordStart, Returned(true));
    }
  }
}
