// What a crash leaves behind: its entry is never worked on again and stays pending. Who has a pending entry,
// and which entries are acknowledged, can be read off the run.
module Crashes {
  import opened Base
  import opened Stages
  import opened Protocol
  import opened ConsumerGroup
  import opened MessagePaths

  /** Deliveries so far: the next one hands over the entry of this number. */
  ghost function Deliveries(log: seq<Event>): nat {
    if log == [] then 0 else Deliveries(log[..|log| - 1]) + if log[|log| - 1].Consume? then 1 else 0
  }

  /** The consumer an entry was last handed to, by XREADGROUP or XAUTOCLAIM. */
  ghost function LastConsumer(log: seq<Event>, m: nat): Option<WorkerId> {
    if log == [] then None
    else
      var e, front := log[|log| - 1], log[..|log| - 1];
      if e.Consume? && Deliveries(front) == m then Some(e.worker)
      else if e.Reclaim? && e.msg == m then Some(e.worker)
      else LastConsumer(front, m)
  }

  predicate Acks(e: Event, m: nat) {
    WorkOn(e, m) && IsAck(e.stage) && Took(e.reply)
  }

  ghost predicate AckedBefore(log: seq<Event>, m: nat, n: int) {
    exists i :: 0 <= i < |log| && i < n && Acks(log[i], m)
  }

  ghost predicate GroupInv(s: World) {
    && s.delivered == Deliveries(s.log)
    && (forall m :: m in s.pending ==> LastConsumer(s.log, m) == Some(s.pending[m]))
    && (forall m :: m in s.acked <==> AckedBefore(s.log, m, |s.log|))
  }

  /** A crash leaves its entry with nobody, for good. */
  ghost predicate CrashInv(log: seq<Event>, delivered: nat, workers: map<WorkerId, Exec>) {
    && (forall i :: 0 <= i < |log| && log[i].Crash? ==>
          log[i].msg < delivered && forall w :: w in workers ==> workers[w].msg != log[i].msg)
    && (forall i, k :: 0 <= i < k < |log| && log[i].Crash? ==> !WorkOn(log[k], log[i].msg))
  }

  lemma AckIsLogged(log: seq<Event>, e: Event, m: nat)
    ensures AckedBefore(log + [e], m, |log| + 1) <==> AckedBefore(log, m, |log|) || Acks(e, m)
  {
    var grown := log + [e];
    assert forall i :: 0 <= i < |log| ==> grown[i] == log[i];
    assert grown[|log|] == e;
  }

  lemma GroupMoves(s: World, e: Event)
    requires PathInv(s) && Legal(s, e)
    ensures forall m :: m in Pending(s, e) ==>
              Pending(s, e)[m] ==
              if (e.Consume? && s.delivered == m) || (e.Reclaim? && e.msg == m) then e.worker
              else if m in s.pending then s.pending[m] else ""
    ensures forall m :: m in Pending(s, e) ==>
              (e.Consume? && s.delivered == m) || (e.Reclaim? && e.msg == m) || m in s.pending
    ensures forall m :: m in Acked(s, e) <==> m in s.acked || Acks(e, m)
    ensures Delivered(s, e) == s.delivered + if e.Consume? then 1 else 0
  {
    if e.Work? {
      WorkIsByItsWorker(s, e);
    }
  }

  lemma GroupStep(s: World, e: Event)
    requires PathInv(s) && GroupInv(s) && Legal(s, e)
    ensures Delivered(s, e) == Deliveries(s.log + [e])
    ensures forall m :: m in Pending(s, e) ==> LastConsumer(s.log + [e], m) == Some(Pending(s, e)[m])
    ensures forall m :: m in Acked(s, e) <==> AckedBefore(s.log + [e], m, |s.log| + 1)
  {
    hide Legal, Pending, Acked, Acks, AckedBefore;
    assert (s.log + [e])[..|s.log|] == s.log;
    GroupMoves(s, e);
    forall m
      ensures m in Acked(s, e) <==> AckedBefore(s.log + [e], m, |s.log| + 1)
    {
      AckIsLogged(s.log, e, m);
    }
  }

  lemma CrashStep(s: World, e: Event)
    requires PathInv(s) && CrashInv(s.log, s.delivered, s.workers) && Legal(s, e)
    ensures CrashInv(s.log + [e], Delivered(s, e), Workers(s, e))
  {
    var log := s.log + [e];
    assert forall i :: 0 <= i < |s.log| ==> log[i] == s.log[i];
    assert log[|s.log|] == e;
    forall w | w in Workers(s, e)
      ensures Moved(s, e, w, Workers(s, e)[w])
    {
      WorkerMoves(s, e, w);
    }
    if e.Work? {
      WorkIsByItsWorker(s, e);
    } else if e.Crash? {
      CrashedWorkerIsGone(s, e);
    }
  }

  lemma CrashedWorkerIsGone(s: World, e: Event)
    requires PathInv(s) && Legal(s, e) && e.Crash?
    ensures e.msg < s.delivered && forall w :: w in Workers(s, e) ==> Workers(s, e)[w].msg != e.msg
  {
  }

  lemma {:induction false} CrashesHold(log: seq<Event>)
    requires IsRun(log)
    ensures GroupInv(After(log)) && CrashInv(After(log).log, After(log).delivered, After(log).workers)
  {
    if |log| > 0 {
      var s, e := After(log[..|log| - 1]), log[|log| - 1];
      CrashesHold(log[..|log| - 1]);
      PathsHold(log[..|log| - 1]);
      GroupStep(s, e);
      CrashStep(s, e);
    }
  }

  /** In every run the delivered entries are as many as the deliveries, each pending one is with the consumer
      it was last handed to, and an entry is acknowledged exactly when an acknowledge of it took effect. */
  lemma GroupIsTheLog(log: seq<Event>, m: nat)
    requires IsRun(log)
    ensures var s := After(log);
            && s.delivered == Deliveries(log)
            && (m in s.pending ==> LastConsumer(log, m) == Some(s.pending[m]))
            && (m in s.acked <==> AckedBefore(log, m, |log|))
  {
    CrashesHold(log);
    LogIsTheRun(log);
  }

  /** An entry whose worker crashed is never worked on again; unless it had been acknowledged before the crash,
      it stays pending for good, reclaimed or not. */
  lemma CrashedEntryStaysPending(log: seq<Event>, i: nat)
    requires IsRun(log) && i < |log| && log[i].Crash?
    ensures forall k :: i < k < |log| ==> !WorkOn(log[k], log[i].msg)
    ensures log[i].msg in After(log).pending <==> !AckedBefore(log, log[i].msg, i)
  {
    hide CrashInv, Partition, OwnerInv, LogInv, ForwardInv, AckedBefore;
    var s := After(log);
    CrashesHold(log);
    PathsHold(log);
    LogIsTheRun(log);
    NoWorkAfterCrash(log, s.delivered, s.workers, i);
    PendingOrAcked(|s.stream|, s.delivered, s.pending, s.acked, log[i].msg);
  }

  lemma NoWorkAfterCrash(log: seq<Event>, delivered: nat, workers: map<WorkerId, Exec>, i: nat)
    requires CrashInv(log, delivered, workers) && i < |log| && log[i].Crash?
    ensures log[i].msg < delivered && forall k :: i < k < |log| ==> !WorkOn(log[k], log[i].msg)
    ensures AckedBefore(log, log[i].msg, |log|) <==> AckedBefore(log, log[i].msg, i)
  {
  }

  lemma PendingOrAcked(entries: nat, delivered: nat, pending: map<nat, WorkerId>, acked: set<nat>, m: nat)
    requires Partition(entries, delivered, pending, acked) && m < delivered
    ensures m in pending <==> m !in acked
  {
  }
}
