// The status column of job_executions over a whole run: it is what the last of recordSuccess, recordFailure
// and recordDLQ for the entry wrote.
module HistoryStatus {
  import opened Base
  import opened HistoryRows
  import opened Stages
  import opened Protocol
  import opened MessagePaths
  import opened Tables

  ghost predicate Wrote(log: seq<Event>, m: nat, stage: Stage) {
    exists i :: 0 <= i < |log| && WorkOn(log[i], m) && Does(log[i], stage)
  }

  /** The status of the row of entry `m`, by the writes made for it. */
  ghost function StatusOf(log: seq<Event>, m: nat): ExecStatus {
    if Wrote(log, m, RecordDlq) then Dlq
    else if Wrote(log, m, RecordFailure) then Failed
    else if Wrote(log, m, RecordSuccess) then Success
    else Running
  }

  predicate HasRow(stage: Stage) {
    || stage.RunHandler? || stage.RecordSuccess? || stage.CompleteRead? || stage.CompleteWrite? || stage.AckDone?
    || stage.RecordFailure? || stage.RecordDlq?
  }

  /** A worker's record is the row its own entry inserted. */
  ghost predicate OwnerOfRow(log: seq<Event>, x: Exec) {
    && (x.record.Some? ==>
          x.record.value < |log| && Does(log[x.record.value], RecordStart) && log[x.record.value].msg == x.msg)
    && (HasRow(x.stage) ==> x.record.Some?)
  }

  ghost predicate StatusInv(history: map<nat, Execution>, workers: map<WorkerId, Exec>, log: seq<Event>) {
    && (forall i :: i in history ==> history[i].status == StatusOf(log, history[i].msg))
    && (forall w :: w in workers ==> OwnerOfRow(log, workers[w]))
  }

  lemma RecordGoesOn(pc: Pc, r: Reply, retry: bool, newId: nat)
    requires pc.At? && (HasRow(pc.stage) ==> pc.record.Some?)
    ensures var next := Advance(pc, r, retry, newId);
            next.At? ==>
              && (HasRow(next.stage) ==> next.record.Some?)
              && (next.record == pc.record
                  || (pc.stage.RecordStart? && r == Returned(true) && next.record == Some(newId)))
  {
  }

  lemma OwnerStep(s: World, e: Event, w: WorkerId)
    requires PathInv(s) && StatusInv(s.history, s.workers, s.log) && Legal(s, e) && w in Workers(s, e)
    ensures OwnerOfRow(s.log + [e], Workers(s, e)[w])
  {
    var log := s.log + [e];
    assert forall i :: 0 <= i < |s.log| ==> log[i] == s.log[i];
    assert log[|s.log|] == e;
    WorkerMoves(s, e, w);
    if e.Work? && e.worker == w {
      WorkIsByItsWorker(s, e);
      RecordGoesOn(At(e.stage, s.workers[w].record), e.reply, Retry(s.stream[e.msg]), |s.log|);
    }
  }

  /** What a step writes to the status of a row. */
  ghost predicate StatusMoved(s: World, e: Event, r: nat, status: ExecStatus)
    requires r in s.history
  {
    if e.Work? && e.worker in s.workers && s.workers[e.worker].record == Some(r) && Does(e, e.stage) then
      status == match e.stage
                case RecordSuccess => Success
                case RecordFailure => Failed
                case RecordDlq => Dlq
                case _ => s.history[r].status
    else status == s.history[r].status
  }

  lemma StatusMoves(s: World, e: Event, r: nat)
    requires Legal(s, e) && r in s.history && r in History(s, e) && r != |s.log|
    ensures StatusMoved(s, e, r, History(s, e)[r].status)
  {
  }

  lemma WroteMore(log: seq<Event>, e: Event, m: nat, stage: Stage)
    ensures Wrote(log + [e], m, stage) <==> Wrote(log, m, stage) || (WorkOn(e, m) && Does(e, stage))
  {
    var grown := log + [e];
    assert forall i :: 0 <= i < |log| ==> grown[i] == log[i];
    assert grown[|log|] == e;
  }

  /** The writes of one entry come in the order success, failure, dead letter. */
  lemma StatusGrows(log: seq<Event>, e: Event, m: nat)
    requires forall i :: 0 <= i < |log| && WorkOn(log[i], m) && WorkOn(e, m) ==> Rank(log[i].stage) < Rank(e.stage)
    ensures StatusOf(log + [e], m) ==
            if WorkOn(e, m) && Does(e, RecordDlq) then Dlq
            else if WorkOn(e, m) && Does(e, RecordFailure) then Failed
            else if WorkOn(e, m) && Does(e, RecordSuccess) then Success
            else StatusOf(log, m)
  {
    WroteMore(log, e, m, RecordDlq);
    WroteMore(log, e, m, RecordFailure);
    WroteMore(log, e, m, RecordSuccess);
  }

  lemma NothingWrittenYet(log: seq<Event>, m: nat)
    requires forall i :: 0 <= i < |log| && WorkOn(log[i], m) ==> Rank(log[i].stage) < Rank(RecordStart)
    ensures StatusOf(log, m) == Running
  {
  }

  /** The entry of a step is where its worker stands: all its earlier calls were of lower rank. */
  lemma EarlierIsLower(s: World, e: Event)
    requires PathInv(s) && Legal(s, e) && e.Work?
    ensures forall i :: 0 <= i < |s.log| && WorkOn(s.log[i], e.msg) ==> Rank(s.log[i].stage) < Rank(e.stage)
  {
    WorkIsByItsWorker(s, e);
  }

  lemma OneRowEach(s: World, e: Event, r: nat)
    requires PathInv(s) && TableInv(s) && StatusInv(s.history, s.workers, s.log) && Legal(s, e)
    requires e.Work? && HasRow(e.stage) && r in s.history && s.history[r].msg == e.msg
    ensures s.workers[e.worker].record == Some(r)
  {
    WorkIsByItsWorker(s, e);
    assert OwnerOfRow(s.log, s.workers[e.worker]);
    assert Records(s.history[r], s.stream, s.log[r]);
    var k := s.workers[e.worker].record.value;
    assert WorkOn(s.log[k], e.msg) && WorkOn(s.log[r], e.msg) && s.log[k].stage == s.log[r].stage;
  }

  lemma StatusStep(s: World, e: Event, r: nat)
    requires PathInv(s) && TableInv(s) && StatusInv(s.history, s.workers, s.log) && Legal(s, e) && r in History(s, e)
    ensures History(s, e)[r].status == StatusOf(s.log + [e], History(s, e)[r].msg)
  {
    hide StatusOf, KeysInv, DeadLetterTable, Sends, Legal, History;
    HistoryMoves(s, e);
    if e.Work? {
      EarlierIsLower(s, e);
    }
    if r == |s.log| {
      NothingWrittenYet(s.log, e.msg);
      StatusGrows(s.log, e, e.msg);
    } else {
      StatusMoves(s, e, r);
      StatusGrows(s.log, e, s.history[r].msg);
      if e.Work? && e.msg == s.history[r].msg && HasRow(e.stage) {
        OneRowEach(s, e, r);
      }
      if e.Work? {
        WorkIsByItsWorker(s, e);
        assert OwnerOfRow(s.log, s.workers[e.worker]);
      }
    }
  }

  lemma {:induction false} StatusesHold(log: seq<Event>)
    requires IsRun(log)
    ensures var s := After(log); StatusInv(s.history, s.workers, s.log)
  {
    if |log| > 0 {
      var s, e := After(log[..|log| - 1]), log[|log| - 1];
      StatusesHold(log[..|log| - 1]);
      PathsHold(log[..|log| - 1]);
      TablesHold(log[..|log| - 1]);
      forall r | r in History(s, e)
        ensures History(s, e)[r].status == StatusOf(s.log + [e], History(s, e)[r].msg)
      {
        StatusStep(s, e, r);
      }
      forall w | w in Workers(s, e)
        ensures OwnerOfRow(s.log + [e], Workers(s, e)[w])
      {
        OwnerStep(s, e, w);
      }
    }
  }

  /** In every run a history row is dlq, failed or success exactly as the last of the calls that record these
      for its entry, and running when none has taken effect, whatever reply was lost and whatever crashed. */
  lemma StatusIsLastWritten(log: seq<Event>, r: nat)
    requires IsRun(log) && r in After(log).history
    ensures After(log).history[r].status == StatusOf(log, After(log).history[r].msg)
  {
    hide StatusOf;
    StatusesHold(log);
    LogIsTheRun(log);
  }
}
