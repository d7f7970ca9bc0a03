// Rows of job_executions only move up running < success < failed < dlq, and stay with the entry
// they were inserted for.
module ExecutionHistory {
  import opened Base
  import opened Stages
  import opened HistoryRows
  import opened Protocol
  import opened MessagePaths

  function StatusRank(s: ExecStatus): nat {
    match s case Running => 0 case Success => 1 case Failed => 2 case Dlq => 3
  }

  /** What the status column can be while the row's worker is at a stage. */
  predicate StatusFits(stage: Stage, status: ExecStatus) {
    match stage
    case RunHandler => status.Running?
    case RecordSuccess => status.Running?
    case CompleteRead => status.Success?
    case CompleteWrite => status.Success?
    case AckDone => status.Success?
    case RecordFailure => status.Running? || status.Success?
    case FailJob => status.Failed?
    case SendDlq => status.Failed?
    case WriteDlq => status.Failed?
    case RecordDlq => status.Failed?
    case _ => true
  }

  /** The status column after a call on the row took effect. */
  function Written(stage: Stage, status: ExecStatus): ExecStatus {
    match stage
    case RecordSuccess => Success
    case RecordFailure => Failed
    case RecordDlq => Dlq
    case _ => status
  }

  predicate IsWrite(stage: Stage) {
    stage.RecordSuccess? || stage.RecordFailure? || stage.RecordDlq?
  }

  lemma FitsAdvances(stage: Stage, r: Reply, retry: bool, rec: nat, newId: nat, status: ExecStatus)
    requires Rank(stage) >= 5 && !(IsWrite(stage) && r == Returned(false))
    ensures var next := Advance(At(stage, Some(rec)), r, retry, newId);
            next.At? ==> next.record == Some(rec) && Rank(next.stage) >= 5
                         && (StatusFits(stage, status) ==>
                               StatusFits(next.stage, if Took(r) then Written(stage, status) else status))
  {
  }

  ghost predicate RecordInv(position: nat, history: map<nat, Execution>, x: Exec) {
    x.record.Some? ==>
      && x.record.value < position && Rank(x.stage) >= 5
      && (x.record.value in history ==>
          history[x.record.value].msg == x.msg && StatusFits(x.stage, history[x.record.value].status))
  }

  ghost predicate HistoryInv(position: nat, history: map<nat, Execution>, workers: map<WorkerId, Exec>) {
    && (forall r :: r in history ==> r < position)
    && (forall w :: w in workers ==> RecordInv(position, history, workers[w]))
  }

  /** A row is new, or untouched, or moved on by the worker whose record it is. */
  ghost predicate RowMoved(s: World, e: Event, r: nat, row: Execution) {
    if r == |s.log| then e.Work? && row.msg == e.msg && row.status.Running?
    else
      && r in s.history && row.msg == s.history[r].msg && row.job == s.history[r].job
      && (row.status == s.history[r].status
          || (&& e.Work? && e.worker in s.workers && s.workers[e.worker].record == Some(r) && Took(e.reply)
              && ((e.stage.RecordSuccess? && row.status.Success?) || (e.stage.RecordFailure? && row.status.Failed?)
                  || (e.stage.RecordDlq? && row.status.Dlq?))))
  }

  lemma HistoryMoves(s: World, e: Event, r: nat)
    requires Legal(s, e) && r in History(s, e) && |s.log| !in s.history
    ensures RowMoved(s, e, r, History(s, e)[r])
  {
  }

  /** The status only moves up. */
  lemma StatusMovesUp(s: World, e: Event, r: nat)
    requires HistoryInv(|s.log|, s.history, s.workers) && Legal(s, e) && r in History(s, e) && r in s.history
    ensures StatusRank(s.history[r].status) <= StatusRank(History(s, e)[r].status)
    ensures History(s, e)[r].msg == s.history[r].msg && History(s, e)[r].job == s.history[r].job
  {
    HistoryMoves(s, e, r);
    if e.Work? {
      WorkIsByItsWorker(s, e);
      assert RecordInv(|s.log|, s.history, s.workers[e.worker]);
    }
  }

  /** What a step does to its own worker's record and row. */
  lemma OwnRow(s: World, e: Event)
    requires HistoryInv(|s.log|, s.history, s.workers) && Legal(s, e) && e.Work? && e.worker in Workers(s, e)
    ensures var rec, y := s.workers[e.worker].record, Workers(s, e)[e.worker];
            if rec.Some? then
              && Advance(At(e.stage, rec), e.reply, Retry(s.stream[e.msg]), |s.log|) == At(y.stage, y.record)
              && (rec.value < |s.log| && rec.value in History(s, e) ==>
                    && rec.value in s.history
                    && History(s, e)[rec.value] == s.history[rec.value].(
                         status := if Took(e.reply) then Written(e.stage, s.history[rec.value].status)
                                   else s.history[rec.value].status))
            else
              (y.record.Some? ==>
                && e.stage.RecordStart? && y.stage.RunHandler? && y.record.value == |s.log|
                && |s.log| in History(s, e)
                && History(s, e)[|s.log|].msg == e.msg && History(s, e)[|s.log|].status.Running?)
    ensures !(IsWrite(e.stage) && e.reply == Returned(false))
    ensures Workers(s, e)[e.worker].msg == e.msg
  {
    WorkIsByItsWorker(s, e);
    assert RecordInv(|s.log|, s.history, s.workers[e.worker]);
  }

  /** The record and stage a step leaves its worker with fit the row it then has. */
  lemma OwnRecord(s: World, e: Event)
    requires HistoryInv(|s.log|, s.history, s.workers) && Legal(s, e) && e.Work? && e.worker in Workers(s, e)
    ensures RecordInv(|s.log| + 1, History(s, e), Workers(s, e)[e.worker])
  {
    WorkIsByItsWorker(s, e);
    OwnRow(s, e);
    var x := s.workers[e.worker];
    assert RecordInv(|s.log|, s.history, x);
    if x.record.Some? {
      var r := x.record.value;
      var status := if r in s.history then s.history[r].status else Running;
      FitsAdvances(e.stage, e.reply, Retry(s.stream[e.msg]), r, |s.log|, status);
    }
  }

  lemma OthersRecord(s: World, e: Event, w: WorkerId)
    requires PathInv(s) && HistoryInv(|s.log|, s.history, s.workers) && Legal(s, e) && w in Workers(s, e)
    requires !(e.Work? && e.worker == w)
    ensures RecordInv(|s.log| + 1, History(s, e), Workers(s, e)[w])
  {
    WorkerMoves(s, e, w);
    var y := Workers(s, e)[w];
    if w in s.workers && y.record.Some? {
      assert RecordInv(|s.log|, s.history, s.workers[w]);
      var r := y.record.value;
      if r in History(s, e) {
        HistoryMoves(s, e, r);
        if e.Work? {
          WorkIsByItsWorker(s, e);
          assert RecordInv(|s.log|, s.history, s.workers[e.worker]);
        }
      }
    }
  }

  lemma {:induction false} HistoriesHold(log: seq<Event>)
    requires IsRun(log)
    ensures HistoryInv(|log|, After(log).history, After(log).workers)
  {
    if |log| > 0 {
      var s, e := After(log[..|log| - 1]), log[|log| - 1];
      HistoriesHold(log[..|log| - 1]);
      PathsHold(log[..|log| - 1]);
      LogIsTheRun(log[..|log| - 1]);
      HistoryStep(s, e);
    }
  }

  lemma HistoryStep(s: World, e: Event)
    requires PathInv(s) && HistoryInv(|s.log|, s.history, s.workers) && Legal(s, e)
    ensures HistoryInv(|s.log| + 1, History(s, e), Workers(s, e))
  {
    forall r | r in History(s, e)
      ensures r < |s.log| + 1
    {
      HistoryMoves(s, e, r);
    }
    forall w | w in Workers(s, e)
      ensures RecordInv(|s.log| + 1, History(s, e), Workers(s, e)[w])
    {
      if e.Work? && e.worker == w {
        OwnRecord(s, e);
      } else {
        OthersRecord(s, e, w);
      }
    }
  }

  /** Between any two points of a run a row's status has only moved up, and its job and entry are
      the same. */
  lemma {:induction false} HistoryOnlyMovesUp(log: seq<Event>, n: nat, r: nat)
    requires IsRun(log) && n <= |log| && IsRun(log[..n])
    requires r in After(log[..n]).history && r in After(log).history
    ensures StatusRank(After(log[..n]).history[r].status) <= StatusRank(After(log).history[r].status)
    ensures After(log[..n]).history[r].msg == After(log).history[r].msg
    ensures After(log[..n]).history[r].job == After(log).history[r].job
  {
    if n == |log| {
      assert log[..n] == log;
    } else {
      var front := log[..|log| - 1];
      var s, e := After(front), log[|log| - 1];
      assert front[..n] == log[..n];
      HistoriesHold(front);
      HistoriesHold(log[..n]);
      LogIsTheRun(front);
      HistoryMoves(s, e, r);
      HistoryOnlyMovesUp(front, n, r);
      StatusMovesUp(s, e, r);
    }
  }
}
