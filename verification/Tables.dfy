// job_executions, dead_letter_queue and the DLQ stream over a whole run: which rows they hold, what is in
// them, and that no row refers to a deleted job.
module Tables {
  import opened Base
  import opened HistoryRows
  import opened JobRows
  import opened Stages
  import opened Protocol
  import opened MessagePaths
  import opened TerminalStates

  /** The event made the call of this stage, and it took effect. */
  predicate Does(e: Event, stage: Stage) {
    e.Work? && e.stage == stage && Took(e.reply)
  }

  // ----- which rows there are -----

  /** The columns a history row is inserted with. */
  predicate Records(row: Execution, stream: seq<Message>, e: Event) {
    && e.Work? && e.msg < |stream| && e.arg.Some?
    && row.job == e.job && row.worker == e.worker && row.msg == e.msg
    && row.key == (e.job, stream[e.msg].attempt, e.arg.value)
  }

  /** There is a row for every start recorded for a job that still exists, and no other. */
  ghost predicate HistoryTable(
      jobs: JobTable, stream: seq<Message>, history: map<nat, Execution>, log: seq<Event>)
  {
    && (forall i: nat :: i in history <==> i < |log| && Does(log[i], RecordStart) && log[i].job in jobs)
    && (forall i :: i in history ==> i < |log| && Records(history[i], stream, log[i]))
  }

  predicate Buries(row: DlqRow, e: Event) {
    e.Work? && row.job == e.job && row.msg == e.msg
  }

  /** When the dead letter row was last marked as requeued. */
  ghost function LastStamp(log: seq<Event>, row: nat): Option<int> {
    if log == [] then None
    else
      var e := log[|log| - 1];
      if e.StampRequeued? && e.entry == row then Some(e.at) else LastStamp(log[..|log| - 1], row)
  }

  ghost predicate DeadLetterTable(jobs: JobTable, rows: map<nat, DlqRow>, log: seq<Event>) {
    && (forall i: nat :: i in rows <==> i < |log| && Does(log[i], WriteDlq) && log[i].job in jobs)
    && (forall i :: i in rows ==> i < |log| && Buries(rows[i], log[i]))
    && (forall i :: i in rows ==> rows[i].requeuedAt == LastStamp(log, i))
  }

  /** The entries sent to the DLQ stream, in order. */
  ghost function Sends(log: seq<Event>): seq<nat> {
    if log == [] then []
    else
      var e, front := log[|log| - 1], Sends(log[..|log| - 1]);
      if Does(e, SendDlq) then front + [e.msg] else front
  }

  ghost predicate KeysInv(history: map<nat, Execution>) {
    forall r, t :: r in history && t in history && history[r].key == history[t].key ==> r == t
  }

  ghost predicate TableInv(s: World) {
    && HistoryTable(s.jobs, s.stream, s.history, s.log)
    && KeysInv(s.history)
    && DeadLetterTable(s.jobs, s.dlqTable, s.log)
    && s.dlqStream == Sends(s.log)
  }

  /** A step that inserts a row finds its job, and for a history row its key free. */
  lemma InsertsExist(s: World, e: Event)
    requires Legal(s, e) && (Does(e, RecordStart) || Does(e, WriteDlq))
    ensures e.job in s.jobs
    ensures e.stage.RecordStart? ==> e.arg.Some? && KeyIsFree(s, ExecutionKey(s, e.msg, e.arg.value))
  {
  }

  /** Jobs come and go: a step removes only the job it deletes, and adds only one never created before. */
  ghost predicate JobsMoved(jobs: JobTable, created: map<JobId, Kind>, e: Event, next: JobTable) {
    && (forall j :: j in jobs && !(e.Delete? && e.job == j) ==> j in next)
    && (forall j :: j in next ==> !(e.Delete? && e.job == j))
    && (forall j :: j in next && j !in jobs ==> e.Create? && e.job == j && j !in created)
  }

  lemma JobsMove(s: World, e: Event)
    requires Legal(s, e)
    ensures JobsMoved(s.jobs, s.created, e, Jobs(s, e))
  {
  }

  /** A step changes the insert columns of no history row, adds only its own, and removes those of the job it
      deletes. */
  ghost predicate HistoryMoved(history: map<nat, Execution>, n: nat, e: Event, next: map<nat, Execution>) {
    && (forall r: nat :: r in next <==>
          if r == n then Does(e, RecordStart) else r in history && !(e.Delete? && history[r].job == e.job))
    && (forall r :: r in next && r != n ==> next[r] == history[r].(status := next[r].status))
  }

  lemma HistoryMoves(s: World, e: Event)
    requires Legal(s, e) && |s.log| !in s.history
    ensures HistoryMoved(s.history, |s.log|, e, History(s, e))
    ensures Does(e, RecordStart) ==>
              History(s, e)[|s.log|] == Execution(e.job, e.worker, ExecutionKey(s, e.msg, e.arg.value), Running, e.msg)
  {
  }

  lemma HistoryTableStays(
      jobs: JobTable, next: JobTable, created: map<JobId, Kind>, stream: seq<Message>, longer: seq<Message>,
      history: map<nat, Execution>, rows: map<nat, Execution>, log: seq<Event>, e: Event)
    requires HistoryTable(jobs, stream, history, log) && stream <= longer
    requires JobsMoved(jobs, created, e, next) && HistoryMoved(history, |log|, e, rows)
    requires forall i :: 0 <= i < |log| && log[i].Work? ==> log[i].job in created
    requires Does(e, RecordStart) ==> e.job in jobs && Records(rows[|log|], longer, e)
    ensures HistoryTable(next, longer, rows, log + [e])
  {
    var grown := log + [e];
    assert forall i :: 0 <= i < |log| ==> grown[i] == log[i];
    forall i: nat
      ensures i in rows <==> i < |grown| && Does(grown[i], RecordStart) && grown[i].job in next
    {
      assert i < |log| && Does(log[i], RecordStart) && log[i].job in jobs ==> i in history;
      assert i in history ==> Records(history[i], stream, log[i]);
    }
  }

  lemma KeysStay(history: map<nat, Execution>, n: nat, e: Event, rows: map<nat, Execution>)
    requires KeysInv(history) && HistoryMoved(history, n, e, rows)
    requires n in rows ==> forall r :: r in history ==> history[r].key != rows[n].key
    ensures KeysInv(rows)
  {
  }

  lemma HistoryTableStep(s: World, e: Event)
    requires PathInv(s) && TerminalInv(s) && TableInv(s) && Legal(s, e)
    ensures HistoryTable(Jobs(s, e), Stream(s, e), History(s, e), s.log + [e])
    ensures KeysInv(History(s, e))
  {
    hide HistoryMoved, JobsMoved;
    StreamGrows(s, e);
    JobsMove(s, e);
    HistoryMoves(s, e);
    if Does(e, RecordStart) {
      InsertsExist(s, e);
      WorkIsByItsWorker(s, e);
      OwnRow(s, e);
    } else {
      NoOwnRow(s, e);
    }
    HistoryTableStays(s.jobs, Jobs(s, e), s.created, s.stream, Stream(s, e), s.history, History(s, e), s.log, e);
    KeysStay(s.history, |s.log|, e, History(s, e));
  }

  lemma OwnRow(s: World, e: Event)
    requires PathInv(s) && Legal(s, e) && Does(e, RecordStart)
    ensures |s.log| in History(s, e) && Records(History(s, e)[|s.log|], Stream(s, e), e)
    ensures forall r :: r in s.history ==> s.history[r].key != History(s, e)[|s.log|].key
  {
    StreamGrows(s, e);
    WorkIsByItsWorker(s, e);
    InsertsExist(s, e);
  }

  lemma NoOwnRow(s: World, e: Event)
    requires Legal(s, e) && |s.log| !in s.history && !Does(e, RecordStart)
    ensures |s.log| !in History(s, e)
  {
    HistoryMoves(s, e);
  }

  ghost predicate DeadLettersMoved(rows: map<nat, DlqRow>, n: nat, e: Event, next: map<nat, DlqRow>) {
    && (forall r: nat :: r in next <==>
          if r == n then Does(e, WriteDlq) else r in rows && !(e.Delete? && rows[r].job == e.job))
    && (forall r :: r in next && r != n ==>
          next[r] == if e.StampRequeued? && e.entry == r then rows[r].(requeuedAt := Some(e.at)) else rows[r])
    && (Does(e, WriteDlq) ==> next[n] == DlqRow(e.job, e.msg, None))
    && (e.StampRequeued? ==> e.entry in rows)
  }

  lemma DeadLettersMove(s: World, e: Event)
    requires Legal(s, e) && |s.log| !in s.dlqTable
    ensures DeadLettersMoved(s.dlqTable, |s.log|, e, DlqTable(s, e))
  {
  }

  lemma {:induction false} NotStampedYet(log: seq<Event>, row: nat)
    requires forall i :: 0 <= i < |log| ==> !(log[i].StampRequeued? && log[i].entry == row)
    ensures LastStamp(log, row) == None
  {
    if log != [] {
      NotStampedYet(log[..|log| - 1], row);
    }
  }

  /** Only rows that are there are stamped. */
  ghost predicate StampInv(log: seq<Event>) {
    forall i :: 0 <= i < |log| && log[i].StampRequeued? ==> log[i].entry < i
  }

  lemma DeadLetterTableStays(
      jobs: JobTable, next: JobTable, created: map<JobId, Kind>,
      rows: map<nat, DlqRow>, kept: map<nat, DlqRow>, log: seq<Event>, e: Event)
    requires DeadLetterTable(jobs, rows, log) && StampInv(log)
    requires JobsMoved(jobs, created, e, next) && DeadLettersMoved(rows, |log|, e, kept)
    requires forall i :: 0 <= i < |log| && log[i].Work? ==> log[i].job in created
    requires Does(e, WriteDlq) ==> e.job in jobs
    ensures DeadLetterTable(next, kept, log + [e]) && StampInv(log + [e])
  {
    var grown := log + [e];
    assert forall i :: 0 <= i < |log| ==> grown[i] == log[i];
    assert grown[..|log|] == log;
    NotStampedYet(log, |log|);
    forall i: nat
      ensures i in kept <==> i < |grown| && Does(grown[i], WriteDlq) && grown[i].job in next
    {
      assert i < |log| && Does(log[i], WriteDlq) && log[i].job in jobs ==> i in rows;
      assert i in rows ==> Buries(rows[i], log[i]);
    }
  }

  lemma DeadLetterTableStep(s: World, e: Event)
    requires TerminalInv(s) && TableInv(s) && StampInv(s.log) && Legal(s, e)
    ensures DeadLetterTable(Jobs(s, e), DlqTable(s, e), s.log + [e]) && StampInv(s.log + [e])
  {
    hide DeadLettersMoved, JobsMoved;
    JobsMove(s, e);
    DeadLettersMove(s, e);
    if Does(e, WriteDlq) {
      InsertsExist(s, e);
    }
    DeadLetterTableStays(s.jobs, Jobs(s, e), s.created, s.dlqTable, DlqTable(s, e), s.log, e);
  }

  lemma SendsStep(s: World, e: Event)
    requires s.dlqStream == Sends(s.log) && Legal(s, e)
    ensures DlqStream(s, e) == Sends(s.log + [e])
  {
    assert (s.log + [e])[..|s.log|] == s.log;
  }

  lemma {:induction false} TablesHold(log: seq<Event>)
    requires IsRun(log)
    ensures TableInv(After(log)) && StampInv(After(log).log)
  {
    if |log| > 0 {
      var s, e := After(log[..|log| - 1]), log[|log| - 1];
      TablesHold(log[..|log| - 1]);
      PathsHold(log[..|log| - 1]);
      TerminalsHold(log[..|log| - 1]);
      HistoryTableStep(s, e);
      DeadLetterTableStep(s, e);
      SendsStep(s, e);
    }
  }

  /** In every reachable state job_executions holds exactly the recorded starts of jobs that still exist, each
      with the job, worker, entry and key of its start; and no two rows have the same key. */
  lemma HistoryIsTheLog(log: seq<Event>)
    requires IsRun(log)
    ensures HistoryTable(After(log).jobs, After(log).stream, After(log).history, log) && KeysInv(After(log).history)
  {
    hide HistoryTable, KeysInv;
    TablesHold(log);
    LogIsTheRun(log);
  }

  /** dead_letter_queue holds exactly the dead letters of jobs that still exist, each with its job and entry, and
      stamped with its last retry; and the DLQ stream holds all dead letters ever sent, in order. */
  lemma DeadLettersAreTheLog(log: seq<Event>)
    requires IsRun(log)
    ensures DeadLetterTable(After(log).jobs, After(log).dlqTable, log) && After(log).dlqStream == Sends(log)
  {
    hide DeadLetterTable;
    TablesHold(log);
    LogIsTheRun(log);
  }

  /** No history row and no dead letter refers to a job that does not exist. */
  lemma ReferencesHold(log: seq<Event>)
    requires IsRun(log)
    ensures var s := After(log);
            && (forall r :: r in s.history ==> s.history[r].job in s.jobs)
            && (forall r :: r in s.dlqTable ==> s.dlqTable[r].job in s.jobs)
  {
    hide HistoryTable, DeadLetterTable, KeysInv;
    HistoryIsTheLog(log);
    DeadLettersAreTheLog(log);
    RowsHaveJobs(After(log).jobs, After(log).stream, After(log).history, After(log).dlqTable, log);
  }

  lemma RowsHaveJobs(
      jobs: JobTable, stream: seq<Message>, history: map<nat, Execution>, rows: map<nat, DlqRow>, log: seq<Event>)
    requires HistoryTable(jobs, stream, history, log) && DeadLetterTable(jobs, rows, log)
    ensures forall r :: r in history ==> history[r].job in jobs
    ensures forall r :: r in rows ==> rows[r].job in jobs
  {
  }

  /** A DLQ retry requeues a job only on account of a dead letter of it, written before. */
  lemma RequeueHasDeadLetter(log: seq<Event>, i: nat)
    requires IsRun(log) && i < |log| && log[i].Requeue?
    ensures log[i].entry < i && Does(log[log[i].entry], WriteDlq) && log[log[i].entry].job == log[i].job
  {
    StepIsLegal(log, i);
    DeadLettersAreTheLog(log[..i]);
    RequeuesBuried(After(log[..i]), log[i]);
    var row := After(log[..i]).dlqTable[log[i].entry];
    assert log[..i][log[i].entry] == log[log[i].entry];
    assert Buries(row, log[log[i].entry]);
  }

  lemma RequeuesBuried(s: World, e: Event)
    requires Legal(s, e) && e.Requeue?
    ensures e.entry in s.dlqTable && s.dlqTable[e.entry].job == e.job
  {
  }

  // ----- deleted jobs -----

  ghost predicate Deleted(log: seq<Event>, job: JobId) {
    exists i :: 0 <= i < |log| && log[i].Delete? && log[i].job == job
  }

  /** A job exists exactly when it was created and not deleted. */
  ghost predicate ExistInv(jobs: JobTable, created: map<JobId, Kind>, log: seq<Event>) {
    && (forall j :: j in jobs <==> j in created && !Deleted(log, j))
  }

  lemma ExistStep(s: World, e: Event)
    requires ExistInv(s.jobs, s.created, s.log) && Legal(s, e)
    requires forall i :: 0 <= i < |s.log| && s.log[i].Delete? ==> s.log[i].job in s.created
    ensures ExistInv(Jobs(s, e), Created(s, e), s.log + [e])
    ensures forall i :: 0 <= i <= |s.log| && (s.log + [e])[i].Delete? ==> (s.log + [e])[i].job in Created(s, e)
  {
    var log := s.log + [e];
    JobsMove(s, e);
    assert forall i :: 0 <= i < |s.log| ==> log[i] == s.log[i];
    assert log[|s.log|] == e;
    CreateAndDelete(s, e);
    forall j
      ensures Deleted(log, j) <==> Deleted(s.log, j) || (e.Delete? && e.job == j)
    {
      if Deleted(s.log, j) {
        var i :| 0 <= i < |s.log| && s.log[i].Delete? && s.log[i].job == j;
        assert log[i].Delete?;
      }
    }
  }

  lemma CreateAndDelete(s: World, e: Event)
    requires Legal(s, e)
    ensures e.Delete? ==> e.job in s.jobs
    ensures e.Create? ==> e.job !in s.created && e.job in Jobs(s, e)
  {
  }

  lemma {:induction false} ExistsHold(log: seq<Event>)
    requires IsRun(log)
    ensures var s := After(log);
            && ExistInv(s.jobs, s.created, s.log)
            && forall i :: 0 <= i < |s.log| && s.log[i].Delete? ==> s.log[i].job in s.created
  {
    if |log| > 0 {
      var s, e := After(log[..|log| - 1]), log[|log| - 1];
      ExistsHold(log[..|log| - 1]);
      ExistStep(s, e);
    }
  }

  /** A job exists exactly when it was created and never deleted: ids are not used twice, and whatever late
      executions, loops or callers do, a deleted job leaves no row, no history and no dead letter. */
  lemma DeletedJobIsGone(log: seq<Event>, job: JobId)
    requires IsRun(log)
    ensures var s := After(log);
            && (job in s.jobs <==> job in s.created && !Deleted(log, job))
            && (Deleted(log, job) ==>
                  && (forall r :: r in s.history ==> s.history[r].job != job)
                  && (forall r :: r in s.dlqTable ==> s.dlqTable[r].job != job))
  {
    ExistsHold(log);
    LogIsTheRun(log);
    ReferencesHold(log);
  }

  /** completeExecution finds no row only for a job that was deleted before. */
  lemma NotFoundMeansDeleted(log: seq<Event>, i: nat)
    requires IsRun(log) && i < |log| && log[i].Work? && log[i].stage.CompleteRead? && log[i].reply == Returned(false)
    ensures Deleted(log[..i], log[i].job)
  {
    StepIsLegal(log, i);
    var s := After(log[..i]);
    ExistsHold(log[..i]);
    TerminalsHold(log[..i]);
    PathsHold(log[..i]);
    LogIsTheRun(log[..i]);
    NotFound(s, log[i]);
  }

  lemma NotFound(s: World, e: Event)
    requires PathInv(s) && CronInv(s.created, s.workers, s.stream, s.log) && Legal(s, e)
    requires e.Work? && e.stage.CompleteRead? && e.reply == Returned(false)
    ensures e.job !in s.jobs && e.job in s.created
  {
    WorkIsByItsWorker(s, e);
  }
}
