// Which calls _executeJob (src/worker/worker.js) makes, as conditions on the answers alone: the code read
// as a table, beside the step-by-step machine of Stages.
module ExecutionPaths {
  import opened Base
  import opened Stages
  import opened Worker

  ghost predicate Made(calls: seq<Call>, stage: Stage) {
    exists i :: 0 <= i < |calls| && calls[i].stage == stage
  }

  predicate Yes(answers: Answers, stage: Stage) {
    Answer(answers, stage) == Returned(true)
  }

  predicate No(answers: Answers, stage: Stage) {
    Answer(answers, stage) == Returned(false)
  }

  /** The call returns instead of throwing. */
  predicate Back(answers: Answers, stage: Stage) {
    Answer(answers, stage).Returned?
  }

  // ----- the conditions -----

  /** The handler is registered and its start recorded. */
  predicate Started(answers: Answers) {
    Yes(answers, Acquire) && Yes(answers, CheckHandler) && Yes(answers, RecordStart)
  }

  /** completeExecution returns: the job is gone, or its row is written. */
  predicate Completed(answers: Answers) {
    && Started(answers) && Back(answers, RunHandler) && Back(answers, RecordSuccess)
    && (No(answers, CompleteRead) || (Yes(answers, CompleteRead) && Back(answers, CompleteWrite)))
  }

  /** An exception leaves the try block. */
  predicate Thrown(answers: Answers) {
    && Yes(answers, Acquire)
    && (|| !Yes(answers, CheckHandler)
        || (Yes(answers, CheckHandler) && !Back(answers, RecordStart))
        || (Yes(answers, CheckHandler) && No(answers, RecordStart) && !Back(answers, AckDuplicate))
        || (Started(answers) && !(Completed(answers) && Back(answers, AckDone))))
  }

  /** The catch block gets to failExecution, which returns. */
  predicate Failed(answers: Answers) {
    Thrown(answers) && (Started(answers) ==> Back(answers, RecordFailure)) && Back(answers, FailJob)
  }

  /** Both dead letters are written. */
  predicate Buried(answers: Answers, retry: bool) {
    Failed(answers) && !retry && Back(answers, SendDlq) && Back(answers, WriteDlq)
  }

  /** When a call is made, by what the calls before it answer. */
  predicate Called(answers: Answers, retry: bool, stage: Stage) {
    match stage
    case Acquire => true
    case AckRefused => No(answers, Acquire)
    case CheckHandler => Yes(answers, Acquire)
    case RecordStart => Yes(answers, Acquire) && Yes(answers, CheckHandler)
    case AckDuplicate => Yes(answers, Acquire) && Yes(answers, CheckHandler) && No(answers, RecordStart)
    case RunHandler => Started(answers)
    case RecordSuccess => Started(answers) && Back(answers, RunHandler)
    case CompleteRead => Started(answers) && Back(answers, RunHandler) && Back(answers, RecordSuccess)
    case CompleteWrite =>
      Started(answers) && Back(answers, RunHandler) && Back(answers, RecordSuccess) && Yes(answers, CompleteRead)
    case AckDone => Completed(answers)
    case RecordFailure => Thrown(answers) && Started(answers)
    case FailJob => Thrown(answers) && (Started(answers) ==> Back(answers, RecordFailure))
    case SendDlq => Failed(answers) && !retry
    case WriteDlq => Failed(answers) && !retry && Back(answers, SendDlq)
    case RecordDlq => Buried(answers, retry) && Started(answers)
    case AckFailed =>
      || (Failed(answers) && retry)
      || (Buried(answers, retry) && (Started(answers) ==> Back(answers, RecordDlq)))
    case Release => Yes(answers, Acquire)
  }

  // ----- the machine, block by block -----

  lemma MadeNext(pc: Pc, answers: Answers, retry: bool, newId: nat, stage: Stage)
    requires pc.At?
    ensures var next := Advance(pc, Answer(answers, pc.stage), retry, newId);
            Made(Path(pc, answers, retry, newId), stage) <==>
            pc.stage == stage || Made(Path(next, answers, retry, newId), stage)
  {
    var r := Answer(answers, pc.stage);
    var rest := Path(Advance(pc, r, retry, newId), answers, retry, newId);
    var path := Path(pc, answers, retry, newId);
    assert path == [Call(pc.stage, r)] + rest by {
      AdvanceMovesForward(pc, r, retry, newId);
    }
    assert path[0].stage == pc.stage;
    assert forall i :: 0 <= i < |rest| ==> path[i + 1] == rest[i];
    assert forall i :: 0 < i < |path| ==> path[i] == rest[i - 1];
  }

  lemma OnlyReleaseIsLeft(record: Option<nat>, answers: Answers, retry: bool, newId: nat, stage: Stage)
    ensures Made(Path(At(Release, record), answers, retry, newId), stage) <==> stage.Release?
  {
    MadeNext(At(Release, record), answers, retry, newId, stage);
    OnlyRelease(Done, answers, retry, newId);
  }

  /** The dead letter part of the catch block. */
  lemma BuryCalls(record: Option<nat>, answers: Answers, newId: nat, stage: Stage)
    ensures Made(Path(At(SendDlq, record), answers, false, newId), stage) <==>
            match stage
            case SendDlq => true
            case WriteDlq => Back(answers, SendDlq)
            case RecordDlq => Back(answers, SendDlq) && Back(answers, WriteDlq) && record.Some?
            case AckFailed =>
              && Back(answers, SendDlq) && Back(answers, WriteDlq)
              && (record.Some? ==> Back(answers, RecordDlq))
            case Release => true
            case _ => false
  {
    hide Path, Made;
    MadeNext(At(SendDlq, record), answers, false, newId, stage);
    MadeNext(At(WriteDlq, record), answers, false, newId, stage);
    MadeNext(At(RecordDlq, record), answers, false, newId, stage);
    MadeNext(At(AckFailed, record), answers, false, newId, stage);
    OnlyReleaseIsLeft(record, answers, false, newId, stage);
  }

  lemma CatchCalls(record: Option<nat>, answers: Answers, retry: bool, newId: nat, stage: Stage)
    ensures var failed := (record.Some? ==> Back(answers, RecordFailure)) && Back(answers, FailJob);
            var buried := failed && !retry && Back(answers, SendDlq) && Back(answers, WriteDlq);
            Made(Path(Catch(record), answers, retry, newId), stage) <==>
            match stage
            case RecordFailure => record.Some?
            case FailJob => record.Some? ==> Back(answers, RecordFailure)
            case SendDlq => failed && !retry
            case WriteDlq => failed && !retry && Back(answers, SendDlq)
            case RecordDlq => buried && record.Some?
            case AckFailed => (failed && retry) || (buried && (record.Some? ==> Back(answers, RecordDlq)))
            case Release => true
            case _ => false
  {
    hide Path, Made;
    MadeNext(At(RecordFailure, record), answers, retry, newId, stage);
    MadeNext(At(FailJob, record), answers, retry, newId, stage);
    MadeNext(At(AckFailed, record), answers, retry, newId, stage);
    OnlyReleaseIsLeft(record, answers, retry, newId, stage);
    BuryCalls(record, answers, newId, stage);
  }

  /** From completeExecution on. */
  lemma CompleteCalls(record: Option<nat>, answers: Answers, retry: bool, newId: nat, stage: Stage)
    ensures var through := No(answers, CompleteRead) || (Yes(answers, CompleteRead) && Back(answers, CompleteWrite));
            Made(Path(At(CompleteRead, record), answers, retry, newId), stage) <==>
            match stage
            case CompleteRead => true
            case CompleteWrite => Yes(answers, CompleteRead)
            case AckDone => through
            case _ =>
              if through && Back(answers, AckDone) then stage.Release?
              else Made(Path(Catch(record), answers, retry, newId), stage)
  {
    hide Path, Made;
    MadeNext(At(CompleteRead, record), answers, retry, newId, stage);
    MadeNext(At(CompleteWrite, record), answers, retry, newId, stage);
    MadeNext(At(AckDone, record), answers, retry, newId, stage);
    OnlyReleaseIsLeft(record, answers, retry, newId, stage);
    CatchCalls(record, answers, retry, newId, stage);
  }

  /** From the handler on. */
  lemma RunCalls(answers: Answers, retry: bool, newId: nat, stage: Stage)
    requires Started(answers)
    ensures Made(Path(At(RunHandler, Some(newId)), answers, retry, newId), stage) <==>
            Rank(stage) >= Rank(RunHandler) && Called(answers, retry, stage)
  {
    hide Path, Made;
    var record := Some(newId);
    MadeNext(At(RunHandler, record), answers, retry, newId, stage);
    MadeNext(At(RecordSuccess, record), answers, retry, newId, stage);
    CompleteCalls(record, answers, retry, newId, stage);
    CatchCalls(record, answers, retry, newId, stage);
  }

  /** Each of the seventeen calls of an execution is made exactly under its condition, for all answers. */
  lemma CalledExactlyWhen(answers: Answers, retry: bool, newId: nat, stage: Stage)
    ensures Made(Execution(answers, retry, newId), stage) <==> Called(answers, retry, stage)
  {
    hide Path, Made;
    MadeNext(At(Acquire, None), answers, retry, newId, stage);
    MadeNext(At(AckRefused, None), answers, retry, newId, stage);
    MadeNext(At(CheckHandler, None), answers, retry, newId, stage);
    MadeNext(At(RecordStart, None), answers, retry, newId, stage);
    MadeNext(At(AckDuplicate, None), answers, retry, newId, stage);
    OnlyReleaseIsLeft(None, answers, retry, newId, stage);
    NothingIsLeft(answers, retry, newId, stage);
    CatchCalls(None, answers, retry, newId, stage);
    if Started(answers) {
      RunCalls(answers, retry, newId, stage);
    }
  }

  lemma NothingIsLeft(answers: Answers, retry: bool, newId: nat, stage: Stage)
    ensures !Made(Path(Done, answers, retry, newId), stage)
  {
  }

  /** Each call ends with its own answer, and the stages only go up, from `least` on. */
  ghost predicate InOrder(calls: seq<Call>, answers: Answers, least: nat) {
    && (forall i :: 0 <= i < |calls| ==> calls[i].reply == Answer(answers, calls[i].stage))
    && (forall i :: 0 <= i < |calls| ==> least <= Rank(calls[i].stage))
    && (forall i, k :: 0 <= i < k < |calls| ==> Rank(calls[i].stage) < Rank(calls[k].stage))
  }

  lemma InOrderCons(c: Call, rest: seq<Call>, answers: Answers, least: nat)
    requires InOrder(rest, answers, least) && c.reply == Answer(answers, c.stage) && Rank(c.stage) < least
    ensures InOrder([c] + rest, answers, Rank(c.stage))
  {
  }

  /** The calls come in the order of the code, so the conditions above determine an execution. */
  lemma {:induction false} CallsInOrder(pc: Pc, answers: Answers, retry: bool, newId: nat)
    ensures InOrder(Path(pc, answers, retry, newId), answers, if pc.At? then Rank(pc.stage) else 17)
    decreases if pc.At? then 17 - Rank(pc.stage) else 0
  {
    if pc.At? {
      var r := Answer(answers, pc.stage);
      var next := Advance(pc, r, retry, newId);
      AdvanceMovesForward(pc, r, retry, newId);
      CallsInOrder(next, answers, retry, newId);
      InOrderCons(Call(pc.stage, r), Path(next, answers, retry, newId), answers,
                  if next.At? then Rank(next.stage) else 17);
    }
  }

  /** No start is recorded and no handler runs unless the lock was acquired and the handler is registered;
      and the handler runs exactly when its start was recorded too. */
  lemma HandlerRunsExactlyWhen(answers: Answers, retry: bool, newId: nat)
    ensures var calls := Execution(answers, retry, newId);
            && (Made(calls, RecordStart) <==>
                Answer(answers, Acquire) == Returned(true) && Answer(answers, CheckHandler) == Returned(true))
            && (Made(calls, RunHandler) <==> Made(calls, RecordStart) && Answer(answers, RecordStart) == Returned(true))
  {
    CalledExactlyWhen(answers, retry, newId, RecordStart);
    CalledExactlyWhen(answers, retry, newId, RunHandler);
  }
}
