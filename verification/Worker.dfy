// Worker._executeJob of src/worker/worker.js as the code is written, with its try, catch and finally,
// shown to make the calls of the Stages machine in order; and what every execution does.
module Worker {
  import opened Base
  import Backoff = Retry
  import opened Stages

  /** An awaited call and how it ended. */
  datatype Call = Call(stage: Stage, reply: Reply)

  /** How each call of an execution would end if made; no call is made twice. */
  type Answers = map<Stage, Reply>

  function Answer(answers: Answers, stage: Stage): Reply {
    if stage in answers then answers[stage] else Returned(true)
  }

  /** The calls the machine makes from a stage on. */
  function Path(pc: Pc, answers: Answers, retry: bool, newId: nat): seq<Call>
    decreases if pc.At? then 17 - Rank(pc.stage) else 0
  {
    if pc.Done? then []
    else
      var r := Answer(answers, pc.stage);
      AdvanceMovesForward(pc, r, retry, newId);
      [Call(pc.stage, r)] + Path(Advance(pc, r, retry, newId), answers, retry, newId)
  }

  /** All calls of one execution. */
  function Execution(answers: Answers, retry: bool, newId: nat): seq<Call> {
    Path(At(Acquire, None), answers, retry, newId)
  }

  // ----- what every execution does -----

  /** An acknowledge returned. */
  ghost predicate Settled(calls: seq<Call>) {
    exists i :: 0 <= i < |calls| && IsAck(calls[i].stage) && calls[i].reply.Returned?
  }

  /** A rejected call that nothing but the finally block handles. */
  predicate Escapes(c: Call) {
    && c.reply.Lost?
    && (c.stage.Acquire? || c.stage.AckRefused? || c.stage.RecordFailure? || c.stage.FailJob? || c.stage.SendDlq?
        || c.stage.WriteDlq? || c.stage.RecordDlq? || c.stage.AckFailed?)
  }

  ghost predicate Escaped(calls: seq<Call>) {
    exists i :: 0 <= i < |calls| && Escapes(calls[i])
  }

  lemma SettledCons(c: Call, rest: seq<Call>)
    ensures Settled([c] + rest) <==> (IsAck(c.stage) && c.reply.Returned?) || Settled(rest)
  {
    var calls := [c] + rest;
    if Settled(rest) {
      var i :| 0 <= i < |rest| && IsAck(rest[i].stage) && rest[i].reply.Returned?;
      assert calls[i + 1] == rest[i];
    }
    assert calls[0] == c;
  }

  lemma EscapedCons(c: Call, rest: seq<Call>)
    ensures Escaped([c] + rest) <==> Escapes(c) || Escaped(rest)
  {
    var calls := [c] + rest;
    if Escaped(rest) {
      var i :| 0 <= i < |rest| && Escapes(rest[i]);
      assert calls[i + 1] == rest[i];
    }
    assert calls[0] == c;
  }

  lemma EscapedAppend(calls: seq<Call>, c: Call)
    ensures Escaped(calls + [c]) <==> Escaped(calls) || Escapes(c)
  {
    var longer := calls + [c];
    if Escaped(calls) {
      var i :| 0 <= i < |calls| && Escapes(calls[i]);
      assert longer[i] == calls[i];
    }
    assert longer[|calls|] == c;
  }

  /** The message is acknowledged by an execution exactly when no exception gets out of the catch block
      (or out of the code before the try): a failed handler, a lost success record or a lost
      acknowledge in the try block still ends in an acknowledge. */
  lemma {:induction false} SettledExactlyWhen(pc: Pc, answers: Answers, retry: bool, newId: nat)
    requires pc.At? && !pc.stage.Release?
    ensures Settled(Path(pc, answers, retry, newId)) <==> !Escaped(Path(pc, answers, retry, newId))
    decreases 17 - Rank(pc.stage)
  {
    var r := Answer(answers, pc.stage);
    var next := Advance(pc, r, retry, newId);
    AdvanceMovesForward(pc, r, retry, newId);
    var rest := Path(next, answers, retry, newId);
    SettledCons(Call(pc.stage, r), rest);
    EscapedCons(Call(pc.stage, r), rest);
    if next.At? && !next.stage.Release? {
      SettledExactlyWhen(next, answers, retry, newId);
    } else {
      OnlyRelease(next, answers, retry, newId);
    }
  }

  lemma OnlyRelease(pc: Pc, answers: Answers, retry: bool, newId: nat)
    requires pc.Done? || pc.stage.Release?
    ensures !Settled(Path(pc, answers, retry, newId)) && !Escaped(Path(pc, answers, retry, newId))
    ensures Path(pc, answers, retry, newId) == if pc.Done? then [] else [Call(Release, Answer(answers, Release))]
  {
    if pc.At? {
      assert Path(Done, answers, retry, newId) == [];
    }
  }

  /** Inside the section the release is the last call, made once. */
  lemma {:induction false} EndsWithRelease(pc: Pc, answers: Answers, retry: bool, newId: nat)
    requires pc.At? && InSection(pc.stage)
    ensures var path := Path(pc, answers, retry, newId);
            && |path| > 0 && path[|path| - 1] == Call(Release, Answer(answers, Release))
            && forall i :: 0 <= i < |path| - 1 ==> !path[i].stage.Release?
    decreases 17 - Rank(pc.stage)
  {
    if pc.stage.Release? {
      OnlyRelease(pc, answers, retry, newId);
    } else {
      var r := Answer(answers, pc.stage);
      AdvanceMovesForward(pc, r, retry, newId);
      EndsWithRelease(Advance(pc, r, retry, newId), answers, retry, newId);
    }
  }

  /** The lock is released, as the last call, exactly when it was acquired: whatever throws in between,
      and never on behalf of another holder. */
  lemma ReleasedExactlyWhenAcquired(answers: Answers, retry: bool, newId: nat)
    ensures var calls := Execution(answers, retry, newId);
            && ((exists i :: 0 <= i < |calls| && calls[i].stage.Release?) <==>
                Answer(answers, Acquire) == Returned(true))
            && (Answer(answers, Acquire) == Returned(true) ==> calls[|calls| - 1].stage.Release?)
  {
    var start := At(Acquire, None);
    var r := Answer(answers, Acquire);
    var next := Advance(start, r, retry, newId);
    AdvanceMovesForward(start, r, retry, newId);
    var calls := Execution(answers, retry, newId);
    assert calls == [Call(Acquire, r)] + Path(next, answers, retry, newId);
    if r == Returned(true) {
      EndsWithRelease(next, answers, retry, newId);
      assert calls[|calls| - 1].stage.Release?;
    } else if next.At? {
      assert Path(Done, answers, retry, newId) == [];
      assert calls == [Call(Acquire, r), Call(AckRefused, Answer(answers, AckRefused))];
    }
  }

  // ----- the code -----

  /** The calls made so far, completed by the machine from where it stands, are `whole`. */
  ghost predicate Toward(calls: seq<Call>, pc: Pc, answers: Answers, retry: bool, newId: nat, whole: seq<Call>) {
    calls + Path(pc, answers, retry, newId) == whole
  }

  class Worker {
    var currentJob: Option<(JobId, nat)>
    ghost var calls: seq<Call>

    constructor ()
      ensures currentJob == None && calls == []
    {
      currentJob, calls := None, [];
    }

    /** One awaited call. `pc` is where the machine stands, `next` where it goes. */
    method Await(stage: Stage, answers: Answers, ghost pc: Pc, retry: bool, newId: nat, ghost whole: seq<Call>)
      returns (r: Reply, ghost next: Pc)
      requires pc.At? && pc.stage == stage && Toward(calls, pc, answers, retry, newId, whole)
      modifies this`calls
      ensures r == Answer(answers, stage) && next == Advance(pc, r, retry, newId)
      ensures Escaped(calls) <==> Escaped(old(calls)) || Escapes(Call(stage, r))
      ensures Toward(calls, next, answers, retry, newId, whole)
    {
      hide Advance;
      r := Answer(answers, stage);
      next := Advance(pc, r, retry, newId);
      EscapedAppend(calls, Call(stage, r));
      AdvanceMovesForward(pc, r, retry, newId);
      calls := calls + [Call(stage, r)];
    }

    /** completeExecution reads the row, and writes only when there is one. */
    method CompleteExecution(record: Option<nat>, answers: Answers, retry: bool, newId: nat, ghost whole: seq<Call>)
      returns (threw: bool, ghost pc: Pc)
      requires Toward(calls, At(CompleteRead, record), answers, retry, newId, whole)
      modifies this`calls
      ensures pc == if threw then Catch(record) else At(AckDone, record)
      ensures Toward(calls, pc, answers, retry, newId, whole)
      ensures Escaped(calls) <==> Escaped(old(calls))
    {
      hide Toward, Escaped;
      pc := At(CompleteRead, record);
      var r;
      r, pc := Await(CompleteRead, answers, pc, retry, newId, whole);
      if r.Lost? || !r.yes {
        return r.Lost?, pc;
      }
      r, pc := Await(CompleteWrite, answers, pc, retry, newId, whole);
      threw := r.Lost?;
    }

    /** The try block once the start is recorded: handler, success record, job update, acknowledge. */
    method Run(record: Option<nat>, answers: Answers, retry: bool, newId: nat, ghost whole: seq<Call>)
      returns (threw: bool, ghost pc: Pc)
      requires Toward(calls, At(RunHandler, record), answers, retry, newId, whole)
      modifies this`calls
      ensures pc == if threw then Catch(record) else At(Release, record)
      ensures Toward(calls, pc, answers, retry, newId, whole)
      ensures Escaped(calls) <==> Escaped(old(calls))
    {
      hide Toward, Escaped;
      pc := At(RunHandler, record);
      var r;
      r, pc := Await(RunHandler, answers, pc, retry, newId, whole);
      if r.Lost? {
        return true, pc;
      }
      r, pc := Await(RecordSuccess, answers, pc, retry, newId, whole);
      if r.Lost? {
        return true, pc;
      }
      threw, pc := CompleteExecution(record, answers, retry, newId, whole);
      if threw {
        return true, pc;
      }
      r, pc := Await(AckDone, answers, pc, retry, newId, whole);
      threw := r.Lost?;
    }

    /** The try block. `threw` says whether an exception leaves it. */
    method Try(answers: Answers, retry: bool, newId: nat, ghost whole: seq<Call>)
      returns (threw: bool, record: Option<nat>, ghost pc: Pc)
      requires Toward(calls, At(CheckHandler, None), answers, retry, newId, whole)
      modifies this`calls
      ensures pc == if threw then Catch(record) else At(Release, record)
      ensures Toward(calls, pc, answers, retry, newId, whole)
      ensures Escaped(calls) <==> Escaped(old(calls))
    {
      hide Toward, Escaped;
      record, pc := None, At(CheckHandler, None);
      var r;
      r, pc := Await(CheckHandler, answers, pc, retry, newId, whole);
      if r != Returned(true) {
        return true, record, pc;
      }
      r, pc := Await(RecordStart, answers, pc, retry, newId, whole);
      if r.Lost? {
        return true, record, pc;
      }
      if !r.yes {
        r, pc := Await(AckDuplicate, answers, pc, retry, newId, whole);
        return r.Lost?, record, pc;
      }
      record := Some(newId);
      threw, pc := Run(record, answers, retry, newId, whole);
    }

    /** The catch block. `threw` says whether it throws in its turn. */
    method Handle(answers: Answers, retry: bool, newId: nat, record: Option<nat>, ghost whole: seq<Call>)
      returns (threw: bool, ghost pc: Pc)
      requires Toward(calls, Catch(record), answers, retry, newId, whole)
      modifies this`calls
      ensures pc == At(Release, record)
      ensures Toward(calls, pc, answers, retry, newId, whole)
      ensures Escaped(calls) <==> Escaped(old(calls)) || threw
    {
      hide Toward, Escaped;
      pc := Catch(record);
      var r;
      if record.Some? {
        r, pc := Await(RecordFailure, answers, pc, retry, newId, whole);
        if r.Lost? {
          return true, pc;
        }
      }
      r, pc := Await(FailJob, answers, pc, retry, newId, whole);
      if r.Lost? {
        return true, pc;
      }
      if !retry {
        r, pc := Await(SendDlq, answers, pc, retry, newId, whole);
        if r.Lost? {
          return true, pc;
        }
        r, pc := Await(WriteDlq, answers, pc, retry, newId, whole);
        if r.Lost? {
          return true, pc;
        }
        if record.Some? {
          r, pc := Await(RecordDlq, answers, pc, retry, newId, whole);
          if r.Lost? {
            return true, pc;
          }
        }
      }
      r, pc := Await(AckFailed, answers, pc, retry, newId, whole);
      threw := r.Lost?;
    }

    /** `newId` is the id of the history row that recordStart would insert. The calls are those of the
        machine. It throws exactly when the message was not acknowledged or the release was rejected. A
        rejected release leaves currentJob set, until the next job this worker acquires. */
    method ExecuteJob(jobId: JobId, messageId: nat, attemptNum: int, maxRetriesNum: int, answers: Answers, newId: nat)
      returns (threw: bool)
      modifies this
      ensures calls == Execution(answers, Backoff.ShouldRetry(attemptNum, maxRetriesNum), newId)
      ensures var unreleased := Answer(answers, Acquire) == Returned(true) && Answer(answers, Release).Lost?;
              && (threw <==> !Settled(calls) || unreleased)
              && currentJob == if unreleased then Some((jobId, messageId))
                               else if Answer(answers, Acquire) == Returned(true) then None else old(currentJob)
    {
      hide Toward, Path, Settled, Escaped;
      var retry := Backoff.ShouldRetry(attemptNum, maxRetriesNum);
      calls := [];
      ghost var whole := Execution(answers, retry, newId);
      Start(answers, retry, newId);
      SettledExactlyWhen(At(Acquire, None), answers, retry, newId);
      ghost var pc := At(Acquire, None);
      var r;
      r, pc := Await(Acquire, answers, pc, retry, newId, whole);
      if r.Lost? {
        Finish(calls, answers, retry, newId, whole);
        return true;
      }
      if !r.yes {
        r, pc := Await(AckRefused, answers, pc, retry, newId, whole);
        Finish(calls, answers, retry, newId, whole);
        return r.Lost?;
      }
      currentJob := Some((jobId, messageId));
      var record;
      threw, record, pc := Try(answers, retry, newId, whole);
      if threw {
        threw, pc := Handle(answers, retry, newId, record, whole);
      }
      r, pc := Await(Release, answers, pc, retry, newId, whole);
      Finish(calls, answers, retry, newId, whole);
      if r.Lost? {
        return true;
      }
      currentJob := None;
    }
  }

  lemma Start(answers: Answers, retry: bool, newId: nat)
    ensures !Escaped([]) && Toward([], At(Acquire, None), answers, retry, newId, Execution(answers, retry, newId))
  {
    assert [] + Execution(answers, retry, newId) == Execution(answers, retry, newId);
  }

  lemma Finish(calls: seq<Call>, answers: Answers, retry: bool, newId: nat, whole: seq<Call>)
    requires Toward(calls, Done, answers, retry, newId, whole)
    ensures calls == whole
  {
    assert calls + [] == calls;
  }
}
