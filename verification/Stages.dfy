// Control flow of Worker._executeJob (src/worker/worker.js) as a machine with one stage per await.
module Stages {
  import opened Base

  datatype Stage =
    | Acquire | AckRefused | CheckHandler | RecordStart | AckDuplicate | RunHandler | RecordSuccess
    | CompleteRead | CompleteWrite | AckDone
    | RecordFailure | FailJob | SendDlq | WriteDlq | RecordDlq | AckFailed
    | Release

  /** Textual order of the stages; control only moves forward in it (lemma AdvanceMovesForward). */
  function Rank(s: Stage): (r: nat)
    ensures r <= 16
  {
    match s
    case Acquire => 0 case AckRefused => 1 case CheckHandler => 2 case RecordStart => 3
    case AckDuplicate => 4 case RunHandler => 5 case RecordSuccess => 6 case CompleteRead => 7
    case CompleteWrite => 8 case AckDone => 9 case RecordFailure => 10 case FailJob => 11
    case SendDlq => 12 case WriteDlq => 13 case RecordDlq => 14 case AckFailed => 15 case Release => 16
  }

  /** From a successful acquire up to and including the release: the code the job lock protects. */
  predicate InSection(s: Stage) {
    Rank(s) >= 2
  }

  predicate IsAck(s: Stage) {
    s.AckRefused? || s.AckDuplicate? || s.AckDone? || s.AckFailed?
  }

  /** `record` is the local executionRecord: the id of the history row, once recordStart returned it. */
  datatype Pc = Done | At(stage: Stage, record: Option<nat>)

  /** Entry of the catch block. */
  function Catch(record: Option<nat>): Pc {
    if record.Some? then At(RecordFailure, record) else At(FailJob, record)
  }

  /** Where control goes when the call awaited at `pc` ends with `r`. `retry` is the value of
      shouldRetry, `newId` the id of the history row recordStart inserts. */
  function Advance(pc: Pc, r: Reply, retry: bool, newId: nat): Pc
    requires pc.At?
  {
    var rec := pc.record;
    match pc.stage
    case Acquire => if r.Lost? then Done else if r.yes then At(CheckHandler, rec) else At(AckRefused, rec)
    case AckRefused => Done
    case CheckHandler => if r == Returned(true) then At(RecordStart, rec) else Catch(rec)
    case RecordStart =>
      if r.Lost? then Catch(rec) else if r.yes then At(RunHandler, Some(newId)) else At(AckDuplicate, rec)
    case AckDuplicate => if r.Lost? then Catch(rec) else At(Release, rec)
    case RunHandler => if r.Lost? then Catch(rec) else At(RecordSuccess, rec)
    case RecordSuccess => if r.Lost? then Catch(rec) else At(CompleteRead, rec)
    case CompleteRead =>
      if r.Lost? then Catch(rec) else if r.yes then At(CompleteWrite, rec) else At(AckDone, rec)
    case CompleteWrite => if r.Lost? then Catch(rec) else At(AckDone, rec)
    case AckDone => if r.Lost? then Catch(rec) else At(Release, rec)
    case RecordFailure => At(if r.Lost? then Release else FailJob, rec)
    case FailJob => At(if r.Lost? then Release else if retry then AckFailed else SendDlq, rec)
    case SendDlq => At(if r.Lost? then Release else WriteDlq, rec)
    case WriteDlq => At(if r.Lost? then Release else if rec.Some? then RecordDlq else AckFailed, rec)
    case RecordDlq => At(if r.Lost? then Release else AckFailed, rec)
    case AckFailed => At(Release, rec)
    case Release => Done
  }

  lemma AdvanceMovesForward(pc: Pc, r: Reply, retry: bool, newId: nat)
    requires pc.At?
    ensures var next := Advance(pc, r, retry, newId);
            next.At? ==> Rank(pc.stage) < Rank(next.stage)
  {
  }
}
