// Conservation of stream entries and of dead letters over every run.
module MessageAccounting {
  import opened Base
  import opened Stages
  import opened Protocol
  import opened ConsumerGroup
  import opened MessagePaths
  import opened Outcomes

  /** A published entry is in exactly one of: undelivered, pending with one consumer, acknowledged. */
  lemma EntryIsInOnePlace(log: seq<Event>, m: nat)
    requires IsRun(log) && m < |After(log).stream|
    ensures var s := After(log);
            && (s.delivered <= m <==> !(m in s.pending) && !(m in s.acked))
            && !(m in s.pending && m in s.acked)
  {
    PathsHold(log);
  }

  /** An acknowledged entry had its job lock refused, was judged a duplicate, or had
      completeExecution or failExecution return first; and its execution never completes the job
      after having failed it. */
  lemma AcknowledgedMeansSettled(log: seq<Event>, m: nat)
    requires IsRun(log) && m in After(log).acked
    ensures Settled(log, m)
    ensures forall i, k | 0 <= i < |log| && 0 <= k < |log| && WorkOn(log[i], m) && WorkOn(log[k], m)
                          && log[i].stage.FailJob? && log[k].stage.CompleteWrite?
              :: k < i
  {
    hide CallInv, DlqInv, LogInv, OwnerInv, Partition, Settled;
    OutcomesHold(log);
    PathsHold(log);
    LogIsTheRun(log);
    CompletesBeforeFailing(log, After(log).workers, m);
  }

  lemma CompletesBeforeFailing(log: seq<Event>, workers: map<WorkerId, Exec>, m: nat)
    requires ForwardInv(log, workers)
    ensures forall i, k | 0 <= i < |log| && 0 <= k < |log| && WorkOn(log[i], m) && WorkOn(log[k], m)
                          && log[i].stage.FailJob? && log[k].stage.CompleteWrite?
              :: k < i
  {
  }

  /** failExecution(jobId, error, null) took effect. */
  predicate PermanentFailure(e: Event, job: JobId) {
    e.Work? && e.job == job && e.stage.FailJob? && Took(e.reply) && e.arg.None?
  }

  predicate DeadLetter(e: Event, job: JobId, stage: Stage) {
    e.Work? && e.job == job && e.stage == stage && Took(e.reply)
  }

  ghost function PermanentFailures(log: seq<Event>, job: JobId): set<int> {
    set i | 0 <= i < |log| && PermanentFailure(log[i], job)
  }

  /** Entries of the DLQ stream (`SendDlq`) or rows inserted into dead_letter_queue (`WriteDlq`). */
  ghost function DeadLetters(log: seq<Event>, job: JobId, stage: Stage): set<int> {
    set i | 0 <= i < |log| && DeadLetter(log[i], job, stage)
  }

  /** The calls at `i` and `k` belong to the execution of one entry. */
  predicate SameEntry(log: seq<Event>, i: int, k: int) {
    0 <= i < |log| && 0 <= k < |log| && log[i].Work? && log[k].Work? && log[i].msg == log[k].msg
  }

  lemma SendHasFailure(log: seq<Event>, stream: seq<Message>, delivered: nat, job: JobId, i: int)
    requires CallInv(log, stream) && LogInv(stream, delivered, log) && i in DeadLetters(log, job, SendDlq)
    ensures exists k :: k in PermanentFailures(log, job) && SameEntry(log, i, k)
  {
    assert Explained(log, stream, log[i]);
    var k :| 0 <= k < |log| && Call(log[k], log[i].msg, FailJob, Returned(true));
    assert Explained(log, stream, log[k]);
    assert k in PermanentFailures(log, job);
  }

  lemma RowHasSend(log: seq<Event>, stream: seq<Message>, delivered: nat, job: JobId, i: int)
    requires CallInv(log, stream) && LogInv(stream, delivered, log) && i in DeadLetters(log, job, WriteDlq)
    ensures exists k :: k in DeadLetters(log, job, SendDlq) && SameEntry(log, i, k)
  {
    assert Explained(log, stream, log[i]);
    var k :| 0 <= k < |log| && Call(log[k], log[i].msg, SendDlq, Returned(true));
    assert k in DeadLetters(log, job, SendDlq);
  }

  /** At most one call of a stage for each entry. */
  lemma OneCallEach(log: seq<Event>, workers: map<WorkerId, Exec>, job: JobId, stage: Stage)
    requires ForwardInv(log, workers)
    ensures var calls := DeadLetters(log, job, stage);
            forall h, i, k :: h in calls && i in calls && SameEntry(log, h, k) && SameEntry(log, i, k) ==> h == i
  {
  }

  /** The calls of `causes` whose entry never reached `stage`. */
  ghost function Missing(log: seq<Event>, job: JobId, causes: set<int>, stage: Stage): set<int> {
    set i | i in causes && forall k :: k in DeadLetters(log, job, stage) ==> !SameEntry(log, i, k)
  }

  /** When every call of `stage` presupposes one of `causes`, and each entry has at most one of each, the
      gap between the two is the number of causes that `stage` is missing for. */
  lemma GapIsMissing(log: seq<Event>, workers: map<WorkerId, Exec>, job: JobId, stage: Stage, causes: set<int>)
    requires ForwardInv(log, workers)
    requires forall k :: k in DeadLetters(log, job, stage) ==> exists i :: i in causes && SameEntry(log, k, i)
    requires forall h, i :: h in causes && i in causes && SameEntry(log, h, i) ==> h == i
    ensures |causes| == |DeadLetters(log, job, stage)| + |Missing(log, job, causes, stage)|
  {
    hide ForwardInv, DeadLetter;
    var effects := DeadLetters(log, job, stage);
    var related := (i, k) => SameEntry(log, i, k);
    OneCallEach(log, workers, job, stage);
    forall k | k in effects
      ensures exists i :: i in causes && related(i, k)
    {
      var i :| i in causes && SameEntry(log, k, i);
      assert related(i, k);
    }
    assert forall h, i, k :: SameEntry(log, h, k) && SameEntry(log, i, k) ==> SameEntry(log, h, i);
    assert forall i, k, l :: SameEntry(log, i, k) && SameEntry(log, i, l) ==> SameEntry(log, k, l);
    UnmatchedIsTheGap(causes, effects, related);
    assert Unmatched(causes, effects, related) == Missing(log, job, causes, stage);
  }

  lemma OneFailureEach(log: seq<Event>, workers: map<WorkerId, Exec>, job: JobId)
    requires ForwardInv(log, workers)
    ensures forall h, i ::
            h in PermanentFailures(log, job) && i in PermanentFailures(log, job) && SameEntry(log, h, i) ==> h == i
  {
  }

  /** The execution of entry `m` is over with `next` not having taken effect, though the call at `i` before
      it had: the reply to that call was lost, or `next` was made and lost before it took effect, or the
      worker crashed before making it. */
  ghost predicate Stopped(log: seq<Event>, m: nat, next: Stage, i: int)
    requires 0 <= i < |log| && log[i].Work?
  {
    || log[i].reply.Lost?
    || Happened(log, m, next, Lost(false))
    || ((exists k :: 0 <= k < |log| && log[k].Crash? && log[k].msg == m)
        && forall k :: 0 <= k < |log| && WorkOn(log[k], m) ==> log[k].stage != next)
  }

  /** The calls that `next` presupposes. */
  ghost function Causes(log: seq<Event>, job: JobId, next: Stage): set<int> {
    if next == SendDlq then PermanentFailures(log, job) else DeadLetters(log, job, SendDlq)
  }

  ghost predicate Accounts(log: seq<Event>, stream: seq<Message>, delivered: nat, workers: map<WorkerId, Exec>) {
    CallInv(log, stream) && LogInv(stream, delivered, log) && ForwardInv(log, workers) && DlqInv(log, workers)
  }

  lemma OneCallPerStage(log: seq<Event>, workers: map<WorkerId, Exec>, i: int, k: int)
    requires ForwardInv(log, workers) && SameEntry(log, i, k) && log[i].stage == log[k].stage
    ensures i == k
  {
  }

  /** A missing call is paused or stopped. */
  lemma MissingIsPausedOrStopped(
      log: seq<Event>, stream: seq<Message>, delivered: nat, workers: map<WorkerId, Exec>, job: JobId,
      next: Stage, i: int)
    requires Accounts(log, stream, delivered, workers) && (next == SendDlq || next == WriteDlq)
    requires i in Missing(log, job, Causes(log, job, next), next)
    ensures WorkerAt(workers, log[i].msg, next) || Stopped(log, log[i].msg, next, i)
  {
    var m := log[i].msg;
    OneJobPerEntry(log, stream, delivered, i);
    assert Continues(log, workers, m, next);
    forall k | 0 <= k < |log| && WorkOn(log[k], m) && log[k].stage == next
      ensures log[k].reply == Lost(false)
    {
      assert Explained(log, stream, log[k]) && SameEntry(log, i, k);
      assert k !in DeadLetters(log, job, next);
      LostOrTook(log[k].reply);
    }
    if Interrupted(log, m, next) && !WorkerAt(workers, m, next) {
      var k :| 0 <= k < |log| && Breaks(log[k], m, next);
      if WorkOn(log[k], m) && log[k].stage == Before(next) {
        OneCallPerStage(log, workers, i, k);
      } else if WorkOn(log[k], m) && log[k].stage == next {
        assert Call(log[k], m, next, Lost(false));
      } else if l :| 0 <= l < |log| && WorkOn(log[l], m) && log[l].stage == next {
        assert Call(log[l], m, next, Lost(false));
      }
    }
  }

  lemma LostOrTook(r: Reply)
    requires Plain(r) && !Took(r)
    ensures r == Lost(false)
  {
    if r.Lost? {
      assert r == Lost(r.applied);
    }
  }

  /** A call that took effect was neither paused nor stopped. */
  lemma MadeIsNotStopped(
      log: seq<Event>, stream: seq<Message>, delivered: nat, workers: map<WorkerId, Exec>, job: JobId,
      next: Stage, i: int, k: int)
    requires Accounts(log, stream, delivered, workers) && (next == SendDlq || next == WriteDlq)
    requires i in Causes(log, job, next) && k in DeadLetters(log, job, next) && SameEntry(log, i, k)
    ensures !WorkerAt(workers, log[i].msg, next) && !Stopped(log, log[i].msg, next, i)
  {
    var m := log[i].msg;
    assert Explained(log, stream, log[k]);
    var before := Before(next);
    assert Happened(log, m, before, Returned(true));
    var b :| 0 <= b < |log| && Call(log[b], m, before, Returned(true));
    OneCallPerStage(log, workers, i, b);
    forall l | 0 <= l < |log| && WorkOn(log[l], m) && log[l].stage == next
      ensures l == k
    {
      OneCallPerStage(log, workers, k, l);
    }
  }

  /** A paused or stopped call is missing. */
  lemma PausedOrStoppedIsMissing(
      log: seq<Event>, stream: seq<Message>, delivered: nat, workers: map<WorkerId, Exec>, job: JobId,
      next: Stage, i: int)
    requires Accounts(log, stream, delivered, workers) && (next == SendDlq || next == WriteDlq)
    requires i in Causes(log, job, next) && 0 <= i < |log| && log[i].Work?
    requires WorkerAt(workers, log[i].msg, next) || Stopped(log, log[i].msg, next, i)
    ensures i in Missing(log, job, Causes(log, job, next), next)
  {
    hide Accounts, WorkerAt, Stopped, Causes;
    forall k | k in DeadLetters(log, job, next)
      ensures !SameEntry(log, i, k)
    {
      if SameEntry(log, i, k) {
        MadeIsNotStopped(log, stream, delivered, workers, job, next, i, k);
      }
    }
  }

  lemma OneJobPerEntry(log: seq<Event>, stream: seq<Message>, delivered: nat, i: int)
    requires LogInv(stream, delivered, log) && 0 <= i < |log| && log[i].Work?
    ensures forall k :: 0 <= k < |log| && log[k].Work? && log[k].msg == log[i].msg ==> log[k].job == log[i].job
  {
  }

  /** One gap: its size, and what it consists of. */
  ghost predicate GapIs(log: seq<Event>, workers: map<WorkerId, Exec>, job: JobId, next: Stage) {
    var causes := Causes(log, job, next);
    var missing := Missing(log, job, causes, next);
    && |causes| == |DeadLetters(log, job, next)| + |missing|
    && (forall i :: i in causes ==> 0 <= i < |log| && log[i].Work?)
    && (forall i :: i in causes ==>
          (i in missing <==> WorkerAt(workers, log[i].msg, next) || Stopped(log, log[i].msg, next, i)))
  }

  lemma GapsAre(
      log: seq<Event>, stream: seq<Message>, delivered: nat, workers: map<WorkerId, Exec>, job: JobId, next: Stage)
    requires Accounts(log, stream, delivered, workers) && (next == SendDlq || next == WriteDlq)
    ensures GapIs(log, workers, job, next)
  {
    var causes := Causes(log, job, next);
    GapSize(log, stream, delivered, workers, job, next);
    hide Accounts, Stopped, WorkerAt, PermanentFailures, DeadLetters, Missing;
    forall i | i in causes
      ensures 0 <= i < |log| && log[i].Work?
      ensures i in Missing(log, job, causes, next) <==>
              WorkerAt(workers, log[i].msg, next) || Stopped(log, log[i].msg, next, i)
    {
      CauseIsWork(log, job, next, i);
      if i in Missing(log, job, causes, next) {
        MissingIsPausedOrStopped(log, stream, delivered, workers, job, next, i);
      }
      if WorkerAt(workers, log[i].msg, next) || Stopped(log, log[i].msg, next, i) {
        PausedOrStoppedIsMissing(log, stream, delivered, workers, job, next, i);
      }
    }
  }

  lemma CauseIsWork(log: seq<Event>, job: JobId, next: Stage, i: int)
    requires i in Causes(log, job, next)
    ensures 0 <= i < |log| && log[i].Work?
  {
  }

  lemma GapSize(
      log: seq<Event>, stream: seq<Message>, delivered: nat, workers: map<WorkerId, Exec>, job: JobId, next: Stage)
    requires Accounts(log, stream, delivered, workers) && (next == SendDlq || next == WriteDlq)
    ensures var causes := Causes(log, job, next);
            |causes| == |DeadLetters(log, job, next)| + |Missing(log, job, causes, next)|
  {
    hide CallInv, LogInv, ForwardInv, DlqInv, Missing;
    if next == SendDlq {
      forall i | i in DeadLetters(log, job, SendDlq) {
        SendHasFailure(log, stream, delivered, job, i);
      }
      OneFailureEach(log, workers, job);
    } else {
      forall i | i in DeadLetters(log, job, WriteDlq) {
        RowHasSend(log, stream, delivered, job, i);
      }
      OneCallEach(log, workers, job, SendDlq);
    }
    GapIsMissing(log, workers, job, next, Causes(log, job, next));
  }

  /** Per job, permanent failures = DLQ stream entries + failures whose entry is missing, and DLQ stream
      entries = DLQ table inserts + entries whose row is missing. A call is missing exactly when a worker
      is paused before it, or was stopped there by a crash or a lost call. */
  lemma DeadLetterGaps(log: seq<Event>, job: JobId)
    requires IsRun(log)
    ensures GapIs(log, After(log).workers, job, SendDlq) && GapIs(log, After(log).workers, job, WriteDlq)
  {
    hide GapIs;
    OutcomesHold(log);
    PathsHold(log);
    LogIsTheRun(log);
    var s := After(log);
    GapsAre(log, s.stream, s.delivered, s.workers, job, SendDlq);
    GapsAre(log, s.stream, s.delivered, s.workers, job, WriteDlq);
  }

  /** Per job: permanent failures >= DLQ stream entries >= DLQ table inserts. */
  lemma DeadLettersNeverOutnumberFailures(log: seq<Event>, job: JobId)
    requires IsRun(log)
    ensures |PermanentFailures(log, job)| >= |DeadLetters(log, job, SendDlq)| >= |DeadLetters(log, job, WriteDlq)|
  {
    DeadLetterGaps(log, job);
  }
}
