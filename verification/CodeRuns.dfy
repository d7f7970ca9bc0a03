// The protocol runs the code: in every run, the calls made for one stream entry are those of one execution
// of _executeJob (module Worker), up to where a crash cut it off.
module CodeRuns {
  import opened Base
  import opened Stages
  import W = Worker
  import opened Protocol
  import opened MessagePaths

  /** The calls made for entry `m`, in the order of the run. */
  ghost function CallsOf(log: seq<Event>, m: nat): seq<W.Call> {
    if log == [] then []
    else
      var e := log[|log| - 1];
      var front := CallsOf(log[..|log| - 1], m);
      if WorkOn(e, m) then front + [W.Call(e.stage, e.reply)] else front
  }

  lemma CallsGrow(log: seq<Event>, e: Event, m: nat)
    ensures CallsOf(log + [e], m) ==
            if WorkOn(e, m) then CallsOf(log, m) + [W.Call(e.stage, e.reply)] else CallsOf(log, m)
  {
    assert (log + [e])[..|log|] == log;
  }

  lemma {:induction false} NoCallsYet(log: seq<Event>, m: nat)
    requires forall i :: 0 <= i < |log| ==> !WorkOn(log[i], m)
    ensures CallsOf(log, m) == []
  {
    if log != [] {
      NoCallsYet(log[..|log| - 1], m);
    }
  }

  /** Under these answers, with this history id, an execution would make the calls made for the entry. */
  ghost predicate Explains(log: seq<Event>, m: nat, answers: W.Answers, id: nat) {
    && (forall i :: 0 <= i < |log| && WorkOn(log[i], m) ==> W.Answer(answers, log[i].stage) == log[i].reply)
    && (forall i :: 0 <= i < |log| && WorkOn(log[i], m) && log[i].stage.RecordStart? ==> id == i)
  }

  lemma ExplainsLess(log: seq<Event>, e: Event, m: nat, answers: W.Answers, id: nat)
    requires Explains(log + [e], m, answers, id)
    ensures Explains(log, m, answers, id)
    ensures WorkOn(e, m) ==> W.Answer(answers, e.stage) == e.reply && (e.stage.RecordStart? ==> id == |log|)
  {
    assert (log + [e])[|log|] == e;
    assert forall i :: 0 <= i < |log| ==> (log + [e])[i] == log[i];
  }

  /** The calls made for the entry, completed by the machine from `pc` on, are one execution. */
  ghost predicate OnCourse(log: seq<Event>, m: nat, pc: Pc, retry: bool) {
    forall answers, id :: Explains(log, m, answers, id) ==>
      W.Toward(CallsOf(log, m), pc, answers, retry, id, W.Execution(answers, retry, id))
  }

  /** They are the beginning of one. */
  ghost predicate Begun(log: seq<Event>, m: nat, retry: bool) {
    forall answers, id :: Explains(log, m, answers, id) ==> CallsOf(log, m) <= W.Execution(answers, retry, id)
  }

  predicate Crashes(e: Event, m: nat) {
    e.Crash? && e.msg == m
  }

  /** A worker has made a call for the entry, is done with it and did not crash. */
  ghost predicate Over(log: seq<Event>, delivered: nat, workers: map<WorkerId, Exec>, m: nat) {
    && m < delivered
    && (exists i :: 0 <= i < |log| && WorkOn(log[i], m))
    && (forall w :: w in workers ==> workers[w].msg != m)
    && (forall i :: 0 <= i < |log| ==> !Crashes(log[i], m))
  }

  ghost predicate CourseInv(log: seq<Event>, stream: seq<Message>, delivered: nat, workers: map<WorkerId, Exec>) {
    && delivered <= |stream|
    && (forall w :: w in workers ==>
          && workers[w].msg < |stream|
          && OnCourse(log, workers[w].msg, At(workers[w].stage, workers[w].record), Retry(stream[workers[w].msg])))
    && (forall m: nat :: m < |stream| ==> Begun(log, m, Retry(stream[m])))
    && (forall m: nat :: Over(log, delivered, workers, m) ==> OnCourse(log, m, Done, Retry(stream[m])))
  }

  lemma OnlyStartTakesTheId(pc: Pc, r: Reply, retry: bool, id: nat, other: nat)
    requires pc.At? && !pc.stage.RecordStart?
    ensures Advance(pc, r, retry, id) == Advance(pc, r, retry, other)
  {
  }

  /** One more call keeps the entry on course. */
  lemma CallStaysOnCourse(log: seq<Event>, e: Event, pc: Pc, retry: bool)
    requires e.Work? && pc.At? && pc.stage == e.stage && OnCourse(log, e.msg, pc, retry)
    ensures OnCourse(log + [e], e.msg, Advance(pc, e.reply, retry, |log|), retry)
  {
    hide Advance, Explains;
    var next := Advance(pc, e.reply, retry, |log|);
    CallsGrow(log, e, e.msg);
    forall answers, id | Explains(log + [e], e.msg, answers, id)
      ensures W.Toward(CallsOf(log + [e], e.msg), next, answers, retry, id, W.Execution(answers, retry, id))
    {
      ExplainsLess(log, e, e.msg, answers, id);
      if !e.stage.RecordStart? {
        OnlyStartTakesTheId(pc, e.reply, retry, id, |log|);
      }
      AdvanceMovesForward(pc, e.reply, retry, id);
      assert W.Toward(CallsOf(log, e.msg), pc, answers, retry, id, W.Execution(answers, retry, id));
      assert W.Path(pc, answers, retry, id) == [W.Call(e.stage, e.reply)] + W.Path(next, answers, retry, id);
    }
  }

  lemma OthersStayOnCourse(log: seq<Event>, e: Event, m: nat, pc: Pc, retry: bool)
    requires !WorkOn(e, m) && OnCourse(log, m, pc, retry)
    ensures OnCourse(log + [e], m, pc, retry)
  {
    hide Explains, W.Toward;
    CallsGrow(log, e, m);
    forall answers, id | Explains(log + [e], m, answers, id)
      ensures W.Toward(CallsOf(log + [e], m), pc, answers, retry, id, W.Execution(answers, retry, id))
    {
      ExplainsLess(log, e, m, answers, id);
    }
  }

  lemma OnCourseIsBegun(log: seq<Event>, m: nat, pc: Pc, retry: bool)
    requires OnCourse(log, m, pc, retry)
    ensures Begun(log, m, retry)
  {
    hide Explains;
    forall answers, id | Explains(log, m, answers, id)
      ensures CallsOf(log, m) <= W.Execution(answers, retry, id)
    {
      assert W.Toward(CallsOf(log, m), pc, answers, retry, id, W.Execution(answers, retry, id));
    }
  }

  lemma UntouchedStaysBegun(log: seq<Event>, e: Event, m: nat, retry: bool)
    requires !WorkOn(e, m) && Begun(log, m, retry)
    ensures Begun(log + [e], m, retry)
  {
    hide Explains;
    CallsGrow(log, e, m);
    forall answers, id | Explains(log + [e], m, answers, id)
      ensures CallsOf(log + [e], m) <= W.Execution(answers, retry, id)
    {
      ExplainsLess(log, e, m, answers, id);
    }
  }

  lemma NewEntry(log: seq<Event>, m: nat, retry: bool)
    requires forall i :: 0 <= i < |log| ==> !WorkOn(log[i], m)
    ensures OnCourse(log, m, At(Acquire, None), retry) && Begun(log, m, retry)
  {
    NoCallsYet(log, m);
    forall answers, id
      ensures W.Toward(CallsOf(log, m), At(Acquire, None), answers, retry, id, W.Execution(answers, retry, id))
    {
      assert [] + W.Execution(answers, retry, id) == W.Execution(answers, retry, id);
    }
  }

  /** Where a worker stands after a step. */
  lemma WorkerAfter(s: World, e: Event, w: WorkerId)
    requires Legal(s, e)
    ensures e.Work? && e.worker == w ==>
              && w in s.workers
              && var next := Advance(At(e.stage, s.workers[w].record), e.reply, Retry(s.stream[e.msg]), |s.log|);
                 if next.Done? then w !in Workers(s, e)
                 else w in Workers(s, e) && At(Workers(s, e)[w].stage, Workers(s, e)[w].record) == next
    ensures !(e.Work? && e.worker == w) && w in s.workers && w !in Workers(s, e) ==>
              e.Crash? && e.msg == s.workers[w].msg
  {
    hide Advance;
  }

  lemma WorkersStep(s: World, e: Event, w: WorkerId)
    requires PathInv(s) && CourseInv(s.log, s.stream, s.delivered, s.workers) && Legal(s, e) && w in Workers(s, e)
    ensures Workers(s, e)[w].msg < |Stream(s, e)|
    ensures var y := Workers(s, e)[w];
            OnCourse(s.log + [e], y.msg, At(y.stage, y.record), Retry(Stream(s, e)[y.msg]))
  {
    hide OnCourse, Begun, Over, Retry, Advance;
    StreamGrows(s, e);
    WorkerMoves(s, e, w);
    WorkerAfter(s, e, w);
    var y := Workers(s, e)[w];
    if w !in s.workers {
      assert forall i :: 0 <= i < |s.log| ==> !WorkOn(s.log[i], y.msg);
      NewEntry(s.log, y.msg, Retry(s.stream[y.msg]));
      OthersStayOnCourse(s.log, e, y.msg, At(Acquire, None), Retry(s.stream[y.msg]));
    } else if e.Work? && e.worker == w {
      WorkIsByItsWorker(s, e);
      CallStaysOnCourse(s.log, e, At(e.stage, s.workers[w].record), Retry(s.stream[e.msg]));
    } else {
      if e.Work? {
        WorkIsByItsWorker(s, e);
      }
      OthersStayOnCourse(s.log, e, y.msg, At(y.stage, y.record), Retry(s.stream[y.msg]));
    }
  }

  /** An entry that is over after a step was so before, or the step made its last call. */
  lemma OverAfter(s: World, e: Event, m: nat)
    requires PathInv(s) && Legal(s, e) && Over(s.log + [e], Delivered(s, e), Workers(s, e), m)
    ensures m < s.delivered
    ensures if WorkOn(e, m)
            then Advance(At(e.stage, s.workers[e.worker].record), e.reply, Retry(s.stream[m]), |s.log|).Done?
            else Over(s.log, s.delivered, s.workers, m)
  {
    hide Advance, Retry;
    var log := s.log + [e];
    StreamGrows(s, e);
    assert !Crashes(log[|s.log|], m);
    assert forall i :: 0 <= i < |s.log| ==> log[i] == s.log[i];
    assert WorkOn(e, m) || exists i :: 0 <= i < |s.log| && WorkOn(s.log[i], m);
    if e.Work? {
      WorkIsByItsWorker(s, e);
      WorkerAfter(s, e, e.worker);
    }
    forall w | w in s.workers
      ensures WorkOn(e, m) || s.workers[w].msg != m
    {
      WorkerAfter(s, e, w);
      if w in Workers(s, e) {
        WorkerMoves(s, e, w);
      }
    }
  }

  lemma EntriesStep(s: World, e: Event, m: nat)
    requires PathInv(s) && CourseInv(s.log, s.stream, s.delivered, s.workers) && Legal(s, e) && m < |Stream(s, e)|
    ensures Begun(s.log + [e], m, Retry(Stream(s, e)[m]))
    ensures Over(s.log + [e], Delivered(s, e), Workers(s, e), m) ==>
              OnCourse(s.log + [e], m, Done, Retry(Stream(s, e)[m]))
  {
    hide OnCourse, Begun, Over, Retry, Advance;
    StreamGrows(s, e);
    if Over(s.log + [e], Delivered(s, e), Workers(s, e), m) {
      OverAfter(s, e, m);
    }
    if WorkOn(e, m) {
      WorkIsByItsWorker(s, e);
      CallStaysOnCourse(s.log, e, At(e.stage, s.workers[e.worker].record), Retry(s.stream[m]));
      var next := Advance(At(e.stage, s.workers[e.worker].record), e.reply, Retry(s.stream[m]), |s.log|);
      OnCourseIsBegun(s.log + [e], m, next, Retry(s.stream[m]));
    } else if m < |s.stream| {
      UntouchedStaysBegun(s.log, e, m, Retry(s.stream[m]));
      if Over(s.log, s.delivered, s.workers, m) {
        OthersStayOnCourse(s.log, e, m, Done, Retry(s.stream[m]));
      }
    } else {
      NewEntry(s.log, m, Retry(Stream(s, e)[m]));
      UntouchedStaysBegun(s.log, e, m, Retry(Stream(s, e)[m]));
    }
  }

  lemma {:induction false} CoursesHold(log: seq<Event>)
    requires IsRun(log)
    ensures var s := After(log); CourseInv(s.log, s.stream, s.delivered, s.workers)
  {
    if |log| > 0 {
      var s, e := After(log[..|log| - 1]), log[|log| - 1];
      CoursesHold(log[..|log| - 1]);
      PathsHold(log[..|log| - 1]);
      CourseStep(s, e);
    }
  }

  lemma CourseStep(s: World, e: Event)
    requires PathInv(s) && CourseInv(s.log, s.stream, s.delivered, s.workers) && Legal(s, e)
    ensures CourseInv(s.log + [e], Stream(s, e), Delivered(s, e), Workers(s, e))
  {
    hide OnCourse, Begun, Retry;
    StreamGrows(s, e);
    forall w | w in Workers(s, e)
      ensures Workers(s, e)[w].msg < |Stream(s, e)|
      ensures var y := Workers(s, e)[w];
              OnCourse(s.log + [e], y.msg, At(y.stage, y.record), Retry(Stream(s, e)[y.msg]))
    {
      WorkersStep(s, e, w);
    }
    forall m: nat | m < |Stream(s, e)|
      ensures Begun(s.log + [e], m, Retry(Stream(s, e)[m]))
      ensures Over(s.log + [e], Delivered(s, e), Workers(s, e), m) ==>
                OnCourse(s.log + [e], m, Done, Retry(Stream(s, e)[m]))
    {
      EntriesStep(s, e, m);
    }
  }

  /** The answers the entry's calls got. */
  ghost function AnswersOf(log: seq<Event>, m: nat): W.Answers {
    if log == [] then map[]
    else
      var e, front := log[|log| - 1], AnswersOf(log[..|log| - 1], m);
      if WorkOn(e, m) then front[e.stage := e.reply] else front
  }

  /** The id of its history row, if it has one. */
  ghost function RowOf(log: seq<Event>, m: nat): nat {
    if log == [] then 0
    else if WorkOn(log[|log| - 1], m) && log[|log| - 1].stage.RecordStart? then |log| - 1
    else RowOf(log[..|log| - 1], m)
  }

  lemma {:induction false} OwnAnswersExplain(log: seq<Event>, m: nat)
    requires forall i, k :: 0 <= i < k < |log| && WorkOn(log[i], m) && WorkOn(log[k], m) ==>
               log[i].stage != log[k].stage
    ensures Explains(log, m, AnswersOf(log, m), RowOf(log, m))
  {
    if log != [] {
      OwnAnswersExplain(log[..|log| - 1], m);
    }
  }

  /** In every run, the calls made for an entry, with their answers, are the beginning of what the code of
      _executeJob does under those answers; and they are all of it once a worker was handed the entry, no
      longer has it, and did not crash with it. */
  lemma RunsFollowTheCode(log: seq<Event>, m: nat)
    requires IsRun(log) && m < |After(log).stream|
    ensures var s := After(log);
            var whole := W.Execution(AnswersOf(log, m), Retry(s.stream[m]), RowOf(log, m));
            CallsOf(log, m) <= whole && (Over(log, s.delivered, s.workers, m) ==> CallsOf(log, m) == whole)
  {
    hide Explains, Retry;
    var s := After(log);
    CoursesHold(log);
    PathsHold(log);
    LogIsTheRun(log);
    OwnAnswersExplain(log, m);
    assert Begun(log, m, Retry(s.stream[m]));
    if Over(log, s.delivered, s.workers, m) {
      var whole := W.Execution(AnswersOf(log, m), Retry(s.stream[m]), RowOf(log, m));
      assert W.Toward(CallsOf(log, m), Done, AnswersOf(log, m), Retry(s.stream[m]), RowOf(log, m), whole);
    }
  }
}
