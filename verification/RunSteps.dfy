// Building blocks for concrete runs: one lemma per awaited call, and the stretches of calls that the
// runs of DuplicateRun and SecondStarts have in common.
module RunSteps {
  import opened Base
  import opened JobRows
  import opened LeaseStore
  import opened Stages
  import opened Protocol
  import opened RowLocks
  import opened BoundedExecution

  /** The log of `s` is a run that leads to `s`. */
  ghost predicate Reached(s: World) {
    IsRun(s.log) && After(s.log) == s
  }

  lemma Proceeds(s: World, e: Event)
    requires Reached(s) && Legal(s, e)
    ensures Reached(Apply(s, e))
  {
    hide Legal, Apply;
    AppliesToLog(s, e);
    assert (s.log + [e])[..|s.log|] == s.log;
  }

  lemma AppliesToLog(s: World, e: Event)
    requires Legal(s, e)
    ensures Apply(s, e).log == s.log + [e]
  {
  }

  lemma Creates(job: JobId, row: Job) returns (t: World)
    requires row == NewRow(row)
    ensures Reached(t)
    ensures t == INITIAL.(jobs := map[job := row], created := map[job := row.kind], log := [Create(0, job, row)])
  {
    var e := Create(0, job, row);
    t := Apply(INITIAL, e);
    Proceeds(INITIAL, e);
    assert t.log == [e];
  }

  lemma Fetches(s: World, job: JobId, loop: LoopId, at: int) returns (t: World)
    requires Reached(s) && s.now <= at && job in s.jobs && Due(s.jobs[job], at) && loop !in s.loops
    ensures Reached(t)
    ensures var todo := [Snapshot(job, s.jobs[job].retryCount, s.jobs[job].maxRetries)];
            t == s.(now := at, loops := s.loops[loop := Loop(todo, |s.log|, ToLock)],
                log := s.log + [Fetch(at, loop, [job])])
  {
    hide Reached;
    var e := Fetch(at, loop, [job]);
    t := Apply(s, e);
    Proceeds(s, e);
    assert Loops(s, e)[loop].todo == [Snapshot(job, s.jobs[job].retryCount, s.jobs[job].maxRetries)];
  }

  lemma LocksRow(s: World, job: JobId, loop: LoopId, at: int) returns (t: World)
    requires Reached(s) && s.now <= at && job in s.jobs && Lockable(s.jobs[job], at)
    requires AtHead(s, loop, job) && s.loops[loop].phase.ToLock?
    ensures Reached(t)
    ensures t == s.(now := at, jobs := s.jobs[job := LockRow(s.jobs[job], "scheduler", at)],
                    loops := s.loops[loop := s.loops[loop].(phase := ToPublish(|s.log|))],
                    log := s.log + [Lock(at, loop, job, Returned(true))])
  {
    hide Reached;
    t := Apply(s, Lock(at, loop, job, Returned(true)));
    Proceeds(s, Lock(at, loop, job, Returned(true)));
  }

  lemma Publishes(s: World, job: JobId, loop: LoopId, at: int) returns (t: World)
    requires Reached(s) && s.now <= at && AtHead(s, loop, job) && s.loops[loop].phase.ToPublish?
    requires |s.loops[loop].todo| == 1
    ensures Reached(t)
    ensures var head := s.loops[loop].todo[0];
            var m := Message(job, head.retryCount + 1, head.maxRetries, s.loops[loop].fetched,
                s.loops[loop].phase.ticket);
            t == s.(now := at, stream := s.stream + [m], loops := s.loops - {loop},
                log := s.log + [Publish(at, loop, job, Returned(true))])
  {
    hide Reached;
    t := Apply(s, Publish(at, loop, job, Returned(true)));
    Proceeds(s, Publish(at, loop, job, Returned(true)));
  }

  /** A poll or worker step whose call was answered with success; nothing else wrote. */
  predicate Answered(e: Event) {
    match e
    case Create(_, _, _) => true
    case Fetch(_, _, _) => true
    case Lock(_, _, _, r) => r == Returned(true)
    case Publish(_, _, _, r) => r == Returned(true)
    case Consume(_, _, r) => r == Returned(true)
    case Work(_, _, _, _, _, r, _, _) => r == Returned(true)
    case Extend(_, _, r) => r == Returned(true)
    case _ => false
  }

  ghost predicate AllAnswered(log: seq<Event>) {
    forall i :: 0 <= i < |log| ==> Answered(log[i])
  }

  predicate Outcome(e: Event) {
    e.Work? && (e.stage.CompleteWrite? || e.stage.FailJob?)
  }

  /** The run went on from `log` with answered calls, none of them an outcome. */
  ghost predicate Continued(log: seq<Event>, longer: seq<Event>) {
    log <= longer && forall i :: |log| <= i < |longer| ==> Answered(longer[i]) && !Outcome(longer[i])
  }

  lemma ContinuedGrows(from: seq<Event>, log: seq<Event>, e: Event)
    requires Continued(from, log) && Answered(e) && !Outcome(e)
    ensures Continued(from, log + [e])
  {
  }

  /** One whole poll for one due row. */
  lemma Enqueues(s: World, job: JobId, loop: LoopId, at: int) returns (t: World)
    requires Reached(s) && s.now <= at && job in s.jobs && Due(s.jobs[job], at) && loop !in s.loops
    ensures Reached(t) && Continued(s.log, t.log)
    ensures |t.stream| == |s.stream| + 1 && s.stream <= t.stream && t.stream[|s.stream|].job == job
    ensures t.now == at && t.jobs == s.jobs[job := LockRow(s.jobs[job], "scheduler", at)]
    ensures t.loops == s.loops && t.workers == s.workers && t.leases == s.leases && t.history == s.history
    ensures t.delivered == s.delivered
    ensures t.stream[|s.stream|].attempt == s.jobs[job].retryCount + 1
    ensures t.stream[|s.stream|].maxRetries == s.jobs[job].maxRetries
    ensures t.created == s.created && |s.log| + 1 < |t.log| && !t.log[|s.log|].Lock?
    ensures Locks(t.log[|s.log| + 1], job) && t.log[|s.log| + 1].at == at
  {
    hide Reached;
    var s1 := Fetches(s, job, loop, at);
    var s2 := LocksRow(s1, job, loop, at);
    t := Publishes(s2, job, loop, at);
    assert t.loops == s.loops;
  }

  lemma Receives(s: World, w: WorkerId, at: int) returns (t: World)
    requires Reached(s) && s.now <= at && w !in s.workers && s.delivered < |s.stream|
    ensures Reached(t)
    ensures t == s.(now := at, delivered := s.delivered + 1, pending := s.pending[s.delivered := w],
                    workers := s.workers[w :=
                        Exec(s.delivered, s.stream[s.delivered].job, Acquire, None, false, false, at)],
                    log := s.log + [Consume(at, w, Returned(true))])
  {
    hide Reached;
    t := Apply(s, Consume(at, w, Returned(true)));
    Proceeds(s, Consume(at, w, Returned(true)));
  }

  lemma Renews(s: World, w: WorkerId, at: int) returns (t: World)
    requires Reached(s) && s.now <= at && w in s.workers && InSection(s.workers[w].stage) && s.workers[w].held
    requires Holds(s.leases, s.workers[w].job, s.workers[w].msg, at)
    ensures Reached(t)
    ensures t == s.(now := at, leases := s.leases[s.workers[w].job := Lease(s.workers[w].msg, at + JOB_LOCK_TTL_MS)],
                    workers := s.workers[w := s.workers[w].(granted := at)],
                        log := s.log + [Extend(at, w, Returned(true))])
  {
    hide Reached;
    t := Apply(s, Extend(at, w, Returned(true)));
    Proceeds(s, Extend(at, w, Returned(true)));
  }

  /** The worker's next call, answered. */
  ghost function Yes(s: World, w: WorkerId, at: int): Event
    requires w in s.workers
  {
    var x := s.workers[w];
    Work(at, w, x.job, x.msg, x.stage, Returned(true), if x.stage.RecordStart? then Some(at) else None, "")
  }

  /** What every step of an execution leaves alone. */
  ghost predicate Kept(s: World, t: World, e: Event) {
    && t.now == e.at && t.log == s.log + [e] && t.stream == s.stream && t.delivered == s.delivered && t.loops == s.loops
    && t.created == s.created
  }

  ghost predicate Ready(s: World, w: WorkerId, at: int, stage: Stage) {
    && Reached(s) && s.now <= at && w in s.workers && s.workers[w].stage == stage
    && s.workers[w].msg < |s.stream| && s.workers[w].job in s.jobs
  }

  lemma TakesLease(s: World, w: WorkerId, at: int) returns (t: World)
    requires Ready(s, w, at, Acquire) && !Live(s.leases, s.workers[w].job, at)
    ensures Reached(t) && Kept(s, t, Yes(s, w, at)) && t.jobs == s.jobs && t.history == s.history
    ensures t.workers == s.workers[w := s.workers[w].(stage := CheckHandler, held := true, granted := at)]
    ensures t.leases == s.leases[s.workers[w].job := Lease(s.workers[w].msg, at + JOB_LOCK_TTL_MS)]
  {
    hide Reached;
    t := Apply(s, Yes(s, w, at));
    Proceeds(s, Yes(s, w, at));
  }

  lemma FindsHandler(s: World, w: WorkerId, at: int) returns (t: World)
    requires Ready(s, w, at, CheckHandler)
    ensures Reached(t) && Kept(s, t, Yes(s, w, at)) && t.jobs == s.jobs && t.history == s.history
    ensures t.leases == s.leases
    ensures t.workers == s.workers[w := s.workers[w].(stage := RecordStart)]
  {
    hide Reached;
    t := Apply(s, Yes(s, w, at));
    Proceeds(s, Yes(s, w, at));
  }

  lemma StartsHandler(s: World, w: WorkerId, at: int) returns (t: World)
    requires Ready(s, w, at, RecordStart) && KeyIsFree(s, ExecutionKey(s, s.workers[w].msg, at))
    ensures Reached(t) && Kept(s, t, Yes(s, w, at)) && t.jobs == s.jobs && t.leases == s.leases
    ensures t.workers == s.workers[w := s.workers[w].(stage := RunHandler, record := Some(|s.log|))]
    ensures forall r :: r in t.history ==> (r in s.history && t.history[r] == s.history[r]) || t.history[r].key.2 == at
  {
    hide Reached;
    t := Apply(s, Yes(s, w, at));
    Proceeds(s, Yes(s, w, at));
  }

  /** The handler, and the two calls that touch neither the row nor the lease. */
  lemma Passes(s: World, w: WorkerId, at: int, stage: Stage, next: Stage) returns (t: World)
    requires Ready(s, w, at, stage)
    requires (stage == RunHandler && next == RecordSuccess) || (stage == RecordSuccess && next == CompleteRead)
             || (stage == AckDone && next == Release)
    ensures Reached(t) && Kept(s, t, Yes(s, w, at)) && t.jobs == s.jobs && t.leases == s.leases
    ensures t.workers == s.workers[w := s.workers[w].(stage := next)]
    ensures forall r :: r in t.history ==> r in s.history && t.history[r].key == s.history[r].key
  {
    hide Reached;
    t := Apply(s, Yes(s, w, at));
    Proceeds(s, Yes(s, w, at));
  }

  predicate Completes(e: Event, job: JobId, at: int) {
    e.Work? && e.job == job && e.stage.CompleteWrite? && e.reply == Returned(true) && e.at == at
  }

  lemma CompletesJob(s: World, w: WorkerId, at: int) returns (t: World)
    requires Ready(s, w, at, CompleteRead) && !s.jobs[s.workers[w].job].kind.Cron?
    ensures Reached(t) && t.now == at && t.stream == s.stream && t.delivered == s.delivered && t.loops == s.loops
    ensures t.created == s.created && |t.log| == |s.log| + 2 && Continued(s.log, t.log[..|s.log| + 1])
    ensures Completes(t.log[|s.log| + 1], s.workers[w].job, at)
    ensures t.jobs == s.jobs[s.workers[w].job := CompleteRow(s.jobs[s.workers[w].job], false, None, at)]
    ensures t.workers == s.workers[w := s.workers[w].(stage := AckDone, cron := false)]
    ensures t.leases == s.leases && t.history == s.history
  {
    hide Reached;
    var s1 := ReadsRow(s, w, at);
    t := WritesNextRun(s1, w, at, None);
    assert t.log[..|s.log| + 1] == s1.log;
  }

  lemma ReadsRow(s: World, w: WorkerId, at: int) returns (t: World)
    requires Ready(s, w, at, CompleteRead)
    ensures Reached(t) && Kept(s, t, Yes(s, w, at)) && t.jobs == s.jobs && t.leases == s.leases
    ensures t.history == s.history
    ensures t.workers == s.workers[w :=
            s.workers[w].(stage := CompleteWrite, cron := s.jobs[s.workers[w].job].kind.Cron?)]
  {
    hide Reached;
    t := Apply(s, Yes(s, w, at));
    Proceeds(s, Yes(s, w, at));
  }

  /** completeExecution writes the next fire time of a recurring job, None for a one-time job. */
  lemma WritesNextRun(s: World, w: WorkerId, at: int, next: Option<int>) returns (t: World)
    requires Ready(s, w, at, CompleteWrite)
    ensures Reached(t) && t.leases == s.leases && t.history == s.history
    ensures Kept(s, t, Work(at, w, s.workers[w].job, s.workers[w].msg, CompleteWrite, Returned(true), next, ""))
    ensures t.jobs == s.jobs[s.workers[w].job := CompleteRow(s.jobs[s.workers[w].job], s.workers[w].cron, next, at)]
    ensures t.workers == s.workers[w := s.workers[w].(stage := AckDone)]
  {
    hide Reached;
    var e := Work(at, w, s.workers[w].job, s.workers[w].msg, CompleteWrite, Returned(true), next, "");
    t := Apply(s, e);
    Proceeds(s, e);
  }

  lemma ReleasesLease(s: World, w: WorkerId, at: int) returns (t: World)
    requires Ready(s, w, at, Release) && s.workers[w].held && Holds(s.leases, s.workers[w].job, s.workers[w].msg, at)
    ensures Reached(t) && Kept(s, t, Yes(s, w, at)) && t.jobs == s.jobs && t.history == s.history
    ensures t.workers == s.workers - {w} && t.leases == s.leases - {s.workers[w].job} && t.dlqTable == s.dlqTable
  {
    hide Reached;
    t := Apply(s, Yes(s, w, at));
    Proceeds(s, Yes(s, w, at));
  }

  /** A worker takes the next entry and its job lock. */
  lemma Enters(s: World, w: WorkerId, at: int) returns (t: World)
    requires Reached(s) && s.now <= at && w !in s.workers && s.delivered < |s.stream|
    requires s.stream[s.delivered].job in s.jobs && !Live(s.leases, s.stream[s.delivered].job, at)
    ensures Ready(t, w, at, CheckHandler) && Continued(s.log, t.log)
    ensures t.now == at && t.jobs == s.jobs && t.stream == s.stream && t.delivered == s.delivered + 1
    ensures t.loops == s.loops && t.created == s.created
    ensures t.leases == s.leases[s.stream[s.delivered].job := Lease(s.delivered, at + JOB_LOCK_TTL_MS)]
    ensures t.history == s.history
    ensures t.workers == s.workers[w :=
            Exec(s.delivered, s.stream[s.delivered].job, CheckHandler, None, false, true, at)]
  {
    hide Reached;
    var s1 := Receives(s, w, at);
    ContinuedGrows(s.log, s.log, Consume(at, w, Returned(true)));
    t := TakesLease(s1, w, at);
    ContinuedGrows(s.log, s1.log, Yes(s1, w, at));
  }

  /** It finds the handler, records the start and calls the handler. */
  lemma Begins(s: World, w: WorkerId, at: int) returns (t: World)
    requires Ready(s, w, at, CheckHandler)
    requires forall r :: r in s.history ==> s.history[r].key.2 != at
    ensures Ready(t, w, at, RunHandler) && t.now == at && Continued(s.log, t.log) && s.log < t.log
    ensures Starts(t.log[|t.log| - 1], s.workers[w].job)
    ensures t.jobs == s.jobs && t.stream == s.stream && t.delivered == s.delivered && t.loops == s.loops
    ensures t.leases == s.leases && t.created == s.created
    ensures exists rec :: t.workers == s.workers[w := s.workers[w].(stage := RunHandler, record := Some(rec))]
    ensures forall r :: r in t.history ==> (r in s.history && t.history[r] == s.history[r]) || t.history[r].key.2 == at
  {
    hide Reached;
    var s1 := FindsHandler(s, w, at);
    ContinuedGrows(s.log, s.log, Yes(s, w, at));
    t := StartsHandler(s1, w, at);
    ContinuedGrows(s.log, s1.log, Yes(s1, w, at));
  }

  /** The handler returns and its success is recorded. */
  lemma Succeeds(s: World, w: WorkerId, at: int) returns (t: World)
    requires Ready(s, w, at, RunHandler)
    ensures Ready(t, w, at, CompleteRead) && Continued(s.log, t.log)
    ensures t.jobs == s.jobs && t.stream == s.stream && t.delivered == s.delivered && t.loops == s.loops
    ensures t.leases == s.leases && t.created == s.created
    ensures t.workers == s.workers[w := s.workers[w].(stage := CompleteRead)]
    ensures forall r :: r in t.history ==> r in s.history && t.history[r].key == s.history[r].key
  {
    hide Reached;
    var s1 := Passes(s, w, at, RunHandler, RecordSuccess);
    ContinuedGrows(s.log, s.log, Yes(s, w, at));
    t := Passes(s1, w, at, RecordSuccess, CompleteRead);
    ContinuedGrows(s.log, s1.log, Yes(s1, w, at));
  }

  /** The entry is acknowledged and the job lock released. */
  lemma Leaves(s: World, w: WorkerId, at: int) returns (t: World)
    requires Ready(s, w, at, AckDone)
    requires s.workers[w].held && Holds(s.leases, s.workers[w].job, s.workers[w].msg, at)
    ensures Reached(t) && Continued(s.log, t.log)
    ensures t.now == at && t.jobs == s.jobs && t.stream == s.stream && t.delivered == s.delivered
    ensures t.loops == s.loops && t.created == s.created
    ensures t.workers == s.workers - {w} && t.leases == s.leases - {s.workers[w].job}
    ensures forall r :: r in t.history ==> r in s.history && t.history[r].key == s.history[r].key
  {
    hide Reached;
    var s1 := Passes(s, w, at, AckDone, Release);
    ContinuedGrows(s.log, s.log, Yes(s, w, at));
    t := ReleasesLease(s1, w, at);
    ContinuedGrows(s.log, s1.log, Yes(s1, w, at));
  }

  lemma ContinuedOn(a: seq<Event>, b: seq<Event>, c: seq<Event>)
    requires Continued(a, b) && Continued(b, c)
    ensures Continued(a, c)
  {
  }

  /** A job just enqueued for the first time, with its handler started by the one worker. */
  ghost predicate FirstRunning(s: World, job: JobId, row: Job, w: WorkerId) {
    && Ready(s, w, s.now, RunHandler) && s.workers.Keys == {w} && s.workers[w].job == job && s.workers[w].msg == 0
        && s.workers[w].held
    && s.jobs == map[job := LockRow(row, "scheduler", 0)] && s.created == map[job := row.kind]
    && s.loops == map[] && job in s.leases && s.leases[job] == Lease(0, s.now + JOB_LOCK_TTL_MS)
    && s.workers[w].record.Some? && |s.stream| == 1 && s.delivered == 1
    && s.stream[0].attempt == row.retryCount + 1 && s.stream[0].maxRetries == row.maxRetries
    && (forall r :: r in s.history ==> s.history[r].key.2 == 0)
    && |s.log| > 2 && Continued([], s.log) && !s.log[0].Lock? && !s.log[1].Lock? && Locks(s.log[2], job)
        && s.log[2].at == 0
  }

  /** At time 0 the job is enqueued and its handler started. */
  lemma FirstStart(job: JobId, row: Job, w: WorkerId) returns (s: World, start: int)
    requires row == NewRow(row) && row.nextRunAt.Some? && row.nextRunAt.value <= 0
    ensures FirstRunning(s, job, row, w) && s.now == 0
    ensures 0 <= start < |s.log| && Starts(s.log[start], job)
  {
    hide Reached;
    var s0 := Creates(job, row);
    ContinuedGrows([], [], s0.log[0]);
    assert [] + [s0.log[0]] == s0.log;
    var s1 := Enqueues(s0, job, 0, 0);
    var s2 := Enters(s1, w, 0);
    s := Begins(s2, w, 0);
    start := |s.log| - 1;
    ContinuedOn([], s0.log, s1.log);
    ContinuedOn([], s1.log, s2.log);
    ContinuedOn([], s2.log, s.log);
    assert s.log[0] == s0.log[0] && s.log[1] == s1.log[1] && s.log[2] == s1.log[2];
  }

  // ----- writes from outside, lost calls and failures -----

  lemma Unlocks(s: World, job: JobId, at: int) returns (t: World)
    requires Reached(s) && s.now <= at && job in s.jobs
    ensures Reached(t)
    ensures t == s.(now := at, jobs := s.jobs[job := UnlockRow(s.jobs[job])], log := s.log + [Unlock(at, job)])
  {
    hide Reached;
    t := Apply(s, Unlock(at, job));
    Proceeds(s, Unlock(at, job));
  }

  lemma Triggers(s: World, job: JobId, at: int) returns (t: World)
    requires Reached(s) && s.now <= at && job in s.jobs && Triggerable(s.jobs[job])
    ensures Reached(t)
    ensures t == s.(now := at, jobs := s.jobs[job := TriggerRow(s.jobs[job], at)], log := s.log + [TriggerDue(at, job)])
  {
    hide Reached;
    t := Apply(s, TriggerDue(at, job));
    Proceeds(s, TriggerDue(at, job));
  }

  lemma Resumes(s: World, job: JobId, next: Option<int>, at: int) returns (t: World)
    requires Reached(s) && s.now <= at && job in s.jobs
    ensures Reached(t)
    ensures t == s.(now := at, jobs := s.jobs[job := ResumeRow(s.jobs[job], next)],
            log := s.log + [Resume(at, job, next)])
  {
    hide Reached;
    t := Apply(s, Resume(at, job, next));
    Proceeds(s, Resume(at, job, next));
  }

  lemma Requeues(s: World, job: JobId, entry: nat, at: int) returns (t: World)
    requires Reached(s) && s.now <= at && job in s.jobs && entry in s.dlqTable && s.dlqTable[entry].job == job
    ensures Reached(t)
    ensures t == s.(now := at, jobs := s.jobs[job := RequeueRow(s.jobs[job], at)],
            log := s.log + [Requeue(at, job, entry)])
  {
    hide Reached;
    t := Apply(s, Requeue(at, job, entry));
    Proceeds(s, Requeue(at, job, entry));
  }

  /** The entry reaches the stream, but the reply is lost. */
  lemma LosesPublishReply(s: World, job: JobId, loop: LoopId, at: int) returns (t: World)
    requires Reached(s) && s.now <= at && AtHead(s, loop, job) && s.loops[loop].phase.ToPublish?
    ensures Reached(t)
    ensures var head := s.loops[loop].todo[0];
            var m := Message(job, head.retryCount + 1, head.maxRetries, s.loops[loop].fetched,
                s.loops[loop].phase.ticket);
            t == s.(now := at, stream := s.stream + [m], loops := s.loops[loop := s.loops[loop].(phase := ToUnlock)],
                    log := s.log + [Publish(at, loop, job, Lost(true))])
  {
    hide Reached;
    t := Apply(s, Publish(at, loop, job, Lost(true)));
    Proceeds(s, Publish(at, loop, job, Lost(true)));
  }

  lemma Recovers(s: World, job: JobId, loop: LoopId, at: int) returns (t: World)
    requires Reached(s) && s.now <= at && AtHead(s, loop, job) && s.loops[loop].phase.ToUnlock?
    requires |s.loops[loop].todo| == 1
    requires job in s.jobs
    ensures Reached(t)
    ensures t == s.(now := at, jobs := s.jobs[job := UnlockRow(s.jobs[job])], loops := s.loops - {loop},
                    log := s.log + [Recover(at, loop, job, Returned(true))])
  {
    hide Reached;
    t := Apply(s, Recover(at, loop, job, Returned(true)));
    Proceeds(s, Recover(at, loop, job, Returned(true)));
  }

  /** A call of a worker that is lost without effect. */
  ghost function No(s: World, w: WorkerId, at: int): Event
    requires w in s.workers
  {
    var x := s.workers[w];
    Work(at, w, x.job, x.msg, x.stage, Lost(false), None, "")
  }

  /** The handler throws, or the acknowledge is lost. */
  lemma Throws(s: World, w: WorkerId, at: int, stage: Stage) returns (t: World)
    requires Ready(s, w, at, stage) && (stage == RunHandler || stage == AckDone) && s.workers[w].record.Some?
    ensures Reached(t) && Kept(s, t, No(s, w, at)) && t.jobs == s.jobs && t.leases == s.leases && t.history == s.history
    ensures t.workers == s.workers[w := s.workers[w].(stage := RecordFailure)] && t.dlqTable == s.dlqTable
  {
    hide Reached;
    t := Apply(s, No(s, w, at));
    Proceeds(s, No(s, w, at));
  }

  /** The calls of the failure path that touch neither the row nor the lease. */
  lemma PassesFailure(s: World, w: WorkerId, at: int, stage: Stage, next: Stage) returns (t: World)
    requires Ready(s, w, at, stage) && s.workers[w].record.Some?
    requires (stage == RecordFailure && next == FailJob) || (stage == SendDlq && next == WriteDlq)
             || (stage == RecordDlq && next == AckFailed) || (stage == AckFailed && next == Release)
    ensures Reached(t) && Kept(s, t, Yes(s, w, at)) && t.jobs == s.jobs && t.leases == s.leases
    ensures t.workers == s.workers[w := s.workers[w].(stage := next)] && t.dlqTable == s.dlqTable
    ensures forall r :: r in t.history ==> r in s.history && t.history[r].key == s.history[r].key
  {
    hide Reached;
    t := Apply(s, Yes(s, w, at));
    Proceeds(s, Yes(s, w, at));
  }

  lemma WritesDeadLetter(s: World, w: WorkerId, at: int) returns (t: World)
    requires Ready(s, w, at, WriteDlq) && s.workers[w].record.Some?
    ensures Reached(t) && Kept(s, t, Yes(s, w, at)) && t.jobs == s.jobs && t.leases == s.leases
    ensures t.history == s.history
    ensures t.workers == s.workers[w := s.workers[w].(stage := RecordDlq)]
    ensures |s.log| in t.dlqTable && t.dlqTable[|s.log|].job == s.workers[w].job
  {
    hide Reached;
    t := Apply(s, Yes(s, w, at));
    Proceeds(s, Yes(s, w, at));
  }

  /** failExecution returns: with a retry time exactly when shouldRetry holds. */
  lemma FailsRow(s: World, w: WorkerId, at: int, retryAt: Option<int>) returns (t: World)
    requires Ready(s, w, at, FailJob) && (retryAt.Some? <==> Retry(s.stream[s.workers[w].msg]))
    ensures Reached(t) && Kept(s, t, Fail(s, w, at, retryAt)) && t.leases == s.leases && t.history == s.history
    ensures t.jobs == s.jobs[s.workers[w].job := FailRow(s.jobs[s.workers[w].job], "", retryAt)]
    ensures t.workers == s.workers[w := s.workers[w].(stage := if retryAt.Some? then AckFailed else SendDlq)]
    ensures t.dlqTable == s.dlqTable
  {
    hide Reached;
    t := Apply(s, Fail(s, w, at, retryAt));
    Proceeds(s, Fail(s, w, at, retryAt));
  }

  ghost function Fail(s: World, w: WorkerId, at: int, retryAt: Option<int>): Event
    requires w in s.workers
  {
    Work(at, w, s.workers[w].job, s.workers[w].msg, FailJob, Returned(true), retryAt, "")
  }

  lemma TwoStarts(log: seq<Event>, job: JobId, first: int, second: int)
    requires 0 <= first < second < |log| && Starts(log[first], job) && Starts(log[second], job)
    ensures |HandlerStarts(log, job)| >= 2
  {
    assert {first, second} <= HandlerStarts(log, job);
    SubsetIsSmaller({first, second}, HandlerStarts(log, job));
  }

  lemma SubsetIsSmaller(a: set<int>, b: set<int>)
    requires a <= b
    ensures |a| <= |b|
  {
    MatchingBoundsSize(a, b, (x, y) => x == y);
  }
}
