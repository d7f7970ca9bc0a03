// The whole job-execution protocol as a step system: any number of API calls, poll loops and
// workers over the jobs table, the job-lock keys, the stream with its consumer group, the
// execution history and the dead letter queue. One event is one awaited call (or one crash,
// or one write from outside), so a run is a sequence of events and any two processes may
// interleave between any two awaits.
module Protocol {
  import opened Base
  import opened JobRows
  import opened LeaseStore
  import opened Stages
  import opened ConsumerGroup
  import opened HistoryRows
  import Backoff = Retry

  type LoopId = nat

  /** config.execution.lockTTLMs */
  const JOB_LOCK_TTL_MS: int := 300000

  /** A stream entry. `fetched` and `ticket` are not in Redis: they are the positions in the run of
      the getDueJobs that read the row and of the lockJob that preceded the publish. */
  datatype Message = Message(job: JobId, attempt: int, maxRetries: int, fetched: nat, ticket: nat)

  /** A row of job_executions. `msg` is not a column: it is the stream entry being executed. */
  datatype Execution = Execution(job: JobId, worker: WorkerId, key: (JobId, int, int), status: ExecStatus, msg: nat)

  /** A row of dead_letter_queue. */
  datatype DlqRow = DlqRow(job: JobId, msg: nat, requeuedAt: Option<int>)

  /** The columns of a fetched row that _enqueueDueJobs still uses. */
  datatype Snapshot = Snapshot(job: JobId, retryCount: int, maxRetries: int)

  datatype Phase = ToLock | ToPublish(ticket: nat) | ToUnlock

  /** A poll loop inside _enqueueDueJobs, about to handle todo[0]. */
  datatype Loop = Loop(todo: seq<Snapshot>, fetched: nat, phase: Phase)

  /** A worker inside _executeJob. The lock token of an execution is its stream entry.
      `held` is lock.acquired; `granted` is when its last acquire or extend succeeded. */
  datatype Exec = Exec(
    msg: nat, job: JobId, stage: Stage, record: Option<nat>, cron: bool, held: bool, granted: int)

  /** `created` remembers every id ever inserted (ids are never reused) with its type column;
      `log` is the run that led here. */
  datatype World = World(
    now: int,
    jobs: JobTable,
    created: map<JobId, Kind>,
    leases: Store<JobId, nat>,
    stream: seq<Message>,
    delivered: nat,
    pending: map<nat, WorkerId>,
    acked: set<nat>,
    history: map<nat, Execution>,
    dlqStream: seq<nat>,
    dlqTable: map<nat, DlqRow>,
    loops: map<LoopId, Loop>,
    workers: map<WorkerId, Exec>,
    log: seq<Event>)

  /** `at` is the time of the step; time may pass freely between steps. */
  datatype Event =
    // API calls and maintenance
    | Create(at: int, job: JobId, row: Job)
    | Delete(at: int, job: JobId)
    | Pause(at: int, job: JobId)
    | Resume(at: int, job: JobId, next: Option<int>)
    | TriggerDue(at: int, job: JobId)
    | TriggerActivate(at: int, job: JobId)
    | Update(at: int, job: JobId, nextRun: Option<Option<int>>, max: Option<int>)
    | Unlock(at: int, job: JobId)
    | Requeue(at: int, job: JobId, entry: nat)
    | StampRequeued(at: int, entry: nat)
    // poll loops
    | Fetch(at: int, loop: LoopId, batch: seq<JobId>)
    | Lock(at: int, loop: LoopId, job: JobId, reply: Reply)
    | Publish(at: int, loop: LoopId, job: JobId, reply: Reply)
    | Recover(at: int, loop: LoopId, job: JobId, reply: Reply)
    | LoopCrash(at: int, loop: LoopId)
    // workers
    | Consume(at: int, worker: WorkerId, reply: Reply)
    | Work(at: int, worker: WorkerId, job: JobId, msg: nat, stage: Stage, reply: Reply, arg: Option<int>, error: string)
    | Extend(at: int, worker: WorkerId, reply: Reply)
    | LateExtend(at: int, job: JobId, token: nat)
    | Crash(at: int, worker: WorkerId, msg: nat)
    | Reclaim(at: int, msg: nat, worker: WorkerId)

  const INITIAL: World :=
    World(0, map[], map[], map[], [], 0, map[], {}, map[], [], map[], map[], map[], [])

  /** shouldRetry on the numbers parsed from the message. */
  predicate Retry(m: Message) {
    Backoff.ShouldRetry(m.attempt, m.maxRetries)
  }

  // ----- which steps are possible -----

  /** A call with no result to branch on. */
  predicate Plain(r: Reply) {
    r == Returned(true) || r.Lost?
  }

  /** A call that succeeds exactly when `possible`; losing its reply cannot make it succeed. */
  predicate Guarded(r: Reply, possible: bool) {
    match r
    case Returned(yes) => yes == possible
    case Lost(applied) => applied ==> possible
  }

  function NewRow(row: Job): Job {
    row.(status := Active, retryCount := 0, lockedBy := None, lockedAt := None, lastRunAt := None, lastError := None)
  }

  predicate CanLock(s: World, job: JobId, at: int) {
    job in s.jobs && Lockable(s.jobs[job], at)
  }

  function ExecutionKey(s: World, msg: nat, stamp: int): (JobId, int, int)
    requires msg < |s.stream|
  {
    (s.stream[msg].job, s.stream[msg].attempt, stamp)
  }

  ghost predicate KeyIsFree(s: World, key: (JobId, int, int)) {
    forall r :: r in s.history ==> s.history[r].key != key
  }

  /** What the call awaited at each stage of _executeJob can answer. */
  ghost predicate Answers(s: World, x: Exec, e: Event)
    requires e.Work? && x.msg < |s.stream|
  {
    match x.stage
    case Acquire => Guarded(e.reply, !Live(s.leases, x.job, e.at))
    case CheckHandler => e.reply.Returned?
    case RecordStart =>
      && e.arg.Some?
      && (x.job !in s.jobs ==> e.reply == Lost(false))
      && Guarded(e.reply, x.job in s.jobs && KeyIsFree(s, ExecutionKey(s, x.msg, e.arg.value)))
    case CompleteRead => e.reply.Returned? ==> e.reply.yes == (x.job in s.jobs)
    case FailJob => Plain(e.reply) && (e.arg.Some? <==> Retry(s.stream[x.msg]))
    case WriteDlq => Plain(e.reply) && (x.job !in s.jobs ==> e.reply == Lost(false))
    case _ => Plain(e.reply)
  }

  ghost predicate AtHead(s: World, loop: LoopId, job: JobId) {
    loop in s.loops && |s.loops[loop].todo| > 0 && s.loops[loop].todo[0].job == job
  }

  ghost predicate Legal(s: World, e: Event) {
    && s.now <= e.at
    && match e
       case Create(_, j, row) => j !in s.created && row == NewRow(row)
       case Resume(_, j, _) => j in s.jobs
       case TriggerDue(_, j) => j in s.jobs && Triggerable(s.jobs[j])
       case Requeue(_, j, entry) => j in s.jobs && entry in s.dlqTable && s.dlqTable[entry].job == j
       case StampRequeued(_, entry) => entry in s.dlqTable
       case Delete(_, j) => j in s.jobs
       case Pause(_, j) => j in s.jobs
       case TriggerActivate(_, j) => j in s.jobs
       case Update(_, j, _, _) => j in s.jobs
       case Unlock(_, j) => j in s.jobs
       case Fetch(_, l, batch) =>
         && l !in s.loops && 0 < |batch| <= BATCH_SIZE
         && (forall i :: 0 <= i < |batch| ==> batch[i] in s.jobs && Due(s.jobs[batch[i]], e.at))
         && (forall i, k :: 0 <= i < k < |batch| ==> batch[i] != batch[k])
       case Lock(_, l, j, r) => AtHead(s, l, j) && s.loops[l].phase.ToLock? && Guarded(r, CanLock(s, j, e.at))
       case Publish(_, l, j, r) => AtHead(s, l, j) && s.loops[l].phase.ToPublish? && Plain(r)
       case Recover(_, l, j, r) => AtHead(s, l, j) && s.loops[l].phase.ToUnlock? && Plain(r)
       case LoopCrash(_, l) => l in s.loops
       case Consume(_, w, r) => w !in s.workers && s.delivered < |s.stream| && Took(r)
       case Work(_, w, j, m, stage, _, _, _) =>
         && w in s.workers && s.workers[w].job == j && s.workers[w].msg == m && s.workers[w].stage == stage
         && m < |s.stream| && Answers(s, s.workers[w], e)
       case Extend(_, w, r) =>
         && w in s.workers && InSection(s.workers[w].stage) && s.workers[w].held
         && Guarded(r, Holds(s.leases, s.workers[w].job, s.workers[w].msg, e.at))
       case LateExtend(_, j, t) => Holds(s.leases, j, t, e.at)
       case Crash(_, w, m) => w in s.workers && s.workers[w].msg == m
       case Reclaim(_, m, _) => m in s.pending
  }

  // ----- what a step does, one component at a time -----

  ghost function Jobs(s: World, e: Event): JobTable
    requires Legal(s, e)
  {
    match e
    case Create(_, j, row) => s.jobs[j := row]
    case Delete(_, j) => s.jobs - {j}
    case Pause(_, j) => s.jobs[j := PauseRow(s.jobs[j])]
    case Resume(_, j, next) => s.jobs[j := ResumeRow(s.jobs[j], next)]
    case TriggerDue(_, j) => s.jobs[j := TriggerRow(s.jobs[j], e.at)]
    case TriggerActivate(_, j) => s.jobs[j := ActivateRow(s.jobs[j])]
    case Update(_, j, next, max) =>
      var row := s.jobs[j];
      s.jobs[j := row.(nextRunAt := if next.Some? then next.value else row.nextRunAt,
                       maxRetries := if max.Some? then max.value else row.maxRetries)]
    case Unlock(_, j) => s.jobs[j := UnlockRow(s.jobs[j])]
    case Requeue(_, j, _) => s.jobs[j := RequeueRow(s.jobs[j], e.at)]
    case Lock(_, _, j, r) => if Took(r) then s.jobs[j := LockRow(s.jobs[j], "scheduler", e.at)] else s.jobs
    case Recover(_, _, j, r) => if Took(r) && j in s.jobs then s.jobs[j := UnlockRow(s.jobs[j])] else s.jobs
    case Work(_, w, j, _, stage, r, arg, error) =>
      if !Took(r) || j !in s.jobs then s.jobs
      else if stage.CompleteWrite? then s.jobs[j := CompleteRow(s.jobs[j], s.workers[w].cron, arg, e.at)]
      else if stage.FailJob? then s.jobs[j := FailRow(s.jobs[j], error, arg)]
      else s.jobs
    case _ => s.jobs
  }

  ghost function Leases(s: World, e: Event): Store<JobId, nat>
    requires Legal(s, e)
  {
    match e
    case Work(_, w, j, m, stage, r, _, _) =>
      if !Took(r) then s.leases
      else if stage.Acquire? then SetNx(s.leases, j, m, JOB_LOCK_TTL_MS, e.at)
      else if stage.Release? && s.workers[w].held then DeleteIfHeld(s.leases, j, m, e.at)
      else s.leases
    case Extend(_, w, r) =>
      if Took(r) then ExtendIfHeld(s.leases, s.workers[w].job, s.workers[w].msg, JOB_LOCK_TTL_MS, e.at) else s.leases
    case LateExtend(_, j, t) => ExtendIfHeld(s.leases, j, t, JOB_LOCK_TTL_MS, e.at)
    case _ => s.leases
  }

  ghost function Stream(s: World, e: Event): seq<Message>
    requires Legal(s, e)
  {
    match e
    case Publish(_, l, j, r) =>
      var head := s.loops[l].todo[0];
      if !Took(r) then s.stream
      else s.stream + [Message(j, head.retryCount + 1, head.maxRetries, s.loops[l].fetched, s.loops[l].phase.ticket)]
    case _ => s.stream
  }

  ghost function Delivered(s: World, e: Event): nat {
    if e.Consume? then s.delivered + 1 else s.delivered
  }

  ghost function Created(s: World, e: Event): map<JobId, Kind> {
    if e.Create? then s.created[e.job := e.row.kind] else s.created
  }

  ghost function Pending(s: World, e: Event): map<nat, WorkerId>
    requires Legal(s, e)
  {
    match e
    case Consume(_, w, _) => Handed(s.pending, s.delivered, w)
    case Work(_, _, _, m, stage, r, _, _) => if Took(r) && IsAck(stage) then Remaining(s.pending, m) else s.pending
    case Reclaim(_, m, w) => Handed(s.pending, m, w)
    case _ => s.pending
  }

  ghost function Acked(s: World, e: Event): set<nat>
    requires Legal(s, e)
  {
    match e
    case Work(_, _, _, m, stage, r, _, _) =>
      if Took(r) && IsAck(stage) then AckedWith(s.pending, s.acked, m) else s.acked
    case _ => s.acked
  }

  ghost function History(s: World, e: Event): map<nat, Execution>
    requires Legal(s, e)
  {
    match e
    case Delete(_, j) => map r | r in s.history && s.history[r].job != j :: s.history[r]
    case Work(_, w, j, m, stage, r, arg, _) =>
      var rec := s.workers[w].record;
      if !Took(r) then s.history
      else if stage.RecordStart? then
        s.history[|s.log| := Execution(j, w, ExecutionKey(s, m, arg.value), Running, m)]
      else if rec.None? || rec.value !in s.history then s.history
      else if stage.RecordSuccess? then s.history[rec.value := s.history[rec.value].(status := Success)]
      else if stage.RecordFailure? then s.history[rec.value := s.history[rec.value].(status := Failed)]
      else if stage.RecordDlq? then s.history[rec.value := s.history[rec.value].(status := Dlq)]
      else s.history
    case _ => s.history
  }

  ghost function DlqStream(s: World, e: Event): seq<nat>
    requires Legal(s, e)
  {
    if e.Work? && e.stage.SendDlq? && Took(e.reply) then s.dlqStream + [e.msg] else s.dlqStream
  }

  ghost function DlqTable(s: World, e: Event): map<nat, DlqRow>
    requires Legal(s, e)
  {
    match e
    case Delete(_, j) => map r | r in s.dlqTable && s.dlqTable[r].job != j :: s.dlqTable[r]
    case StampRequeued(_, entry) => s.dlqTable[entry := s.dlqTable[entry].(requeuedAt := Some(e.at))]
    case Work(_, _, j, m, stage, r, _, _) =>
      if stage.WriteDlq? && Took(r) then s.dlqTable[|s.log| := DlqRow(j, m, None)] else s.dlqTable
    case _ => s.dlqTable
  }

  /** The for loop moves on to the next fetched row. */
  ghost function NextRow(s: World, loop: LoopId): map<LoopId, Loop>
    requires loop in s.loops && |s.loops[loop].todo| > 0
  {
    var rest := s.loops[loop].todo[1..];
    if rest == [] then s.loops - {loop} else s.loops[loop := s.loops[loop].(todo := rest, phase := ToLock)]
  }

  ghost function Loops(s: World, e: Event): map<LoopId, Loop>
    requires Legal(s, e)
  {
    match e
    case Fetch(_, l, batch) =>
      var rows := seq(|batch|, i requires 0 <= i < |batch| =>
        Snapshot(batch[i], s.jobs[batch[i]].retryCount, s.jobs[batch[i]].maxRetries));
      s.loops[l := Loop(rows, |s.log|, ToLock)]
    case Lock(_, l, _, r) =>
      if r == Returned(true) then s.loops[l := s.loops[l].(phase := ToPublish(|s.log|))]
      else if r.Lost? then s.loops[l := s.loops[l].(phase := ToUnlock)]
      else NextRow(s, l)
    case Publish(_, l, _, r) =>
      if r.Lost? then s.loops[l := s.loops[l].(phase := ToUnlock)] else NextRow(s, l)
    case Recover(_, l, _, _) => NextRow(s, l)
    case LoopCrash(_, l) => s.loops - {l}
    case _ => s.loops
  }

  /** The worker after the call awaited at its stage answered. */
  ghost function Resumed(s: World, e: Event): Exec
    requires Legal(s, e) && e.Work?
    requires Advance(At(e.stage, s.workers[e.worker].record), e.reply, Retry(s.stream[e.msg]), |s.log|).At?
  {
    var x := s.workers[e.worker];
    var next := Advance(At(e.stage, x.record), e.reply, Retry(s.stream[e.msg]), |s.log|);
    var y := x.(stage := next.stage, record := next.record);
    if e.stage.Acquire? then y.(held := e.reply.yes, granted := e.at)
    else if e.stage.CompleteRead? && e.reply == Returned(true) then y.(cron := s.jobs[e.job].kind.Cron?)
    else y
  }

  ghost function Workers(s: World, e: Event): map<WorkerId, Exec>
    requires Legal(s, e)
  {
    match e
    case Consume(_, w, r) =>
      if r.Lost? then s.workers
      else s.workers[w := Exec(s.delivered, s.stream[s.delivered].job, Acquire, None, false, false, e.at)]
    case Work(_, w, _, m, stage, r, _, _) =>
      if Advance(At(stage, s.workers[w].record), r, Retry(s.stream[m]), |s.log|).Done? then s.workers - {w}
      else s.workers[w := Resumed(s, e)]
    case Extend(_, w, r) =>
      if r == Returned(true) then s.workers[w := s.workers[w].(granted := e.at)]
      else if r.Returned? then s.workers[w := s.workers[w].(held := false)]
      else s.workers
    case Crash(_, w, _) => s.workers - {w}
    case _ => s.workers
  }

  ghost function Apply(s: World, e: Event): World
    requires Legal(s, e)
  {
    World(
      e.at, Jobs(s, e), Created(s, e), Leases(s, e),
      Stream(s, e), Delivered(s, e), Pending(s, e), Acked(s, e),
      History(s, e), DlqStream(s, e), DlqTable(s, e), Loops(s, e), Workers(s, e), s.log + [e])
  }

  // ----- runs -----

  ghost predicate IsRun(log: seq<Event>)
    decreases |log|, 0
  {
    |log| == 0 || (IsRun(log[..|log| - 1]) && Legal(After(log[..|log| - 1]), log[|log| - 1]))
  }

  /** The state a run leads to. */
  ghost function After(log: seq<Event>): World
    requires IsRun(log)
    decreases |log|, 1
  {
    if |log| == 0 then INITIAL else Apply(After(log[..|log| - 1]), log[|log| - 1])
  }

  lemma {:induction false} LogIsTheRun(log: seq<Event>)
    requires IsRun(log)
    ensures After(log).log == log
  {
    if |log| > 0 {
      LogIsTheRun(log[..|log| - 1]);
    }
  }

  /** Every prefix of a run is a run. */
  lemma {:induction false} PrefixIsRun(log: seq<Event>, n: nat)
    requires IsRun(log) && n <= |log|
    ensures IsRun(log[..n])
  {
    if n < |log| {
      assert log[..|log| - 1][..n] == log[..n];
      PrefixIsRun(log[..|log| - 1], n);
    } else {
      assert log[..n] == log;
    }
  }

  /** Every step of a run was possible where it was made. */
  lemma StepIsLegal(log: seq<Event>, q: nat)
    requires IsRun(log) && q < |log|
    ensures IsRun(log[..q]) && Legal(After(log[..q]), log[q])
  {
    PrefixIsRun(log, q);
    PrefixIsRun(log, q + 1);
    assert log[..q + 1][..q] == log[..q];
  }
}
