// src/services/job-service.js: the methods that change job rows, over the statements in JobRows.
module JobService {
  import opened Base
  import opened JobRows

  function DueJobs(jobs: JobTable, now: int): set<JobId> {
    set j | j in jobs && Due(jobs[j], now)
  }

  function DueAt(jobs: JobTable, j: JobId): int {
    if j in jobs && jobs[j].nextRunAt.Some? then jobs[j].nextRunAt.value else 0
  }

  /** ORDER BY next_run_at ASC LIMIT: distinct due rows, in order, as many as allowed, none later than
      a due row left out. */
  ghost predicate IsDueBatch(jobs: JobTable, now: int, limit: nat, batch: seq<JobId>) {
    var due := DueJobs(jobs, now);
    && |batch| == (if |due| < limit then |due| else limit)
    && (forall i :: 0 <= i < |batch| ==> batch[i] in due)
    && (forall i, k :: 0 <= i < k < |batch| ==> batch[i] != batch[k] && DueAt(jobs, batch[i]) <= DueAt(jobs, batch[k]))
    && (forall i, j :: 0 <= i < |batch| && j in due && j !in batch ==> DueAt(jobs, batch[i]) <= DueAt(jobs, j))
  }

  lemma {:induction false} EarliestExists(jobs: JobTable, s: set<JobId>)
    requires s != {}
    ensures exists j :: j in s && forall k :: k in s ==> DueAt(jobs, j) <= DueAt(jobs, k)
  {
    var x :| x in s;
    if s != {x} {
      EarliestExists(jobs, s - {x});
      var y :| y in s - {x} && forall k :: k in s - {x} ==> DueAt(jobs, y) <= DueAt(jobs, k);
      var j := if DueAt(jobs, x) <= DueAt(jobs, y) then x else y;
      assert forall k :: k in s ==> k == x || k in s - {x};
      assert j in s && forall k :: k in s ==> DueAt(jobs, j) <= DueAt(jobs, k);
    }
  }

  datatype Updates = Updates(
    name: Option<string>, cronExpression: Option<string>, payload: Option<string>,
    maxRetries: Option<int>, timezone: Option<string>)

  /** JavaScript truthiness of an optional string. */
  predicate Given(s: Option<string>) {
    s.Some? && s.value != ""
  }

  datatype Column = NameColumn | CronColumn | NextRunColumn | PayloadColumn | RetriesColumn | TimezoneColumn

  datatype Value = Text(text: string) | Number(number: int) | Time(time: Option<int>)

  /** `column = $placeholder`; placeholders count from $1. */
  datatype SetClause = SetClause(column: Column, placeholder: nat)

  /** What PostgreSQL does with one clause; a value of the wrong type writes nothing here. */
  function Assign(row: Job, column: Column, v: Value): Job {
    match (column, v)
    case (NameColumn, Text(s)) => row.(name := s)
    case (CronColumn, Text(s)) => row.(cronExpression := Some(s))
    case (NextRunColumn, Time(t)) => row.(nextRunAt := t)
    case (PayloadColumn, Text(s)) => row.(payload := s)
    case (RetriesColumn, Number(n)) => row.(maxRetries := n)
    case (TimezoneColumn, Text(s)) => row.(timezone := s)
    case _ => row
  }

  /** UPDATE ... SET clauses, with $k standing for values[k - 1]. */
  function Interpret(row: Job, clauses: seq<SetClause>, values: seq<Value>): Job
    requires forall i :: 0 <= i < |clauses| ==> 1 <= clauses[i].placeholder <= |values|
  {
    if clauses == [] then row
    else
      var last := clauses[|clauses| - 1];
      Assign(Interpret(row, clauses[..|clauses| - 1], values), last.column, values[last.placeholder - 1])
  }

  /** The update the caller asked for. */
  function Updated(row: Job, u: Updates, next: Option<int>): Job {
    row.(name := if Given(u.name) then u.name.value else row.name,
         cronExpression := if Given(u.cronExpression) then Some(u.cronExpression.value) else row.cronExpression,
         nextRunAt := if Given(u.cronExpression) then next else row.nextRunAt,
         payload := if u.payload.Some? then u.payload.value else row.payload,
         maxRetries := if u.maxRetries.Some? then u.maxRetries.value else row.maxRetries,
         timezone := if Given(u.timezone) then u.timezone.value else row.timezone)
  }

  /** Placeholder i + 2 belongs to the i-th clause, and $1 to the job id. */
  ghost predicate Aligned(clauses: seq<SetClause>, values: seq<Value>, paramIndex: nat) {
    && paramIndex == |clauses| + 2 && |values| == paramIndex - 1
    && forall i :: 0 <= i < |clauses| ==> clauses[i].placeholder == i + 2
  }

  lemma {:induction false} InterpretIgnoresLaterValues(row: Job, clauses: seq<SetClause>, values: seq<Value>, v: Value)
    requires forall i :: 0 <= i < |clauses| ==> 1 <= clauses[i].placeholder <= |values|
    ensures Interpret(row, clauses, values + [v]) == Interpret(row, clauses, values)
  {
    if clauses != [] {
      InterpretIgnoresLaterValues(row, clauses[..|clauses| - 1], values, v);
    }
  }

  lemma InterpretAppend(row: Job, clauses: seq<SetClause>, values: seq<Value>, column: Column, v: Value)
    requires Aligned(clauses, values, |clauses| + 2)
    ensures Interpret(row, clauses + [SetClause(column, |clauses| + 2)], values + [v])
            == Assign(Interpret(row, clauses, values), column, v)
  {
    InterpretIgnoresLaterValues(row, clauses, values, v);
    assert (clauses + [SetClause(column, |clauses| + 2)])[..|clauses|] == clauses;
  }

  /** The SET list and values of updateJob while they are being built. */
  datatype Builder = Builder(setClauses: seq<SetClause>, values: seq<Value>, paramIndex: nat)

  ghost predicate Builds(b: Builder, row: Job, want: Job) {
    Aligned(b.setClauses, b.values, b.paramIndex) && Interpret(row, b.setClauses, b.values) == want
  }

  /** setClauses.push(`column = $${paramIndex++}`); values.push(v) */
  method Push(b: Builder, column: Column, v: Value, ghost row: Job, ghost want: Job) returns (c: Builder)
    requires Builds(b, row, want)
    ensures Builds(c, row, Assign(want, column, v)) && c.values == b.values + [v] && |c.values| == |b.values| + 1
  {
    InterpretAppend(row, b.setClauses, b.values, column, v);
    c := Builder(b.setClauses + [SetClause(column, b.paramIndex)], b.values + [v], b.paramIndex + 1);
  }

  // The same update, one optional field at a time.
  function WithName(row: Job, u: Updates): Job {
    if Given(u.name) then row.(name := u.name.value) else row
  }

  function WithCron(row: Job, u: Updates, next: Option<int>): Job {
    if Given(u.cronExpression) then row.(cronExpression := Some(u.cronExpression.value), nextRunAt := next) else row
  }

  function WithPayload(row: Job, u: Updates): Job {
    if u.payload.Some? then row.(payload := u.payload.value) else row
  }

  function WithRetries(row: Job, u: Updates): Job {
    if u.maxRetries.Some? then row.(maxRetries := u.maxRetries.value) else row
  }

  function WithTimezone(row: Job, u: Updates): Job {
    if Given(u.timezone) then row.(timezone := u.timezone.value) else row
  }

  lemma UpdatedFieldByField(row: Job, u: Updates, next: Option<int>)
    ensures Updated(row, u, next)
            == WithTimezone(WithRetries(WithPayload(WithCron(WithName(row, u), u, next), u), u), u)
  {
  }

  /** The statement of updateJob; None when the cron expression is refused. For every combination of
      fields, executing it on a row gives the update asked for. */
  method BuildUpdate(id: JobId, u: Updates, valid: bool, next: Option<int>, ghost row: Job) returns (r: Option<Builder>)
    ensures r.None? <==> Given(u.cronExpression) && !valid
    ensures r.Some? ==> Builds(r.value, row, Updated(row, u, next)) && r.value.values[0] == Text(id)
  {
    hide Builds;
    var b := Builder([], [Text(id)], 2);
    Unbuilt(id, row);
    ghost var named := WithName(row, u);
    if Given(u.name) {
      b := Push(b, NameColumn, Text(u.name.value), row, row);
    }
    assert Builds(b, row, named);
    ghost var scheduled := WithCron(named, u, next);
    if Given(u.cronExpression) {
      if !valid {
        return None;
      }
      b := Push(b, CronColumn, Text(u.cronExpression.value), row, named);
      b := Push(b, NextRunColumn, Time(next), row, named.(cronExpression := Some(u.cronExpression.value)));
    }
    assert Builds(b, row, scheduled);
    ghost var loaded := WithPayload(scheduled, u);
    if u.payload.Some? {
      b := Push(b, PayloadColumn, Text(u.payload.value), row, scheduled);
    }
    assert Builds(b, row, loaded);
    ghost var limited := WithRetries(loaded, u);
    if u.maxRetries.Some? {
      b := Push(b, RetriesColumn, Number(u.maxRetries.value), row, loaded);
    }
    assert Builds(b, row, limited);
    if Given(u.timezone) {
      b := Push(b, TimezoneColumn, Text(u.timezone.value), row, limited);
    }
    UpdatedFieldByField(row, u, next);
    r := Some(b);
  }

  /** An empty text updates nothing, as if the field were absent; a limit of 0 is an update. */
  lemma EmptyTextIsNoUpdate(row: Job, u: Updates, next: Option<int>)
    ensures Updated(row, u.(name := Some(""), cronExpression := Some(""), timezone := Some("")), next)
            == Updated(row, u.(name := None, cronExpression := None, timezone := None), next)
    ensures Updated(row, u.(maxRetries := Some(0)), next).maxRetries == 0
  {
  }

  lemma Unbuilt(id: JobId, row: Job)
    ensures Builds(Builder([], [Text(id)], 2), row, row)
  {
  }

  class JobService {
    var jobs: JobTable

    constructor (jobs: JobTable)
      ensures this.jobs == jobs
    {
      this.jobs := jobs;
    }

    method GetDueJobs(now: int, limit: nat) returns (batch: seq<JobId>)
      ensures IsDueBatch(jobs, now, limit, batch)
    {
      batch := [];
      var remaining := DueJobs(jobs, now);
      ghost var due := remaining;
      while |batch| < limit && remaining != {}
        invariant |batch| <= limit && |batch| + |remaining| == |due| && remaining <= due
        invariant forall i :: 0 <= i < |batch| ==> batch[i] in due && batch[i] !in remaining
        invariant forall j :: j in due ==> j in remaining || j in batch
        invariant forall i, k :: 0 <= i < k < |batch| ==>
                batch[i] != batch[k] && DueAt(jobs, batch[i]) <= DueAt(jobs, batch[k])
        invariant forall i, j :: 0 <= i < |batch| && j in remaining ==> DueAt(jobs, batch[i]) <= DueAt(jobs, j)
        decreases limit - |batch|
      {
        EarliestExists(jobs, remaining);
        var j :| j in remaining && forall k :: k in remaining ==> DueAt(jobs, j) <= DueAt(jobs, k);
        batch := batch + [j];
        remaining := remaining - {j};
      }
    }

    method LockJob(id: JobId, workerId: string, now: int) returns (locked: bool)
      modifies this
      ensures locked == (id in old(jobs) && Lockable(old(jobs)[id], now))
      ensures jobs == if locked then old(jobs)[id := LockRow(old(jobs)[id], workerId, now)] else old(jobs)
      ensures locked ==>
                && jobs[id].lockedBy == Some(workerId)
                && (forall t :: Lockable(jobs[id], t) <==> now + LOCK_STALE_MS < t)
                && jobs[id].(lockedBy := None, lockedAt := None) == old(jobs)[id].(lockedBy := None, lockedAt := None)
    {
      locked := id in jobs && Lockable(jobs[id], now);
      if locked {
        jobs := jobs[id := LockRow(jobs[id], workerId, now)];
      }
    }

    /** `next` is getNextFireTime of the row's cron expression. A one-time job is completed and never due
        again; a recurring one starts over with a whole retry budget, and is due from `next` on if its row was
        active, and never if there is no next time. */
    method CompleteExecution(id: JobId, next: Option<int>, now: int)
      modifies this
      ensures jobs ==
              if id in old(jobs)
              then old(jobs)[id := CompleteRow(old(jobs)[id], old(jobs)[id].kind.Cron?, next, now)]
              else old(jobs)
      ensures id in old(jobs) && !old(jobs)[id].kind.Cron? ==> forall t :: !Due(jobs[id], t)
      ensures id in old(jobs) && old(jobs)[id].kind.Cron? ==>
                && (forall t :: Due(jobs[id], t) <==> old(jobs)[id].status.Active? && next.Some? && next.value <= t)
                && jobs[id].status == old(jobs)[id].status && jobs[id].nextRunAt == next
                && jobs[id].retryCount == 0 && jobs[id].lastError == None
      ensures id in old(jobs) && !old(jobs)[id].kind.Cron? ==>
                && jobs[id].status.Completed? && jobs[id].nextRunAt == None
                && jobs[id].retryCount == old(jobs)[id].retryCount && jobs[id].lastError == old(jobs)[id].lastError
      ensures OnlyRow(old(jobs), jobs, id)
      ensures id in jobs ==>
                && SameDefinition(jobs[id], old(jobs)[id]) && jobs[id].lastRunAt == Some(now)
                && jobs[id].lockedBy == None && jobs[id].lockedAt == None
    {
      if id !in jobs {
        return;
      }
      var job := jobs[id];
      if job.kind.Cron? {
        jobs := Put(jobs, id, CompleteRow(jobs[id], true, next, now));
      } else {
        jobs := Put(jobs, id, CompleteRow(jobs[id], false, None, now));
      }
    }

    /** The row is unlocked, counts one more failure, and is due from `retryAt` on if it was active; without
        a retry time it can never be locked again. */
    method FailExecution(id: JobId, error: string, retryAt: Option<int>)
      modifies this
      ensures jobs == if id in old(jobs) then old(jobs)[id := FailRow(old(jobs)[id], error, retryAt)] else old(jobs)
      ensures id in old(jobs) ==>
              jobs[id].retryCount == old(jobs)[id].retryCount + 1 && forall t :: LockFree(jobs[id], t)
      ensures id in old(jobs) && retryAt.None? ==> forall t :: !Lockable(jobs[id], t)
      ensures id in old(jobs) && retryAt.Some? ==>
                forall t :: Due(jobs[id], t) <==> old(jobs)[id].status.Active? && retryAt.value <= t
      ensures OnlyRow(old(jobs), jobs, id)
      ensures id in jobs ==>
                && SameDefinition(jobs[id], old(jobs)[id]) && jobs[id].lastRunAt == old(jobs)[id].lastRunAt
                && jobs[id].lastError == Some(error) && jobs[id].nextRunAt == retryAt
                && jobs[id].status == (if retryAt.Some? then old(jobs)[id].status else FailedPermanent)
                && jobs[id].lockedBy == None && jobs[id].lockedAt == None
    {
      if id in jobs {
        jobs := jobs[id := FailRow(jobs[id], error, retryAt)];
      }
    }

    /** The row is free at any time, and otherwise as it was. */
    method UnlockJob(id: JobId)
      modifies this
      ensures jobs == if id in old(jobs) then old(jobs)[id := UnlockRow(old(jobs)[id])] else old(jobs)
      ensures OnlyRow(old(jobs), jobs, id)
      ensures id in jobs ==>
                && jobs[id].lockedBy == None && jobs[id].lockedAt == None
                && jobs[id].(lockedBy := old(jobs)[id].lockedBy, lockedAt := old(jobs)[id].lockedAt) == old(jobs)[id]
    {
      if id in jobs {
        jobs := jobs[id := UnlockRow(jobs[id])];
      }
    }

    /** A paused row can never be locked, and keeps its lock, its fire time and its count. */
    method PauseJob(id: JobId)
      modifies this
      ensures jobs == if id in old(jobs) then old(jobs)[id := PauseRow(old(jobs)[id])] else old(jobs)
      ensures id in old(jobs) ==> forall t :: !Lockable(jobs[id], t)
      ensures OnlyRow(old(jobs), jobs, id)
      ensures id in jobs ==>
                jobs[id].status.Paused? && jobs[id].(status := old(jobs)[id].status) == old(jobs)[id]
    {
      if id in jobs {
        jobs := jobs[id := PauseRow(jobs[id])];
      }
    }

    /** `next` is getNextFireTime of the row's cron expression. A missing job is an error. Otherwise the row is
        active; once no lock of the last five minutes is on it, it is due from the next time of a recurring
        job, or the scheduled time of a delayed job if that is still to come, and else at no time. */
    method ResumeJob(id: JobId, next: Option<int>, now: int) returns (found: bool)
      modifies this
      ensures found == (id in old(jobs))
      ensures jobs ==
              if found then old(jobs)[id := ResumeRow(old(jobs)[id], NextAfterResume(old(jobs)[id], next, now))]
              else old(jobs)
      ensures found ==>
                && jobs[id].status.Active?
                && jobs[id].(status := old(jobs)[id].status, nextRunAt := old(jobs)[id].nextRunAt) == old(jobs)[id]
      ensures found ==>
                var row := old(jobs)[id];
                forall t :: Due(jobs[id], t) <==>
                  && (row.lockedBy.None? || (row.lockedAt.Some? && row.lockedAt.value + LOCK_STALE_MS < t))
                  && (|| (row.kind.Cron? && next.Some? && next.value <= t)
                      || (row.kind.Delayed? && row.scheduledAt.Some? && now < row.scheduledAt.value <= t))
    {
      if id !in jobs {
        return false;
      }
      var job := jobs[id];
      var nextRunAt := None;
      if job.kind.Cron? {
        nextRunAt := next;
      } else if job.kind.Delayed? {
        nextRunAt := if job.scheduledAt.Some? && job.scheduledAt.value > now then job.scheduledAt else None;
      }
      jobs := jobs[id := ResumeRow(job, nextRunAt)];
      return true;
    }

    /** The row is active; it was freed and given the time of the call exactly when it was active or paused. */
    method TriggerNow(id: JobId, now: int)
      modifies this
      ensures jobs == if id in old(jobs) then old(jobs)[id := TriggeredRow(old(jobs)[id], now)] else old(jobs)
      ensures OnlyRow(old(jobs), jobs, id)
      ensures id in jobs ==>
                var row := old(jobs)[id];
                jobs[id] == if row.status.Active? || row.status.Paused?
                            then row.(status := Active, nextRunAt := Some(now), lockedBy := None, lockedAt := None)
                            else row.(status := Active)
    {
      if id in jobs && Triggerable(jobs[id]) {
        jobs := jobs[id := TriggerRow(jobs[id], now)];
      }
      if id in jobs {
        jobs := jobs[id := ActivateRow(jobs[id])];
      }
    }

    /** `valid` and `next` are the validator's answer and getNextFireTime for the expression supplied. */
    method UpdateJob(id: JobId, u: Updates, valid: bool, next: Option<int>) returns (ok: bool)
      modifies this
      ensures ok == !(Given(u.cronExpression) && !valid)
      ensures !ok || id !in old(jobs) ==> jobs == old(jobs)
      ensures ok && id in old(jobs) ==> jobs == old(jobs)[id := Updated(old(jobs)[id], u, next)]
      ensures OnlyRow(old(jobs), jobs, id)
      ensures ok && id in jobs ==>
                var (row, was) := (jobs[id], old(jobs)[id]);
                && row.name == (if Given(u.name) then u.name.value else was.name)
                && (row.cronExpression, row.nextRunAt) ==
                   (if Given(u.cronExpression) then (u.cronExpression, next) else (was.cronExpression, was.nextRunAt))
                && row.payload == (if u.payload.Some? then u.payload.value else was.payload)
                && row.maxRetries == (if u.maxRetries.Some? then u.maxRetries.value else was.maxRetries)
                && row.timezone == (if Given(u.timezone) then u.timezone.value else was.timezone)
                && row.status == was.status && row.retryCount == was.retryCount && row.lastError == was.lastError
                && row.lastRunAt == was.lastRunAt && row.lockedBy == was.lockedBy && row.lockedAt == was.lockedAt
                && row.kind == was.kind && row.scheduledAt == was.scheduledAt && row.handlerName == was.handlerName
    {
      ghost var row: Job := *;
      if id in jobs {
        row := jobs[id];
      }
      var built := BuildUpdate(id, u, valid, next, row);
      if built.None? {
        return false;
      }
      var b := built.value;
      if b.setClauses != [] && id in jobs {
        jobs := jobs[id := Interpret(jobs[id], b.setClauses, b.values)];
      }
      assert id in old(jobs) && b.setClauses == [] ==> jobs == jobs[id := row];
      return true;
    }
  }

  /** The next_run_at that resumeJob writes. */
  function NextAfterResume(row: Job, next: Option<int>, now: int): Option<int> {
    match row.kind
    case Cron => next
    case Delayed => if row.scheduledAt.Some? && row.scheduledAt.value > now then row.scheduledAt else None
    case Immediate => None
  }

  /** Both statements of triggerNow. */
  function TriggeredRow(row: Job, now: int): Job {
    ActivateRow(if Triggerable(row) then TriggerRow(row, now) else row)
  }

  /** A resumed row, locked or not, is ever due again exactly when it is recurring with a next fire time or
      delayed with its time still to come; an immediate job never is. */
  lemma ResumedRowDue(row: Job, next: Option<int>, now: int)
    requires row.lockedBy.None? || row.lockedAt.Some?
    ensures EverDue(ResumeRow(row, NextAfterResume(row, next, now))) <==>
            || (row.kind.Cron? && next.Some?)
            || (row.kind.Delayed? && row.scheduledAt.Some? && row.scheduledAt.value > now)
  {
    var resumed := ResumeRow(row, NextAfterResume(row, next, now));
    if resumed.nextRunAt.Some? {
      assert Due(resumed, DueFrom(resumed));
    }
  }

  /** triggerNow makes a row due at once exactly when it was active or paused, or was already due but
      for its status. */
  lemma TriggeredRowDue(row: Job, now: int)
    ensures Due(TriggeredRow(row, now), now) <==>
            Triggerable(row) || (LockFree(row, now) && row.nextRunAt.Some? && row.nextRunAt.value <= now)
  {
  }

  /** triggerNow sets a finished row active in every case, and makes it run again exactly when it has a
      fire time left; it does not give it one. */
  lemma TriggeredFinishedRowDue(row: Job, at: int)
    requires !Triggerable(row) && (row.lockedBy.None? || row.lockedAt.Some?)
    ensures TriggeredRow(row, at).status.Active?
    ensures EverDue(TriggeredRow(row, at)) <==> row.nextRunAt.Some?
  {
    var triggered := TriggeredRow(row, at);
    if row.nextRunAt.Some? {
      assert Due(triggered, DueFrom(triggered));
    }
  }

  /** Finishing leaves no fire time, so a trigger then runs nothing; but a failure with a retry time that
      is recorded on a completed row leaves one. */
  lemma FinishedThenFailedRowDue(row: Job, now: int, at: int, error: string, retryAt: int)
    ensures !EverDue(TriggeredRow(CompleteRow(row, false, None, now), at))
    ensures !EverDue(TriggeredRow(FailRow(row, error, None), at))
    ensures EverDue(TriggeredRow(FailRow(CompleteRow(row, false, None, now), error, Some(retryAt)), at))
  {
    TriggeredFinishedRowDue(CompleteRow(row, false, None, now), at);
    TriggeredFinishedRowDue(FailRow(row, error, None), at);
    TriggeredFinishedRowDue(FailRow(CompleteRow(row, false, None, now), error, Some(retryAt)), at);
  }
}
