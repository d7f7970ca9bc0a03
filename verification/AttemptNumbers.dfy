// An always-failing job with one entry outstanding at a time gets attempts 1, 2, 3, ... and is
// marked failed_permanent exactly at attempt max(1, maxRetries).
module AttemptNumbers {
  import opened Base
  import opened Protocol
  import opened MessagePaths
  import opened RowLocks
  import opened Outcomes
  import opened TerminalStates
  import opened BoundedExecution
  import opened RetryBudget

  ghost function FailSet(log: seq<Event>, job: JobId): set<int> {
    set i | 0 <= i < |log| && Fails(log[i], job)
  }

  /** Entries of the job published before entry `m`. */
  ghost function Earlier(stream: seq<Message>, job: JobId, m: int): set<int> {
    set k | 0 <= k < |stream| && k < m && stream[k].job == job
  }

  ghost predicate NeverReset(log: seq<Event>, job: JobId, cron: bool) {
    forall i :: 0 <= i < |log| ==> !Resets(log[i], job, cron)
  }

  /** failExecution for entry `k` took effect before position `n` of the run. */
  ghost predicate FailedBefore(log: seq<Event>, job: JobId, k: nat, n: int) {
    exists i :: 0 <= i < |log| && i < n && Fails(log[i], job) && log[i].msg == k
  }

  /** One entry at a time, and each fails: a row is read for a new entry only after every earlier
      entry of the job was failed. */
  ghost predicate OneAtATime(log: seq<Event>, stream: seq<Message>, job: JobId) {
    forall k, m :: 0 <= k < m < |stream| && stream[k].job == job && stream[m].job == job ==>
      FailedBefore(log, job, k, stream[m].fetched)
  }

  lemma {:induction false} CountIsSize(log: seq<Event>, job: JobId, cron: bool)
    requires NeverReset(log, job, cron)
    ensures FailsSince(log, job, cron) == |FailSet(log, job)|
  {
    if |log| > 0 {
      var front := log[..|log| - 1];
      CountIsSize(front, job, cron);
      if Fails(log[|log| - 1], job) {
        assert FailSet(log, job) == FailSet(front, job) + {|log| - 1};
      } else {
        assert FailSet(log, job) == FailSet(front, job);
      }
    }
  }

  /** What the numbering of the attempts rests on. */
  ghost predicate Numbered(log: seq<Event>, s: World, job: JobId) {
    && LogInv(s.stream, s.delivered, log) && ForwardInv(log, s.workers)
    && TicketInv(log, s.stream) && WorkAfterLock(log, s.stream)
    && OneAtATime(log, s.stream, job)
  }

  lemma LaterEntriesAreReadLater(log: seq<Event>, s: World, job: JobId, m: nat, k: nat)
    requires Numbered(log, s, job) && m < k < |s.stream| && s.stream[m].job == job && s.stream[k].job == job
    ensures s.stream[m].ticket < s.stream[k].fetched
  {
    assert FailedBefore(log, job, m, s.stream[k].fetched);
  }

  /** Failures before an entry's row was read are failures of earlier entries. */
  lemma FailureIsEarlier(log: seq<Event>, s: World, job: JobId, m: nat, i: int)
    requires Numbered(log, s, job) && m < |s.stream| && s.stream[m].job == job
    requires 0 <= i < |log| && i < s.stream[m].fetched && Fails(log[i], job)
    ensures log[i].msg in Earlier(s.stream, job, m)
  {
    if log[i].msg > m {
      LaterEntriesAreReadLater(log, s, job, m, log[i].msg);
    }
  }

  predicate FailureOf(log: seq<Event>, i: int, k: int) {
    0 <= i < |log| && log[i].Work? && log[i].msg == k
  }

  /** An entry is failed at most once. */
  lemma OneFailureEach(log: seq<Event>, workers: map<WorkerId, Exec>, job: JobId, n: nat)
    requires ForwardInv(log, workers) && n <= |log|
    ensures var fails := FailSet(log[..n], job);
            forall h, i, k :: h in fails && i in fails && FailureOf(log, h, k) && FailureOf(log, i, k) ==> h == i
  {
  }

  lemma FailuresWithinEarlier(log: seq<Event>, s: World, job: JobId, m: nat)
    requires Numbered(log, s, job) && m < |s.stream| && s.stream[m].job == job && s.stream[m].fetched <= |log|
    ensures |FailSet(log[..s.stream[m].fetched], job)| <= |Earlier(s.stream, job, m)|
  {
    hide LogInv, TicketInv, WorkAfterLock, OneAtATime;
    var fails, earlier := FailSet(log[..s.stream[m].fetched], job), Earlier(s.stream, job, m);
    forall i | i in fails
      ensures log[i].msg in earlier && FailureOf(log, i, log[i].msg)
    {
      FailureIsEarlier(log, s, job, m, i);
    }
    OneFailureEach(log, s.workers, job, s.stream[m].fetched);
    MatchingBoundsSize(fails, earlier, (i, k) => FailureOf(log, i, k));
  }

  lemma EarlierWithinFailures(log: seq<Event>, s: World, job: JobId, m: nat)
    requires Numbered(log, s, job) && m < |s.stream| && s.stream[m].job == job && s.stream[m].fetched <= |log|
    ensures |Earlier(s.stream, job, m)| <= |FailSet(log[..s.stream[m].fetched], job)|
  {
    var fails, earlier := FailSet(log[..s.stream[m].fetched], job), Earlier(s.stream, job, m);
    forall k | k in earlier
      ensures exists i :: i in fails && FailureOf(log, i, k)
    {
      assert FailedBefore(log, job, k, s.stream[m].fetched);
      var i :| 0 <= i < |log| && i < s.stream[m].fetched && Fails(log[i], job) && log[i].msg == k;
      assert i in fails && FailureOf(log, i, k);
    }
    MatchingBoundsSize(earlier, fails, (k, i) => FailureOf(log, i, k));
  }

  /** The n-th entry of the job carries attempt n. */
  lemma AttemptsCountUp(log: seq<Event>, job: JobId, m: nat)
    requires IsRun(log) && m < |After(log).stream| && After(log).stream[m].job == job && job in After(log).created
    requires NeverReset(log, job, After(log).created[job].Cron?) && OneAtATime(log, After(log).stream, job)
    ensures After(log).stream[m].attempt == |Earlier(After(log).stream, job, m)| + 1
  {
    var s := After(log);
    PathsHold(log);
    LocksHold(log);
    BudgetsHold(log);
    LogIsTheRun(log);
    AttemptIsCount(log, s, job, m);
  }

  lemma AttemptIsCount(log: seq<Event>, s: World, job: JobId, m: nat)
    requires Numbered(log, s, job) && AttemptInv(log, s.created, s.stream, s.loops)
    requires m < |s.stream| && s.stream[m].job == job && job in s.created && NeverReset(log, job, s.created[job].Cron?)
    ensures s.stream[m].attempt == |Earlier(s.stream, job, m)| + 1
  {
    assert ReadAt(log, s.created, job, s.stream[m].fetched, s.stream[m].attempt - 1);
    CountIsSize(log[..s.stream[m].fetched], job, s.created[job].Cron?);
    FailuresWithinEarlier(log, s, job, m);
    EarlierWithinFailures(log, s, job, m);
  }

  /** The entry of the job published last before `m`. */
  ghost function Previous(stream: seq<Message>, job: JobId, m: nat): (k: nat)
    requires 0 < m <= |stream| && Earlier(stream, job, m) != {}
    ensures k < m && stream[k].job == job
    ensures Earlier(stream, job, m) == Earlier(stream, job, k) + {k}
  {
    if stream[m - 1].job == job then
      assert Earlier(stream, job, m) == Earlier(stream, job, m - 1) + {m - 1};
      m - 1
    else
      assert Earlier(stream, job, m) == Earlier(stream, job, m - 1);
      Previous(stream, job, m - 1)
  }

  function Budget(maxRetries: int): int {
    if maxRetries < 1 then 1 else maxRetries
  }

  ghost predicate FixedBudget(stream: seq<Message>, job: JobId, maxRetries: int) {
    forall m :: 0 <= m < |stream| && stream[m].job == job ==> stream[m].maxRetries == maxRetries
  }

  /** An always-failing job: one entry at a time, each failed, max_retries fixed, and nothing resets
      or reactivates the row. */
  ghost predicate AlwaysFails(log: seq<Event>, s: World, job: JobId, maxRetries: int) {
    && job in s.created
    && OneAtATime(log, s.stream, job)
    && NeverReset(log, job, s.created[job].Cron?)
    && NeverActivated(log, job)
    && FixedBudget(s.stream, job, maxRetries)
  }

  /** A failure that was followed by another lock of the job was not permanent. */
  lemma FailureBeforeLockRetries(log: seq<Event>, s: World, job: JobId, i: int, lock: int)
    requires AbsorbInv(s.created, log) && NeverActivated(log, job)
    requires 0 <= i < lock < |log| && Fails(log[i], job) && Locks(log[lock], job)
    ensures log[i].arg.Some?
  {
    assert Picks(log[lock], log[i].job);
    assert !ActivatedBetween(log, job, i, lock);
    assert !Ends(s.created, log[i]);
  }

  lemma EarlierAttemptRetries(log: seq<Event>, s: World, job: JobId, k: nat, m: nat)
    requires Numbered(log, s, job) && CallInv(log, s.stream) && AbsorbInv(s.created, log) && NeverActivated(log, job)
    requires k < m < |s.stream| && s.stream[k].job == job && s.stream[m].job == job
    ensures Retry(s.stream[k])
  {
    assert FailedBefore(log, job, k, s.stream[m].fetched);
    var i :| 0 <= i < |log| && i < s.stream[m].fetched && Fails(log[i], job) && log[i].msg == k;
    assert IsTicket(log, s.stream[m].ticket, job);
    FailureBeforeLockRetries(log, s, job, i, s.stream[m].ticket);
    assert Explained(log, s.stream, log[i]);
  }

  lemma AttemptWithinBudget(log: seq<Event>, s: World, job: JobId, maxRetries: int, m: nat)
    requires Numbered(log, s, job) && AttemptInv(log, s.created, s.stream, s.loops)
    requires CallInv(log, s.stream) && AbsorbInv(s.created, log) && AlwaysFails(log, s, job, maxRetries)
    requires m < |s.stream| && s.stream[m].job == job
    ensures 1 <= s.stream[m].attempt <= Budget(maxRetries)
  {
    AttemptIsCount(log, s, job, m);
    if Earlier(s.stream, job, m) != {} {
      var k := Previous(s.stream, job, m);
      AttemptIsCount(log, s, job, k);
      EarlierAttemptRetries(log, s, job, k, m);
    }
  }

  /** Attempts stay within 1 .. max(1, maxRetries), and a failure is permanent exactly when its
      attempt is the last of them; so the job is published, and its handler started, at most that often. */
  lemma FailsPermanentlyAtBudget(log: seq<Event>, job: JobId, maxRetries: int)
    requires IsRun(log) && AlwaysFails(log, After(log), job, maxRetries)
    ensures forall i | 0 <= i < |log| && Fails(log[i], job)
              :: log[i].msg < |After(log).stream|
                 && (log[i].arg.None? <==> After(log).stream[log[i].msg].attempt == Budget(maxRetries))
    ensures |HandlerStarts(log, job)| <= |Entries(After(log).stream, job)| <= Budget(maxRetries)
  {
    var s := After(log);
    PathsHold(log);
    LocksHold(log);
    BudgetsHold(log);
    OutcomesHold(log);
    TerminalsHold(log);
    LogIsTheRun(log);
    forall i | 0 <= i < |log| && Fails(log[i], job)
      ensures log[i].msg < |s.stream|
      ensures log[i].arg.None? <==> s.stream[log[i].msg].attempt == Budget(maxRetries)
    {
      FailureKind(log, s, job, maxRetries, i);
    }
    EntriesWithinBudget(log, s, job, maxRetries);
    BoundedHandlerStarts(log, job);
  }

  lemma FailureKind(log: seq<Event>, s: World, job: JobId, maxRetries: int, i: int)
    requires Numbered(log, s, job) && AttemptInv(log, s.created, s.stream, s.loops)
    requires CallInv(log, s.stream) && AbsorbInv(s.created, log) && AlwaysFails(log, s, job, maxRetries)
    requires 0 <= i < |log| && Fails(log[i], job)
    ensures log[i].msg < |s.stream|
    ensures log[i].arg.None? <==> s.stream[log[i].msg].attempt == Budget(maxRetries)
  {
    assert Explained(log, s.stream, log[i]);
    AttemptWithinBudget(log, s, job, maxRetries, log[i].msg);
  }

  lemma EntriesWithinBudget(log: seq<Event>, s: World, job: JobId, maxRetries: int)
    requires Numbered(log, s, job) && AttemptInv(log, s.created, s.stream, s.loops)
    requires CallInv(log, s.stream) && AbsorbInv(s.created, log) && AlwaysFails(log, s, job, maxRetries)
    ensures |Entries(s.stream, job)| <= Budget(maxRetries)
  {
    var all := Earlier(s.stream, job, |s.stream|);
    assert all == Entries(s.stream, job);
    if all != {} {
      var last := Previous(s.stream, job, |s.stream|);
      AttemptIsCount(log, s, job, last);
      AttemptWithinBudget(log, s, job, maxRetries, last);
    }
  }
}
