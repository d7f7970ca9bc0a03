// Serial execution: while every worker inside _executeJob's locked section keeps its lease fresh,
// the sections of one job do not overlap, so their calls form disjoint blocks of the run.
module SerialExecution {
  import opened Base
  import opened LeaseStore
  import opened Stages
  import opened Protocol
  import opened MessagePaths

  /** Inside the section and within the TTL of its last successful acquire or extend. */
  predicate Fresh(x: Exec, now: int) {
    now < x.granted + JOB_LOCK_TTL_MS
  }

  /** The auto-extend assumption: no worker is in its section beyond the TTL of its last grant. */
  ghost predicate AllFresh(s: World) {
    forall w :: w in s.workers && InSection(s.workers[w].stage) ==> Fresh(s.workers[w], s.now)
  }

  /** A fresh holder's key is in Redis, with its token, for at least the rest of its grant. */
  predicate Leased(leases: Store<JobId, nat>, x: Exec) {
    x.job in leases && leases[x.job].token == x.msg && x.granted + JOB_LOCK_TTL_MS <= leases[x.job].expiry
  }

  ghost predicate LeaseInv(now: int, leases: Store<JobId, nat>, workers: map<WorkerId, Exec>) {
    forall w :: w in workers && InSection(workers[w].stage) ==>
      workers[w].granted <= now && (Fresh(workers[w], now) ==> Leased(leases, workers[w]))
  }

  /** A worker in its section after a step was there with the same grant, or has just been granted. */
  ghost predicate Regranted(s: World, e: Event, w: WorkerId, y: Exec)
    requires Legal(s, e)
  {
    && w in s.workers && y.msg == s.workers[w].msg && y.job == s.workers[w].job
    && ((InSection(s.workers[w].stage) && y.granted == s.workers[w].granted
         && !(e.Work? && e.worker == w && e.stage.Release?))
        || (y.granted == e.at && Leased(Leases(s, e), y)))
  }

  lemma GrantMoves(s: World, e: Event, w: WorkerId)
    requires Legal(s, e) && w in Workers(s, e) && InSection(Workers(s, e)[w].stage)
    ensures Regranted(s, e, w, Workers(s, e)[w])
  {
    WorkerMoves(s, e, w);
  }

  /** A lease that has not expired changes only by being extended, or released under its own token
      at the end of its own section. */
  lemma LeaseMoves(s: World, e: Event, j: JobId)
    requires Legal(s, e) && j in s.leases && e.at < s.leases[j].expiry
    ensures || (e.Work? && e.stage.Release? && e.msg == s.leases[j].token && e.job == j)
            || (j in Leases(s, e) && Leases(s, e)[j].token == s.leases[j].token
                && (Leases(s, e)[j].expiry == s.leases[j].expiry || Leases(s, e)[j].expiry == e.at + JOB_LOCK_TTL_MS))
  {
  }

  lemma LeaseStep(s: World, e: Event)
    requires PathInv(s) && LeaseInv(s.now, s.leases, s.workers) && Legal(s, e)
    ensures LeaseInv(e.at, Leases(s, e), Workers(s, e))
  {
    forall w | w in Workers(s, e) && InSection(Workers(s, e)[w].stage)
      ensures Workers(s, e)[w].granted <= e.at
      ensures Fresh(Workers(s, e)[w], e.at) ==> Leased(Leases(s, e), Workers(s, e)[w])
    {
      HolderStep(s, e, w);
    }
  }

  lemma HolderStep(s: World, e: Event, w: WorkerId)
    requires PathInv(s) && LeaseInv(s.now, s.leases, s.workers) && Legal(s, e)
    requires w in Workers(s, e) && InSection(Workers(s, e)[w].stage)
    ensures Workers(s, e)[w].granted <= e.at
    ensures Fresh(Workers(s, e)[w], e.at) ==> Leased(Leases(s, e), Workers(s, e)[w])
  {
    GrantMoves(s, e, w);
    var x, y := s.workers[w], Workers(s, e)[w];
    TimePasses(s, e);
    if y.granted == x.granted && InSection(x.stage) && Fresh(y, e.at) {
      LeaseMoves(s, e, x.job);
      if e.Work? {
        WorkIsByItsWorker(s, e);
      }
    }
  }

  lemma TimePasses(s: World, e: Event)
    requires Legal(s, e)
    ensures s.now <= e.at
  {
  }

  lemma {:induction false} LeasesHold(log: seq<Event>)
    requires IsRun(log)
    ensures LeaseInv(After(log).now, After(log).leases, After(log).workers)
  {
    if |log| > 0 {
      var s, e := After(log[..|log| - 1]), log[|log| - 1];
      LeasesHold(log[..|log| - 1]);
      PathsHold(log[..|log| - 1]);
      LeaseStep(s, e);
    }
  }

  /** In every reachable state, two workers with fresh leases in the section of one job are the same. */
  lemma AtMostOneInSection(log: seq<Event>, v: WorkerId, w: WorkerId)
    requires IsRun(log) && v in After(log).workers && w in After(log).workers
    requires var s := After(log);
             && InSection(s.workers[v].stage) && InSection(s.workers[w].stage) && s.workers[v].job == s.workers[w].job
             && Fresh(s.workers[v], s.now) && Fresh(s.workers[w], s.now)
    ensures v == w
  {
    LeasesHold(log);
    PathsHold(log);
  }

  /** A call made inside the section of `job`. */
  predicate SectionCall(e: Event, job: JobId) {
    e.Work? && e.job == job && InSection(e.stage)
  }

  /** Once another execution of the job has made a call in its section, an execution that made one
      earlier is over. */
  ghost predicate OverInv(log: seq<Event>, workers: map<WorkerId, Exec>) {
    forall i, k, w | 0 <= i < k < |log| && w in workers && SectionCall(log[i], workers[w].job)
                     && SectionCall(log[k], workers[w].job) && log[i].msg == workers[w].msg
      :: log[k].msg == log[i].msg
  }

  /** No call of one execution lies between two calls of another. */
  ghost predicate BlockInv(log: seq<Event>) {
    forall i, k, l | 0 <= i < k < l < |log| && log[i].Work? && SectionCall(log[i], log[i].job)
                     && SectionCall(log[k], log[i].job) && SectionCall(log[l], log[i].job) && log[i].msg == log[l].msg
      :: log[k].msg == log[i].msg
  }

  /** Every state on the way satisfied the auto-extend assumption. */
  ghost predicate FreshRun(log: seq<Event>)
    requires IsRun(log)
    decreases |log|
  {
    AllFresh(After(log)) && (|log| > 0 ==> FreshRun(log[..|log| - 1]))
  }

  lemma SectionHasOneWorker(s: World, v: WorkerId, w: WorkerId)
    requires PathInv(s) && LeaseInv(s.now, s.leases, s.workers) && AllFresh(s)
    requires v in s.workers && w in s.workers && s.workers[v].job == s.workers[w].job
    requires InSection(s.workers[v].stage) && InSection(s.workers[w].stage)
    ensures v == w
  {
  }

  lemma OverStep(s: World, e: Event)
    requires PathInv(s) && LeaseInv(s.now, s.leases, s.workers) && AllFresh(s) && OverInv(s.log, s.workers)
    requires Legal(s, e)
    ensures OverInv(s.log + [e], Workers(s, e))
  {
    var log := s.log + [e];
    assert forall i :: 0 <= i < |s.log| ==> log[i] == s.log[i];
    forall i, k, w | 0 <= i < k < |log| && w in Workers(s, e) && SectionCall(log[i], Workers(s, e)[w].job)
                     && SectionCall(log[k], Workers(s, e)[w].job) && log[i].msg == Workers(s, e)[w].msg
      ensures log[k].msg == log[i].msg
    {
      WorkerMoves(s, e, w);
      assert s.log[i] == log[i];
      if k == |s.log| && w in s.workers {
        WorkIsByItsWorker(s, e);
        assert Rank(s.log[i].stage) < Rank(s.workers[w].stage);
        SectionHasOneWorker(s, w, e.worker);
      }
    }
  }

  lemma BlockStep(s: World, e: Event)
    requires BlockInv(s.log) && OverInv(s.log, s.workers) && Legal(s, e)
    ensures BlockInv(s.log + [e])
  {
    if e.Work? {
      WorkIsByItsWorker(s, e);
    }
    assert forall i :: 0 <= i < |s.log| ==> (s.log + [e])[i] == s.log[i];
  }

  lemma {:induction false} BlocksHold(log: seq<Event>)
    requires IsRun(log) && FreshRun(log)
    ensures OverInv(log, After(log).workers) && BlockInv(log)
  {
    if |log| > 0 {
      var s, e := After(log[..|log| - 1]), log[|log| - 1];
      BlocksHold(log[..|log| - 1]);
      PathsHold(log[..|log| - 1]);
      LeasesHold(log[..|log| - 1]);
      LogIsTheRun(log[..|log| - 1]);
      OverStep(s, e);
      BlockStep(s, e);
      assert s.log + [e] == log;
    }
  }

  /** The recordStart, handler, complete, fail and DLQ calls of one job's executions form
      non-overlapping blocks over the whole run. */
  lemma ExecutionsAreSerial(log: seq<Event>, i: int, k: int, l: int)
    requires IsRun(log) && FreshRun(log) && 0 <= i < k < l < |log|
    requires log[i].Work? && SectionCall(log[i], log[i].job) && SectionCall(log[k], log[i].job)
    requires SectionCall(log[l], log[i].job)
    requires log[i].msg == log[l].msg
    ensures log[k].msg == log[i].msg
  {
    BlocksHold(log);
  }
}
