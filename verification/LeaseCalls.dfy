// The job-lock calls of the protocol are those of the lock object (module DistributedLock): the same answers,
// the same effect on the key, the same flag.
module LeaseCalls {
  import opened Base
  import opened LeaseStore
  import opened Stages
  import opened Protocol

  /** The outcome of a call, as the lock object takes it. */
  function LostOf(r: Reply): Option<bool> {
    if r.Lost? then Some(r.applied) else None
  }

  /** lock.acquire(): it succeeds exactly when no live key is there, and sets the flag exactly when it says so. */
  lemma AcquireIsLockAcquire(s: World, e: Event)
    requires Legal(s, e) && e.Work? && e.stage.Acquire?
    ensures e.reply == ReplyOf(!Live(s.leases, e.job, e.at), LostOf(e.reply))
    ensures Leases(s, e) ==
            if Took(e.reply) then s.leases[e.job := Lease(e.msg, e.at + JOB_LOCK_TTL_MS)] else s.leases
    ensures e.reply.Returned? <==> e.worker in Workers(s, e)
    ensures e.reply.Returned? ==>
              && Workers(s, e)[e.worker].held == e.reply.yes
              && (e.reply.yes <==> InSection(Workers(s, e)[e.worker].stage))
              && (e.reply.yes ==> Workers(s, e)[e.worker].granted == e.at)
  {
  }

  /** One firing of the auto-extend interval: the key is renewed exactly when it is held under this token, and an
      answer of no gives up the flag for good. */
  lemma ExtendIsLockExtend(s: World, e: Event)
    requires Legal(s, e) && e.Extend?
    ensures e.worker in s.workers
    ensures var x := s.workers[e.worker];
            && x.held && e.reply == ReplyOf(Holds(s.leases, x.job, x.msg, e.at), LostOf(e.reply))
            && Leases(s, e) ==
               (if Took(e.reply) then s.leases[x.job := Lease(x.msg, e.at + JOB_LOCK_TTL_MS)] else s.leases)
            && Workers(s, e) ==
               s.workers[e.worker := x.(held := e.reply != Returned(false),
                                        granted := if e.reply == Returned(true) then e.at else x.granted)]
  {
    var x := s.workers[e.worker];
    assert e.reply.Lost? ==> s.workers == s.workers[e.worker := x];
  }

  /** lock.release(): the key is deleted exactly when the flag is set and the key held under this token; without
      the flag no command is sent. The worker is done, whatever it answers. */
  lemma ReleaseIsLockRelease(s: World, e: Event)
    requires Legal(s, e) && e.Work? && e.stage.Release?
    ensures e.worker in s.workers && Workers(s, e) == s.workers - {e.worker}
    ensures Leases(s, e) ==
            if Took(e.reply) && s.workers[e.worker].held && Holds(s.leases, e.job, e.msg, e.at)
            then s.leases - {e.job} else s.leases
  {
  }

  /** An extend still under way when its execution ended renews the key only under its own token; no other event
      touches the keys. */
  lemma OtherEventsKeepKeys(s: World, e: Event)
    requires Legal(s, e) && !(e.Work? && (e.stage.Acquire? || e.stage.Release?)) && !e.Extend?
    ensures Leases(s, e) ==
            if e.LateExtend? then s.leases[e.job := Lease(e.token, e.at + JOB_LOCK_TTL_MS)] else s.leases
    ensures e.LateExtend? ==> Holds(s.leases, e.job, e.token, e.at)
  {
  }
}
