// src/lib/distributed-lock.js: the lock object, and what any interleaving of its commands grants.
module DistributedLock {
  import opened Base
  import opened LeaseStore

  /** The shared Redis instance. */
  class Redis {
    var keys: Store<string, string>

    constructor ()
      ensures keys == map[]
    {
      keys := map[];
    }
  }

  class Lock {
    const redis: Redis
    const key: string
    const ttlMs: int
    const token: string
    var acquired: bool
    var extending: bool  // extendInterval is set

    constructor (redis: Redis, key: string, ttlMs: int, token: string)
      ensures this.redis == redis && this.key == key && this.ttlMs == ttlMs && this.token == token
      ensures !acquired && !extending
    {
      this.redis, this.key, this.ttlMs, this.token := redis, key, ttlMs, token;
      acquired, extending := false, false;
    }

    /** Takes the key exactly when it is absent or expired; otherwise changes nothing. A rejected call leaves
        the flag as it was, also when it took the key. */
    method Acquire(now: int, lost: Option<bool>) returns (r: Reply)
      modifies this`acquired, redis
      ensures r == ReplyOf(!old(Live(redis.keys, key, now)), lost)
      ensures redis.keys == if Took(r) then old(redis.keys)[key := Lease(token, now + ttlMs)] else old(redis.keys)
      ensures acquired == (r == Returned(true) || old(acquired))
    {
      r := ReplyOf(!Live(redis.keys, key, now), lost);
      if Took(r) {
        redis.keys := SetNx(redis.keys, key, token, ttlMs, now);
      }
      if r == Returned(true) {
        acquired := true;
      }
    }

    /** Deletes the key only while it still carries this lock's token. A rejected call has stopped the
        interval but keeps the flag. */
    method Release(now: int, lost: Option<bool>) returns (r: Reply)
      modifies this, redis
      ensures r == if !old(acquired) then Returned(false) else ReplyOf(old(Holds(redis.keys, key, token, now)), lost)
      ensures redis.keys == if Took(r) then old(redis.keys) - {key} else old(redis.keys)
      ensures acquired == (old(acquired) && r.Lost?) && extending == (old(extending) && !old(acquired))
    {
      if !acquired {
        return Returned(false);
      }
      StopAutoExtend();
      r := ReplyOf(Holds(redis.keys, key, token, now), lost);
      if Took(r) {
        redis.keys := DeleteIfHeld(redis.keys, key, token, now);
      }
      if r.Returned? {
        acquired := false;
      }
    }

    /** Renews the TTL only while the key still carries this lock's token; otherwise gives up the flag. A
        rejected call keeps the flag. */
    method Extend(now: int, lost: Option<bool>) returns (r: Reply)
      modifies this`acquired, redis
      ensures r == if !old(acquired) then Returned(false) else ReplyOf(old(Holds(redis.keys, key, token, now)), lost)
      ensures redis.keys == if Took(r) then old(redis.keys)[key := Lease(token, now + ttlMs)] else old(redis.keys)
      ensures acquired == (r == Returned(true) || r.Lost?)
    {
      if !acquired {
        return Returned(false);
      }
      r := ReplyOf(Holds(redis.keys, key, token, now), lost);
      if Took(r) {
        redis.keys := ExtendIfHeld(redis.keys, key, token, ttlMs, now);
      }
      if r == Returned(false) {
        acquired := false;
      }
    }

    /** One firing of the interval: an extend answered no also stops the interval, and a rejected one leaves
        it running. */
    method AutoExtend(now: int, lost: Option<bool>) returns (r: Reply)
      requires extending
      modifies this, redis
      ensures r == if !old(acquired) then Returned(false) else ReplyOf(old(Holds(redis.keys, key, token, now)), lost)
      ensures extending == acquired == (r == Returned(true) || r.Lost?)
      ensures redis.keys == if Took(r) then old(redis.keys)[key := Lease(token, now + ttlMs)] else old(redis.keys)
    {
      r := Extend(now, lost);
      if r == Returned(false) {
        StopAutoExtend();
      }
    }

    method StopAutoExtend()
      modifies this`extending
      ensures !extending
    {
      if extending {
        extending := false;
      }
    }
  }

  // ----- any number of locks on any number of keys -----

  datatype Command =
    | Acquire(at: int, key: string, token: string, ttl: int)
    | Extend(at: int, key: string, token: string, ttl: int)
    | Release(at: int, key: string, token: string)

  /** A lease as granted: from the acquire until the last TTL given to it, or until its release. */
  datatype Grant = Grant(token: string, from: int, until: int)

  /** `grants` lists the leases granted on each key, oldest first. */
  datatype State = State(now: int, keys: Store<string, string>, grants: map<string, seq<Grant>>)

  function GrantsOn(s: State, key: string): seq<Grant> {
    if key in s.grants then s.grants[key] else []
  }

  predicate Possible(s: State, c: Command) {
    s.now <= c.at && (!c.Release? ==> 0 < c.ttl)
  }

  /** A new end for the latest lease on a key. */
  function Reissue(s: State, key: string, until: int): map<string, seq<Grant>> {
    var g := GrantsOn(s, key);
    if g == [] then s.grants else s.grants[key := g[..|g| - 1] + [g[|g| - 1].(until := until)]]
  }

  function Perform(s: State, c: Command): State {
    match c
    case Acquire(at, key, token, ttl) =>
      State(at, SetNx(s.keys, key, token, ttl, at),
            if Live(s.keys, key, at) then s.grants
            else s.grants[key := GrantsOn(s, key) + [Grant(token, at, at + ttl)]])
    case Extend(at, key, token, ttl) =>
      State(at, ExtendIfHeld(s.keys, key, token, ttl, at),
            if Holds(s.keys, key, token, at) then Reissue(s, key, at + ttl) else s.grants)
    case Release(at, key, token) =>
      State(at, DeleteIfHeld(s.keys, key, token, at),
            if Holds(s.keys, key, token, at) then Reissue(s, key, at) else s.grants)
  }

  ghost predicate AllPossible(s: State, commands: seq<Command>)
    decreases |commands|
  {
    |commands| == 0 || (Possible(s, commands[0]) && AllPossible(Perform(s, commands[0]), commands[1..]))
  }

  ghost function PerformAll(s: State, commands: seq<Command>): State
    decreases |commands|
  {
    if |commands| == 0 then s else PerformAll(Perform(s, commands[0]), commands[1..])
  }

  /** The latest lease on a key is the one in Redis, or is over; every earlier one ended before the next began. */
  ghost predicate KeyInv(s: State, key: string) {
    var g := GrantsOn(s, key);
    && Ordered(g, s.now)
    && (key in s.keys ==> |g| > 0 && g[|g| - 1].token == s.keys[key].token && g[|g| - 1].until == s.keys[key].expiry)
    && (key !in s.keys && |g| > 0 ==> g[|g| - 1].until <= s.now)
  }

  ghost predicate Ordered(g: seq<Grant>, now: int) {
    && (forall i :: 0 <= i < |g| ==> g[i].from <= now && g[i].from <= g[i].until)
    && (forall i, k :: 0 <= i < k < |g| ==> g[i].until <= g[k].from)
  }

  ghost predicate GrantInv(s: State) {
    forall key :: KeyInv(s, key)
  }

  lemma OrderedAppend(g: seq<Grant>, now: int, at: int, grant: Grant)
    requires Ordered(g, now) && now <= at && grant.from == at <= grant.until
    requires |g| > 0 ==> g[|g| - 1].until <= at
    ensures Ordered(g + [grant], at)
  {
  }

  lemma OrderedReissue(g: seq<Grant>, now: int, at: int, until: int)
    requires Ordered(g, now) && |g| > 0 && now <= at <= until
    ensures Ordered(g[..|g| - 1] + [g[|g| - 1].(until := until)], at)
  {
  }

  lemma OrderedLater(g: seq<Grant>, now: int, at: int)
    requires Ordered(g, now) && now <= at
    ensures Ordered(g, at)
  {
  }

  lemma AcquireStep(s: State, c: Command)
    requires c.Acquire? && KeyInv(s, c.key) && Possible(s, c)
    ensures KeyInv(Perform(s, c), c.key)
  {
    hide Ordered;
    var g := GrantsOn(s, c.key);
    if !Live(s.keys, c.key, c.at) {
      OrderedAppend(g, s.now, c.at, Grant(c.token, c.at, c.at + c.ttl));
    } else {
      OrderedLater(g, s.now, c.at);
    }
  }

  lemma ExtendStep(s: State, c: Command)
    requires c.Extend? && KeyInv(s, c.key) && Possible(s, c)
    ensures KeyInv(Perform(s, c), c.key)
  {
    hide Ordered;
    var g := GrantsOn(s, c.key);
    if Holds(s.keys, c.key, c.token, c.at) {
      OrderedReissue(g, s.now, c.at, c.at + c.ttl);
    } else {
      OrderedLater(g, s.now, c.at);
    }
  }

  lemma ReleaseStep(s: State, c: Command)
    requires c.Release? && KeyInv(s, c.key) && Possible(s, c)
    ensures KeyInv(Perform(s, c), c.key)
  {
    hide Ordered;
    var g := GrantsOn(s, c.key);
    if Holds(s.keys, c.key, c.token, c.at) {
      OrderedReissue(g, s.now, c.at, c.at);
    } else {
      OrderedLater(g, s.now, c.at);
    }
  }

  /** The lease intervals of every key stay in order under any one command. */
  lemma KeyStep(s: State, c: Command, key: string)
    requires KeyInv(s, key) && Possible(s, c)
    ensures KeyInv(Perform(s, c), key)
  {
    if c.key == key {
      match c
      case Acquire(_, _, _, _) => AcquireStep(s, c);
      case Extend(_, _, _, _) => ExtendStep(s, c);
      case Release(_, _, _) => ReleaseStep(s, c);
    } else {
      OrderedLater(GrantsOn(s, key), s.now, c.at);
    }
  }

  lemma GrantStep(s: State, c: Command)
    requires GrantInv(s) && Possible(s, c)
    ensures GrantInv(Perform(s, c))
  {
    forall key
      ensures KeyInv(Perform(s, c), key)
    {
      KeyStep(s, c, key);
    }
  }

  lemma {:induction false} GrantsHold(s: State, commands: seq<Command>)
    requires GrantInv(s) && AllPossible(s, commands)
    ensures GrantInv(PerformAll(s, commands))
    decreases |commands|
  {
    if |commands| > 0 {
      GrantStep(s, commands[0]);
      GrantsHold(Perform(s, commands[0]), commands[1..]);
    }
  }

  /** Over every interleaving of acquires, extends, releases, expiries and crashes, the leases granted
      on one key do not overlap. */
  lemma LeasesAreDisjoint(now: int, commands: seq<Command>, key: string, i: nat, k: nat)
    requires AllPossible(State(now, map[], map[]), commands)
    requires var g := GrantsOn(PerformAll(State(now, map[], map[]), commands), key); i < |g| && k < |g| && i != k
    ensures var g := GrantsOn(PerformAll(State(now, map[], map[]), commands), key);
            g[i].until <= g[k].from || g[k].until <= g[i].from
  {
    GrantsHold(State(now, map[], map[]), commands);
    assert KeyInv(PerformAll(State(now, map[], map[]), commands), key);
  }

  /** A stale holder, whose token is not the live one, changes nothing; and no command touches a live
      lease of another token or another key. */
  lemma StaleHoldersAreHarmless(s: State, c: Command, key: string)
    requires Live(s.keys, key, c.at) && (c.key != key || c.token != s.keys[key].token)
    ensures key in Perform(s, c).keys && Perform(s, c).keys[key] == s.keys[key]
    ensures GrantsOn(Perform(s, c), key) == GrantsOn(s, key)
  {
  }

  /** A granted lease covers this time. */
  ghost predicate Runs(s: State, key: string, t: int) {
    exists i :: 0 <= i < |GrantsOn(s, key)| && GrantsOn(s, key)[i].from <= t < GrantsOn(s, key)[i].until
  }

  /** A key is live exactly while a granted lease runs. */
  lemma LiveExactlyWhileRunning(s: State, key: string, t: int)
    requires KeyInv(s, key) && s.now <= t
    ensures Live(s.keys, key, t) <==> Runs(s, key, t)
  {
    var g := GrantsOn(s, key);
    if Live(s.keys, key, t) {
      assert g[|g| - 1].from <= t < g[|g| - 1].until;
    }
  }

  /** What a command does to the leases granted so far, in every reachable state: an acquire adds one exactly
      when none runs; an extend or a release under the token of the running one moves its end, and nothing
      else does. So a lock is never refused when it is free, and a released or expired one is free. */
  lemma CommandsGrant(now: int, commands: seq<Command>, c: Command)
    requires AllPossible(State(now, map[], map[]), commands)
    requires Possible(PerformAll(State(now, map[], map[]), commands), c)
    ensures var s := PerformAll(State(now, map[], map[]), commands);
            var (was, g) := (GrantsOn(s, c.key), GrantsOn(Perform(s, c), c.key));
            var mine := Runs(s, c.key, c.at) && was[|was| - 1].token == c.token;
            && (c.Acquire? ==>
                  g == if Runs(s, c.key, c.at) then was else was + [Grant(c.token, c.at, c.at + c.ttl)])
            && (c.Extend? ==> g == if mine then was[|was| - 1 := was[|was| - 1].(until := c.at + c.ttl)] else was)
            && (c.Release? ==> g == if mine then was[|was| - 1 := was[|was| - 1].(until := c.at)] else was)
            && (c.Release? && mine ==> forall t :: c.at <= t ==> !Runs(Perform(s, c), c.key, t))
  {
    var s := PerformAll(State(now, map[], map[]), commands);
    GrantsHold(State(now, map[], map[]), commands);
    assert KeyInv(s, c.key);
    LiveExactlyWhileRunning(s, c.key, c.at);
    Reissued(GrantsOn(s, c.key), if c.Extend? then c.at + c.ttl else c.at);
    if c.Release? && Holds(s.keys, c.key, c.token, c.at) {
      var g := GrantsOn(Perform(s, c), c.key);
      assert forall i :: 0 <= i < |g| ==> g[i].until <= c.at;
    }
  }

  lemma Reissued(g: seq<Grant>, until: int)
    ensures g != [] ==> g[..|g| - 1] + [g[|g| - 1].(until := until)] == g[|g| - 1 := g[|g| - 1].(until := until)]
  {
  }
}
