// src/lib/leader-election.js: the election object, and how many leaders there can be at a time.
module LeaderElection {
  import opened Base
  import opened LeaseStore
  import opened DistributedLock

  /** config.leader */
  const LOCK_KEY: string := "scheduler:leader:lock"
  const LOCK_TTL_MS: int := 15000

  class Election {
    const redis: Redis
    var lock: Lock?
    var isLeader: bool
    var running: bool
    var electionTimer: bool
    var renewTimer: bool

    ghost predicate Valid()
      reads this, lock
    {
      && (lock != null ==> lock.redis == redis && lock.key == LOCK_KEY && lock.ttlMs == LOCK_TTL_MS)
      && (isLeader ==> lock != null)
    }

    constructor (redis: Redis)
      ensures Valid() && this.redis == redis && lock == null && !isLeader && !running && !electionTimer && !renewTimer
    {
      this.redis := redis;
      lock, isLeader, running, electionTimer, renewTimer := null, false, false, false, false;
    }

    /** One run of _runElection. `lost` says that the acquire was rejected, and whether it had reached Redis.
        A stopped node does nothing; a leader only re-arms its timer; a candidate becomes leader exactly
        when its new token got the key and it was told so. */
    method RunElection(now: int, token: string, lost: Option<bool>) returns (became: bool)
      requires Valid()
      modifies this`lock, this`isLeader, this`electionTimer, this`renewTimer, redis
      ensures Valid()
      ensures !old(running) || old(isLeader) ==>
                !became && lock == old(lock) && isLeader == old(isLeader) && renewTimer == old(renewTimer)
                && redis.keys == old(redis.keys)
      ensures old(running && !isLeader) ==>
                && lock != null && fresh(lock) && lock.token == token && lock.acquired == became == isLeader
                && became == (lost.None? && !old(Live(redis.keys, LOCK_KEY, now)))
                && redis.keys == (if Took(ReplyOf(!old(Live(redis.keys, LOCK_KEY, now)), lost))
                                  then SetNx(old(redis.keys), LOCK_KEY, token, LOCK_TTL_MS, now) else old(redis.keys))
                && renewTimer == (became || old(renewTimer))
      ensures electionTimer == (old(running) || old(electionTimer))
    {
      became := false;
      if !running {
        return;
      }
      if !isLeader {
        lock := new Lock(redis, LOCK_KEY, LOCK_TTL_MS, token);
        var r := lock.Acquire(now, lost);
        if r == Returned(true) {
          isLeader := true;
          renewTimer := true;
          became := true;
        }
      }
      electionTimer := true;
    }

    /** The node takes part from now on, with a first election at once. */
    method Start(now: int, token: string, lost: Option<bool>) returns (became: bool)
      requires Valid()
      modifies this`running, this`lock, this`isLeader, this`electionTimer, this`renewTimer, redis
      ensures Valid() && running && electionTimer
      ensures old(isLeader) ==> !became && isLeader && lock == old(lock) && redis.keys == old(redis.keys)
      ensures !old(isLeader) ==>
                && became == isLeader == (lost.None? && !old(Live(redis.keys, LOCK_KEY, now)))
                && (became ==> renewTimer && redis.keys == old(redis.keys)[LOCK_KEY := Lease(token, now + LOCK_TTL_MS)])
    {
      running := true;
      became := RunElection(now, token, lost);
    }

    /** One firing of the renewal interval: leadership survives exactly when the key still carried this
        node's token and the reply arrived. */
    method Renew(now: int, lost: Option<bool>) returns (deposed: bool)
      requires Valid() && renewTimer
      modifies this`isLeader, this`renewTimer, redis, lock
      ensures Valid() && lock == old(lock)
      ensures !old(running && isLeader) ==>
                !deposed && isLeader == old(isLeader) && renewTimer && redis.keys == old(redis.keys)
      ensures old(running && isLeader) ==>
                && isLeader == !deposed && renewTimer == !deposed
                && isLeader == (lost.None? && old(lock.acquired && Holds(redis.keys, LOCK_KEY, lock.token, now)))
                && redis.keys ==
                   if old(lock.acquired) && Took(ReplyOf(old(Holds(redis.keys, LOCK_KEY, lock.token, now)), lost))
                   then ExtendIfHeld(old(redis.keys), LOCK_KEY, lock.token, LOCK_TTL_MS, now)
                   else old(redis.keys)
    {
      deposed := false;
      if !running || !isLeader {
        return;
      }
      var r := lock.Extend(now, lost);
      if r != Returned(true) {
        deposed := true;
        isLeader := false;
        renewTimer := false;
      }
    }

    /** Resigns: the key is deleted only if it still carries this node's token. A rejected release leaves
        isLeader set on the stopped node. */
    method Stop(now: int, lost: Option<bool>) returns (threw: bool)
      requires Valid()
      modifies this, redis, lock
      ensures Valid() && !running && !electionTimer && !renewTimer && lock == old(lock)
      ensures threw == (old(isLeader && lock.acquired) && lost.Some?)
      ensures isLeader == threw
      ensures redis.keys ==
              if old(isLeader && lock.acquired)
                 && Took(ReplyOf(old(Holds(redis.keys, LOCK_KEY, lock.token, now)), lost))
              then DeleteIfHeld(old(redis.keys), LOCK_KEY, lock.token, now)
              else old(redis.keys)
    {
      running := false;
      electionTimer := false;
      renewTimer := false;
      threw := false;
      if isLeader && lock != null {
        var r := lock.Release(now, lost);
        if r.Lost? {
          return true;
        }
        isLeader := false;
      }
    }
  }

  // ----- any number of nodes, each call split into its effect in Redis and its reply -----

  type NodeId = nat

  /** Answered without a command, carried out by Redis, or lost on the way there. */
  datatype Way = NotSent | Arrived | Vanished

  /** A call on its way back: the token it was made with, whether it succeeded, and how far it got. */
  datatype Sent = Sent(token: nat, done: bool, way: Way)

  /** `token` and `acquired` are those of the current lock object. `grant` is the Redis time of the last
      acquire or extend that succeeded with that token. `electing`, `renewals` and `resigning` are calls
      whose replies have not been handled. */
  datatype Node = Node(
    running: bool, isLeader: bool, renewing: bool, resigning: Option<Sent>,
    token: Option<nat>, acquired: bool, grant: Option<int>, electing: Option<Sent>, renewals: seq<Sent>)

  datatype Cluster = Cluster(now: int, keys: Store<string, nat>, tokens: set<nat>, nodes: map<NodeId, Node>)

  /** `reached` says that a command got to Redis, `lost` that its reply is a rejection. */
  datatype Event =
    | Join(at: int, node: NodeId)
    | ElectSend(at: int, node: NodeId, token: nat, reached: bool)
    | ElectReply(at: int, node: NodeId, lost: bool)
    | RenewSend(at: int, node: NodeId, reached: bool)
    | RenewReply(at: int, node: NodeId, which: nat, lost: bool)
    | StopSend(at: int, node: NodeId, reached: bool)
    | StopReply(at: int, node: NodeId, lost: bool)
    | Crash(at: int, node: NodeId)

  /** A command that vanished can only be rejected, and a call that sent none cannot be. */
  predicate CanReply(sent: Sent, lost: bool) {
    if lost then sent.way != NotSent else sent.way != Vanished
  }

  predicate Enabled(c: Cluster, e: Event) {
    && c.now <= e.at
    && (e.Join? <==> e.node !in c.nodes)
    && (!e.Join? ==>
          var n := c.nodes[e.node];
          match e
          case Join(_, _) => true
          case ElectSend(_, _, token, _) => n.running && !n.isLeader && n.electing.None? && token !in c.tokens
          case ElectReply(_, _, lost) => n.electing.Some? && CanReply(n.electing.value, lost)
          case RenewSend(_, _, _) => n.renewing && n.running && n.isLeader && n.token.Some?
          case RenewReply(_, _, which, lost) => which < |n.renewals| && CanReply(n.renewals[which], lost)
          case StopSend(_, _, _) => n.running
          case StopReply(_, _, lost) => n.resigning.Some? && CanReply(n.resigning.value, lost)
          case Crash(_, _) => true)
  }

  /** How far a command of the node's lock gets: without the acquired flag it sends none. */
  function WayOf(acquired: bool, reached: bool): Way {
    if !acquired then NotSent else if reached then Arrived else Vanished
  }

  function OwnToken(n: Node): nat {
    if n.token.Some? then n.token.value else 0
  }

  function Keys(c: Cluster, e: Event): Store<string, nat>
    requires Enabled(c, e)
  {
    match e
    case ElectSend(_, _, token, reached) =>
      if reached then SetNx(c.keys, LOCK_KEY, token, LOCK_TTL_MS, e.at) else c.keys
    case RenewSend(_, id, reached) =>
      if reached && c.nodes[id].acquired then ExtendIfHeld(c.keys, LOCK_KEY, OwnToken(c.nodes[id]), LOCK_TTL_MS, e.at)
      else c.keys
    case StopSend(_, id, reached) =>
      var n := c.nodes[id];
      if reached && n.isLeader && n.token.Some? && n.acquired then DeleteIfHeld(c.keys, LOCK_KEY, OwnToken(n), e.at)
      else c.keys
    case _ => c.keys
  }

  /** A lock without the acquired flag answers false without sending a command. */
  function Stepped(c: Cluster, e: Event): Node
    requires Enabled(c, e)
  {
    if e.Join? then Node(true, false, false, None, None, false, None, None, [])
    else
      var n := c.nodes[e.node];
      match e
      case ElectSend(_, _, token, reached) =>
        var won := reached && !Live(c.keys, LOCK_KEY, e.at);
        n.(token := Some(token), acquired := false, grant := if won then Some(e.at) else None,
           electing := Some(Sent(token, won, if reached then Arrived else Vanished)))
      case ElectReply(_, _, lost) =>
        if !lost && n.electing.value.done then
          n.(electing := None, isLeader := true, renewing := true, acquired := true)
        else n.(electing := None)
      case RenewSend(_, _, reached) =>
        var held := reached && n.acquired && Holds(c.keys, LOCK_KEY, OwnToken(n), e.at);
        n.(grant := if held then Some(e.at) else n.grant,
           renewals := n.renewals + [Sent(OwnToken(n), held, WayOf(n.acquired, reached))])
      case RenewReply(_, _, which, lost) =>
        var sent := n.renewals[which];
        var m := n.(renewals := n.renewals[..which] + n.renewals[which + 1..]);
        if !lost && sent.done then m
        else m.(isLeader := false, renewing := false,
                acquired := if !lost && n.token == Some(sent.token) then false else n.acquired)
      case StopSend(_, _, reached) =>
        var m := n.(running := false, renewing := false);
        if n.isLeader && n.token.Some? then
          m.(resigning := Some(Sent(OwnToken(n), false, WayOf(n.acquired, reached))),
             grant := if reached && n.acquired then None else n.grant)
        else m
      case StopReply(_, _, lost) =>
        if lost then n.(resigning := None) else n.(resigning := None, isLeader := false, acquired := false)
      case _ => n
  }

  function Step(c: Cluster, e: Event): Cluster
    requires Enabled(c, e)
  {
    Cluster(e.at, Keys(c, e), if e.ElectSend? then c.tokens + {e.token} else c.tokens,
            if e.Crash? then c.nodes - {e.node} else c.nodes[e.node := Stepped(c, e)])
  }

  ghost predicate IsRun(c: Cluster, events: seq<Event>)
    decreases |events|
  {
    |events| == 0 || (Enabled(c, events[0]) && IsRun(Step(c, events[0]), events[1..]))
  }

  ghost function RunFrom(c: Cluster, events: seq<Event>): Cluster
    requires IsRun(c, events)
    decreases |events|
  {
    if |events| == 0 then c else RunFrom(Step(c, events[0]), events[1..])
  }

  /** Within the TTL, in Redis time, of its last successful acquire or extend. */
  predicate Current(n: Node, now: int) {
    n.grant.Some? && now < n.grant.value + LOCK_TTL_MS
  }

  ghost predicate TokenInv(c: Cluster) {
    && (forall i :: i in c.nodes && c.nodes[i].token.Some? ==> c.nodes[i].token.value in c.tokens)
    && (forall i, k :: i in c.nodes && k in c.nodes && i != k && c.nodes[i].token.Some? ==>
        c.nodes[i].token != c.nodes[k].token)
  }

  /** The key of a node whose last grant has not run out is in Redis under its token. */
  ghost predicate KeyHeld(c: Cluster, n: Node) {
    n.grant.Some? ==>
      && n.token.Some? && n.grant.value <= c.now
      && (Current(n, c.now) ==>
            && LOCK_KEY in c.keys && c.keys[LOCK_KEY].token == n.token.value
            && n.grant.value + LOCK_TTL_MS <= c.keys[LOCK_KEY].expiry)
  }

  /** A leader or candidate has a lock, and only a stopped node resigns. */
  predicate Sound(n: Node) {
    (n.isLeader || n.electing.Some? ==> n.token.Some?) && (n.running ==> n.resigning.None?)
  }

  ghost predicate ClusterInv(c: Cluster) {
    TokenInv(c) && forall i :: i in c.nodes ==> KeyHeld(c, c.nodes[i]) && Sound(c.nodes[i])
  }

  lemma KeyStep(c: Cluster, e: Event, i: NodeId)
    requires ClusterInv(c) && Enabled(c, e) && i in Step(c, e).nodes
    ensures KeyHeld(Step(c, e), Step(c, e).nodes[i]) && Sound(Step(c, e).nodes[i])
  {
    if i in c.nodes {
      assert KeyHeld(c, c.nodes[i]);
    }
    if e.node in c.nodes {
      assert KeyHeld(c, c.nodes[e.node]);
    }
  }

  lemma TokenStep(c: Cluster, e: Event)
    requires ClusterInv(c) && Enabled(c, e)
    ensures TokenInv(Step(c, e))
  {
    var n := Stepped(c, e);
    assert n.token.Some? ==>
      if e.ElectSend? then n.token.value == e.token else e.node in c.nodes && n.token == c.nodes[e.node].token;
  }

  lemma ClusterStep(c: Cluster, e: Event)
    requires ClusterInv(c) && Enabled(c, e)
    ensures ClusterInv(Step(c, e))
  {
    TokenStep(c, e);
    forall i | i in Step(c, e).nodes
      ensures KeyHeld(Step(c, e), Step(c, e).nodes[i]) && Sound(Step(c, e).nodes[i])
    {
      KeyStep(c, e, i);
    }
  }

  lemma {:induction false} ClusterHolds(c: Cluster, events: seq<Event>)
    requires ClusterInv(c) && IsRun(c, events)
    ensures ClusterInv(RunFrom(c, events))
    decreases |events|
  {
    if |events| > 0 {
      ClusterStep(c, events[0]);
      ClusterHolds(Step(c, events[0]), events[1..]);
    }
  }

  /** In every reachable state at most one node counts itself leader within the TTL of its last
      successful acquire or extend, however replies, resignations and crashes interleave. */
  lemma OneTimedLeader(events: seq<Event>, i: NodeId, k: NodeId)
    requires var start := Cluster(0, map[], {}, map[]);
             && IsRun(start, events)
             && var c := RunFrom(start, events);
                && i in c.nodes && k in c.nodes && c.nodes[i].isLeader && c.nodes[k].isLeader
                && Current(c.nodes[i], c.now) && Current(c.nodes[k], c.now)
    ensures i == k
  {
    var start := Cluster(0, map[], {}, map[]);
    ClusterHolds(start, events);
    var c := RunFrom(start, events);
    assert KeyHeld(c, c.nodes[i]) && KeyHeld(c, c.nodes[k]);
  }

  /** No node, resigning, deposed or late, removes or renews the live key of another node. */
  lemma SuccessorKeepsItsKey(events: seq<Event>, e: Event, successor: NodeId)
    requires var start := Cluster(0, map[], {}, map[]);
             && IsRun(start, events)
             && var c := RunFrom(start, events);
                && Enabled(c, e) && successor in c.nodes && e.node != successor
                && c.nodes[successor].token.Some? && Holds(c.keys, LOCK_KEY, c.nodes[successor].token.value, e.at)
    ensures var c := RunFrom(Cluster(0, map[], {}, map[]), events);
            LOCK_KEY in Step(c, e).keys && Step(c, e).keys[LOCK_KEY] == c.keys[LOCK_KEY]
  {
    ClusterHolds(Cluster(0, map[], {}, map[]), events);
  }

  // ----- a call and its reply are the method of the object -----

  /** The command of a call reached Redis, when its outcome is `lost`. */
  predicate Gets(lost: Option<bool>) {
    lost != Some(false)
  }

  /** An election call and its reply do in the cluster what Election.RunElection ensures for a running
      candidate, for every outcome of the call. */
  lemma ElectionIsRunElection(c: Cluster, node: NodeId, token: nat, at: int, back: int, lost: Option<bool>)
    requires ClusterInv(c) && Enabled(c, ElectSend(at, node, token, Gets(lost))) && at <= back
    ensures var sent := Step(c, ElectSend(at, node, token, Gets(lost)));
            && Enabled(sent, ElectReply(back, node, lost.Some?))
            && var after := Step(sent, ElectReply(back, node, lost.Some?));
               var became := lost.None? && !Live(c.keys, LOCK_KEY, at);
               && node in after.nodes && after.nodes[node].token == Some(token)
               && after.nodes[node].isLeader == became == after.nodes[node].acquired
               && after.nodes[node].renewing == (became || c.nodes[node].renewing)
               && after.keys == (if Took(ReplyOf(!Live(c.keys, LOCK_KEY, at), lost))
                                 then SetNx(c.keys, LOCK_KEY, token, LOCK_TTL_MS, at) else c.keys)
               && (became ==> after.nodes[node].grant == Some(at) && Holds(after.keys, LOCK_KEY, token, at))
  {
  }

  /** A renewal and its reply do what Election.Renew ensures for a running leader; an extend that took
      effect moves the grant. */
  lemma RenewalIsRenew(c: Cluster, node: NodeId, at: int, back: int, lost: Option<bool>)
    requires ClusterInv(c) && Enabled(c, RenewSend(at, node, Gets(lost))) && at <= back
    ensures var was := c.nodes[node];
            var sent := Step(c, RenewSend(at, node, Gets(lost)));
            var reply := RenewReply(back, node, |was.renewals|, was.acquired && lost.Some?);
            var held := was.acquired && Holds(c.keys, LOCK_KEY, OwnToken(was), at);
            && Enabled(sent, reply)
            && var after := Step(sent, reply);
               && after.nodes[node].isLeader == after.nodes[node].renewing == (lost.None? && held)
               && after.nodes[node].acquired == (was.acquired && (lost.Some? || held))
               && after.nodes[node].token == was.token && after.nodes[node].renewals == was.renewals
               && after.nodes[node].grant == (if held && Gets(lost) then Some(at) else was.grant)
               && after.keys == (if was.acquired && Took(ReplyOf(held, lost))
                                 then ExtendIfHeld(c.keys, LOCK_KEY, OwnToken(was), LOCK_TTL_MS, at) else c.keys)
  {
  }

  /** A stop, and its reply if it sent a call, do what Election.Stop ensures. */
  lemma ResignationIsStop(c: Cluster, node: NodeId, at: int, back: int, lost: Option<bool>)
    requires ClusterInv(c) && Enabled(c, StopSend(at, node, Gets(lost))) && at <= back
    ensures var was := c.nodes[node];
            var sent := Step(c, StopSend(at, node, Gets(lost)));
            var reply := StopReply(back, node, was.acquired && lost.Some?);
            var held := Holds(c.keys, LOCK_KEY, OwnToken(was), at);
            && (was.isLeader <==> Enabled(sent, reply))
            && var after := if was.isLeader then Step(sent, reply) else sent;
               && !after.nodes[node].running && !after.nodes[node].renewing && after.nodes[node].token == was.token
               && after.nodes[node].isLeader == (was.isLeader && was.acquired && lost.Some?)
               && after.keys == (if was.isLeader && was.acquired && Took(ReplyOf(held, lost))
                                 then DeleteIfHeld(c.keys, LOCK_KEY, OwnToken(was), at) else c.keys)
  {
  }

  /** A node that joins and tries while no live key is there becomes the leader: the key expires with a
      crashed leader, and nothing else is needed. */
  lemma FreeKeyIsWon(c: Cluster, node: NodeId, token: nat, at: int, back: int) returns (events: seq<Event>)
    requires ClusterInv(c) && c.now <= at <= back && node !in c.nodes && token !in c.tokens
    requires !Live(c.keys, LOCK_KEY, at)
    ensures IsRun(c, events)
    ensures var after := RunFrom(c, events);
            && node in after.nodes && after.nodes[node].isLeader && after.nodes[node].token == Some(token)
            && Holds(after.keys, LOCK_KEY, token, at)
            && (Current(after.nodes[node], after.now) <==> back < at + LOCK_TTL_MS)
  {
    hide Step;
    events := [Join(at, node), ElectSend(at, node, token, true), ElectReply(back, node, false)];
    Joins(c, node, at);
    var joined := Step(c, events[0]);
    ClusterStep(c, events[0]);
    ElectionIsRunElection(joined, node, token, at, back, None);
    var sent := Step(joined, events[1]);
    OneEvent(sent, events[2], []);
    OneEvent(joined, events[1], [events[2]]);
    OneEvent(c, events[0], [events[1], events[2]]);
    assert events == [events[0]] + [events[1], events[2]] && [events[1], events[2]] == [events[1]] + [events[2]];
    assert [events[2]] == [events[2]] + [];
  }

  lemma Joins(c: Cluster, node: NodeId, at: int)
    requires Enabled(c, Join(at, node))
    ensures var d := Step(c, Join(at, node));
            && d.now == at && d.keys == c.keys && d.tokens == c.tokens && node in d.nodes
            && var n := d.nodes[node]; n.running && !n.isLeader && !n.renewing && n.electing.None? && n.token.None?
  {
  }

  lemma OneEvent(c: Cluster, e: Event, rest: seq<Event>)
    requires Enabled(c, e) && IsRun(Step(c, e), rest)
    ensures IsRun(c, [e] + rest) && RunFrom(c, [e] + rest) == RunFrom(Step(c, e), rest)
    ensures Step(c, e).now == e.at
  {
    assert ([e] + rest)[1..] == rest;
  }

  /** The node does not join in these events. */
  ghost predicate StaysOut(events: seq<Event>, node: NodeId) {
    forall i :: 0 <= i < |events| ==> !(events[i].Join? && events[i].node == node)
  }

  /** A crash leaves the key to expire, and its node is gone until it joins again: it leads nothing, and none of
      its calls or late replies takes place. */
  lemma CrashedNodeIsGone(c: Cluster, e: Event, events: seq<Event>)
    requires Enabled(c, e) && e.Crash? && IsRun(Step(c, e), events) && StaysOut(events, e.node)
    ensures Step(c, e).keys == c.keys && e.node !in RunFrom(Step(c, e), events).nodes
    ensures forall i :: 0 <= i < |events| ==> events[i].node != e.node
  {
    AbsentStaysAbsent(Step(c, e), events, e.node);
  }

  lemma {:induction false} AbsentStaysAbsent(c: Cluster, events: seq<Event>, node: NodeId)
    requires IsRun(c, events) && node !in c.nodes && StaysOut(events, node)
    ensures node !in RunFrom(c, events).nodes && forall i :: 0 <= i < |events| ==> events[i].node != node
    decreases |events|
  {
    hide Step, Keys, Stepped;
    if |events| > 0 {
      OnlyJoinsAdd(c, events[0], node);
      AbsentStaysAbsent(Step(c, events[0]), events[1..], node);
    }
  }

  lemma OnlyJoinsAdd(c: Cluster, e: Event, node: NodeId)
    requires Enabled(c, e) && node !in c.nodes && !(e.Join? && e.node == node)
    ensures node !in Step(c, e).nodes && e.node != node
  {
  }
}
