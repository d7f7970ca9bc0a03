// src/lib/stream-manager.js: the consumer-group bookkeeping in Redis and the flat field lists on the wire.
module Streams {
  import opened Base
  import opened ConsumerGroup
  import opened JobRows
  import opened JsText

  type Data = map<string, string>

  // ----- entries on the wire -----

  /** n.toString() */
  function ShowInt(n: int): string {
    if n < 0 then "-" + Show(-n) else Show(n)
  }

  lemma ParseNegative(n: int)
    requires n < 0
    ensures ParseInt("-" + Show(-n)) == Some(n)
  {
    ParseMinus(Numeral(0, -n), "");
    assert Written(Numeral(0, -n)) + "" == Show(-n);
  }

  lemma ParseShownInt(n: int)
    ensures ParseInt(ShowInt(n)) == Some(n)
  {
    hide ParseInt, Show;
    if n < 0 {
      ParseNegative(n);
    } else {
      ParseShown(n);
    }
  }

  /** The fields publish adds, as key-value pairs. */
  function JobFields(id: JobId, job: Job, enqueuedAt: string): seq<(string, string)> {
    [("jobId", id), ("handlerName", job.handlerName), ("payload", job.payload),
     ("attempt", ShowInt(job.retryCount + 1)), ("maxRetries", ShowInt(job.maxRetries)), ("enqueuedAt", enqueuedAt)]
  }

  /** a || b for strings; an absent field is undefined. */
  function OrElse(data: Data, key: string, otherwise: string): string {
    if key in data && data[key] != "" then data[key] else otherwise
  }

  /** The fields sendToDLQ adds for the data of a message. */
  function DlqFields(data: Data, errorMessage: string, errorStack: string, failedAt: string): seq<(string, string)> {
    [("jobId", OrElse(data, "jobId", "")), ("handlerName", OrElse(data, "handlerName", "")),
     ("payload", OrElse(data, "payload", "")),
     ("errorMessage", if errorMessage == "" then "Unknown error" else errorMessage), ("errorStack", errorStack),
     ("attempt", OrElse(data, "attempt", "0")), ("failedAt", failedAt)]
  }

  /** The argument list of XADD: keys and values alternating. */
  function Flatten(pairs: seq<(string, string)>): (fields: seq<string>)
    ensures |fields| == 2 * |pairs|
  {
    if pairs == [] then [] else Flatten(pairs[..|pairs| - 1]) + [pairs[|pairs| - 1].0, pairs[|pairs| - 1].1]
  }

  /** What the decode loop builds; a repeated key keeps its last value. */
  function Decode(fields: seq<string>): Data
    requires |fields| % 2 == 0
  {
    if fields == [] then map[]
    else Decode(fields[..|fields| - 2])[fields[|fields| - 2] := fields[|fields| - 1]]
  }

  /** The key-value list as a map. */
  ghost predicate IsRecord(data: Data, pairs: seq<(string, string)>) {
    && (forall i :: 0 <= i < |pairs| ==> pairs[i].0 in data && data[pairs[i].0] == pairs[i].1)
    && (forall k :: k in data ==> exists i :: 0 <= i < |pairs| && pairs[i].0 == k)
  }

  ghost predicate DistinctKeys(pairs: seq<(string, string)>) {
    forall i, k :: 0 <= i < k < |pairs| ==> pairs[i].0 != pairs[k].0
  }

  lemma RecordAppend(data: Data, pairs: seq<(string, string)>, key: string, value: string)
    requires IsRecord(data, pairs) && forall i :: 0 <= i < |pairs| ==> pairs[i].0 != key
    ensures IsRecord(data[key := value], pairs + [(key, value)])
  {
    var longer := pairs + [(key, value)];
    assert longer[|pairs|] == (key, value);
    var grown := data[key := value];
    forall k | k in grown
      ensures exists i :: 0 <= i < |longer| && longer[i].0 == k
    {
      if k != key {
        var i :| 0 <= i < |pairs| && pairs[i].0 == k;
        assert longer[i].0 == k;
      }
    }
  }

  /** Decoding undoes flattening: every key has its own value and there are no others. */
  lemma {:induction false} DecodeFlattened(pairs: seq<(string, string)>)
    requires DistinctKeys(pairs)
    ensures IsRecord(Decode(Flatten(pairs)), pairs)
  {
    hide IsRecord;
    if pairs == [] {
      assert IsRecord(map[], []) by { EmptyRecord(); }
    } else {
      var front, last := pairs[..|pairs| - 1], pairs[|pairs| - 1];
      DecodeFlattened(front);
      assert Flatten(pairs)[..|Flatten(pairs)| - 2] == Flatten(front);
      RecordAppend(Decode(Flatten(front)), front, last.0, last.1);
      assert front + [(last.0, last.1)] == pairs;
    }
  }

  /** Of a repeated key the last value counts, whatever comes before it. */
  lemma LaterFieldWins(fields: seq<string>, key: string, value: string, other: string)
    requires |fields| % 2 == 0
    ensures var data := Decode(fields + [key, value]);
            key in data && data[key] == value && (other != key && other in Decode(fields) ==>
              other in data && data[other] == Decode(fields)[other])
  {
    var longer := fields + [key, value];
    assert longer[..|longer| - 2] == fields;
  }

  lemma EmptyRecord()
    ensures IsRecord(map[], [])
  {
  }

  lemma JobKeysDiffer(id: JobId, job: Job, at: string)
    ensures DistinctKeys(JobFields(id, job, at))
  {
    assert "handlerName"[0] == 'h' && "payload"[0] == 'p' && "attempt"[0] == 'a' && "maxRetries"[0] == 'm';
  }

  lemma DlqKeysDiffer(data: Data, message: string, stack: string, at: string)
    ensures DistinctKeys(DlqFields(data, message, stack, at))
  {
    assert "errorMessage"[5] == 'M' && "errorStack"[5] == 'S' && "handlerName"[0] == 'h' && "payload"[0] == 'p';
    assert "attempt"[0] == 'a' && "failedAt"[0] == 'f';
  }

  /** A consumed message carries the published job: its id, handler and payload as they were, attempt
      number retry_count + 1 and the row's max_retries. */
  lemma PublishedJobIsRead(id: JobId, job: Job, enqueuedAt: string)
    ensures var data := Decode(Flatten(JobFields(id, job, enqueuedAt)));
            && data.Keys == {"jobId", "handlerName", "payload", "attempt", "maxRetries", "enqueuedAt"}
            && data["jobId"] == id && data["handlerName"] == job.handlerName && data["payload"] == job.payload
            && ParseInt(data["attempt"]) == Some(job.retryCount + 1)
            && ParseInt(data["maxRetries"]) == Some(job.maxRetries) && data["enqueuedAt"] == enqueuedAt
  {
    hide Decode, Flatten, ShowInt, ParseInt, DistinctKeys;
    var pairs := JobFields(id, job, enqueuedAt);
    JobKeysDiffer(id, job, enqueuedAt);
    DecodeFlattened(pairs);
    ParseShownInt(job.retryCount + 1);
    ParseShownInt(job.maxRetries);
    assert pairs[0].0 == "jobId" && pairs[1].0 == "handlerName" && pairs[2].0 == "payload";
    assert pairs[3].0 == "attempt" && pairs[4].0 == "maxRetries" && pairs[5].0 == "enqueuedAt";
  }

  /** The fields of a dead letter entry, read back. */
  ghost predicate IsDeadLetter(dead: Data, data: Data, errorMessage: string, errorStack: string, failedAt: string) {
    && dead.Keys == {"jobId", "handlerName", "payload", "attempt", "errorMessage", "errorStack", "failedAt"}
    && dead["jobId"] == (if "jobId" in data then data["jobId"] else "")
    && dead["handlerName"] == (if "handlerName" in data then data["handlerName"] else "")
    && dead["payload"] == (if "payload" in data then data["payload"] else "")
    && dead["attempt"] == (if "attempt" in data && data["attempt"] != "" then data["attempt"] else "0")
    && dead["errorMessage"] == (if errorMessage == "" then "Unknown error" else errorMessage)
    && dead["errorStack"] == errorStack && dead["failedAt"] == failedAt
  }

  lemma DeadLetterIsRead(data: Data, message: string, stack: string, failedAt: string)
    ensures IsDeadLetter(Decode(Flatten(DlqFields(data, message, stack, failedAt))), data, message, stack, failedAt)
  {
    hide Decode, Flatten, DistinctKeys;
    var pairs := DlqFields(data, message, stack, failedAt);
    DlqKeysDiffer(data, message, stack, failedAt);
    DecodeFlattened(pairs);
    assert pairs[0].0 == "jobId" && pairs[1].0 == "handlerName" && pairs[2].0 == "payload";
    assert pairs[3].0 == "errorMessage" && pairs[4].0 == "errorStack" && pairs[5].0 == "attempt";
    assert pairs[6].0 == "failedAt";
  }

  /** The dead letter entry of a consumed message keeps the job, handler, payload and attempt number. */
  lemma DeadLetterKeepsMessage(id: JobId, job: Job, at: string, message: string, stack: string, failedAt: string)
    ensures var data := Decode(Flatten(JobFields(id, job, at)));
            var dead := Decode(Flatten(DlqFields(data, message, stack, failedAt)));
            && {"jobId", "handlerName", "payload", "attempt", "errorMessage"} <= dead.Keys
            && dead["jobId"] == id && dead["handlerName"] == job.handlerName && dead["payload"] == job.payload
            && ParseInt(dead["attempt"]) == Some(job.retryCount + 1) && dead["errorMessage"] != ""
  {
    hide Decode, Flatten, ParseInt, JobFields, DlqFields;
    var data := Decode(Flatten(JobFields(id, job, at)));
    PublishedJobIsRead(id, job, at);
    DeadLetterIsRead(data, message, stack, failedAt);
    assert data["attempt"] != "" by {
      NoNumberInNothing();
    }
  }

  lemma NoNumberInNothing()
    ensures ParseInt("") == None
  {
  }

  method DecodeFields(fields: seq<string>) returns (data: Data)
    requires |fields| % 2 == 0
    ensures data == Decode(fields)
  {
    data := map[];
    var i := 0;
    while i < |fields|
      invariant 0 <= i <= |fields| && i % 2 == 0
      invariant data == Decode(fields[..i])
    {
      assert fields[..i + 2][..i] == fields[..i];
      data := data[fields[i] := fields[i + 1]];
      i := i + 2;
    }
    assert fields[..i] == fields;
  }

  // ----- the consumer group -----

  /** A pending entry: who has it, and since when. */
  datatype Claim = Claim(consumer: WorkerId, since: int)

  /** The job stream with its group and the dead letter stream, in Redis. An entry's id is its position. */
  class Redis {
    var entries: seq<seq<string>>
    var group: bool
    var dlqGroup: bool
    var delivered: nat
    var pending: map<nat, Claim>
    var acked: set<nat>
    var dlq: seq<seq<string>>

    /** Every entry is in exactly one place: not delivered, pending with one consumer, or acknowledged. A
        group that does not exist, or was lost, has no position and nothing pending or acknowledged. */
    ghost predicate Valid()
      reads this
    {
      && Partition(|entries|, delivered, pending, acked)
      && (!group ==> delivered == 0 && pending == map[] && acked == {})
      && (forall m :: 0 <= m < |entries| ==> |entries[m]| % 2 == 0)
    }

    constructor ()
      ensures Valid() && entries == [] && !group && !dlqGroup && delivered == 0 && pending == map[]
      ensures acked == {} && dlq == []
    {
      entries, group, dlqGroup, delivered, pending, acked, dlq := [], false, false, 0, map[], {}, [];
    }
  }

  datatype Message = Message(messageId: nat, data: Data)

  /** Entry idle for at least this long. */
  predicate Stale(pending: map<nat, Claim>, m: nat, now: int, minIdleMs: int) {
    m in pending && now - pending[m].since >= minIdleMs
  }

  /** XAUTOCLAIM from 0-0 with COUNT: the first stale entries in id order, as many as allowed. */
  ghost predicate IsClaim(pending: map<nat, Claim>, ids: seq<nat>, below: nat, now: int, minIdleMs: int, count: nat) {
    && |ids| <= count
    && (forall i :: 0 <= i < |ids| ==> ids[i] < below && Stale(pending, ids[i], now, minIdleMs))
    && (forall i, k :: 0 <= i < k < |ids| ==> ids[i] < ids[k])
    && (forall m: nat :: m < below && Stale(pending, m, now, minIdleMs) && m !in ids ==>
          |ids| == count && forall i :: 0 <= i < |ids| ==> ids[i] < m)
  }

  /** The messages of some entries, as handed to the caller. */
  ghost predicate Carry(messages: seq<Message>, ids: seq<nat>, entries: seq<seq<string>>) {
    && |messages| == |ids|
    && forall i :: 0 <= i < |ids| ==>
        && messages[i].messageId == ids[i] && ids[i] < |entries| && |entries[ids[i]]| % 2 == 0
        && messages[i].data == Decode(entries[ids[i]])
  }

  function Smaller(a: nat, b: nat): nat {
    if b < a then b else a
  }

  function Range(from: nat, count: nat): seq<nat> {
    seq(count, i requires i >= 0 => from + i)
  }

  lemma CarryAppend(messages: seq<Message>, ids: seq<nat>, entries: seq<seq<string>>, id: nat)
    requires Carry(messages, ids, entries) && id < |entries| && |entries[id]| % 2 == 0
    ensures Carry(messages + [Message(id, Decode(entries[id]))], ids + [id], entries)
  {
  }

  /** The claim grows by the next entry exactly when that entry is stale. */
  lemma ClaimAppend(pending: map<nat, Claim>, ids: seq<nat>, m: nat, now: int, minIdleMs: int, count: nat)
    requires IsClaim(pending, ids, m, now, minIdleMs, count) && |ids| < count
    ensures IsClaim(pending, if Stale(pending, m, now, minIdleMs) then ids + [m] else ids, m + 1, now, minIdleMs, count)
  {
    var longer := ids + [m];
    assert forall i :: 0 <= i < |ids| ==> longer[i] == ids[i];
    assert m in longer;
    assert forall k :: k in ids ==> k in longer;
  }

  lemma StartClaim(pending: map<nat, Claim>, now: int, minIdleMs: int, count: nat)
    ensures IsClaim(pending, [], 0, now, minIdleMs, count)
  {
  }

  lemma NothingCarried(entries: seq<seq<string>>)
    ensures Carry([], [], entries)
  {
  }

  lemma FullClaim(pending: map<nat, Claim>, ids: seq<nat>, m: nat, below: nat, now: int, minIdleMs: int, count: nat)
    requires IsClaim(pending, ids, m, now, minIdleMs, count) && |ids| == count && m <= below
    ensures IsClaim(pending, ids, below, now, minIdleMs, count)
  {
  }

  /** The entries claimed have been idle long enough, and all such are claimed unless the limit is reached. */
  lemma ClaimIsIdle(pending: map<nat, Claim>, ids: seq<nat>, below: nat, now: int, minIdleMs: int, count: nat)
    requires IsClaim(pending, ids, below, now, minIdleMs, count) && forall m :: m in pending ==> m < below
    ensures forall m :: m in ids ==> m in pending && now - pending[m].since >= minIdleMs
    ensures |ids| < count ==> forall m :: m in pending && now - pending[m].since >= minIdleMs ==> m in ids
  {
  }

  class StreamManager {
    const redis: Redis
    var initialized: bool

    constructor (redis: Redis)
      ensures this.redis == redis && !initialized
    {
      this.redis := redis;
      initialized := false;
    }

    /** Creates both groups at the start of their streams, to deliver every entry, also those a lost group
        had delivered; a group that exists (BUSYGROUP) keeps its position, its pending entries and its
        acknowledgements. */
    method Initialize()
      requires redis.Valid()
      modifies this, redis`group, redis`dlqGroup
      ensures redis.Valid() && initialized
      ensures redis.group == (old(redis.group) || !old(initialized))
      ensures redis.dlqGroup == (old(redis.dlqGroup) || !old(initialized))
      ensures !old(redis.group) ==> redis.delivered == 0 && redis.pending == map[] && redis.acked == {}
    {
      if initialized {
        return;
      }
      redis.group := true;
      redis.dlqGroup := true;
      initialized := true;
    }

    method Publish(id: JobId, job: Job, enqueuedAt: string) returns (messageId: nat)
      requires redis.Valid()
      modifies redis`entries
      ensures redis.Valid() && messageId == |old(redis.entries)|
      ensures redis.entries == old(redis.entries) + [Flatten(JobFields(id, job, enqueuedAt))]
    {
      messageId := |redis.entries|;
      redis.entries := redis.entries + [Flatten(JobFields(id, job, enqueuedAt))];
    }

    /** Hands over the next undelivered entries, at most `count`, each now pending with this consumer.
        Without a group it only calls initialize, which creates the group, at the first entry with nothing
        pending, on the first call and never again: a group lost after that is not recreated. */
    method Consume(consumer: WorkerId, count: nat, now: int) returns (messages: seq<Message>)
      requires redis.Valid()
      modifies this, redis`group, redis`dlqGroup, redis`delivered, redis`pending
      ensures redis.Valid()
      ensures !old(redis.group) ==>
                && messages == [] && redis.group == !old(initialized)
                && redis.delivered == 0 && redis.pending == map[] && redis.acked == {}
      ensures old(redis.group) ==>
                && redis.group && redis.dlqGroup == old(redis.dlqGroup) && initialized == old(initialized)
                && redis.delivered == old(redis.delivered) + Smaller(count, |redis.entries| - old(redis.delivered))
                && Carry(messages, Range(old(redis.delivered), redis.delivered - old(redis.delivered)), redis.entries)
                && forall m: nat :: m in redis.pending <==>
                    m in old(redis.pending) || old(redis.delivered) <= m < redis.delivered
      ensures forall m :: m in redis.pending ==>
                redis.pending[m] ==
                if m < old(redis.delivered) && m in old(redis.pending) then old(redis.pending)[m]
                else Claim(consumer, now)
    {
      hide Carry;
      messages := [];
      if !redis.group {
        Initialize();
        return;
      }
      ghost var first := redis.delivered;
      NothingCarried(redis.entries);
      assert Range(first, 0) == [];
      while |messages| < count && redis.delivered < |redis.entries|
        invariant redis.Valid() && redis.group && redis.dlqGroup == old(redis.dlqGroup)
        invariant initialized == old(initialized)
        invariant |messages| <= count && first + |messages| == redis.delivered
        invariant Carry(messages, Range(first, |messages|), redis.entries)
        invariant forall m: nat :: m in redis.pending <==> m in old(redis.pending) || first <= m < redis.delivered
        invariant forall m :: m in redis.pending ==>
                    redis.pending[m] ==
                    if m < first && m in old(redis.pending) then old(redis.pending)[m] else Claim(consumer, now)
        decreases count - |messages|
      {
        var id := redis.delivered;
        var data := DecodeFields(redis.entries[id]);
        CarryAppend(messages, Range(first, |messages|), redis.entries, id);
        assert Range(first, |messages|) + [id] == Range(first, |messages| + 1);
        messages := messages + [Message(id, data)];
        redis.pending := Handed(redis.pending, id, Claim(consumer, now));
        redis.delivered := id + 1;
      }
    }

    /** XACK: a pending entry becomes acknowledged; any other id changes nothing. */
    method Acknowledge(messageId: nat)
      requires redis.Valid()
      modifies redis`pending, redis`acked
      ensures redis.Valid()
      ensures redis.pending == old(redis.pending) - {messageId}
      ensures redis.acked ==
              if messageId in old(redis.pending) then old(redis.acked) + {messageId} else old(redis.acked)
    {
      if messageId in redis.pending {
        redis.acked := AckedWith(redis.pending, redis.acked, messageId);
        redis.pending := Remaining(redis.pending, messageId);
      }
    }

    /** The new last entry reads back as the message's job, handler, payload and attempt, with the error. */
    method SendToDLQ(data: Data, errorMessage: string, errorStack: string, failedAt: string)
      modifies redis`dlq
      ensures |redis.dlq| == |old(redis.dlq)| + 1 && redis.dlq[..|old(redis.dlq)|] == old(redis.dlq)
      ensures var last := redis.dlq[|old(redis.dlq)|];
              |last| % 2 == 0 && IsDeadLetter(Decode(last), data, errorMessage, errorStack, failedAt)
    {
      DeadLetterIsRead(data, errorMessage, errorStack, failedAt);
      redis.dlq := redis.dlq + [Flatten(DlqFields(data, errorMessage, errorStack, failedAt))];
    }

    /** Moves the first stale pending entries, at most ten, to the claiming consumer; every entry stays
        pending, and no other claim changes. */
    method ReclaimStale(
        claimingConsumer: WorkerId, minIdleMs: int, now: int) returns (messages: seq<Message>, ghost ids: seq<nat>)
      requires redis.Valid()
      modifies redis`pending
      ensures redis.Valid() && redis.pending.Keys == old(redis.pending).Keys
      ensures IsClaim(old(redis.pending), ids, redis.delivered, now, minIdleMs, 10)
      ensures forall m :: m in ids ==> m in old(redis.pending) && now - old(redis.pending)[m].since >= minIdleMs
      ensures |ids| < 10 ==>
                forall m :: m in redis.pending && now - old(redis.pending)[m].since >= minIdleMs ==> m in ids
      ensures Carry(messages, ids, redis.entries)
      ensures forall m :: m in redis.pending ==>
                redis.pending[m] == if m in ids then Claim(claimingConsumer, now) else old(redis.pending)[m]
    {
      hide IsClaim, Carry;
      StartClaim(redis.pending, now, minIdleMs, 10);
      NothingCarried(redis.entries);
      messages, ids := [], [];
      var before, claims := redis.pending, redis.pending;
      var m := 0;
      while m < redis.delivered && |messages| < 10
        invariant m <= redis.delivered && |messages| == |ids| <= 10 && claims.Keys == before.Keys
        invariant IsClaim(before, ids, m, now, minIdleMs, 10) && Carry(messages, ids, redis.entries)
        invariant forall k :: k in ids ==> k < m
        invariant forall k :: k in claims ==>
                    claims[k] == if k in ids then Claim(claimingConsumer, now) else before[k]
      {
        ClaimAppend(before, ids, m, now, minIdleMs, 10);
        if m in before && now - before[m].since >= minIdleMs {
          CarryAppend(messages, ids, redis.entries, m);
          var data := DecodeFields(redis.entries[m]);
          messages := messages + [Message(m, data)];
          claims := Handed(claims, m, Claim(claimingConsumer, now));
          ids := ids + [m];
        }
        m := m + 1;
      }
      if m < redis.delivered {
        FullClaim(before, ids, m, redis.delivered, now, minIdleMs, 10);
      }
      assert forall k :: k in claims <==> k in before;
      ClaimIsIdle(before, ids, redis.delivered, now, minIdleMs, 10);
      redis.pending := claims;
    }
  }
}
