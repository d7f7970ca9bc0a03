// The bookkeeping of a Redis consumer group, each command one atomic step: which entries have been
// delivered, who has the pending ones, and which are acknowledged. `Claim` is what a pending entry records.
module ConsumerGroup {

  /** Every entry is in exactly one place: not delivered, pending with one claim, or acknowledged. */
  ghost predicate Partition<Claim>(entries: nat, delivered: nat, pending: map<nat, Claim>, acked: set<nat>) {
    && delivered <= entries
    && (forall m :: m in pending ==> m < delivered && m !in acked)
    && (forall m :: m in acked ==> m < delivered)
    && (forall m: nat :: m < delivered ==> m in pending || m in acked)
  }

  /** XREADGROUP hands out the next entry; XCLAIM hands a pending one to somebody else. */
  function Handed<Claim>(pending: map<nat, Claim>, entry: nat, claim: Claim): map<nat, Claim> {
    pending[entry := claim]
  }

  /** XACK */
  function Remaining<Claim>(pending: map<nat, Claim>, entry: nat): map<nat, Claim> {
    pending - {entry}
  }

  function AckedWith<Claim>(pending: map<nat, Claim>, acked: set<nat>, entry: nat): set<nat> {
    if entry in pending then acked + {entry} else acked
  }
}
