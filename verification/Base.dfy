// Types shared by the whole model, counting by matching, and the uniqueness of quotient and remainder.
module Base {

  datatype Option<+T> = None | Some(value: T)

  type JobId = string
  type WorkerId = string

  /** How an awaited call ends. `Returned(yes)` hands the caller the value its code branches on.
      `Lost(applied)` is a rejected promise: the command may or may not have taken effect. */
  datatype Reply = Returned(yes: bool) | Lost(applied: bool)

  /** The command behind an awaited call took effect. */
  predicate Took(r: Reply) {
    r == Returned(true) || r == Lost(true)
  }

  /** The reply of a call that succeeds exactly when `possible`. `lost` says that its reply is lost, and
      whether the command reached the server all the same. */
  function ReplyOf(possible: bool, lost: Option<bool>): Reply {
    match lost
    case None => Returned(possible)
    case Some(reached) => Lost(reached && possible)
  }

  /** Nothing but the row of `id` differs between two tables. */
  ghost predicate OnlyRow<K, V>(before: map<K, V>, after: map<K, V>, id: K) {
    after.Keys == before.Keys && forall k :: k in before && k != id ==> after[k] == before[k]
  }

  /** When every member of `a` is related to some member of `b`, and no two to the same one, `a` is
      no larger than `b`. */
  lemma {:induction false} MatchingBoundsSize<T(!new), U(!new)>(a: set<T>, b: set<U>, related: (T, U) -> bool)
    requires forall x :: x in a ==> exists y :: y in b && related(x, y)
    requires forall w, x, y :: w in a && x in a && y in b && related(w, y) && related(x, y) ==> w == x
    ensures |a| <= |b|
  {
    if a != {} {
      var x :| x in a;
      var y :| y in b && related(x, y);
      MatchingBoundsSize(a - {x}, b - {y}, related);
    }
  }

  /** Members of `a` related to nothing in `b`. */
  ghost function Unmatched<T(!new), U(!new)>(a: set<T>, b: set<U>, related: (T, U) -> bool): set<T> {
    set x | x in a && forall y :: y in b ==> !related(x, y)
  }

  /** When the relation is one to one and covers `b`, the sizes differ by what is unmatched. */
  lemma UnmatchedIsTheGap<T(!new), U(!new)>(a: set<T>, b: set<U>, related: (T, U) -> bool)
    requires forall y :: y in b ==> exists x :: x in a && related(x, y)
    requires forall w, x, y :: w in a && x in a && y in b && related(w, y) && related(x, y) ==> w == x
    requires forall x, y, z :: x in a && y in b && z in b && related(x, y) && related(x, z) ==> y == z
    ensures |a| == |b| + |Unmatched(a, b, related)|
  {
    var rest := Unmatched(a, b, related);
    var matched := a - rest;
    MatchingBoundsSize(matched, b, related);
    forall y | y in b
      ensures exists x :: x in matched && related(x, y)
    {
      var x :| x in a && related(x, y);
      assert x in matched;
    }
    MatchingBoundsSize(b, matched, (y, x) => related(x, y));
    assert rest <= a;
    assert |matched| == |a| - |rest|;
  }

  lemma Quotient(a: int, d: int, q: int, r: int)
    requires 0 <= r < d && a == q * d + r
    ensures a / d == q && a % d == r
  {
    var x := q - a / d;
    assert x * d == q * d - (a / d) * d;
    SmallMultiple(x, d);
  }

  lemma SmallMultiple(x: int, d: int)
    requires 1 <= d && -d < x * d < d
    ensures x == 0
  {
    if x >= 1 {
      AtLeastOnce(x, d);
    } else if x <= -1 {
      AtLeastOnce(-x, d);
    }
  }

  lemma AtLeastOnce(x: int, d: int)
    requires 1 <= x && 1 <= d
    ensures x * d >= d
  {
    assert (x - 1) * d >= 0;
  }
}
