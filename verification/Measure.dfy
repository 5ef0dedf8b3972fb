/** Integer arithmetic and lengths of time.  A span is a half-open interval [from, to) of integer instants, and a
    duration is the number of instants it holds; `Count` measures arbitrary sets of instants. */
module Measure {
  function Max(x: int, y: int): int {
    if x < y then y else x
  }

  function Min(x: int, y: int): int {
    if x < y then x else y
  }

  /** Division by two as Go does it: toward zero. */
  function Half(x: int): int {
    if 0 <= x then x / 2 else -(-x / 2)
  }

  /** A timespan: the start instant and the instant after the last one. */
  datatype Span = Span(from: int, to: int) {
    function Duration(): int {
      to - from
    }
  }

  /** The number of instants in both [a, b) and [c, d). */
  function Overlap(a: int, b: int, c: int, d: int): nat {
    Max(0, Min(b, d) - Max(a, c))
  }

  /** How many instants of [lo, hi) satisfy p. */
  ghost function Count(lo: int, hi: int, p: int -> bool): nat
    decreases hi - lo
  {
    if hi <= lo then 0 else Count(lo, hi - 1, p) + if p(hi - 1) then 1 else 0
  }

  lemma {:induction false} CountIsCardinality(lo: int, hi: int, p: int -> bool)
    ensures Count(lo, hi, p) == |set t | lo <= t < hi && p(t)|
    decreases hi - lo
  {
    var s := set t | lo <= t < hi && p(t);
    if lo < hi {
      CountIsCardinality(lo, hi - 1, p);
      var s' := set t | lo <= t < hi - 1 && p(t);
      assert s == if p(hi - 1) then s' + {hi - 1} else s';
    } else {
      assert s == {};
    }
  }

  lemma {:induction false} CountSplit(lo: int, mid: int, hi: int, p: int -> bool)
    requires lo <= mid <= hi
    ensures Count(lo, hi, p) == Count(lo, mid, p) + Count(mid, hi, p)
    decreases hi - mid
  {
    if mid < hi {
      CountSplit(lo, mid, hi - 1, p);
    }
  }

  lemma {:induction false} CountSame(lo: int, hi: int, p: int -> bool, q: int -> bool)
    requires forall t :: lo <= t < hi ==> p(t) == q(t)
    ensures Count(lo, hi, p) == Count(lo, hi, q)
    decreases hi - lo
  {
    if lo < hi {
      CountSame(lo, hi - 1, p, q);
    }
  }

  lemma {:induction false} CountNone(lo: int, hi: int, p: int -> bool)
    requires forall t :: lo <= t < hi ==> !p(t)
    ensures Count(lo, hi, p) == 0
    decreases hi - lo
  {
    if lo < hi {
      CountNone(lo, hi - 1, p);
    }
  }

  lemma {:induction false} CountAll(lo: int, hi: int, p: int -> bool)
    requires forall t :: lo <= t < hi ==> p(t)
    ensures Count(lo, hi, p) == Max(0, hi - lo)
    decreases hi - lo
  {
    if lo < hi {
      CountAll(lo, hi - 1, p);
    }
  }

  lemma {:induction false} CountMonotone(lo: int, hi: int, p: int -> bool, q: int -> bool)
    requires forall t :: lo <= t < hi && p(t) ==> q(t)
    ensures Count(lo, hi, p) <= Count(lo, hi, q) <= Max(0, hi - lo)
    decreases hi - lo
  {
    if lo < hi {
      CountMonotone(lo, hi - 1, p, q);
    }
  }

  /** Disjoint sets of instants add up. */
  lemma {:induction false} CountUnion(lo: int, hi: int, p: int -> bool, q: int -> bool, both: int -> bool)
    requires forall t :: lo <= t < hi ==> !(p(t) && q(t)) && both(t) == (p(t) || q(t))
    ensures Count(lo, hi, both) == Count(lo, hi, p) + Count(lo, hi, q)
    decreases hi - lo
  {
    if lo < hi {
      CountUnion(lo, hi - 1, p, q, both);
    }
  }

  /** Counting q inside [a, b) within the window [lo, hi) is counting q over the clipped interval. */
  lemma CountClip(lo: int, hi: int, a: int, b: int, q: int -> bool, clipped: int -> bool)
    requires forall t :: lo <= t < hi ==> clipped(t) == (a <= t < b && q(t))
    ensures Count(lo, hi, clipped) == Count(Max(lo, a), Min(hi, b), q)
  {
    var x, y := Max(lo, a), Min(hi, b);
    if x < y {
      CountSplit(lo, x, hi, clipped);
      CountSplit(x, y, hi, clipped);
      CountNone(lo, x, clipped);
      CountNone(y, hi, clipped);
      CountSame(x, y, clipped, q);
    } else {
      CountNone(lo, hi, clipped);
    }
  }

  lemma CountInterval(lo: int, hi: int, a: int, b: int, p: int -> bool)
    requires forall t :: lo <= t < hi ==> p(t) == (a <= t < b)
    ensures Count(lo, hi, p) == Overlap(lo, hi, a, b)
  {
    CountClip(lo, hi, a, b, t => true, p);
    CountAll(Max(lo, a), Min(hi, b), t => true);
  }
}
