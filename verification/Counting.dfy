/** Counting integers in a range by a predicate, and counting under a periodic predicate. */
module Counting {

  ghost function Count(p: int -> bool, lo: int, hi: int): nat
    requires lo <= hi
    decreases hi - lo
  {
    if lo == hi then 0 else Count(p, lo, hi - 1) + (if p(hi - 1) then 1 else 0)
  }

  /** `Count` is the cardinality of the set it counts. */
  lemma {:induction false} CountIsCardinality(p: int -> bool, lo: int, hi: int)
    requires lo <= hi
    ensures |set x | lo <= x < hi && p(x)| == Count(p, lo, hi)
    decreases hi - lo
  {
    var all := set x | lo <= x < hi && p(x);
    if lo < hi {
      CountIsCardinality(p, lo, hi - 1);
      var fewer := set x | lo <= x < hi - 1 && p(x);
      assert all == if p(hi - 1) then fewer + {hi - 1} else fewer;
    } else {
      assert all == {};
    }
  }

  lemma {:induction false} CountSplit(p: int -> bool, lo: int, mid: int, hi: int)
    requires lo <= mid <= hi
    ensures Count(p, lo, hi) == Count(p, lo, mid) + Count(p, mid, hi)
    decreases hi - mid
  {
    if mid < hi {
      CountSplit(p, lo, mid, hi - 1);
    }
  }

  lemma {:induction false} CountAgree(p: int -> bool, q: int -> bool, lo: int, hi: int)
    requires lo <= hi
    requires forall x :: lo <= x < hi ==> p(x) == q(x)
    ensures Count(p, lo, hi) == Count(q, lo, hi)
    decreases hi - lo
  {
    if lo < hi {
      CountAgree(p, q, lo, hi - 1);
    }
  }

  /** A predicate that holds on exactly `a <= x < b` counts the overlap with the range. */
  lemma {:induction false} CountInterval(p: int -> bool, lo: int, hi: int, a: int, b: int)
    requires lo <= a <= b <= hi
    requires forall x :: lo <= x < hi ==> (p(x) <==> a <= x < b)
    ensures Count(p, lo, hi) == b - a
    decreases hi - lo
  {
    if lo < hi {
      if b == hi && a < b {
        CountInterval(p, lo, hi - 1, a, b - 1);
      } else if a == hi {
        CountInterval(p, lo, hi - 1, hi - 1, hi - 1);
      } else {
        CountInterval(p, lo, hi - 1, a, b);
      }
    }
  }

  ghost predicate Repeats(p: int -> bool, n: nat, x: int) {
    p(x) == p(x + n)
  }

  ghost predicate Periodic(p: int -> bool, n: nat) {
    forall x :: x >= 0 ==> Repeats(p, n, x)
  }

  /** Every window as long as the period holds as many hits as the first one. */
  lemma {:induction false} CountWindow(p: int -> bool, n: nat, lo: nat)
    requires Periodic(p, n)
    ensures Count(p, lo, lo + n) == Count(p, 0, n)
    decreases lo
  {
    if lo > 0 {
      CountWindow(p, n, lo - 1);
      CountSplit(p, lo - 1, lo, lo + n);
      CountSplit(p, lo - 1, lo - 1 + n, lo + n);
      assert Repeats(p, n, lo - 1);
      CountOne(p, lo - 1);
      CountOne(p, lo - 1 + n);
    }
  }

  lemma CountOne(p: int -> bool, x: int)
    ensures Count(p, x, x + 1) == if p(x) then 1 else 0
  {
    assert Count(p, x, x) == 0;
  }

  lemma MulStep(q: int, n: int)
    ensures q * n == (q - 1) * n + n
  {}

  /** A range of `q` whole periods holds `q` times the hits of one period. */
  lemma {:induction false} CountPeriods(p: int -> bool, n: nat, lo: nat, q: nat, hi: nat)
    requires Periodic(p, n) && hi == lo + q * n
    ensures lo <= hi && Count(p, lo, hi) == q * Count(p, 0, n)
    decreases q
  {
    if q == 0 {
      assert hi == lo;
    } else {
      var mid := hi - n;
      assert mid == lo + (q - 1) * n by { MulStep(q, n); }
      CountPeriods(p, n, lo, q - 1, mid);
      CountSplit(p, lo, mid, hi);
      CountWindow(p, n, mid);
      MulStep(q, Count(p, 0, n));
    }
  }
}
