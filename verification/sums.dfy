/** Exact real powers and finite sums: the arithmetic the distribution's
    floating-point expressions denote, stated without rounding. */
module Sums {

  /** `x ** e` for a natural exponent; `0.0 ** 0 == 1.0` as in Python.

      The definition is spread over `Pow`, `PowCases` and `PowStep` so that
      the verifier, which unfolds a definition once on its own, sees neither
      the case split nor the product until a proof asks for them with
      `PowZero` or `PowSucc`; products of powers stay cheap to reason about. */
  function Pow(x: real, e: nat): real
    decreases e, 2
  {
    PowCases(x, e)
  }

  /** The two cases of a power: none or at least one factor. */
  function PowCases(x: real, e: nat): real
    decreases e, 1
  {
    if e == 0 then 1.0 else PowStep(x, e)
  }

  /** A positive power: `x` times the power one lower. */
  function PowStep(x: real, e: nat): real
    requires 0 < e
    decreases e, 0
  {
    x * Pow(x, e - 1)
  }

  /** The empty product: `x ** 0 == 1.0`. */
  lemma PowZero(x: real)
    ensures Pow(x, 0) == 1.0
  {
    assert Pow(x, 0) == PowCases(x, 0);
  }

  /** One more factor: `x ** e' == x * x ** e` when `e' == e + 1`. */
  lemma PowSucc(x: real, e: nat, e': nat)
    requires e' == e + 1
    ensures Pow(x, e') == x * Pow(x, e)
  {
    assert Pow(x, e') == PowCases(x, e');
    assert PowCases(x, e') == PowStep(x, e');
  }

  /** `f(lo) + f(lo + 1) + ... + f(hi - 1)`, accumulated left to right as an
      accumulator loop over `range(lo, hi)` does; zero when the range is empty.
      The definition is split over `Sum` and `SumStep` so that unfolding a
      sum once does not yet apply `f`; `SumLast` takes the step. */
  function Sum(f: int -> real, lo: int, hi: int): real
    decreases hi - lo, 1
  {
    if hi <= lo then 0.0 else SumStep(f, lo, hi)
  }

  /** A non-empty sum: the sum one shorter, plus its last term. */
  function SumStep(f: int -> real, lo: int, hi: int): real
    requires lo < hi
    decreases hi - lo, 0
  {
    Sum(f, lo, hi - 1) + f(hi - 1)
  }

  /** A non-empty sum is the sum one shorter plus its last term. */
  lemma SumLast(f: int -> real, lo: int, hi: int)
    requires lo < hi
    ensures Sum(f, lo, hi) == Sum(f, lo, hi - 1) + f(hi - 1)
  {
    assert Sum(f, lo, hi) == SumStep(f, lo, hi);
  }

  lemma {:induction false} PowNonNegative(x: real, e: nat)
    requires 0.0 <= x
    ensures 0.0 <= Pow(x, e)
  {
    if e == 0 {
      PowZero(x);
    } else {
      PowNonNegative(x, e - 1);
      PowSucc(x, e - 1, e);
    }
  }

  /** Pointwise `f(k) == c * g(k - d)` carries over to the sums: scaling and
      re-indexing in one step, onto the range `[lo', hi')` shifted down by `d`. */
  lemma {:induction false} SumScaleShift(f: int -> real, g: int -> real, c: real, d: int,
                                         lo: int, hi: int, lo': int, hi': int)
    requires lo' == lo - d && hi' == hi - d
    requires forall k :: lo <= k < hi ==> f(k) == c * g(k - d)
    ensures Sum(f, lo, hi) == c * Sum(g, lo', hi')
    decreases hi - lo
  {
    if hi > lo {
      SumScaleShift(f, g, c, d, lo, hi - 1, lo', hi' - 1);
      SumLast(f, lo, hi);
      SumLast(g, lo', hi');
    }
  }

  /** Sums of functions that agree on the range are equal. */
  lemma SumCongruent(f: int -> real, g: int -> real, lo: int, hi: int)
    requires forall k :: lo <= k < hi ==> f(k) == g(k)
    ensures Sum(f, lo, hi) == Sum(g, lo, hi)
  {
    SumScaleShift(f, g, 1.0, 0, lo, hi, lo, hi);
  }

  /** The sum of a pointwise sum is the sum of the sums. */
  lemma {:induction false} SumAdd(f: int -> real, g: int -> real, h: int -> real, lo: int, hi: int)
    requires forall k :: lo <= k < hi ==> h(k) == f(k) + g(k)
    ensures Sum(h, lo, hi) == Sum(f, lo, hi) + Sum(g, lo, hi)
    decreases hi - lo
  {
    if hi > lo {
      SumAdd(f, g, h, lo, hi - 1);
      SumLast(f, lo, hi);
      SumLast(g, lo, hi);
      SumLast(h, lo, hi);
    }
  }

  /** A pointwise recurrence `f(k) == a g(k - 1) + b g(k)` carries over to
      the sums, the first one over `[lo', hi')`, shifted down by one. */
  lemma {:induction false} SumRecurrence(f: int -> real, g: int -> real, a: real, b: real,
                                         lo: int, hi: int, lo': int, hi': int)
    requires lo' == lo - 1 && hi' == hi - 1
    requires forall k :: lo <= k < hi ==> f(k) == a * g(k - 1) + b * g(k)
    ensures Sum(f, lo, hi) == a * Sum(g, lo', hi') + b * Sum(g, lo, hi)
    decreases hi - lo
  {
    if hi > lo {
      var h := hi - 1;
      SumRecurrence(f, g, a, b, lo, h, lo', hi' - 1);
      SumLast(f, lo, hi);
      SumLast(g, lo', hi');
      SumLast(g, lo, hi);
      var s0, s1 := Sum(g, lo', hi' - 1), Sum(g, lo, h);
      assert Sum(f, lo, hi) == a * s0 + b * s1 + (a * g(hi' - 1) + b * g(h));
      assert a * s0 + b * s1 + (a * g(hi' - 1) + b * g(h))
          == a * (s0 + g(hi' - 1)) + b * (s1 + g(h));
    }
  }

  /** Sums of a pointwise linear combination `h == f + a g + b t`. */
  lemma {:induction false} SumLinear(h: int -> real, f: int -> real, g: int -> real, t: int -> real,
                                     a: real, b: real, lo: int, hi: int)
    requires forall k :: lo <= k < hi ==> h(k) == f(k) + a * g(k) + b * t(k)
    ensures Sum(h, lo, hi) == Sum(f, lo, hi) + a * Sum(g, lo, hi) + b * Sum(t, lo, hi)
    decreases hi - lo
  {
    if hi > lo {
      SumLinear(h, f, g, t, a, b, lo, hi - 1);
      SumLast(h, lo, hi);
      SumLast(f, lo, hi);
      SumLast(g, lo, hi);
      SumLast(t, lo, hi);
      var sf, sg, st := Sum(f, lo, hi - 1), Sum(g, lo, hi - 1), Sum(t, lo, hi - 1);
      assert Sum(h, lo, hi) == sf + a * sg + b * st + (f(hi - 1) + a * g(hi - 1) + b * t(hi - 1));
      assert sf + a * sg + b * st + (f(hi - 1) + a * g(hi - 1) + b * t(hi - 1))
          == (sf + f(hi - 1)) + a * (sg + g(hi - 1)) + b * (st + t(hi - 1));
    }
  }

  /** A range sum splits at any point inside the range. */
  lemma {:induction false} SumSplit(f: int -> real, lo: int, mid: int, hi: int)
    requires lo <= mid <= hi
    ensures Sum(f, lo, hi) == Sum(f, lo, mid) + Sum(f, mid, hi)
    decreases hi - mid
  {
    if hi > mid {
      SumSplit(f, lo, mid, hi - 1);
      SumLast(f, lo, hi);
      SumLast(f, mid, hi);
    }
  }

  /** Terms that vanish outside `[lo, hi)` do not change the sum when the
      range is widened to `[lo', hi')`. */
  lemma SumWiden(f: int -> real, lo': int, lo: int, hi: int, hi': int)
    requires lo' <= lo <= hi <= hi'
    requires forall k :: lo' <= k < lo ==> f(k) == 0.0
    requires forall k :: hi <= k < hi' ==> f(k) == 0.0
    ensures Sum(f, lo', hi') == Sum(f, lo, hi)
  {
    SumSplit(f, lo', lo, hi');
    SumSplit(f, lo, hi, hi');
    SumZero(f, lo', lo);
    SumZero(f, hi, hi');
  }

  /** Vanishing terms sum to zero. */
  lemma {:induction false} SumZero(f: int -> real, lo: int, hi: int)
    requires forall k :: lo <= k < hi ==> f(k) == 0.0
    ensures Sum(f, lo, hi) == 0.0
    decreases hi - lo
  {
    if hi > lo {
      SumZero(f, lo, hi - 1);
      SumLast(f, lo, hi);
    }
  }

  /** A sum of non-negative terms is non-negative. */
  lemma {:induction false} SumNonNegative(f: int -> real, lo: int, hi: int)
    requires forall k :: lo <= k < hi ==> 0.0 <= f(k)
    ensures 0.0 <= Sum(f, lo, hi)
    decreases hi - lo
  {
    if hi > lo {
      SumNonNegative(f, lo, hi - 1);
      SumLast(f, lo, hi);
    }
  }

  /** With non-negative terms, a sub-range sums to no more than the range. */
  lemma SumSubRange(f: int -> real, lo: int, lo': int, hi': int, hi: int)
    requires lo <= lo' <= hi' <= hi
    requires forall k :: lo <= k < hi ==> 0.0 <= f(k)
    ensures Sum(f, lo', hi') <= Sum(f, lo, hi)
  {
    SumSplit(f, lo, lo', hi);
    SumSplit(f, lo', hi', hi);
    SumNonNegative(f, lo, lo');
    SumNonNegative(f, hi', hi);
  }
}
