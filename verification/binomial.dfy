/** The `Binomial` class: a binomial experiment of `n` independent trials,
    each succeeding with probability `p`, and the queries it answers. */
module BinomialDistribution {
  import opened Errors
  import opened Values
  import opened Validation
  import opened Combinatorics
  import opened Sums
  import opened BinomialTerms

  /** A success probability: a number in `[0, 1]`. */
  type Probability = p: real | 0.0 <= p <= 1.0

  /** A validated experiment. The source re-runs its checks in the
      `num_trails` and `prob_success` getters on every access; here the
      checks run once, in `New`, and the getters are the two fields. */
  datatype Binomial = Binomial(trials: nat, success: Probability)

  /** `Binomial(num_trails, prob_success)`. The constructor computes
      `1 - prob_success` first (a TypeError for a non-number), then builds
      the full distribution, which reads `num_trails` (its checks) and, for
      `k == 0` at least, `prob_success` (its range check). */
  function New(n: Value, p: Value): (r: Result<Binomial>)
    ensures r.Ok? <==> IsInt(n) && IntOf(n) >= 0 && IsNumber(p) && 0.0 <= RealOf(p) <= 1.0
    ensures r.Ok? ==> r.value.trials == IntOf(n) && r.value.success == RealOf(p)
    ensures !IsNumber(p) ==> r == Err(TypeError)
    ensures (IsNumber(p) && ValidateNonNegativeInteger(n).Fail?)
              ==> r == Err(ValidateNonNegativeInteger(n).error)
    ensures (IsNumber(p) && ValidateNonNegativeInteger(n).Pass? && !(0.0 <= RealOf(p) <= 1.0))
              ==> r == Err(ValueError)
  {
    if !IsNumber(p) then Err(TypeError)
    else
      match ValidateNonNegativeInteger(n)
      case Fail(e) => Err(e)
      case Pass =>
        if 0.0 <= RealOf(p) <= 1.0 then Ok(Binomial(IntOf(n), RealOf(p))) else Err(ValueError)
  }

  /** `prob_failure`: the complement of the success probability. */
  function ProbFailure(b: Binomial): (q: real)
    ensures 0.0 <= q <= 1.0
    ensures b.success + q == 1.0
  {
    1.0 - b.success
  }

  /** `P(X = k)` for `k` in `0..n`, as a function of `k` (zero elsewhere). */
  function Pmf(b: Binomial): int -> real
  {
    Terms(b.trials, b.success, ProbFailure(b))
  }

  /** Every probability is in `[0, 1]`: it is non-negative and one summand of
      a total that is one. */
  lemma PmfBounds(b: Binomial, k: int)
    ensures 0.0 <= Pmf(b)(k) <= 1.0
  {
    var n, p, q := b.trials, b.success, ProbFailure(b);
    forall i | 0 <= i < n + 1
      ensures 0.0 <= Terms(n, p, q)(i)
    {
      TermNonNegative(n, p, q, i);
    }
    TermNonNegative(n, p, q, k);
    if 0 <= k <= n {
      TermsSumToOne(n, p, q);
      SumSubRange(Terms(n, p, q), 0, k, k + 1, n + 1);
      SumLast(Terms(n, p, q), k, k + 1);
    } else {
      TermOutside(n, p, q, k);
    }
  }

  /** `probability_k(k)`: validates `k`, then `k <= n`, and returns
      `combinations(n, k) * p**k * q**(n - k)`. The result is the
      probability mass at `k`, and agrees with the one-point range
      `cumulative_range(k, k)` on every argument, the errors included. */
  method ProbabilityK(b: Binomial, k: Value) returns (r: Result<real>)
    ensures r.Ok? <==> IsInt(k) && 0 <= IntOf(k) <= b.trials
    ensures !IsInt(k) ==> r == Err(TypeError)
    ensures (IsInt(k) && !(0 <= IntOf(k) <= b.trials)) ==> r == Err(ValueError)
    ensures r.Ok? ==> r.value == Pmf(b)(IntOf(k))
    ensures r.Ok? ==> 0.0 <= r.value <= 1.0
    ensures r == CumulativeRange(b, k, k)
  {
    CumulativeRangeOfOnePoint(b, k);
    match ValidateNonNegativeInteger(k)
    case Fail(e) =>
      return Err(e);
    case Pass =>
    match ValidateLessEqual(k, IntV(b.trials))
    case Fail(e) =>
      return Err(e);
    case Pass =>
    var c := Combinations(IntV(b.trials), k);
    var x := Weigh(b, IntOf(k), c.value);
    PmfBounds(b, IntOf(k));
    return Ok(x);
  }

  /** `c * p**k * q**(n - k)` is the probability mass at `k` when `c` is the
      binomial coefficient `C(n, k)`. */
  method Weigh(b: Binomial, k: int, c: nat) returns (x: real)
    requires 0 <= k <= b.trials && c == Pascal(b.trials, k)
    ensures x == Pmf(b)(k)
  {
    x := c as real * Pow(b.success, k) * Pow(ProbFailure(b), b.trials - k);
    TermClosedForm(b.trials, b.success, ProbFailure(b), k, b.trials - k);
  }

  /** The total probability: the probabilities of `0..n` sum to one (the
      binomial theorem with `p + q == 1`). */
  lemma PmfSumsToOne(b: Binomial)
    ensures Sum(Pmf(b), 0, b.trials + 1) == 1.0
  {
    TermsSumToOne(b.trials, b.success, ProbFailure(b));
  }

  /** A map's values as a function of the key, zero for a missing key. */
  function Lookup(d: map<int, real>): int -> real
  {
    k => if k in d then d[k] else 0.0
  }

  /** `distribution`: the dictionary `{k: probability_k(k)}` for `k` in
      `range(0, n + 1)`, built by the source's loop. */
  method Distribution(b: Binomial) returns (d: map<int, real>)
    ensures forall k :: k in d <==> 0 <= k <= b.trials
    ensures forall k :: k in d ==> d[k] == Pmf(b)(k)
    ensures Sum(Lookup(d), 0, b.trials + 1) == 1.0
  {
    d := map[];
    var k := 0;
    while k < b.trials + 1
      invariant 0 <= k <= b.trials + 1
      invariant forall i :: i in d <==> 0 <= i < k
      invariant forall i :: i in d ==> d[i] == Pmf(b)(i)
    {
      var pk := ProbabilityK(b, IntV(k));
      d := d[k := pk.value];
      k := k + 1;
    }
    PmfSumsToOne(b);
    SumCongruent(Lookup(d), Pmf(b), 0, b.trials + 1);
  }

  /** `cumulative(k)`: validates `k`, then `k <= n`, and returns
      `P(X <= k)`, the running total of `probability_k(0..k)`. */
  function Cumulative(b: Binomial, k: Value): (r: Result<real>)
    ensures r.Ok? <==> IsInt(k) && 0 <= IntOf(k) <= b.trials
    ensures !IsInt(k) ==> r == Err(TypeError)
    ensures (IsInt(k) && !(0 <= IntOf(k) <= b.trials)) ==> r == Err(ValueError)
    ensures r.Ok? ==> 0.0 <= r.value <= 1.0
  {
    match ValidateNonNegativeInteger(k)
    case Fail(e) => Err(e)
    case Pass =>
      match ValidateLessEqual(k, IntV(b.trials))
      case Fail(e) => Err(e)
      case Pass =>
        PartialSumBounds(b, 0, IntOf(k));
        Ok(Sum(Pmf(b), 0, IntOf(k) + 1))
  }

  /** Any partial sum of the probabilities lies in `[0, 1]`. */
  lemma PartialSumBounds(b: Binomial, lo: int, hi: int)
    requires 0 <= lo <= hi <= b.trials
    ensures 0.0 <= Sum(Pmf(b), lo, hi + 1) <= 1.0
  {
    forall i | 0 <= i < b.trials + 1
      ensures 0.0 <= Pmf(b)(i)
    {
      PmfBounds(b, i);
    }
    SumNonNegative(Pmf(b), lo, hi + 1);
    SumSubRange(Pmf(b), 0, lo, hi + 1, b.trials + 1);
    PmfSumsToOne(b);
  }

  /** `cumulative` is the accumulation of `probability_k`: `P(X <= 0)` is
      `P(X = 0)` and each step adds the next `P(X = k)`. */
  lemma CumulativeAccumulates(b: Binomial, k: int)
    requires 0 <= k <= b.trials
    ensures k == 0 ==> Cumulative(b, IntV(0)) == Ok(Pmf(b)(0))
    ensures k > 0 ==> Cumulative(b, IntV(k)).value
                      == Cumulative(b, IntV(k - 1)).value + Pmf(b)(k)
  {
    CumulativeIsPartialSum(b, k);
    if k == 0 {
      SumLast(Pmf(b), 0, 1);
    } else {
      CumulativeIsPartialSum(b, k - 1);
      SumLast(Pmf(b), 0, k + 1);
    }
  }

  lemma CumulativeIsPartialSum(b: Binomial, k: int)
    requires 0 <= k <= b.trials
    ensures Cumulative(b, IntV(k)) == Ok(Sum(Pmf(b), 0, k + 1))
  {
  }

  /** `cumulative(n)` is one: the whole distribution. */
  lemma CumulativeOfAllIsOne(b: Binomial)
    ensures Cumulative(b, IntV(b.trials)) == Ok(1.0)
  {
    PmfSumsToOne(b);
  }

  /** `cumulative` never decreases as `k` grows. */
  lemma CumulativeMonotone(b: Binomial, k1: int, k2: int)
    requires 0 <= k1 <= k2 <= b.trials
    ensures Cumulative(b, IntV(k1)).value <= Cumulative(b, IntV(k2)).value
  {
    forall i | 0 <= i < k2 + 1
      ensures 0.0 <= Pmf(b)(i)
    {
      PmfBounds(b, i);
    }
    SumSubRange(Pmf(b), 0, 0, k1 + 1, k2 + 1);
  }

  /** `cumulative_range(k1, k2)`: validates `k1`, then `k2`, then `k1 <= n`,
      `k2 <= n` and `k1 <= k2`, and returns `P(k1 <= X <= k2)`. */
  function CumulativeRange(b: Binomial, k1: Value, k2: Value): (r: Result<real>)
    ensures r.Ok? <==> IsInt(k1) && IsInt(k2) && 0 <= IntOf(k1) <= IntOf(k2) <= b.trials
    ensures r == Err(TypeError) <==> !IsInt(k1) || (IntOf(k1) >= 0 && !IsInt(k2))
    ensures r.Ok? ==> 0.0 <= r.value <= 1.0
  {
    match ValidateNonNegativeInteger(k1)
    case Fail(e) => Err(e)
    case Pass =>
      match ValidateNonNegativeInteger(k2)
      case Fail(e) => Err(e)
      case Pass =>
        match ValidateLessEqual(k1, IntV(b.trials))
        case Fail(e) => Err(e)
        case Pass =>
          match ValidateLessEqual(k2, IntV(b.trials))
          case Fail(e) => Err(e)
          case Pass =>
            match ValidateLessEqual(k1, k2)
            case Fail(e) => Err(e)
            case Pass =>
              PartialSumBounds(b, IntOf(k1), IntOf(k2));
              Ok(Sum(Pmf(b), IntOf(k1), IntOf(k2) + 1))
  }

  /** The loop that `cumulative` and `cumulative_range` run once their
      checks pass: start from zero and add `probability_k(k)` for each `k`
      in `range(lo, hi + 1)`. It computes the sum their results are stated
      as. */
  method Accumulate(b: Binomial, lo: int, hi: int) returns (total: real)
    requires 0 <= lo <= hi <= b.trials
    ensures total == Sum(Pmf(b), lo, hi + 1)
    ensures 0.0 <= total <= 1.0
  {
    total := 0.0;
    var k := lo;
    while k < hi + 1
      invariant lo <= k <= hi + 1
      invariant total == Sum(Pmf(b), lo, k)
    {
      var pk := ProbabilityK(b, IntV(k));
      SumLast(Pmf(b), lo, k + 1);
      total := total + pk.value;
      k := k + 1;
    }
    PartialSumBounds(b, lo, hi);
  }

  /** `cumulative(k) == cumulative_range(0, k)` for every argument `k`,
      the errors included. */
  lemma CumulativeIsRangeFromZero(b: Binomial, k: Value)
    ensures Cumulative(b, k) == CumulativeRange(b, IntV(0), k)
  {
  }

  /** A one-point range is the probability of that point; its errors are
      those of validating the point. */
  lemma CumulativeRangeOfOnePoint(b: Binomial, k: Value)
    ensures !IsInt(k) ==> CumulativeRange(b, k, k) == Err(TypeError)
    ensures (IsInt(k) && !(0 <= IntOf(k) <= b.trials)) ==> CumulativeRange(b, k, k) == Err(ValueError)
    ensures (IsInt(k) && 0 <= IntOf(k) <= b.trials) ==> CumulativeRange(b, k, k) == Ok(Pmf(b)(IntOf(k)))
  {
    if IsInt(k) && 0 <= IntOf(k) <= b.trials {
      var i := IntOf(k);
      SumLast(Pmf(b), i, i + 1);
      assert CumulativeRange(b, k, k) == Ok(Pmf(b)(i));
    }
  }

  /** `P(k1 <= X <= k2) == P(X <= k2) - P(X <= k1 - 1)`. */
  lemma CumulativeRangeIsDifference(b: Binomial, k1: int, k2: int)
    requires 1 <= k1 <= k2 <= b.trials
    ensures CumulativeRange(b, IntV(k1), IntV(k2)).value
            == Cumulative(b, IntV(k2)).value - Cumulative(b, IntV(k1 - 1)).value
  {
    SumSplit(Pmf(b), 0, k1, k2 + 1);
  }

  /** `expected_value`: `n * p`, which is the mean `sum k P(X = k)` of the
      distribution. */
  function ExpectedValue(b: Binomial): (mu: real)
    ensures mu == Sum(FirstMoments(b.trials, b.success, ProbFailure(b)), 0, b.trials + 1)
    ensures 0.0 <= mu <= b.trials as real
  {
    MeanOfTerms(b.trials, b.success, ProbFailure(b));
    var mu := b.trials as real * b.success;
    ScaleBound(b.trials as real, b.success, mu);
    mu
  }

  /** `variance`: `n * p * q`, which is `sum (k - mu)^2 P(X = k)` about the
      mean, and at most `n / 4`. */
  function Variance(b: Binomial): (v: real)
    ensures v == Sum(Deviations(b.trials, b.success, ProbFailure(b), ExpectedValue(b)), 0, b.trials + 1)
    ensures 0.0 <= v <= b.trials as real / 4.0
  {
    var v := b.trials as real * b.success * ProbFailure(b);
    VarianceAboutMean(b);
    ProductBound(b.trials as real, b.success, ProbFailure(b), v);
    v
  }

  lemma VarianceAboutMean(b: Binomial)
    ensures Sum(Deviations(b.trials, b.success, ProbFailure(b), ExpectedValue(b)), 0, b.trials + 1)
            == b.trials as real * b.success * ProbFailure(b)
  {
    VarianceOfTerms(b.trials, b.success, ProbFailure(b));
    assert ExpectedValue(b) == b.trials as real * b.success;
  }

  /** `v == n p q` lies in `[0, n / 4]`, since `p q == 1/4 - (p - 1/2)^2`. */
  lemma ProductBound(n: real, p: real, q: real, v: real)
    requires 0.0 <= n && 0.0 <= p && 0.0 <= q && p + q == 1.0
    requires v == n * p * q
    ensures 0.0 <= v <= n / 4.0
  {
    var s := p * q;
    assert q == 1.0 - p;
    assert s == 0.25 - (p - 0.5) * (p - 0.5);
    MulNonNegative(p, q);
    MulNonNegative(p - 0.5, p - 0.5);
    MulNonNegative(n, s);
    MulNonNegative(n, 0.25 - s);
    assert n * (0.25 - s) == n / 4.0 - n * s;
    assert n * p * q == n * s;
  }

  /** `mu == n p` lies in `[0, n]` for a probability `p`. */
  lemma ScaleBound(n: real, p: real, mu: real)
    requires 0.0 <= n && 0.0 <= p <= 1.0 && mu == n * p
    ensures 0.0 <= mu <= n
  {
    MulNonNegative(n, p);
    MulNonNegative(n, 1.0 - p);
  }

  lemma MulNonNegative(a: real, b: real)
    requires (0.0 <= a && 0.0 <= b) || a == b
    ensures 0.0 <= a * b
  {
  }
}
