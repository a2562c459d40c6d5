/** The probabilities `C(n, k) p^k q^(n-k)` of `k` successes in `n` trials,
    and the facts about their sums that the distribution relies on: the
    binomial theorem, the mean and the second factorial moment. */
module BinomialTerms {
  import opened Sums
  import opened Combinatorics

  /** The probability of exactly `k` successes in `n` independent trials that
      succeed with probability `p` and fail with probability `q`: zero outside
      `0 <= k <= n`, one for no trials, and otherwise the last trial either
      succeeds after `k - 1` successes or fails after `k`. `TermClosedForm`
      proves it equal to `C(n, k) p^k q^(n-k)`.

      Spread over `Term`, `TermCases` and `TermStep` like `Pow`: the
      verifier sees the cases and the recurrence only through `TermOutside`,
      `TermOfNoTrials` and `TermPascal`. */
  function Term(n: nat, p: real, q: real, k: int): real
    decreases n, 2
  {
    TermCases(n, p, q, k)
  }

  /** The cases of a term: outside the row, no trials, or a last trial. */
  function TermCases(n: nat, p: real, q: real, k: int): real
    decreases n, 1
  {
    if k < 0 || n < k then 0.0 else if n == 0 then 1.0 else TermStep(n, p, q, k)
  }

  /** The recurrence step of a term with at least one trial. */
  function TermStep(n: nat, p: real, q: real, k: int): real
    requires 0 < n
    decreases n, 0
  {
    p * Term(n - 1, p, q, k - 1) + q * Term(n - 1, p, q, k)
  }

  /** No probability outside `0 <= k <= n`. */
  lemma TermOutside(n: nat, p: real, q: real, k: int)
    requires k < 0 || n < k
    ensures Term(n, p, q, k) == 0.0
  {
    assert Term(n, p, q, k) == TermCases(n, p, q, k);
  }

  /** With no trials, no successes is certain. */
  lemma TermOfNoTrials(p: real, q: real)
    ensures Term(0, p, q, 0) == 1.0
  {
    assert Term(0, p, q, 0) == TermCases(0, p, q, 0);
  }

  /** The terms as a function of `k`, ready to be summed. */
  function Terms(n: nat, p: real, q: real): int -> real
  {
    k => Term(n, p, q, k)
  }

  /** `k` times the `k`-th term: the summand of the mean. */
  function FirstMoments(n: nat, p: real, q: real): int -> real
  {
    k => k as real * Term(n, p, q, k)
  }

  /** `k (k - 1)` times the `k`-th term: the summand of the second factorial moment. */
  function FactorialMoments(n: nat, p: real, q: real): int -> real
  {
    k => k as real * (k as real - 1.0) * Term(n, p, q, k)
  }

  /** `(k - mu)^2` times the `k`-th term: the summand of the variance about `mu`. */
  function Deviations(n: nat, p: real, q: real, mu: real): int -> real
  {
    k => (k as real - mu) * (k as real - mu) * Term(n, p, q, k)
  }

  lemma {:induction false} PowOne(e: nat)
    ensures Pow(1.0, e) == 1.0
  {
    if e == 0 {
      PowZero(1.0);
    } else {
      PowOne(e - 1);
      PowSucc(1.0, e - 1, e);
    }
  }

  /** Pascal's rule on the terms: each term of row `n == m + 1` is `p` times
      the term of row `m` one to the left plus `q` times the one below it,
      for every `k == j + 1`. The neighbours are parameters so that callers
      choose how the indices are written. */
  lemma TermPascal(m: nat, n: nat, p: real, q: real, j: int, k: int)
    requires n == m + 1 && k == j + 1
    ensures Term(n, p, q, k) == p * Term(m, p, q, j) + q * Term(m, p, q, k)
  {
    if 0 <= k <= n {
      assert Term(n, p, q, k) == TermCases(n, p, q, k);
      assert TermCases(n, p, q, k) == TermStep(n, p, q, k);
    } else {
      TermOutside(n, p, q, k);
      TermOutside(m, p, q, j);
      TermOutside(m, p, q, k);
    }
  }

  lemma {:induction false} TermNonNegative(n: nat, p: real, q: real, k: int)
    requires 0.0 <= p && 0.0 <= q
    ensures 0.0 <= Term(n, p, q, k)
    decreases n
  {
    if k < 0 || n < k {
      TermOutside(n, p, q, k);
    } else if n == 0 {
      TermOfNoTrials(p, q);
    } else {
      var m, j := n - 1, k - 1;
      TermNonNegative(m, p, q, j);
      TermNonNegative(m, p, q, k);
      TermPascal(m, n, p, q, j, k);
      CombinationNonNegative(p, q, Term(m, p, q, j), Term(m, p, q, k));
    }
  }

  lemma CombinationNonNegative(p: real, q: real, a: real, b: real)
    requires 0.0 <= p && 0.0 <= q && 0.0 <= a && 0.0 <= b
    ensures 0.0 <= p * a + q * b
  {
  }

  /** The closed form: the term for `k` successes and `e == n - k` failures
      is `C(n, k) p^k q^e`, the expression `probability_k` evaluates. */
  lemma {:induction false} TermClosedForm(n: nat, p: real, q: real, k: nat, e: nat)
    requires k + e == n
    ensures Term(n, p, q, k) == Pascal(n, k) as real * Pow(p, k) * Pow(q, e)
    decreases n
  {
    if n == 0 {
      TermOfNoTrials(p, q);
      PascalEdges(0);
      PowZero(p);
      PowZero(q);
    } else {
      var m := n - 1;
      if k == 0 {
        var d := e - 1;
        TermClosedForm(m, p, q, 0, d);
        ClosedFormFirst(m, n, p, q, d, e);
      } else if e == 0 {
        var j := k - 1;
        TermClosedForm(m, p, q, j, 0);
        ClosedFormLast(m, n, p, q, j, k);
      } else {
        var j, d := k - 1, e - 1;
        TermClosedForm(m, p, q, j, e);
        TermClosedForm(m, p, q, k, d);
        ClosedFormStep(m, n, p, q, j, k, d, e);
      }
    }
  }

  /** One inner step of `TermClosedForm`: the closed forms of the two terms
      of row `m` that Pascal's rule combines give the closed form in row
      `n == m + 1`. */
  lemma ClosedFormStep(m: nat, n: nat, p: real, q: real, j: nat, k: nat, d: nat, e: nat)
    requires n == m + 1 && k == j + 1 && e == d + 1 && j + e == m
    requires Term(m, p, q, j) == Pascal(m, j) as real * Pow(p, j) * Pow(q, e)
    requires Term(m, p, q, k) == Pascal(m, k) as real * Pow(p, k) * Pow(q, d)
    ensures Term(n, p, q, k) == Pascal(n, k) as real * Pow(p, k) * Pow(q, e)
  {
    PascalRule(m, n, j, k);
    ClosedFormCoefficients(m, n, p, q, j, k, d, e, Pascal(m, j) as real, Pascal(m, k) as real, Pascal(n, k) as real);
  }

  /** `ClosedFormStep` for any coefficients `c == a + b`. */
  lemma ClosedFormCoefficients(m: nat, n: nat, p: real, q: real, j: nat, k: nat, d: nat, e: nat,
                               a: real, b: real, c: real)
    requires n == m + 1 && k == j + 1 && e == d + 1 && c == a + b
    requires Term(m, p, q, j) == a * Pow(p, j) * Pow(q, e)
    requires Term(m, p, q, k) == b * Pow(p, k) * Pow(q, d)
    ensures Term(n, p, q, k) == c * Pow(p, k) * Pow(q, e)
  {
    TermPascal(m, n, p, q, j, k);
    PowSucc(p, j, k);
    PowSucc(q, d, e);
    ClosedFormArith(Term(n, p, q, k), Term(m, p, q, j), Term(m, p, q, k),
                    c, a, b, p, q, Pow(p, j), Pow(q, d), Pow(p, k), Pow(q, e));
  }

  /** The first term of row `n == m + 1`, all failures: `q` times the first
      term of row `m`. */
  lemma ClosedFormFirst(m: nat, n: nat, p: real, q: real, d: nat, e: nat)
    requires n == m + 1 && e == d + 1 && d == m
    requires Term(m, p, q, 0) == Pascal(m, 0) as real * Pow(p, 0) * Pow(q, d)
    ensures Term(n, p, q, 0) == Pascal(n, 0) as real * Pow(p, 0) * Pow(q, e)
  {
    TermPascal(m, n, p, q, -1, 0);
    TermOutside(m, p, q, -1);
    PowSucc(q, d, e);
    PowZero(p);
    PascalEdges(m);
    PascalEdges(n);
    EdgeArith(Term(n, p, q, 0), Term(m, p, q, 0), p, q, Pow(q, d), Pow(q, e));
  }

  /** The last term of row `n == m + 1`, all successes: `p` times the last
      term of row `m`. */
  lemma ClosedFormLast(m: nat, n: nat, p: real, q: real, j: nat, k: nat)
    requires n == m + 1 && k == j + 1 && j == m
    requires Term(m, p, q, j) == Pascal(m, j) as real * Pow(p, j) * Pow(q, 0)
    ensures Term(n, p, q, k) == Pascal(n, k) as real * Pow(p, k) * Pow(q, 0)
  {
    TermPascal(m, n, p, q, j, k);
    TermOutside(m, p, q, k);
    PowSucc(p, j, k);
    PowZero(q);
    PascalEdges(m);
    PascalEdges(n);
    EdgeArith(Term(n, p, q, k), Term(m, p, q, j), q, p, Pow(p, j), Pow(p, k));
  }

  /** An edge of the row: only one neighbour contributes, `t == r * 0 + s * u`
      with `u == 1 * 1 * y`, so `t == 1 * 1 * sy` or `1 * sy * 1`. */
  lemma EdgeArith(t: real, u: real, r: real, s: real, y: real, sy: real)
    requires t == r * 0.0 + s * u || t == s * u + r * 0.0
    requires u == 1.0 * 1.0 * y || u == 1.0 * y * 1.0
    requires sy == s * y
    ensures t == 1.0 * 1.0 * sy && t == 1.0 * sy * 1.0
  {
  }

  /** The arithmetic of one step of the closed form: from
      `t1 == p t2 + q t3`, `t2 == a x qy`, `t3 == b px y`, `c == a + b`,
      `px == p x` and `qy == q y` follows `t1 == c px qy`. */
  lemma ClosedFormArith(t1: real, t2: real, t3: real, c: real, a: real, b: real,
                        p: real, q: real, x: real, y: real, px: real, qy: real)
    requires t1 == p * t2 + q * t3
    requires t2 == a * x * qy && t3 == b * px * y
    requires c == a + b && px == p * x && qy == q * y
    ensures t1 == c * px * qy
  {
    assert p * t2 == a * px * qy;
    assert q * t3 == b * px * qy;
  }

  /** The binomial theorem: the terms sum to `(p + q)^n`. */
  lemma {:induction false} BinomialTheorem(n: nat, p: real, q: real)
    ensures Sum(Terms(n, p, q), 0, n + 1) == Pow(p + q, n)
  {
    if n > 0 {
      var m := n - 1;
      BinomialTheorem(m, p, q);
      assert Sum(Terms(m, p, q), 0, m + 1) == Sum(Terms(m, p, q), 0, n);
      PascalSum(m, n, p, q);
      PowSucc(p + q, m, n);
      Distribute(p, q, Sum(Terms(m, p, q), 0, n));
    } else {
      SumLast(Terms(n, p, q), 0, 1);
      TermOfNoTrials(p, q);
      PowZero(p + q);
    }
  }

  lemma Distribute(p: real, q: real, s: real)
    ensures p * s + q * s == (p + q) * s
  {
  }

  /** Summing Pascal's rule over a whole row: the terms of `(p + q)^n`,
      `n == m + 1`, add up to `p + q` times those of `(p + q)^m`. */
  lemma PascalSum(m: nat, n: nat, p: real, q: real)
    requires n == m + 1
    ensures Sum(Terms(n, p, q), 0, n + 1)
         == p * Sum(Terms(m, p, q), 0, n) + q * Sum(Terms(m, p, q), 0, n)
  {
    PascalSummands(m, p, q);
    var f, g := Terms(n, p, q), Terms(m, p, q);
    SumRecurrence(f, g, p, q, 0, n + 1, -1, n);
    RowPadded(m, n, n + 1, p, q);
  }

  lemma PascalSummands(n: nat, p: real, q: real)
    ensures forall k :: 0 <= k < n + 2 ==>
              Terms(n + 1, p, q)(k) == p * Terms(n, p, q)(k - 1) + q * Terms(n, p, q)(k)
  {
    forall k | 0 <= k < n + 2
      ensures Terms(n + 1, p, q)(k) == p * Terms(n, p, q)(k - 1) + q * Terms(n, p, q)(k)
    {
      TermPascal(n, n + 1, p, q, k - 1, k);
    }
  }

  /** The terms of row `m` vanish just outside it, so padding the range of
      its sum `[0, n)`, `n == m + 1`, with `-1` or with `n` leaves it unchanged. */
  lemma RowPadded(m: nat, n: nat, h: nat, p: real, q: real)
    requires n == m + 1 && h == n + 1
    ensures Sum(Terms(m, p, q), -1, n) == Sum(Terms(m, p, q), 0, n)
    ensures Sum(Terms(m, p, q), 0, h) == Sum(Terms(m, p, q), 0, n)
  {
    TermOutside(m, p, q, -1);
    TermOutside(m, p, q, n);
    SumWiden(Terms(m, p, q), -1, 0, n, n);
    SumWiden(Terms(m, p, q), 0, 0, n, h);
  }

  /** The first moments of row `m` vanish below it, so padding the range of
      their sum `[0, n)`, `n == m + 1`, with `-1` leaves it unchanged. */
  lemma MomentsPadded(m: nat, n: nat, p: real, q: real)
    requires n == m + 1
    ensures Sum(FirstMoments(m, p, q), -1, n) == Sum(FirstMoments(m, p, q), 0, n)
  {
    TermOutside(m, p, q, -1);
    SumWiden(FirstMoments(m, p, q), -1, 0, n, n);
  }

  /** With `p + q == 1` the terms sum to one. */
  lemma TermsSumToOne(n: nat, p: real, q: real)
    requires p + q == 1.0
    ensures Sum(Terms(n, p, q), 0, n + 1) == 1.0
  {
    BinomialTheorem(n, p, q);
    PowOne(n);
  }

  /** Absorption on the terms, `k P(n, k) == n p P(n - 1, k - 1)`, for every
      `k`. */
  lemma TermAbsorption(n: nat, p: real, q: real, k: int)
    requires 1 <= n
    ensures k as real * Term(n, p, q, k) == (n as real * p) * Term(n - 1, p, q, k - 1)
  {
    AbsorptionInduction(n - 1, n, p, q, k - 1, k);
  }

  /** `TermAbsorption` with the row `m == n - 1` and index `j == k - 1` as
      parameters, by induction on `n` through Pascal's rule. */
  lemma {:induction false} AbsorptionInduction(m: nat, n: nat, p: real, q: real, j: int, k: int)
    requires n == m + 1 && k == j + 1
    ensures k as real * Term(n, p, q, k) == (n as real * p) * Term(m, p, q, j)
    decreases n
  {
    TermPascal(m, n, p, q, j, k);
    if m == 0 {
      if k == 1 {
        TermOfNoTrials(p, q);
        TermOutside(m, p, q, k);
      } else if k == 0 {
        TermOutside(m, p, q, j);
      } else {
        TermOutside(m, p, q, j);
        TermOutside(m, p, q, k);
      }
    } else {
      var l, i := m - 1, j - 1;
      TermPascal(l, m, p, q, i, j);
      AbsorptionInduction(l, m, p, q, i, j);
      AbsorptionInduction(l, m, p, q, j, k);
      AbsorptionArith(k as real, j as real, n as real, m as real, p, q,
                      Term(n, p, q, k), Term(m, p, q, j), Term(m, p, q, k),
                      Term(l, p, q, i), Term(l, p, q, j));
    }
  }

  /** The arithmetic of one absorption step: `t == p a + q b`,
      `a == p c + q d`, `(k - 1) a == (m p) c` and `k b == (m p) d` give
      `k t == ((m + 1) p) a`. */
  lemma AbsorptionArith(k: real, k1: real, n: real, m: real, p: real, q: real,
                        t: real, a: real, b: real, c: real, d: real)
    requires k1 == k - 1.0 && n == m + 1.0
    requires t == p * a + q * b && a == p * c + q * d
    requires k1 * a == (m * p) * c && k * b == (m * p) * d
    ensures k * t == (n * p) * a
  {
    calc {
      k * t;
      p * a + p * (k1 * a) + q * (k * b);
      p * a + p * ((m * p) * c) + q * ((m * p) * d);
      p * a + (m * p) * (p * c + q * d);
      (n * p) * a;
    }
  }

  /** The mean of the terms is `n p` when `p + q == 1`. */
  lemma MeanOfTerms(n: nat, p: real, q: real)
    requires p + q == 1.0
    ensures Sum(FirstMoments(n, p, q), 0, n + 1) == n as real * p
  {
    if n == 0 {
      SumLast(FirstMoments(n, p, q), 0, 1);
    } else {
      MeanShift(n, p, q);
      TermsSumToOne(n - 1, p, q);
    }
  }

  /** Absorption summed over a row: the first moment of row `n` is `n p`
      times the total of row `n - 1`. */
  lemma MeanShift(n: nat, p: real, q: real)
    requires 1 <= n
    ensures Sum(FirstMoments(n, p, q), 0, n + 1) == (n as real * p) * Sum(Terms(n - 1, p, q), 0, n)
  {
    MeanSummands(n, p, q);
    SumScaleShift(FirstMoments(n, p, q), Terms(n - 1, p, q), n as real * p, 1, 0, n + 1, -1, n);
    RowPadded(n - 1, n, n + 1, p, q);
  }

  /** The second factorial moment of the terms is `n (n - 1) p^2` when `p + q == 1`. */
  lemma SecondFactorialMoment(n: nat, p: real, q: real)
    requires p + q == 1.0
    ensures Sum(FactorialMoments(n, p, q), 0, n + 1) == n as real * (n as real - 1.0) * p * p
  {
    if n == 0 {
      SumLast(FactorialMoments(n, p, q), 0, 1);
    } else {
      FactorialMomentShift(n, p, q);
      MeanOfTerms(n - 1, p, q);
      MomentArith(n as real, p);
    }
  }

  lemma MomentArith(n: real, p: real)
    ensures (n * p) * ((n - 1.0) * p) == n * (n - 1.0) * p * p
  {
  }

  /** Absorption summed over a row: the second factorial moment of row `n`
      is `n p` times the first moment of row `n - 1`. */
  lemma FactorialMomentShift(n: nat, p: real, q: real)
    requires 1 <= n
    ensures Sum(FactorialMoments(n, p, q), 0, n + 1)
         == (n as real * p) * Sum(FirstMoments(n - 1, p, q), 0, n)
  {
    FactorialMomentSummands(n, p, q);
    SumScaleShift(FactorialMoments(n, p, q), FirstMoments(n - 1, p, q), n as real * p, 1, 0, n + 1, -1, n);
    MomentsPadded(n - 1, n, p, q);
  }

  lemma FactorialMomentAbsorption(n: nat, p: real, q: real, k: int)
    requires 1 <= n
    ensures k as real * (k as real - 1.0) * Term(n, p, q, k)
         == (n as real * p) * ((k - 1) as real * Term(n - 1, p, q, k - 1))
  {
    TermAbsorption(n, p, q, k);
    var t, t' := Term(n, p, q, k), Term(n - 1, p, q, k - 1);
    assert k as real * t == (n as real * p) * t';
    assert k as real * (k as real - 1.0) * t == (k as real - 1.0) * (k as real * t);
    assert (k as real - 1.0) * ((n as real * p) * t') == (n as real * p) * ((k - 1) as real * t');
  }

  /** The variance of the terms about their mean `n p` is `n p q` when `p + q == 1`. */
  lemma VarianceOfTerms(n: nat, p: real, q: real)
    requires p + q == 1.0
    ensures Sum(Deviations(n, p, q, n as real * p), 0, n + 1) == n as real * p * q
  {
    VarianceExpansion(n, p, q, n as real * p);
    SecondFactorialMoment(n, p, q);
    MeanOfTerms(n, p, q);
    TermsSumToOne(n, p, q);
    VarianceArith(n as real, p, q);
  }

  /** `(k - mu)^2 == k (k - 1) + (1 - 2 mu) k + mu^2`, summed against the terms. */
  lemma VarianceExpansion(n: nat, p: real, q: real, mu: real)
    ensures Sum(Deviations(n, p, q, mu), 0, n + 1)
         == Sum(FactorialMoments(n, p, q), 0, n + 1)
            + (1.0 - 2.0 * mu) * Sum(FirstMoments(n, p, q), 0, n + 1)
            + (mu * mu) * Sum(Terms(n, p, q), 0, n + 1)
  {
    DeviationSummands(n, p, q, mu);
    var h, f, g, t := Deviations(n, p, q, mu), FactorialMoments(n, p, q), FirstMoments(n, p, q), Terms(n, p, q);
    SumLinear(h, f, g, t, 1.0 - 2.0 * mu, mu * mu, 0, n + 1);
  }

  lemma MeanSummands(n: nat, p: real, q: real)
    requires 1 <= n
    ensures forall k :: 0 <= k < n + 1 ==>
              FirstMoments(n, p, q)(k) == (n as real * p) * Terms(n - 1, p, q)(k - 1)
  {
    forall k | 0 <= k < n + 1
      ensures FirstMoments(n, p, q)(k) == (n as real * p) * Terms(n - 1, p, q)(k - 1)
    {
      MeanSummand(n, p, q, k);
    }
  }

  lemma MeanSummand(n: nat, p: real, q: real, k: int)
    requires 1 <= n
    ensures FirstMoments(n, p, q)(k) == (n as real * p) * Terms(n - 1, p, q)(k - 1)
  {
    TermAbsorption(n, p, q, k);
  }

  lemma FactorialMomentSummands(n: nat, p: real, q: real)
    requires 1 <= n
    ensures forall k :: 0 <= k < n + 1 ==>
              FactorialMoments(n, p, q)(k) == (n as real * p) * FirstMoments(n - 1, p, q)(k - 1)
  {
    forall k | 0 <= k < n + 1
      ensures FactorialMoments(n, p, q)(k) == (n as real * p) * FirstMoments(n - 1, p, q)(k - 1)
    {
      FactorialMomentSummand(n, p, q, k);
    }
  }

  lemma FactorialMomentSummand(n: nat, p: real, q: real, k: int)
    requires 1 <= n
    ensures FactorialMoments(n, p, q)(k) == (n as real * p) * FirstMoments(n - 1, p, q)(k - 1)
  {
    FactorialMomentAbsorption(n, p, q, k);
  }

  lemma DeviationSummands(n: nat, p: real, q: real, mu: real)
    ensures forall k :: 0 <= k < n + 1 ==>
              Deviations(n, p, q, mu)(k)
              == FactorialMoments(n, p, q)(k) + (1.0 - 2.0 * mu) * FirstMoments(n, p, q)(k)
                 + (mu * mu) * Terms(n, p, q)(k)
  {
    forall k | 0 <= k < n + 1
      ensures Deviations(n, p, q, mu)(k)
           == FactorialMoments(n, p, q)(k) + (1.0 - 2.0 * mu) * FirstMoments(n, p, q)(k)
              + (mu * mu) * Terms(n, p, q)(k)
    {
      DeviationSummand(n, p, q, mu, k);
    }
  }

  lemma DeviationSummand(n: nat, p: real, q: real, mu: real, k: int)
    ensures Deviations(n, p, q, mu)(k)
         == FactorialMoments(n, p, q)(k) + (1.0 - 2.0 * mu) * FirstMoments(n, p, q)(k)
            + (mu * mu) * Terms(n, p, q)(k)
  {
    DeviationArith(k as real, mu, Term(n, p, q, k));
  }

  lemma DeviationArith(k: real, mu: real, t: real)
    ensures (k - mu) * (k - mu) * t == k * (k - 1.0) * t + (1.0 - 2.0 * mu) * (k * t) + (mu * mu) * t
  {
  }

  lemma VarianceArith(n: real, p: real, q: real)
    requires p + q == 1.0
    ensures n * (n - 1.0) * p * p + (1.0 - 2.0 * (n * p)) * (n * p) + ((n * p) * (n * p)) * 1.0 == n * p * q
  {
  }
}
