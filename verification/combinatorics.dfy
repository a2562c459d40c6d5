/** Exact integer combinatorics: `factorial` and `combinations`, with the
    facts that make the latter's floor division exact. */
module Combinatorics {
  import opened Errors
  import opened Values
  import opened Validation

  /** `n!` by the source's recursion: 1 below 2, else `n * (n - 1)!`. */
  function Fact(n: nat): (r: nat)
    ensures 1 <= r
  {
    if n < 2 then 1 else n * Fact(n - 1)
  }

  /** `factorial(v)`: validates `v`, then computes `v!` exactly. */
  function Factorial(v: Value): (r: Result<nat>)
    ensures r.Err? <==> ValidateNonNegativeInteger(v).Fail?
    ensures r.Err? ==> r.error == ValidateNonNegativeInteger(v).error
    ensures r.Ok? ==> 1 <= r.value && r.value == Product(1, IntOf(v) + 1)
  {
    match ValidateNonNegativeInteger(v)
    case Fail(e) => Err(e)
    case Pass =>
      FactIsProduct(IntOf(v));
      Ok(Fact(IntOf(v)))
  }

  /** `lo * (lo + 1) * ... * (hi - 1)`, multiplied from the low end: the
      "product of all positive integers up to n" that a factorial is. */
  function Product(lo: int, hi: int): int
    decreases hi - lo
  {
    if hi <= lo then 1 else lo * Product(lo + 1, hi)
  }

  lemma {:induction false} ProductSplitLast(lo: int, hi: int)
    requires lo < hi
    ensures Product(lo, hi) == Product(lo, hi - 1) * (hi - 1)
    decreases hi - lo
  {
    if lo + 1 < hi {
      ProductSplitLast(lo + 1, hi);
      assert Product(lo, hi) == lo * (Product(lo + 1, hi - 1) * (hi - 1));
    }
  }

  /** The recursion computes the product `1 * 2 * ... * n`. */
  lemma {:induction false} FactIsProduct(n: nat)
    ensures Fact(n) == Product(1, n + 1)
  {
    if n >= 2 {
      FactIsProduct(n - 1);
      ProductSplitLast(1, n + 1);
    } else {
      assert Product(2, n + 1) == 1;
    }
  }

  /** `n! == n * (n - 1)!` for every positive `n`, including `n == 1`. */
  lemma FactStep(n: nat)
    requires 1 <= n
    ensures Fact(n) == n * Fact(n - 1)
  {
  }

  /** The three values the source's test suite and docstring fix:
      `0! == 1! == 1` and the recurrence above 1, all reached through the
      validating entry point. */
  lemma FactorialRecurrence(n: int)
    ensures Factorial(IntV(0)) == Ok(1) && Factorial(IntV(1)) == Ok(1)
    ensures n >= 2 ==> Factorial(IntV(n)) == Ok(n * Factorial(IntV(n - 1)).value)
    ensures n < 0 ==> Factorial(IntV(n)) == Err(ValueError)
  {
  }

  /** Pascal's triangle: a reference definition of the binomial coefficient
      that uses no division; zero outside `0 <= k <= n`. Spread over `Pascal`
      and `PascalCases` so that the verifier does not split the cases of
      every coefficient it meets; `PascalRule`, `PascalEdges` and
      `PascalOutside` state them. */
  function Pascal(n: nat, k: int): nat
    decreases n, 1
  {
    PascalCases(n, k)
  }

  /** The cases of Pascal's triangle: outside, on the edge, inside. */
  function PascalCases(n: nat, k: int): nat
    decreases n, 0
  {
    if k < 0 || k > n then 0
    else if k == 0 || k == n then 1
    else Pascal(n - 1, k - 1) + Pascal(n - 1, k)
  }

  /** Pascal's rule inside the triangle, for row `n == m + 1` and column
      `k == j + 1`; the neighbours are parameters so that callers choose how
      the indices are written. */
  lemma PascalRule(m: nat, n: nat, j: int, k: int)
    requires n == m + 1 && k == j + 1 && 0 < k < n
    ensures Pascal(n, k) == Pascal(m, j) + Pascal(m, k)
    ensures Pascal(n, k) as real == Pascal(m, j) as real + Pascal(m, k) as real
  {
    assert Pascal(n, k) == PascalCases(n, k);
  }

  /** Both edges of every row are one. */
  lemma PascalEdges(n: nat)
    ensures Pascal(n, 0) == 1 && Pascal(n, n) == 1
  {
    assert Pascal(n, 0) == PascalCases(n, 0);
    assert Pascal(n, n) == PascalCases(n, n);
  }

  /** The triangle is zero outside `0 <= k <= n`. */
  lemma PascalOutside(n: nat, k: int)
    requires k < 0 || n < k
    ensures Pascal(n, k) == 0
  {
    assert Pascal(n, k) == PascalCases(n, k);
  }

  /** The binomial coefficient times `k! (n - k)!` is `n!`: so the
      denominator of `combinations` always divides the numerator. */
  lemma {:induction false} PascalTimesFactorials(n: nat, k: int)
    requires 0 <= k <= n
    ensures Pascal(n, k) * (Fact(k) * Fact(n - k)) == Fact(n)
  {
    if k == 0 || k == n {
      PascalEdges(n);
    } else {
      var a, b := Pascal(n - 1, k - 1), Pascal(n - 1, k);
      var fk, fk1, fnk, fnk1 := Fact(k), Fact(k - 1), Fact(n - k), Fact(n - k - 1);
      var f := Fact(n - 1);
      PascalTimesFactorials(n - 1, k - 1);
      PascalTimesFactorials(n - 1, k);
      FactStep(k);
      FactStep(n - k);
      FactStep(n);
      PascalRule(n - 1, n, k - 1, k);
      PascalStep(a, b, k, n - k, fk1, fnk1, f);
    }
  }

  /** The arithmetic of one Pascal step, with the factorials as plain numbers:
      from `a (k-1)! (n-k)! == (n-1)!` and `b k! (n-k-1)! == (n-1)!` follows
      `(a + b) k! (n-k)! == n (n-1)!`. */
  lemma PascalStep(a: int, b: int, k: int, m: int, fk1: int, fm1: int, f: int)
    requires a * (fk1 * (m * fm1)) == f
    requires b * ((k * fk1) * fm1) == f
    ensures (a + b) * ((k * fk1) * (m * fm1)) == (k + m) * f
  {
    calc {
      (a + b) * ((k * fk1) * (m * fm1));
      a * ((k * fk1) * (m * fm1)) + b * ((k * fk1) * (m * fm1));
      { MulRearrange(a, k, fk1, m * fm1); }
      k * (a * (fk1 * (m * fm1))) + b * ((k * fk1) * (m * fm1));
      { MulRearrange(b, m, k * fk1, fm1); }
      k * f + m * (b * ((k * fk1) * fm1));
      k * f + m * f;
    }
  }

  lemma MulRearrange(a: int, k: int, x: int, y: int)
    ensures a * ((k * x) * y) == k * (a * (x * y))
    ensures a * (x * (k * y)) == k * (a * (x * y))
  {
  }

  /** Floor division of an exact multiple gives back the factor. */
  lemma DivExact(a: int, d: int, q: int)
    requires 0 < d && a == q * d
    ensures a / d == q
  {
    var r, m := a / d, a % d;
    assert a == d * r + m && 0 <= m < d;
    assert (q - r) * d == m;
    if q - r >= 1 {
      MulAtLeast(q - r, d);
    }
  }

  lemma MulAtLeast(x: int, d: int)
    requires 1 <= x && 0 < d
    ensures d <= x * d
  {
    assert x * d == (x - 1) * d + d;
    assert 0 <= (x - 1) * d;
  }

  /** `n! // (k! (n - k)!)`, the quotient `combinations` returns, extended
      with zero outside `0 <= k <= n` so that Pascal's rule reads uniformly. */
  function ChooseNat(n: nat, k: int): nat
  {
    if 0 <= k <= n then
      MulAtLeast(Fact(k), Fact(n - k));
      FloorDiv(Fact(n), Fact(k) * Fact(n - k))
    else 0
  }

  /** Python's `//` on a non-negative dividend and a positive divisor. */
  function FloorDiv(a: nat, d: int): (r: nat)
    requires 0 < d
    ensures r * d <= a < (r + 1) * d
  {
    a / d
  }

  /** The factorial quotient agrees with Pascal's triangle everywhere. */
  lemma ChooseIsPascal(n: nat, k: int)
    ensures ChooseNat(n, k) == Pascal(n, k)
  {
    if 0 <= k <= n {
      PascalTimesFactorials(n, k);
      DivExact(Fact(n), Fact(k) * Fact(n - k), Pascal(n, k));
    } else {
      PascalOutside(n, k);
    }
  }

  /** `combinations(n, r)`: validates `n`, then `r`, then `r <= n`, and
      returns `n! // (r! (n - r)!)`. */
  function Combinations(n: Value, r: Value): (c: Result<nat>)
    ensures c.Ok? <==> IsInt(n) && IsInt(r) && 0 <= IntOf(r) <= IntOf(n)
    ensures ValidateNonNegativeInteger(n).Fail? ==> c == Err(ValidateNonNegativeInteger(n).error)
    ensures (ValidateNonNegativeInteger(n).Pass? && ValidateNonNegativeInteger(r).Fail?)
              ==> c == Err(ValidateNonNegativeInteger(r).error)
    ensures (IsInt(n) && IsInt(r) && 0 <= IntOf(n) < IntOf(r)) ==> c == Err(ValueError)
    ensures c.Ok? ==> c.value * (Fact(IntOf(r)) * Fact(IntOf(n) - IntOf(r))) == Fact(IntOf(n))
    ensures c.Ok? ==> c.value == Pascal(IntOf(n), IntOf(r))
  {
    match ValidateNonNegativeInteger(n)
    case Fail(e) => Err(e)
    case Pass =>
      match ValidateNonNegativeInteger(r)
      case Fail(e) => Err(e)
      case Pass =>
        match ValidateLessEqual(r, n)
        case Fail(e) => Err(e)
        case Pass =>
          ChooseIsPascal(IntOf(n), IntOf(r));
          PascalTimesFactorials(IntOf(n), IntOf(r));
          Ok(ChooseNat(IntOf(n), IntOf(r)))
  }

  /** `C(n, r) == C(n, n - r)`, errors included: `r` is out of range exactly
      when `n - r` is. */
  lemma CombinationsSymmetric(n: int, r: int)
    ensures Combinations(IntV(n), IntV(r)) == Combinations(IntV(n), IntV(n - r))
  {
    if 0 <= r <= n {
      assert n - (n - r) == r;
      assert Fact(r) * Fact(n - r) == Fact(n - r) * Fact(n - (n - r));
    }
  }

  /** Pascal's rule for `combinations`: `C(n + 1, k) == C(n, k - 1) + C(n, k)`
      inside the triangle. */
  lemma CombinationsPascalRule(n: nat, k: int)
    requires 1 <= k <= n
    ensures Combinations(IntV(n + 1), IntV(k)).Ok?
    ensures Combinations(IntV(n + 1), IntV(k)).value
            == Combinations(IntV(n), IntV(k - 1)).value + Combinations(IntV(n), IntV(k)).value
  {
    PascalRule(n, n + 1, k - 1, k);
  }

  /** `C(n, 0) == C(n, n) == 1`. */
  lemma CombinationsEdges(n: nat)
    ensures Combinations(IntV(n), IntV(0)) == Ok(1)
    ensures Combinations(IntV(n), IntV(n)) == Ok(1)
  {
    PascalEdges(n);
  }
}
