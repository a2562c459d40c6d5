# Binomial distribution toolkit, modelled in Dafny

This project models `binomial.py`, a small module for binomial
distributions. It has two input guards: `validate_non_negative_integer` and
`validate_less_equal`. It has two exact integer functions: `factorial` and
`combinations`. Its class `Binomial(num_trails, prob_success)` answers the
probability of exactly `k` successes, the full distribution, the
cumulative probability `P(X <= k)`, the range probability
`P(k1 <= X <= k2)`, the mean and the variance.

What the model looks like:

- Python arguments are a tagged `Value`:
  - an `int`;
  - a `bool`, which Python treats as an `int`;
  - a `float`;
  - a string.
- Each exception the source raises is an `Err(TypeError)` or an `Err(ValueError)` result.
- Floating-point arithmetic is exact `real` arithmetic.
- A `Binomial` is an immutable, validated value. The source's getters re-run their checks on each access; the model runs those checks once, in `New`.

The probability of `k` successes is defined independently as a recurrence:

    T(n, k) = p T(n - 1, k - 1) + q T(n - 1, k)

From that recurrence the model proves:

- the source's closed form `C(n, k) p^k q^(n-k)`;
- the binomial theorem;
- the mean and the variance.

Modules, one per file:

- `Errors`, `Values`: the outcome types and the Python values passed in.
- `Validation`: the two guards.
- `Combinatorics`: `factorial`, `combinations`, and Pascal's triangle as the reference definition.
- `Sums`: exact powers and finite sums, with their algebra.
- `BinomialTerms`: the probability terms and the identities about their sums.
- `BinomialDistribution`: the `Binomial` class.
- `PinnedValues`: the concrete values the test suite checks.

## Model

| member | source | states |
|---|---|---|
| Validation.ValidateNonNegativeInteger | binomial.py:21-33 | passes exactly the non-negative `int`s, `bool`s included; a TypeError exactly for non-`int`s, integral floats such as `4.0` included; a ValueError exactly for negative `int`s |
| Validation.ValidateLessEqual | binomial.py:36-50 | passes exactly when both are non-negative `int`s and `x <= y`; the first argument's error wins over the second's, and both win over the ordering ValueError; a TypeError exactly when `x` is not an `int` or `x` passes and `y` is not an `int` |
| Combinatorics.Factorial | binomial.py:53-67 | fails exactly as the guard does, with the guard's error; otherwise the result is the product `1 * 2 * ... * n` and at least 1 |
| Combinatorics.FactIsProduct | binomial.py:65-67 | the recursion "1 below 2, else `n * (n-1)!`" equals the product of all positive integers up to `n` |
| Combinatorics.FactorialRecurrence | binomial.py:64-67 | through the validating entry point: `0! == 1! == 1`, `n! == n * (n-1)!` above 1, and a ValueError below 0 |
| Combinatorics.Combinations | binomial.py:70-89 | succeeds exactly for `int`s with `0 <= r <= n`; `n`'s guard error comes first, then `r`'s; `r > n` is a ValueError; the floor division is exact, since `C * r! * (n-r)! == n!`; the value is the Pascal's-triangle coefficient |
| Combinatorics.PascalTimesFactorials | binomial.py:89 | the coefficient defined by Pascal's rule times `k! (n-k)!` is `n!`, so the division in the source leaves no remainder |
| Combinatorics.ChooseIsPascal | binomial.py:89 | `n! // (k! (n-k)!)` equals the Pascal's-triangle coefficient, and is 0 outside the triangle |
| Combinatorics.CombinationsSymmetric | binomial.py:86-89 | `C(n, r) == C(n, n - r)` for all integers, errors included |
| Combinatorics.CombinationsPascalRule | binomial.py:86-89 | Pascal's rule `C(n+1, k) == C(n, k-1) + C(n, k)` for `1 <= k <= n` |
| Combinatorics.CombinationsEdges | binomial.py:86-89 | `C(n, 0) == C(n, n) == 1` |
| BinomialTerms.TermClosedForm | binomial.py:189-193 | the recurrence-defined probability term equals `C(n, k) p^k q^(n-k)` |
| BinomialTerms.TermPascal | binomial.py:189-193 | each term at `n` is `p` times the term at `(n-1, k-1)` plus `q` times the term at `(n-1, k)`, at every `k` |
| BinomialTerms.TermNonNegative | binomial.py:189-193 | with `p, q >= 0`, every term is non-negative |
| BinomialTerms.BinomialTheorem | binomial.py:164-167 | the terms over `0..n` sum to `(p + q)^n` |
| BinomialTerms.TermsSumToOne | binomial.py:164-167 | with `p + q == 1`, the terms over `0..n` sum to 1 |
| BinomialTerms.TermAbsorption | binomial.py:124-132 | `k T(n, k) == n p T(n-1, k-1)` for every `n >= 1` and every `k` |
| BinomialTerms.MeanOfTerms | binomial.py:124-132 | `sum k T(n, k) == n p` |
| BinomialTerms.SecondFactorialMoment | binomial.py:134-142 | `sum k (k-1) T(n, k) == n (n-1) p^2` |
| BinomialTerms.VarianceOfTerms | binomial.py:134-142 | `sum (k - n p)^2 T(n, k) == n p q` |
| BinomialDistribution.New | binomial.py:93-118 | succeeds exactly for a non-negative `int` `n` and a number `p` in `[0, 1]`; a non-number `p` is a TypeError before anything else, since `1 - p` runs first; then `n`'s guard error; then a ValueError for `p` out of range |
| BinomialDistribution.ProbFailure | binomial.py:104-122 | `q` is in `[0, 1]` and `p + q == 1` |
| BinomialDistribution.PmfBounds | binomial.py:169-193 | every probability is in `[0, 1]` |
| BinomialDistribution.ProbabilityK | binomial.py:169-193 | a TypeError exactly for a non-`int` `k`; a ValueError for `k` outside `0..n`; otherwise the probability mass at `k`, in `[0, 1]`; the same result as the one-point range `cumulative_range(k, k)`, errors included |
| BinomialDistribution.Weigh | binomial.py:189-193 | `C(n, k) * p**k * q**(n-k)` is the probability mass at `k` |
| BinomialDistribution.PmfSumsToOne | binomial.py:156-167 | the probabilities of `0..n` sum to 1 |
| BinomialDistribution.Distribution | binomial.py:156-167 | the keys are exactly `0..n`; each value is the probability at its key; the values sum to 1 |
| BinomialDistribution.Cumulative | binomial.py:195-212 | the same errors as `probability_k`; otherwise a result in `[0, 1]` |
| BinomialDistribution.Accumulate | binomial.py:209-212 | the accumulation loop over `range(lo, hi + 1)` computes the sum of the probabilities of `lo..hi`, which lies in `[0, 1]` |
| BinomialDistribution.CumulativeAccumulates | binomial.py:209-211 | `cumulative(0) == P(X = 0)`, and `cumulative(k) == cumulative(k-1) + P(X = k)` |
| BinomialDistribution.CumulativeOfAllIsOne | binomial.py:195-212 | `cumulative(n) == 1` |
| BinomialDistribution.CumulativeMonotone | binomial.py:195-212 | `cumulative` never decreases as `k` grows |
| BinomialDistribution.CumulativeRange | binomial.py:214-236 | succeeds exactly for `int`s with `0 <= k1 <= k2 <= n`; a TypeError exactly when `k1` is not an `int`, or `k1` passes and `k2` is not an `int`; otherwise a result in `[0, 1]` |
| BinomialDistribution.CumulativeIsRangeFromZero | binomial.py:195-236 | `cumulative(k) == cumulative_range(0, k)` for every argument, errors included |
| BinomialDistribution.CumulativeRangeOfOnePoint | binomial.py:214-236 | `cumulative_range(k, k)` is `P(X = k)`; a non-`int` is a TypeError; `k` outside `0..n` is a ValueError |
| BinomialDistribution.CumulativeRangeIsDifference | binomial.py:214-236 | `P(k1 <= X <= k2) == cumulative(k2) - cumulative(k1 - 1)` |
| BinomialDistribution.ExpectedValue | binomial.py:124-132 | `n p` is the mean `sum k P(X = k)` of the distribution, and lies in `[0, n]` |
| BinomialDistribution.Variance | binomial.py:134-142 | `n p q` is `sum (k - mu)^2 P(X = k)` about the mean `mu`, and lies in `[0, n/4]` |
| PinnedValues.ValidationExamples | test_binomial.py:86-119 | the guards' outcomes on the test suite's arguments |
| PinnedValues.FactorialExamples | test_binomial.py:37-48 | `factorial(0..5) == 1, 1, 2, 6, 24, 120`; the errors for `-4` and `4.5` |
| PinnedValues.CombinationsExamples | test_binomial.py:61-73 | `C(4, 0..4) == 1, 4, 6, 4, 1` and the errors for negative and non-integral arguments |
| PinnedValues.ProbabilityExample | test_binomial.py:160-165 | `Binomial(7, 0.5).probability_k(2) == 0.1640625` |
| PinnedValues.StatisticsExamples | test_binomial.py:124-138 | `Binomial(10, 0.3)` has mean 3 and variance `10 * 0.3 * 0.7` |
| PinnedValues.CumulativeExamples | test_binomial.py:168-193 | for `Binomial(4, 0.5)`, `cumulative(2)` and `cumulative_range(1, 3)` are the sums of the matching `probability_k` |

## Left out

- `skewness` (binomial.py:144-154): it needs a square root, and it divides by zero when `p` is 0 or 1 or when `n` is 0.
- `print_distribution`, `__str__` and the `__main__` script (binomial.py:238-312) are left out: they are console I/O.
- Floating-point rounding is not modelled. Probabilities, means and variances are exact reals, so the results are the values that rounded float results approximate.
- NaN, infinities and argument types other than `int`, `bool`, `float` and `str` are not modelled.
- BinomialDistribution.New: attributes cannot be changed after construction, so the source's re-validation on each getter access is left out. Validation runs once, in `New`. For an object whose attributes are never reassigned, this gives the same results and the same errors.
- BinomialDistribution.New: the distribution the constructor caches in `_prob_distribution` is not a field of `Binomial`; `Distribution` computes it on demand. The constructor's errors are the ones that computation raises, and `New` states them.
- BinomialDistribution.Cumulative: the result is stated as the sum of the probabilities of `0..k`, not as the value of the loop. The loop itself is `Accumulate`, which is proved to compute that sum. The same holds for `CumulativeRange`.
- Python's recursion depth limit, which `factorial` reaches for large `n`, is left out, as are the costs of big-integer arithmetic.
