/** The concrete values the module's test suite and docstrings fix, stated
    on the model. */
module PinnedValues {
  import opened Errors
  import opened Values
  import opened Validation
  import opened Combinatorics
  import opened Sums
  import opened BinomialTerms
  import opened BinomialDistribution

  /** The guards accept `0`, `4`, `15` and `(2, 4)`, reject `-1`, `(4, 2)`
      and `(-4, 2)` with a ValueError and `1.5`, `"cat"`, `(4.5, 2)` and
      `(4, 2.5)` with a TypeError. */
  lemma ValidationExamples()
    ensures ValidateNonNegativeInteger(IntV(0)) == Pass
    ensures ValidateNonNegativeInteger(IntV(15)) == Pass
    ensures ValidateNonNegativeInteger(IntV(-1)) == Fail(ValueError)
    ensures ValidateNonNegativeInteger(FloatV(1.5)) == Fail(TypeError)
    ensures ValidateNonNegativeInteger(StrV("cat")) == Fail(TypeError)
    ensures ValidateLessEqual(IntV(2), IntV(4)) == Pass
    ensures ValidateLessEqual(IntV(4), IntV(2)) == Fail(ValueError)
    ensures ValidateLessEqual(IntV(-4), IntV(2)) == Fail(ValueError)
    ensures ValidateLessEqual(FloatV(4.5), IntV(2)) == Fail(TypeError)
    ensures ValidateLessEqual(IntV(4), FloatV(2.5)) == Fail(TypeError)
  {
  }

  /** `factorial(0..5) == 1, 1, 2, 6, 24, 120`; `factorial(-4)` is a
      ValueError and `factorial(4.5)` a TypeError. */
  lemma FactorialExamples()
    ensures Factorial(IntV(0)) == Ok(1) && Factorial(IntV(1)) == Ok(1)
    ensures Factorial(IntV(2)) == Ok(2) && Factorial(IntV(3)) == Ok(6)
    ensures Factorial(IntV(4)) == Ok(24) && Factorial(IntV(5)) == Ok(120)
    ensures Factorial(IntV(-4)) == Err(ValueError)
    ensures Factorial(FloatV(4.5)) == Err(TypeError)
  {
  }

  /** Row 4 of Pascal's triangle, `1 4 6 4 1`, and the errors for
      `(-4, 1)`, `(4, -1)`, `(4.5, 1)` and `(4, 1.5)`. */
  lemma CombinationsExamples()
    ensures Combinations(IntV(4), IntV(0)) == Ok(1)
    ensures Combinations(IntV(4), IntV(1)) == Ok(4)
    ensures Combinations(IntV(4), IntV(2)) == Ok(6)
    ensures Combinations(IntV(4), IntV(3)) == Ok(4)
    ensures Combinations(IntV(4), IntV(4)) == Ok(1)
    ensures Combinations(IntV(-4), IntV(1)) == Err(ValueError)
    ensures Combinations(IntV(4), IntV(-1)) == Err(ValueError)
    ensures Combinations(FloatV(4.5), IntV(1)) == Err(TypeError)
    ensures Combinations(IntV(4), FloatV(1.5)) == Err(TypeError)
  {
  }

  /** `Binomial(7, 0.5).probability_k(2) == 21 / 128 == 0.1640625`. */
  lemma ProbabilityExample()
    ensures New(IntV(7), FloatV(0.5)) == Ok(Binomial(7, 0.5))
    ensures Pmf(Binomial(7, 0.5))(2) == 0.1640625
  {
    TermClosedForm(7, 0.5, 0.5, 2, 5);
  }

  /** `Binomial(10, 0.3)` has mean `3.0` and variance `10 * 0.3 * 0.7`. */
  lemma StatisticsExamples()
    ensures New(IntV(10), FloatV(0.3)) == Ok(Binomial(10, 0.3))
    ensures ExpectedValue(Binomial(10, 0.3)) == 3.0
    ensures Variance(Binomial(10, 0.3)) == 10.0 * 0.3 * 0.7
  {
  }

  /** For `Binomial(4, 0.5)`, `cumulative(2)` is the sum of
      `probability_k(0..2)` and `cumulative_range(1, 3)` that of
      `probability_k(1..3)`. */
  lemma CumulativeExamples()
    ensures Cumulative(Binomial(4, 0.5), IntV(2))
            == Ok(Pmf(Binomial(4, 0.5))(0) + Pmf(Binomial(4, 0.5))(1) + Pmf(Binomial(4, 0.5))(2))
    ensures CumulativeRange(Binomial(4, 0.5), IntV(1), IntV(3))
            == Ok(Pmf(Binomial(4, 0.5))(1) + Pmf(Binomial(4, 0.5))(2) + Pmf(Binomial(4, 0.5))(3))
  {
    var f := Pmf(Binomial(4, 0.5));
    SumLast(f, 0, 3);
    SumLast(f, 0, 2);
    SumLast(f, 0, 1);
    SumLast(f, 1, 4);
    SumLast(f, 1, 3);
    SumLast(f, 1, 2);
  }
}
