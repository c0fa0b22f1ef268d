/** Facts about multiplication and division that the solver does not find on its own: signs,
    monotonicity and a bound through division on reals,
    and one more batch of a fixed size on integers. */
module RealArith {

  lemma MulSucc(c: int, e: int)
    ensures c * (e + 1) == c * e + c
  {}

  lemma MulMono(c: real, x: real, y: real)
    requires 0.0 <= c && x <= y
    ensures c * x <= c * y && x * c <= y * c
  {}

  lemma MulStrict(c: real, x: real, y: real)
    requires 0.0 < c && x < y
    ensures c * x < c * y && x * c < y * c
  {}

  lemma MulPos(a: real, b: real)
    requires 0.0 < a && 0.0 < b
    ensures 0.0 < a * b
  {}

  lemma MulNonNeg(a: real, b: real)
    requires 0.0 <= a && 0.0 <= b
    ensures 0.0 <= a * b
  {}

  lemma DivLower(sum: real, n: real, floor: real)
    requires 0.0 < n && n * floor <= sum
    ensures floor <= sum / n
  {
    assert sum / n - floor == (sum - n * floor) / n;
  }

  lemma DivUpper(sum: real, n: real, ceiling: real)
    requires 0.0 < n && sum < n * ceiling
    ensures sum / n < ceiling
  {
    assert ceiling - sum / n == (n * ceiling - sum) / n;
  }
}
