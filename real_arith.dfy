/** Facts about division of reals used by the normalisation and the metric bar. */
module RealArith {

  lemma FractionInUnit(a: real, b: real)
    requires 0.0 <= a <= b && 0.0 < b
    ensures 0.0 <= a / b <= 1.0
  {
  }

  lemma SelfDivide(b: real)
    requires b != 0.0
    ensures b / b == 1.0
  {
    var q := b / b;
    assert b * q == b;
    assert b * (q - 1.0) == 0.0;
  }

  lemma DivideMonotone(a: real, c: real, b: real)
    requires a <= c && 0.0 < b
    ensures a / b <= c / b
  {
  }

  lemma DivideSum(a: real, c: real, b: real)
    requires b != 0.0
    ensures a / b + c / b == (a + c) / b
  {
  }
}
