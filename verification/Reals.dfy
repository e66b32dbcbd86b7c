// Real arithmetic shared by the modules: a product with the sign facts that the solver
// does not find on its own, and bounds on quotients.
module Reals {
  // Confidences, costs and probabilities.
  type Unit = x: real | 0.0 <= x <= 1.0 witness 0.0

  function Min(a: real, b: real): real { if a <= b then a else b }

  function Max(a: real, b: real): real { if a >= b then a else b }

  function Abs(x: real): real { if x >= 0.0 then x else -x }

  function Product(a: real, b: real): (r: real)
    ensures r == a * b
    ensures a >= 0.0 && b >= 0.0 ==> r >= 0.0
    ensures a > 0.0 && b > 0.0 ==> r > 0.0
  {
    a * b
  }

  lemma MulMono(p: real, a: real, b: real)
    requires p >= 0.0 && a <= b
    ensures Product(p, a) <= Product(p, b)
  {
    assert Product(p, b) == Product(p, a) + Product(p, b - a);
  }

  lemma QuotientBounds(s: real, t: real, lo: real, hi: real)
    requires t > 0.0 && Product(t, lo) <= s <= Product(t, hi)
    ensures s == Product(t, s / t) && lo <= s / t <= hi
  {
    var q := s / t;
    assert Product(t, lo - q) == Product(t, lo) - s;
    assert Product(t, q - hi) == s - Product(t, hi);
  }

  lemma QuotientAntitone(a: real, b: real, c: real)
    requires a >= 0.0 && 0.0 < b <= c
    ensures 0.0 <= a / c <= a / b
  {
    QuotientBounds(a, b, 0.0, a / b);
    assert Product(c, a / b) == a + Product(c - b, a / b);
    QuotientBounds(a, c, 0.0, a / b);
  }

  lemma UnitProduct(a: real, b: real)
    requires 0.0 <= a <= 1.0 && 0.0 <= b <= 1.0
    ensures 0.0 <= a * b <= 1.0
  {
    assert Product(a, b) + Product(a, 1.0 - b) == a;
  }
}
