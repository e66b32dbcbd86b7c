// Python's round on exact reals: to the nearest multiple of 1/scale, ties to even.
module Rounding {
  function HalfEven(s: real): int {
    var f := s.Floor;
    var r := s - f as real;
    if r < 0.5 then f
    else if r > 0.5 then f + 1
    else if f % 2 == 0 then f
    else f + 1
  }

  function Round(x: real, scale: real): real
    requires scale > 0.0
  {
    HalfEven(x * scale) as real / scale
  }

  function Round4(x: real): real { Round(x, 10000.0) }

  function Round6(x: real): real { Round(x, 1000000.0) }

  lemma FloorBounds(s: real)
    ensures s.Floor as real <= s < s.Floor as real + 1.0
  {}

  lemma HalfEvenMonotone(s: real, t: real)
    requires s <= t
    ensures HalfEven(s) <= HalfEven(t)
  {
    FloorBounds(s);
    FloorBounds(t);
    assert s.Floor <= t.Floor;
  }

  // Rounding keeps the order of its arguments.
  lemma RoundMonotone(x: real, y: real, scale: real)
    requires scale > 0.0 && x <= y
    ensures Round(x, scale) <= Round(y, scale)
  {
    assert x * scale <= y * scale;
    HalfEvenMonotone(x * scale, y * scale);
    DivideMonotone(HalfEven(x * scale) as real, HalfEven(y * scale) as real, scale);
  }

  lemma DivideMonotone(a: real, b: real, scale: real)
    requires scale > 0.0 && a <= b
    ensures a / scale <= b / scale
  {}

  // Rounding moves a number by at most half a unit.
  lemma RoundError(x: real, scale: real)
    requires scale > 0.0
    ensures x - 0.5 / scale <= Round(x, scale) <= x + 0.5 / scale
  {
    var h := HalfEven(x * scale) as real;
    FloorBounds(x * scale);
    assert x * scale - 0.5 <= h <= x * scale + 0.5;
    DivideMonotone(x * scale - 0.5, h, scale);
    DivideMonotone(h, x * scale + 0.5, scale);
    assert (x * scale - 0.5) / scale == x - 0.5 / scale;
    assert (x * scale + 0.5) / scale == x + 0.5 / scale;
  }

  lemma RoundAt(x: real, scale: real, k: int)
    requires scale > 0.0 && x * scale == k as real
    ensures Round(x, scale) == k as real / scale
  {
    assert HalfEven(k as real) == k;
  }

  // A multiple of the unit is left alone.
  lemma RoundGrid(k: int, scale: real)
    requires scale > 0.0
    ensures Round(k as real / scale, scale) == k as real / scale
  {
    RoundAt(k as real / scale, scale, k);
  }

  lemma RoundUnit(x: real, scale: real, n: nat)
    requires scale == n as real && n > 0 && 0.0 <= x <= 1.0
    ensures 0.0 <= Round(x, scale) <= 1.0
  {
    RoundGrid(0, scale);
    RoundGrid(n, scale);
    assert 0 as real / scale == 0.0 && n as real / scale == 1.0;
    RoundMonotone(0.0, x, scale);
    RoundMonotone(x, 1.0, scale);
  }

  // Halfway between two multiples of the unit, the even one is taken.
  lemma TiesToEven(k: int)
    ensures HalfEven(k as real + 0.5) % 2 == 0 && HalfEven(k as real + 0.5) in {k, k + 1}
  {
    assert (k as real + 0.5).Floor == k;
  }
}
