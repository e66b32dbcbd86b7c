// The two-sample statistic that calibration_engine.py computes where scipy is missing: a
// maximum over the pooled data points, against the supremum over the whole real line.
module KolmogorovSmirnov {
  import opened Reals
  import opened SortedReals

  // How many elements are at most x.
  function Count(s: seq<real>, x: real): (n: nat)
    ensures n <= |s|
  {
    if s == [] then 0 else (if s[0] <= x then 1 else 0) + Count(s[1..], x)
  }

  // The empirical distribution function.
  function Ecdf(s: seq<real>, x: real): real
    requires s != []
  {
    Count(s, x) as real / |s| as real
  }

  function Gap(a: seq<real>, b: seq<real>, x: real): real
    requires a != [] && b != []
  {
    Abs(Ecdf(a, x) - Ecdf(b, x))
  }

  function MaxGap(a: seq<real>, b: seq<real>, points: seq<real>): real
    requires a != [] && b != [] && points != []
  {
    var last := Gap(a, b, points[|points|-1]);
    if |points| == 1 then last else Max(MaxGap(a, b, points[..|points|-1]), last)
  }

  function Statistic(a: seq<real>, b: seq<real>): real {
    if a == [] || b == [] then 0.0 else MaxGap(a, b, Sort(a) + Sort(b))
  }

  // ------------------------------------------------------------ the program

  lemma {:induction false} CountConcat(a: seq<real>, b: seq<real>, x: real)
    ensures Count(a + b, x) == Count(a, x) + Count(b, x)
  {
    if a == [] {
      assert a + b == b;
    } else {
      assert (a + b)[1..] == a[1..] + b;
      CountConcat(a[1..], b, x);
    }
  }

  lemma CountInsert(v: real, s: seq<real>, x: real)
    requires Sorted(s)
    ensures Count(Insert(v, s), x) == Count(s, x) + Count([v], x)
  {
    hide Count, Sorted;
    var k := BisectRight(s, v);
    CountConcat(s[..k] + [v], s[k..], x);
    CountConcat(s[..k], [v], x);
    CountConcat(s[..k], s[k..], x);
    assert s[..k] + s[k..] == s;
  }

  lemma {:induction false} CountSort(s: seq<real>, x: real)
    ensures Count(Sort(s), x) == Count(s, x)
  {
    hide Insert;
    if s != [] {
      CountSort(s[1..], x);
      CountInsert(s[0], Sort(s[1..]), x);
      assert Count([s[0]], x) == if s[0] <= x then 1 else 0;
    }
  }

  // A right-sided search in the sorted sample counts the elements up to x.
  lemma {:induction false} BisectCounts(s: seq<real>, x: real)
    requires Sorted(s)
    ensures BisectRight(s, x) == Count(s, x)
  {
    if s != [] {
      BisectCounts(s[1..], x);
      if x < s[0] && |s| > 1 { assert s[1..][0] == s[1] >= s[0]; }
    }
  }

  method KsStatistic(sample1: seq<real>, sample2: seq<real>) returns (d: real)
    ensures d == Statistic(sample1, sample2)
  {
    hide Count, Sort, BisectRight;
    var s1, s2 := Sort(sample1), Sort(sample2);
    if |s1| == 0 || |s2| == 0 {
      return 0.0;
    }
    var all := s1 + s2;
    d := 0.0;
    for i := 0 to |all|
      invariant i > 0 ==> d == MaxGap(sample1, sample2, all[..i])
    {
      CountSort(sample1, all[i]);
      CountSort(sample2, all[i]);
      BisectCounts(s1, all[i]);
      BisectCounts(s2, all[i]);
      var cdf1 := BisectRight(s1, all[i]) as real / |s1| as real;
      var cdf2 := BisectRight(s2, all[i]) as real / |s2| as real;
      var gap := Abs(cdf1 - cdf2);
      d := if i == 0 then gap else Max(d, gap);
      assert all[..i+1][..i] == all[..i];
    }
    assert all[..|all|] == all;
  }

  // ----------------------------------------------------------- the supremum

  lemma {:induction false} MaxGapReached(a: seq<real>, b: seq<real>, points: seq<real>)
    requires a != [] && b != [] && points != []
    ensures forall p :: p in points ==> Gap(a, b, p) <= MaxGap(a, b, points)
    ensures exists p :: p in points && Gap(a, b, p) == MaxGap(a, b, points)
  {
    hide Gap;
    var n := |points| - 1;
    assert points[n] in points && points == points[..n] + [points[n]];
    if n > 0 {
      MaxGapReached(a, b, points[..n]);
      var q :| q in points[..n] && Gap(a, b, q) == MaxGap(a, b, points[..n]);
      assert q in points;
      assert forall p :: p in points ==> p in points[..n] || p == points[n];
    }
  }

  // The largest of the points at or below x is where both functions last changed.
  lemma {:induction false} LastStep(points: seq<real>, x: real) returns (p: real)
    requires exists v :: v in points && v <= x
    ensures p in points && p <= x && forall v :: v in points && v <= x ==> v <= p
  {
    var n := |points| - 1;
    assert points == points[..n] + [points[n]];
    if exists v :: v in points[..n] && v <= x {
      p := LastStep(points[..n], x);
      if p < points[n] <= x { p := points[n]; }
    } else {
      p := points[n];
    }
  }

  lemma {:induction false} CountBetween(s: seq<real>, p: real, x: real)
    requires p <= x && forall v :: v in s && v <= x ==> v <= p
    ensures Count(s, p) == Count(s, x)
  {
    if s != [] {
      assert s[0] in s && forall v :: v in s[1..] ==> v in s;
      CountBetween(s[1..], p, x);
    }
  }

  lemma {:induction false} CountNone(s: seq<real>, x: real)
    requires forall v :: v in s ==> v > x
    ensures Count(s, x) == 0
  {
    if s != [] {
      assert s[0] in s && forall v :: v in s[1..] ==> v in s;
      CountNone(s[1..], x);
    }
  }

  lemma EcdfUnit(s: seq<real>, x: real)
    requires s != []
    ensures 0.0 <= Ecdf(s, x) <= 1.0
  {
    var n := |s| as real;
    assert Product(n, 0.0) == 0.0 && Product(n, 1.0) == n;
    QuotientBounds(Count(s, x) as real, n, 0.0, 1.0);
  }

  lemma NowhereAbove(a: seq<real>, b: seq<real>, x: real)
    requires a != [] && b != []
    ensures Gap(a, b, x) <= Statistic(a, b)
  {
    hide Ecdf, Count, MaxGap, Sort;
    var points := Sort(a) + Sort(b);
    forall v ensures v in points <==> v in a || v in b {
      InSorted(a, v);
      InSorted(b, v);
    }
    MaxGapReached(a, b, points);
    assert a[0] in points && Gap(a, b, a[0]) >= 0.0;
    if exists v :: v in points && v <= x {
      var p := LastStep(points, x);
      SameAt(a, p, x);
      SameAt(b, p, x);
    } else {
      NoneAt(a, x);
      NoneAt(b, x);
    }
  }

  lemma SameAt(s: seq<real>, p: real, x: real)
    requires s != [] && p <= x && forall v :: v in s && v <= x ==> v <= p
    ensures Ecdf(s, p) == Ecdf(s, x)
  {
    CountBetween(s, p, x);
  }

  lemma NoneAt(s: seq<real>, x: real)
    requires s != [] && forall v :: v in s ==> v > x
    ensures Ecdf(s, x) == 0.0
  {
    CountNone(s, x);
  }

  // The maximum over the data is the supremum over all reals, and it is attained.
  lemma StatisticIsSupremum(a: seq<real>, b: seq<real>)
    requires a != [] && b != []
    ensures forall x: real :: Gap(a, b, x) <= Statistic(a, b)
    ensures exists x: real :: Gap(a, b, x) == Statistic(a, b)
  {
    hide Gap, MaxGap;
    MaxGapReached(a, b, Sort(a) + Sort(b));
    forall x: real ensures Gap(a, b, x) <= Statistic(a, b) { NowhereAbove(a, b, x); }
  }

  lemma StatisticUnit(a: seq<real>, b: seq<real>)
    ensures 0.0 <= Statistic(a, b) <= 1.0
  {
    hide MaxGap, Ecdf;
    if a != [] && b != [] {
      StatisticIsSupremum(a, b);
      var x: real :| Gap(a, b, x) == Statistic(a, b);
      EcdfUnit(a, x);
      EcdfUnit(b, x);
    }
  }

  lemma StatisticSymmetric(a: seq<real>, b: seq<real>)
    ensures Statistic(a, b) == Statistic(b, a)
  {
    hide MaxGap, Ecdf;
    if a != [] && b != [] {
      StatisticIsSupremum(a, b);
      StatisticIsSupremum(b, a);
      var x: real :| Gap(a, b, x) == Statistic(a, b);
      var y: real :| Gap(b, a, y) == Statistic(b, a);
      assert Gap(b, a, x) == Gap(a, b, x) && Gap(a, b, y) == Gap(b, a, y);
    }
  }

  // Zero exactly for samples with the same distribution function.
  lemma ZeroExactlyWhenSame(a: seq<real>, b: seq<real>)
    requires a != [] && b != []
    ensures Statistic(a, b) == 0.0 <==> forall x: real :: Ecdf(a, x) == Ecdf(b, x)
  {
    hide MaxGap, Ecdf;
    StatisticIsSupremum(a, b);
    var y: real :| Gap(a, b, y) == Statistic(a, b);
    if Statistic(a, b) == 0.0 {
      forall x: real ensures Ecdf(a, x) == Ecdf(b, x) { assert Gap(a, b, x) <= 0.0; }
    }
  }
}
