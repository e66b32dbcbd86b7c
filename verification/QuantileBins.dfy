// What the quantile edges of the calibration curve cut off: how many scores lie on either
// side of a quantile, and when no bin is empty (calibration_engine.py).
module QuantileBins {
  import opened Reals
  import opened SortedReals
  import opened CalibrationCurve

  // ------------------------------------------------------- counting and sorting

  function CountIf(p: real -> bool, s: seq<real>): (n: nat)
    ensures n <= |s|
  {
    if s == [] then 0 else (if p(s[0]) then 1 else 0) + CountIf(p, s[1..])
  }

  lemma {:induction false} CountConcat(p: real -> bool, a: seq<real>, b: seq<real>)
    ensures CountIf(p, a + b) == CountIf(p, a) + CountIf(p, b)
  {
    if a == [] {
      assert a + b == b;
    } else {
      assert (a + b)[1..] == a[1..] + b;
      CountConcat(p, a[1..], b);
    }
  }

  lemma CountInsert(p: real -> bool, x: real, s: seq<real>)
    requires Sorted(s)
    ensures CountIf(p, Insert(x, s)) == CountIf(p, s) + if p(x) then 1 else 0
  {
    var k := BisectRight(s, x);
    CountConcat(p, s[..k] + [x], s[k..]);
    CountConcat(p, s[..k], [x]);
    CountConcat(p, s[..k], s[k..]);
    assert s[..k] + s[k..] == s;
  }

  lemma {:induction false} CountSorted(p: real -> bool, s: seq<real>)
    ensures CountIf(p, Sort(s)) == CountIf(p, s)
  {
    hide Insert;
    if s != [] {
      CountSorted(p, s[1..]);
      CountInsert(p, s[0], Sort(s[1..]));
    }
  }

  lemma {:induction false} CountAll(p: real -> bool, s: seq<real>)
    requires forall i :: 0 <= i < |s| ==> p(s[i])
    ensures CountIf(p, s) == |s|
  {
    if s != [] { CountAll(p, s[1..]); }
  }

  // A sorted sequence is its own sort.
  lemma {:induction false} SortIdle(s: seq<real>)
    requires Sorted(s)
    ensures Sort(s) == s
  {
    hide Sorted;
    if s != [] {
      SortedTail(s);
      SortIdle(s[1..]);
      InsertFirst(s[0], s[1..]);
      assert s == [s[0]] + s[1..];
    }
  }

  lemma SortedTail(s: seq<real>)
    requires s != [] && Sorted(s)
    ensures Sorted(s[1..]) && forall i :: 0 <= i < |s[1..]| ==> s[0] <= s[1..][i]
  {}

  lemma InsertFirst(x: real, s: seq<real>)
    requires Sorted(s) && forall i :: 0 <= i < |s| ==> x <= s[i]
    ensures Insert(x, s) == [x] + s
  {
    var k := BisectRight(s, x);
    assert forall i :: 0 <= i < k ==> s[i] == x;
    var r := s[..k] + [x] + s[k..];
    forall i | 0 <= i < |r| ensures r[i] == ([x] + s)[i] {}
  }

  ghost predicate AllDifferent(s: seq<real>) { forall i, j :: 0 <= i < j < |s| ==> s[i] != s[j] }

  lemma InsertIncreases(x: real, s: seq<real>)
    requires Sorted(s) && Increasing(s) && x !in s
    ensures Increasing(Insert(x, s))
  {
    var k := BisectRight(s, x);
    var r := s[..k] + [x] + s[k..];
    forall i, j | 0 <= i < j < |r| ensures r[i] < r[j] {
      assert r[i] == if i < k then s[i] else if i == k then x else s[i-1];
      assert r[j] == if j < k then s[j] else if j == k then x else s[j-1];
    }
  }

  lemma {:induction false} SortIncreases(s: seq<real>)
    requires AllDifferent(s)
    ensures Increasing(Sort(s))
  {
    hide Insert;
    if s != [] {
      SortIncreases(s[1..]);
      InSorted(s[1..], s[0]);
      assert s[0] !in s[1..];
      InsertIncreases(s[0], Sort(s[1..]));
    }
  }

  lemma {:induction false} DistinctIdle(s: seq<real>)
    requires Sorted(s) && Increasing(s)
    ensures Distinct(s) == s
  {
    if s != [] {
      DistinctIdle(s[..|s|-1]);
      assert s == s[..|s|-1] + [s[|s|-1]];
    }
  }

  // ------------------------------------------------------------- one quantile

  // The line through the order statistics, at a position between 0 and n - 1.
  function At(sorted: seq<real>, pos: real): real
    requires sorted != [] && 0.0 <= pos <= (|sorted| - 1) as real
  {
    var k := pos.Floor;
    if k >= |sorted| - 1 then sorted[|sorted|-1]
    else sorted[k] + Product(pos - k as real, sorted[k+1] - sorted[k])
  }

  function Position(n: nat, q: real): (pos: real)
    requires n > 0 && 0.0 <= q <= 1.0
    ensures 0.0 <= pos <= (n - 1) as real
  {
    var m := (n - 1) as real;
    assert Product(q, m) >= 0.0 && Product(1.0 - q, m) >= 0.0 && Product(q, m) + Product(1.0 - q, m) == m;
    q * m
  }

  lemma QuantileAt(sorted: seq<real>, q: real)
    requires sorted != [] && 0.0 <= q <= 1.0
    ensures Quantile(sorted, q) == At(sorted, Position(|sorted|, q))
  {}

  lemma AtBetween(sorted: seq<real>, pos: real)
    requires sorted != [] && Sorted(sorted) && 0.0 <= pos <= (|sorted| - 1) as real
    ensures var k := pos.Floor;
      && 0 <= k <= |sorted| - 1 && sorted[k] <= At(sorted, pos)
      && (pos == k as real ==> At(sorted, pos) == sorted[k])
      && (pos > k as real ==> k + 1 < |sorted| && At(sorted, pos) <= sorted[k+1])
  {
    var k := pos.Floor;
    if k < |sorted| - 1 {
      var t, gap := pos - k as real, sorted[k+1] - sorted[k];
      assert Product(t, gap) >= 0.0 && Product(1.0 - t, gap) >= 0.0;
      assert Product(t, gap) + Product(1.0 - t, gap) == gap;
    }
  }

  function Ceiling(x: real): int { -((-x).Floor) }

  function UpTo(x: real): real -> bool { v => v <= x }

  function From(x: real): real -> bool { v => v >= x }

  lemma CountUpTo(sorted: seq<real>, k: nat, x: real)
    requires Sorted(sorted) && k < |sorted| && sorted[k] <= x
    ensures CountIf(UpTo(x), sorted) >= k + 1
  {
    hide CountIf;
    CountAll(UpTo(x), sorted[..k+1]);
    CountConcat(UpTo(x), sorted[..k+1], sorted[k+1..]);
    assert sorted[..k+1] + sorted[k+1..] == sorted;
  }

  lemma CountFrom(sorted: seq<real>, c: nat, x: real)
    requires Sorted(sorted) && c < |sorted| && x <= sorted[c]
    ensures CountIf(From(x), sorted) >= |sorted| - c
  {
    hide CountIf;
    CountAll(From(x), sorted[c..]);
    CountConcat(From(x), sorted[..c], sorted[c..]);
    assert sorted[..c] + sorted[c..] == sorted;
  }

  // At least floor(pos) + 1 of n scores are at most the q-quantile, and at least
  // n - ceil(pos) are at least it, for pos = q (n - 1).
  lemma QuantileCounts(scores: seq<real>, q: real)
    requires scores != [] && 0.0 <= q <= 1.0
    ensures var n, pos, x := |scores|, Position(|scores|, q), Quantile(Sort(scores), q);
      CountIf(UpTo(x), scores) >= pos.Floor + 1 && CountIf(From(x), scores) >= n - Ceiling(pos)
  {
    hide Quantile, Sort, At, CountIf, Position, UpTo, From, Sorted;
    var pos, sorted := Position(|scores|, q), Sort(scores);
    QuantileAt(sorted, q);
    AtBetween(sorted, pos);
    var k, x, c := pos.Floor, Quantile(sorted, q), Ceiling(pos);
    assert c == if pos == k as real then k else k + 1;
    CountSorted(UpTo(x), scores);
    CountSorted(From(x), scores);
    CountUpTo(sorted, k, x);
    CountFrom(sorted, c, x);
  }

  function Spaced(lo: real, h: real, n: nat): (s: seq<real>)
    ensures |s| == n
  {
    seq(n, i requires 0 <= i < n => lo + Product(i as real, h))
  }

  lemma SpacedSorted(lo: real, h: real, n: nat)
    requires h >= 0.0
    ensures Sorted(Spaced(lo, h, n))
  {
    var s := Spaced(lo, h, n);
    forall i, j | 0 <= i <= j < n ensures s[i] <= s[j] {
      assert Product(j as real, h) == Product(i as real, h) + Product((j - i) as real, h);
    }
  }

  lemma AtSpaced(lo: real, h: real, n: nat, pos: real)
    requires n > 0 && 0.0 <= pos <= (n - 1) as real
    ensures At(Spaced(lo, h, n), pos) == lo + Product(pos, h)
  {
    var k := pos.Floor;
    if k >= n - 1 {
      assert pos == (n - 1) as real;
    } else {
      Distribute((k + 1) as real, k as real, h);
      Distribute(pos, k as real, h);
    }
  }

  lemma Distribute(a: real, b: real, c: real)
    ensures Product(a, c) == Product(b, c) + Product(a - b, c)
  {}

  // On evenly spaced scores the quantile is the point at the position.
  lemma QuantileOfSpaced(lo: real, h: real, n: nat, q: real)
    requires n > 0 && h >= 0.0 && 0.0 <= q <= 1.0
    ensures Quantile(Sort(Spaced(lo, h, n)), q) == lo + Product(Position(n, q), h)
  {
    hide Quantile, Sort, At, Position, Spaced;
    SpacedSorted(lo, h, n);
    SortIdle(Spaced(lo, h, n));
    QuantileAt(Spaced(lo, h, n), q);
    AtSpaced(lo, h, n, Position(n, q));
  }

  // ------------------------------------------------------------- no empty bin

  lemma AtIncreases(sorted: seq<real>, a: real, b: real)
    requires sorted != [] && Sorted(sorted) && Increasing(sorted)
    requires 0.0 <= a < b <= (|sorted| - 1) as real
    ensures At(sorted, a) < At(sorted, b)
  {
    var j, k := a.Floor, b.Floor;
    AtBetween(sorted, b);
    var t, gap := a - j as real, sorted[j+1] - sorted[j];
    assert gap > 0.0;
    if j == k {
      assert Product(b - j as real, gap) == Product(t, gap) + Product(b - a, gap);
    } else {
      assert Product(1.0 - t, gap) > 0.0 && Product(t, gap) == gap - Product(1.0 - t, gap);
      assert sorted[j+1] <= sorted[k];
    }
  }

  lemma GridStep(n: nat, nBins: nat, k: nat)
    requires 1 <= nBins <= n - 1 && k < nBins
    ensures Position(n, GridPoint(k + 1, nBins)) >= Position(n, GridPoint(k, nBins)) + 1.0
  {
    var m, b := (n - 1) as real, nBins as real;
    var p, q := GridPoint(k, nBins), GridPoint(k + 1, nBins);
    GridGap(k, nBins);
    Distribute(m, b, q - p);
    assert Product(m - b, q - p) >= 0.0;
    Minus(m, q, p);
    PositionIs(n, p);
    PositionIs(n, q);
    hide GridPoint, Position, Product;
  }

  lemma PositionIs(n: nat, q: real)
    requires n > 0 && 0.0 <= q <= 1.0
    ensures Position(n, q) == Product((n - 1) as real, q)
  {}

  lemma Minus(a: real, b: real, c: real)
    ensures Product(a, b - c) == Product(a, b) - Product(a, c)
    ensures a > 0.0 && Product(a, b - c) > 0.0 ==> b > c
  {
    assert Product(a, b - c) == -Product(a, c - b);
  }

  lemma GridIs(k: nat, nBins: nat)
    requires k <= nBins && nBins > 0
    ensures GridPoint(k, nBins) == k as real / nBins as real
  {}

  lemma GridGap(k: nat, nBins: nat)
    requires k < nBins
    ensures Product(nBins as real, GridPoint(k + 1, nBins) - GridPoint(k, nBins)) == 1.0
    ensures GridPoint(k, nBins) < GridPoint(k + 1, nBins)
  {
    GridIs(k, nBins);
    GridIs(k + 1, nBins);
    hide GridPoint;
    FractionsApart(k as real, nBins as real);
  }

  lemma FractionsApart(a: real, b: real)
    requires b > 0.0
    ensures Product(b, (a + 1.0) / b - a / b) == 1.0 && a / b < (a + 1.0) / b
  {
    QuotientBack(a, b);
    QuotientBack(a + 1.0, b);
    Minus(b, (a + 1.0) / b, a / b);
  }

  ghost function EdgeAt(scores: seq<real>, nBins: nat, k: nat): real
    requires scores != [] && k <= nBins
  {
    At(Sort(scores), Position(|scores|, GridPoint(k, nBins)))
  }

  lemma {:induction false} EdgesApart(scores: seq<real>, nBins: nat, j: nat, k: nat)
    requires AllDifferent(scores) && 1 <= nBins <= |scores| - 1 && j < k <= nBins
    ensures EdgeAt(scores, nBins, j) < EdgeAt(scores, nBins, k)
    decreases k
  {
    hide At, Position, GridPoint, Sort;
    SortIncreases(scores);
    GridStep(|scores|, nBins, k - 1);
    AtIncreases(Sort(scores), Position(|scores|, GridPoint(k - 1, nBins)), Position(|scores|, GridPoint(k, nBins)));
    if j < k - 1 { EdgesApart(scores, nBins, j, k - 1); }
  }

  lemma EdgesAre(scores: seq<real>, nBins: nat)
    requires AllDifferent(scores) && 1 <= nBins <= |scores| - 1
    ensures |Edges(scores, nBins)| == nBins + 1
    ensures forall k: nat :: k <= nBins ==> Edges(scores, nBins)[k] == EdgeAt(scores, nBins, k)
  {
    hide Quantile, Sort, GridPoint, Position, At, Distinct;
    var qs := Quantiles(scores, nBins);
    forall k: nat | k <= nBins ensures qs[k] == EdgeAt(scores, nBins, k) {
      QuantileAt(Sort(scores), GridPoint(k, nBins));
    }
    forall j, k: nat | 0 <= j < k < |qs| ensures qs[j] < qs[k] { EdgesApart(scores, nBins, j, k); }
    SortIdle(qs);
    DistinctIdle(qs);
  }

  // Every bin holds one of the scores.
  lemma BinHolds(scores: seq<real>, nBins: nat, k: nat) returns (s: real)
    requires AllDifferent(scores) && 1 <= nBins <= |scores| - 1 && k < nBins
    ensures |Edges(scores, nBins)| == nBins + 1
    ensures s in scores && InBin(Edges(scores, nBins), k, s)
  {
    hide Edges, Sort, GridPoint, At;
    EdgesAre(scores, nBins);
    var sorted, n := Sort(scores), |scores|;
    SortIncreases(scores);
    var a, b := Position(n, GridPoint(k, nBins)), Position(n, GridPoint(k + 1, nBins));
    GridStep(n, nBins, k);
    var i := Ceiling(a);
    assert a <= i as real < a + 1.0 <= b;
    AtBetween(sorted, i as real);
    s := sorted[i];
    assert s == At(sorted, i as real);
    if a < i as real { AtIncreases(sorted, a, i as real); }
    AtIncreases(sorted, i as real, b);
    InSorted(scores, s);
  }

  lemma {:induction false} CountSome(mask: seq<bool>, j: nat)
    requires j < |mask| && mask[j]
    ensures CountWhere(mask) > 0
  {
    if j > 0 { CountSome(mask[1..], j - 1); }
  }

  lemma BinNotEmpty(scores: seq<real>, nBins: nat, k: nat)
    requires AllDifferent(scores) && 1 <= nBins <= |scores| - 1 && k < nBins
    ensures |Edges(scores, nBins)| == nBins + 1
    ensures CountWhere(Mask(Edges(scores, nBins), k, scores)) > 0
  {
    hide Edges, CountWhere;
    var s := BinHolds(scores, nBins, k);
    var j :| 0 <= j < |scores| && scores[j] == s;
    CountSome(Mask(Edges(scores, nBins), k, scores), j);
  }

  lemma {:induction false} BinsFull(tr: Training, nBins: nat, n: nat)
    requires tr.Valid() && AllDifferent(tr.scores) && 1 <= nBins <= |tr.scores| - 1 && n <= nBins
    ensures |Edges(tr.scores, nBins)| == nBins + 1
    ensures |Bins(tr, Edges(tr.scores, nBins), n)| == n
  {
    hide Edges, BinOf, CountWhere;
    EdgesAre(tr.scores, nBins);
    if n > 0 {
      BinsFull(tr, nBins, n - 1);
      BinNotEmpty(tr.scores, nBins, n - 1);
    }
  }

  // With distinct scores and more of them than bins, the curve has a knot for every bin.
  lemma NoBinIsEmpty(tr: Training, nBins: nat)
    requires tr.Valid() && AllDifferent(tr.scores) && 1 <= nBins <= |tr.scores| - 1
    ensures |AllBins(tr, nBins)| == nBins == |KnotsX(tr, nBins)| == |KnotsY(tr, nBins)|
    ensures |Edges(tr.scores, nBins)| == nBins + 1
    ensures forall k: nat | k < nBins :: CountWhere(Mask(Edges(tr.scores, nBins), k, tr.scores)) > 0
  {
    hide Edges, Bins, CountWhere, KnotsX, KnotsY;
    BinsFull(tr, nBins, nBins);
    forall k: nat | k < nBins
      ensures CountWhere(Mask(Edges(tr.scores, nBins), k, tr.scores)) > 0
    {
      BinNotEmpty(tr.scores, nBins, k);
    }
  }
}
