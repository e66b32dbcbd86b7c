// Fitting and reading the calibration curve: quantile bins, pooled and rounded knots,
// piecewise interpolation, and the choice of thresholds (calibration_engine.py).
module CalibrationCurve {
  import opened Reals
  import opened Wrappers
  import opened Rounding
  import opened SortedReals
  import Isotonic

  datatype Training = Training(scores: seq<real>, labels: seq<real>, weights: Option<seq<real>>) {
    ghost predicate Valid() {
      && |labels| == |scores| > 0
      && (weights.Some? ==> |weights.value| == |scores|)
    }
  }

  // ------------------------------------------------------------------ edges

  ghost predicate Increasing(s: seq<real>) { forall i, j :: 0 <= i < j < |s| ==> s[i] < s[j] }

  // The first of every run of equal elements.
  function Distinct(s: seq<real>): (r: seq<real>)
    requires Sorted(s)
    ensures Increasing(r) && (forall e :: e in r <==> e in s)
  {
    if s == [] then []
    else
      var r := Distinct(s[..|s|-1]);
      var x := s[|s|-1];
      assert s == s[..|s|-1] + [x];
      if r != [] && r[|r|-1] == x then r else r + [x]
  }

  // Linear interpolation between order statistics, as numpy's default.
  function Quantile(sorted: seq<real>, q: real): real
    requires sorted != [] && 0.0 <= q <= 1.0
  {
    var pos := q * (|sorted| - 1) as real;
    var k := pos.Floor;
    QuantileIndex(q, |sorted| - 1);
    if k >= |sorted| - 1 then sorted[|sorted|-1]
    else sorted[k] + (pos - k as real) * (sorted[k+1] - sorted[k])
  }

  lemma QuantileIndex(q: real, n: nat)
    requires 0.0 <= q <= 1.0
    ensures 0 <= (q * n as real).Floor <= n
  {
    assert Product(q, n as real) >= 0.0 && Product(1.0 - q, n as real) >= 0.0;
    assert Product(q, n as real) + Product(1.0 - q, n as real) == n as real;
  }

  // The k-th of n + 1 evenly spaced points of the unit interval.
  function GridPoint(k: nat, n: nat): (q: real)
    requires k <= n
    ensures 0.0 <= q <= 1.0
  {
    if n == 0 then 0.0 else k as real / n as real
  }

  function Quantiles(scores: seq<real>, nBins: nat): seq<real>
    requires scores != []
  {
    seq(nBins + 1, k requires 0 <= k <= nBins => Quantile(Sort(scores), GridPoint(k, nBins)))
  }

  function Edges(scores: seq<real>, nBins: nat): (edges: seq<real>)
    requires scores != []
    ensures Increasing(edges)
  {
    Distinct(Sort(Quantiles(scores, nBins)))
  }

  // ------------------------------------------------------------------- bins

  datatype Bin = Bin(x: real, y: real, w: real)

  function SumWhere(xs: seq<real>, mask: seq<bool>): real
    requires |xs| == |mask|
  {
    if xs == [] then 0.0 else (if mask[0] then xs[0] else 0.0) + SumWhere(xs[1..], mask[1..])
  }

  function CountWhere(mask: seq<bool>): nat {
    if mask == [] then 0 else (if mask[0] then 1 else 0) + CountWhere(mask[1..])
  }

  function Times(a: seq<real>, b: seq<real>): (c: seq<real>)
    requires |a| == |b|
    ensures |c| == |a|
  {
    seq(|a|, i requires 0 <= i < |a| => Product(a[i], b[i]))
  }

  predicate InBin(edges: seq<real>, i: nat, s: real)
    requires i + 1 < |edges|
  {
    edges[i] <= s && (if i == |edges| - 2 then s <= edges[i+1] else s < edges[i+1])
  }

  function Mask(edges: seq<real>, i: nat, scores: seq<real>): seq<bool>
    requires i + 1 < |edges|
  {
    seq(|scores|, j requires 0 <= j < |scores| => InBin(edges, i, scores[j]))
  }

  // The weighted mean where the bin carries weight, and the plain mean otherwise.
  function BinOf(tr: Training, mask: seq<bool>): Bin
    requires tr.Valid() && |mask| == |tr.scores| && CountWhere(mask) > 0
  {
    var n := CountWhere(mask) as real;
    var x := SumWhere(tr.scores, mask) / n;
    if tr.weights.Some? && SumWhere(tr.weights.value, mask) > 0.0 then
      var w := SumWhere(tr.weights.value, mask);
      Bin(x, SumWhere(Times(tr.weights.value, tr.labels), mask) / w, w)
    else
      Bin(x, SumWhere(tr.labels, mask) / n, n)
  }

  // The non-empty ones among the first n bins.
  function Bins(tr: Training, edges: seq<real>, n: nat): seq<Bin>
    requires tr.Valid() && (n == 0 || n < |edges|)
  {
    if n == 0 then []
    else
      var mask := Mask(edges, n-1, tr.scores);
      Bins(tr, edges, n-1) + if CountWhere(mask) > 0 then [BinOf(tr, mask)] else []
  }

  function BinCount(edges: seq<real>): nat { if |edges| == 0 then 0 else |edges| - 1 }

  function AllBins(tr: Training, nBins: nat): seq<Bin>
    requires tr.Valid()
  {
    Bins(tr, Edges(tr.scores, nBins), BinCount(Edges(tr.scores, nBins)))
  }

  function Xs(bins: seq<Bin>): (xs: seq<real>)
    ensures |xs| == |bins|
  {
    seq(|bins|, i requires 0 <= i < |bins| => bins[i].x)
  }

  function Ys(bins: seq<Bin>): (ys: seq<real>)
    ensures |ys| == |bins|
  {
    seq(|bins|, i requires 0 <= i < |bins| => bins[i].y)
  }

  function Ws(bins: seq<Bin>): (ws: seq<real>)
    ensures |ws| == |bins|
  {
    seq(|bins|, i requires 0 <= i < |bins| => bins[i].w)
  }

  function Rounded(s: seq<real>): (r: seq<real>)
    ensures |r| == |s|
  {
    seq(|s|, i requires 0 <= i < |s| => Round4(s[i]))
  }

  function KnotsX(tr: Training, nBins: nat): (xs: seq<real>)
    requires tr.Valid()
    ensures |xs| == |AllBins(tr, nBins)|
  {
    Rounded(Xs(AllBins(tr, nBins)))
  }

  // The pooled bin means, before they are rounded.
  function Curve(tr: Training, nBins: nat): (ys: seq<real>)
    requires tr.Valid()
    ensures |ys| == |AllBins(tr, nBins)|
  {
    Isotonic.Fit(Ys(AllBins(tr, nBins)), Ws(AllBins(tr, nBins)))
  }

  function KnotsY(tr: Training, nBins: nat): (ys: seq<real>)
    requires tr.Valid()
    ensures |ys| == |AllBins(tr, nBins)|
  {
    Rounded(Curve(tr, nBins))
  }

  // -------------------------------------------------------------- reading it

  function Clip(p: real): real { Max(0.0, Min(1.0, p)) }

  // The curve at v, before it is clipped.
  function Interpolated(xs: seq<real>, ys: seq<real>, v: real): real
    requires |xs| == |ys| > 0
  {
    if v <= xs[0] then ys[0]
    else if v >= xs[|xs|-1] then ys[|ys|-1]
    else
      var idx := BisectRight(xs, v);
      Between(xs[idx-1], xs[idx], ys[idx-1], ys[idx], v)
  }

  function Between(x0: real, x1: real, y0: real, y1: real, v: real): real {
    if x1 == x0 then y0 else y0 + (v - x0) * (y1 - y0) / (x1 - x0)
  }

  function Predict(xs: seq<real>, ys: seq<real>, v: real): real
    requires |xs| == |ys|
  {
    if xs == [] then Clip(v) else Clip(Interpolated(xs, ys, v))
  }

  lemma BetweenInside(x0: real, x1: real, y0: real, y1: real, v: real)
    requires x0 <= v < x1 && y0 <= y1
    ensures y0 <= Between(x0, x1, y0, y1, v) <= y1
  {
    var d := x1 - x0;
    assert Product(v - x0, y1 - y0) + Product(x1 - v, y1 - y0) == Product(d, y1 - y0);
    QuotientBounds(Product(v - x0, y1 - y0), d, 0.0, y1 - y0);
  }

  lemma BetweenMonotone(x0: real, x1: real, y0: real, y1: real, v: real, u: real)
    requires x0 <= v <= u < x1 && y0 <= y1
    ensures Between(x0, x1, y0, y1, v) <= Between(x0, x1, y0, y1, u)
  {
    MulMono(y1 - y0, v - x0, u - x0);
    DivideMonotone(Product(v - x0, y1 - y0), Product(u - x0, y1 - y0), x1 - x0);
  }

  // Where the curve lies between two neighbouring knots.
  lemma InsideSegment(xs: seq<real>, ys: seq<real>, v: real)
    requires |xs| == |ys| > 0 && Sorted(xs) && Sorted(ys) && xs[0] < v < xs[|xs|-1]
    ensures var k := BisectRight(xs, v);
      0 < k < |xs| && ys[k-1] <= Interpolated(xs, ys, v) <= ys[k]
  {
    var k := BisectRight(xs, v);
    assert k > 0 && k < |xs|;
    BetweenInside(xs[k-1], xs[k], ys[k-1], ys[k], v);
  }

  lemma InterpolatedMonotone(xs: seq<real>, ys: seq<real>, v: real, u: real)
    requires |xs| == |ys| > 0 && Sorted(xs) && Sorted(ys) && v <= u
    ensures Interpolated(xs, ys, v) <= Interpolated(xs, ys, u)
  {
    hide Between;
    var last := |xs| - 1;
    if xs[0] < v && u < xs[last] {
      InsideSegment(xs, ys, v);
      InsideSegment(xs, ys, u);
      var i, j := BisectRight(xs, v), BisectRight(xs, u);
      assert i <= j;
      if i == j {
        BetweenMonotone(xs[i-1], xs[i], ys[i-1], ys[i], v, u);
      } else {
        assert ys[i] <= ys[j-1];
      }
    } else if xs[0] < v && v < xs[last] {
      InsideSegment(xs, ys, v);
    } else if xs[0] < u && u < xs[last] {
      InsideSegment(xs, ys, u);
    } else {
      assert ys[0] <= ys[last];
    }
  }

  // Between the lowest and the highest knot value, everywhere.
  lemma InterpolatedBounds(xs: seq<real>, ys: seq<real>, v: real)
    requires |xs| == |ys| > 0 && Sorted(xs) && Sorted(ys)
    ensures ys[0] <= Interpolated(xs, ys, v) <= ys[|ys|-1]
  {
    if xs[0] < v < xs[|xs|-1] { InsideSegment(xs, ys, v); }
  }

  // --------------------------------------------------- the knots are in order

  lemma {:induction false} SumBounds(xs: seq<real>, mask: seq<bool>, lo: real, hi: real)
    requires |xs| == |mask|
    requires forall i :: 0 <= i < |xs| && mask[i] ==> lo <= xs[i] <= hi
    ensures Product(CountWhere(mask) as real, lo) <= SumWhere(xs, mask) <= Product(CountWhere(mask) as real, hi)
  {
    if xs != [] {
      var n := CountWhere(mask[1..]) as real;
      forall i | 0 <= i < |xs[1..]| && mask[1..][i] ensures lo <= xs[1..][i] <= hi {
        assert mask[i+1];
      }
      SumBounds(xs[1..], mask[1..], lo, hi);
      assert Product(n + 1.0, lo) == Product(n, lo) + lo && Product(n + 1.0, hi) == Product(n, hi) + hi;
    }
  }

  lemma {:induction false} MeanBounds(xs: seq<real>, mask: seq<bool>, lo: real, hi: real)
    requires |xs| == |mask| && CountWhere(mask) > 0
    requires forall i :: 0 <= i < |xs| && mask[i] ==> lo <= xs[i] <= hi
    ensures lo <= SumWhere(xs, mask) / CountWhere(mask) as real <= hi
  {
    SumBounds(xs, mask, lo, hi);
    QuotientBounds(SumWhere(xs, mask), CountWhere(mask) as real, lo, hi);
  }

  lemma NothingSorted()
    ensures Sorted([])
  {}

  lemma PushSorted(s: seq<real>, x: real)
    requires Sorted(s) && forall i :: 0 <= i < |s| ==> s[i] <= x
    ensures Sorted(s + [x])
  {}

  lemma {:induction false} BinsAscend(tr: Training, edges: seq<real>, n: nat)
    requires tr.Valid() && (n == 0 || n < |edges|) && Increasing(edges)
    ensures Sorted(Xs(Bins(tr, edges, n)))
    ensures forall b :: b in Bins(tr, edges, n) ==> b.x <= edges[n]
  {
    hide Sorted;
    if n == 0 {
      assert Xs([]) == [];
      NothingSorted();
    } else {
      BinsAscend(tr, edges, n-1);
      var mask := Mask(edges, n-1, tr.scores);
      var front := Bins(tr, edges, n-1);
      if CountWhere(mask) > 0 {
        MeanBounds(tr.scores, mask, edges[n-1], edges[n]);
        var b := BinOf(tr, mask);
        assert edges[n-1] <= b.x <= edges[n];
        assert forall c :: c in front ==> c.x <= edges[n-1];
        assert Xs(front + [b]) == Xs(front) + [b.x];
        forall i | 0 <= i < |front| ensures Xs(front)[i] <= b.x {
          assert front[i] in front;
        }
        PushSorted(Xs(front), b.x);
        assert Bins(tr, edges, n) == front + [b];
      } else {
        assert Bins(tr, edges, n) == front;
      }
    }
  }

  lemma RoundedSorted(s: seq<real>)
    requires Sorted(s)
    ensures Sorted(Rounded(s))
  {
    hide Round4;
    forall i, j | 0 <= i <= j < |s| ensures Rounded(s)[i] <= Rounded(s)[j] {
      Round4Monotone(s[i], s[j]);
    }
  }

  lemma Round4Monotone(x: real, y: real)
    requires x <= y
    ensures Round4(x) <= Round4(y)
  {
    RoundMonotone(x, y, 10000.0);
  }

  lemma KnotsInOrder(tr: Training, nBins: nat)
    requires tr.Valid()
    ensures Sorted(KnotsX(tr, nBins)) && Sorted(KnotsY(tr, nBins))
  {
    hide Bins, Edges;
    BinsAscend(tr, Edges(tr.scores, nBins), BinCount(Edges(tr.scores, nBins)));
    RoundedSorted(Xs(AllBins(tr, nBins)));
    assert Sorted(Curve(tr, nBins));
    RoundedSorted(Curve(tr, nBins));
  }

  // A higher score never gets a lower probability, whatever the curve was fitted to.
  lemma PredictMonotone(tr: Training, nBins: nat, v: real, u: real)
    requires tr.Valid() && v <= u
    ensures Predict(KnotsX(tr, nBins), KnotsY(tr, nBins), v) <= Predict(KnotsX(tr, nBins), KnotsY(tr, nBins), u)
  {
    hide KnotsX, KnotsY, Interpolated;
    var xs, ys := KnotsX(tr, nBins), KnotsY(tr, nBins);
    KnotsInOrder(tr, nBins);
    if xs != [] { InterpolatedMonotone(xs, ys, v, u); }
  }

  // ----------------------------------------- labels in [0,1] give knots in [0,1]

  ghost predicate AllUnit(s: seq<real>) { forall i :: 0 <= i < |s| ==> 0.0 <= s[i] <= 1.0 }

  ghost predicate NonNegativeWeights(tr: Training) {
    tr.weights.Some? ==> Isotonic.NonNegative(tr.weights.value)
  }

  lemma {:induction false} WeightedBounds(w: seq<real>, y: seq<real>, mask: seq<bool>)
    requires |w| == |y| == |mask| && AllUnit(y) && Isotonic.NonNegative(w)
    ensures 0.0 <= SumWhere(Times(w, y), mask) <= SumWhere(w, mask)
  {
    if w != [] {
      assert Times(w, y)[1..] == Times(w[1..], y[1..]);
      WeightedBounds(w[1..], y[1..], mask[1..]);
      MulMono(w[0], 0.0, y[0]);
      MulMono(w[0], y[0], 1.0);
    }
  }

  lemma BinUnit(tr: Training, mask: seq<bool>)
    requires tr.Valid() && |mask| == |tr.scores| && CountWhere(mask) > 0
    requires AllUnit(tr.labels) && NonNegativeWeights(tr)
    ensures 0.0 <= BinOf(tr, mask).y <= 1.0 && BinOf(tr, mask).w > 0.0
  {
    if tr.weights.Some? && SumWhere(tr.weights.value, mask) > 0.0 {
      var w := SumWhere(tr.weights.value, mask);
      WeightedBounds(tr.weights.value, tr.labels, mask);
      assert Product(w, 0.0) == 0.0 && Product(w, 1.0) == w;
      QuotientBounds(SumWhere(Times(tr.weights.value, tr.labels), mask), w, 0.0, 1.0);
    } else {
      MeanBounds(tr.labels, mask, 0.0, 1.0);
    }
  }

  lemma {:induction false} BinsUnit(tr: Training, edges: seq<real>, n: nat)
    requires tr.Valid() && (n == 0 || n < |edges|) && AllUnit(tr.labels) && NonNegativeWeights(tr)
    ensures forall b :: b in Bins(tr, edges, n) ==> 0.0 <= b.y <= 1.0 && b.w > 0.0
  {
    hide BinOf;
    if n > 0 {
      BinsUnit(tr, edges, n-1);
      if CountWhere(Mask(edges, n-1, tr.scores)) > 0 { BinUnit(tr, Mask(edges, n-1, tr.scores)); }
    }
  }

  ghost predicate UnitBlocks(st: seq<Isotonic.Block>) {
    forall b :: b in st ==> 0.0 <= b.value <= 1.0 && b.weight >= 0.0
  }

  lemma MergeUnit(a: Isotonic.Block, b: Isotonic.Block)
    requires 0.0 <= a.value <= 1.0 && a.weight >= 0.0 && 0.0 <= b.value <= 1.0 && b.weight >= 0.0
    ensures 0.0 <= Isotonic.Merge(a, b).value <= 1.0 && Isotonic.Merge(a, b).weight >= 0.0
  {
    MulMono(a.weight, a.value, 1.0);
    MulMono(b.weight, b.value, 1.0);
    var t := Max(Isotonic.EPSILON, a.weight + b.weight);
    assert Product(t, 0.0) == 0.0 && Product(t, 1.0) == t;
    QuotientBounds(Product(a.weight, a.value) + Product(b.weight, b.value), t, 0.0, 1.0);
  }

  lemma {:induction false} PoolUnit(st: seq<Isotonic.Block>)
    requires UnitBlocks(st)
    ensures UnitBlocks(Isotonic.Pool(st))
    decreases |st|
  {
    hide Isotonic.Merge;
    var n := |st|;
    if n >= 2 && st[n-2].value > st[n-1].value {
      MergeUnit(st[n-2], st[n-1]);
      PoolUnit(st[..n-2] + [Isotonic.Merge(st[n-2], st[n-1])]);
    }
  }

  lemma {:induction false} BlocksUnit(y: seq<real>, w: seq<real>, n: nat)
    requires n <= |y| && n <= |w| && AllUnit(y) && Isotonic.NonNegative(w)
    ensures UnitBlocks(Isotonic.Blocks(y, w, n))
  {
    hide Isotonic.Pool;
    if n > 0 {
      BlocksUnit(y, w, n-1);
      PoolUnit(Isotonic.Blocks(y, w, n-1) + [Isotonic.Block(w[n-1], y[n-1], 1)]);
    }
  }

  lemma {:induction false} ExpandUnit(st: seq<Isotonic.Block>)
    requires UnitBlocks(st)
    ensures AllUnit(Isotonic.Expand(st))
  {
    if st != [] {
      ExpandUnit(st[..|st|-1]);
      assert st[|st|-1] in st;
    }
  }

  lemma RoundedUnit(s: seq<real>)
    requires AllUnit(s)
    ensures AllUnit(Rounded(s))
  {
    hide Round;
    forall i | 0 <= i < |s| ensures 0.0 <= Rounded(s)[i] <= 1.0 {
      RoundUnit(s[i], 10000.0, 10000);
    }
  }

  lemma CurveUnit(tr: Training, nBins: nat)
    requires tr.Valid() && AllUnit(tr.labels) && NonNegativeWeights(tr)
    ensures AllUnit(Curve(tr, nBins))
  {
    hide Bins, Edges, Isotonic.Blocks, Isotonic.Expand;
    var bins := AllBins(tr, nBins);
    BinsUnit(tr, Edges(tr.scores, nBins), BinCount(Edges(tr.scores, nBins)));
    BlocksUnit(Ys(bins), Ws(bins), |bins|);
    ExpandUnit(Isotonic.Blocks(Ys(bins), Ws(bins), |bins|));
  }

  // With labels in [0,1] the knots are there too, so clipping never moves the curve.
  lemma ClipIsIdle(tr: Training, nBins: nat, v: real)
    requires tr.Valid() && AllUnit(tr.labels) && NonNegativeWeights(tr)
    ensures AllUnit(KnotsY(tr, nBins))
    ensures KnotsX(tr, nBins) != [] ==>
      Predict(KnotsX(tr, nBins), KnotsY(tr, nBins), v) == Interpolated(KnotsX(tr, nBins), KnotsY(tr, nBins), v)
  {
    hide Curve, Rounded, AllBins, Interpolated;
    CurveUnit(tr, nBins);
    RoundedUnit(Curve(tr, nBins));
    var xs, ys := KnotsX(tr, nBins), KnotsY(tr, nBins);
    KnotsInOrder(tr, nBins);
    if xs != [] {
      InterpolatedBounds(xs, ys, v);
    }
  }

  // ---------------------------------------------- every sample is in one bin

  lemma EndQuantiles(sorted: seq<real>)
    requires sorted != []
    ensures Quantile(sorted, 0.0) == sorted[0] && Quantile(sorted, 1.0) == sorted[|sorted|-1]
  {
    var n := |sorted| - 1;
    assert 0.0 * n as real == 0.0 && 1.0 * n as real == n as real;
    assert (0.0).Floor == 0 && (n as real).Floor == n;
  }

  lemma GridEnds(n: nat)
    requires n >= 1
    ensures GridPoint(0, n) == 0.0 && GridPoint(n, n) == 1.0
  {}

  lemma QuantileIsEdge(scores: seq<real>, nBins: nat, k: nat)
    requires scores != [] && k <= nBins
    ensures Quantile(Sort(scores), GridPoint(k, nBins)) in Edges(scores, nBins)
  {
    hide Quantile, Sort, Distinct, GridPoint;
    var qs := Quantiles(scores, nBins);
    assert qs[k] in qs;
    InSorted(qs, qs[k]);
  }

  lemma ExtremesAreEdges(scores: seq<real>, nBins: nat)
    requires scores != [] && nBins >= 1
    ensures Sort(scores)[0] in Edges(scores, nBins) && Sort(scores)[|scores|-1] in Edges(scores, nBins)
  {
    hide Quantile, Sort, Edges, GridPoint;
    EndQuantiles(Sort(scores));
    GridEnds(nBins);
    QuantileIsEdge(scores, nBins, 0);
    QuantileIsEdge(scores, nBins, nBins);
  }

  // The edges span the scores.
  lemma EdgesSpan(scores: seq<real>, nBins: nat, s: real)
    requires nBins >= 1 && s in scores
    ensures var edges := Edges(scores, nBins); edges != [] && edges[0] <= s <= edges[|edges|-1]
  {
    hide Edges, Sort;
    var edges, sorted := Edges(scores, nBins), Sort(scores);
    ExtremesAreEdges(scores, nBins);
    InSorted(scores, s);
    var k :| 0 <= k < |sorted| && sorted[k] == s;
    assert sorted[0] <= sorted[k] <= sorted[|sorted|-1];
    var lo :| 0 <= lo < |edges| && edges[lo] == sorted[0];
    var hi :| 0 <= hi < |edges| && edges[hi] == sorted[|scores|-1];
    assert edges[0] <= edges[lo] && edges[hi] <= edges[|edges|-1];
  }

  ghost predicate Varied(scores: seq<real>) {
    exists i, j :: 0 <= i < |scores| && 0 <= j < |scores| && scores[i] < scores[j]
  }

  lemma VariedEdges(scores: seq<real>, nBins: nat)
    requires nBins >= 1 && Varied(scores)
    ensures |Edges(scores, nBins)| >= 2
  {
    hide Edges;
    var i, j :| 0 <= i < |scores| && 0 <= j < |scores| && scores[i] < scores[j];
    EdgesSpan(scores, nBins, scores[i]);
    EdgesSpan(scores, nBins, scores[j]);
  }

  // Unless all scores coincide, the bins partition the training set.
  lemma OneBinEach(scores: seq<real>, nBins: nat, j: nat)
    requires nBins >= 1 && Varied(scores) && j < |scores|
    ensures var edges := Edges(scores, nBins);
      && |edges| >= 2
      && (exists i: nat :: i + 1 < |edges| && InBin(edges, i, scores[j]))
      && (forall i: nat, k: nat | i + 1 < |edges| && k + 1 < |edges| ::
            InBin(edges, i, scores[j]) && InBin(edges, k, scores[j]) ==> i == k)
  {
    hide Edges;
    var edges, s := Edges(scores, nBins), scores[j];
    VariedEdges(scores, nBins);
    EdgesSpan(scores, nBins, s);
    var m := |edges| - 1;
    var k := BisectRight(edges, s);
    assert k > 0;
    var i: nat := if k == |edges| then m - 1 else k - 1;
    assert InBin(edges, i, s);
  }

  // ------------------------------------------- the curve keeps the label mass

  function Effective(tr: Training): (w: seq<real>)
    requires tr.Valid()
    ensures |w| == |tr.scores|
  {
    tr.weights.GetOr(Isotonic.Ones(|tr.scores|))
  }

  // The samples that the first n bins hold.
  function Below(edges: seq<real>, n: nat, scores: seq<real>): (mask: seq<bool>)
    requires n < |edges|
    ensures |mask| == |scores|
  {
    seq(|scores|, j requires 0 <= j < |scores| => n == |edges| - 1 || scores[j] < edges[n])
  }

  lemma {:induction false} SumOfUnion(xs: seq<real>, a: seq<bool>, b: seq<bool>, c: seq<bool>)
    requires |xs| == |a| == |b| == |c|
    requires forall i :: 0 <= i < |xs| ==> (c[i] <==> a[i] || b[i]) && !(a[i] && b[i])
    ensures SumWhere(xs, c) == SumWhere(xs, a) + SumWhere(xs, b)
  {
    if xs != [] { SumOfUnion(xs[1..], a[1..], b[1..], c[1..]); }
  }

  lemma {:induction false} EmptySum(xs: seq<real>, mask: seq<bool>)
    requires |xs| == |mask| && (CountWhere(mask) == 0 || forall i :: 0 <= i < |mask| ==> !mask[i])
    ensures SumWhere(xs, mask) == 0.0
  {
    if xs != [] { EmptySum(xs[1..], mask[1..]); }
  }

  // Where weights are given, every bin that holds a sample has at least the weight below
  // which pooling is not exact; single weights may be zero.
  ghost predicate BinsBearing(tr: Training, edges: seq<real>)
    requires tr.Valid()
  {
    tr.weights.Some? ==> forall i: nat :: i + 1 < |edges| ==> Bearing(tr.weights.value, Mask(edges, i, tr.scores))
  }

  predicate Bearing(w: seq<real>, mask: seq<bool>)
    requires |w| == |mask|
  {
    CountWhere(mask) > 0 ==> SumWhere(w, mask) >= Isotonic.EPSILON
  }

  lemma QuotientBack(s: real, t: real)
    requires t > 0.0
    ensures Product(t, s / t) == s
  {}

  lemma OnesTimes(y: seq<real>)
    ensures Times(Isotonic.Ones(|y|), y) == y
  {}

  lemma BinMass(tr: Training, mask: seq<bool>)
    requires tr.Valid() && |mask| == |tr.scores| && CountWhere(mask) > 0
    requires tr.weights.Some? ==> Bearing(tr.weights.value, mask)
    ensures BinOf(tr, mask).w >= Isotonic.EPSILON
    ensures Product(BinOf(tr, mask).w, BinOf(tr, mask).y) == SumWhere(Times(Effective(tr), tr.labels), mask)
  {
    hide SumWhere, CountWhere, Times;
    if tr.weights.Some? {
      QuotientBack(SumWhere(Times(tr.weights.value, tr.labels), mask), SumWhere(tr.weights.value, mask));
    } else {
      OnesTimes(tr.labels);
      QuotientBack(SumWhere(tr.labels, mask), CountWhere(mask) as real);
    }
  }

  lemma {:induction false} TotalPrefix(x: seq<real>, w: seq<real>, x2: seq<real>, w2: seq<real>, n: nat)
    requires n <= |x| && n <= |w| && n <= |x2| && n <= |w2| && x[..n] == x2[..n] && w[..n] == w2[..n]
    ensures Isotonic.Total(x, w, n) == Isotonic.Total(x2, w2, n)
  {
    if n > 0 {
      assert x[..n][..n-1] == x[..n-1] && x2[..n][..n-1] == x2[..n-1];
      assert w[..n][..n-1] == w[..n-1] && w2[..n][..n-1] == w2[..n-1];
      TotalPrefix(x, w, x2, w2, n-1);
      assert x[n-1] == x[..n][n-1] == x2[n-1] && w[n-1] == w[..n][n-1] == w2[n-1];
    }
  }

  function Mass(bins: seq<Bin>): real { Isotonic.Total(Ys(bins), Ws(bins), |bins|) }

  lemma MassPush(bins: seq<Bin>, b: Bin)
    ensures Mass(bins + [b]) == Mass(bins) + Product(b.w, b.y)
  {
    var all := bins + [b];
    assert Ys(all)[..|bins|] == Ys(bins)[..|bins|] && Ws(all)[..|bins|] == Ws(bins)[..|bins|];
    TotalPrefix(Ys(all), Ws(all), Ys(bins), Ws(bins), |bins|);
  }

  lemma BelowStep(edges: seq<real>, n: nat, scores: seq<real>, xs: seq<real>)
    requires Increasing(edges) && 0 < n < |edges| && |xs| == |scores|
    requires forall s :: s in scores ==> edges[0] <= s <= edges[|edges|-1]
    ensures SumWhere(xs, Below(edges, n, scores)) ==
      SumWhere(xs, Below(edges, n-1, scores)) + SumWhere(xs, Mask(edges, n-1, scores))
  {
    var a, b, c := Below(edges, n-1, scores), Mask(edges, n-1, scores), Below(edges, n, scores);
    forall i | 0 <= i < |xs| ensures (c[i] <==> a[i] || b[i]) && !(a[i] && b[i]) {
      assert scores[i] in scores;
    }
    SumOfUnion(xs, a, b, c);
  }

  lemma {:induction false} BinsMass(tr: Training, edges: seq<real>, n: nat)
    requires tr.Valid() && BinsBearing(tr, edges) && Increasing(edges) && |edges| >= 2 && n < |edges|
    requires forall s :: s in tr.scores ==> edges[0] <= s <= edges[|edges|-1]
    ensures Mass(Bins(tr, edges, n)) == SumWhere(Times(Effective(tr), tr.labels), Below(edges, n, tr.scores))
    ensures forall b :: b in Bins(tr, edges, n) ==> b.w >= Isotonic.EPSILON
  {
    hide BinOf, Mass;
    var xs := Times(Effective(tr), tr.labels);
    if n == 0 {
      forall i | 0 <= i < |xs| ensures !Below(edges, 0, tr.scores)[i] { assert tr.scores[i] in tr.scores; }
      EmptySum(xs, Below(edges, 0, tr.scores));
      NoMass();
    } else {
      var mask := Mask(edges, n-1, tr.scores);
      BinsMass(tr, edges, n-1);
      BelowStep(edges, n, tr.scores, xs);
      if CountWhere(mask) > 0 {
        BinMass(tr, mask);
        MassPush(Bins(tr, edges, n-1), BinOf(tr, mask));
      } else {
        EmptySum(xs, mask);
        assert Bins(tr, edges, n) == Bins(tr, edges, n-1);
      }
    }
  }

  lemma NoMass()
    ensures Mass([]) == 0.0
  {}

  lemma {:induction false} SumAll(xs: seq<real>, mask: seq<bool>)
    requires |xs| == |mask| && forall i :: 0 <= i < |mask| ==> mask[i]
    ensures SumWhere(xs, mask) == Isotonic.Total(xs, Isotonic.Ones(|xs|), |xs|)
    decreases |xs|
  {
    if xs != [] {
      var n := |xs|;
      var front, last := mask[..n-1], mask[n-1..];
      SumAll(xs[..n-1], front);
      SumAppend(xs[..n-1], front, xs[n-1]);
      assert xs[..n-1] + [xs[n-1]] == xs && front + [true] == mask;
      TotalPrefix(xs, Isotonic.Ones(n), xs[..n-1], Isotonic.Ones(n-1), n-1);
    }
  }

  lemma {:induction false} SumAppend(xs: seq<real>, mask: seq<bool>, x: real)
    requires |xs| == |mask|
    ensures SumWhere(xs + [x], mask + [true]) == SumWhere(xs, mask) + x
  {
    if xs != [] {
      assert (xs + [x])[1..] == xs[1..] + [x] && (mask + [true])[1..] == mask[1..] + [true];
      SumAppend(xs[1..], mask[1..], x);
    }
  }

  lemma {:induction false} TotalOfTimes(w: seq<real>, y: seq<real>, n: nat)
    requires n <= |w| == |y|
    ensures Isotonic.Total(Times(w, y), Isotonic.Ones(|w|), n) == Isotonic.Total(y, w, n)
  {
    if n > 0 { TotalOfTimes(w, y, n-1); }
  }

  // Calibration in the large: over its bins, the fitted curve before rounding carries the
  // same weighted sum as the labels over the samples.
  lemma CurveKeepsLabelMass(tr: Training, nBins: nat)
    requires tr.Valid() && BinsBearing(tr, Edges(tr.scores, nBins)) && nBins >= 1 && Varied(tr.scores)
    ensures Isotonic.Total(Curve(tr, nBins), Ws(AllBins(tr, nBins)), |AllBins(tr, nBins)|)
      == Isotonic.Total(tr.labels, Effective(tr), |tr.labels|)
  {
    hide Edges, Bins, BinOf, SumWhere, BinsBearing, Isotonic.Total, Isotonic.Fit;
    var edges, bins, n := Edges(tr.scores, nBins), AllBins(tr, nBins), |tr.scores|;
    VariedEdges(tr.scores, nBins);
    forall s | s in tr.scores ensures edges[0] <= s <= edges[|edges|-1] { EdgesSpan(tr.scores, nBins, s); }
    BinsMass(tr, edges, |edges| - 1);
    SumAll(Times(Effective(tr), tr.labels), Below(edges, |edges| - 1, tr.scores));
    TotalOfTimes(Effective(tr), tr.labels, n);
    Isotonic.FitKeepsWeightedSum(Ys(bins), Ws(bins));
  }

  // ------------------------------------------------ the curve at and between knots

  // The curve meets every knot that does not share its place with another.
  lemma CurveMeetsKnots(xs: seq<real>, ys: seq<real>, i: nat)
    requires |xs| == |ys| && Sorted(xs) && i < |xs|
    requires (i > 0 ==> xs[i-1] < xs[i]) && (i + 1 < |xs| ==> xs[i] < xs[i+1])
    ensures Interpolated(xs, ys, xs[i]) == ys[i]
  {
    if 0 < i < |xs| - 1 {
      assert xs[0] <= xs[i-1] && xs[i+1] <= xs[|xs|-1];
      var k := BisectRight(xs, xs[i]);
      assert k == i + 1;
      StartsAt(xs[i], xs[i+1], ys[i], ys[i+1]);
    } else if i > 0 {
      assert xs[0] <= xs[i-1];
    }
  }

  lemma StartsAt(x0: real, x1: real, y0: real, y1: real)
    requires x0 < x1
    ensures Between(x0, x1, y0, y1, x0) == y0
  {
    assert (x0 - x0) * (y1 - y0) == 0.0;
  }

  // Between neighbouring knots it is the line through both.
  lemma CurveIsLine(xs: seq<real>, ys: seq<real>, i: nat, v: real)
    requires |xs| == |ys| && Sorted(xs) && i + 1 < |xs| && xs[i] < v < xs[i+1]
    ensures Product(xs[i+1] - xs[i], Interpolated(xs, ys, v) - ys[i]) == Product(v - xs[i], ys[i+1] - ys[i])
  {
    assert xs[0] <= xs[i] && xs[i+1] <= xs[|xs|-1];
    var k := BisectRight(xs, v);
    assert k == i + 1;
    QuotientBack(Product(v - xs[i], ys[i+1] - ys[i]), xs[i+1] - xs[i]);
  }

  // Without knots a score is its own probability, as far as it is one.
  lemma NoKnots(v: real)
    ensures Predict([], [], v) == if v < 0.0 then 0.0 else if v > 1.0 then 1.0 else v
  {}

  // The place of a knot before rounding is the mean of its bin's scores: over the bins the
  // places, each times its number of samples, add up to the scores.
  function Places(tr: Training): Training { Training(tr.scores, tr.scores, None) }

  lemma {:induction false} PlacesAreMeans(tr: Training, edges: seq<real>, n: nat)
    requires tr.Valid() && (n == 0 || n < |edges|)
    ensures Xs(Bins(tr, edges, n)) == Ys(Bins(Places(tr), edges, n))
  {
    hide SumWhere, CountWhere;
    if n > 0 {
      PlacesAreMeans(tr, edges, n-1);
      var mask := Mask(edges, n-1, tr.scores);
      var a, b := Bins(tr, edges, n-1), Bins(Places(tr), edges, n-1);
      if CountWhere(mask) > 0 {
        assert BinOf(tr, mask).x == BinOf(Places(tr), mask).y;
        assert Xs(a + [BinOf(tr, mask)]) == Xs(a) + [BinOf(tr, mask).x];
        assert Ys(b + [BinOf(Places(tr), mask)]) == Ys(b) + [BinOf(Places(tr), mask).y];
      } else {
        assert a + [] == a && b + [] == b;
      }
    }
  }

  lemma PlacesKeepScores(tr: Training, nBins: nat)
    requires tr.Valid() && nBins >= 1 && Varied(tr.scores)
    ensures var bins := AllBins(Places(tr), nBins);
      && Xs(AllBins(tr, nBins)) == Ys(bins)
      && Isotonic.Total(Ys(bins), Ws(bins), |bins|)
         == Isotonic.Total(tr.scores, Isotonic.Ones(|tr.scores|), |tr.scores|)
  {
    hide Edges, Bins, BinOf, SumWhere, Isotonic.Total;
    var edges, p := Edges(tr.scores, nBins), Places(tr);
    VariedEdges(tr.scores, nBins);
    PlacesAreMeans(tr, edges, BinCount(edges));
    forall s | s in tr.scores ensures edges[0] <= s <= edges[|edges|-1] { EdgesSpan(tr.scores, nBins, s); }
    BinsMass(p, edges, |edges| - 1);
    SumAll(Times(Effective(p), p.labels), Below(edges, |edges| - 1, p.scores));
    TotalOfTimes(Effective(p), p.labels, |p.scores|);
  }
}
