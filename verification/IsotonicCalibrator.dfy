// The calibrator object: fitting fills its knots and its two cut-offs, and reading a
// probability follows the knots (calibration_engine.py).
module IsotonicCalibrator {
  import opened Reals
  import opened Wrappers
  import opened SortedReals
  import opened CalibrationCurve
  import Isotonic

  datatype Policy = Policy(costFp: real, costFn: real, minPrecision: real)

  // -------------------------------------------------------------- confusion

  datatype Verdicts = Verdicts(tp: nat, fp: nat, fn: nat)

  function Add(v: Verdicts, accepted: bool, positive: bool): Verdicts {
    if accepted then if positive then v.(tp := v.tp + 1) else v.(fp := v.fp + 1)
    else if positive then v.(fn := v.fn + 1)
    else v
  }

  // Accepting everything at or above the cut, against labels split at one half.
  function Confusion(values: seq<real>, labels: seq<real>, cut: real): Verdicts
    requires |labels| == |values|
  {
    if values == [] then Verdicts(0, 0, 0)
    else
      var n := |values| - 1;
      Add(Confusion(values[..n], labels[..n], cut), values[n] >= cut, labels[n] >= 0.5)
  }

  function Precision(v: Verdicts): real {
    if v.tp + v.fp > 0 then v.tp as real / (v.tp + v.fp) as real else 0.0
  }

  function Recall(v: Verdicts): real {
    v.tp as real / Max(1.0, (v.tp + v.fn) as real)
  }

  function Cost(p: Policy, v: Verdicts): real { v.fp as real * p.costFp + v.fn as real * p.costFn }

  function F1(v: Verdicts): real {
    2.0 * Precision(v) * Recall(v) / Max(0.000001, Precision(v) + Recall(v))
  }

  predicate Admissible(p: Policy, v: Verdicts) { v.tp > 0 && Precision(v) > p.minPrecision }

  function Cut(k: nat): real { k as real / 100.0 }

  // --------------------------------------------------------- the two searches

  // Cheaper, or as cheap with more recall.
  ghost predicate Better(p: Policy, a: Verdicts, b: Verdicts) {
    Cost(p, a) < Cost(p, b) || (Cost(p, a) == Cost(p, b) && Recall(a) > Recall(b))
  }

  // The cut at k is the first of the best among the admissible ones of lo..hi.
  ghost predicate IsCheapest(values: seq<real>, labels: seq<real>, p: Policy, k: nat, lo: nat, hi: nat)
    requires |labels| == |values|
  {
    && lo <= k < hi && Admissible(p, Confusion(values, labels, Cut(k)))
    && forall j: nat | lo <= j < hi && Admissible(p, Confusion(values, labels, Cut(j))) ::
        && !Better(p, Confusion(values, labels, Cut(j)), Confusion(values, labels, Cut(k)))
        && (j < k ==> Better(p, Confusion(values, labels, Cut(k)), Confusion(values, labels, Cut(j))))
  }

  ghost predicate NoneAdmissible(values: seq<real>, labels: seq<real>, p: Policy, lo: nat, hi: nat)
    requires |labels| == |values|
  {
    forall j: nat | lo <= j < hi :: !Admissible(p, Confusion(values, labels, Cut(j)))
  }

  ghost predicate IsThreshold(values: seq<real>, labels: seq<real>, p: Policy, best: Option<real>)
    requires |labels| == |values|
  {
    match best
    case None => NoneAdmissible(values, labels, p, 5, 111)
    case Some(t) => exists k: nat :: t == Cut(k) && IsCheapest(values, labels, p, k, 5, 111)
  }

  method SelectThreshold(scores: seq<real>, labels: seq<real>, p: Policy) returns (best: Option<real>)
    requires |labels| == |scores|
    ensures IsThreshold(scores, labels, p, best)
  {
    hide Confusion, Cost, Recall, Precision;
    best := None;
    var minCost: Option<real> := None;
    var bestRecall := 0.0;
    ghost var at: nat := 0;
    for k: nat := 5 to 111
      invariant best.None? ==> minCost.None? && NoneAdmissible(scores, labels, p, 5, k)
      invariant best.Some? ==> best == Some(Cut(at)) && IsCheapest(scores, labels, p, at, 5, k)
      invariant best.Some? ==> minCost == Some(Cost(p, Confusion(scores, labels, Cut(at))))
      invariant best.Some? ==> bestRecall == Recall(Confusion(scores, labels, Cut(at)))
    {
      var v := Confusion(scores, labels, Cut(k));
      var cost, rec := Cost(p, v), Recall(v);
      if v.tp > 0 && Precision(v) > p.minPrecision {
        if minCost.None? || cost < minCost.value || (cost == minCost.value && rec > bestRecall) {
          minCost, bestRecall, best, at := Some(cost), rec, Some(Cut(k)), k;
        }
      }
    }
  }

  // The cut at k is the first of those with the largest F1 among the admissible ones.
  ghost predicate IsSharpest(values: seq<real>, labels: seq<real>, p: Policy, k: nat, lo: nat, hi: nat)
    requires |labels| == |values|
  {
    && lo <= k < hi && Admissible(p, Confusion(values, labels, Cut(k)))
    && forall j: nat | lo <= j < hi && Admissible(p, Confusion(values, labels, Cut(j))) ::
        && F1(Confusion(values, labels, Cut(j))) <= F1(Confusion(values, labels, Cut(k)))
        && (j < k ==> F1(Confusion(values, labels, Cut(j))) < F1(Confusion(values, labels, Cut(k))))
  }

  ghost predicate IsMargin(values: seq<real>, labels: seq<real>, p: Policy, best: Option<real>)
    requires |labels| == |values|
  {
    match best
    case None => NoneAdmissible(values, labels, p, 1, 25)
    case Some(m) => exists k: nat :: m == Cut(k) && IsSharpest(values, labels, p, k, 1, 25)
  }

  // Any true positive makes F1 positive, so the search never misses the first candidate.
  lemma F1Positive(v: Verdicts)
    requires v.tp > 0
    ensures F1(v) > 0.0
  {
    assert Precision(v) > 0.0 && Recall(v) > 0.0;
    assert Product(2.0 * Precision(v), Recall(v)) > 0.0;
  }

  method SelectMargin(margins: seq<real>, labels: seq<real>, p: Policy) returns (best: Option<real>)
    requires |labels| == |margins|
    ensures IsMargin(margins, labels, p, best)
  {
    hide Confusion, Recall, Precision, F1;
    best := None;
    var bestF1 := 0.0;
    ghost var at: nat := 0;
    for k: nat := 1 to 25
      invariant best.None? ==> bestF1 == 0.0 && NoneAdmissible(margins, labels, p, 1, k)
      invariant best.Some? ==> best == Some(Cut(at)) && IsSharpest(margins, labels, p, at, 1, k)
      invariant best.Some? ==> bestF1 == F1(Confusion(margins, labels, Cut(at)))
    {
      var v := Confusion(margins, labels, Cut(k));
      if v.tp > 0 { F1Positive(v); }
      if v.tp > 0 && Precision(v) > p.minPrecision && F1(v) > bestF1 {
        bestF1, best, at := F1(v), Some(Cut(k)), k;
      }
    }
  }

  // -------------------------------------------------------------- the object

  class Calibrator {
    const policy: Policy
    var knotsX: seq<real>
    var knotsY: seq<real>
    var optimalThreshold: Option<real>
    var optimalMargin: Option<real>

    constructor (policy: Policy)
      ensures this.policy == policy && Valid() && knotsX == []
    {
      this.policy := policy;
      knotsX, knotsY, optimalThreshold, optimalMargin := [], [], None, None;
    }

    ghost predicate Valid()
      reads this
    {
      |knotsX| == |knotsY| && Sorted(knotsX) && Sorted(knotsY)
    }

    method Fit(tr: Training, margins: Option<seq<real>>, nBins: nat)
      requires tr.Valid() && (margins.Some? ==> |margins.value| == |tr.scores|)
      modifies this
      ensures Valid() && knotsX == KnotsX(tr, nBins) && knotsY == KnotsY(tr, nBins)
      ensures IsThreshold(tr.scores, tr.labels, policy, optimalThreshold)
      ensures IsMargin(margins.GetOr(seq(|tr.scores|, _ => 0.0)), tr.labels, policy, optimalMargin)
    {
      hide BinOf, Edges, IsThreshold, IsMargin, CountWhere, Isotonic.Fit;
      var marginsArr := margins.GetOr(seq(|tr.scores|, _ => 0.0));
      var edges := Edges(tr.scores, nBins);
      var binX: seq<real>, binY: seq<real>, binW: seq<real> := [], [], [];
      for i: nat := 0 to BinCount(edges)
        invariant var bins := Bins(tr, edges, i); binX == Xs(bins) && binY == Ys(bins) && binW == Ws(bins)
      {
        var mask := Mask(edges, i, tr.scores);
        if CountWhere(mask) > 0 {
          var b := BinOf(tr, mask);
          BinPush(Bins(tr, edges, i), b);
          binX, binY, binW := binX + [b.x], binY + [b.y], binW + [b.w];
        } else {
          assert Bins(tr, edges, i + 1) == Bins(tr, edges, i);
        }
      }
      var fitted := Isotonic.Pava(binY, Some(binW));
      knotsX, knotsY := Rounded(binX), Rounded(fitted);
      KnotsInOrder(tr, nBins);
      optimalThreshold := SelectThreshold(tr.scores, tr.labels, policy);
      optimalMargin := SelectMargin(marginsArr, tr.labels, policy);
    }

    method PredictProba(score: real) returns (p: real)
      requires Valid()
      ensures p == Predict(knotsX, knotsY, score) && 0.0 <= p <= 1.0
    {
      hide Between;
      if knotsX == [] || knotsY == [] {
        return Clip(score);
      }
      if score <= knotsX[0] {
        p := Clip(knotsY[0]);
      } else if score >= knotsX[|knotsX|-1] {
        p := Clip(knotsY[|knotsY|-1]);
      } else {
        var idx := BisectRight(knotsX, score);
        InsideSegment(knotsX, knotsY, score);
        p := Clip(Between(knotsX[idx-1], knotsX[idx], knotsY[idx-1], knotsY[idx], score));
      }
    }
  }

  lemma BinPush(bins: seq<Bin>, b: Bin)
    ensures Xs(bins + [b]) == Xs(bins) + [b.x]
    ensures Ys(bins + [b]) == Ys(bins) + [b.y]
    ensures Ws(bins + [b]) == Ws(bins) + [b.w]
  {}

  // ---------------------------------------------------- what the scores mean

  // The samples among the first n that a cut accepts or refuses, with the given label.
  function Judged(values: seq<real>, labels: seq<real>, cut: real, n: nat, accepted: bool, positive: bool): set<nat>
    requires n <= |values| == |labels|
  {
    set i: nat | i < n && (values[i] >= cut) == accepted && (labels[i] >= 0.5) == positive
  }

  lemma JudgedNext(values: seq<real>, labels: seq<real>, cut: real, n: nat, accepted: bool, positive: bool)
    requires n < |values| == |labels|
    ensures Judged(values, labels, cut, n + 1, accepted, positive)
         == Judged(values, labels, cut, n, accepted, positive)
            + if (values[n] >= cut) == accepted && (labels[n] >= 0.5) == positive then {n} else {}
  {}

  lemma JudgedStep(values: seq<real>, labels: seq<real>, cut: real, n: nat, accepted: bool, positive: bool)
    requires n < |values| == |labels|
    ensures |Judged(values, labels, cut, n + 1, accepted, positive)|
         == |Judged(values, labels, cut, n, accepted, positive)|
            + if (values[n] >= cut) == accepted && (labels[n] >= 0.5) == positive then 1 else 0
  {
    JudgedNext(values, labels, cut, n, accepted, positive);
    assert n !in Judged(values, labels, cut, n, accepted, positive);
  }

  lemma {:induction false} ConfusionOfPrefix(values: seq<real>, labels: seq<real>, cut: real, n: nat)
    requires n <= |values| == |labels|
    ensures var v := Confusion(values[..n], labels[..n], cut);
      && v.tp == |Judged(values, labels, cut, n, true, true)|
      && v.fp == |Judged(values, labels, cut, n, true, false)|
      && v.fn == |Judged(values, labels, cut, n, false, true)|
  {
    hide Judged;
    if n == 0 {
      NoneJudged(values, labels, cut);
    } else {
      assert values[..n][..n-1] == values[..n-1] && labels[..n][..n-1] == labels[..n-1];
      ConfusionOfPrefix(values, labels, cut, n - 1);
      JudgedStep(values, labels, cut, n - 1, true, true);
      JudgedStep(values, labels, cut, n - 1, true, false);
      JudgedStep(values, labels, cut, n - 1, false, true);
    }
  }

  lemma NoneJudged(values: seq<real>, labels: seq<real>, cut: real)
    requires |labels| == |values|
    ensures forall accepted, positive :: Judged(values, labels, cut, 0, accepted, positive) == {}
  {}

  // True positives are the samples at or above the cut with a label of one half or more, false
  // positives those with a lower label, false negatives the samples below it that were missed.
  lemma ConfusionCounts(values: seq<real>, labels: seq<real>, cut: real)
    requires |labels| == |values|
    ensures var v, n := Confusion(values, labels, cut), |values|;
      && v.tp == |Judged(values, labels, cut, n, true, true)|
      && v.fp == |Judged(values, labels, cut, n, true, false)|
      && v.fn == |Judged(values, labels, cut, n, false, true)|
  {
    hide Confusion, Judged;
    assert values[..|values|] == values && labels[..|labels|] == labels;
    ConfusionOfPrefix(values, labels, cut, |values|);
  }

  // Precision is the share of true among accepted samples, recall among positive ones.
  lemma RatesAreShares(v: Verdicts)
    ensures Product((v.tp + v.fp) as real, Precision(v)) == v.tp as real
    ensures Product((v.tp + v.fn) as real, Recall(v)) == v.tp as real
    ensures 0.0 <= Precision(v) <= 1.0 && 0.0 <= Recall(v) <= 1.0
  {
    var a, b := (v.tp + v.fp) as real, (v.tp + v.fn) as real;
    if v.tp + v.fp > 0 {
      assert Product(a, 0.0) == 0.0 && Product(a, 1.0) == a;
      QuotientBounds(v.tp as real, a, 0.0, 1.0);
    }
    if v.tp + v.fn > 0 {
      assert Product(b, 0.0) == 0.0 && Product(b, 1.0) == b;
      QuotientBounds(v.tp as real, b, 0.0, 1.0);
    }
  }

  // F1 is the harmonic mean of precision and recall, above the floor of its divisor.
  lemma F1IsHarmonic(v: Verdicts)
    requires Precision(v) + Recall(v) >= 0.000001
    ensures Product(Precision(v) + Recall(v), F1(v)) == 2.0 * Product(Precision(v), Recall(v))
  {
    hide Precision, Recall;
    QuotientBack(2.0 * Product(Precision(v), Recall(v)), Precision(v) + Recall(v));
  }

  // Each false positive and each false negative costs its price, and nothing else costs.
  lemma CostAddsUp(p: Policy, v: Verdicts)
    ensures Cost(p, v.(fp := v.fp + 1)) == Cost(p, v) + p.costFp
    ensures Cost(p, v.(fn := v.fn + 1)) == Cost(p, v) + p.costFn
    ensures Cost(p, Verdicts(v.tp, 0, 0)) == 0.0
  {
    assert (v.fp + 1) as real * p.costFp == v.fp as real * p.costFp + p.costFp;
    assert (v.fn + 1) as real * p.costFn == v.fn as real * p.costFn + p.costFn;
  }

  // The thresholds run from 0.05 to 1.10 and the margins from 0.01 to 0.24, in hundredths.
  lemma GridOfCuts(k: nat)
    ensures Cut(k + 1) == Cut(k) + 0.01 && Cut(0) == 0.0
    ensures Cut(5) == 0.05 && Cut(110) == 1.10 && Cut(1) == 0.01 && Cut(24) == 0.24
  {}
}
