// Pool Adjacent Violators: the stack-merging loop of calibration_engine.py and its
// weighted least-squares optimality.
module Isotonic {
  import opened Reals
  import opened SortedReals
  import opened Wrappers

  // The floor that the source puts under the divisor of a pooled mean.
  const EPSILON := 0.000000000001

  datatype Block = Block(weight: real, value: real, count: nat)

  function MinNat(a: nat, b: nat): nat { if a <= b then a else b }

  // The pooled mean, with the source's floor under the divisor.
  function Mean(wa: real, va: real, wb: real, vb: real): real {
    (Product(wa, va) + Product(wb, vb)) / Max(EPSILON, wa + wb)
  }

  function Merge(a: Block, b: Block): Block {
    Block(a.weight + b.weight, Mean(a.weight, a.value, b.weight, b.value), a.count + b.count)
  }

  // Pools the top two blocks for as long as they violate the order.
  function Pool(st: seq<Block>): seq<Block>
    decreases |st|
  {
    var n := |st|;
    if n >= 2 && st[n-2].value > st[n-1].value then
      Pool(st[..n-2] + [Merge(st[n-2], st[n-1])])
    else
      st
  }

  // The stack after the first n samples.
  function Blocks(y: seq<real>, w: seq<real>, n: nat): seq<Block>
    requires n <= |y| && n <= |w|
  {
    if n == 0 then [] else Pool(Blocks(y, w, n-1) + [Block(w[n-1], y[n-1], 1)])
  }

  function Repeat(v: real, k: nat): (s: seq<real>)
    ensures |s| == k && forall i :: 0 <= i < k ==> s[i] == v
  {
    seq(k, _ => v)
  }

  function Expand(st: seq<Block>): seq<real> {
    if st == [] then []
    else Expand(st[..|st|-1]) + Repeat(st[|st|-1].value, st[|st|-1].count)
  }

  // Whatever the numbers, the fit has one value per sample and never decreases.
  function Fit(y: seq<real>, w: seq<real>): (x: seq<real>)
    ensures |x| == MinNat(|y|, |w|) && Sorted(x)
  {
    BlocksShape(y, w, MinNat(|y|, |w|));
    ExpandShape(Blocks(y, w, MinNat(|y|, |w|)));
    Expand(Blocks(y, w, MinNat(|y|, |w|)))
  }

  function Ones(n: nat): seq<real> { seq(n, _ => 1.0) }

  // ---------------------------------------------------------------- the loop

  // Reads the three parallel lists of the source as one stack of blocks.
  ghost function Zip(weights: seq<real>, values: seq<real>, counts: seq<nat>): seq<Block>
    requires |weights| == |values| == |counts|
  {
    seq(|weights|, i requires 0 <= i < |weights| => Block(weights[i], values[i], counts[i]))
  }

  lemma ZipPush(weights: seq<real>, values: seq<real>, counts: seq<nat>, b: Block)
    requires |weights| == |values| == |counts|
    ensures Zip(weights + [b.weight], values + [b.value], counts + [b.count]) == Zip(weights, values, counts) + [b]
  {}

  lemma ZipTake(weights: seq<real>, values: seq<real>, counts: seq<nat>, n: nat)
    requires |weights| == |values| == |counts| && n <= |weights|
    ensures Zip(weights[..n], values[..n], counts[..n]) == Zip(weights, values, counts)[..n]
  {}

  method Pava(y: seq<real>, w: Option<seq<real>>) returns (out: seq<real>)
    ensures out == Fit(y, w.GetOr(Ones(|y|)))
  {
    var ws := w.GetOr(Ones(|y|));
    var n := MinNat(|y|, |ws|);
    var weights: seq<real>, values: seq<real>, counts: seq<nat> := [], [], [];
    for i := 0 to n
      invariant |weights| == |values| == |counts|
      invariant Zip(weights, values, counts) == Blocks(y, ws, i)
    {
      ZipPush(weights, values, counts, Block(ws[i], y[i], 1));
      weights, values, counts := PoolTop(weights + [ws[i]], values + [y[i]], counts + [1]);
    }
    out := Extend(values, counts, Zip(weights, values, counts));
  }

  method PoolTop(weights0: seq<real>, values0: seq<real>, counts0: seq<nat>)
    returns (weights: seq<real>, values: seq<real>, counts: seq<nat>)
    requires |weights0| == |values0| == |counts0|
    ensures |weights| == |values| == |counts|
    ensures Zip(weights, values, counts) == Pool(Zip(weights0, values0, counts0))
  {
    weights, values, counts := weights0, values0, counts0;
    while |values| >= 2 && values[|values|-2] > values[|values|-1]
      invariant |weights| == |values| == |counts|
      invariant Pool(Zip(weights, values, counts)) == Pool(Zip(weights0, values0, counts0))
      decreases |values|
    {
      ghost var st := Zip(weights, values, counts);
      var m := |values|;
      var wNew := weights[m-2] + weights[m-1];
      var valNew := Mean(weights[m-2], values[m-2], weights[m-1], values[m-1]);
      var cntNew := counts[m-2] + counts[m-1];
      ghost var b := Merge(st[m-2], st[m-1]);
      assert b == Block(wNew, valNew, cntNew);
      ZipTake(weights, values, counts, m-2);
      ZipPush(weights[..m-2], values[..m-2], counts[..m-2], b);
      weights, values, counts := weights[..m-2] + [wNew], values[..m-2] + [valNew], counts[..m-2] + [cntNew];
    }
  }

  method Extend(values: seq<real>, counts: seq<nat>, ghost st: seq<Block>) returns (out: seq<real>)
    requires |st| == |values| == |counts|
    requires forall i :: 0 <= i < |st| ==> st[i].value == values[i] && st[i].count == counts[i]
    ensures out == Expand(st)
  {
    out := [];
    for i := 0 to |values|
      invariant out == Expand(st[..i])
    {
      out := out + Repeat(values[i], counts[i]);
      assert st[..i+1][..i] == st[..i];
    }
    assert st[..|st|] == st;
  }

  // ------------------------------------------- shape: holds for every input at all

  ghost predicate Ascending(st: seq<Block>) {
    forall i, j :: 0 <= i < j < |st| ==> st[i].value <= st[j].value
  }

  function Count(st: seq<Block>): nat {
    if st == [] then 0 else Count(st[..|st|-1]) + st[|st|-1].count
  }

  lemma ReplaceTop(st: seq<Block>, b: Block)
    requires |st| >= 2 && Ascending(st[..|st|-1]) && b.count == st[|st|-2].count + st[|st|-1].count
    ensures var next := st[..|st|-2] + [b];
      next[..|next|-1] == st[..|st|-2] && Ascending(next[..|next|-1]) && Count(next) == Count(st)
  {
    var n := |st|;
    var next := st[..n-2] + [b];
    assert next[..|next|-1] == st[..n-2];
    assert st[..n-1][..n-2] == st[..n-2];
    assert Count(st) == Count(st[..n-1]) + st[n-1].count;
    assert Count(st[..n-1]) == Count(st[..n-2]) + st[n-2].count;
  }

  lemma {:induction false} PoolShape(st: seq<Block>)
    requires st != [] && Ascending(st[..|st|-1])
    ensures Ascending(Pool(st)) && Count(Pool(st)) == Count(st)
    decreases |st|
  {
    var n := |st|;
    if n >= 2 && st[n-2].value > st[n-1].value {
      ReplaceTop(st, Merge(st[n-2], st[n-1]));
      PoolShape(st[..n-2] + [Merge(st[n-2], st[n-1])]);
    }
  }

  lemma {:induction false} BlocksShape(y: seq<real>, w: seq<real>, n: nat)
    requires n <= |y| && n <= |w|
    ensures Ascending(Blocks(y, w, n)) && Count(Blocks(y, w, n)) == n
  {
    if n > 0 {
      BlocksShape(y, w, n-1);
      var st := Blocks(y, w, n-1) + [Block(w[n-1], y[n-1], 1)];
      assert st[..|st|-1] == Blocks(y, w, n-1);
      PoolShape(st);
    }
  }

  lemma {:induction false} ExpandShape(st: seq<Block>)
    requires Ascending(st)
    ensures |Expand(st)| == Count(st) && Sorted(Expand(st))
    ensures forall i :: 0 <= i < |Expand(st)| ==> st != [] && Expand(st)[i] <= st[|st|-1].value
  {
    if st != [] {
      ExpandShape(st[..|st|-1]);
    }
  }

  // ---------------------------------------------------------- weighted sums

  function Weight(w: seq<real>, lo: nat, hi: nat): real
    requires lo <= hi <= |w|
  {
    if lo == hi then 0.0 else Weight(w, lo, hi-1) + w[hi-1]
  }

  // Sum over [lo, hi) of w * (y - v).
  function Dev(y: seq<real>, w: seq<real>, v: real, lo: nat, hi: nat): real
    requires lo <= hi <= |w| && hi <= |y|
  {
    if lo == hi then 0.0 else Dev(y, w, v, lo, hi-1) + Product(w[hi-1], y[hi-1] - v)
  }

  function Sq(w: real, d: real): (r: real)
    ensures w >= 0.0 ==> r >= 0.0
    ensures w > 0.0 && d != 0.0 ==> r > 0.0
  {
    var a := if d >= 0.0 then d else -d;
    Product(w, Product(a, a))
  }

  lemma SqIs(w: real, d: real)
    ensures Sq(w, d) == w * (d * d)
  {}

  // Weighted squared error of z against y over the first n samples.
  function Err(y: seq<real>, w: seq<real>, z: seq<real>, n: nat): real
    requires n <= |y| && n <= |w| && n <= |z|
  {
    if n == 0 then 0.0 else Err(y, w, z, n-1) + Sq(w[n-1], y[n-1] - z[n-1])
  }

  // Sum of w * (y - x) * (x - z).
  function Cross(y: seq<real>, w: seq<real>, x: seq<real>, z: seq<real>, n: nat): real
    requires n <= |y| && n <= |w| && n <= |x| && n <= |z|
  {
    if n == 0 then 0.0 else Cross(y, w, x, z, n-1) + Product(w[n-1], Product(y[n-1] - x[n-1], x[n-1] - z[n-1]))
  }

  lemma {:induction false} DevSplit(y: seq<real>, w: seq<real>, v: real, lo: nat, mid: nat, hi: nat)
    requires lo <= mid <= hi <= |w| && hi <= |y|
    ensures Dev(y, w, v, lo, hi) == Dev(y, w, v, lo, mid) + Dev(y, w, v, mid, hi)
    ensures Weight(w, lo, hi) == Weight(w, lo, mid) + Weight(w, mid, hi)
  {
    if mid < hi { DevSplit(y, w, v, lo, mid, hi-1); }
  }

  lemma {:induction false} DevShift(y: seq<real>, w: seq<real>, v: real, u: real, lo: nat, hi: nat)
    requires lo <= hi <= |w| && hi <= |y|
    ensures Dev(y, w, u, lo, hi) == Dev(y, w, v, lo, hi) + Product(Weight(w, lo, hi), v - u)
  {
    if lo < hi {
      DevShift(y, w, v, u, lo, hi-1);
      ShiftTerm(Weight(w, lo, hi-1), w[hi-1], y[hi-1], v, u);
    }
  }

  lemma ShiftTerm(p: real, w: real, y: real, v: real, u: real)
    ensures Product(p + w, v - u) + Product(w, y - v) == Product(p, v - u) + Product(w, y - u)
  {}

  ghost predicate NonNegative(w: seq<real>) {
    forall i :: 0 <= i < |w| ==> w[i] >= 0.0
  }

  // No two neighbouring samples have a positive joint weight under the divisor's floor.
  ghost predicate SafeWeights(w: seq<real>) {
    forall i :: 0 <= i && i+1 < |w| ==> w[i] + w[i+1] == 0.0 || w[i] + w[i+1] >= EPSILON
  }

  lemma {:induction false} WeightBounds(w: seq<real>, lo: nat, hi: nat)
    requires lo <= hi <= |w| && NonNegative(w)
    ensures Weight(w, lo, hi) >= 0.0
    ensures forall i :: lo <= i < hi ==> w[i] <= Weight(w, lo, hi)
    ensures forall i :: lo <= i && i+1 < hi ==> w[i] + w[i+1] <= Weight(w, lo, hi)
  {
    if lo < hi { WeightBounds(w, lo, hi-1); }
  }

  lemma {:induction false} ZeroWeight(w: seq<real>, lo: nat, hi: nat)
    requires lo <= hi <= |w| && NonNegative(w)
    requires forall i :: lo <= i && i+1 < hi ==> w[i] + w[i+1] == 0.0
    requires hi - lo >= 2
    ensures Weight(w, lo, hi) == 0.0
  {
    assert w[hi-2] + w[hi-1] == 0.0;
    if hi - lo > 2 {
      ZeroWeight(w, lo, hi-1);
    } else {
      assert Weight(w, lo, hi) == Weight(w, lo, hi-1) + w[hi-1];
      assert Weight(w, lo, hi-1) == Weight(w, lo, lo) + w[lo];
    }
  }

  // Every run of two or more samples weighs nothing, or at least the floor.
  lemma SafeSegment(w: seq<real>, lo: nat, hi: nat)
    requires NonNegative(w) && SafeWeights(w)
    requires lo + 2 <= hi <= |w|
    ensures Weight(w, lo, hi) == 0.0 || Weight(w, lo, hi) >= EPSILON
  {
    WeightBounds(w, lo, hi);
    if forall i :: lo <= i && i+1 < hi ==> w[i] + w[i+1] == 0.0 {
      ZeroWeight(w, lo, hi);
    }
  }

  lemma {:induction false} WeightlessDev(y: seq<real>, w: seq<real>, v: real, lo: nat, hi: nat)
    requires lo <= hi <= |w| && hi <= |y|
    requires forall i :: lo <= i < hi ==> w[i] == 0.0
    ensures Dev(y, w, v, lo, hi) == 0.0
  {
    if lo < hi { WeightlessDev(y, w, v, lo, hi-1); }
  }

  // ------------------------------------------------------- the block invariant

  // A block holds the weighted mean of its segment, and no prefix of the segment lies
  // below that mean.
  ghost predicate Balanced(y: seq<real>, w: seq<real>, b: Block, lo: nat, hi: nat) {
    && lo < hi <= |w| && hi <= |y|
    && b.count == hi - lo
    && b.weight == Weight(w, lo, hi)
    && Dev(y, w, b.value, lo, hi) == 0.0
    && forall k :: lo <= k <= hi ==> Dev(y, w, b.value, lo, k) >= 0.0
  }

  ghost predicate StackOk(y: seq<real>, w: seq<real>, st: seq<Block>, n: nat) {
    if st == [] then n == 0
    else
      var b := st[|st|-1];
      && b.count <= n
      && Balanced(y, w, b, n - b.count, n)
      && StackOk(y, w, st[..|st|-1], n - b.count)
  }

  lemma MeanBounds(wa: real, va: real, wb: real, vb: real)
    requires wa >= 0.0 && wb >= 0.0 && va > vb && wa + wb >= EPSILON
    ensures Product(wa, va) + Product(wb, vb) == Product(wa + wb, Mean(wa, va, wb, vb))
    ensures vb <= Mean(wa, va, wb, vb) <= va
  {
    MulMono(wb, vb, va);
    MulMono(wa, vb, va);
    assert Product(wa + wb, vb) == Product(wa, vb) + Product(wb, vb);
    assert Product(wa + wb, va) == Product(wa, va) + Product(wb, va);
    QuotientBounds(Product(wa, va) + Product(wb, vb), wa + wb, vb, va);
  }

  lemma BalancedMerge(y: seq<real>, w: seq<real>, a: Block, b: Block, lo: nat, mid: nat, hi: nat)
    requires NonNegative(w) && SafeWeights(w)
    requires Balanced(y, w, a, lo, mid) && Balanced(y, w, b, mid, hi) && a.value > b.value
    ensures Balanced(y, w, Merge(a, b), lo, hi)
  {
    var v := Merge(a, b).value;
    DevSplit(y, w, v, lo, mid, hi);
    WeightBounds(w, lo, mid);
    WeightBounds(w, mid, hi);
    SafeSegment(w, lo, hi);
    if Weight(w, lo, hi) == 0.0 {
      WeightBounds(w, lo, hi);
      forall k | lo <= k <= hi ensures Dev(y, w, v, lo, k) == 0.0 {
        WeightlessDev(y, w, v, lo, k);
      }
    } else {
      MeanBounds(a.weight, a.value, b.weight, b.value);
      MergedDev(y, w, a.value, b.value, v, lo, mid, hi);
    }
  }

  lemma MergedDev(y: seq<real>, w: seq<real>, a: real, b: real, v: real, lo: nat, mid: nat, hi: nat)
    requires lo <= mid <= hi <= |w| && hi <= |y| && NonNegative(w) && b <= v <= a
    requires Dev(y, w, a, lo, mid) == 0.0 && Dev(y, w, b, mid, hi) == 0.0
    requires Product(Weight(w, lo, mid), a) + Product(Weight(w, mid, hi), b)
          == Product(Weight(w, lo, mid) + Weight(w, mid, hi), v)
    requires forall j :: lo <= j <= mid ==> Dev(y, w, a, lo, j) >= 0.0
    requires forall j :: mid <= j <= hi ==> Dev(y, w, b, mid, j) >= 0.0
    ensures Dev(y, w, v, lo, hi) == 0.0
    ensures forall k :: lo <= k <= hi ==> Dev(y, w, v, lo, k) >= 0.0
  {
    MergedTotal(y, w, a, b, v, lo, mid, hi);
    forall k | lo <= k <= hi ensures Dev(y, w, v, lo, k) >= 0.0 {
      MergedPrefix(y, w, a, b, v, lo, mid, hi, k);
    }
  }

  lemma MergedTotal(y: seq<real>, w: seq<real>, a: real, b: real, v: real, lo: nat, mid: nat, hi: nat)
    requires lo <= mid <= hi <= |w| && hi <= |y|
    requires Dev(y, w, a, lo, mid) == 0.0 && Dev(y, w, b, mid, hi) == 0.0
    requires Product(Weight(w, lo, mid), a) + Product(Weight(w, mid, hi), b)
          == Product(Weight(w, lo, mid) + Weight(w, mid, hi), v)
    ensures Dev(y, w, v, lo, hi) == 0.0
  {
    DevSplit(y, w, v, lo, mid, hi);
    DevShift(y, w, a, v, lo, mid);
    DevShift(y, w, b, v, mid, hi);
    SumOfShifts(Weight(w, lo, mid), a, Weight(w, mid, hi), b, v);
  }

  lemma SumOfShifts(p: real, a: real, q: real, b: real, v: real)
    ensures Product(p, a - v) + Product(q, b - v) == Product(p, a) + Product(q, b) - Product(p + q, v)
  {}

  lemma MergedPrefix(y: seq<real>, w: seq<real>, a: real, b: real, v: real, lo: nat, mid: nat, hi: nat, k: nat)
    requires lo <= mid <= hi <= |w| && hi <= |y| && lo <= k <= hi && NonNegative(w)
    requires b <= v <= a && Dev(y, w, v, lo, hi) == 0.0 && Dev(y, w, b, mid, hi) == 0.0
    requires forall j :: lo <= j <= mid ==> Dev(y, w, a, lo, j) >= 0.0
    requires forall j :: mid <= j <= hi ==> Dev(y, w, b, mid, j) >= 0.0
    ensures Dev(y, w, v, lo, k) >= 0.0
  {
    if k <= mid {
      DevShift(y, w, a, v, lo, k);
      WeightBounds(w, lo, k);
    } else {
      DevSplit(y, w, v, lo, k, hi);
      DevSplit(y, w, b, mid, k, hi);
      DevShift(y, w, b, v, k, hi);
      WeightBounds(w, k, hi);
      MulMono(Weight(w, k, hi), b - v, 0.0);
    }
  }

  lemma {:induction false} PoolOk(y: seq<real>, w: seq<real>, st: seq<Block>, n: nat)
    requires NonNegative(w) && SafeWeights(w) && StackOk(y, w, st, n)
    ensures StackOk(y, w, Pool(st), n)
    decreases |st|
  {
    var m := |st|;
    if m >= 2 && st[m-2].value > st[m-1].value {
      var a, b := st[m-2], st[m-1];
      var front := st[..m-1];
      assert front[|front|-1] == a && front[..|front|-1] == st[..m-2];
      BalancedMerge(y, w, a, b, n - b.count - a.count, n - b.count, n);
      var next := st[..m-2] + [Merge(a, b)];
      assert next[..|next|-1] == st[..m-2];
      PoolOk(y, w, next, n);
    }
  }

  lemma {:induction false} BlocksOk(y: seq<real>, w: seq<real>, n: nat)
    requires NonNegative(w) && SafeWeights(w) && n <= |y| && n <= |w|
    ensures StackOk(y, w, Blocks(y, w, n), n)
  {
    if n > 0 {
      BlocksOk(y, w, n-1);
      var b := Block(w[n-1], y[n-1], 1);
      var st := Blocks(y, w, n-1) + [b];
      assert st[..|st|-1] == Blocks(y, w, n-1);
      assert Weight(w, n-1, n) == Weight(w, n-1, n-1) + w[n-1];
      assert Dev(y, w, b.value, n-1, n) == Dev(y, w, b.value, n-1, n-1) + Product(w[n-1], y[n-1] - b.value);
      assert Balanced(y, w, b, n-1, n);
      PoolOk(y, w, st, n);
    }
  }

  // ------------------------------------------------------------ optimality

  // Cross terms of a constant segment: Abel summation against a non-decreasing z.
  lemma {:induction false} AbelStep(y: seq<real>, w: seq<real>, x: seq<real>, z: seq<real>, v: real, lo: nat, k: nat)
    requires lo < k <= |w| && k <= |y| && k <= |x| && k <= |z| && Sorted(z)
    requires forall i :: lo <= i < k ==> x[i] == v
    requires forall j :: lo <= j <= k ==> Dev(y, w, v, lo, j) >= 0.0
    ensures Cross(y, w, x, z, k) - Cross(y, w, x, z, lo) >= Product(Dev(y, w, v, lo, k), v - z[k-1])
  {
    var prev := if lo == k-1 then z[k-1] else z[k-2];
    if lo < k-1 {
      AbelStep(y, w, x, z, v, lo, k-1);
    }
    AbelArith(w[k-1], y[k-1] - v, Dev(y, w, v, lo, k-1), v - prev, v - z[k-1],
      Cross(y, w, x, z, k-1) - Cross(y, w, x, z, lo));
  }

  lemma AbelArith(w: real, e: real, p: real, g0: real, g: real, c: real)
    requires p >= 0.0 && g <= g0 && c >= Product(p, g0)
    ensures c + Product(w, Product(e, g)) >= Product(p + Product(w, e), g)
  {
    MulMono(p, g, g0);
    Distributes(p, Product(w, e), g);
    Associates(w, e, g);
    hide Product;
  }

  lemma Distributes(a: real, b: real, g: real)
    ensures Product(a + b, g) == Product(a, g) + Product(b, g)
  {}

  lemma Associates(a: real, b: real, g: real)
    ensures Product(Product(a, b), g) == Product(a, Product(b, g))
  {}

  lemma {:induction false} CrossNonNegative(y: seq<real>, w: seq<real>, st: seq<Block>, x: seq<real>, z: seq<real>,
                                            n: nat)
    requires n <= |x| && n <= |z| && n <= |w| && n <= |y|
    requires StackOk(y, w, st, n) && Sorted(z)
    requires |Expand(st)| == n && Expand(st) == x[..n]
    ensures Cross(y, w, x, z, n) >= 0.0
    decreases |st|
  {
    if st != [] {
      var b := st[|st|-1];
      var front := st[..|st|-1];
      var lo := n - b.count;
      assert |Expand(front)| == lo;
      assert Expand(front) == Expand(st)[..lo] == x[..lo];
      CrossNonNegative(y, w, front, x, z, lo);
      forall i | lo <= i < n ensures x[i] == b.value {
        assert x[i] == x[..n][i] == Expand(st)[i];
      }
      AbelStep(y, w, x, z, b.value, lo, n);
    }
  }

  lemma {:induction false} ErrExpand(y: seq<real>, w: seq<real>, x: seq<real>, z: seq<real>, n: nat)
    requires n <= |y| && n <= |w| && n <= |x| && n <= |z|
    ensures Err(y, w, z, n) == Err(y, w, x, n) + Err(x, w, z, n) + 2.0 * Cross(y, w, x, z, n)
  {
    if n > 0 {
      ErrExpand(y, w, x, z, n-1);
      Square(y[n-1], x[n-1], z[n-1], w[n-1]);
    }
  }

  lemma Square(y: real, x: real, z: real, w: real)
    ensures Sq(w, y - z) == Sq(w, y - x) + Sq(w, x - z) + 2.0 * Product(w, Product(y - x, x - z))
  {
    var a, b := y - x, x - z;
    SqIs(w, a + b);
    SqIs(w, a);
    SqIs(w, b);
    assert y - z == a + b;
    assert (a + b) * (a + b) == a * a + b * b + 2.0 * (a * b);
  }

  // Any non-decreasing z is worse than the fit by at least its weighted distance from it.
  ghost predicate Optimal(y: seq<real>, w: seq<real>, x: seq<real>) {
    && |x| == |y| == |w|
    && forall z: seq<real> :: |z| == |y| && Sorted(z) ==>
         Err(y, w, z, |y|) >= Err(y, w, x, |y|) + Err(x, w, z, |y|)
  }

  lemma FitOptimal(y: seq<real>, w: seq<real>)
    requires |y| == |w| && NonNegative(w) && SafeWeights(w)
    ensures Optimal(y, w, Fit(y, w))
  {
    var n, st, x := |y|, Blocks(y, w, |y|), Fit(y, w);
    BlocksOk(y, w, n);
    assert x[..n] == x;
    forall z: seq<real> | |z| == n && Sorted(z)
      ensures Err(y, w, z, n) >= Err(y, w, x, n) + Err(x, w, z, n)
    {
      CrossNonNegative(y, w, st, x, z, n);
      ErrExpand(y, w, x, z, n);
    }
  }

  lemma {:induction false} ErrPositive(x: seq<real>, w: seq<real>, z: seq<real>, n: nat)
    requires n <= |x| && n <= |w| && n <= |z| && NonNegative(w)
    ensures Err(x, w, z, n) >= 0.0
    ensures (exists i :: 0 <= i < n && w[i] > 0.0 && x[i] != z[i]) ==> Err(x, w, z, n) > 0.0
  {
    if n > 0 {
      ErrPositive(x, w, z, n-1);
    }
  }

  // With positive weights the minimiser is unique.
  lemma {:induction false} FitUnique(y: seq<real>, w: seq<real>, z: seq<real>)
    requires |y| == |w| == |z| && SafeWeights(w) && Sorted(z)
    requires forall i :: 0 <= i < |w| ==> w[i] > 0.0
    requires Err(y, w, z, |y|) <= Err(y, w, Fit(y, w), |y|)
    ensures z == Fit(y, w)
  {
    FitOptimal(y, w);
    ErrPositive(Fit(y, w), w, z, |y|);
    assert !exists i :: 0 <= i < |y| && w[i] > 0.0 && Fit(y, w)[i] != z[i];
  }

  // ------------------------------------------------- the weighted sum is kept

  function Total(x: seq<real>, w: seq<real>, n: nat): real
    requires n <= |x| && n <= |w|
  {
    if n == 0 then 0.0 else Total(x, w, n-1) + Product(w[n-1], x[n-1])
  }

  lemma {:induction false} TotalSegment(y: seq<real>, w: seq<real>, x: seq<real>, v: real, lo: nat, hi: nat)
    requires lo <= hi <= |y| && hi <= |w| && hi <= |x|
    requires forall i :: lo <= i < hi ==> x[i] == v
    ensures Total(y, w, hi) - Total(y, w, lo) == Total(x, w, hi) - Total(x, w, lo) + Dev(y, w, v, lo, hi)
  {
    if lo < hi {
      TotalSegment(y, w, x, v, lo, hi-1);
      assert Product(w[hi-1], y[hi-1]) == Product(w[hi-1], v) + Product(w[hi-1], y[hi-1] - v);
    }
  }

  lemma {:induction false} TotalStack(y: seq<real>, w: seq<real>, st: seq<Block>, x: seq<real>, n: nat)
    requires n <= |x| && n <= |w| && n <= |y| && StackOk(y, w, st, n)
    requires |Expand(st)| == n && Expand(st) == x[..n]
    ensures Total(x, w, n) == Total(y, w, n)
    decreases |st|
  {
    if st != [] {
      var b := st[|st|-1];
      var front := st[..|st|-1];
      var lo := n - b.count;
      assert |Expand(front)| == lo;
      assert Expand(front) == Expand(st)[..lo] == x[..lo];
      TotalStack(y, w, front, x, lo);
      forall i | lo <= i < n ensures x[i] == b.value {
        assert x[i] == x[..n][i] == Expand(st)[i];
      }
      TotalSegment(y, w, x, b.value, lo, n);
    }
  }

  lemma FitKeepsWeightedSum(y: seq<real>, w: seq<real>)
    requires |y| == |w| && NonNegative(w) && SafeWeights(w)
    ensures |Fit(y, w)| == |y| && Total(Fit(y, w), w, |y|) == Total(y, w, |y|)
  {
    BlocksOk(y, w, |y|);
    assert Fit(y, w)[..|y|] == Fit(y, w);
    TotalStack(y, w, Blocks(y, w, |y|), Fit(y, w), |y|);
  }

  // ------------------------------------- the divisor's floor: exactly when it bites

  // The samples on which the floor shows: 0, ..., 0, 2, 1, 3, ..., 3.
  function Probe(n: nat, i: nat): seq<real>
    requires i + 2 <= n
  {
    Shelf(n, i, 2.0, 1.0)
  }

  function Shelf(n: nat, i: nat, a: real, b: real): (s: seq<real>)
    requires i + 2 <= n
    ensures |s| == n && s[i] == a && s[i+1] == b
    ensures forall j :: 0 <= j < i ==> s[j] == 0.0
    ensures forall j :: i + 2 <= j < n ==> s[j] == 3.0
  {
    Repeat(0.0, i) + [a, b] + Repeat(3.0, n - i - 2)
  }

  lemma ExpandPush(st: seq<Block>, b: Block)
    ensures Expand(st + [b]) == Expand(st) + Repeat(b.value, b.count)
  {
    assert (st + [b])[..|st|] == st;
  }

  lemma {:induction false} ProbeZeros(w: seq<real>, i: nat, k: nat)
    requires k <= i && i + 2 <= |w|
    ensures var st := Blocks(Probe(|w|, i), w, k);
      Expand(st) == Repeat(0.0, k) && (k > 0 ==> st != [] && st[|st|-1].value == 0.0)
  {
    if k > 0 {
      ProbeZeros(w, i, k-1);
      ExpandPush(Blocks(Probe(|w|, i), w, k-1), Block(w[k-1], 0.0, 1));
    }
  }

  lemma ProbePair(w: seq<real>, i: nat)
    requires NonNegative(w) && i + 2 <= |w| && 0.0 < w[i] + w[i+1] < EPSILON
    ensures var st, v := Blocks(Probe(|w|, i), w, i+2), Mean(w[i], 2.0, w[i+1], 1.0);
      && 0.0 <= v < 2.0 && st != [] && st[|st|-1].value == v
      && Expand(st) == Repeat(0.0, i) + [v, v]
  {
    var y := Probe(|w|, i);
    var a, b := Block(w[i], 2.0, 1), Block(w[i+1], 1.0, 1);
    var st := Blocks(y, w, i);
    ProbeZeros(w, i, i);
    assert Blocks(y, w, i+1) == st + [a];
    FloorQuotient(w[i], w[i+1]);
    var m := Merge(a, b);
    var pushed := st + [a] + [b];
    assert pushed[..|pushed|-2] == st;
    assert Pool(pushed) == Pool(st + [m]);
    assert Pool(st + [m]) == st + [m];
    ExpandPush(st, m);
    assert Repeat(m.value, 2) == [m.value, m.value];
  }

  lemma FloorQuotient(p: real, q: real)
    requires p >= 0.0 && q >= 0.0 && 0.0 < p + q < EPSILON
    ensures 0.0 <= Mean(p, 2.0, q, 1.0) < 2.0
    ensures Product(p, 2.0 - Mean(p, 2.0, q, 1.0)) + Product(q, 1.0 - Mean(p, 2.0, q, 1.0)) > 0.0
  {
    var s, v := Product(p, 2.0) + Product(q, 1.0), Mean(p, 2.0, q, 1.0);
    assert s == 2.0 * p + q;
    assert v == s / EPSILON;
    assert v * EPSILON == s;
    var gap := Product(EPSILON - (p + q), v);
    assert gap == s - Product(p + q, v);
    assert v > 0.0;
    SumOfShifts(p, 2.0, q, 1.0, v);
  }

  lemma {:induction false} ProbeTail(w: seq<real>, i: nat, k: nat)
    requires NonNegative(w) && i + 2 <= k <= |w| && 0.0 < w[i] + w[i+1] < EPSILON
    ensures var st, v := Blocks(Probe(|w|, i), w, k), Mean(w[i], 2.0, w[i+1], 1.0);
      && st != [] && st[|st|-1].value <= 3.0
      && Expand(st) == Repeat(0.0, i) + [v, v] + Repeat(3.0, k - i - 2)
    decreases k
  {
    hide Mean;
    ProbePair(w, i);
    if k > i + 2 {
      ProbeTail(w, i, k-1);
      ExpandPush(Blocks(Probe(|w|, i), w, k-1), Block(w[k-1], 3.0, 1));
    }
  }

  lemma {:induction false} CrossSame(y: seq<real>, w: seq<real>, x: seq<real>, z: seq<real>, lo: nat, hi: nat)
    requires lo <= hi <= |y| && hi <= |w| && hi <= |x| && hi <= |z|
    requires forall j :: lo <= j < hi ==> x[j] == y[j]
    ensures Cross(y, w, x, z, hi) == Cross(y, w, x, z, lo)
  {
    if lo < hi { CrossSame(y, w, x, z, lo, hi-1); }
  }

  lemma PairCross(p: real, q: real, v: real)
    requires v < 2.0 && Product(p, 2.0 - v) + Product(q, 1.0 - v) > 0.0
    ensures Product(p, Product(2.0 - v, v - 2.0)) + Product(q, Product(1.0 - v, v - 2.0)) < 0.0
  {
    var s := Product(p, 2.0 - v) + Product(q, 1.0 - v);
    assert Product(s, 2.0 - v) > 0.0;
    assert Product(p, Product(2.0 - v, v - 2.0)) == -Product(Product(p, 2.0 - v), 2.0 - v);
    assert Product(q, Product(1.0 - v, v - 2.0)) == -Product(Product(q, 1.0 - v), 2.0 - v);
  }

  lemma CrossPair(y: seq<real>, w: seq<real>, x: seq<real>, z: seq<real>, i: nat)
    requires i + 2 <= |y| && i + 2 <= |w| && i + 2 <= |x| && i + 2 <= |z|
    ensures Cross(y, w, x, z, i+2) == Cross(y, w, x, z, i)
      + Product(w[i], Product(y[i] - x[i], x[i] - z[i]))
      + Product(w[i+1], Product(y[i+1] - x[i+1], x[i+1] - z[i+1]))
  {
    assert Cross(y, w, x, z, i+1) == Cross(y, w, x, z, i) + Product(w[i], Product(y[i] - x[i], x[i] - z[i]));
  }

  lemma {:induction false} ProbeCross(w: seq<real>, i: nat, v: real)
    requires i + 2 <= |w| && v < 2.0 && Product(w[i], 2.0 - v) + Product(w[i+1], 1.0 - v) > 0.0
    ensures Cross(Probe(|w|, i), w, Shelf(|w|, i, v, v), Shelf(|w|, i, 2.0, 2.0), |w|) < 0.0
  {
    var n := |w|;
    var y, x, z := Probe(n, i), Shelf(n, i, v, v), Shelf(n, i, 2.0, 2.0);
    PairCross(w[i], w[i+1], v);
    CrossPair(y, w, x, z, i);
    CrossSame(y, w, x, z, 0, i);
    CrossSame(y, w, x, z, i+2, n);
  }

  lemma UnsafeProbeFails(w: seq<real>, i: nat)
    requires NonNegative(w) && i + 2 <= |w| && 0.0 < w[i] + w[i+1] < EPSILON
    ensures !Optimal(Probe(|w|, i), w, Fit(Probe(|w|, i), w))
  {
    var n, v := |w|, Mean(w[i], 2.0, w[i+1], 1.0);
    ProbeTail(w, i, n);
    assert Fit(Probe(n, i), w) == Shelf(n, i, v, v);
    FloorQuotient(w[i], w[i+1]);
    ProbeCross(w, i, v);
    var z := Shelf(n, i, 2.0, 2.0);
    ErrExpand(Probe(n, i), w, Shelf(n, i, v, v), z, n);
    assert Sorted(z);
  }

  // For non-negative weights, pooling solves the regression for every target exactly
  // when no neighbouring pair of weights falls strictly between zero and the floor.
  lemma OptimalExactlyWhenSafe(w: seq<real>)
    requires NonNegative(w)
    ensures SafeWeights(w) <==> forall y: seq<real> :: |y| == |w| ==> Optimal(y, w, Fit(y, w))
  {
    if SafeWeights(w) {
      forall y: seq<real> | |y| == |w| ensures Optimal(y, w, Fit(y, w)) {
        FitOptimal(y, w);
      }
    } else {
      var i :| 0 <= i && i+1 < |w| && !(w[i] + w[i+1] == 0.0 || w[i] + w[i+1] >= EPSILON);
      UnsafeProbeFails(w, i);
      assert |Probe(|w|, i)| == |w|;
    }
  }
}
