// The judge's rubric: partial scores of three probes, the rubric recombined from them, and
// its gates (build_retrieval_calibration.py).
module Rubric {
  import opened Reals
  import opened Wrappers
  import opened Rounding

  datatype Dim = Entailment | Actionability | Scope | Polarity | Freshness

  // A dimension as the judge wrote it: a number, an object with or without a score, or
  // something that is not a number.
  datatype Field = Number(x: real) | Scored(score: Option<real>) | Unreadable

  // The hard_veto entry: missing, a flag, an object with a flag, or any other JSON value.
  datatype Veto = Absent | Flag(on: bool) | Detected(detected: bool) | Other(truthy: bool)

  datatype Rubric = Rubric(dims: map<Dim, Field>, veto: Veto)

  function Value(r: Rubric, d: Dim): real {
    if d !in r.dims then 0.0
    else
      match r.dims[d]
      case Number(x) => x
      case Scored(s) => s.GetOr(0.0)
      case Unreadable => 0.0
  }

  function Weight(d: Dim): real {
    match d
    case Entailment => 0.30
    case Actionability => 0.25
    case Scope => 0.20
    case Polarity => 0.15
    case Freshness => 0.10
  }

  function Norm(r: Rubric, d: Dim): (n: real)
    ensures 0.0 <= n <= 1.0
  {
    var top := if d == Entailment || d == Actionability then 3.0 else 2.0;
    Min(1.0, Max(0.0, Value(r, d) / top))
  }

  // A veto counts for the score only as a flag or in an object.
  predicate VetoDetected(r: Rubric) {
    match r.veto
    case Flag(b) => b
    case Detected(b) => b
    case _ => false
  }

  // When the rubrics are recombined, any true value counts.
  predicate VetoTruthy(r: Rubric) {
    match r.veto
    case Absent => false
    case Flag(b) => b
    case Detected(b) => b
    case Other(b) => b
  }

  predicate ZeroPolarity(r: Rubric) { Polarity in r.dims && Value(r, Polarity) == 0.0 }

  function WeightSum(dims: seq<Dim>): real {
    if dims == [] then 0.0 else Weight(dims[0]) + WeightSum(dims[1..])
  }

  function NormSum(r: Rubric, dims: seq<Dim>): real {
    if dims == [] then 0.0 else Weight(dims[0]) * Norm(r, dims[0]) + NormSum(r, dims[1..])
  }

  function FullSum(r: Rubric): real {
    0.30 * Norm(r, Entailment) + 0.25 * Norm(r, Actionability) + 0.20 * Norm(r, Scope)
      + 0.15 * Norm(r, Polarity) + 0.10 * Norm(r, Freshness)
  }

  function Raw(r: Rubric, measured: seq<Dim>): real {
    if measured != [] && WeightSum(measured) > 0.0 then NormSum(r, measured) / WeightSum(measured) else FullSum(r)
  }

  function Latent(r: Rubric, measured: seq<Dim>): real {
    if VetoDetected(r) || ZeroPolarity(r) then 0.0 else Round4(Raw(r, measured))
  }

  predicate Entailed(r: Rubric) {
    || (Value(r, Entailment) >= 2.5 && Value(r, Scope) >= 1.5)
    || (Value(r, Entailment) >= 2.0 && Value(r, Scope) >= 2.0 && Value(r, Actionability) >= 2.5)
  }

  function Label(r: Rubric, measured: seq<Dim>): nat {
    if VetoDetected(r) || ZeroPolarity(r) then 0
    else if measured != [] then
      if Entailment in measured && Value(r, Entailment) < 2.0 then 0
      else if Scope in measured && Value(r, Scope) < 1.5 then 0
      else if Polarity in measured && Value(r, Polarity) < 1.0 then 0
      else if Latent(r, measured) >= 0.75 then 1
      else 0
    else if Latent(r, []) >= 0.75 && Entailed(r) && (Value(r, Polarity) >= 1.0 || Polarity !in r.dims) then 1
    else 0
  }

  // ------------------------------------------------------------ recombining

  const P1 := [Entailment, Actionability]
  const P2 := [Scope]
  const P3 := [Polarity, Freshness]

  predicate Owns(rubrics: seq<Rubric>, probes: seq<seq<Dim>>, i: nat, d: Dim)
    requires i < |rubrics| == |probes|
  {
    d in probes[i] && d in rubrics[i].dims
  }

  function Base(rubrics: seq<Rubric>): Rubric {
    if rubrics == [] then Rubric(map[], Absent) else rubrics[0]
  }

  function Lookup(r: Rubric, d: Dim): Option<Field> {
    if d in r.dims then Some(r.dims[d]) else None
  }

  // The entry for d after n probes: that of the last owner, or the first rubric's own.
  function Entry(rubrics: seq<Rubric>, probes: seq<seq<Dim>>, n: nat, d: Dim): Option<Field>
    requires n <= |rubrics| == |probes|
  {
    if n == 0 then Lookup(Base(rubrics), d)
    else if Owns(rubrics, probes, n-1, d) then Lookup(rubrics[n-1], d)
    else Entry(rubrics, probes, n-1, d)
  }

  ghost predicate SomeVeto(rubrics: seq<Rubric>, n: nat)
    requires n <= |rubrics|
  {
    exists i: nat :: i < n && VetoTruthy(rubrics[i])
  }

  ghost predicate IsComposite(rubrics: seq<Rubric>, probes: seq<seq<Dim>>, n: nat, c: Rubric)
    requires n <= |rubrics| == |probes|
  {
    && (forall d: Dim :: Lookup(c, d) == Entry(rubrics, probes, n, d))
    && c.veto == if SomeVeto(rubrics, n) then Flag(true) else Base(rubrics).veto
  }

  method Compose(rubrics: seq<Rubric>, probes: seq<seq<Dim>>) returns (c: Rubric)
    requires |rubrics| == |probes|
    ensures IsComposite(rubrics, probes, |rubrics|, c)
  {
    hide VetoTruthy;
    c := Base(rubrics);
    for i: nat := 0 to |rubrics|
      invariant IsComposite(rubrics, probes, i, c)
    {
      var dims := Overwrite(c.dims, rubrics[i].dims, probes[i]);
      ghost var was := c;
      c := c.(dims := dims);
      if VetoTruthy(rubrics[i]) { c := c.(veto := Flag(true)); }
      forall d: Dim ensures Lookup(c, d) == Entry(rubrics, probes, i + 1, d) {
        assert Lookup(was, d) == Entry(rubrics, probes, i, d);
        assert Owns(rubrics, probes, i, d) <==> d in probes[i] && d in rubrics[i].dims;
      }
      assert SomeVeto(rubrics, i + 1) <==> SomeVeto(rubrics, i) || VetoTruthy(rubrics[i]);
    }
  }

  method Overwrite(dims: map<Dim, Field>, from: map<Dim, Field>, measured: seq<Dim>) returns (out: map<Dim, Field>)
    ensures forall d: Dim :: d in measured && d in from ==> d in out && out[d] == from[d]
    ensures forall d: Dim :: !(d in measured && d in from) ==>
        (d in out <==> d in dims) && (d in out ==> out[d] == dims[d])
  {
    out := dims;
    for i := 0 to |measured|
      invariant forall d: Dim :: d in measured[..i] && d in from ==> d in out && out[d] == from[d]
      invariant forall d: Dim :: !(d in measured[..i] && d in from) ==>
          (d in out <==> d in dims) && (d in out ==> out[d] == dims[d])
    {
      assert measured[..i+1] == measured[..i] + [measured[i]];
      if measured[i] in from { out := out[measured[i] := from[measured[i]]]; }
    }
    assert measured[..|measured|] == measured;
  }

  function LabelSum(labels: seq<nat>): nat {
    if labels == [] then 0 else labels[0] + LabelSum(labels[1..])
  }

  function Majority(composite: nat, labels: seq<nat>): nat {
    if composite == 1 && LabelSum(labels) as real >= |labels| as real / 2.0 then 1 else 0
  }

  // ------------------------------------------------------------ three probes

  // The rubric recombined from the three probes that the judge is asked for.
  ghost predicate IsTrio(r1: Rubric, r2: Rubric, r3: Rubric, c: Rubric) {
    IsComposite([r1, r2, r3], [P1, P2, P3], 3, c)
  }

  ghost predicate Complete(r1: Rubric, r2: Rubric, r3: Rubric) {
    && Entailment in r1.dims && Actionability in r1.dims
    && Scope in r2.dims
    && Polarity in r3.dims && Freshness in r3.dims
  }

  lemma TrioValues(r1: Rubric, r2: Rubric, r3: Rubric, c: Rubric)
    requires IsTrio(r1, r2, r3, c) && Complete(r1, r2, r3)
    ensures Polarity in c.dims
    ensures Value(c, Entailment) == Value(r1, Entailment) && Value(c, Actionability) == Value(r1, Actionability)
    ensures Value(c, Scope) == Value(r2, Scope)
    ensures Value(c, Polarity) == Value(r3, Polarity) && Value(c, Freshness) == Value(r3, Freshness)
  {
    TrioEntries(r1, r2, r3, c, Entailment);
    TrioEntries(r1, r2, r3, c, Actionability);
    TrioEntries(r1, r2, r3, c, Scope);
    TrioEntries(r1, r2, r3, c, Polarity);
    TrioEntries(r1, r2, r3, c, Freshness);
  }

  lemma TrioEntries(r1: Rubric, r2: Rubric, r3: Rubric, c: Rubric, d: Dim)
    requires IsTrio(r1, r2, r3, c) && Complete(r1, r2, r3)
    ensures Lookup(c, d) == Lookup(if d in P1 then r1 else if d in P2 then r2 else r3, d)
  {
    var rs, ps := [r1, r2, r3], [P1, P2, P3];
    assert Lookup(c, d) == Entry(rs, ps, 3, d);
    assert Owns(rs, ps, 0, d) <==> d in P1 && d in r1.dims;
    assert Owns(rs, ps, 1, d) <==> d in P2 && d in r2.dims;
    assert Owns(rs, ps, 2, d) <==> d in P3 && d in r3.dims;
    assert Entry(rs, ps, 1, d) == if Owns(rs, ps, 0, d) then Lookup(r1, d) else Entry(rs, ps, 0, d);
    assert Entry(rs, ps, 2, d) == if Owns(rs, ps, 1, d) then Lookup(r2, d) else Entry(rs, ps, 1, d);
  }

  lemma TrioVeto(r1: Rubric, r2: Rubric, r3: Rubric, c: Rubric)
    requires IsTrio(r1, r2, r3, c)
    ensures VetoDetected(c) <==> VetoTruthy(r1) || VetoTruthy(r2) || VetoTruthy(r3)
  {
    var rs := [r1, r2, r3];
    assert rs[0] == r1 && rs[1] == r2 && rs[2] == r3;
    if VetoTruthy(r1) || VetoTruthy(r2) || VetoTruthy(r3) {
      var i: nat := if VetoTruthy(r1) then 0 else if VetoTruthy(r2) then 1 else 2;
      assert i < 3 && VetoTruthy(rs[i]);
      assert SomeVeto(rs, 3);
      assert c.veto == Flag(true);
    } else {
      assert c.veto == r1.veto;
    }
  }

  // The composite's gate closes exactly when some probe vetoed or the third probe read a
  // polarity of zero.
  lemma GateExactly(r1: Rubric, r2: Rubric, r3: Rubric, c: Rubric)
    requires IsTrio(r1, r2, r3, c) && Complete(r1, r2, r3)
    ensures VetoDetected(c) || ZeroPolarity(c) <==>
      VetoTruthy(r1) || VetoTruthy(r2) || VetoTruthy(r3) || ZeroPolarity(r3)
  {
    TrioVeto(r1, r2, r3, c);
    TrioValues(r1, r2, r3, c);
  }

  // One hard veto in any probe forces the latent, the label and the vote to zero.
  lemma AnyVetoForcesZero(r1: Rubric, r2: Rubric, r3: Rubric, c: Rubric, labels: seq<nat>)
    requires IsTrio(r1, r2, r3, c) && (VetoTruthy(r1) || VetoTruthy(r2) || VetoTruthy(r3))
    ensures Latent(c, []) == 0.0 && Label(c, []) == 0 && Majority(Label(c, []), labels) == 0
  {
    TrioVeto(r1, r2, r3, c);
  }

  lemma PartialRaw(r: Rubric)
    ensures Raw(r, P1) == (0.30 * Norm(r, Entailment) + 0.25 * Norm(r, Actionability)) / 0.55
    ensures Raw(r, P2) == Norm(r, Scope)
    ensures Raw(r, P3) == (0.15 * Norm(r, Polarity) + 0.10 * Norm(r, Freshness)) / 0.25
  {
    hide Norm;
    assert P1[1..] == [Actionability] && P3[1..] == [Freshness];
    assert WeightSum([Actionability]) == 0.25 && NormSum(r, [Actionability]) == 0.25 * Norm(r, Actionability);
    assert WeightSum([Freshness]) == 0.10 && NormSum(r, [Freshness]) == 0.10 * Norm(r, Freshness);
    assert WeightSum(P1) == 0.55 && WeightSum(P2) == 0.20 && WeightSum(P3) == 0.25;
    assert NormSum(r, P1) == 0.30 * Norm(r, Entailment) + 0.25 * Norm(r, Actionability);
    assert NormSum(r, P2) == 0.20 * Norm(r, Scope);
    assert NormSum(r, P3) == 0.15 * Norm(r, Polarity) + 0.10 * Norm(r, Freshness);
  }

  ghost predicate Open(r: Rubric) { !VetoTruthy(r) && !ZeroPolarity(r) }

  lemma SameNorm(r: Rubric, s: Rubric, d: Dim)
    requires Value(r, d) == Value(s, d)
    ensures Norm(r, d) == Norm(s, d)
  {}

  lemma Round4Error(x: real)
    ensures x - 0.00005 <= Round4(x) <= x + 0.00005
  {
    RoundError(x, 10000.0);
  }

  // The composite latent is the weighted mean of the probes' own partial latents, up to rounding.
  lemma CompositeIsWeightedMean(r1: Rubric, r2: Rubric, r3: Rubric, c: Rubric)
    requires IsTrio(r1, r2, r3, c) && Complete(r1, r2, r3) && Open(r1) && Open(r2) && Open(r3)
    ensures Abs(Latent(c, []) - (0.55 * Latent(r1, P1) + 0.20 * Latent(r2, P2) + 0.25 * Latent(r3, P3))) <= 0.0001
  {
    hide Norm, Value, NormSum, WeightSum, Raw, Round4, IsComposite, Round, HalfEven;
    TrioRaw(r1, r2, r3, c);
    OpenNotGated(r1);
    OpenNotGated(r2);
    OpenNotGated(r3);
    GateExactly(r1, r2, r3, c);
    assert Latent(c, []) == Round4(Raw(c, []));
    Round4Error(Raw(c, []));
    Round4Error(Raw(r1, P1));
    Round4Error(Raw(r2, P2));
    Round4Error(Raw(r3, P3));
  }

  lemma OpenNotGated(r: Rubric)
    requires Open(r)
    ensures !VetoDetected(r) && !ZeroPolarity(r)
  {}

  lemma TrioRaw(r1: Rubric, r2: Rubric, r3: Rubric, c: Rubric)
    requires IsTrio(r1, r2, r3, c) && Complete(r1, r2, r3)
    ensures Raw(c, []) == 0.55 * Raw(r1, P1) + 0.20 * Raw(r2, P2) + 0.25 * Raw(r3, P3)
  {
    hide Norm, Value, NormSum, WeightSum, IsComposite;
    TrioValues(r1, r2, r3, c);
    PartialRaw(r1);
    PartialRaw(r2);
    PartialRaw(r3);
    SameNorm(c, r1, Entailment);
    SameNorm(c, r1, Actionability);
    SameNorm(c, r2, Scope);
    SameNorm(c, r3, Polarity);
    SameNorm(c, r3, Freshness);
  }

  // A polarity inversion that only the first probe reports zeroes its own latent but not the
  // composite, which takes its polarity from the third.
  lemma EarlyInversionSlips() returns (r1: Rubric, r2: Rubric, r3: Rubric)
    ensures Complete(r1, r2, r3) && ZeroPolarity(r1) && Latent(r1, P1) == 0.0
    ensures forall c :: IsTrio(r1, r2, r3, c) ==>
      Latent(c, []) == 1.0 && Majority(Label(c, []), [Label(r1, P1), Label(r2, P2), Label(r3, P3)]) == 1
  {
    var best := map[Entailment := Number(3.0), Actionability := Number(3.0), Scope := Number(2.0),
                    Polarity := Number(2.0), Freshness := Number(2.0)];
    r2, r3 := Rubric(best, Absent), Rubric(best, Absent);
    r1 := Rubric(best[Polarity := Number(0.0)], Absent);
    RoundGrid(10000, 10000.0);
    PartialRaw(r2);
    PartialRaw(r3);
    assert Label(r2, P2) == 1 && Label(r3, P3) == 1 && Label(r1, P1) == 0;
    var labels := [Label(r1, P1), Label(r2, P2), Label(r3, P3)];
    assert labels[1..][1..] == [Label(r3, P3)] && LabelSum([Label(r3, P3)]) == 1;
    assert LabelSum(labels) == 2;
    forall c | IsTrio(r1, r2, r3, c) ensures Latent(c, []) == 1.0 && Majority(Label(c, []), labels) == 1 {
      TrioValues(r1, r2, r3, c);
      GateExactly(r1, r2, r3, c);
      assert Raw(c, []) == 1.0;
    }
  }

  // With open gates, the vote accepts exactly the accepted composites whose first or third
  // probe agrees: the second always does.
  lemma MajorityExactly(r1: Rubric, r2: Rubric, r3: Rubric, c: Rubric)
    requires IsTrio(r1, r2, r3, c) && Complete(r1, r2, r3) && Open(r1) && Open(r2) && Open(r3)
    ensures var l1, l2, l3 := Label(r1, P1), Label(r2, P2), Label(r3, P3);
      Majority(Label(c, []), [l1, l2, l3]) == 1 <==> Label(c, []) == 1 && (l1 == 1 || l3 == 1)
  {
    var l1, l2, l3 := Label(r1, P1), Label(r2, P2), Label(r3, P3);
    LabelSumThree(l1, l2, l3);
    TrioValues(r1, r2, r3, c);
    if Label(c, []) == 1 {
      ScopeProbeAgrees(r2, c);
    }
  }

  lemma LabelSumThree(a: nat, b: nat, c: nat)
    ensures LabelSum([a, b, c]) == a + b + c
  {
    assert [c][1..] == [] && LabelSum([c]) == c;
    assert [b, c][1..] == [c] && LabelSum([b, c]) == b + c;
    assert [a, b, c][1..] == [b, c];
  }

  lemma ScopeProbeAgrees(r2: Rubric, c: Rubric)
    requires Open(r2) && Value(c, Scope) == Value(r2, Scope) && Label(c, []) == 1
    ensures Label(r2, P2) == 1
  {
    hide Round;
    PartialRaw(r2);
    assert Value(r2, Scope) >= 1.5;
    assert Norm(r2, Scope) >= 0.75;
    RoundMonotone(0.75, Norm(r2, Scope), 10000.0);
    RoundGrid(7500, 10000.0);
    OpenNotGated(r2);
  }

  // -------------------------------------------------------------- monotonicity

  // The same entries, none of them lower, and the same veto.
  ghost predicate NoWorse(r: Rubric, s: Rubric) {
    r.dims.Keys == s.dims.Keys && r.veto == s.veto && forall d: Dim :: Value(r, d) <= Value(s, d)
  }

  lemma NormMonotone(r: Rubric, s: Rubric, d: Dim)
    requires Value(r, d) <= Value(s, d)
    ensures Norm(r, d) <= Norm(s, d)
  {
    hide Value;
  }

  lemma FullMonotone(r: Rubric, s: Rubric)
    requires NoWorse(r, s)
    ensures Round4(FullSum(r)) <= Round4(FullSum(s))
  {
    hide Norm, Value;
    NormMonotone(r, s, Entailment);
    NormMonotone(r, s, Actionability);
    NormMonotone(r, s, Scope);
    NormMonotone(r, s, Polarity);
    NormMonotone(r, s, Freshness);
    RoundMonotone(FullSum(r), FullSum(s), 10000.0);
  }

  lemma FullUnit(r: Rubric)
    ensures 0.0 <= Latent(r, []) <= 1.0
  {
    hide Norm, Round;
    RoundUnit(FullSum(r), 10000.0, 10000);
  }

  lemma RoundsToPositive(x: real)
    requires x >= 0.0
    ensures Round4(x) > 0.0 <==> x > 0.00005
  {
    var s := x * 10000.0;
    FloorBounds(s);
    if s <= 0.5 {
      assert HalfEven(s) == 0;
    } else {
      assert HalfEven(s) >= 1;
    }
  }

  lemma FullNonNegative(r: Rubric)
    ensures FullSum(r) >= 0.0
  {
    hide Norm;
  }

  // Raising any dimension never lowers the full latent, except when it lifts the negative
  // polarity of a rubric without a veto, whose weighted sum does not round to zero, onto the
  // zero that vetoes.
  lemma LatentMonotoneExactly(r: Rubric, s: Rubric)
    requires NoWorse(r, s)
    ensures Latent(r, []) <= Latent(s, []) <==>
      !(Value(r, Polarity) < 0.0 && ZeroPolarity(s) && !VetoDetected(r) && FullSum(r) > 0.00005)
  {
    hide Round4, FullSum, Value;
    FullMonotone(r, s);
    FullUnit(r);
    FullUnit(s);
    FullNonNegative(r);
    RoundsToPositive(FullSum(r));
    assert Value(r, Polarity) <= Value(s, Polarity);
    assert Polarity in r.dims <==> Polarity in s.dims;
    if VetoDetected(r) {
      assert Latent(r, []) == 0.0;
    } else if ZeroPolarity(s) {
      assert Latent(s, []) == 0.0;
    }
  }

  lemma NegativePolarityLifted() returns (r: Rubric, s: Rubric)
    ensures NoWorse(r, s) && Latent(r, []) > Latent(s, [])
  {
    r := Rubric(map[Entailment := Number(3.0), Polarity := Number(-1.0)], Absent);
    s := Rubric(map[Entailment := Number(3.0), Polarity := Number(0.0)], Absent);
    RoundGrid(3000, 10000.0);
    assert FullSum(r) == 0.30;
  }

  // The accepting label survives every improvement.
  lemma LabelMonotone(r: Rubric, s: Rubric)
    requires NoWorse(r, s)
    ensures Label(r, []) <= Label(s, [])
  {
    hide Round4, FullSum, Value;
    if Label(r, []) == 1 {
      FullMonotone(r, s);
      assert Value(r, Polarity) <= Value(s, Polarity) && Value(r, Scope) <= Value(s, Scope);
      assert Value(r, Entailment) <= Value(s, Entailment) && Value(r, Actionability) <= Value(s, Actionability);
      assert Polarity in r.dims <==> Polarity in s.dims;
    }
  }

  // --------------------------------------------------- the scales and the label

  function Top(d: Dim): real { if d in {Entailment, Actionability} then 3.0 else 2.0 }

  // Entailment and actionability are read on a scale of three, the others of two: from zero
  // at the bottom, in proportion, to one at the top.
  lemma NormOnScale(r: Rubric, d: Dim)
    ensures Norm(r, d) == 1.0 <==> Value(r, d) >= Top(d)
    ensures Norm(r, d) == 0.0 <==> Value(r, d) <= 0.0
    ensures 0.0 <= Value(r, d) <= Top(d) ==> Top(d) * Norm(r, d) == Value(r, d)
  {
    hide Value;
  }

  lemma RoundsToThreeQuarters(x: real)
    ensures Round4(x) >= 0.75 <==> x >= 0.74995
  {
    var s := x * 10000.0;
    FloorBounds(s);
    if x >= 0.74995 {
      HalfEvenMonotone(7499.5, s);
      assert HalfEven(7499.5) == 7500;
    } else {
      assert s < 7499.5;
      assert HalfEven(s) <= 7499;
    }
  }

  // The full rubric accepts exactly when nothing vetoes, polarity is one or more where it is
  // given, the weighted sum reaches 0.74995, and the candidate entails the answer: at 2.5 on a
  // related entity, or at 2.0 on the exact one with an operational answer.
  lemma AcceptsExactlyWhen(r: Rubric)
    ensures Label(r, []) == 1 <==>
      && !VetoDetected(r) && (Polarity in r.dims ==> Value(r, Polarity) >= 1.0)
      && 0.30 * Norm(r, Entailment) + 0.25 * Norm(r, Actionability) + 0.20 * Norm(r, Scope)
           + 0.15 * Norm(r, Polarity) + 0.10 * Norm(r, Freshness) >= 0.74995
      && (|| (Value(r, Entailment) >= 2.5 && Value(r, Scope) >= 1.5)
          || (Value(r, Entailment) >= 2.0 && Value(r, Scope) >= 2.0 && Value(r, Actionability) >= 2.5))
  {
    hide Norm, Value, Round4;
    RoundsToThreeQuarters(FullSum(r));
  }

  // A candidate that is only partly related, on a related entity, is never accepted.
  lemma HardNegativeIsRejected(r: Rubric)
    requires Value(r, Entailment) <= 2.0 && Value(r, Scope) <= 1.0
    ensures Label(r, []) == 0
  {}

  // Each probe accepts on its own dimensions: the first from entailment 2.0, the second from
  // scope 1.5, the third from polarity 1.0, always with a weighted mean of 0.74995 or more.
  lemma ProbesAcceptExactlyWhen(r: Rubric)
    requires !VetoDetected(r) && !ZeroPolarity(r)
    ensures Label(r, P1) == 1 <==>
      Value(r, Entailment) >= 2.0 && (0.30 * Norm(r, Entailment) + 0.25 * Norm(r, Actionability)) / 0.55 >= 0.74995
    ensures Label(r, P2) == 1 <==> Value(r, Scope) >= 1.5
    ensures Label(r, P3) == 1 <==>
      Value(r, Polarity) >= 1.0 && (0.15 * Norm(r, Polarity) + 0.10 * Norm(r, Freshness)) / 0.25 >= 0.74995
  {
    NormOnScale(r, Scope);
    if Value(r, Scope) >= 1.5 { ScopeNorm(r); }
    hide Norm, Value, Round4, NormSum, WeightSum;
    PartialRaw(r);
    RoundsToThreeQuarters(Raw(r, P1));
    RoundsToThreeQuarters(Raw(r, P2));
    RoundsToThreeQuarters(Raw(r, P3));
  }

  lemma ScopeNorm(r: Rubric)
    requires Value(r, Scope) >= 1.5
    ensures Norm(r, Scope) >= 0.75
  {
    hide Value;
  }
}
