// What an annealing run does, move by move and sweep by sweep: when a proposal is taken,
// what the gradient is a gradient of, and where a run stops (annealer.py, energy_module.py).
module AnnealingSteps {
  import opened Annealer
  import opened Reals
  import opened Rounding
  import opened Wrappers

  // -------------------------------------------------------------- the energy

  lemma ClampIsNearest(x: real, u: Unit)
    ensures Abs(Clamp(x) - x) <= Abs(u - x)
  {}

  // How far weight w moves the cost of an edge from its base cost.
  function Shift(bc: Unit, w: Unit): real { 0.4 * Product(bc, w - 0.5) }

  lemma ShiftBounds(bc: Unit, w: Unit)
    ensures -0.2 * bc <= Shift(bc, w) <= 0.2 * bc
    ensures Shift(bc, 0.5) == 0.0
    ensures bc * (0.8 + 0.4 * w) == bc + Shift(bc, w)
    ensures bc * (1.2 - 0.4 * w) == bc - Shift(bc, w)
  {
    MulMono(bc, -0.5, w - 0.5);
    MulMono(bc, w - 0.5, 0.5);
  }

  // The cost of an edge is its base cost at weight one half, and moves with the weight by
  // four tenths of it: up for costly edges, down for cheap ones, unless it is capped at one.
  lemma CostIsAffine(bc: Unit, w: Unit)
    ensures EdgeCost(bc, 0.5).0 == bc
    ensures bc <= 0.4 ==> EdgeCost(bc, w) == (bc - Shift(bc, w), -0.4 * bc)
    ensures bc > 0.4 && bc + Shift(bc, w) < 1.0 ==> EdgeCost(bc, w) == (bc + Shift(bc, w), 0.4 * bc)
    ensures bc > 0.4 && bc + Shift(bc, w) >= 1.0 ==> EdgeCost(bc, w) == (1.0, 0.0)
  {
    ShiftBounds(bc, w);
    ShiftBounds(bc, 0.5);
    CostFromRaw(bc, w, bc + Shift(bc, w), bc - Shift(bc, w));
    CostFromRaw(bc, 0.5, bc, bc);
    hide Shift, EdgeCost;
  }

  lemma CostFromRaw(bc: Unit, w: Unit, up: real, down: real)
    requires bc * (0.8 + 0.4 * w) == up && bc * (1.2 - 0.4 * w) == down
    requires up >= 0.0 && 0.8 * bc <= down <= 1.2 * bc
    ensures bc <= 0.4 ==> EdgeCost(bc, w) == (down, -0.4 * bc)
    ensures bc > 0.4 ==> EdgeCost(bc, w) == (Min(1.0, up), if up < 1.0 then 0.4 * bc else 0.0)
  {}

  function EnergyAt(e: Edge, w: real, critic: real, reg: real): real {
    EnergyAndGradient(e.cost, w, critic, reg).energy
  }

  function GradientAt(e: Edge, w: real, critic: real, reg: real): real {
    EnergyAndGradient(e.cost, w, critic, reg).grad
  }

  // A kept edge pays its cost, a dropped one what it would save where the target is not
  // critical; the regulariser is least at one half.
  lemma EnergyAtEnds(e: Edge, critic: Unit, reg: real)
    ensures EnergyAt(e, 1.0, critic, reg) == EdgeCost(e.cost, 1.0).0 + reg / 4.0
    ensures EnergyAt(e, 0.0, critic, reg) == Product(1.0 - EdgeCost(e.cost, 0.0).0, 1.0 - critic) + reg / 4.0
    ensures EnergyAt(e, 0.5, critic, reg) == e.cost / 2.0 + Product(1.0 - e.cost, 1.0 - critic) / 2.0
  {
    hide EdgeCost;
    CostIsAffine(e.cost, 0.5);
  }

  lemma ProductGrows(a: real, h: real, b: real, l: real)
    ensures (a + h) * (b + l) - a * b == h * b + a * l + h * l
  {}

  lemma SquareGrows(a: real, h: real)
    ensures (a + h) * (a + h) - a * a == 2.0 * (h * a) + h * h
  {}

  // The two parts of the energy, and what a step of h adds to each in first and second order
  // when the cost moves by dc per unit.
  function Align(w: real, c: real, k: real): real { w * c + (1.0 - w) * (1.0 - c) * k }

  function AlignFirst(w: real, h: real, c: real, dc: real, k: real): real {
    h * c + w * (h * dc) - ((1.0 - w) * (h * dc) + h * (1.0 - c)) * k
  }

  function AlignSecond(h: real, dc: real, k: real): real { h * (h * dc) + h * (h * dc) * k }

  function Pull(w: real, reg: real): real { reg * ((w - 0.5) * (w - 0.5)) }

  function PullFirst(w: real, h: real, reg: real): real { reg * (2.0 * (h * (w - 0.5))) }

  function PullSecond(h: real, reg: real): real { reg * (h * h) }

  lemma AlignGrows(w: real, h: real, c: real, dc: real, k: real)
    ensures Align(w + h, c + h * dc, k) - Align(w, c, k) == AlignFirst(w, h, c, dc, k) + AlignSecond(h, dc, k)
  {
    var l := h * dc;
    ProductGrows(w, h, c, l);
    ProductGrows(1.0 - w, -h, 1.0 - c, -l);
    var u, v := (1.0 - w) * (1.0 - c), (1.0 - (w + h)) * (1.0 - (c + l));
    var first := (1.0 - w) * l + h * (1.0 - c);
    assert v - u == h * l - first;
    assert v * k - u * k == (v - u) * k;
    assert (h * l - first) * k == h * l * k - first * k;
  }

  lemma PullGrows(w: real, h: real, reg: real)
    ensures Pull(w + h, reg) - Pull(w, reg) == PullFirst(w, h, reg) + PullSecond(h, reg)
  {
    SquareGrows(w - 0.5, h);
    var x, y := (w - 0.5) * (w - 0.5), (w + h - 0.5) * (w + h - 0.5);
    assert y - x == 2.0 * (h * (w - 0.5)) + h * h;
    assert reg * y - reg * x == reg * (y - x);
  }

  lemma GradientTimes(w: real, h: real, c: real, dc: real, k: real, reg: real)
    ensures Product(h, Combine(w, c, dc, k, reg).grad) == AlignFirst(w, h, c, dc, k) + PullFirst(w, h, reg)
  {
    var a, b, r := c - (1.0 - c) * k, dc * (w - (1.0 - w) * k), 2.0 * reg * (w - 0.5);
    assert h * (a + r + b) == h * a + h * r + h * b;
    assert h * a == h * c - h * (1.0 - c) * k;
    assert h * r == reg * (2.0 * (h * (w - 0.5)));
    assert h * b == w * (h * dc) - (1.0 - w) * (h * dc) * k;
    var f, g := (1.0 - w) * (h * dc), h * (1.0 - c);
    assert (f + g) * k == f * k + g * k;
  }

  // Half the second derivative, times the square of the step.
  function Curvature(h: real, dc: real, k: real, reg: real): real { h * h * (dc * (1.0 + k) + reg) }

  lemma SecondOrder(h: real, dc: real, k: real, reg: real)
    ensures Curvature(h, dc, k, reg) == AlignSecond(h, dc, k) + PullSecond(h, reg)
  {}

  lemma EnergyParts(w: real, c: real, dc: real, k: real, reg: real)
    ensures Combine(w, c, dc, k, reg).energy == Align(w, c, k) + Pull(w, reg)
  {}

  lemma CombineDifference(w: real, h: real, c: real, dc: real, k: real, reg: real)
    ensures Combine(w + h, c + h * dc, dc, k, reg).energy - Combine(w, c, dc, k, reg).energy
         == Product(h, Combine(w, c, dc, k, reg).grad) + Curvature(h, dc, k, reg)
  {
    hide Combine, Align, AlignFirst, AlignSecond, Pull, PullFirst, PullSecond, Curvature, Product;
    EnergyParts(w, c, dc, k, reg);
    EnergyParts(w + h, c + h * dc, dc, k, reg);
    AlignGrows(w, h, c, dc, k);
    PullGrows(w, h, reg);
    GradientTimes(w, h, c, dc, k, reg);
    SecondOrder(h, dc, k, reg);
  }

  // The gradient is the derivative of the energy: while the cost moves along one line, what
  // a step of h adds is h times the gradient, up to a term in the square of h.
  lemma GradientIsDerivative(e: Edge, w: Unit, v: Unit, critic: Unit, reg: real)
    requires EdgeCost(e.cost, v).0 == EdgeCost(e.cost, w).0 + (v - w) * EdgeCost(e.cost, w).1
    ensures EnergyAt(e, v, critic, reg) - EnergyAt(e, w, critic, reg)
         == Product(v - w, GradientAt(e, w, critic, reg)) + Curvature(v - w, EdgeCost(e.cost, w).1, 1.0 - critic, reg)
  {
    hide EdgeCost, Combine, Curvature, Product;
    EnergyIs(e, w, critic, reg);
    EnergyIs(e, v, critic, reg);
    CombineStep(w, v, EdgeCost(e.cost, w), EdgeCost(e.cost, v), 1.0 - critic, reg);
  }

  lemma CombineStep(w: real, v: real, at: (real, real), to: (real, real), k: real, reg: real)
    requires to.0 == at.0 + (v - w) * at.1
    ensures Combine(v, to.0, to.1, k, reg).energy - Combine(w, at.0, at.1, k, reg).energy
         == Product(v - w, Combine(w, at.0, at.1, k, reg).grad) + Curvature(v - w, at.1, k, reg)
  {
    hide Combine, Curvature, Product;
    var h, dc := v - w, at.1;
    CombineDifference(w, h, at.0, dc, k, reg);
    assert w + h == v && at.0 + h * dc == to.0;
    assert Combine(w + h, at.0 + h * dc, dc, k, reg) == Combine(v, to.0, dc, k, reg);
    CombineEnergy(v, to.0, dc, to.1, k, reg);
  }

  lemma EnergyIs(e: Edge, w: Unit, critic: Unit, reg: real)
    ensures EnergyAndGradient(e.cost, w, critic, reg)
         == Combine(w, EdgeCost(e.cost, w).0, EdgeCost(e.cost, w).1, 1.0 - critic, reg)
  {
    hide EdgeCost, Combine;
  }

  lemma CombineEnergy(w: real, c: real, dc: real, other: real, k: real, reg: real)
    ensures Combine(w, c, dc, k, reg).energy == Combine(w, c, other, k, reg).energy
  {}

  // And it does move along one line between weights on the same side of the cap.
  lemma SameSide(bc: Unit, w: Unit, v: Unit)
    requires bc > 0.4 ==> (bc + Shift(bc, w) < 1.0 <==> bc + Shift(bc, v) < 1.0)
    ensures EdgeCost(bc, v).0 == EdgeCost(bc, w).0 + (v - w) * EdgeCost(bc, w).1
  {
    hide EdgeCost, Shift;
    CostIsAffine(bc, w);
    CostIsAffine(bc, v);
    ShiftsBy(bc, w, v);
    if bc <= 0.4 {
      assert (v - w) * EdgeCost(bc, w).1 == (v - w) * (-0.4 * bc);
    } else if bc + Shift(bc, w) < 1.0 {
      assert (v - w) * EdgeCost(bc, w).1 == (v - w) * (0.4 * bc);
    } else {
      assert (v - w) * EdgeCost(bc, w).1 == 0.0;
    }
  }

  lemma ShiftsBy(bc: Unit, w: Unit, v: Unit)
    ensures Shift(bc, v) == Shift(bc, w) + (v - w) * (0.4 * bc)
    ensures (v - w) * (-0.4 * bc) == -((v - w) * (0.4 * bc))
  {}

  // ------------------------------------------------------------- the critic

  // The share is the critical fraction of the confidence that leaves a node, halved for a
  // node with a single edge.
  lemma ShareIsFraction(degree: nat, total: real, critical: real)
    requires degree > 0 && 0.0 <= critical <= total
    ensures total >= 0.00001 ==>
      Product(total, CriticalShare(degree, total, critical)) == if degree == 1 then critical / 2.0 else critical
    ensures 0.0 < total < 0.00001 ==>
      CriticalShare(degree, total, critical) == if degree == 1 then 50000.0 * critical else 100000.0 * critical
    ensures total == 0.0 ==> CriticalShare(degree, total, critical) == 0.0
  {
    var t := Max(0.00001, total);
    if total > 0.0 {
      assert Product(t, 0.0) == 0.0 && Product(t, 1.0) == t;
      QuotientBounds(critical, t, 0.0, 1.0);
      assert Min(1.0, degree as real / 2.0) == if degree == 1 then 0.5 else 1.0;
      assert Product(t, 0.5 * (critical / t)) == 0.5 * Product(t, critical / t);
    }
  }

  // ------------------------------------------------------------ one visit

  // The weight that a visit proposes: one Langevin step against the gradient.
  function Proposed(e: Edge, w: Unit, critic: real, reg: real, temp: real, d: Draws, rng: nat): Unit {
    Clamp(w - Product(temp, GradientAt(e, w, critic, reg))
            + Product(d.sqrt(2.0 * temp / e.precision), d.gauss(rng).0))
  }

  // How likely a rise in energy is accepted.
  function Chance(rise: real, temp: real, exp: real -> real): real
    requires temp > 0.0
  {
    if rise / temp > 700.0 then 0.0 else exp(-(rise / temp))
  }

  lemma NegatedQuotient(a: real, t: real)
    requires a > 0.0 && t > 0.0
    ensures -a / t == -(a / t) && a / t > 0.0
  {
    assert Product(t, a / t) == a;
    assert Product(t, -a / t) == -a;
    assert Product(t, -a / t + a / t) == 0.0;
  }

  // What the visit to edge i of a sweep changes: that edge's weight, the energy total and the
  // generator. A move that does not raise the energy is always taken and draws nothing more;
  // below 1e-8 no visit raises the energy; otherwise a rise is taken exactly when the next
  // uniform draw is below its chance.
  lemma VisitTakes(g: seq<Edge>, known: nat, p: Params, temp: real, d: Draws, ws: seq<Unit>, rng: nat, i: nat)
    requires i < |g| == |ws|
    ensures var s, t := SweepTo(g, known, p, temp, d, ws, rng, i), SweepTo(g, known, p, temp, d, ws, rng, i + 1);
      var e, w, critic := g[i], s.ws[i], Critic(g, s.ws, g[i].target, known);
      var v, next := Proposed(e, w, critic, p.reg, temp, d, s.rng), d.gauss(s.rng).1;
      var rise := EnergyAt(e, v, critic, p.reg) - EnergyAt(e, w, critic, p.reg);
      && t.ws == s.ws[i := t.ws[i]]
      && t.total == s.total + EnergyAt(e, t.ws[i], critic, p.reg)
      && (rise <= 0.0 ==> t.ws[i] == v && t.rng == next)
      && (temp < 0.00000001 ==> EnergyAt(e, t.ws[i], critic, p.reg) <= EnergyAt(e, w, critic, p.reg) && t.rng == next)
      && (rise > 0.0 && temp >= 0.00000001 ==>
            && t.ws[i] == (if d.uniform(next).0 < Chance(rise, temp, d.exp) then v else w)
            && t.rng == d.uniform(next).1)
  {
    hide Critic, EnergyAndGradient;
    var s := SweepTo(g, known, p, temp, d, ws, rng, i);
    var e, w, critic := g[i], s.ws[i], Critic(g, s.ws, g[i].target, known);
    assert SweepTo(g, known, p, temp, d, ws, rng, i + 1) == EdgeStep(e, i, critic, p.reg, temp, d, s);
    hide SweepTo;
    DecideTakes(e, w, critic, p.reg, temp, d, s.rng);
  }

  lemma AcceptTakes(rise: real, temp: real, d: Draws, rng: nat)
    ensures rise <= 0.0 ==> Accept(rise, temp, d, rng) == (true, rng)
    ensures rise > 0.0 && temp < 0.00000001 ==> Accept(rise, temp, d, rng) == (false, rng)
    ensures rise > 0.0 && temp >= 0.00000001 ==>
      Accept(rise, temp, d, rng) == (d.uniform(rng).0 < Chance(rise, temp, d.exp), d.uniform(rng).1)
  {
    if rise > 0.0 && temp >= 0.00000001 { NegatedQuotient(rise, temp); }
  }

  lemma ProposalIs(w: real, temp: real, grad: real, sigma: real, epsilon: real)
    ensures Proposal(w, temp, grad, sigma, epsilon) == Clamp(w - Product(temp, grad) + Product(sigma, epsilon))
  {
    hide Clamp;
  }

  lemma ProposedByStep(e: Edge, w: Unit, critic: real, reg: real, temp: real, d: Draws, rng: nat)
    ensures Proposed(e, w, critic, reg, temp, d, rng)
         == Proposal(w, temp, GradientAt(e, w, critic, reg), Sigma(temp, e.precision, d), d.gauss(rng).0)
  {
    hide Clamp, Proposal, GradientAt, Product;
    ProposalIs(w, temp, GradientAt(e, w, critic, reg), Sigma(temp, e.precision, d), d.gauss(rng).0);
  }

  lemma DecideTakes(e: Edge, w: Unit, critic: real, reg: real, temp: real, d: Draws, rng: nat)
    ensures var c, next := Decide(e, w, critic, reg, temp, d, rng), d.gauss(rng).1;
      var v := Proposed(e, w, critic, reg, temp, d, rng);
      var rise := EnergyAt(e, v, critic, reg) - EnergyAt(e, w, critic, reg);
      && c.energy == EnergyAt(e, c.weight, critic, reg)
      && (rise <= 0.0 ==> c.weight == v && c.rng == next)
      && (rise > 0.0 && temp < 0.00000001 ==> c.weight == w && c.rng == next)
      && (rise > 0.0 && temp >= 0.00000001 ==>
            && c.weight == (if d.uniform(next).0 < Chance(rise, temp, d.exp) then v else w)
            && c.rng == d.uniform(next).1)
  {
    hide EnergyAndGradient, Proposed, Proposal, Accept, Chance;
    var v := Proposed(e, w, critic, reg, temp, d, rng);
    ProposedByStep(e, w, critic, reg, temp, d, rng);
    var rise := EnergyAt(e, v, critic, reg) - EnergyAt(e, w, critic, reg);
    AcceptTakes(rise, temp, d, d.gauss(rng).1);
  }

  // -------------------------------------------------------------- whole runs

  function Start(p: Params): real { Max(p.tMin, p.tInit) }

  // The temperature of the sweep after j others.
  function TempAt(p: Params, j: nat): real {
    if j == 0 then Start(p) else TempAt(p, j - 1) * p.decay
  }

  // Weights and generator after j sweeps, with the energy of the last of them.
  ghost function AfterSweeps(g: seq<Edge>, known: nat, p: Params, d: Draws, rng: nat, j: nat): (s: Sweep)
    ensures |s.ws| == |g|
  {
    if j == 0 then Sweep(Confidences(g), rng, 0.0)
    else
      var s := AfterSweeps(g, known, p, d, rng, j - 1);
      SweepTo(g, known, p, TempAt(p, j - 1), d, s.ws, s.rng, |g|)
  }

  ghost function Energies(g: seq<Edge>, known: nat, p: Params, d: Draws, rng: nat, j: nat): (es: seq<real>)
    ensures |es| == j
  {
    seq(j, i requires 0 <= i < j => AfterSweeps(g, known, p, d, rng, i + 1).total)
  }

  // Two energies in a row differ by less than 1e-6.
  ghost predicate Settles(g: seq<Edge>, known: nat, p: Params, d: Draws, rng: nat, j: nat) {
    && j >= 2
    && Abs(AfterSweeps(g, known, p, d, rng, j).total - AfterSweeps(g, known, p, d, rng, j - 1).total) < 0.000001
  }

  // A run ends after sweep j: it has settled, is at its lowest temperature, or out of sweeps.
  ghost predicate Ends(g: seq<Edge>, known: nat, p: Params, d: Draws, rng: nat, j: nat)
    requires j > 0
  {
    Settles(g, known, p, d, rng, j) || TempAt(p, j - 1) <= p.tMin || j >= p.maxIter
  }

  ghost predicate IsOutcome(g: seq<Edge>, known: nat, p: Params, d: Draws, rng: nat, r: Result) {
    var n := r.iterations;
    && r.weights == AfterSweeps(g, known, p, d, rng, n).ws
    && r.trace == Energies(g, known, p, d, rng, n)
    && (r.converged <==> Settles(g, known, p, d, rng, n))
    && (n == 0 <==> p.maxIter == 0)
    && (n > 0 ==> Ends(g, known, p, d, rng, n))
    && r.temperature == Round6(
         if n == 0 then Start(p)
         else if r.converged then TempAt(p, n - 1)
         else if TempAt(p, n - 1) <= p.tMin then p.tMin
         else TempAt(p, n))
  }

  // The rest of the run after j sweeps that did not end it.
  ghost function RunFrom(g: seq<Edge>, known: nat, p: Params, d: Draws, rng: nat, j: nat): Result {
    var s := AfterSweeps(g, known, p, d, rng, j);
    Iterate(g, known, p, d, s.ws, s.rng, TempAt(p, j), if j == 0 then None else Some(s.total),
            Energies(g, known, p, d, rng, j))
  }

  lemma NextSweep(g: seq<Edge>, known: nat, p: Params, d: Draws, rng: nat, j: nat)
    requires j < p.maxIter
    ensures var t, es := AfterSweeps(g, known, p, d, rng, j + 1), Energies(g, known, p, d, rng, j + 1);
      RunFrom(g, known, p, d, rng, j) ==
      if Settles(g, known, p, d, rng, j + 1) then Result(t.ws, es, j + 1, true, Round6(TempAt(p, j)))
      else if TempAt(p, j) <= p.tMin then Result(t.ws, es, j + 1, false, Round6(p.tMin))
      else RunFrom(g, known, p, d, rng, j + 1)
  {
    hide SweepTo, Round6, Iterate;
    var s, es := AfterSweeps(g, known, p, d, rng, j), Energies(g, known, p, d, rng, j);
    var t := AfterSweeps(g, known, p, d, rng, j + 1);
    assert Energies(g, known, p, d, rng, j + 1) == es + [t.total];
    var prev: Option<real> := if j == 0 then None else Some(s.total);
    IterateStep(g, known, p, d, s.ws, s.rng, TempAt(p, j), prev, es, t);
    assert TempAt(p, j + 1) == Cool(TempAt(p, j), p.decay);
    assert RunFrom(g, known, p, d, rng, j) == AfterSweep(g, known, p, d, t, TempAt(p, j), prev, es);
    assert Settles(g, known, p, d, rng, j + 1) <==> prev.Some? && Abs(t.total - prev.value) < 0.000001;
    assert RunFrom(g, known, p, d, rng, j + 1)
        == Iterate(g, known, p, d, t.ws, t.rng, Cool(TempAt(p, j), p.decay), Some(t.total), es + [t.total]);
  }

  lemma LastSweep(g: seq<Edge>, known: nat, p: Params, d: Draws, rng: nat, j: nat)
    requires j >= p.maxIter
    ensures RunFrom(g, known, p, d, rng, j)
         == Result(AfterSweeps(g, known, p, d, rng, j).ws, Energies(g, known, p, d, rng, j), j, false,
                   Round6(TempAt(p, j)))
  {
    hide SweepTo, Round6;
  }

  lemma {:induction false} RunFromOutcome(g: seq<Edge>, known: nat, p: Params, d: Draws, rng: nat, j: nat)
    requires j <= p.maxIter
    requires j > 0 ==> !Settles(g, known, p, d, rng, j) && TempAt(p, j - 1) > p.tMin
    ensures var r := RunFrom(g, known, p, d, rng, j);
      && r.iterations >= j && IsOutcome(g, known, p, d, rng, r)
      && forall i: nat | 0 < i && j <= i < r.iterations :: !Ends(g, known, p, d, rng, i)
    decreases p.maxIter - j
  {
    hide SweepTo, Round6, RunFrom, AfterSweeps, Energies;
    if j == p.maxIter {
      LastSweep(g, known, p, d, rng, j);
    } else {
      NextSweep(g, known, p, d, rng, j);
      if !Settles(g, known, p, d, rng, j + 1) && TempAt(p, j) > p.tMin { RunFromOutcome(g, known, p, d, rng, j + 1); }
    }
  }

  // A run makes one sweep after another, each at the temperature cooled once more, and stops
  // at the first sweep that settles, is at the lowest temperature, or is the last allowed.
  lemma RunStopsAtFirstEnd(g: seq<Edge>, known: nat, p: Params, d: Draws, rng: nat)
    ensures var r := Anneal(g, known, p, d, rng);
      && IsOutcome(g, known, p, d, rng, r)
      && forall i: nat | 0 < i < r.iterations :: !Ends(g, known, p, d, rng, i)
  {
    RunFromOutcome(g, known, p, d, rng, 0);
    assert Energies(g, known, p, d, rng, 0) == [];
  }
}
