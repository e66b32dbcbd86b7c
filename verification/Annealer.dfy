// The two simulated-annealing kernels of annealer.py, with the energy of energy_module.py.
//
// Both kernels are proved to compute the same function Anneal of the graph, differing
// only in the number of nodes that the critic divides by: the array kernel divides by
// all nodes, the scalar kernel by the nodes that are the source of some edge.
module Annealer {
  import opened Reals
  import opened Rounding
  import opened Wrappers

  type Precision = p: real | p >= 0.05 witness 1.0

  // `critical` and `cost` are the edge's criticality test and its base prediction-error
  // cost; `precision` is the floored channel precision of its source type.
  datatype Edge = Edge(source: string, target: string, critical: bool, cost: Unit, precision: Precision,
      confidence: Unit)

  datatype Params = Params(tMin: real, tInit: real, decay: real, maxIter: nat, reg: real)

  // One generator serves both kinds of draw; its state is encoded as a number.
  datatype Draws = Draws(gauss: nat -> (real, nat), uniform: nat -> (real, nat), sqrt: real -> real, exp: real -> real)

  datatype Result = Result(weights: seq<Unit>, trace: seq<real>, iterations: nat, converged: bool, temperature: real)

  function Clamp(x: real): (r: Unit)
    ensures 0.0 <= x <= 1.0 ==> r == x
  {
    Max(0.0, Min(1.0, x))
  }

  // -------------------------------------------------------------- the energy

  datatype EnergyGrad = EnergyGrad(energy: real, grad: real)

  function EdgeCost(bc: real, w: real): (real, real) {
    if bc > 0.4 then
      var raw := bc * (0.8 + 0.4 * w);
      (Clamp(Min(1.0, raw)), if raw < 1.0 then 0.4 * bc else 0.0)
    else
      var raw := bc * (1.2 - 0.4 * w);
      (Clamp(Max(0.0, raw)), if raw > 0.0 then -0.4 * bc else 0.0)
  }

  function EnergyAndGradient(bc: real, wVal: real, critic: real, reg: real): EnergyGrad {
    var w := Clamp(wVal);
    var (c, dc) := EdgeCost(bc, w);
    Combine(w, c, dc, 1.0 - critic, reg)
  }

  function Combine(w: real, c: real, dc: real, k: real, reg: real): EnergyGrad {
    EnergyGrad(
      w * c + (1.0 - w) * (1.0 - c) * k + reg * ((w - 0.5) * (w - 0.5)),
      c - (1.0 - c) * k + 2.0 * reg * (w - 0.5) + dc * (w - (1.0 - w) * k))
  }

  // The critic of a node from its out-degree and the sums over its outgoing edges.
  function CriticFrom(degree: nat, total: real, critical: real, known: nat): real {
    if degree == 0 then 0.0
    else
      Round6(Clamp(Max(Reach(degree, known), CriticalShare(degree, total, critical))))
  }

  function Reach(degree: nat, known: nat): real {
    Min(1.0, degree as real / Max(1.0, known as real))
  }

  function CriticalShare(degree: nat, total: real, critical: real): real {
    (if total > 0.0 then Clamp(critical / Max(0.00001, total)) else 0.0) * Min(1.0, degree as real / 2.0)
  }

  // --------------------------------------- sums over a node's outgoing edges

  function Degree(g: seq<Edge>, node: string): nat {
    if g == [] then 0 else Degree(g[..|g|-1], node) + if g[|g|-1].source == node then 1 else 0
  }

  function OutSum(g: seq<Edge>, ws: seq<real>, node: string): real
    requires |g| == |ws|
  {
    if g == [] then 0.0
    else OutSum(g[..|g|-1], ws[..|g|-1], node) + if g[|g|-1].source == node then ws[|g|-1] else 0.0
  }

  function CritSum(g: seq<Edge>, ws: seq<real>, node: string): real
    requires |g| == |ws|
  {
    if g == [] then 0.0
    else CritSum(g[..|g|-1], ws[..|g|-1], node)
         + if g[|g|-1].source == node && g[|g|-1].critical then ws[|g|-1] else 0.0
  }

  function Critic(g: seq<Edge>, ws: seq<real>, node: string, known: nat): real
    requires |g| == |ws|
  {
    CriticFrom(Degree(g, node), OutSum(g, ws, node), CritSum(g, ws, node), known)
  }

  // ------------------------------------------------------ the annealing process

  datatype Sweep = Sweep(ws: seq<Unit>, rng: nat, total: real)

  // What the acceptance rule decides, and the generator state it leaves.
  function Accept(dE: real, temp: real, d: Draws, rng: nat): (bool, nat) {
    if dE <= 0.0 then (true, rng)
    else if temp < 0.00000001 then (false, rng)
    else
      var x := -dE / temp;
      var p := if x < -700.0 then 0.0 else if x > 700.0 then 1.0 else d.exp(x);
      var (u, next) := d.uniform(rng);
      (u < p, next)
  }

  function Proposal(w: real, temp: real, grad: real, sigma: real, epsilon: real): Unit {
    Clamp(w - temp * grad + sigma * epsilon)
  }

  function Sigma(temp: real, precision: Precision, d: Draws): real {
    d.sqrt(2.0 * temp / precision)
  }

  // What one visit to an edge decides: the weight it leaves, the energy it adds to the
  // sweep and the generator state.
  datatype Decision = Decision(weight: Unit, accepted: bool, energy: real, rng: nat)

  function Decide(e: Edge, w: Unit, critic: real, reg: real, temp: real, d: Draws, rng: nat): (c: Decision)
    ensures !c.accepted ==> c.weight == w
  {
    var now := EnergyAndGradient(e.cost, w, critic, reg);
    var (epsilon, rng1) := d.gauss(rng);
    var proposed := Proposal(w, temp, now.grad, Sigma(temp, e.precision, d), epsilon);
    var candidate := EnergyAndGradient(e.cost, proposed, critic, reg).energy;
    var (ok, rng2) := Accept(candidate - now.energy, temp, d, rng1);
    if ok then Decision(proposed, true, candidate, rng2) else Decision(w, false, now.energy, rng2)
  }

  // One edge of a sweep, given the critic of its target.
  function EdgeStep(e: Edge, i: nat, critic: real, reg: real, temp: real, d: Draws, s: Sweep): Sweep
    requires i < |s.ws|
  {
    var c := Decide(e, s.ws[i], critic, reg, temp, d, s.rng);
    Sweep(s.ws[i := c.weight], c.rng, s.total + c.energy)
  }

  // The first n edges of a sweep, every critic recomputed from the current weights.
  function SweepTo(g: seq<Edge>, known: nat, p: Params, temp: real, d: Draws, ws: seq<Unit>, rng: nat,
                   n: nat): (s: Sweep)
    requires n <= |g| == |ws|
    ensures |s.ws| == |g|
  {
    if n == 0 then Sweep(ws, rng, 0.0)
    else
      var s := SweepTo(g, known, p, temp, d, ws, rng, n-1);
      EdgeStep(g[n-1], n-1, Critic(g, s.ws, g[n-1].target, known), p.reg, temp, d, s)
  }

  function Cool(temp: real, decay: real): real { temp * decay }

  ghost function Iterate(g: seq<Edge>, known: nat, p: Params, d: Draws, ws: seq<Unit>, rng: nat, temp: real,
                         prev: Option<real>, trace: seq<real>): Result
    requires |g| == |ws|
    decreases p.maxIter - |trace|
  {
    if |trace| >= p.maxIter then Result(ws, trace, |trace|, false, Round6(temp))
    else
      var s := SweepTo(g, known, p, temp, d, ws, rng, |g|);
      var t := trace + [s.total];
      if prev.Some? && Abs(s.total - prev.value) < 0.000001 then Result(s.ws, t, |t|, true, Round6(temp))
      else if temp <= p.tMin then Result(s.ws, t, |t|, false, Round6(p.tMin))
      else Iterate(g, known, p, d, s.ws, s.rng, Cool(temp, p.decay), Some(s.total), t)
  }

  // What one more sweep does to a run that has not stopped.
  ghost function AfterSweep(g: seq<Edge>, known: nat, p: Params, d: Draws, s: Sweep, temp: real,
                            prev: Option<real>, trace: seq<real>): Result
    requires |g| == |s.ws| && |trace| < p.maxIter
  {
    var t := trace + [s.total];
    if prev.Some? && Abs(s.total - prev.value) < 0.000001 then Result(s.ws, t, |t|, true, Round6(temp))
    else if temp <= p.tMin then Result(s.ws, t, |t|, false, Round6(p.tMin))
    else Iterate(g, known, p, d, s.ws, s.rng, Cool(temp, p.decay), Some(s.total), t)
  }

  lemma IterateStep(g: seq<Edge>, known: nat, p: Params, d: Draws, ws: seq<Unit>, rng: nat, temp: real,
                    prev: Option<real>, trace: seq<real>, s: Sweep)
    requires |g| == |ws| && |trace| < p.maxIter && s == SweepTo(g, known, p, temp, d, ws, rng, |g|)
    ensures Iterate(g, known, p, d, ws, rng, temp, prev, trace) == AfterSweep(g, known, p, d, s, temp, prev, trace)
  {}

  ghost function Anneal(g: seq<Edge>, known: nat, p: Params, d: Draws, rng: nat): Result {
    Iterate(g, known, p, d, Confidences(g), rng, Max(p.tMin, p.tInit), None, [])
  }

  function Confidences(g: seq<Edge>): seq<Unit> {
    seq(|g|, i requires 0 <= i < |g| => g[i].confidence)
  }

  function Sources(g: seq<Edge>): set<string> { set e | e in g :: e.source }

  function Nodes(g: seq<Edge>): set<string> { Sources(g) + set e | e in g :: e.target }

  // --------------------------------------------------- incremental sums

  lemma {:induction false} SumsAfterUpdate(g: seq<Edge>, ws: seq<real>, i: nat, v: real, node: string)
    requires i < |g| == |ws|
    ensures OutSum(g, ws[i := v], node) == OutSum(g, ws, node) + if g[i].source == node then v - ws[i] else 0.0
    ensures CritSum(g, ws[i := v], node)
         == CritSum(g, ws, node) + if g[i].source == node && g[i].critical then v - ws[i] else 0.0
  {
    var n := |g| - 1;
    if i == n {
      assert ws[i := v][..n] == ws[..n];
    } else {
      assert ws[i := v][..n] == ws[..n][i := v];
      SumsAfterUpdate(g[..n], ws[..n], i, v, node);
    }
  }

  lemma SumsOfPrefix(g: seq<Edge>, ws: seq<real>, k: nat, node: string)
    requires k < |g| == |ws|
    ensures Degree(g[..k+1], node) == Degree(g[..k], node) + if g[k].source == node then 1 else 0
    ensures OutSum(g[..k+1], ws[..k+1], node)
         == OutSum(g[..k], ws[..k], node) + if g[k].source == node then ws[k] else 0.0
    ensures CritSum(g[..k+1], ws[..k+1], node)
         == CritSum(g[..k], ws[..k], node) + if g[k].source == node && g[k].critical then ws[k] else 0.0
  {
    assert g[..k+1][..k] == g[..k] && ws[..k+1][..k] == ws[..k];
  }

  // ------------------------------------------------------- the array kernel

  ghost predicate Numbering(ids: map<string, nat>, nodes: set<string>) {
    && ids.Keys == nodes
    && (forall a :: a in ids ==> ids[a] < |ids|)
    && (forall a, b :: a in ids && b in ids && ids[a] == ids[b] ==> a == b)
  }

  function Number(ids: map<string, nat>, node: string): map<string, nat> {
    if node in ids then ids else ids[node := |ids|]
  }

  lemma NumberOk(ids: map<string, nat>, nodes: set<string>, node: string)
    requires Numbering(ids, nodes)
    ensures Numbering(Number(ids, node), nodes + {node})
  {
    if node !in ids {
      assert Number(ids, node).Keys == nodes + {node};
      assert |Number(ids, node)| == |ids| + 1;
    }
  }

  lemma NodesOfPrefix(g: seq<Edge>, k: nat)
    requires k < |g|
    ensures Nodes(g[..k+1]) == Nodes(g[..k]) + {g[k].source} + {g[k].target}
    ensures Sources(g[..k+1]) == Sources(g[..k]) + {g[k].source}
  {
    assert g[..k+1] == g[..k] + [g[k]];
  }

  // Numbers the nodes in order of first appearance.
  method NodeIds(g: seq<Edge>) returns (ids: map<string, nat>)
    ensures Numbering(ids, Nodes(g))
  {
    ids := map[];
    for k := 0 to |g|
      invariant Numbering(ids, Nodes(g[..k]))
    {
      NodesOfPrefix(g, k);
      NumberOk(ids, Nodes(g[..k]), g[k].source);
      ids := Number(ids, g[k].source);
      NumberOk(ids, Nodes(g[..k]) + {g[k].source}, g[k].target);
      ids := Number(ids, g[k].target);
    }
    assert g[..|g|] == g;
  }

  // The arrays agree with the sums over the graph at the given weights.
  ghost predicate SumsKept(g: seq<Edge>, ws: seq<real>, ids: map<string, nat>, degree: seq<nat>, total: seq<real>,
                           crit: seq<real>)
    requires |g| == |ws|
  {
    && |degree| == |total| == |crit| == |ids|
    && forall a :: a in ids ==>
         (&& ids[a] < |ids|
          && degree[ids[a]] == Degree(g, a)
          && total[ids[a]] == OutSum(g, ws, a)
          && crit[ids[a]] == CritSum(g, ws, a))
  }

  // Scatters the edges onto the per-node arrays.
  method AddAt(g: seq<Edge>, ids: map<string, nat>, ws: seq<real>)
    returns (degree: array<nat>, total: array<real>, crit: array<real>)
    requires Numbering(ids, Nodes(g)) && |ws| == |g|
    ensures fresh(degree) && fresh(total) && fresh(crit) && total != crit
    ensures SumsKept(g, ws, ids, degree[..], total[..], crit[..])
  {
    hide Degree, OutSum, CritSum, SumsKept, Nodes;
    degree := new nat[|ids|](_ => 0);
    total := ZeroArray(|ids|);
    crit := ZeroArray(|ids|);
    SumsKeptEmpty(ids, degree[..], total[..], crit[..]);
    assert g[..0] == [] && ws[..0] == [];
    for k := 0 to |g|
      invariant SumsKept(g[..k], ws[..k], ids, degree[..], total[..], crit[..])
    {
      AddOne(g, ids, ws, k, degree, total, crit);
    }
    assert g[..|g|] == g && ws[..|g|] == ws;
  }

  method ZeroArray(n: nat) returns (a: array<real>)
    ensures fresh(a) && a.Length == n && forall i :: 0 <= i < n ==> a[i] == 0.0
  {
    a := new real[n](_ => 0.0);
  }

  lemma SumsKeptEmpty(ids: map<string, nat>, degree: seq<nat>, total: seq<real>, crit: seq<real>)
    requires |degree| == |total| == |crit| == |ids|
    requires Numbering(ids, ids.Keys)
    requires forall i :: 0 <= i < |ids| ==> degree[i] == 0 && total[i] == 0.0 && crit[i] == 0.0
    ensures SumsKept([], [], ids, degree, total, crit)
  {}

  method AddOne(g: seq<Edge>, ids: map<string, nat>, ws: seq<real>, k: nat, degree: array<nat>, total: array<real>,
                crit: array<real>)
    requires k < |g| == |ws| && Numbering(ids, Nodes(g)) && total != crit
    requires SumsKept(g[..k], ws[..k], ids, degree[..], total[..], crit[..])
    modifies degree, total, crit
    ensures SumsKept(g[..k+1], ws[..k+1], ids, degree[..], total[..], crit[..])
  {
    hide Degree, OutSum, CritSum, SumsKept, Numbering;
    SlotOf(g, ids, k);
    SameLengths(g[..k], ws[..k], ids, degree[..], total[..], crit[..]);
    SumsKeptPush(g, ws, ids, degree[..], total[..], crit[..], k);
    var s := ids[g[k].source];
    ghost var d0, t0, c0 := degree[..], total[..], crit[..];
    degree[s] := degree[s] + 1;
    total[s] := total[s] + ws[k];
    if g[k].critical { crit[s] := crit[s] + ws[k]; }
    assert degree[..] == d0[s := d0[s] + 1];
    assert total[..] == t0[s := t0[s] + ws[k]];
    assert crit[..] == if g[k].critical then c0[s := c0[s] + ws[k]] else c0;
  }

  // The slot of an edge's source.
  lemma SlotOf(g: seq<Edge>, ids: map<string, nat>, k: nat)
    requires k < |g| && Numbering(ids, Nodes(g))
    ensures g[k].source in ids && ids[g[k].source] < |ids|
  {
    SubNodes(g, k);
  }

  lemma SameLengths(g: seq<Edge>, ws: seq<real>, ids: map<string, nat>, degree: seq<nat>, total: seq<real>,
                    crit: seq<real>)
    requires |g| == |ws| && SumsKept(g, ws, ids, degree, total, crit)
    ensures |degree| == |total| == |crit| == |ids|
  {}

  lemma SubNodes(g: seq<Edge>, k: nat)
    requires k < |g|
    ensures g[k].source in Nodes(g) && g[k].target in Nodes(g)
  {
    assert g[k] in g;
  }

  lemma SumsKeptPush(g: seq<Edge>, ws: seq<real>, ids: map<string, nat>, degree: seq<nat>, total: seq<real>,
                     crit: seq<real>, k: nat)
    requires k < |g| == |ws| && Numbering(ids, Nodes(g)) && g[k].source in ids && ids[g[k].source] < |ids|
    requires |degree| == |total| == |crit| == |ids|
    requires SumsKept(g[..k], ws[..k], ids, degree, total, crit)
    ensures var s := ids[g[k].source];
      SumsKept(g[..k+1], ws[..k+1], ids, degree[s := degree[s] + 1], total[s := total[s] + ws[k]],
        if g[k].critical then crit[s := crit[s] + ws[k]] else crit)
  {
    hide Degree, OutSum, CritSum, Nodes;
    var s := ids[g[k].source];
    forall a | a in ids
      ensures Degree(g[..k+1], a) == degree[s := degree[s] + 1][ids[a]]
      ensures OutSum(g[..k+1], ws[..k+1], a) == total[s := total[s] + ws[k]][ids[a]]
      ensures CritSum(g[..k+1], ws[..k+1], a) == (if g[k].critical then crit[s := crit[s] + ws[k]] else crit)[ids[a]]
    {
      SumsOfPrefix(g, ws, k, a);
      assert ids[a] == s <==> a == g[k].source;
    }
  }

  lemma SumsKeptUpdate(g: seq<Edge>, ws: seq<real>, ids: map<string, nat>, degree: seq<nat>, total: seq<real>,
                       crit: seq<real>, i: nat, v: real)
    requires i < |g| == |ws| && Numbering(ids, Nodes(g)) && g[i].source in ids && ids[g[i].source] < |ids|
    requires |degree| == |total| == |crit| == |ids|
    requires SumsKept(g, ws, ids, degree, total, crit)
    ensures var s, delta := ids[g[i].source], v - ws[i];
      SumsKept(g, ws[i := v], ids, degree, total[s := total[s] + delta],
        if g[i].critical then crit[s := crit[s] + delta] else crit)
  {
    hide Degree, OutSum, CritSum, Nodes;
    var s, delta := ids[g[i].source], v - ws[i];
    forall a | a in ids
      ensures OutSum(g, ws[i := v], a) == total[s := total[s] + delta][ids[a]]
      ensures CritSum(g, ws[i := v], a) == (if g[i].critical then crit[s := crit[s] + delta] else crit)[ids[a]]
    {
      SumsAfterUpdate(g, ws, i, v, a);
      assert ids[a] == s <==> a == g[i].source;
    }
  }

  // Moves a weight and, by the same amount, the running sums of its source.
  method MoveWeight(g: seq<Edge>, ids: map<string, nat>, i: nat, weight: Unit,
                    ws: array<Unit>, degree: array<nat>, total: array<real>, crit: array<real>)
    requires i < |g| == ws.Length && Numbering(ids, Nodes(g))
    requires ws as object != total && ws as object != crit && total != crit
    requires SumsKept(g, ws[..], ids, degree[..], total[..], crit[..])
    modifies ws, total, crit
    ensures ws[..] == old(ws[..])[i := weight]
    ensures SumsKept(g, ws[..], ids, degree[..], total[..], crit[..])
  {
    hide Degree, OutSum, CritSum, SumsKept, Numbering;
    SlotOf(g, ids, i);
    SameLengths(g, ws[..], ids, degree[..], total[..], crit[..]);
    SumsKeptUpdate(g, ws[..], ids, degree[..], total[..], crit[..], i, weight);
    var delta := weight - ws[i];
    var s := ids[g[i].source];
    ghost var t0, c0 := total[..], crit[..];
    ws[i] := weight;
    total[s] := total[s] + delta;
    if g[i].critical { crit[s] := crit[s] + delta; }
    assert total[..] == t0[s := t0[s] + delta];
    assert crit[..] == if g[i].critical then c0[s := c0[s] + delta] else c0;
  }

  // One edge of the array kernel: the critic comes from the running sums.
  method VectorStep(g: seq<Edge>, ids: map<string, nat>, p: Params, temp: real, d: Draws, i: nat, rng0: nat,
                    total0: real,
                    ws: array<Unit>, degree: array<nat>, total: array<real>, crit: array<real>)
    returns (rng: nat, sum: real)
    requires i < |g| == ws.Length && Numbering(ids, Nodes(g))
    requires ws as object != total && ws as object != crit && total != crit
    requires SumsKept(g, ws[..], ids, degree[..], total[..], crit[..])
    modifies ws, total, crit
    ensures SumsKept(g, ws[..], ids, degree[..], total[..], crit[..])
    ensures Sweep(ws[..], rng, sum)
         == EdgeStep(g[i], i, Critic(g, old(ws[..]), g[i].target, |ids|), p.reg, temp, d,
             Sweep(old(ws[..]), rng0, total0))
  {
    hide Degree, OutSum, CritSum, Decide, CriticFrom;
    SubNodes(g, i);
    var t := ids[g[i].target];
    var critic := CriticFrom(degree[t], total[t], crit[t], |ids|);
    assert critic == Critic(g, ws[..], g[i].target, |ids|);
    var c := Decide(g[i], ws[i], critic, p.reg, temp, d, rng0);
    rng, sum := c.rng, total0 + c.energy;
    if c.accepted {
      MoveWeight(g, ids, i, c.weight, ws, degree, total, crit);
    } else {
      assert ws[..][i := c.weight] == ws[..];
    }
  }

  method VectorSweep(g: seq<Edge>, ids: map<string, nat>, p: Params, temp: real, d: Draws, rng0: nat,
                     ws: array<Unit>, degree: array<nat>, total: array<real>, crit: array<real>)
    returns (rng: nat, sum: real)
    requires |g| == ws.Length && Numbering(ids, Nodes(g))
    requires ws as object != total && ws as object != crit && total != crit
    requires SumsKept(g, ws[..], ids, degree[..], total[..], crit[..])
    modifies ws, total, crit
    ensures SumsKept(g, ws[..], ids, degree[..], total[..], crit[..])
    ensures Sweep(ws[..], rng, sum) == SweepTo(g, |ids|, p, temp, d, old(ws[..]), rng0, |g|)
  {
    hide Degree, OutSum, CritSum, EdgeStep, Critic, SumsKept, Numbering, Nodes;
    rng, sum := rng0, 0.0;
    for i := 0 to |g|
      invariant SumsKept(g, ws[..], ids, degree[..], total[..], crit[..])
      invariant Sweep(ws[..], rng, sum) == SweepTo(g, |ids|, p, temp, d, old(ws[..]), rng0, i)
    {
      rng, sum := VectorStep(g, ids, p, temp, d, i, rng, sum, ws, degree, total, crit);
    }
  }

  // The whole array kernel computes Anneal with every node counted.
  method RunVectorized(g: seq<Edge>, p: Params, d: Draws, rng0: nat) returns (r: Result)
    ensures r == Anneal(g, |Nodes(g)|, p, d, rng0)
  {
    hide SumsKept, SweepTo, Cool, Round6, Nodes;
    var ids := NodeIds(g);
    assert |ids| == |ids.Keys|;
    var ws := new Unit[|g|](i requires 0 <= i < |g| => g[i].confidence);
    assert ws[..] == Confidences(g);
    var degree, total, crit := AddAt(g, ids, ws[..]);
    var temp, rng, sum := Max(p.tMin, p.tInit), rng0, 0.0;
    var trace: seq<real>, prev: Option<real> := [], None;
    while |trace| < p.maxIter
      invariant SumsKept(g, ws[..], ids, degree[..], total[..], crit[..])
      invariant Iterate(g, |ids|, p, d, ws[..], rng, temp, prev, trace) == Anneal(g, |ids|, p, d, rng0)
      decreases p.maxIter - |trace|
    {
      ghost var ws0, rng1, trace0 := ws[..], rng, trace;
      rng, sum := VectorSweep(g, ids, p, temp, d, rng, ws, degree, total, crit);
      IterateStep(g, |ids|, p, d, ws0, rng1, temp, prev, trace, Sweep(ws[..], rng, sum));
      trace := trace + [sum];
      if prev.Some? && Abs(sum - prev.value) < 0.000001 {
        return Result(ws[..], trace, |trace|, true, Round6(temp));
      }
      if temp <= p.tMin {
        return Result(ws[..], trace, |trace|, false, Round6(p.tMin));
      }
      prev, temp := Some(sum), Cool(temp, p.decay);
    }
    r := Result(ws[..], trace, |trace|, false, Round6(temp));
  }

  // ------------------------------------------------------ the scalar kernel

  // A list slot: `id` stands for the identity of the edge object it holds.
  datatype Entry = Entry(id: nat, edge: Edge)

  function Outgoing(w: seq<Edge>, node: string): seq<Entry> {
    if w == [] then []
    else
      var last := w[|w|-1];
      Outgoing(w[..|w|-1], node) + if last.source == node then [Entry(|w|-1, last)] else []
  }

  function SumConf(l: seq<Entry>): real {
    if l == [] then 0.0 else SumConf(l[..|l|-1]) + l[|l|-1].edge.confidence
  }

  function SumCritical(l: seq<Entry>): real {
    if l == [] then 0.0
    else SumCritical(l[..|l|-1]) + if l[|l|-1].edge.critical then l[|l|-1].edge.confidence else 0.0
  }

  function ListCritic(l: seq<Entry>, known: nat): real {
    if l == [] then 0.0 else CriticFrom(|l|, SumConf(l), SumCritical(l), known)
  }

  // The list holds edges of w with this source, each at its own identity, in order.
  ghost predicate Slots(w: seq<Edge>, node: string, l: seq<Entry>) {
    && (forall k :: 0 <= k < |l| ==> l[k].id < |w|)
    && (forall k :: 0 <= k < |l| ==> l[k].edge == w[l[k].id] && l[k].edge.source == node)
    && (forall j, k :: 0 <= j < k < |l| ==> l[j].id < l[k].id)
  }

  lemma {:induction false} OutgoingIds(w: seq<Edge>, node: string)
    ensures Slots(w, node, Outgoing(w, node))
    ensures forall i :: 0 <= i < |w| && w[i].source == node ==> Entry(i, w[i]) in Outgoing(w, node)
  {
    if w != [] {
      var n := |w| - 1;
      OutgoingIds(w[..n], node);
      var front := Outgoing(w[..n], node);
      assert Slots(w[..n], node, front);
      var l := front + if w[n].source == node then [Entry(n, w[n])] else [];
      assert Slots(w, node, l);
      assert l == Outgoing(w, node);
      forall i | 0 <= i < |w| && w[i].source == node ensures Entry(i, w[i]) in l {
        if i < n {
          assert w[..n][i] == w[i];
        }
      }
    }
  }

  lemma {:induction false} OutgoingSums(g: seq<Edge>, ws: seq<Unit>, w: seq<Edge>, node: string)
    requires |g| == |ws| == |w|
    requires forall i :: 0 <= i < |g| ==> w[i] == g[i].(confidence := ws[i])
    ensures |Outgoing(w, node)| == Degree(g, node)
    ensures SumConf(Outgoing(w, node)) == OutSum(g, ws, node)
    ensures SumCritical(Outgoing(w, node)) == CritSum(g, ws, node)
  {
    if w != [] {
      var n := |w| - 1;
      OutgoingSums(g[..n], ws[..n], w[..n], node);
      if g[n].source == node {
        SumPush(Outgoing(w[..n], node), Entry(n, w[n]));
      } else {
        assert Outgoing(w, node) == Outgoing(w[..n], node);
      }
    }
  }

  lemma SumPush(l: seq<Entry>, e: Entry)
    ensures SumConf(l + [e]) == SumConf(l) + e.edge.confidence
    ensures SumCritical(l + [e]) == SumCritical(l) + if e.edge.critical then e.edge.confidence else 0.0
  {
    assert (l + [e])[..|l|] == l;
  }

  // Puts the entry's new edge wherever its identity occurs.
  function Substitute(l: seq<Entry>, c: Entry): (r: seq<Entry>)
    ensures |r| == |l| && forall k :: 0 <= k < |l| ==> r[k] == if l[k].id == c.id then c else l[k]
  {
    seq(|l|, k requires 0 <= k < |l| => if l[k].id == c.id then c else l[k])
  }

  lemma OutgoingLast(w: seq<Edge>, node: string)
    requires w != []
    ensures var n := |w| - 1;
      Outgoing(w, node) == Outgoing(w[..n], node) + if w[n].source == node then [Entry(n, w[n])] else []
  {}

  lemma SubstituteNone(l: seq<Entry>, c: Entry)
    requires forall k :: 0 <= k < |l| ==> l[k].id != c.id
    ensures Substitute(l, c) == l
  {}

  lemma {:induction false} OutgoingUpdate(w: seq<Edge>, i: nat, c: Edge, node: string)
    requires i < |w| && c.source == w[i].source
    ensures Outgoing(w[i := c], node)
         == if c.source == node then Substitute(Outgoing(w, node), Entry(i, c)) else Outgoing(w, node)
  {
    hide Outgoing, Substitute;
    var n, e := |w| - 1, Entry(i, c);
    var front, last := Outgoing(w[..n], node), Entry(n, w[n]);
    OutgoingLast(w, node);
    OutgoingLast(w[i := c], node);
    SubstituteLast(front, last, e);
    if i == n {
      assert w[i := c][..n] == w[..n];
      OutgoingIds(w[..n], node);
      SubstituteNone(front, e);
    } else {
      assert w[i := c][..n] == w[..n][i := c];
      OutgoingUpdate(w[..n], i, c, node);
    }
  }

  lemma SubstituteLast(l: seq<Entry>, last: Entry, c: Entry)
    ensures Substitute(l + [last], c) == Substitute(l, c) + [if last.id == c.id then c else last]
  {}

  ghost predicate IndexOk(w: seq<Edge>, index: map<string, seq<Entry>>) {
    && index.Keys == Sources(w)
    && forall s :: s in index ==> index[s] == Outgoing(w, s)
  }

  lemma {:induction false} OutgoingNone(w: seq<Edge>, node: string)
    requires node !in Sources(w)
    ensures Outgoing(w, node) == []
  {
    if w != [] {
      assert w[|w|-1] in w;
      assert forall e :: e in w[..|w|-1] ==> e in w;
      OutgoingNone(w[..|w|-1], node);
    }
  }

  method BuildIndex(w: seq<Edge>) returns (index: map<string, seq<Entry>>)
    ensures IndexOk(w, index)
  {
    index := map[];
    for k := 0 to |w|
      invariant IndexOk(w[..k], index)
    {
      var e := w[k];
      NodesOfPrefix(w, k);
      assert w[..k+1][..k] == w[..k];
      if e.source !in index {
        OutgoingNone(w[..k], e.source);
        index := index[e.source := []];
      }
      index := index[e.source := index[e.source] + [Entry(k, e)]];
    }
    assert w[..|w|] == w;
  }

  // Replaces the edge object in its source's list: the first slot holding that object.
  method ReplaceEntry(w: seq<Edge>, index: map<string, seq<Entry>>, i: nat, c: Edge)
    returns (next: map<string, seq<Entry>>)
    requires i < |w| && IndexOk(w, index) && c.source == w[i].source
    ensures IndexOk(w[i := c], next)
  {
    assert w[i] in w;
    var l := index[c.source];
    OutgoingIds(w, c.source);
    var k := 0;
    while k < |l| && l[k].id != i
      invariant k <= |l| && forall j :: 0 <= j < k ==> l[j].id != i
    {
      k := k + 1;
    }
    assert Entry(i, w[i]) in l;
    assert forall j :: 0 <= j < |l| && j != k ==> l[j].id != i;
    next := index[c.source := l[k := Entry(i, c)]];
    assert l[k := Entry(i, c)] == Substitute(l, Entry(i, c));
    SourcesUpdate(w, i, c);
    forall s | s in next ensures next[s] == Outgoing(w[i := c], s) {
      OutgoingUpdate(w, i, c, s);
    }
  }

  lemma SourcesUpdate(w: seq<Edge>, i: nat, c: Edge)
    requires i < |w| && c.source == w[i].source
    ensures Sources(w[i := c]) == Sources(w)
  {
    var u := w[i := c];
    forall s | s in Sources(w) ensures s in Sources(u) {
      var k :| 0 <= k < |w| && w[k].source == s;
      assert u[k] in u && u[k].source == s;
    }
    forall s | s in Sources(u) ensures s in Sources(w) {
      var k :| 0 <= k < |u| && u[k].source == s;
      assert w[k] in w && w[k].source == s;
    }
  }

  // The working edges are the graph's edges at the given weights.
  ghost predicate Reweighted(g: seq<Edge>, ws: seq<Unit>, w: seq<Edge>) {
    |g| == |ws| == |w| && forall i :: 0 <= i < |g| ==> w[i] == g[i].(confidence := ws[i])
  }

  lemma ReweightedSources(g: seq<Edge>, ws: seq<Unit>, w: seq<Edge>)
    requires Reweighted(g, ws, w)
    ensures Sources(w) == Sources(g)
  {
    forall s | s in Sources(g) ensures s in Sources(w) {
      var k :| 0 <= k < |g| && g[k].source == s;
      assert w[k] in w && w[k].source == s;
    }
    forall s | s in Sources(w) ensures s in Sources(g) {
      var k :| 0 <= k < |w| && w[k].source == s;
      assert g[k] in g && g[k].source == s;
    }
  }

  lemma IndexCritic(g: seq<Edge>, ws: seq<Unit>, w: seq<Edge>, index: map<string, seq<Entry>>, node: string)
    requires Reweighted(g, ws, w) && IndexOk(w, index)
    ensures |index| == |Sources(g)|
    ensures ListCritic(if node in index then index[node] else [], |index|) == Critic(g, ws, node, |Sources(g)|)
  {
    ReweightedSources(g, ws, w);
    assert |index| == |index.Keys|;
    OutgoingSums(g, ws, w, node);
    if node !in index { OutgoingNone(w, node); }
  }

  // One edge of the scalar kernel: the critic is summed afresh over the target's list.
  method ReferenceStep(g: seq<Edge>, p: Params, temp: real, d: Draws, i: nat, rng0: nat, sum0: real,
                       ghost ws0: seq<Unit>,
                       working0: seq<Edge>, index0: map<string, seq<Entry>>)
    returns (working: seq<Edge>, index: map<string, seq<Entry>>, rng: nat, sum: real, ghost ws: seq<Unit>)
    requires i < |g| && Reweighted(g, ws0, working0) && IndexOk(working0, index0)
    ensures Reweighted(g, ws, working) && IndexOk(working, index)
    ensures Sweep(ws, rng, sum)
         == EdgeStep(g[i], i, Critic(g, ws0, g[i].target, |Sources(g)|), p.reg, temp, d, Sweep(ws0, rng0, sum0))
  {
    hide Decide, Critic, ListCritic, IndexOk;
    working, index := working0, index0;
    var e := working[i];
    IndexCritic(g, ws0, working, index, e.target);
    var critic := ListCritic(if e.target in index then index[e.target] else [], |index|);
    var c := Decide(e, e.confidence, critic, p.reg, temp, d, rng0);
    DecideIgnoresConfidence(g[i], ws0[i], e, critic, p.reg, temp, d, rng0);
    rng, sum, ws := c.rng, sum0 + c.energy, ws0[i := c.weight];
    if c.accepted {
      var candidate := e.(confidence := c.weight);
      index := ReplaceEntry(working, index, i, candidate);
      working := working[i := candidate];
    }
  }

  method ReferenceSweep(g: seq<Edge>, p: Params, temp: real, d: Draws, rng0: nat, ghost ws0: seq<Unit>,
                        working0: seq<Edge>, index0: map<string, seq<Entry>>)
    returns (working: seq<Edge>, index: map<string, seq<Entry>>, rng: nat, sum: real, ghost ws: seq<Unit>)
    requires Reweighted(g, ws0, working0) && IndexOk(working0, index0)
    ensures Reweighted(g, ws, working) && IndexOk(working, index)
    ensures Sweep(ws, rng, sum) == SweepTo(g, |Sources(g)|, p, temp, d, ws0, rng0, |g|)
  {
    hide EdgeStep, Critic, IndexOk;
    working, index, rng, sum, ws := working0, index0, rng0, 0.0, ws0;
    for i := 0 to |working|
      invariant Reweighted(g, ws, working) && IndexOk(working, index)
      invariant Sweep(ws, rng, sum) == SweepTo(g, |Sources(g)|, p, temp, d, ws0, rng0, i)
    {
      working, index, rng, sum, ws := ReferenceStep(g, p, temp, d, i, rng, sum, ws, working, index);
    }
  }

  // The whole scalar kernel computes Anneal with only the source nodes counted.
  method RunReference(g: seq<Edge>, p: Params, d: Draws, rng0: nat) returns (r: Result)
    ensures r == Anneal(g, |Sources(g)|, p, d, rng0)
  {
    hide IndexOk, SweepTo, Cool, Round6, Sources;
    var working := g;
    ghost var ws: seq<Unit> := Confidences(g);
    var index := BuildIndex(working);
    var temp, rng, sum := Max(p.tMin, p.tInit), rng0, 0.0;
    var trace: seq<real>, prev: Option<real> := [], None;
    while |trace| < p.maxIter
      invariant Reweighted(g, ws, working) && IndexOk(working, index)
      invariant Iterate(g, |Sources(g)|, p, d, ws, rng, temp, prev, trace) == Anneal(g, |Sources(g)|, p, d, rng0)
      decreases p.maxIter - |trace|
    {
      ghost var ws0, rng1 := ws, rng;
      working, index, rng, sum, ws := ReferenceSweep(g, p, temp, d, rng, ws, working, index);
      IterateStep(g, |Sources(g)|, p, d, ws0, rng1, temp, prev, trace, Sweep(ws, rng, sum));
      trace := trace + [sum];
      assert Confidences(working) == ws;
      if prev.Some? && Abs(sum - prev.value) < 0.000001 {
        return Result(Confidences(working), trace, |trace|, true, Round6(temp));
      }
      if temp <= p.tMin {
        return Result(Confidences(working), trace, |trace|, false, Round6(p.tMin));
      }
      prev, temp := Some(sum), Cool(temp, p.decay);
    }
    assert Confidences(working) == ws;
    r := Result(Confidences(working), trace, |trace|, false, Round6(temp));
  }

  lemma DecideIgnoresConfidence(e: Edge, w: Unit, f: Edge, critic: real, reg: real, temp: real, d: Draws, rng: nat)
    requires f == e.(confidence := w)
    ensures Decide(f, w, critic, reg, temp, d, rng) == Decide(e, w, critic, reg, temp, d, rng)
  {}

  // ------------------------------------------- when the two kernels agree

  // The reach terms of every edge target that has outgoing edges round to the same value,
  // whether the critic divides by all nodes or by the sources only.
  ghost predicate ReachAgrees(g: seq<Edge>) {
    forall e :: e in g && Degree(g, e.target) > 0 ==>
      Round6(Reach(Degree(g, e.target), |Nodes(g)|)) == Round6(Reach(Degree(g, e.target), |Sources(g)|))
  }

  lemma ShareBounds(degree: nat, total: real, critical: real)
    ensures 0.0 <= CriticalShare(degree, total, critical) <= 1.0
  {
    UnitProduct(if total > 0.0 then Clamp(critical / Max(0.00001, total)) else 0.0, Min(1.0, degree as real / 2.0));
  }

  // Rounding commutes with the critic's maximum.
  lemma CriticIsMax(degree: nat, total: real, critical: real, known: nat)
    requires degree > 0
    ensures CriticFrom(degree, total, critical, known)
         == Max(Round6(Reach(degree, known)), Round6(CriticalShare(degree, total, critical)))
  {
    var a, x := Reach(degree, known), CriticalShare(degree, total, critical);
    ShareBounds(degree, total, critical);
    assert 0.0 <= a <= 1.0;
    if a <= x { RoundMonotone(a, x, 1000000.0); } else { RoundMonotone(x, a, 1000000.0); }
  }

  lemma CriticAgrees(g: seq<Edge>, ws: seq<Unit>, e: Edge)
    requires |g| == |ws| && e in g && ReachAgrees(g)
    ensures Critic(g, ws, e.target, |Nodes(g)|) == Critic(g, ws, e.target, |Sources(g)|)
  {
    var degree := Degree(g, e.target);
    if degree > 0 {
      CriticIsMax(degree, OutSum(g, ws, e.target), CritSum(g, ws, e.target), |Nodes(g)|);
      CriticIsMax(degree, OutSum(g, ws, e.target), CritSum(g, ws, e.target), |Sources(g)|);
    }
  }

  lemma {:induction false} SweepAgrees(g: seq<Edge>, p: Params, temp: real, d: Draws, ws: seq<Unit>, rng: nat, n: nat)
    requires n <= |g| == |ws| && ReachAgrees(g)
    ensures SweepTo(g, |Nodes(g)|, p, temp, d, ws, rng, n) == SweepTo(g, |Sources(g)|, p, temp, d, ws, rng, n)
  {
    hide EdgeStep, Critic;
    if n > 0 {
      SweepAgrees(g, p, temp, d, ws, rng, n-1);
      CriticAgrees(g, SweepTo(g, |Nodes(g)|, p, temp, d, ws, rng, n-1).ws, g[n-1]);
    }
  }

  lemma {:induction false} IterateAgrees(g: seq<Edge>, p: Params, d: Draws, ws: seq<Unit>, rng: nat, temp: real,
                                         prev: Option<real>, trace: seq<real>)
    requires |g| == |ws| && ReachAgrees(g)
    ensures Iterate(g, |Nodes(g)|, p, d, ws, rng, temp, prev, trace)
         == Iterate(g, |Sources(g)|, p, d, ws, rng, temp, prev, trace)
    decreases p.maxIter - |trace|
  {
    if |trace| < p.maxIter {
      SweepAgrees(g, p, temp, d, ws, rng, |g|);
      var s := SweepTo(g, |Nodes(g)|, p, temp, d, ws, rng, |g|);
      IterateStep(g, |Nodes(g)|, p, d, ws, rng, temp, prev, trace, s);
      IterateStep(g, |Sources(g)|, p, d, ws, rng, temp, prev, trace, s);
      IterateAgrees(g, p, d, s.ws, s.rng, Cool(temp, p.decay), Some(s.total), trace + [s.total]);
    }
  }

  lemma ThirdIsNotHalf()
    ensures Round6(Reach(1, 2)) != Round6(Reach(1, 3))
  {
    assert Reach(1, 2) == 0.5 && Reach(1, 3) == 1.0 / 3.0;
    RoundError(0.5, 1000000.0);
    RoundError(1.0 / 3.0, 1000000.0);
  }

  // Two edges in a row already tell the kernels apart: the middle node counts as half of
  // the sources but a third of the nodes.
  lemma ChainDisagrees(e: Edge, f: Edge)
    requires e.target == f.source && e.source != f.source && f.target != e.source && f.target != f.source
    ensures !ReachAgrees([e, f])
  {
    hide Degree, Reach, Round6;
    var g := [e, f];
    assert e in g && f in g;
    assert Sources(g) == {e.source, f.source} && Nodes(g) == {e.source, f.source, f.target};
    ChainDegree(e, f);
    ThirdIsNotHalf();
  }

  lemma ChainDegree(e: Edge, f: Edge)
    requires e.source != f.source
    ensures Degree([e, f], f.source) == 1
  {
    assert [e, f][..1] == [e] && [e][..0] == [];
    assert Degree([e], f.source) == 0;
  }

  // ---- the converse: a run that tells the kernels apart

  // The same edges between the same nodes; all else may differ.
  ghost predicate SameTopology(g: seq<Edge>, h: seq<Edge>) {
    |g| == |h| && forall i :: 0 <= i < |g| ==> h[i].source == g[i].source && h[i].target == g[i].target
  }

  lemma {:induction false} TopologyDegree(g: seq<Edge>, h: seq<Edge>, node: string)
    requires SameTopology(g, h)
    ensures Degree(g, node) == Degree(h, node)
  {
    if g != [] { TopologyDegree(g[..|g|-1], h[..|h|-1], node); }
  }

  lemma TopologyWithin(g: seq<Edge>, h: seq<Edge>)
    requires SameTopology(g, h)
    ensures Sources(g) <= Sources(h) && Nodes(g) <= Nodes(h)
  {
    forall e | e in g ensures e.source in Sources(h) && e.target in Nodes(h) {
      var k :| 0 <= k < |g| && g[k] == e;
      assert h[k] in h;
    }
  }

  lemma TopologyNodes(g: seq<Edge>, h: seq<Edge>)
    requires SameTopology(g, h)
    ensures Sources(h) == Sources(g) && Nodes(h) == Nodes(g)
  {
    TopologyWithin(g, h);
    TopologyWithin(h, g);
  }

  lemma TopologyReach(g: seq<Edge>, h: seq<Edge>)
    requires SameTopology(g, h) && ReachAgrees(g)
    ensures ReachAgrees(h)
  {
    TopologyNodes(g, h);
    forall e | e in h && Degree(h, e.target) > 0
      ensures Round6(Reach(Degree(h, e.target), |Nodes(h)|)) == Round6(Reach(Degree(h, e.target), |Sources(h)|))
    {
      var k :| 0 <= k < |h| && h[k] == e;
      assert g[k] in g;
      TopologyDegree(g, h, e.target);
    }
  }

  function Flat(g: seq<Edge>): seq<Edge> {
    seq(|g|, i requires 0 <= i < |g| => g[i].(confidence := 0.0))
  }

  const PROBE := Params(1.0, 1.0, 1.0, 1, 0.0)

  ghost predicate PositiveRoot(sqrt: real -> real) { forall x :: x > 0.0 ==> sqrt(x) > 0.0 }

  // The Langevin noise of an edge per unit of a Gaussian draw, at temperature one.
  function Noise(sqrt: real -> real, e: Edge): real { sqrt(2.0 * 1.0 / e.precision) }

  // A draw this far below zero outweighs every gradient of the graph.
  ghost function Depth(sqrt: real -> real, g: seq<Edge>): real
    requires PositiveRoot(sqrt)
  {
    if g == [] then 1.4
    else
      var e := g[|g|-1];
      assert 2.0 * 1.0 / e.precision > 0.0;
      Max(Depth(sqrt, g[..|g|-1]), 1.4 / Noise(sqrt, e))
  }

  lemma {:induction false} DepthOutweighs(sqrt: real -> real, g: seq<Edge>, i: nat)
    requires PositiveRoot(sqrt) && i < |g|
    ensures Product(Noise(sqrt, g[i]), Depth(sqrt, g)) >= 1.4
  {
    var n := |g| - 1;
    assert 2.0 * 1.0 / g[i].precision > 0.0;
    var noise := Noise(sqrt, g[i]);
    if i < n {
      DepthOutweighs(sqrt, g[..n], i);
      MulMono(noise, Depth(sqrt, g[..n]), Depth(sqrt, g));
    } else {
      assert Product(noise, 1.4 / noise) == 1.4;
      MulMono(noise, 1.4 / noise, Depth(sqrt, g));
    }
  }

  // Every Gaussian draw is so far below zero that no weight ever leaves zero.
  function Cold(sqrt: real -> real, exp: real -> real, k: real): Draws {
    Draws((r: nat) => (-k, r), (r: nat) => (0.0, r), sqrt, exp)
  }

  // The energy of an edge at weight zero, without the regulariser.
  function GroundEnergy(e: Edge, critic: real): real {
    Product(1.0 - EdgeCost(e.cost, 0.0).0, 1.0 - critic)
  }

  lemma EdgeCostAtZero(bc: Unit)
    ensures 0.0 <= EdgeCost(bc, 0.0).0 < 1.0 && -0.4 <= EdgeCost(bc, 0.0).1 <= 0.4
  {}

  lemma ColdCombine(c: real, dc: real, k: real)
    requires 0.0 <= c <= 1.0 && 0.0 <= k <= 1.0 && -0.4 <= dc <= 0.4
    ensures Combine(0.0, c, dc, k, 0.0).energy == Product(1.0 - c, k)
    ensures Combine(0.0, c, dc, k, 0.0).grad >= -1.4
  {
    UnitProduct(1.0 - c, k);
    if dc >= 0.0 {
      assert Product(dc, k) + Product(dc, 1.0 - k) == dc;
    } else {
      assert Product(dc, k) == -Product(-dc, k);
    }
    var p, q := Product(1.0 - c, k), Product(dc, k);
    assert p <= 1.0 && q <= 0.4;
    assert Combine(0.0, c, dc, k, 0.0).grad == c - p - q;
  }

  lemma ColdProposal(grad: real, sigma: real, k: real)
    requires grad >= -1.4 && Product(sigma, k) >= 1.4
    ensures Proposal(0.0, 1.0, grad, sigma, -k) == 0.0
  {
    assert sigma * -k == -Product(sigma, k);
  }

  lemma ColdDecision(sqrt: real -> real, exp: real -> real, k: real, e: Edge, critic: Unit, rng: nat)
    requires Product(Noise(sqrt, e), k) >= 1.4
    ensures var c := Decide(e, 0.0, critic, 0.0, 1.0, Cold(sqrt, exp, k), rng);
      c.weight == 0.0 && c.energy == GroundEnergy(e, critic)
  {
    hide Combine, EdgeCost, Proposal, Product;
    var (c, dc) := EdgeCost(e.cost, 0.0);
    EdgeCostAtZero(e.cost);
    ColdCombine(c, dc, 1.0 - critic);
    ColdProposal(Combine(0.0, c, dc, 1.0 - critic, 0.0).grad, Noise(sqrt, e), k);
  }

  lemma {:induction false} FlatSums(g: seq<Edge>, node: string, ws: seq<Unit>)
    requires |ws| == |g| && forall i :: 0 <= i < |ws| ==> ws[i] == 0.0
    ensures OutSum(g, ws, node) == 0.0 && CritSum(g, ws, node) == 0.0
  {
    if g != [] { FlatSums(g[..|g|-1], node, ws[..|g|-1]); }
  }

  function FlatCritic(degree: nat, known: nat): real {
    if degree == 0 then 0.0 else Round6(Reach(degree, known))
  }

  lemma FlatCriticIs(g: seq<Edge>, node: string, ws: seq<Unit>, known: nat)
    requires |ws| == |g| && forall i :: 0 <= i < |ws| ==> ws[i] == 0.0
    ensures Critic(g, ws, node, known) == FlatCritic(Degree(g, node), known)
    ensures 0.0 <= Critic(g, ws, node, known) <= 1.0
  {
    FlatSums(g, node, ws);
    if Degree(g, node) > 0 {
      CriticIsMax(Degree(g, node), 0.0, 0.0, known);
      RoundMonotone(0.0, Reach(Degree(g, node), known), 1000000.0);
      RoundUnit(Reach(Degree(g, node), known), 1000000.0, 1000000);
      assert CriticalShare(Degree(g, node), 0.0, 0.0) == 0.0;
    }
  }

  function FlatTotal(g: seq<Edge>, known: nat, n: nat): real
    requires n <= |g|
  {
    if n == 0 then 0.0
    else FlatTotal(g, known, n-1) + GroundEnergy(g[n-1], FlatCritic(Degree(g, g[n-1].target), known))
  }

  lemma {:induction false} ColdSweep(d: Draws, k: real, g: seq<Edge>, known: nat, ws: seq<Unit>, rng: nat, n: nat)
    requires n <= |g| == |ws| && forall i :: 0 <= i < |ws| ==> ws[i] == 0.0
    requires d == Cold(d.sqrt, d.exp, k) && forall i :: 0 <= i < |g| ==> Product(Noise(d.sqrt, g[i]), k) >= 1.4
    ensures var s := SweepTo(g, known, PROBE, 1.0, d, ws, rng, n);
      s.ws == ws && s.total == FlatTotal(g, known, n)
  {
    hide Decide, Critic, GroundEnergy, FlatCritic, Noise, Product;
    if n > 0 {
      ColdSweep(d, k, g, known, ws, rng, n-1);
      var s := SweepTo(g, known, PROBE, 1.0, d, ws, rng, n-1);
      FlatCriticIs(g, g[n-1].target, ws, known);
      ColdDecision(d.sqrt, d.exp, k, g[n-1], Critic(g, ws, g[n-1].target, known), s.rng);
    }
  }

  lemma FewerKnownReachMore(degree: nat, m: nat, n: nat)
    requires m <= n
    ensures Reach(degree, n) <= Reach(degree, m)
    ensures FlatCritic(degree, n) <= FlatCritic(degree, m)
  {
    QuotientAntitone(degree as real, Max(1.0, m as real), Max(1.0, n as real));
    RoundMonotone(Reach(degree, n), Reach(degree, m), 1000000.0);
  }

  lemma GroundAntitone(e: Edge, a: real, b: real)
    requires a <= b
    ensures GroundEnergy(e, b) <= GroundEnergy(e, a)
    ensures a < b ==> GroundEnergy(e, b) < GroundEnergy(e, a)
  {
    EdgeCostAtZero(e.cost);
    var u := 1.0 - EdgeCost(e.cost, 0.0).0;
    assert Product(u, 1.0 - a) == Product(u, 1.0 - b) + Product(u, b - a);
  }

  lemma {:induction false} FlatTotalsOrdered(g: seq<Edge>, m: nat, n: nat, k: nat)
    requires k <= |g| && m <= n
    ensures FlatTotal(g, m, k) <= FlatTotal(g, n, k)
    ensures (exists i :: 0 <= i < k && FlatCritic(Degree(g, g[i].target), m) != FlatCritic(Degree(g, g[i].target), n))
      ==> FlatTotal(g, m, k) < FlatTotal(g, n, k)
  {
    if k > 0 {
      FlatTotalsOrdered(g, m, n, k-1);
      var degree := Degree(g, g[k-1].target);
      FewerKnownReachMore(degree, m, n);
      GroundAntitone(g[k-1], FlatCritic(degree, n), FlatCritic(degree, m));
    }
  }

  // The cold draws for a graph with all weights at zero.
  ghost function ColdFor(sqrt: real -> real, exp: real -> real, g: seq<Edge>): Draws
    requires PositiveRoot(sqrt)
  {
    Cold(sqrt, exp, Depth(sqrt, Flat(g)))
  }

  lemma ColdAnneal(sqrt: real -> real, exp: real -> real, g: seq<Edge>, known: nat, rng: nat)
    requires PositiveRoot(sqrt)
    ensures Anneal(Flat(g), known, PROBE, ColdFor(sqrt, exp, g), rng).trace == [FlatTotal(Flat(g), known, |g|)]
  {
    hide SweepTo, Depth, Noise;
    var h := Flat(g);
    var k, d, ws := Depth(sqrt, h), ColdFor(sqrt, exp, g), Confidences(h);
    forall i | 0 <= i < |h| ensures Product(Noise(d.sqrt, h[i]), k) >= 1.4 { DepthOutweighs(sqrt, h, i); }
    ColdSweep(d, k, h, known, ws, rng, |h|);
    var s := SweepTo(h, known, PROBE, 1.0, d, ws, rng, |h|);
    IterateStep(h, known, PROBE, d, ws, rng, 1.0, None, [], s);
    assert [] + [s.total] == [s.total];
  }

  // Where the reach terms differ, the kernels already part on the graph's own edges, with
  // all weights at zero: whatever the square root and the exponential are.
  lemma ProbeTellsApart(sqrt: real -> real, exp: real -> real, g: seq<Edge>, rng: nat)
    requires PositiveRoot(sqrt) && !ReachAgrees(g)
    ensures var h, d := Flat(g), ColdFor(sqrt, exp, g);
      && SameTopology(g, h) && d.sqrt == sqrt && d.exp == exp
      && Anneal(h, |Nodes(h)|, PROBE, d, rng).trace != Anneal(h, |Sources(h)|, PROBE, d, rng).trace
  {
    hide Anneal, Depth, FlatTotal, FlatCritic, Degree, Nodes, Sources;
    var h := Flat(g);
    TopologyNodes(g, h);
    var m, n := |Sources(h)|, |Nodes(h)|;
    SourcesAreNodes(h);
    Subset(Sources(h), Nodes(h));
    var i := ReachDiffers(g, h);
    FlatTotalsOrdered(h, m, n, |h|);
    ColdAnneal(sqrt, exp, g, m, rng);
    ColdAnneal(sqrt, exp, g, n, rng);
  }

  lemma SourcesAreNodes(g: seq<Edge>)
    ensures Sources(g) <= Nodes(g)
  {}

  lemma ReachDiffers(g: seq<Edge>, h: seq<Edge>) returns (i: nat)
    requires SameTopology(g, h) && !ReachAgrees(g)
    ensures i < |h|
    ensures FlatCritic(Degree(h, h[i].target), |Sources(h)|) != FlatCritic(Degree(h, h[i].target), |Nodes(h)|)
  {
    TopologyNodes(g, h);
    var e :| e in g && Degree(g, e.target) > 0
      && Round6(Reach(Degree(g, e.target), |Nodes(g)|)) != Round6(Reach(Degree(g, e.target), |Sources(g)|));
    i :| 0 <= i < |g| && g[i] == e;
    TopologyDegree(g, h, e.target);
  }

  lemma {:induction false} Subset<T>(a: set<T>, b: set<T>)
    requires a <= b
    ensures |a| <= |b|
    decreases |a|
  {
    if x :| x in a { Subset(a - {x}, b - {x}); }
  }

  // Whatever the square root and the exponential are: over every choice of weights, costs,
  // parameters and random draws, the kernels agree on a topology exactly when its reach
  // terms agree.
  lemma KernelsAgreeExactlyWhen(sqrt: real -> real, exp: real -> real, g: seq<Edge>)
    requires PositiveRoot(sqrt)
    ensures ReachAgrees(g) <==> forall h, p, d: Draws, rng :: SameTopology(g, h) && d.sqrt == sqrt && d.exp == exp ==>
      Anneal(h, |Nodes(h)|, p, d, rng) == Anneal(h, |Sources(h)|, p, d, rng)
  {
    hide Anneal, Nodes, Sources, ReachAgrees, SameTopology;
    if ReachAgrees(g) {
      forall h, p, d, rng | SameTopology(g, h)
        ensures Anneal(h, |Nodes(h)|, p, d, rng) == Anneal(h, |Sources(h)|, p, d, rng)
      {
        AgreeEverywhere(g, h, p, d, rng);
      }
    } else {
      ProbeTellsApart(sqrt, exp, g, 0);
    }
  }

  lemma AgreeEverywhere(g: seq<Edge>, h: seq<Edge>, p: Params, d: Draws, rng: nat)
    requires SameTopology(g, h) && ReachAgrees(g)
    ensures Anneal(h, |Nodes(h)|, p, d, rng) == Anneal(h, |Sources(h)|, p, d, rng)
  {
    TopologyReach(g, h);
    IterateAgrees(h, p, d, Confidences(h), rng, Max(p.tMin, p.tInit), None, []);
  }
}
