// Layered diffusion of an effect through the relation graph (retro_causal_edge.py):
// breadth-first layers with capped sums, against walks from the start node.
module Diffusion {
  import opened Reals
  import opened RelationGraph

  datatype Stat = Stat(impact: real, pathLength: nat, confidence: Unit)

  type Layer = map<string, Unit>

  type Stats = map<string, Stat>

  // -------------------------------------------------- what flows into a node

  // How many transitions enter a node, their sum, and the strongest of them.
  type NonNegative = x: real | x >= 0.0 witness 0.0

  datatype Flow = Flow(hits: nat, sum: NonNegative, best: Unit)

  const NONE := Flow(0, 0.0, 0.0)

  function Join(f: Flow, g: Flow): (r: Flow)
    ensures (f.hits == 0 ==> f == NONE) && (g.hits == 0 ==> g == NONE) && r.hits == 0 ==> r == NONE
  {
    Flow(f.hits + g.hits, f.sum + g.sum, Max(f.best, g.best))
  }

  function Times(a: Unit, b: Unit): Unit {
    UnitProduct(a, b);
    a * b
  }

  // An edge counts unless it leads back to the start or is a self-loop.
  predicate Admissible(start: string, u: string, e: EdgeInfo) {
    e.target != start && e.target != u
  }

  // The flow into x over the first k edges of u, which holds confidence c.
  function EdgeFlow(es: seq<EdgeInfo>, start: string, u: string, c: Unit, x: string, k: nat): (f: Flow)
    requires k <= |es|
    ensures f.hits == 0 ==> f == NONE
  {
    if k == 0 then NONE
    else
      var f := EdgeFlow(es, start, u, c, x, k-1);
      if Admissible(start, u, es[k-1]) && es[k-1].target == x then
        Join(f, Flow(1, Times(c, es[k-1].confidence), Times(c, es[k-1].confidence)))
      else f
  }

  function NodeFlow(adj: Graph, start: string, layer: Layer, u: string, x: string): (f: Flow)
    requires u in layer
    ensures f.hits == 0 ==> f == NONE
  {
    EdgeFlow(Edges(adj, u), start, u, layer[u], x, |Edges(adj, u)|)
  }

  // The flow into x from a set of layer nodes, in whatever order they are taken.
  ghost function InFlow(adj: Graph, start: string, layer: Layer, us: set<string>, x: string): (f: Flow)
    requires us <= layer.Keys
    ensures f.hits == 0 ==> f == NONE
  {
    if us == {} then NONE
    else
      var u :| u in us;
      Join(InFlow(adj, start, layer, us - {u}, x), NodeFlow(adj, start, layer, u, x))
  }

  lemma JoinSwap(f: Flow, g: Flow, h: Flow)
    ensures Join(Join(f, g), h) == Join(Join(f, h), g)
  {}

  lemma {:induction false} InFlowPick(adj: Graph, start: string, layer: Layer, us: set<string>, x: string, u: string)
    requires us <= layer.Keys && u in us
    ensures InFlow(adj, start, layer, us, x)
         == Join(InFlow(adj, start, layer, us - {u}, x), NodeFlow(adj, start, layer, u, x))
    decreases |us|
  {
    hide NodeFlow, Join;
    var v :| v in us && InFlow(adj, start, layer, us, x)
                     == Join(InFlow(adj, start, layer, us - {v}, x), NodeFlow(adj, start, layer, v, x));
    if v != u {
      InFlowPick(adj, start, layer, us - {v}, x, u);
      InFlowPick(adj, start, layer, us - {u}, x, v);
      assert us - {v} - {u} == us - {u} - {v};
      JoinSwap(InFlow(adj, start, layer, us - {u} - {v}, x), NodeFlow(adj, start, layer, u, x),
          NodeFlow(adj, start, layer, v, x));
    }
  }

  // --------------------------------------------------- the wave, layer by layer

  function Pow(b: real, n: nat): real { if n == 0 then 1.0 else Product(b, Pow(b, n-1)) }

  function AddImpact(impact: real, decay: real, depth: nat, flow: real): real {
    impact + Product(flow, Pow(decay, depth))
  }

  // The statistics of a node after a layer in which the given flow entered it.
  function Absorb(before: Stats, x: string, depth: nat, decay: real, f: Flow): Stat
    requires x in before || f.hits > 0
  {
    if f.hits == 0 then before[x]
    else if x in before then
      Stat(AddImpact(before[x].impact, decay, depth, f.sum), before[x].pathLength, Max(before[x].confidence, f.best))
    else
      Stat(AddImpact(0.0, decay, depth, f.sum), depth, f.best)
  }

  function Capped(sum: NonNegative): Unit { Min(1.0, sum) }

  datatype Wave = Wave(layer: Layer, stats: Stats)

  // The wave shows node x as it is after the flow f entered it.
  ghost predicate AbsorbedAt(before: Stats, x: string, f: Flow, depth: nat, decay: real, w: Wave) {
    && (x in w.layer <==> f.hits > 0)
    && (x in w.layer ==> w.layer[x] == Capped(f.sum))
    && (x in w.stats <==> x in before || f.hits > 0)
    && (x in w.stats ==> w.stats[x] == Absorb(before, x, depth, decay, f))
  }

  // One transition into tgt, as the loop body updates the dictionaries.
  function Touch(w: Wave, tgt: string, trans: Unit, depth: nat, decay: real): Wave {
    var s := if tgt in w.stats then w.stats[tgt] else Stat(0.0, depth, trans);
    Wave(w.layer[tgt := Capped((if tgt in w.layer then w.layer[tgt] else 0.0) + trans)],
         w.stats[tgt := TouchStat(s, trans, depth, decay)])
  }

  function TouchStat(s: Stat, trans: Unit, depth: nat, decay: real): Stat {
    Stat(AddImpact(s.impact, decay, depth, trans), if depth < s.pathLength then depth else s.pathLength,
         Max(s.confidence, trans))
  }

  ghost predicate Older(before: Stats, depth: nat) {
    forall x :: x in before ==> before[x].pathLength <= depth
  }

  lemma AddImpactTwice(impact: real, decay: real, depth: nat, a: real, b: real)
    ensures AddImpact(AddImpact(impact, decay, depth, a), decay, depth, b) == AddImpact(impact, decay, depth, a + b)
  {}

  lemma AddNoImpact(impact: real, decay: real, depth: nat)
    ensures AddImpact(impact, decay, depth, 0.0) == impact
  {}

  lemma AbsorbMore(before: Stats, x: string, depth: nat, decay: real, f: Flow, trans: Unit)
    requires Older(before, depth) && (f.hits == 0 ==> f == NONE)
    ensures Absorb(before, x, depth, decay, Join(f, Flow(1, trans, trans)))
         == TouchStat(if x in before || f.hits > 0 then Absorb(before, x, depth, decay, f) else Stat(0.0, depth, trans),
                      trans, depth, decay)
  {
    hide AddImpact;
    AddImpactTwice(if x in before then before[x].impact else 0.0, decay, depth, f.sum, trans);
    if x in before { AddNoImpact(before[x].impact, decay, depth); }
  }

  lemma TouchAt(before: Stats, x: string, f: Flow, depth: nat, decay: real, w: Wave, tgt: string, trans: Unit)
    requires AbsorbedAt(before, x, f, depth, decay, w) && Older(before, depth) && (f.hits == 0 ==> f == NONE)
    ensures AbsorbedAt(before, x, if x == tgt then Join(f, Flow(1, trans, trans)) else f, depth, decay,
                       Touch(w, tgt, trans, depth, decay))
  {
    hide Absorb, TouchStat;
    AbsorbMore(before, x, depth, decay, f, trans);
  }

  // ------------------------------------------------------------- one layer

  // The flow into x once the nodes in `done` and the first k edges of u are processed.
  ghost function FlowSoFar(adj: Graph, start: string, layer: Layer, done: set<string>, u: string, k: nat,
                           x: string): (f: Flow)
    requires done <= layer.Keys && u in layer && k <= |Edges(adj, u)|
    ensures f.hits == 0 ==> f == NONE
  {
    Join(InFlow(adj, start, layer, done, x), EdgeFlow(Edges(adj, u), start, u, layer[u], x, k))
  }

  // One more edge of u.
  lemma FlowNext(adj: Graph, start: string, layer: Layer, done: set<string>, u: string, k: nat, x: string)
    requires done <= layer.Keys && u in layer && k < |Edges(adj, u)|
    ensures var e, f := Edges(adj, u)[k], FlowSoFar(adj, start, layer, done, u, k, x);
      FlowSoFar(adj, start, layer, done, u, k+1, x)
      == if Admissible(start, u, e) && e.target == x then
           Join(f, Flow(1, Times(layer[u], e.confidence), Times(layer[u], e.confidence)))
         else f
  {
    hide InFlow, Times;
    JoinThird(InFlow(adj, start, layer, done, x), EdgeFlow(Edges(adj, u), start, u, layer[u], x, k),
              Flow(1, Times(layer[u], Edges(adj, u)[k].confidence), Times(layer[u], Edges(adj, u)[k].confidence)));
  }

  lemma JoinThird(f: Flow, g: Flow, h: Flow)
    ensures Join(f, Join(g, h)) == Join(Join(f, g), h)
  {}

  ghost predicate LayerSoFar(adj: Graph, start: string, layer: Layer, before: Stats, depth: nat, decay: real,
                             done: set<string>, w: Wave)
    requires done <= layer.Keys
  {
    forall x :: AbsorbedAt(before, x, InFlow(adj, start, layer, done, x), depth, decay, w)
  }

  ghost predicate NodeSoFar(adj: Graph, start: string, layer: Layer, before: Stats, depth: nat, decay: real,
                            done: set<string>, u: string, k: nat, w: Wave)
    requires done <= layer.Keys && u in layer && k <= |Edges(adj, u)|
  {
    forall x :: AbsorbedAt(before, x, FlowSoFar(adj, start, layer, done, u, k, x), depth, decay, w)
  }

  function AfterEdge(layer: Layer, start: string, u: string, e: EdgeInfo, depth: nat, decay: real, w: Wave): Wave
    requires u in layer
  {
    if Admissible(start, u, e) then Touch(w, e.target, Times(layer[u], e.confidence), depth, decay) else w
  }

  lemma EdgeStepAt(adj: Graph, start: string, layer: Layer, before: Stats, depth: nat, decay: real,
                   done: set<string>, u: string, k: nat, w: Wave, x: string)
    requires done <= layer.Keys && u in layer && k < |Edges(adj, u)| && Older(before, depth)
    requires AbsorbedAt(before, x, FlowSoFar(adj, start, layer, done, u, k, x), depth, decay, w)
    ensures AbsorbedAt(before, x, FlowSoFar(adj, start, layer, done, u, k+1, x), depth, decay,
                       AfterEdge(layer, start, u, Edges(adj, u)[k], depth, decay, w))
  {
    hide Touch, AbsorbedAt, Times, FlowSoFar;
    var e := Edges(adj, u)[k];
    FlowNext(adj, start, layer, done, u, k, x);
    if Admissible(start, u, e) {
      TouchAt(before, x, FlowSoFar(adj, start, layer, done, u, k, x), depth, decay, w, e.target,
          Times(layer[u], e.confidence));
    }
  }

  lemma EdgeStep(adj: Graph, start: string, layer: Layer, before: Stats, depth: nat, decay: real,
                 done: set<string>, u: string, k: nat, w: Wave)
    requires done <= layer.Keys && u in layer && k < |Edges(adj, u)| && Older(before, depth)
    requires NodeSoFar(adj, start, layer, before, depth, decay, done, u, k, w)
    ensures NodeSoFar(adj, start, layer, before, depth, decay, done, u, k+1,
                      AfterEdge(layer, start, u, Edges(adj, u)[k], depth, decay, w))
  {
    hide AfterEdge, AbsorbedAt, FlowSoFar;
    var next := AfterEdge(layer, start, u, Edges(adj, u)[k], depth, decay, w);
    var k1: nat := k + 1;
    forall x ensures AbsorbedAt(before, x, FlowSoFar(adj, start, layer, done, u, k1, x), depth, decay, next) {
      EdgeStepAt(adj, start, layer, before, depth, decay, done, u, k, w, x);
    }
  }

  lemma NodeStart(adj: Graph, start: string, layer: Layer, before: Stats, depth: nat, decay: real, done: set<string>,
                  u: string, w: Wave)
    requires done <= layer.Keys && u in layer && LayerSoFar(adj, start, layer, before, depth, decay, done, w)
    ensures NodeSoFar(adj, start, layer, before, depth, decay, done, u, 0, w)
  {
    hide AbsorbedAt, InFlow, Times;
    forall x ensures AbsorbedAt(before, x, FlowSoFar(adj, start, layer, done, u, 0, x), depth, decay, w) {
      assert AbsorbedAt(before, x, InFlow(adj, start, layer, done, x), depth, decay, w);
      assert FlowSoFar(adj, start, layer, done, u, 0, x) == InFlow(adj, start, layer, done, x);
    }
  }

  lemma NodeEnd(adj: Graph, start: string, layer: Layer, before: Stats, depth: nat, decay: real, done: set<string>,
                u: string, w: Wave)
    requires done <= layer.Keys && u in layer.Keys - done
    requires NodeSoFar(adj, start, layer, before, depth, decay, done, u, |Edges(adj, u)|, w)
    ensures LayerSoFar(adj, start, layer, before, depth, decay, done + {u}, w)
  {
    hide AbsorbedAt, InFlow, Times, EdgeFlow;
    forall x ensures AbsorbedAt(before, x, InFlow(adj, start, layer, done + {u}, x), depth, decay, w) {
      InFlowPick(adj, start, layer, done + {u}, x, u);
      assert done + {u} - {u} == done;
      assert AbsorbedAt(before, x, FlowSoFar(adj, start, layer, done, u, |Edges(adj, u)|, x), depth, decay, w);
    }
  }

  // Everything that leaves one node of the current layer.
  method DiffuseNode(adj: Graph, start: string, layer: Layer, before: Stats, depth: nat, decay: real,
                     ghost done: set<string>, u: string, w0: Wave, reached0: nat)
    returns (w: Wave, reached: nat)
    requires done <= layer.Keys && u in layer.Keys - done && Older(before, depth) && reached0 <= depth
    requires LayerSoFar(adj, start, layer, before, depth, decay, done, w0) && (w0.layer != map[] ==> reached0 == depth)
    ensures LayerSoFar(adj, start, layer, before, depth, decay, done + {u}, w)
    ensures w0.layer.Keys <= w.layer.Keys && reached == if w.layer == map[] then reached0 else depth
  {
    hide AbsorbedAt, FlowSoFar, InFlow, Times, Capped, TouchStat;
    w, reached := w0, reached0;
    NodeStart(adj, start, layer, before, depth, decay, done, u, w);
    var es := Edges(adj, u);
    for k := 0 to |es|
      invariant NodeSoFar(adj, start, layer, before, depth, decay, done, u, k, w)
      invariant w0.layer.Keys <= w.layer.Keys && reached == if w.layer == map[] then reached0 else depth
    {
      EdgeStep(adj, start, layer, before, depth, decay, done, u, k, w);
      var e := es[k];
      if e.target == start || e.target == u { continue; }
      reached := if reached >= depth then reached else depth;
      w := Touch(w, e.target, Times(layer[u], e.confidence), depth, decay);
      assert e.target in w.layer;
    }
    NodeEnd(adj, start, layer, before, depth, decay, done, u, w);
  }

  method DiffuseLayer(adj: Graph, start: string, layer: Layer, before: Stats, depth: nat, decay: real, reached0: nat)
    returns (w: Wave, reached: nat)
    requires Older(before, depth) && reached0 <= depth
    ensures LayerSoFar(adj, start, layer, before, depth, decay, layer.Keys, w)
    ensures reached == if w.layer == map[] then reached0 else depth
  {
    w, reached := Wave(map[], before), reached0;
    var remaining := layer.Keys;
    assert layer.Keys - remaining == {};
    while remaining != {}
      invariant remaining <= layer.Keys
      invariant LayerSoFar(adj, start, layer, before, depth, decay, layer.Keys - remaining, w)
      invariant reached == if w.layer == map[] then reached0 else depth
    {
      var u :| u in remaining;
      ghost var done := layer.Keys - remaining;
      w, reached := DiffuseNode(adj, start, layer, before, depth, decay, done, u, w, reached);
      remaining := remaining - {u};
      assert layer.Keys - remaining == done + {u};
    }
    assert layer.Keys - remaining == layer.Keys;
  }

  // --------------------------------------------------------- the whole wave

  ghost function Targets(adj: Graph): set<string> {
    set u, i | u in adj && 0 <= i < |adj[u]| :: adj[u][i].target
  }

  lemma {:induction false} EdgeHit(es: seq<EdgeInfo>, start: string, u: string, c: Unit, x: string, k: nat)
    returns (j: nat)
    requires k <= |es| && EdgeFlow(es, start, u, c, x, k).hits > 0
    ensures j < k && Admissible(start, u, es[j]) && es[j].target == x
  {
    if Admissible(start, u, es[k-1]) && es[k-1].target == x {
      j := k - 1;
    } else {
      j := EdgeHit(es, start, u, c, x, k-1);
    }
  }

  // A node that is entered is entered by some edge of some layer node.
  lemma {:induction false} HitSource(adj: Graph, start: string, layer: Layer, us: set<string>, x: string)
    returns (u: string, e: EdgeInfo)
    requires us <= layer.Keys && InFlow(adj, start, layer, us, x).hits > 0
    ensures u in us && e in Edges(adj, u) && Admissible(start, u, e) && e.target == x
    decreases |us|
  {
    u :| u in us;
    InFlowPick(adj, start, layer, us, x, u);
    if NodeFlow(adj, start, layer, u, x).hits > 0 {
      var j := EdgeHit(Edges(adj, u), start, u, layer[u], x, |Edges(adj, u)|);
      e := Edges(adj, u)[j];
    } else {
      u, e := HitSource(adj, start, layer, us - {u}, x);
    }
  }

  ghost function Heads(adj: Graph, start: string, layer: Layer): (r: set<string>)
    ensures forall x :: x in r <==> InFlow(adj, start, layer, layer.Keys, x).hits > 0
  {
    var r := set x | x in Targets(adj) && InFlow(adj, start, layer, layer.Keys, x).hits > 0;
    assert forall x :: InFlow(adj, start, layer, layer.Keys, x).hits > 0 ==> x in r by {
      forall x | InFlow(adj, start, layer, layer.Keys, x).hits > 0 ensures x in r {
        var u, e := HitSource(adj, start, layer, layer.Keys, x);
        var i :| 0 <= i < |adj[u]| && adj[u][i] == e;
      }
    }
    r
  }

  // The wave one layer further.
  ghost function Advance(adj: Graph, start: string, w: Wave, depth: nat, decay: real): Wave {
    var flow := x => InFlow(adj, start, w.layer, w.layer.Keys, x);
    Wave(map x | x in Heads(adj, start, w.layer) :: Capped(flow(x).sum),
         map x | x in w.stats.Keys + Heads(adj, start, w.layer) :: Absorb(w.stats, x, depth, decay, flow(x)))
  }

  ghost function WaveAt(adj: Graph, start: string, decay: real, d: nat): Wave {
    if d == 0 then Wave(map[start := 1.0], map[])
    else Advance(adj, start, WaveAt(adj, start, decay, d-1), d, decay)
  }

  // The deepest layer, up to d, that still holds a node.
  ghost function Deepest(adj: Graph, start: string, decay: real, d: nat): nat {
    if d == 0 then 0
    else if WaveAt(adj, start, decay, d).layer != map[] then d
    else Deepest(adj, start, decay, d-1)
  }

  lemma LayerIsAdvance(adj: Graph, start: string, prev: Wave, depth: nat, decay: real, w: Wave)
    requires LayerSoFar(adj, start, prev.layer, prev.stats, depth, decay, prev.layer.Keys, w)
    ensures w == Advance(adj, start, prev, depth, decay)
  {
    hide InFlow, Absorb, Capped;
    var r := Advance(adj, start, prev, depth, decay);
    forall x
      ensures (x in w.layer <==> x in r.layer) && (x in w.layer ==> w.layer[x] == r.layer[x])
      ensures (x in w.stats <==> x in r.stats) && (x in w.stats ==> w.stats[x] == r.stats[x])
    {
      assert AbsorbedAt(prev.stats, x, InFlow(adj, start, prev.layer, prev.layer.Keys, x), depth, decay, w);
    }
    assert w.layer == r.layer;
    assert w.stats == r.stats;
  }

  lemma {:induction false} WaveOlder(adj: Graph, start: string, decay: real, d: nat)
    ensures Older(WaveAt(adj, start, decay, d).stats, d)
  {
    hide InFlow, Capped;
    if d > 0 { WaveOlder(adj, start, decay, d-1); }
  }

  // Once a layer is empty nothing changes any more.
  lemma {:induction false} WaveStalled(adj: Graph, start: string, decay: real, d: nat, k: nat)
    requires d <= k && WaveAt(adj, start, decay, d).layer == map[]
    ensures WaveAt(adj, start, decay, k) == WaveAt(adj, start, decay, d)
    ensures Deepest(adj, start, decay, k) == Deepest(adj, start, decay, d)
    decreases k
  {
    hide Advance, InFlow, Absorb;
    if d < k {
      WaveStalled(adj, start, decay, d, k-1);
      var prev := WaveAt(adj, start, decay, k-1);
      StalledStep(adj, start, prev, k, decay);
    }
  }

  lemma StalledStep(adj: Graph, start: string, w: Wave, depth: nat, decay: real)
    requires w.layer == map[]
    ensures Advance(adj, start, w, depth, decay) == w
  {
    var r := Advance(adj, start, w, depth, decay);
    forall x ensures InFlow(adj, start, w.layer, w.layer.Keys, x) == NONE {}
    assert r.layer == map[];
    assert r.stats == w.stats;
  }

  function SafeDepth(maxDepth: int): (d: nat)
    ensures d >= 1 && d >= maxDepth && (d == 1 || d == maxDepth)
  {
    if maxDepth > 1 then maxDepth else 1
  }

  method Diffuse(rs: seq<Relation>, isPii: string -> bool, start: string, maxDepth: int, decayFactor: real)
    returns (stats: Stats, reached: nat)
    ensures var adj, decay := Adjacency(rs, isPii), Max(0.0, Min(1.0, decayFactor));
      && stats == WaveAt(adj, start, decay, SafeDepth(maxDepth)).stats
      && reached == Deepest(adj, start, decay, SafeDepth(maxDepth))
  {
    hide Advance, Absorb, InFlow;
    var depth, decay := SafeDepth(maxDepth), Max(0.0, Min(1.0, decayFactor));
    var adj := BuildAdjacency(rs, isPii);
    var layer: Layer := map[start := 1.0];
    stats, reached := map[], 0;
    for d := 1 to depth + 1
      invariant WaveAt(adj, start, decay, d-1) == Wave(layer, stats)
      invariant reached == Deepest(adj, start, decay, d-1) && reached <= d
    {
      WaveOlder(adj, start, decay, d-1);
      var w, r := DiffuseLayer(adj, start, layer, stats, d, decay, reached);
      LayerIsAdvance(adj, start, Wave(layer, stats), d, decay, w);
      stats, reached := w.stats, r;
      if w.layer == map[] {
        WaveStalled(adj, start, decay, d, depth);
        return;
      }
      layer := w.layer;
    }
  }

  // ----------------------------------------------------- what the wave means

  function End(start: string, es: seq<EdgeInfo>): string {
    if es == [] then start else es[|es|-1].target
  }

  // A chain of edges from the start that never returns to it and takes no self-loop.
  ghost predicate IsRoute(adj: Graph, start: string, es: seq<EdgeInfo>) {
    es == [] ||
    (var front, e := es[..|es|-1], es[|es|-1];
     IsRoute(adj, start, front) && e in Edges(adj, End(start, front)) && Admissible(start, End(start, front), e))
  }

  function Strength(es: seq<EdgeInfo>): Unit {
    if es == [] then 1.0 else Times(Strength(es[..|es|-1]), es[|es|-1].confidence)
  }

  lemma {:induction false} EdgeFlowHolds(es: seq<EdgeInfo>, start: string, u: string, c: Unit, x: string, k: nat,
                                         j: nat)
    requires j < k <= |es| && Admissible(start, u, es[j]) && es[j].target == x
    ensures var f := EdgeFlow(es, start, u, c, x, k);
      f.hits > 0 && f.sum >= Times(c, es[j].confidence) && f.best >= Times(c, es[j].confidence)
  {
    hide Times;
    if j < k - 1 { EdgeFlowHolds(es, start, u, c, x, k-1, j); }
  }

  lemma InFlowHolds(adj: Graph, start: string, layer: Layer, u: string, e: EdgeInfo)
    requires u in layer && e in Edges(adj, u) && Admissible(start, u, e)
    ensures var f, t := InFlow(adj, start, layer, layer.Keys, e.target), Times(layer[u], e.confidence);
      f.hits > 0 && f.sum >= t && f.best >= t
  {
    hide Times, InFlow;
    var j :| 0 <= j < |Edges(adj, u)| && Edges(adj, u)[j] == e;
    EdgeFlowHolds(Edges(adj, u), start, u, layer[u], e.target, |Edges(adj, u)|, j);
    InFlowPick(adj, start, layer, layer.Keys, e.target, u);
  }

  lemma TimesMono(a: Unit, b: Unit, c: Unit)
    requires a <= b
    ensures Times(a, c) <= Times(b, c)
  {
    MulMono(c, a, b);
  }

  // What one more layer does to a node's statistics.
  lemma StatsStep(adj: Graph, start: string, decay: real, d: nat, x: string)
    requires d > 0
    ensures var w, v := WaveAt(adj, start, decay, d-1), WaveAt(adj, start, decay, d);
      && (x in v.stats <==> x in w.stats || x in v.layer)
      && (x in v.stats ==> v.stats[x] == Absorb(w.stats, x, d, decay, InFlow(adj, start, w.layer, w.layer.Keys, x)))
      && (x in v.layer <==> InFlow(adj, start, w.layer, w.layer.Keys, x).hits > 0)
      && (x in v.layer ==> v.layer[x] == Capped(InFlow(adj, start, w.layer, w.layer.Keys, x).sum))
  {
    hide InFlow, Absorb, Capped;
  }

  // Layer d holds exactly the ends of the routes of d edges, each at least as confident
  // as its strongest such route.
  lemma {:induction false} LayerHoldsRoute(adj: Graph, start: string, decay: real, es: seq<EdgeInfo>)
    requires IsRoute(adj, start, es)
    ensures var layer := WaveAt(adj, start, decay, |es|).layer;
      End(start, es) in layer && layer[End(start, es)] >= Strength(es)
    decreases |es|
  {
    hide Times, InFlow, Absorb, Advance;
    if es != [] {
      StatsStep(adj, start, decay, |es|, End(start, es));
      var front, e := es[..|es|-1], es[|es|-1];
      var u, layer := End(start, front), WaveAt(adj, start, decay, |es|-1).layer;
      LayerHoldsRoute(adj, start, decay, front);
      InFlowHolds(adj, start, layer, u, e);
      TimesMono(Strength(front), layer[u], e.confidence);
    }
  }

  lemma {:induction false} LayerNodeHasRoute(adj: Graph, start: string, decay: real, d: nat, x: string)
    returns (es: seq<EdgeInfo>)
    requires x in WaveAt(adj, start, decay, d).layer
    ensures |es| == d && IsRoute(adj, start, es) && End(start, es) == x
  {
    hide InFlow, Absorb, Capped, Advance;
    if d == 0 {
      es := [];
    } else {
      StatsStep(adj, start, decay, d, x);
      var layer := WaveAt(adj, start, decay, d-1).layer;
      var u, e := HitSource(adj, start, layer, layer.Keys, x);
      var front := LayerNodeHasRoute(adj, start, decay, d-1, u);
      es := front + [e];
      assert es[..|es|-1] == front;
    }
  }

  lemma {:induction false} RouteReported(adj: Graph, start: string, decay: real, d: nat, es: seq<EdgeInfo>)
    requires 1 <= |es| <= d && IsRoute(adj, start, es)
    ensures End(start, es) in WaveAt(adj, start, decay, d).stats
  {
    hide Absorb, Advance, WaveAt, IsRoute;
    StatsStep(adj, start, decay, d, End(start, es));
    if |es| == d {
      LayerHoldsRoute(adj, start, decay, es);
    } else {
      RouteReported(adj, start, decay, d-1, es);
    }
  }

  lemma {:induction false} ReportedHasRoute(adj: Graph, start: string, decay: real, d: nat, x: string)
    returns (es: seq<EdgeInfo>)
    requires x in WaveAt(adj, start, decay, d).stats
    ensures 1 <= |es| <= d && IsRoute(adj, start, es) && End(start, es) == x
  {
    hide Absorb, Advance, WaveAt, IsRoute;
    if d == 0 {
      NothingAtFirst(adj, start, decay);
    } else {
      StatsStep(adj, start, decay, d, x);
      if x in WaveAt(adj, start, decay, d).layer {
        es := LayerNodeHasRoute(adj, start, decay, d, x);
      } else {
        es := ReportedHasRoute(adj, start, decay, d-1, x);
      }
    }
  }

  // The reported nodes are exactly the ends of the routes of 1 to d edges.
  lemma {:induction false} ReportedExactly(adj: Graph, start: string, decay: real, d: nat, x: string)
    ensures x in WaveAt(adj, start, decay, d).stats
      <==> exists es :: 1 <= |es| <= d && IsRoute(adj, start, es) && End(start, es) == x
  {
    if x in WaveAt(adj, start, decay, d).stats {
      var es := ReportedHasRoute(adj, start, decay, d, x);
    }
    if es :| 1 <= |es| <= d && IsRoute(adj, start, es) && End(start, es) == x {
      RouteReported(adj, start, decay, d, es);
    }
  }

  lemma NothingAtFirst(adj: Graph, start: string, decay: real)
    ensures WaveAt(adj, start, decay, 0).stats == map[]
  {}

  // The reported path length is the length of a shortest route.
  lemma {:induction false} PathLengthIsShortest(adj: Graph, start: string, decay: real, d: nat, x: string)
    requires x in WaveAt(adj, start, decay, d).stats
    ensures var n := WaveAt(adj, start, decay, d).stats[x].pathLength;
      && 1 <= n <= d
      && (exists es :: |es| == n && IsRoute(adj, start, es) && End(start, es) == x)
      && (forall es :: 1 <= |es| && IsRoute(adj, start, es) && End(start, es) == x ==> n <= |es|)
  {
    hide InFlow, AddImpact, Advance;
    if d > 0 {
      StatsStep(adj, start, decay, d, x);
      if x in WaveAt(adj, start, decay, d-1).stats {
        PathLengthIsShortest(adj, start, decay, d-1, x);
      } else {
        var es := LayerNodeHasRoute(adj, start, decay, d, x);
        forall fs | 1 <= |fs| && IsRoute(adj, start, fs) && End(start, fs) == x ensures d <= |fs| {
          ReportedExactly(adj, start, decay, d-1, x);
        }
      }
    }
  }

  function Contribution(decay: real, es: seq<EdgeInfo>): real { Product(Strength(es), Pow(decay, |es|)) }

  lemma {:induction false} PowNonNegative(b: real, n: nat)
    requires b >= 0.0
    ensures Pow(b, n) >= 0.0
  {
    if n > 0 { PowNonNegative(b, n-1); }
  }

  lemma AddImpactGrows(impact: real, decay: real, depth: nat, flow: NonNegative, part: Unit)
    requires decay >= 0.0 && part <= flow
    ensures AddImpact(impact, decay, depth, flow) >= impact + Product(part, Pow(decay, depth))
    ensures Product(part, Pow(decay, depth)) >= 0.0
  {
    PowNonNegative(decay, depth);
    var p := Pow(decay, depth);
    assert Product(flow, p) == Product(part, p) + Product(flow - part, p);
  }

  // A reported node's confidence is at least the confidence product of every route to it,
  // and its impact at least that route's decayed product.
  lemma {:induction false} StatsHoldRoute(adj: Graph, start: string, decay: real, d: nat, es: seq<EdgeInfo>)
    requires 1 <= |es| <= d && IsRoute(adj, start, es) && decay >= 0.0
    ensures var x, stats := End(start, es), WaveAt(adj, start, decay, d).stats;
      x in stats && stats[x].confidence >= Strength(es) && stats[x].impact >= Contribution(decay, es)
  {
    hide InFlow, AddImpact, Advance, Product, Times;
    var x := End(start, es);
    var w := WaveAt(adj, start, decay, d-1);
    StatsStep(adj, start, decay, d, x);
    var f := InFlow(adj, start, w.layer, w.layer.Keys, x);
    if |es| < d {
      StatsHoldRoute(adj, start, decay, d-1, es);
      AddImpactGrows(w.stats[x].impact, decay, d, f.sum, 0.0);
    } else {
      LayerHoldsRoute(adj, start, decay, es);
      LastEdgeFlows(adj, start, decay, es);
      var base := if x in w.stats then w.stats[x].impact else 0.0;
      ImpactNonNegative(adj, start, decay, d-1, x);
      AddImpactGrows(base, decay, d, f.sum, Strength(es));
    }
  }

  lemma LastEdgeFlows(adj: Graph, start: string, decay: real, es: seq<EdgeInfo>)
    requires 1 <= |es| && IsRoute(adj, start, es)
    ensures var layer := WaveAt(adj, start, decay, |es|-1).layer;
      var f := InFlow(adj, start, layer, layer.Keys, End(start, es));
      f.hits > 0 && f.sum >= Strength(es) && f.best >= Strength(es)
  {
    hide Times, InFlow, Absorb, Advance;
    var front, e := es[..|es|-1], es[|es|-1];
    var u, layer := End(start, front), WaveAt(adj, start, decay, |es|-1).layer;
    LayerHoldsRoute(adj, start, decay, front);
    InFlowHolds(adj, start, layer, u, e);
    TimesMono(Strength(front), layer[u], e.confidence);
  }

  lemma {:induction false} ImpactNonNegative(adj: Graph, start: string, decay: real, d: nat, x: string)
    requires decay >= 0.0
    ensures x in WaveAt(adj, start, decay, d).stats ==> WaveAt(adj, start, decay, d).stats[x].impact >= 0.0
  {
    hide InFlow, AddImpact, Advance;
    if d > 0 && x in WaveAt(adj, start, decay, d).stats {
      var w := WaveAt(adj, start, decay, d-1);
      StatsStep(adj, start, decay, d, x);
      ImpactNonNegative(adj, start, decay, d-1, x);
      AddImpactGrows(if x in w.stats then w.stats[x].impact else 0.0, decay, d,
                     InFlow(adj, start, w.layer, w.layer.Keys, x).sum, 0.0);
    }
  }

  // --------------------------------------------- routes and plain distance

  ghost predicate IsChain(adj: Graph, start: string, es: seq<EdgeInfo>) {
    es == [] ||
    (var front, e := es[..|es|-1], es[|es|-1];
     IsChain(adj, start, front) && e in Edges(adj, End(start, front)))
  }

  // Skipping returns to the start and self-loops loses no distance: every chain of edges
  // to another node can be replaced by a route that is no longer.
  lemma {:induction false} ChainToRoute(adj: Graph, start: string, es: seq<EdgeInfo>) returns (rs: seq<EdgeInfo>)
    requires IsChain(adj, start, es) && End(start, es) != start
    ensures 1 <= |rs| <= |es| && IsRoute(adj, start, rs) && End(start, rs) == End(start, es)
    decreases |es|
  {
    var front, e := es[..|es|-1], es[|es|-1];
    var u := End(start, front);
    if u == start {
      rs := [e];
      assert rs[..0] == [] && IsRoute(adj, start, []) && End(start, []) == start;
      assert rs[|rs|-1] == e && rs[..|rs|-1] == [];
    } else {
      var gs := ChainToRoute(adj, start, front);
      if e.target == u {
        rs := gs;
      } else {
        rs := gs + [e];
        assert rs[..|gs|] == gs;
      }
    }
  }

  // The nodes reported are exactly those at distance 1 to d from the start, and the path
  // length is that distance.
  lemma ReportedByDistance(adj: Graph, start: string, decay: real, d: nat, x: string)
    ensures x in WaveAt(adj, start, decay, d).stats
      <==> x != start && exists es :: 1 <= |es| <= d && IsChain(adj, start, es) && End(start, es) == x
    ensures x in WaveAt(adj, start, decay, d).stats ==>
      forall es :: IsChain(adj, start, es) && End(start, es) == x ==>
          WaveAt(adj, start, decay, d).stats[x].pathLength <= |es|
  {
    hide WaveAt;
    ReportedExactly(adj, start, decay, d, x);
    if x in WaveAt(adj, start, decay, d).stats {
      var es :| 1 <= |es| <= d && IsRoute(adj, start, es) && End(start, es) == x;
      RouteIsChain(adj, start, es);
      PathLengthIsShortest(adj, start, decay, d, x);
    }
    forall es | IsChain(adj, start, es) && End(start, es) == x && x != start
      ensures exists rs :: 1 <= |rs| <= |es| && IsRoute(adj, start, rs) && End(start, rs) == x
    {
      var rs := ChainToRoute(adj, start, es);
    }
  }

  lemma {:induction false} RouteIsChain(adj: Graph, start: string, es: seq<EdgeInfo>)
    requires IsRoute(adj, start, es)
    ensures IsChain(adj, start, es) && (es != [] ==> End(start, es) != start)
  {
    if es != [] { RouteIsChain(adj, start, es[..|es|-1]); }
  }
}
