// The confidence and the impact that diffusion reports, as sums over routes: what a node
// holds is what all the routes to it carry, as long as no sum is capped (retro_causal_edge.py).
module RouteSums {
  import opened Diffusion
  import opened Reals
  import opened RelationGraph

  // ------------------------------------------------------ every route, once each

  // The routes that continue es by one of the first k edges of its end. An edge that is
  // listed twice gives two routes.
  function Continue(adj: Graph, start: string, es: seq<EdgeInfo>, k: nat): seq<seq<EdgeInfo>>
    requires k <= |Edges(adj, End(start, es))|
  {
    if k == 0 then []
    else
      var u := End(start, es);
      var e := Edges(adj, u)[k-1];
      Continue(adj, start, es, k-1) + if Admissible(start, u, e) then [es + [e]] else []
  }

  function ContinueAll(adj: Graph, start: string, routes: seq<seq<EdgeInfo>>): seq<seq<EdgeInfo>> {
    if routes == [] then []
    else
      var es := routes[|routes|-1];
      ContinueAll(adj, start, routes[..|routes|-1]) + Continue(adj, start, es, |Edges(adj, End(start, es))|)
  }

  // All routes of d edges from the start.
  function Routes(adj: Graph, start: string, d: nat): seq<seq<EdgeInfo>> {
    if d == 0 then [[]] else ContinueAll(adj, start, Routes(adj, start, d-1))
  }

  // What the routes that end in x carry together.
  function Carried(start: string, routes: seq<seq<EdgeInfo>>, x: string): real {
    if routes == [] then 0.0
    else
      var es := routes[|routes|-1];
      Carried(start, routes[..|routes|-1], x) + if End(start, es) == x then Strength(es) else 0.0
  }

  function RouteSum(adj: Graph, start: string, d: nat, x: string): real { Carried(start, Routes(adj, start, d), x) }

  lemma {:induction false} ContinueHas(adj: Graph, start: string, es: seq<EdgeInfo>, k: nat, fs: seq<EdgeInfo>)
    requires k <= |Edges(adj, End(start, es))|
    ensures fs in Continue(adj, start, es, k) <==>
      && |fs| == |es| + 1 && fs[..|es|] == es && fs[|es|] in Edges(adj, End(start, es))[..k]
      && Admissible(start, End(start, es), fs[|es|])
  {
    if k > 0 {
      ContinueHas(adj, start, es, k-1, fs);
      var l := Edges(adj, End(start, es));
      assert l[..k] == l[..k-1] + [l[k-1]];
      if |fs| == |es| + 1 && fs[..|es|] == es { assert fs == es + [fs[|es|]]; }
    }
  }

  lemma {:induction false} ContinueAllHas(adj: Graph, start: string, routes: seq<seq<EdgeInfo>>, fs: seq<EdgeInfo>)
    ensures fs in ContinueAll(adj, start, routes) <==>
      && fs != [] && fs[..|fs|-1] in routes
      && fs[|fs|-1] in Edges(adj, End(start, fs[..|fs|-1])) && Admissible(start, End(start, fs[..|fs|-1]), fs[|fs|-1])
  {
    if routes != [] {
      var front, es := routes[..|routes|-1], routes[|routes|-1];
      var l := Edges(adj, End(start, es));
      ContinueAllHas(adj, start, front, fs);
      ContinueHas(adj, start, es, |l|, fs);
      assert l[..|l|] == l;
      assert routes == front + [es];
      hide Continue, ContinueAll, End, Admissible;
    }
  }

  // The enumeration lists exactly the routes of d edges.
  lemma {:induction false} RoutesHas(adj: Graph, start: string, d: nat, es: seq<EdgeInfo>)
    ensures es in Routes(adj, start, d) <==> |es| == d && IsRoute(adj, start, es)
    decreases d
  {
    hide End, Admissible, ContinueAll;
    if d > 0 {
      ContinueAllHas(adj, start, Routes(adj, start, d-1), es);
      if es != [] { RoutesHas(adj, start, d-1, es[..|es|-1]); }
    }
  }

  // ------------------------------------------------------- sums over nodes

  ghost function SumOver(us: set<string>, f: string -> real): real {
    if us == {} then 0.0
    else
      var u :| u in us;
      SumOver(us - {u}, f) + f(u)
  }

  lemma {:induction false} SumPick(us: set<string>, f: string -> real, u: string)
    requires u in us
    ensures SumOver(us, f) == SumOver(us - {u}, f) + f(u)
    decreases |us|
  {
    var v :| v in us && SumOver(us, f) == SumOver(us - {v}, f) + f(v);
    if v != u {
      SumPick(us - {v}, f, u);
      SumPick(us - {u}, f, v);
      assert us - {v} - {u} == us - {u} - {v};
    }
  }

  lemma {:induction false} SumMono(us: set<string>, f: string -> real, g: string -> real)
    requires forall u :: u in us ==> f(u) <= g(u)
    ensures SumOver(us, f) <= SumOver(us, g)
    ensures (forall u :: u in us ==> f(u) == g(u)) ==> SumOver(us, f) == SumOver(us, g)
    decreases |us|
  {
    if us != {} {
      var u :| u in us;
      SumPick(us, f, u);
      SumPick(us, g, u);
      SumMono(us - {u}, f, g);
    }
  }

  // Changing one node's term changes the sum by as much.
  lemma SumShift(us: set<string>, f: string -> real, g: string -> real, u: string)
    requires u in us && forall v :: v in us && v != u ==> f(v) == g(v)
    ensures SumOver(us, g) == SumOver(us, f) + g(u) - f(u)
  {
    SumPick(us, f, u);
    SumPick(us, g, u);
    SumMono(us - {u}, f, g);
  }

  lemma {:induction false} SumZero(us: set<string>, f: string -> real)
    requires forall u :: u in us ==> f(u) == 0.0
    ensures SumOver(us, f) == 0.0
    decreases |us|
  {
    if us != {} {
      var u :| u in us;
      SumPick(us, f, u);
      SumZero(us - {u}, f);
    }
  }

  // ------------------------------------------- what one layer passes to the next

  // The confidence of the admissible edges from u to x, over the first k listed.
  function Passage(es: seq<EdgeInfo>, start: string, u: string, x: string, k: nat): (r: real)
    requires k <= |es|
    ensures r >= 0.0
  {
    if k == 0 then 0.0
    else
      Passage(es, start, u, x, k-1) +
      if Admissible(start, u, es[k-1]) && es[k-1].target == x then es[k-1].confidence else 0.0
  }

  function Passed(adj: Graph, start: string, u: string, x: string): (r: real)
    ensures r >= 0.0
  {
    Passage(Edges(adj, u), start, u, x, |Edges(adj, u)|)
  }

  lemma {:induction false} EdgeFlowSum(es: seq<EdgeInfo>, start: string, u: string, c: Unit, x: string, k: nat)
    requires k <= |es|
    ensures EdgeFlow(es, start, u, c, x, k).sum == Product(c, Passage(es, start, u, x, k))
  {
    if k > 0 {
      EdgeFlowSum(es, start, u, c, x, k-1);
      Spread(c, Passage(es, start, u, x, k-1), es[k-1].confidence);
    }
  }

  lemma Spread(c: real, a: real, b: real)
    ensures Product(c, a + b) == Product(c, a) + Product(c, b)
    ensures Product(c, 0.0) == 0.0
  {}

  function Given(adj: Graph, start: string, layer: Layer, x: string): string -> real {
    u => if u in layer then Product(layer[u], Passed(adj, start, u, x)) else 0.0
  }

  lemma {:induction false} InFlowSum(adj: Graph, start: string, layer: Layer, us: set<string>, x: string)
    requires us <= layer.Keys
    ensures InFlow(adj, start, layer, us, x).sum == SumOver(us, Given(adj, start, layer, x))
    decreases |us|
  {
    hide EdgeFlow;
    if us != {} {
      var u :| u in us;
      InFlowPick(adj, start, layer, us, x, u);
      SumPick(us, Given(adj, start, layer, x), u);
      InFlowSum(adj, start, layer, us - {u}, x);
      EdgeFlowSum(Edges(adj, u), start, u, layer[u], x, |Edges(adj, u)|);
    }
  }

  function Owed(adj: Graph, start: string, routes: seq<seq<EdgeInfo>>, x: string): string -> real {
    u => Product(Carried(start, routes, u), Passed(adj, start, u, x))
  }

  lemma StrengthPush(start: string, es: seq<EdgeInfo>, e: EdgeInfo)
    ensures Strength(es + [e]) == Product(Strength(es), e.confidence) && End(start, es + [e]) == e.target
  {
    assert (es + [e])[..|es|] == es;
  }

  lemma {:induction false} ContinueCarries(adj: Graph, start: string, es: seq<EdgeInfo>, k: nat, x: string)
    requires k <= |Edges(adj, End(start, es))|
    ensures Carried(start, Continue(adj, start, es, k), x)
         == Product(Strength(es), Passage(Edges(adj, End(start, es)), start, End(start, es), x, k))
  {
    hide Strength, End;
    if k > 0 {
      var u := End(start, es);
      var e := Edges(adj, u)[k-1];
      ContinueCarries(adj, start, es, k-1, x);
      Spread(Strength(es), Passage(Edges(adj, u), start, u, x, k-1), e.confidence);
      if Admissible(start, u, e) {
        CarriedPush(start, Continue(adj, start, es, k-1), es + [e], x);
        StrengthPush(start, es, e);
      } else {
        assert Continue(adj, start, es, k) == Continue(adj, start, es, k-1);
      }
    }
  }

  lemma CarriedPush(start: string, routes: seq<seq<EdgeInfo>>, es: seq<EdgeInfo>, x: string)
    ensures Carried(start, routes + [es], x)
         == Carried(start, routes, x) + if End(start, es) == x then Strength(es) else 0.0
  {
    assert (routes + [es])[..|routes|] == routes;
  }

  lemma {:induction false} CarriedConcat(start: string, a: seq<seq<EdgeInfo>>, b: seq<seq<EdgeInfo>>, x: string)
    ensures Carried(start, a + b, x) == Carried(start, a, x) + Carried(start, b, x)
    decreases |b|
  {
    if b == [] {
      assert a + b == a;
    } else {
      assert (a + b)[..|a + b|-1] == a + b[..|b|-1];
      CarriedConcat(start, a, b[..|b|-1], x);
    }
  }

  // One more route adds to what its own end owes, and to nothing else.
  lemma OwedPush(adj: Graph, start: string, front: seq<seq<EdgeInfo>>, es: seq<EdgeInfo>, x: string)
    ensures var f, g, u := Owed(adj, start, front, x), Owed(adj, start, front + [es], x), End(start, es);
      && g(u) == f(u) + Product(Strength(es), Passed(adj, start, u, x))
      && forall v :: v != u ==> g(v) == f(v)
  {
    hide Carried, Passed, Strength, End;
    var u := End(start, es);
    CarriedPush(start, front, es, u);
    Spread2(Carried(start, front, u), Strength(es), Passed(adj, start, u, x));
    forall v | v != u ensures Carried(start, front + [es], v) == Carried(start, front, v) {
      CarriedPush(start, front, es, v);
    }
  }

  lemma ContinueAllPush(adj: Graph, start: string, front: seq<seq<EdgeInfo>>, es: seq<EdgeInfo>, x: string)
    ensures Carried(start, ContinueAll(adj, start, front + [es]), x)
         == Carried(start, ContinueAll(adj, start, front), x)
            + Product(Strength(es), Passed(adj, start, End(start, es), x))
  {
    var l := Edges(adj, End(start, es));
    assert (front + [es])[..|front|] == front;
    CarriedConcat(start, ContinueAll(adj, start, front), Continue(adj, start, es, |l|), x);
    ContinueCarries(adj, start, es, |l|, x);
  }

  // What the routes carry on to x is what their ends owe it, summed over the ends.
  lemma {:induction false} ContinueAllCarries(adj: Graph, start: string, routes: seq<seq<EdgeInfo>>, us: set<string>,
                                              x: string)
    requires forall es :: es in routes ==> End(start, es) in us
    ensures Carried(start, ContinueAll(adj, start, routes), x) == SumOver(us, Owed(adj, start, routes, x))
    decreases |routes|
  {
    if routes == [] {
      SumZero(us, Owed(adj, start, routes, x));
    } else {
      hide Continue, ContinueAll, Carried, Owed, Passed, End, Strength, SumOver;
      var front, es := routes[..|routes|-1], routes[|routes|-1];
      assert routes == front + [es];
      ContinueAllCarries(adj, start, front, us, x);
      ContinueAllPush(adj, start, front, es, x);
      OwedPush(adj, start, front, es, x);
      SumShift(us, Owed(adj, start, front, x), Owed(adj, start, routes, x), End(start, es));
    }
  }

  lemma Spread2(a: real, b: real, c: real)
    ensures Product(a + b, c) == Product(a, c) + Product(b, c)
  {}

  // ----------------------------------------------- layers against route sums

  ghost predicate Exact(adj: Graph, start: string, decay: real, d: nat) {
    forall x :: x in WaveAt(adj, start, decay, d).layer ==>
      WaveAt(adj, start, decay, d).layer[x] == RouteSum(adj, start, d, x)
  }

  lemma {:induction false} CarriedNonNegative(start: string, routes: seq<seq<EdgeInfo>>, x: string)
    ensures Carried(start, routes, x) >= 0.0
    ensures (forall es :: es in routes ==> End(start, es) != x) ==> Carried(start, routes, x) == 0.0
    decreases |routes|
  {
    if routes != [] {
      assert routes == routes[..|routes|-1] + [routes[|routes|-1]];
      CarriedNonNegative(start, routes[..|routes|-1], x);
    }
  }

  lemma {:induction false} RoutesEndInLayer(adj: Graph, start: string, decay: real, d: nat)
    ensures forall es :: es in Routes(adj, start, d) ==> End(start, es) in WaveAt(adj, start, decay, d).layer
  {
    hide Routes, WaveAt, End;
    forall es | es in Routes(adj, start, d) ensures End(start, es) in WaveAt(adj, start, decay, d).layer {
      RoutesHas(adj, start, d, es);
      LayerHoldsRoute(adj, start, decay, es);
    }
  }

  // What flows into x on the way to layer d + 1 is at most what the routes of d + 1 edges
  // carry to it, and exactly that where layer d holds exactly what its routes carry.
  lemma {:induction false} FlowAgainstRoutes(adj: Graph, start: string, decay: real, d: nat, x: string)
    requires forall u :: u in WaveAt(adj, start, decay, d).layer ==>
      WaveAt(adj, start, decay, d).layer[u] <= RouteSum(adj, start, d, u)
    ensures var layer := WaveAt(adj, start, decay, d).layer;
      && InFlow(adj, start, layer, layer.Keys, x).sum <= RouteSum(adj, start, d + 1, x)
      && (Exact(adj, start, decay, d) ==>
            InFlow(adj, start, layer, layer.Keys, x).sum == RouteSum(adj, start, d + 1, x))
  {
    hide WaveAt, InFlow, Carried, Passed, ContinueAll;
    var layer, routes := WaveAt(adj, start, decay, d).layer, Routes(adj, start, d);
    RoutesEndInLayer(adj, start, decay, d);
    InFlowSum(adj, start, layer, layer.Keys, x);
    ContinueAllCarries(adj, start, routes, layer.Keys, x);
    var f, g := Given(adj, start, layer, x), Owed(adj, start, routes, x);
    forall u | u in layer ensures f(u) <= g(u) && (layer[u] == RouteSum(adj, start, d, u) ==> f(u) == g(u)) {
      MulMono(Passed(adj, start, u, x), layer[u], Carried(start, routes, u));
      Swap(layer[u], Passed(adj, start, u, x));
      Swap(Carried(start, routes, u), Passed(adj, start, u, x));
    }
    SumMono(layer.Keys, f, g);
  }

  lemma Swap(a: real, b: real)
    ensures Product(a, b) == Product(b, a)
  {}

  lemma NoEdges(adj: Graph, start: string)
    ensures RouteSum(adj, start, 0, start) == 1.0
  {
    var none: seq<EdgeInfo> := [];
    assert Routes(adj, start, 0) == [none] == [] + [none];
    CarriedPush(start, [], none, start);
  }

  // A node of layer d holds at most what the routes of d edges carry to it.
  lemma {:induction false} LayerAtMostRoutes(adj: Graph, start: string, decay: real, d: nat, x: string)
    requires x in WaveAt(adj, start, decay, d).layer
    ensures WaveAt(adj, start, decay, d).layer[x] <= RouteSum(adj, start, d, x)
    decreases d, 0
  {
    hide InFlow, Absorb, Advance;
    if d == 0 {
      NoEdges(adj, start);
    } else {
      StatsStep(adj, start, decay, d, x);
      LayersBelow(adj, start, decay, d - 1);
      FlowAgainstRoutes(adj, start, decay, d - 1, x);
    }
  }

  lemma {:induction false} LayersBelow(adj: Graph, start: string, decay: real, d: nat)
    ensures forall u :: u in WaveAt(adj, start, decay, d).layer ==>
      WaveAt(adj, start, decay, d).layer[u] <= RouteSum(adj, start, d, u)
    decreases d, 1
  {
    forall u | u in WaveAt(adj, start, decay, d).layer
      ensures WaveAt(adj, start, decay, d).layer[u] <= RouteSum(adj, start, d, u)
    {
      LayerAtMostRoutes(adj, start, decay, d, u);
    }
  }

  // No node gets more than it can hold from the routes of one length, up to d edges.
  ghost predicate NeverFull(adj: Graph, start: string, d: nat) {
    forall k: nat, x :: k <= d ==> RouteSum(adj, start, k, x) <= 1.0
  }

  // Until some sum exceeds one, a node of layer d holds exactly what its routes carry.
  lemma {:induction false} LayerIsRouteSum(adj: Graph, start: string, decay: real, d: nat)
    requires NeverFull(adj, start, d)
    ensures Exact(adj, start, decay, d)
    decreases d
  {
    hide WaveAt, InFlow, Absorb, RouteSum;
    forall x | x in WaveAt(adj, start, decay, d).layer
      ensures WaveAt(adj, start, decay, d).layer[x] == RouteSum(adj, start, d, x)
    {
      if d == 0 {
        FirstLayer(adj, start, decay);
        NoEdges(adj, start);
      } else {
        LayerIsRouteSum(adj, start, decay, d - 1);
        StatsStep(adj, start, decay, d, x);
        LayersBelow(adj, start, decay, d - 1);
        FlowAgainstRoutes(adj, start, decay, d - 1, x);
      }
    }
  }

  lemma FirstLayer(adj: Graph, start: string, decay: real)
    ensures WaveAt(adj, start, decay, 0).layer == map[start := 1.0]
  {}

  // A node into which one or more flows holds exactly one.
  lemma FullNode(adj: Graph, start: string, decay: real, d: nat, x: string)
    requires var layer := WaveAt(adj, start, decay, d).layer; InFlow(adj, start, layer, layer.Keys, x).sum >= 1.0
    ensures x in WaveAt(adj, start, decay, d + 1).layer && WaveAt(adj, start, decay, d + 1).layer[x] == 1.0
  {
    hide WaveAt, InFlow, Absorb;
    StatsStep(adj, start, decay, d + 1, x);
  }

  // ------------------------------------------------------ impact, as a sum

  // What all routes of 1 to d edges contribute, each decayed once per edge.
  function Impact(adj: Graph, start: string, decay: real, d: nat, x: string): real {
    if d == 0 then 0.0
    else Impact(adj, start, decay, d - 1, x) + Product(RouteSum(adj, start, d, x), Pow(decay, d))
  }

  function ImpactOf(stats: Stats, x: string): real { if x in stats then stats[x].impact else 0.0 }

  lemma ImpactStep(adj: Graph, start: string, decay: real, d: nat, x: string)
    ensures var w := WaveAt(adj, start, decay, d);
      ImpactOf(WaveAt(adj, start, decay, d + 1).stats, x)
      == ImpactOf(w.stats, x) + Product(InFlow(adj, start, w.layer, w.layer.Keys, x).sum, Pow(decay, d + 1))
  {
    hide WaveAt, InFlow, Capped, Pow;
    StatsStep(adj, start, decay, d + 1, x);
  }

  // The impact is at most what all routes contribute, and exactly that as long as no sum
  // below the last layer exceeds one.
  lemma {:induction false} ImpactIsRouteSum(adj: Graph, start: string, decay: real, d: nat, x: string)
    requires decay >= 0.0
    ensures ImpactOf(WaveAt(adj, start, decay, d).stats, x) <= Impact(adj, start, decay, d, x)
    ensures (d > 0 ==> NeverFull(adj, start, d - 1)) ==>
      ImpactOf(WaveAt(adj, start, decay, d).stats, x) == Impact(adj, start, decay, d, x)
  {
    hide WaveAt, InFlow, RouteSum, Pow;
    if d == 0 {
      NothingAtFirst(adj, start, decay);
    } else {
      ImpactIsRouteSum(adj, start, decay, d - 1, x);
      ImpactStep(adj, start, decay, d - 1, x);
      LayersBelow(adj, start, decay, d - 1);
      FlowAgainstRoutes(adj, start, decay, d - 1, x);
      PowNonNegative(decay, d);
      var layer := WaveAt(adj, start, decay, d - 1).layer;
      var flow, sum := InFlow(adj, start, layer, layer.Keys, x).sum, RouteSum(adj, start, d, x);
      Swap(flow, Pow(decay, d));
      Swap(sum, Pow(decay, d));
      MulMono(Pow(decay, d), flow, sum);
      if NeverFull(adj, start, d - 1) { LayerIsRouteSum(adj, start, decay, d - 1); }
    }
  }

  // -------------------------------------------------- confidence, as a maximum

  // The confidence of a node is that of the strongest transition into it so far: it is
  // attained, and no transition is stronger.
  ghost predicate IsTransition(adj: Graph, start: string, decay: real, d: nat, x: string, k: nat, u: string,
                               e: EdgeInfo)
  {
    && k < d && u in WaveAt(adj, start, decay, k).layer
    && e in Edges(adj, u) && Admissible(start, u, e) && e.target == x
  }

  lemma {:induction false} BestEdge(es: seq<EdgeInfo>, start: string, u: string, c: Unit, x: string, k: nat)
    returns (j: nat)
    requires k <= |es| && EdgeFlow(es, start, u, c, x, k).hits > 0
    ensures j < k && Admissible(start, u, es[j]) && es[j].target == x
    ensures EdgeFlow(es, start, u, c, x, k).best == Times(c, es[j].confidence)
  {
    hide Times;
    var hit := Admissible(start, u, es[k-1]) && es[k-1].target == x;
    var front := EdgeFlow(es, start, u, c, x, k-1);
    if hit && (front.hits == 0 || front.best <= Times(c, es[k-1].confidence)) {
      j := k - 1;
    } else {
      j := BestEdge(es, start, u, c, x, k-1);
    }
  }

  lemma {:induction false} BestSource(adj: Graph, start: string, layer: Layer, us: set<string>, x: string)
    returns (u: string, e: EdgeInfo)
    requires us <= layer.Keys && InFlow(adj, start, layer, us, x).hits > 0
    ensures u in us && e in Edges(adj, u) && Admissible(start, u, e) && e.target == x
    ensures InFlow(adj, start, layer, us, x).best == Times(layer[u], e.confidence)
    decreases |us|
  {
    hide EdgeFlow, Times;
    u :| u in us;
    InFlowPick(adj, start, layer, us, x, u);
    var rest, own := InFlow(adj, start, layer, us - {u}, x), NodeFlow(adj, start, layer, u, x);
    if own.hits > 0 && (rest.hits == 0 || rest.best <= own.best) {
      var j := BestEdge(Edges(adj, u), start, u, layer[u], x, |Edges(adj, u)|);
      e := Edges(adj, u)[j];
    } else {
      u, e := BestSource(adj, start, layer, us - {u}, x);
    }
  }

  lemma {:induction false} ConfidenceAttained(adj: Graph, start: string, decay: real, d: nat, x: string)
    returns (k: nat, u: string, e: EdgeInfo)
    requires x in WaveAt(adj, start, decay, d).stats
    ensures IsTransition(adj, start, decay, d, x, k, u, e)
    ensures WaveAt(adj, start, decay, d).stats[x].confidence
         == Times(WaveAt(adj, start, decay, k).layer[u], e.confidence)
  {
    hide InFlow, Capped, WaveAt, Times;
    if d == 0 {
      NothingAtFirst(adj, start, decay);
    } else {
      StatsStep(adj, start, decay, d, x);
      var w := WaveAt(adj, start, decay, d - 1);
      var f := InFlow(adj, start, w.layer, w.layer.Keys, x);
      if f.hits > 0 && (x !in w.stats || w.stats[x].confidence <= f.best) {
        k := d - 1;
        u, e := BestSource(adj, start, w.layer, w.layer.Keys, x);
      } else {
        k, u, e := ConfidenceAttained(adj, start, decay, d - 1, x);
      }
    }
  }

  lemma {:induction false} ConfidenceBounds(adj: Graph, start: string, decay: real, d: nat, x: string, k: nat,
                                            u: string, e: EdgeInfo)
    requires IsTransition(adj, start, decay, d, x, k, u, e)
    ensures x in WaveAt(adj, start, decay, d).stats
    ensures WaveAt(adj, start, decay, d).stats[x].confidence
         >= Times(WaveAt(adj, start, decay, k).layer[u], e.confidence)
    decreases d
  {
    hide InFlow, Capped, WaveAt, Times;
    StatsStep(adj, start, decay, d, x);
    if k == d - 1 {
      InFlowHolds(adj, start, WaveAt(adj, start, decay, k).layer, u, e);
    } else {
      ConfidenceBounds(adj, start, decay, d - 1, x, k, u, e);
    }
  }

  // ---------------------------------------------------- nodes with one route

  lemma {:induction false} CarriedAlone(start: string, routes: seq<seq<EdgeInfo>>, es: seq<EdgeInfo>, i: nat)
    requires i < |routes| && routes[i] == es
    requires forall j :: 0 <= j < |routes| && j != i ==> End(start, routes[j]) != End(start, es)
    ensures Carried(start, routes, End(start, es)) == Strength(es)
    decreases |routes|
  {
    var n := |routes| - 1;
    var x := End(start, es);
    if i < n {
      CarriedAlone(start, routes[..n], es, i);
    } else {
      CarriedNonNegative(start, routes[..n], x);
    }
  }

  // Of all the routes of 1 to d edges, only es ends where it ends.
  ghost predicate OnlyRoute(adj: Graph, start: string, d: nat, es: seq<EdgeInfo>) {
    && 1 <= |es| <= d && IsRoute(adj, start, es)
    && (exists i :: 0 <= i < |Routes(adj, start, |es|)| && Routes(adj, start, |es|)[i] == es
          && forall j :: 0 <= j < |Routes(adj, start, |es|)| && j != i ==>
               End(start, Routes(adj, start, |es|)[j]) != End(start, es))
    && (forall fs :: 1 <= |fs| <= d && IsRoute(adj, start, fs) && End(start, fs) == End(start, es) ==> |fs| == |es|)
  }

  lemma {:induction false} NoRouteNoImpact(adj: Graph, start: string, decay: real, d: nat, m: nat, es: seq<EdgeInfo>)
    requires OnlyRoute(adj, start, m, es) && d <= m
    ensures Impact(adj, start, decay, d, End(start, es)) == if d < |es| then 0.0 else Contribution(decay, es)
  {
    hide Routes, IsRoute, End, Strength, Pow;
    if d > 0 {
      var x := End(start, es);
      NoRouteNoImpact(adj, start, decay, d - 1, m, es);
      if d == |es| {
        var i :| 0 <= i < |Routes(adj, start, d)| && Routes(adj, start, d)[i] == es
          && forall j :: 0 <= j < |Routes(adj, start, d)| && j != i ==> End(start, Routes(adj, start, d)[j]) != x;
        CarriedAlone(start, Routes(adj, start, d), es, i);
      } else {
        forall fs | fs in Routes(adj, start, d) ensures End(start, fs) != x { RoutesHas(adj, start, d, fs); }
        CarriedNonNegative(start, Routes(adj, start, d), x);
      }
    }
  }

  // Whatever is capped elsewhere, a node with a single route has its product as confidence
  // and its decayed product as impact.
  lemma SingleRoute(adj: Graph, start: string, decay: real, d: nat, es: seq<EdgeInfo>)
    requires decay >= 0.0 && OnlyRoute(adj, start, d, es)
    ensures var x, stats := End(start, es), WaveAt(adj, start, decay, d).stats;
      x in stats && stats[x].confidence == Strength(es) && stats[x].impact == Contribution(decay, es)
  {
    hide Routes, WaveAt, IsRoute, End, Strength, Impact, Carried, Times, Contribution;
    var x := End(start, es);
    StatsHoldRoute(adj, start, decay, d, es);
    ImpactIsRouteSum(adj, start, decay, d, x);
    NoRouteNoImpact(adj, start, decay, d, d, es);
    var k, u, e := ConfidenceAttained(adj, start, decay, d, x);
    TransitionCarried(adj, start, decay, d, x, k, u, e);
    var fs := LayerNodeHasRoute(adj, start, decay, k + 1, x);
    var i :| 0 <= i < |Routes(adj, start, |es|)| && Routes(adj, start, |es|)[i] == es
      && forall j :: 0 <= j < |Routes(adj, start, |es|)| && j != i ==> End(start, Routes(adj, start, |es|)[j]) != x;
    CarriedAlone(start, Routes(adj, start, |es|), es, i);
  }

  // A transition is at most what the routes of its length carry.
  lemma TransitionCarried(adj: Graph, start: string, decay: real, d: nat, x: string, k: nat, u: string, e: EdgeInfo)
    requires IsTransition(adj, start, decay, d, x, k, u, e)
    ensures x in WaveAt(adj, start, decay, k + 1).layer
    ensures Times(WaveAt(adj, start, decay, k).layer[u], e.confidence) <= RouteSum(adj, start, k + 1, x)
  {
    hide InFlow, Capped, WaveAt, Times, RouteSum;
    StatsStep(adj, start, decay, k + 1, x);
    LayersBelow(adj, start, decay, k);
    FlowAgainstRoutes(adj, start, decay, k, x);
    InFlowHolds(adj, start, WaveAt(adj, start, decay, k).layer, u, e);
  }
}
