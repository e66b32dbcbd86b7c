// "What happens if": the backtracking enumeration of causal paths in
// retro_causal_edge.py, against simple paths of the relation graph.
module WhatIf {
  import opened Reals
  import opened RelationGraph
  import opened Rounding

  datatype Step = Step(source: string, relation: string, target: string, confidence: Unit)

  datatype Triple = Triple(source: string, relation: string, target: string)

  datatype Path = Path(root: string, steps: seq<Step>, target: string, confidence: real)

  // ------------------------------------------------------------ simple paths

  function TripleOf(u: string, e: EdgeInfo): Triple { Triple(u, e.relation, e.target) }

  predicate IsEdge(adj: Graph, isPii: string -> bool, t: Triple) {
    !isPii(t.target) && exists j :: 0 <= j < |Edges(adj, t.source)| && TripleOf(t.source, Edges(adj, t.source)[j]) == t
  }

  function End(root: string, s: seq<Triple>): string {
    if s == [] then root else s[|s|-1].target
  }

  function NodesOf(root: string, s: seq<Triple>): set<string> {
    if s == [] then {root} else NodesOf(root, s[..|s|-1]) + {s[|s|-1].target}
  }

  // A chain of edges from the root that never visits a node twice.
  ghost predicate IsSimplePath(adj: Graph, isPii: string -> bool, root: string, s: seq<Triple>) {
    s == [] ||
    (var front, t := s[..|s|-1], s[|s|-1];
     && IsSimplePath(adj, isPii, root, front)
     && IsEdge(adj, isPii, t) && t.source == End(root, front) && t.target !in NodesOf(root, front))
  }

  // s is a simple path of at most `depth` edges that properly extends `front`.
  ghost predicate Extends(adj: Graph, isPii: string -> bool, depth: int, root: string, front: seq<Triple>,
                          s: seq<Triple>)
  {
    && |front| < |s| <= depth && s[..|front|] == front
    && IsSimplePath(adj, isPii, root, s)
  }

  lemma {:induction false} PrefixSimple(adj: Graph, isPii: string -> bool, root: string, s: seq<Triple>, k: nat)
    requires k <= |s| && IsSimplePath(adj, isPii, root, s)
    ensures IsSimplePath(adj, isPii, root, s[..k])
  {
    if k < |s| {
      PrefixSimple(adj, isPii, root, s[..|s|-1], k);
      assert s[..|s|-1][..k] == s[..k];
    } else {
      assert s[..k] == s;
    }
  }

  // The edge by which a longer path leaves `front`.
  lemma NextStep(adj: Graph, isPii: string -> bool, depth: int, root: string, front: seq<Triple>, s: seq<Triple>)
    requires Extends(adj, isPii, depth, root, front, s)
    ensures IsEdge(adj, isPii, s[|front|]) && s[|front|].source == End(root, front)
    ensures s[|front|].target !in NodesOf(root, front) && s[..|front|+1] == front + [s[|front|]]
  {
    PrefixSimple(adj, isPii, root, s, |front|+1);
    assert s[..|front|+1][..|front|] == front;
  }

  // Continuing through t means ending with t or extending the path that ends with t.
  lemma StepSplit(adj: Graph, isPii: string -> bool, depth: int, root: string, front: seq<Triple>, t: Triple,
                  s: seq<Triple>)
    requires IsSimplePath(adj, isPii, root, front + [t]) && |front| < depth
    ensures (Extends(adj, isPii, depth, root, front, s) && s[|front|] == t)
      <==> (s == front + [t] || Extends(adj, isPii, depth, root, front + [t], s))
  {
    if Extends(adj, isPii, depth, root, front + [t], s) {
      assert s[..|front|+1][..|front|] == s[..|front|];
      assert s[|front|] == s[..|front|+1][|front|];
    }
    if Extends(adj, isPii, depth, root, front, s) && s[|front|] == t {
      assert s[..|front|+1] == front + [t];
      if |s| == |front| + 1 { assert s[..|front|+1] == s; }
    }
  }

  // ------------------------------------------------------- path confidence

  function SignatureOf(steps: seq<Step>): seq<Triple> {
    seq(|steps|, i requires 0 <= i < |steps| => Triple(steps[i].source, steps[i].relation, steps[i].target))
  }

  // The running product of the source, rounded to four places after every edge.
  function Scale(c: real, confidence: Unit): real { Round4(c * confidence) }

  function ConfidenceOf(steps: seq<Step>): real {
    if steps == [] then 1.0 else Scale(ConfidenceOf(steps[..|steps|-1]), steps[|steps|-1].confidence)
  }

  // The step carries the confidence of the first edge listed for its triple.
  ghost predicate IsFirst(adj: Graph, st: Step) {
    exists j :: 0 <= j < |Edges(adj, st.source)|
      && Edges(adj, st.source)[j] == EdgeInfo(st.target, st.relation, st.confidence)
      && forall i :: 0 <= i < j ==>
           TripleOf(st.source, Edges(adj, st.source)[i]) != Triple(st.source, st.relation, st.target)
  }

  ghost predicate AllFirst(adj: Graph, steps: seq<Step>) {
    forall i :: 0 <= i < |steps| ==> IsFirst(adj, steps[i])
  }

  ghost predicate Complete(p: Path) {
    && p.steps != [] && p.root == p.steps[0].source && p.target == p.steps[|p.steps|-1].target
    && p.confidence == ConfidenceOf(p.steps)
  }

  ghost predicate WellMade(adj: Graph, p: Path) {
    Complete(p) && AllFirst(adj, p.steps)
  }

  // ------------------------------------------------- what a traversal explores

  // Steps built from later duplicates only repeat paths that have been seen.
  ghost predicate FirstOrSeen(adj: Graph, isPii: string -> bool, depth: int, root: string, steps: seq<Step>,
                              seen: set<seq<Triple>>)
  {
    AllFirst(adj, steps) || forall s :: Extends(adj, isPii, depth, root, SignatureOf(steps), s) ==> s in seen
  }

  // `seen` has gained exactly the continuations of `front` through the first k edges.
  ghost predicate Explored(adj: Graph, isPii: string -> bool, depth: int, root: string, front: seq<Triple>,
                           seen0: set<seq<Triple>>, seen: set<seq<Triple>>, k: nat)
  {
    forall s :: s in seen <==> s in seen0 || Through(adj, isPii, depth, root, front, k, s)
  }

  ghost predicate Through(adj: Graph, isPii: string -> bool, depth: int, root: string, front: seq<Triple>, k: nat,
                          s: seq<Triple>)
  {
    && Extends(adj, isPii, depth, root, front, s)
    && exists j :: 0 <= j < k && j < |Edges(adj, End(root, front))|
         && s[|front|] == TripleOf(End(root, front), Edges(adj, End(root, front))[j])
  }

  ghost predicate Added(adj: Graph, isPii: string -> bool, depth: int, root: string, front: seq<Triple>,
                        seen0: set<seq<Triple>>, seen: set<seq<Triple>>)
  {
    forall s :: s in seen <==> s in seen0 || Extends(adj, isPii, depth, root, front, s)
  }

  lemma ThroughNext(adj: Graph, isPii: string -> bool, depth: int, root: string, front: seq<Triple>, k: nat,
                    s: seq<Triple>)
    requires k < |Edges(adj, End(root, front))|
    ensures Through(adj, isPii, depth, root, front, k+1, s)
      <==> (|| Through(adj, isPii, depth, root, front, k, s)
            || (&& Extends(adj, isPii, depth, root, front, s)
                && s[|front|] == TripleOf(End(root, front), Edges(adj, End(root, front))[k])))
  {
    hide IsSimplePath, End, TripleOf;
  }

  lemma ExploredSkip(adj: Graph, isPii: string -> bool, depth: int, root: string, front: seq<Triple>,
                     seen0: set<seq<Triple>>, seen: set<seq<Triple>>, k: nat)
    requires k < |Edges(adj, End(root, front))| && Explored(adj, isPii, depth, root, front, seen0, seen, k)
    requires var tgt := Edges(adj, End(root, front))[k].target; isPii(tgt) || tgt in NodesOf(root, front)
    ensures Explored(adj, isPii, depth, root, front, seen0, seen, k+1)
  {
    hide Through, Extends, IsSimplePath, End;
    forall s ensures s in seen <==> s in seen0 || Through(adj, isPii, depth, root, front, k+1, s) {
      ThroughNext(adj, isPii, depth, root, front, k, s);
      if Extends(adj, isPii, depth, root, front, s) { NextStep(adj, isPii, depth, root, front, s); }
    }
  }

  lemma {:induction false} ExploredStep(adj: Graph, isPii: string -> bool, depth: int, root: string, front: seq<Triple>,
                     seen0: set<seq<Triple>>, seen1: set<seq<Triple>>, seen2: set<seq<Triple>>, k: nat)
    requires k < |Edges(adj, End(root, front))| && |front| < depth
    requires Explored(adj, isPii, depth, root, front, seen0, seen1, k)
    requires var t := TripleOf(End(root, front), Edges(adj, End(root, front))[k]);
      IsSimplePath(adj, isPii, root, front + [t])
      && Added(adj, isPii, depth, root, front + [t], seen1 + {front + [t]}, seen2)
    ensures Explored(adj, isPii, depth, root, front, seen0, seen2, k+1)
  {
    hide Through, Extends, IsSimplePath, End, TripleOf;
    var t := TripleOf(End(root, front), Edges(adj, End(root, front))[k]);
    forall s ensures s in seen2 <==> s in seen0 || Through(adj, isPii, depth, root, front, k+1, s) {
      ThroughNext(adj, isPii, depth, root, front, k, s);
      StepSplit(adj, isPii, depth, root, front, t, s);
    }
  }

  lemma ExploredAll(adj: Graph, isPii: string -> bool, depth: int, root: string, front: seq<Triple>,
                    seen0: set<seq<Triple>>, seen: set<seq<Triple>>)
    requires Explored(adj, isPii, depth, root, front, seen0, seen, |Edges(adj, End(root, front))|)
    ensures Added(adj, isPii, depth, root, front, seen0, seen)
  {
    forall s | Extends(adj, isPii, depth, root, front, s)
      ensures Through(adj, isPii, depth, root, front, |Edges(adj, End(root, front))|, s)
    {
      NextStep(adj, isPii, depth, root, front, s);
    }
  }

  // The next edge is the first listed for its triple, or everything through it was seen.
  lemma PushFirst(adj: Graph, isPii: string -> bool, depth: int, root: string, steps: seq<Step>,
                  seen0: set<seq<Triple>>, seen: set<seq<Triple>>, k: nat, st: Step)
    requires FirstOrSeen(adj, isPii, depth, root, steps, seen0) && |steps| < depth
    requires k < |Edges(adj, End(root, SignatureOf(steps)))|
    requires Explored(adj, isPii, depth, root, SignatureOf(steps), seen0, seen, k)
    requires var e := Edges(adj, End(root, SignatureOf(steps)))[k];
      st == Step(End(root, SignatureOf(steps)), e.relation, e.target, e.confidence)
    requires IsSimplePath(adj, isPii, root, SignatureOf(steps + [st]))
    ensures SignatureOf(steps + [st]) == SignatureOf(steps) + [Triple(st.source, st.relation, st.target)]
    ensures AllFirst(adj, steps + [st]) || SignatureOf(steps + [st]) in seen
    ensures End(root, SignatureOf(steps + [st])) == st.target && (steps == [] ==> st.source == root)
    ensures FirstOrSeen(adj, isPii, depth, root, steps + [st], seen + {SignatureOf(steps + [st])})
  {
    var front, t, u := SignatureOf(steps), Triple(st.source, st.relation, st.target), End(root, SignatureOf(steps));
    assert SignatureOf(steps + [st]) == front + [t];
    if !AllFirst(adj, steps + [st]) {
      if AllFirst(adj, steps) {
        assert !IsFirst(adj, st);
        assert Edges(adj, u)[k] == EdgeInfo(st.target, st.relation, st.confidence);
        var i :| 0 <= i < k && TripleOf(u, Edges(adj, u)[i]) == t;
      }
      StepSplit(adj, isPii, depth, root, front, t, front + [t]);
      forall s | Extends(adj, isPii, depth, root, front + [t], s) ensures s in seen {
        StepSplit(adj, isPii, depth, root, front, t, s);
      }
    }
  }

  lemma PushConfidence(steps: seq<Step>, st: Step)
    ensures ConfidenceOf(steps + [st]) == Scale(ConfidenceOf(steps), st.confidence)
  {
    assert (steps + [st])[..|steps|] == steps;
  }

  lemma PushPath(adj: Graph, isPii: string -> bool, root: string, front: seq<Triple>, k: nat)
    requires IsSimplePath(adj, isPii, root, front) && k < |Edges(adj, End(root, front))|
    requires var tgt := Edges(adj, End(root, front))[k].target; !isPii(tgt) && tgt !in NodesOf(root, front)
    ensures var t := TripleOf(End(root, front), Edges(adj, End(root, front))[k]);
      IsSimplePath(adj, isPii, root, front + [t]) && NodesOf(root, front + [t]) == NodesOf(root, front) + {t.target}
  {
    var t := TripleOf(End(root, front), Edges(adj, End(root, front))[k]);
    assert (front + [t])[..|front|] == front;
  }

  // --------------------------------------------------------------- the search

  class PathSearch {
    const adj: Graph
    const isPii: string -> bool
    const depth: int
    var visited: set<string>
    var seen: set<seq<Triple>>
    var paths: seq<Path>

    constructor (adj: Graph, isPii: string -> bool, depth: int)
      ensures this.adj == adj && this.isPii == isPii && this.depth == depth
      ensures seen == {} && paths == [] && Recorded()
    {
      this.adj, this.isPii, this.depth := adj, isPii, depth;
      visited, seen, paths := {}, {}, [];
    }

    // One path is stored for every signature seen, made of first-listed edges.
    ghost predicate Recorded()
      reads this`seen, this`paths
    {
      && (forall i :: 0 <= i < |paths| ==> SignatureOf(paths[i].steps) in seen && WellMade(adj, paths[i]))
      && (forall s :: s in seen ==> exists i :: 0 <= i < |paths| && SignatureOf(paths[i].steps) == s)
      && (forall i, j :: 0 <= i < j < |paths| ==> SignatureOf(paths[i].steps) != SignatureOf(paths[j].steps))
    }

    // Stores the path of a signature not seen before.
    method Record(p: Path)
      requires Recorded() && Complete(p) && (AllFirst(adj, p.steps) || SignatureOf(p.steps) in seen)
      modifies this`seen, this`paths
      ensures Recorded() && seen == old(seen) + {SignatureOf(p.steps)}
    {
      hide Complete, AllFirst;
      var sig := SignatureOf(p.steps);
      if sig !in seen {
        seen := seen + {sig};
        paths := paths + [p];
        assert paths[|paths|-1] == p;
        forall s | s in seen ensures exists i :: 0 <= i < |paths| && SignatureOf(paths[i].steps) == s {
          if s in old(seen) {
            var i :| 0 <= i < |old(paths)| && SignatureOf(old(paths)[i].steps) == s;
            assert paths[i] == old(paths)[i];
          }
        }
      }
    }

    // Explores every continuation of the path in `steps` and leaves `visited` as it was.
    method Traverse(root: string, current: string, steps: seq<Step>, conf: real, currentDepth: int)
      requires Recorded() && Ready(adj, isPii, depth, root, current, steps, conf, currentDepth, visited, seen)
      modifies this
      ensures Recorded() && visited == old(visited)
      ensures Added(adj, isPii, depth, root, SignatureOf(steps), old(seen), seen)
      decreases depth + 1 - currentDepth
    {
      hide Recorded, Ready, Explored, Added, Complete, AllFirst, NodesOf, End, Scale, SignatureOf;
      ghost var front := SignatureOf(steps);
      ReadyFront(adj, isPii, depth, root, current, steps, conf, currentDepth, visited, seen);
      if currentDepth > depth { return; }
      var neighbors := Edges(adj, current);
      ExploredNone(adj, isPii, depth, root, front, seen);
      for k := 0 to |neighbors|
        invariant Recorded() && visited == old(visited)
        invariant Explored(adj, isPii, depth, root, front, old(seen), seen, k)
      {
        var tgt := neighbors[k].target;
        if isPii(tgt) || tgt in visited {
          ExploredSkip(adj, isPii, depth, root, front, old(seen), seen, k);
          continue;
        }
        ghost var seen1 := seen;
        var step := Step(current, neighbors[k].relation, tgt, neighbors[k].confidence);
        var newSteps := steps + [step];
        var newConf := Scale(conf, neighbors[k].confidence);
        PushReady(adj, isPii, depth, root, current, steps, conf, currentDepth, visited, old(seen), seen, k);
        Record(Path(root, newSteps, tgt, newConf));
        visited := visited + {tgt};
        Traverse(root, tgt, newSteps, newConf, currentDepth + 1);
        visited := visited - {tgt};
        ExploredStep(adj, isPii, depth, root, front, old(seen), seen1, seen, k);
      }
      ExploredAll(adj, isPii, depth, root, front, old(seen), seen);
    }
  }

  // The arguments describe one simple path, and `visited` holds its nodes.
  ghost predicate Ready(adj: Graph, isPii: string -> bool, depth: int, root: string, current: string, steps: seq<Step>,
                        conf: real, currentDepth: int, visited: set<string>, seen: set<seq<Triple>>)
  {
    && FirstOrSeen(adj, isPii, depth, root, steps, seen)
    && IsSimplePath(adj, isPii, root, SignatureOf(steps)) && (steps != [] ==> steps[0].source == root)
    && current == End(root, SignatureOf(steps)) && visited == NodesOf(root, SignatureOf(steps))
    && conf == ConfidenceOf(steps) && currentDepth == |steps| + 1
  }

  lemma ReadyFront(adj: Graph, isPii: string -> bool, depth: int, root: string, current: string, steps: seq<Step>,
                   conf: real, currentDepth: int, visited: set<string>, seen: set<seq<Triple>>)
    requires Ready(adj, isPii, depth, root, current, steps, conf, currentDepth, visited, seen)
    ensures current == End(root, SignatureOf(steps)) && visited == NodesOf(root, SignatureOf(steps))
    ensures |SignatureOf(steps)| == currentDepth - 1
    ensures currentDepth > depth ==> Added(adj, isPii, depth, root, SignatureOf(steps), seen, seen)
  {}

  // The path that the k-th edge makes is ready to be recorded and explored.
  lemma PushReady(adj: Graph, isPii: string -> bool, depth: int, root: string, current: string, steps: seq<Step>,
                  conf: real, currentDepth: int, visited: set<string>, seen0: set<seq<Triple>>,
                  seen: set<seq<Triple>>, k: nat)
    requires Ready(adj, isPii, depth, root, current, steps, conf, currentDepth, visited, seen0) && currentDepth <= depth
    requires k < |Edges(adj, current)|
    requires !isPii(Edges(adj, current)[k].target) && Edges(adj, current)[k].target !in visited
    requires Explored(adj, isPii, depth, root, SignatureOf(steps), seen0, seen, k)
    ensures var e := Edges(adj, current)[k];
      var next, c := steps + [Step(current, e.relation, e.target, e.confidence)], Scale(conf, e.confidence);
      && SignatureOf(next) == SignatureOf(steps) + [TripleOf(current, e)]
      && IsSimplePath(adj, isPii, root, SignatureOf(steps) + [TripleOf(current, e)])
      && Complete(Path(root, next, e.target, c))
      && (AllFirst(adj, next) || SignatureOf(next) in seen)
      && Ready(adj, isPii, depth, root, e.target, next, c, currentDepth + 1, visited + {e.target},
          seen + {SignatureOf(next)})
  {
    hide FirstOrSeen, Explored, AllFirst, Scale, IsSimplePath, NodesOf, ConfidenceOf;
    var e := Edges(adj, current)[k];
    var step := Step(current, e.relation, e.target, e.confidence);
    PushPath(adj, isPii, root, SignatureOf(steps), k);
    SignaturePush(steps, step);
    PushFirst(adj, isPii, depth, root, steps, seen0, seen, k, step);
    PushConfidence(steps, step);
  }

  lemma ExploredNone(adj: Graph, isPii: string -> bool, depth: int, root: string, front: seq<Triple>,
                     seen: set<seq<Triple>>)
    ensures Explored(adj, isPii, depth, root, front, seen, seen, 0)
  {}

  lemma SignaturePush(steps: seq<Step>, st: Step)
    ensures SignatureOf(steps + [st]) == SignatureOf(steps) + [Triple(st.source, st.relation, st.target)]
  {}

  // The simple paths of 1 to `depth` edges from the roots.
  ghost predicate FromRoots(adj: Graph, isPii: string -> bool, depth: int, roots: seq<string>, s: seq<Triple>) {
    exists r :: r in roots && Extends(adj, isPii, depth, r, [], s)
  }

  // Exactly one well-made path for every signature in question.
  ghost predicate Enumerates(adj: Graph, isPii: string -> bool, depth: int, roots: seq<string>, paths: seq<Path>) {
    && (forall s :: FromRoots(adj, isPii, depth, roots, s) <==>
        exists i :: 0 <= i < |paths| && SignatureOf(paths[i].steps) == s)
    && (forall i, j :: 0 <= i < j < |paths| ==> SignatureOf(paths[i].steps) != SignatureOf(paths[j].steps))
    && (forall i :: 0 <= i < |paths| ==> WellMade(adj, paths[i]))
  }

  function RootsOf(entity: string, active: seq<string>): seq<string> {
    if active == [] then [entity] else active
  }

  method CausalWhatIf(rs: seq<Relation>, isPii: string -> bool, entity: string, active: seq<string>, depth: int)
    returns (paths: seq<Path>)
    ensures Enumerates(Adjacency(rs, isPii), isPii, depth, RootsOf(entity, active), paths)
  {
    if rs == [] { return []; }
    var adj := BuildAdjacency(rs, isPii);
    var roots := RootsOf(entity, active);
    var search := new PathSearch(adj, isPii, depth);
    for i := 0 to |roots|
      invariant search.Recorded() && search.adj == adj && search.isPii == isPii && search.depth == depth
      invariant forall s :: s in search.seen <==> FromRoots(adj, isPii, depth, roots[..i], s)
    {
      assert roots[..i+1] == roots[..i] + [roots[i]];
      search.visited := {roots[i]};
      assert SignatureOf([]) == [];
      assert Ready(adj, isPii, depth, roots[i], roots[i], [], 1.0, 1, {roots[i]}, search.seen);
      search.Traverse(roots[i], roots[i], [], 1.0, 1);
    }
    assert roots[..|roots|] == roots;
    paths := search.paths;
  }

  // ------------------------------------------------ what the confidence means

  function ExactConfidence(steps: seq<Step>): real {
    if steps == [] then 1.0 else Product(ExactConfidence(steps[..|steps|-1]), steps[|steps|-1].confidence)
  }

  // Rounding after every edge costs at most half a unit of the fourth place per edge.
  lemma {:induction false} ConfidenceWithin(steps: seq<Step>)
    ensures Abs(ConfidenceOf(steps) - ExactConfidence(steps)) <= 0.00005 * |steps| as real
  {
    hide Scale, Product;
    if steps != [] {
      var front, e := steps[..|steps|-1], steps[|steps|-1].confidence;
      ConfidenceWithin(front);
      ScaleWithin(ConfidenceOf(front), e);
      Shrinks(ConfidenceOf(front), ExactConfidence(front), e);
    }
  }

  lemma ScaleWithin(c: real, e: Unit)
    ensures Abs(Scale(c, e) - Product(c, e)) <= 0.00005
  {
    RoundError(c * e, 10000.0);
  }

  lemma Shrinks(c: real, x: real, e: Unit)
    ensures Abs(Product(c, e) - Product(x, e)) <= Abs(c - x)
  {
    assert Product(c, e) - Product(x, e) == Product(c - x, e) == -Product(x - c, e);
    assert Product(c - x, 1.0) == c - x && Product(x - c, 1.0) == x - c;
    if c >= x { MulMono(c - x, e, 1.0); } else { MulMono(x - c, e, 1.0); }
  }
}
