// Critical points of failure: the reachability loop and the severity scan of
// retro_causal_edge.py, against walks in the dependency graph.
module CriticalNodes {
  import StableSort
  import opened Reals
  import opened Rounding
  import opened Wrappers

  type Graph = map<string, seq<string>>

  datatype Relation = Relation(subject: string, obj: string)

  datatype CPoF = CPoF(node: string, severity: real, affected: set<string>)

  function Successors(adj: Graph, u: string): seq<string> {
    if u in adj then adj[u] else []
  }

  // ------------------------------------------------------------------- walks

  ghost predicate IsWalk(adj: Graph, root: string, p: seq<string>, x: string) {
    && |p| >= 2 && p[0] == root && p[|p|-1] == x
    && forall i :: 0 <= i < |p| - 1 ==> p[i+1] in Successors(adj, p[i])
  }

  // No node after the start is the excluded one.
  ghost predicate Avoids(p: seq<string>, excluded: Option<string>) {
    forall i :: 1 <= i < |p| ==> Some(p[i]) != excluded
  }

  // Some walk of one or more edges leads from root to x and avoids the excluded node.
  ghost predicate Reaches(adj: Graph, root: string, excluded: Option<string>, x: string) {
    exists p :: IsWalk(adj, root, p, x) && Avoids(p, excluded)
  }

  ghost function Targets(adj: Graph): set<string> {
    set u, i | u in adj && 0 <= i < |adj[u]| :: adj[u][i]
  }

  lemma ReachedIsTarget(adj: Graph, root: string, excluded: Option<string>, x: string)
    requires Reaches(adj, root, excluded, x)
    ensures x in Targets(adj)
  {
    var p :| IsWalk(adj, root, p, x) && Avoids(p, excluded);
    var u := p[|p|-2];
    assert p[|p|-2+1] in Successors(adj, u);
    var i :| 0 <= i < |adj[u]| && adj[u][i] == x;
  }

  ghost function Reachable(adj: Graph, root: string, excluded: Option<string>): (r: set<string>)
    ensures forall x :: x in r <==> Reaches(adj, root, excluded, x)
  {
    var r := set x | x in Targets(adj) && Reaches(adj, root, excluded, x);
    assert forall x :: x in r <==> Reaches(adj, root, excluded, x) by {
      forall x | Reaches(adj, root, excluded, x) ensures x in r {
        ReachedIsTarget(adj, root, excluded, x);
      }
    }
    r
  }

  lemma ExtendWalk(adj: Graph, root: string, excluded: Option<string>, u: string, v: string)
    requires u == root || Reaches(adj, root, excluded, u)
    requires v in Successors(adj, u) && Some(v) != excluded
    ensures Reaches(adj, root, excluded, v)
  {
    if Reaches(adj, root, excluded, u) {
      var p :| IsWalk(adj, root, p, u) && Avoids(p, excluded);
      var q := p + [v];
      assert IsWalk(adj, root, q, v) && Avoids(q, excluded);
    } else {
      var q := [root, v];
      assert IsWalk(adj, root, q, v) && Avoids(q, excluded);
    }
  }

  // A set closed under admissible edges, starting from the root's, holds every walk's end.
  lemma {:induction false} ClosedHoldsWalk(adj: Graph, root: string, excluded: Option<string>, s: set<string>,
                                           p: seq<string>, x: string)
    requires forall u, v :: (u == root || u in s) && v in Successors(adj, u) && Some(v) != excluded ==> v in s
    requires IsWalk(adj, root, p, x) && Avoids(p, excluded)
    ensures x in s
    decreases |p|
  {
    var u := p[|p|-2];
    assert p[|p|-2+1] in Successors(adj, u);
    if |p| > 2 {
      assert IsWalk(adj, root, p[..|p|-1], u) && Avoids(p[..|p|-1], excluded);
      ClosedHoldsWalk(adj, root, excluded, s, p[..|p|-1], u);
    }
  }

  // ------------------------------------------------------ the program's loops

  function Adjacency(relations: seq<Relation>): Graph {
    if relations == [] then map[]
    else
      var adj, r := Adjacency(relations[..|relations|-1]), relations[|relations|-1];
      adj[r.subject := Successors(adj, r.subject) + [r.obj]]
  }

  // The adjacency lists hold exactly the relations.
  lemma {:induction false} AdjacencyEdges(relations: seq<Relation>, u: string, v: string)
    ensures v in Successors(Adjacency(relations), u) <==> Relation(u, v) in relations
  {
    if relations != [] {
      var n := |relations| - 1;
      AdjacencyEdges(relations[..n], u, v);
      assert relations == relations[..n] + [relations[n]];
    }
  }

  method BuildAdjacency(relations: seq<Relation>) returns (adj: Graph)
    ensures adj == Adjacency(relations)
  {
    adj := map[];
    for k := 0 to |relations|
      invariant adj == Adjacency(relations[..k])
    {
      var r := relations[k];
      assert relations[..k+1][..k] == relations[..k];
      if r.subject !in adj {
        adj := adj[r.subject := []];
      }
      adj := adj[r.subject := adj[r.subject] + [r.obj]];
    }
    assert relations[..|relations|] == relations;
  }

  // Every node found so far is reached, and every admissible edge out of a node that is
  // not waiting on the stack leads to a node already found.
  ghost predicate SearchOk(adj: Graph, root: string, excluded: Option<string>, found: set<string>, stack: seq<string>) {
    && (forall x :: x in found ==> Reaches(adj, root, excluded, x))
    && (forall u :: u in stack ==> u == root || u in found)
    && (forall u, v :: (u == root || u in found) && u !in stack && v in Successors(adj, u) && Some(v) != excluded
          ==> v in found)
  }

  // Pushes the unseen admissible successors of a node taken off the stack.
  method Visit(adj: Graph, root: string, excluded: Option<string>, found0: set<string>, rest: seq<string>, curr: string)
    returns (found: set<string>, stack: seq<string>)
    requires SearchOk(adj, root, excluded, found0, rest + [curr])
    ensures SearchOk(adj, root, excluded, found, stack)
    ensures found0 <= found && (found == found0 ==> stack == rest)
  {
    found, stack := found0, rest;
    var next := Successors(adj, curr);
    assert forall u :: u in rest + [curr] <==> u in rest || u == curr;
    for i := 0 to |next|
      invariant found0 <= found && (found == found0 ==> stack == rest)
      invariant forall x :: x in found ==> Reaches(adj, root, excluded, x)
      invariant forall u :: u in stack ==> u == root || u in found
      invariant forall u :: u in found && u !in found0 ==> u in stack
      invariant forall u :: u in rest ==> u in stack
      invariant forall j :: 0 <= j < i && Some(next[j]) != excluded ==> next[j] in found
    {
      var neighbor := next[i];
      if !(Some(neighbor) == excluded || neighbor in found) {
        ExtendWalk(adj, root, excluded, curr, neighbor);
        found := found + {neighbor};
        stack := stack + [neighbor];
      }
    }
  }

  method GetReachable(adj: Graph, root: string, excluded: Option<string>) returns (found: set<string>)
    ensures found == Reachable(adj, root, excluded)
  {
    found := {};
    var stack := [root];
    while stack != []
      invariant SearchOk(adj, root, excluded, found, stack)
      decreases Reachable(adj, root, excluded) - found, |stack|
    {
      var curr := stack[|stack|-1];
      assert stack == stack[..|stack|-1] + [curr];
      found, stack := Visit(adj, root, excluded, found, stack[..|stack|-1], curr);
    }
    forall x | Reaches(adj, root, excluded, x) ensures x in found {
      var p :| IsWalk(adj, root, p, x) && Avoids(p, excluded);
      ClosedHoldsWalk(adj, root, excluded, found, p, x);
    }
  }

  // ------------------------------------------------------------ affected sets

  // The nodes that lose reachability from the root when c fails.
  ghost function Affected(adj: Graph, root: string, c: string): set<string> {
    Reachable(adj, root, None) - Reachable(adj, root, Some(c))
  }

  // Exactly the reachable nodes all of whose walks pass through c after the start.
  lemma AffectedIsDominated(adj: Graph, root: string, c: string, x: string)
    ensures x in Affected(adj, root, c) <==>
      Reaches(adj, root, None, x) && forall p :: IsWalk(adj, root, p, x) ==> c in p[1..]
  {
    forall p | IsWalk(adj, root, p, x) ensures Avoids(p, Some(c)) <==> c !in p[1..] {
      forall i | 1 <= i < |p| ensures p[i] == p[1..][i-1] {}
    }
  }

  lemma Passes(adj: Graph, root: string, c: string, x: string, p: seq<string>) returns (k: nat)
    requires x in Affected(adj, root, c) && IsWalk(adj, root, p, x)
    ensures 1 <= k < |p| && p[k] == c
  {
    assert !Avoids(p, Some(c));
    k :| 1 <= k < |p| && Some(p[k]) == Some(c);
  }

  lemma PrefixWalk(adj: Graph, root: string, p: seq<string>, x: string, k: nat)
    requires IsWalk(adj, root, p, x) && 1 <= k < |p|
    ensures IsWalk(adj, root, p[..k+1], p[k])
  {}

  lemma PrefixReaches(adj: Graph, root: string, excluded: Option<string>, p: seq<string>, x: string, k: nat)
    requires IsWalk(adj, root, p, x) && Avoids(p, excluded) && 1 <= k < |p|
    ensures Reaches(adj, root, excluded, p[k])
  {
    assert IsWalk(adj, root, p[..k+1], p[k]) && Avoids(p[..k+1], excluded);
  }

  // A failing node is affected by its own failure.
  lemma AffectsItself(adj: Graph, root: string, c: string)
    requires Reaches(adj, root, None, c)
    ensures c in Affected(adj, root, c)
  {
    forall p | IsWalk(adj, root, p, c) ensures !Avoids(p, Some(c)) {
      assert p[|p|-1] == c;
    }
  }

  lemma AffectedNests(adj: Graph, root: string, c: string, d: string)
    requires c in Affected(adj, root, d)
    ensures Affected(adj, root, c) <= Affected(adj, root, d)
  {
    forall y | y in Affected(adj, root, c) ensures y in Affected(adj, root, d) {
      if Reaches(adj, root, Some(d), y) {
        var p :| IsWalk(adj, root, p, y) && Avoids(p, Some(d));
        var k := Passes(adj, root, c, y, p);
        PrefixReaches(adj, root, Some(d), p, y, k);
      }
    }
  }

  // The last place at or after the start where either of two nodes occurs.
  lemma {:induction false} LastOf(p: seq<string>, c: string, d: string, n: nat) returns (k: nat)
    requires n < |p| && exists j :: 1 <= j <= n && (p[j] == c || p[j] == d)
    ensures 1 <= k <= n && (p[k] == c || p[k] == d)
    ensures forall j :: k < j <= n ==> p[j] != c && p[j] != d
  {
    if p[n] == c || p[n] == d {
      k := n;
    } else {
      k := LastOf(p, c, d, n-1);
    }
  }

  lemma SpliceWalk(adj: Graph, root: string, p: seq<string>, q: seq<string>, x: string, k: nat, d: string)
    requires IsWalk(adj, root, p, x) && 1 <= k < |p|
    requires IsWalk(adj, root, q, p[k]) && Avoids(q, Some(d))
    requires forall j :: k < j < |p| ==> p[j] != d
    ensures Reaches(adj, root, Some(d), x)
  {
    var r := q + p[k+1..];
    assert forall i :: |q| <= i < |r| ==> r[i] == p[i - |q| + k + 1];
    forall i | 0 <= i < |r| - 1 ensures r[i+1] in Successors(adj, r[i]) {
      if i < |q| - 1 {
        assert r[i] == q[i] && r[i+1] == q[i+1];
      } else {
        var j := i - |q| + k + 1;
        assert r[i] == p[j] && r[i+1] == p[j+1];
      }
    }
    assert IsWalk(adj, root, r, x) && Avoids(r, Some(d));
  }

  // Two affected sets that share a node: one of the failing nodes is affected by the other.
  lemma SharedAffected(adj: Graph, root: string, c: string, d: string, x: string)
    requires Reaches(adj, root, None, c) && Reaches(adj, root, None, d)
    requires x in Affected(adj, root, c) && x in Affected(adj, root, d)
    ensures c in Affected(adj, root, d) || d in Affected(adj, root, c)
  {
    if c !in Affected(adj, root, d) && d !in Affected(adj, root, c) {
      var toC :| IsWalk(adj, root, toC, c) && Avoids(toC, Some(d));
      var toD :| IsWalk(adj, root, toD, d) && Avoids(toD, Some(c));
      var p :| IsWalk(adj, root, p, x) && Avoids(p, None);
      var j := Passes(adj, root, c, x, p);
      var k := LastOf(p, c, d, |p|-1);
      if p[k] == c {
        SpliceWalk(adj, root, p, toC, x, k, d);
      } else {
        SpliceWalk(adj, root, p, toD, x, k, c);
      }
      assert false;
    }
  }

  // Any two affected sets are nested or disjoint.
  lemma AffectedLaminar(adj: Graph, root: string, c: string, d: string)
    requires Reaches(adj, root, None, c) && Reaches(adj, root, None, d)
    ensures var a, b := Affected(adj, root, c), Affected(adj, root, d); a <= b || b <= a || a !! b
  {
    if x :| x in Affected(adj, root, c) && x in Affected(adj, root, d) {
      SharedAffected(adj, root, c, d, x);
      if c in Affected(adj, root, d) {
        AffectedNests(adj, root, c, d);
      } else {
        AffectedNests(adj, root, d, c);
      }
    }
  }

  lemma {:induction false} NoMutualCut(adj: Graph, root: string, c: string, d: string, p: seq<string>)
    requires c != d && c in Affected(adj, root, d) && d in Affected(adj, root, c)
    requires IsWalk(adj, root, p, c)
    ensures false
    decreases |p|
  {
    var j := Passes(adj, root, d, c, p);
    PrefixWalk(adj, root, p, c, j);
    var k := Passes(adj, root, c, d, p[..j+1]);
    PrefixWalk(adj, root, p[..j+1], d, k);
    NoMutualCut(adj, root, c, d, p[..j+1][..k+1]);
  }

  // Different nodes never have the same affected set, so nesting is strict.
  lemma AffectedDistinct(adj: Graph, root: string, c: string, d: string)
    requires Reaches(adj, root, None, c) && Reaches(adj, root, None, d) && c != d
    ensures Affected(adj, root, c) != Affected(adj, root, d)
  {
    AffectsItself(adj, root, c);
    AffectsItself(adj, root, d);
    if Affected(adj, root, c) == Affected(adj, root, d) {
      var p :| IsWalk(adj, root, p, c) && Avoids(p, None);
      NoMutualCut(adj, root, c, d, p);
    }
  }

  lemma CardinalityOfPart<T>(a: set<T>, b: set<T>, u: set<T>)
    requires a <= u && b <= u && a !! b
    ensures |a| + |b| <= |u|
  {
    assert |a + b| == |a| + |b|;
    assert u == (a + b) + (u - (a + b));
    assert |u| == |a + b| + |u - (a + b)|;
  }

  // The nodes that cut off strictly more than half of the graph form a strict chain.
  lemma MajorityCutsFormChain(adj: Graph, root: string, c: string, d: string)
    requires Reaches(adj, root, None, c) && Reaches(adj, root, None, d) && c != d
    requires 2 * |Affected(adj, root, c)| > |Reachable(adj, root, None)|
    requires 2 * |Affected(adj, root, d)| > |Reachable(adj, root, None)|
    ensures var a, b := Affected(adj, root, c), Affected(adj, root, d); a < b || b < a
  {
    AffectedLaminar(adj, root, c, d);
    AffectedDistinct(adj, root, c, d);
    if Affected(adj, root, c) !! Affected(adj, root, d) {
      CardinalityOfPart(Affected(adj, root, c), Affected(adj, root, d), Reachable(adj, root, None));
    }
  }

  // -------------------------------------------------------- the severity scan

  ghost predicate IsCritical(adj: Graph, root: string, c: string) {
    Reaches(adj, root, None, c) && 2 * |Affected(adj, root, c)| >= |Reachable(adj, root, None)|
  }

  function Severity(affected: nat, total: nat): real {
    if total == 0 then 0.0 else Round4(affected as real / total as real)
  }

  ghost function EntryOf(adj: Graph, root: string, c: string): CPoF {
    CPoF(c, Severity(|Affected(adj, root, c)|, |Reachable(adj, root, None)|), Affected(adj, root, c))
  }

  ghost predicate Descending(l: seq<CPoF>) {
    forall i, j :: 0 <= i < j < |l| ==> l[i].severity >= l[j].severity
  }

  // Exactly the critical nodes, once each, the most severe first.
  ghost predicate IsReport(adj: Graph, root: string, l: seq<CPoF>) {
    && (forall c :: IsCritical(adj, root, c) <==> exists i :: 0 <= i < |l| && l[i].node == c)
    && (forall n :: n in l ==> n == EntryOf(adj, root, n.node))
    && (forall i, j :: 0 <= i < j < |l| ==> l[i].node != l[j].node)
    && Descending(l)
  }

  ghost predicate DistinctNodes(l: seq<CPoF>) {
    forall i, j :: 0 <= i < j < |l| ==> l[i].node != l[j].node
  }

  predicate SeverityAtMost(a: CPoF, b: CPoF) { a.severity <= b.severity }

  function SortBySeverity(l: seq<CPoF>): (r: seq<CPoF>)
    requires DistinctNodes(l)
    ensures Descending(r) && DistinctNodes(r) && forall n :: n in r <==> n in l
  {
    StableSort.SortOk(SeverityAtMost, l);
    StableSort.SameElements(SeverityAtMost, l);
    StableSort.SortKeepsDistinct(SeverityAtMost, (n: CPoF) => n.node, l);
    StableSort.Sort(SeverityAtMost, l)
  }

  method Assess(adj: Graph, root: string, all: set<string>, c: string) returns (entry: CPoF, critical: bool)
    requires all == Reachable(adj, root, None) && c in all
    ensures entry == EntryOf(adj, root, c) && (critical <==> IsCritical(adj, root, c))
  {
    var without := GetReachable(adj, root, Some(c));
    var affected := all - without;
    HalfOf(|affected|, |all|);
    critical := |affected| as real / |all| as real >= 0.5;
    entry := CPoF(c, Severity(|affected|, |all|), affected);
  }

  // The entries found are those of the critical nodes among the candidates done.
  ghost predicate ScanOk(entries: map<string, CPoF>, critical: set<string>, done: set<string>, found: seq<CPoF>) {
    && done <= entries.Keys
    && DistinctNodes(found)
    && (forall n :: n in found ==> n.node in done && n == entries[n.node])
    && (forall c :: c in done ==> (c in critical <==> entries[c] in found))
  }

  lemma ScanStep(entries: map<string, CPoF>, critical: set<string>, done: set<string>, found: seq<CPoF>, c: string)
    requires ScanOk(entries, critical, done, found) && c in entries.Keys - done
    requires forall x :: x in entries ==> entries[x].node == x
    ensures ScanOk(entries, critical, done + {c}, if c in critical then found + [entries[c]] else found)
  {}

  method ScanCandidates(adj: Graph, root: string, all: set<string>, ghost entries: map<string, CPoF>,
                        ghost critical: set<string>)
    returns (found: seq<CPoF>)
    requires all == Reachable(adj, root, None) && EntriesOk(adj, root, entries, critical)
    ensures ScanOk(entries, critical, all, found)
  {
    hide EntryOf, IsCritical, Reachable, Affected;
    found := [];
    var remaining := all;
    while remaining != {}
      invariant remaining <= all && ScanOk(entries, critical, all - remaining, found)
    {
      var c :| c in remaining;
      var entry, isCritical := Assess(adj, root, all, c);
      ScanStep(entries, critical, all - remaining, found, c);
      assert all - (remaining - {c}) == all - remaining + {c};
      remaining := remaining - {c};
      if isCritical {
        found := found + [entry];
      }
    }
    assert all - remaining == all;
  }

  // `entries` is the report line of every reachable node, `critical` the critical ones.
  ghost predicate EntriesOk(adj: Graph, root: string, entries: map<string, CPoF>, critical: set<string>) {
    && entries.Keys == Reachable(adj, root, None)
    && (forall c :: c in entries ==> entries[c] == EntryOf(adj, root, c) && entries[c].node == c)
    && (forall c :: c in critical <==> IsCritical(adj, root, c))
  }

  lemma Entries(adj: Graph, root: string) returns (entries: map<string, CPoF>, critical: set<string>)
    ensures EntriesOk(adj, root, entries, critical)
  {
    hide Reachable, Affected;
    entries := map c | c in Reachable(adj, root, None) :: EntryOf(adj, root, c);
    critical := set c | c in Reachable(adj, root, None) && IsCritical(adj, root, c);
  }

  method DetectCpof(relations: seq<Relation>, root: string) returns (report: seq<CPoF>)
    ensures IsReport(Adjacency(relations), root, report)
  {
    var adj := BuildAdjacency(relations);
    var all := GetReachable(adj, root, None);
    hide EntryOf, Reachable, Affected;
    if |all| == 0 {
      return [];
    }
    ghost var entries, critical := Entries(adj, root);
    var found := ScanCandidates(adj, root, all, entries, critical);
    report := SortBySeverity(found);
    ReportFromEntries(adj, root, entries, critical, report);
  }

  lemma HalfOf(a: nat, n: nat)
    requires n > 0
    ensures a as real / n as real >= 0.5 <==> 2 * a >= n
  {
    var q := a as real / n as real;
    assert q * n as real == a as real;
  }

  lemma ReportFromEntries(adj: Graph, root: string, entries: map<string, CPoF>, critical: set<string>, l: seq<CPoF>)
    requires EntriesOk(adj, root, entries, critical) && ScanOk(entries, critical, entries.Keys, l) && Descending(l)
    ensures IsReport(adj, root, l)
  {
    hide EntryOf, Reachable, Affected;
    assert forall c :: IsCritical(adj, root, c) <==> exists i :: 0 <= i < |l| && l[i].node == c by {
      forall c ensures IsCritical(adj, root, c) <==> exists i :: 0 <= i < |l| && l[i].node == c {
        if IsCritical(adj, root, c) {
          assert c in entries;
          var i :| 0 <= i < |l| && l[i] == entries[c];
          assert l[i].node == c;
        }
        if i :| 0 <= i < |l| && l[i].node == c {
          assert l[i] in l;
        }
      }
    }
  }

  // ------------------------------------------------- what the severity means

  // The severity is the affected share, up to half a unit of the fourth place.
  lemma SeverityWithin(affected: nat, total: nat)
    requires total > 0
    ensures affected as real / total as real - 0.00005 <= Severity(affected, total)
    ensures Severity(affected, total) <= affected as real / total as real + 0.00005
  {
    RoundError(affected as real / total as real, 10000.0);
  }

  // The grid point that a severity is rounded to.
  function Grade(affected: nat, total: nat): int
    requires total > 0
  {
    HalfEven(affected as real / total as real * 10000.0)
  }

  lemma GradeIs(affected: nat, total: nat)
    requires total > 0
    ensures Severity(affected, total) == Grade(affected, total) as real / 10000.0
    ensures Grade(0, total) == 0 && Grade(total, total) == 10000
  {
    var t := total as real;
    assert t / t == 1.0 && 0 as real / t == 0.0;
    assert HalfEven(1.0 * 10000.0) == 10000;
  }

  lemma GradesApart(a: nat, b: nat, total: nat)
    requires a < b && 0 < total <= 10000
    ensures Grade(a, total) < Grade(b, total)
  {
    var t := total as real;
    var x, y := a as real / t, b as real / t;
    assert x * t == a as real && y * t == b as real;
    if total == 10000 {
      WholeGrade(x * 10000.0, a);
      WholeGrade(y * 10000.0, b);
    } else {
      FurtherThanUnit(y - x, t);
      NearestGrade(x * 10000.0);
      NearestGrade(y * 10000.0);
    }
  }

  lemma WholeGrade(s: real, k: nat)
    requires s == k as real
    ensures HalfEven(s) == k
  {}

  lemma NearestGrade(s: real)
    ensures s - 0.5 <= HalfEven(s) as real <= s + 0.5
  {
    FloorBounds(s);
  }

  lemma FurtherThanUnit(d: real, t: real)
    requires d * t >= 1.0 && 0.0 < t < 10000.0
    ensures d * 10000.0 > 1.0
  {
    assert Product(-d, t) == -(d * t);
    assert Product(d, 10000.0 - t) == d * 10000.0 - d * t;
  }

  lemma {:induction false} GradesRise(total: nat, k: nat)
    requires total > 0 && k <= total
    requires forall a: nat, b: nat :: a < b <= total ==> Severity(a, total) < Severity(b, total)
    ensures Grade(k, total) >= k
  {
    GradeIs(k, total);
    if k > 0 {
      GradesRise(total, k - 1);
      GradeIs(k - 1, total);
      assert Severity(k - 1, total) < Severity(k, total);
    }
  }

  // Different sizes have different severities, in their order, for every size exactly in
  // graphs of at most ten thousand reachable nodes.
  lemma SeverityTellsSizesExactlyWhen(total: nat)
    requires total > 0
    ensures (forall a: nat, b: nat :: a < b <= total ==> Severity(a, total) < Severity(b, total)) <==> total <= 10000
  {
    hide Severity;
    if total <= 10000 {
      forall a: nat, b: nat | a < b <= total ensures Severity(a, total) < Severity(b, total) {
        GradesApart(a, b, total);
        GradeIs(a, total);
        GradeIs(b, total);
      }
    }
    if forall a: nat, b: nat :: a < b <= total ==> Severity(a, total) < Severity(b, total) {
      GradesRise(total, total);
      GradeIs(total, total);
    }
  }

  // So in such graphs the list descends in the size of the affected set.
  lemma ReportDescendsInSize(adj: Graph, root: string, l: seq<CPoF>, i: nat, j: nat)
    requires IsReport(adj, root, l) && i < j < |l| && |Reachable(adj, root, None)| <= 10000
    ensures |l[i].affected| >= |l[j].affected|
  {
    hide Reachable, Affected, Severity;
    var n := |Reachable(adj, root, None)|;
    assert l[i] in l && l[j] in l;
    assert IsCritical(adj, root, l[i].node) && IsCritical(adj, root, l[j].node);
    assert l[i].node in Reachable(adj, root, None);
    assert Affected(adj, root, l[j].node) <= Reachable(adj, root, None) by { AffectedWithin(adj, root, l[j].node); }
    CardinalityWithin(Affected(adj, root, l[j].node), Reachable(adj, root, None));
    SizeFollows(|l[i].affected|, |l[j].affected|, n);
  }

  lemma SizeFollows(a: nat, b: nat, total: nat)
    requires 0 < total <= 10000 && Severity(a, total) >= Severity(b, total)
    ensures a >= b
  {
    hide Severity, Grade;
    GradeIs(a, total);
    GradeIs(b, total);
    if a < b { GradesApart(a, b, total); }
  }

  lemma AffectedWithin(adj: Graph, root: string, c: string)
    ensures Affected(adj, root, c) <= Reachable(adj, root, None)
  {
    hide Reachable;
  }

  lemma {:induction false} CardinalityWithin<T>(a: set<T>, b: set<T>)
    requires a <= b
    ensures |a| <= |b|
    decreases |a|
  {
    if x :| x in a { CardinalityWithin(a - {x}, b - {x}); }
  }
}
