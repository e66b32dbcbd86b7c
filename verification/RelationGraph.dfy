// The relation triples of the knowledge graph and the adjacency lists built from them
// (retro_causal_edge.py).
module RelationGraph {
  import opened Reals

  datatype Relation = Relation(subject: string, relation: string, obj: string, confidence: Unit)

  datatype EdgeInfo = EdgeInfo(target: string, relation: string, confidence: Unit)

  type Graph = map<string, seq<EdgeInfo>>

  function Edges(adj: Graph, u: string): seq<EdgeInfo> {
    if u in adj then adj[u] else []
  }

  const PROSE := {"stated_memory", "raw_content", "documentation", "source_doc"}

  predicate Kept(r: Relation, isPii: string -> bool) {
    r.relation !in PROSE && !isPii(r.subject) && !isPii(r.obj)
  }

  function Adjacency(rs: seq<Relation>, isPii: string -> bool): Graph {
    if rs == [] then map[]
    else
      var adj, r := Adjacency(rs[..|rs|-1], isPii), rs[|rs|-1];
      if Kept(r, isPii) then adj[r.subject := Edges(adj, r.subject) + [EdgeInfo(r.obj, r.relation, r.confidence)]]
      else adj
  }

  // The lists hold exactly the relations that are neither prose nor personal data.
  lemma {:induction false} AdjacencyEdges(rs: seq<Relation>, isPii: string -> bool, r: Relation)
    ensures EdgeInfo(r.obj, r.relation, r.confidence) in Edges(Adjacency(rs, isPii), r.subject)
      <==> r in rs && Kept(r, isPii)
  {
    if rs != [] {
      AdjacencyEdges(rs[..|rs|-1], isPii, r);
      assert rs == rs[..|rs|-1] + [rs[|rs|-1]];
    }
  }

  method BuildAdjacency(rs: seq<Relation>, isPii: string -> bool) returns (adj: Graph)
    ensures adj == Adjacency(rs, isPii)
  {
    adj := map[];
    for k := 0 to |rs|
      invariant adj == Adjacency(rs[..k], isPii)
    {
      var r := rs[k];
      assert rs[..k+1][..k] == rs[..k];
      if r.relation in PROSE { continue; }
      if isPii(r.subject) || isPii(r.obj) { continue; }
      if r.subject !in adj { adj := adj[r.subject := []]; }
      adj := adj[r.subject := adj[r.subject] + [EdgeInfo(r.obj, r.relation, r.confidence)]];
    }
    assert rs[..|rs|] == rs;
  }
}
