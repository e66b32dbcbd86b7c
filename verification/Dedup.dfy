// Removing duplicate records from the key-value table: scan, plan, delete (atlas_dedup_kv.py).
module Dedup {
  import StableSort

  datatype Row = Row(key: string, value: string, timestamp: real)

  // How a value is normalised, and the hash of the result.
  datatype Scanner = Scanner(norm: string -> string, hash: string -> string)

  datatype Group = Group(hash: string, recs: seq<Row>)

  datatype Item = Item(hash: string, keep: string, deletes: seq<string>, all: seq<string>)

  // ------------------------------------------------------------------- rank

  datatype Rank = Rank(tier: nat, timestamp: real, length: nat)

  function RankOf(r: Row): Rank {
    var tier :=
      if "hermes:memory_md:" <= r.key || "hermes:user_md:" <= r.key then 3
      else if "hermes:" <= r.key then 2
      else 1;
    Rank(tier, r.timestamp, |r.key|)
  }

  predicate AtMost(a: Rank, b: Rank) {
    || a.tier < b.tier
    || (a.tier == b.tier && a.timestamp < b.timestamp)
    || (a.tier == b.tier && a.timestamp == b.timestamp && a.length <= b.length)
  }

  predicate RankAtMost(a: Row, b: Row) { AtMost(RankOf(a), RankOf(b)) }

  function SortDescending(s: seq<Row>): (t: seq<Row>)
    ensures StableSort.Descending(RankAtMost, t) && |t| == |s| && forall x :: x in t <==> x in s
    ensures s != [] ==> StableSort.IsFirstBest(RankAtMost, s, t[0])
  {
    StableSort.SortOk(RankAtMost, s);
    StableSort.SameElements(RankAtMost, s);
    StableSort.Sort(RankAtMost, s)
  }

  // ------------------------------------------------------------------- scan

  function Content(sc: Scanner, r: Row): string { sc.norm(r.value) }

  function HashOf(sc: Scanner, r: Row): string { sc.hash(Content(sc, r)) }

  predicate InGroup(sc: Scanner, h: string, r: Row) { Content(sc, r) != "" && HashOf(sc, r) == h }

  // The records of one hash, in table order.
  function GroupOf(sc: Scanner, rows: seq<Row>, h: string): (g: seq<Row>)
    ensures forall r :: r in g <==> r in rows && InGroup(sc, h, r)
  {
    if rows == [] then []
    else
      var n := |rows| - 1;
      assert rows == rows[..n] + [rows[n]];
      GroupOf(sc, rows[..n], h) + if InGroup(sc, h, rows[n]) then [rows[n]] else []
  }

  ghost predicate DistinctHashes(groups: seq<Group>) {
    forall i, j :: 0 <= i < j < |groups| ==> groups[i].hash != groups[j].hash
  }

  ghost predicate RecsOk(sc: Scanner, rows: seq<Row>, groups: seq<Group>, least: nat) {
    forall i :: 0 <= i < |groups| ==> groups[i].recs == GroupOf(sc, rows, groups[i].hash) && |groups[i].recs| >= least
  }

  predicate Mentions(groups: seq<Group>, h: string) { exists i :: 0 <= i < |groups| && groups[i].hash == h }

  // Exactly the groups of at least the given size, each once.
  ghost predicate IsGrouping(sc: Scanner, rows: seq<Row>, groups: seq<Group>, least: nat) {
    && DistinctHashes(groups) && RecsOk(sc, rows, groups, least)
    && forall h :: |GroupOf(sc, rows, h)| >= least ==> Mentions(groups, h)
  }

  function IndexOf(groups: seq<Group>, h: string): (k: nat)
    ensures k <= |groups| && (k < |groups| ==> groups[k].hash == h)
    ensures forall i :: 0 <= i < k ==> groups[i].hash != h
  {
    if groups == [] then 0 else if groups[0].hash == h then 0 else 1 + IndexOf(groups[1..], h)
  }

  method FindDuplicates(sc: Scanner, rows: seq<Row>) returns (dups: seq<Group>)
    ensures IsGrouping(sc, rows, dups, 2)
  {
    hide GroupOf;
    var groups: seq<Group> := [];
    NoGroups(sc);
    for i := 0 to |rows|
      invariant IsGrouping(sc, rows[..i], groups, 1)
    {
      var r := rows[i];
      assert rows[..i+1] == rows[..i] + [r];
      if Content(sc, r) == "" {
        SkipRow(sc, rows[..i], r, groups);
        continue;
      }
      var h := HashOf(sc, r);
      var k := IndexOf(groups, h);
      AddRow(sc, rows[..i], r, groups, k);
      groups := Added(groups, k, h, r);
    }
    assert rows[..|rows|] == rows;
    dups := LargeOnly(groups);
    forall i | 0 <= i < |dups| ensures dups[i].recs == GroupOf(sc, rows, dups[i].hash) && |dups[i].recs| >= 2 {
      assert dups[i] in dups && dups[i] in groups;
    }
    forall h | |GroupOf(sc, rows, h)| >= 2 ensures Mentions(dups, h) {
      assert Mentions(groups, h);
      var i :| 0 <= i < |groups| && groups[i].hash == h;
      assert groups[i] in dups;
    }
  }

  function LargeOnly(groups: seq<Group>): (large: seq<Group>)
    ensures forall g :: g in large <==> g in groups && |g.recs| > 1
    ensures DistinctHashes(groups) ==> DistinctHashes(large)
  {
    if groups == [] then []
    else
      assert groups == [groups[0]] + groups[1..];
      var rest := LargeOnly(groups[1..]);
      if |groups[0].recs| > 1 then [groups[0]] + rest else rest
  }

  lemma NoGroups(sc: Scanner)
    ensures IsGrouping(sc, [], [], 1)
  {}

  lemma GroupPush(sc: Scanner, rows: seq<Row>, r: Row, h: string)
    ensures GroupOf(sc, rows + [r], h) == GroupOf(sc, rows, h) + if InGroup(sc, h, r) then [r] else []
  {
    assert (rows + [r])[..|rows|] == rows;
  }

  lemma SkipRow(sc: Scanner, rows: seq<Row>, r: Row, groups: seq<Group>)
    requires Content(sc, r) == "" && IsGrouping(sc, rows, groups, 1)
    ensures IsGrouping(sc, rows + [r], groups, 1)
  {
    hide GroupOf;
    forall h ensures GroupOf(sc, rows + [r], h) == GroupOf(sc, rows, h) { GroupPush(sc, rows, r, h); }
  }

  // The record joins its group, or starts one.
  function Added(groups: seq<Group>, k: nat, h: string, r: Row): seq<Group>
    requires k <= |groups|
  {
    if k < |groups| then groups[k := Group(h, groups[k].recs + [r])] else groups + [Group(h, [r])]
  }

  lemma {:induction false} AddRecs(sc: Scanner, rows: seq<Row>, r: Row, groups: seq<Group>, k: nat, i: nat)
    requires Content(sc, r) != "" && IsGrouping(sc, rows, groups, 1) && k == IndexOf(groups, HashOf(sc, r))
    requires i < |Added(groups, k, HashOf(sc, r), r)|
    ensures var g := Added(groups, k, HashOf(sc, r), r)[i]; g.recs == GroupOf(sc, rows + [r], g.hash) && |g.recs| >= 1
  {
    hide GroupOf, IndexOf;
    var h := HashOf(sc, r);
    var g := Added(groups, k, h, r)[i];
    GroupPush(sc, rows, r, g.hash);
    if i == |groups| {
      assert !Mentions(groups, h);
      assert GroupOf(sc, rows, h) == [];
    } else if i != k {
      assert g.hash != h;
      assert GroupOf(sc, rows + [r], g.hash) == GroupOf(sc, rows, g.hash);
    }
  }

  lemma {:induction false} AddCovers(sc: Scanner, rows: seq<Row>, r: Row, groups: seq<Group>, k: nat, h: string)
    requires Content(sc, r) != "" && IsGrouping(sc, rows, groups, 1) && k == IndexOf(groups, HashOf(sc, r))
    requires |GroupOf(sc, rows + [r], h)| >= 1
    ensures Mentions(Added(groups, k, HashOf(sc, r), r), h)
  {
    hide GroupOf, IndexOf;
    var after := Added(groups, k, HashOf(sc, r), r);
    GroupPush(sc, rows, r, h);
    if h == HashOf(sc, r) {
      assert after[k].hash == h;
    } else {
      assert GroupOf(sc, rows + [r], h) == GroupOf(sc, rows, h);
      var i :| 0 <= i < |groups| && groups[i].hash == h;
      assert after[i].hash == h;
    }
  }

  lemma AddRow(sc: Scanner, rows: seq<Row>, r: Row, groups: seq<Group>, k: nat)
    requires Content(sc, r) != "" && IsGrouping(sc, rows, groups, 1) && k == IndexOf(groups, HashOf(sc, r))
    ensures IsGrouping(sc, rows + [r], Added(groups, k, HashOf(sc, r), r), 1)
  {
    hide GroupOf, IndexOf, InGroup;
    var after := Added(groups, k, HashOf(sc, r), r);
    assert DistinctHashes(after);
    forall i: nat | i < |after|
      ensures after[i].recs == GroupOf(sc, rows + [r], after[i].hash) && |after[i].recs| >= 1
    {
      AddRecs(sc, rows, r, groups, k, i);
    }
    forall h | |GroupOf(sc, rows + [r], h)| >= 1 ensures Mentions(after, h) {
      AddCovers(sc, rows, r, groups, k, h);
    }
  }

  // ------------------------------------------------------------------- plan

  function Keys(rows: seq<Row>): (ks: seq<string>)
    ensures |ks| == |rows| && forall i :: 0 <= i < |rows| ==> ks[i] == rows[i].key
  {
    seq(|rows|, i requires 0 <= i < |rows| => rows[i].key)
  }

  function ItemFor(g: Group): Item
    requires g.recs != []
  {
    var sorted := SortDescending(g.recs);
    Item(g.hash, sorted[0].key, Keys(sorted[1..]), Keys(g.recs))
  }

  function DeleteTotal(plan: seq<Item>): nat {
    if plan == [] then 0 else DeleteTotal(plan[..|plan|-1]) + |plan[|plan|-1].deletes|
  }

  method PlanDeduplication(groups: seq<Group>) returns (plan: seq<Item>, total: nat)
    requires forall g :: g in groups ==> g.recs != []
    ensures |plan| == |groups| && forall i :: 0 <= i < |plan| ==> groups[i].recs != [] && plan[i] == ItemFor(groups[i])
    ensures total == DeleteTotal(plan)
  {
    hide SortDescending, StableSort.Descending, StableSort.IsFirstBest;
    plan, total := [], 0;
    for i := 0 to |groups|
      invariant |plan| == i && forall j :: 0 <= j < i ==> groups[j].recs != [] && plan[j] == ItemFor(groups[j])
      invariant total == DeleteTotal(plan)
    {
      assert groups[i] in groups;
      var sorted := SortDescending(groups[i].recs);
      var keep, toDelete := sorted[0], sorted[1..];
      total := total + |toDelete|;
      assert (plan + [ItemFor(groups[i])])[..i] == plan;
      plan := plan + [Item(groups[i].hash, keep.key, Keys(toDelete), Keys(groups[i].recs))];
    }
  }

  ghost predicate IsPlanned(plan: seq<Item>, k: string) {
    exists i :: 0 <= i < |plan| && k in plan[i].deletes
  }

  // ---------------------------------------------------------------- execute

  ghost predicate DistinctKeys(rows: seq<Row>) {
    forall i, j :: 0 <= i < j < |rows| ==> rows[i].key != rows[j].key
  }

  function WithoutKey(rows: seq<Row>, k: string): (left: seq<Row>)
    ensures forall r :: r in left <==> r in rows && r.key != k
    ensures DistinctKeys(rows) ==> DistinctKeys(left)
    ensures (forall r :: r in rows ==> r.key != k) ==> left == rows
    ensures DistinctKeys(rows) && (exists r :: r in rows && r.key == k) ==> |left| == |rows| - 1
  {
    if rows == [] then []
    else
      assert rows == [rows[0]] + rows[1..];
      var rest := WithoutKey(rows[1..], k);
      if rows[0].key == k then rest else [rows[0]] + rest
  }

  predicate HasKey(rows: seq<Row>, k: string) { exists r :: r in rows && r.key == k }

  // Deletion succeeds for a stored key unless the store refuses it.
  method ExecuteDeduplication(rows: seq<Row>, plan: seq<Item>, refused: set<string>)
    returns (left: seq<Row>, deleted: nat)
    requires DistinctKeys(rows)
    ensures DistinctKeys(left) && deleted == |rows| - |left|
    ensures forall r :: r in left <==> r in rows && (IsPlanned(plan, r.key) ==> r.key in refused)
  {
    left, deleted := rows, 0;
    for i := 0 to |plan|
      invariant DistinctKeys(left) && deleted == |rows| - |left|
      invariant forall r :: r in left <==> r in rows && (IsPlanned(plan[..i], r.key) ==> r.key in refused)
    {
      left, deleted := DeleteAll(rows, left, deleted, plan[i].deletes, refused);
      forall k: string ensures IsPlanned(plan[..i+1], k) <==> IsPlanned(plan[..i], k) || k in plan[i].deletes {
        PlannedPush(plan, i, k);
      }
    }
    assert plan[..|plan|] == plan;
  }

  lemma PlannedPush(plan: seq<Item>, i: nat, k: string)
    requires i < |plan|
    ensures IsPlanned(plan[..i+1], k) <==> IsPlanned(plan[..i], k) || k in plan[i].deletes
  {
    if k in plan[i].deletes { assert plan[..i+1][i] == plan[i]; }
    if IsPlanned(plan[..i], k) {
      var j :| 0 <= j < i && k in plan[..i][j].deletes;
      assert plan[..i+1][j] == plan[j];
    }
  }

  method DeleteAll(ghost rows: seq<Row>, table: seq<Row>, count: nat, keys: seq<string>, refused: set<string>)
    returns (left: seq<Row>, deleted: nat)
    requires DistinctKeys(table) && count == |rows| - |table|
    ensures DistinctKeys(left) && deleted == |rows| - |left|
    ensures forall r :: r in left <==> r in table && (r.key in keys ==> r.key in refused)
  {
    left, deleted := table, count;
    for j := 0 to |keys|
      invariant DistinctKeys(left) && deleted == |rows| - |left|
      invariant forall r :: r in left <==> r in table && (r.key in keys[..j] ==> r.key in refused)
    {
      var k := keys[j];
      assert keys[..j+1] == keys[..j] + [k];
      var ok := HasKey(left, k) && k !in refused;
      if ok {
        left := WithoutKey(left, k);
        deleted := deleted + 1;
      }
    }
    assert keys[..|keys|] == keys;
  }

  // --------------------------------------------------------- the whole script

  // What stays: records without content, and of every hash the record of highest rank.
  ghost predicate IsKept(sc: Scanner, rows: seq<Row>, r: Row) {
    && r in rows
    && (Content(sc, r) != "" ==> r == SortDescending(GroupOf(sc, rows, HashOf(sc, r)))[0])
  }

  // No two stored contents share a hash.
  ghost predicate NoCollision(sc: Scanner, rows: seq<Row>) {
    forall r, q | r in rows && q in rows && Content(sc, r) != "" && Content(sc, q) != "" ::
      HashOf(sc, r) == HashOf(sc, q) ==>
      Content(sc, r) == Content(sc, q)
  }

  ghost function Contents(sc: Scanner, rows: seq<Row>): set<string> {
    set r | r in rows && Content(sc, r) != "" :: Content(sc, r)
  }

  function WithContent(sc: Scanner, rows: seq<Row>): (n: nat) {
    if rows == [] then 0 else (if Content(sc, rows[0]) != "" then 1 else 0) + WithContent(sc, rows[1..])
  }

  lemma SortedTail(s: seq<Row>, r: Row)
    requires s != [] && DistinctKeys(s) && r in s
    ensures var t := SortDescending(s); r.key in Keys(t[1..]) <==> r != t[0]
  {
    hide SortDescending, StableSort.Descending;
    var t := SortDescending(s);
    SortDistinct(s);
    assert r in t;
    var i :| 0 <= i < |t| && t[i] == r;
    if i > 0 { assert Keys(t[1..])[i-1] == r.key; }
    if r.key in Keys(t[1..]) {
      var j :| 0 <= j < |t| - 1 && Keys(t[1..])[j] == r.key;
      assert t[j+1].key == r.key;
    }
  }

  lemma SortDistinct(s: seq<Row>)
    requires DistinctKeys(s)
    ensures DistinctKeys(SortDescending(s))
  {
    StableSort.SortKeepsDistinct(RankAtMost, (r: Row) => r.key, s);
  }

  lemma {:induction false} GroupDistinct(sc: Scanner, rows: seq<Row>, h: string)
    requires DistinctKeys(rows)
    ensures DistinctKeys(GroupOf(sc, rows, h))
  {
    if rows != [] {
      var n := |rows| - 1;
      GroupDistinct(sc, rows[..n], h);
      var g := GroupOf(sc, rows[..n], h);
      forall i | 0 <= i < |g| ensures g[i].key != rows[n].key {
        assert g[i] in g;
      }
    }
  }

  ghost predicate IsPlanFor(groups: seq<Group>, plan: seq<Item>) {
    |plan| == |groups| && forall i :: 0 <= i < |plan| ==> groups[i].recs != [] && plan[i] == ItemFor(groups[i])
  }

  // The plan names exactly the records outranked within their group.
  lemma PlannedExactly(sc: Scanner, rows: seq<Row>, groups: seq<Group>, plan: seq<Item>, r: Row)
    requires DistinctKeys(rows) && IsGrouping(sc, rows, groups, 2) && IsPlanFor(groups, plan) && r in rows
    ensures IsPlanned(plan, r.key) <==> !IsKept(sc, rows, r)
  {
    hide GroupOf, SortDescending;
    if IsPlanned(plan, r.key) {
      var i :| 0 <= i < |plan| && r.key in plan[i].deletes;
      var g := groups[i].recs;
      var t := SortDescending(g);
      var j :| 0 <= j < |t| - 1 && Keys(t[1..])[j] == r.key;
      assert t[j+1] in g;
      SameKey(rows, t[j+1], r);
      GroupDistinct(sc, rows, groups[i].hash);
      SortedTail(g, r);
    }
    if !IsKept(sc, rows, r) {
      var h := HashOf(sc, r);
      var g := GroupOf(sc, rows, h);
      assert InGroup(sc, h, r) && r in g;
      GroupDistinct(sc, rows, h);
      SortedTail(g, r);
      Outranked(g, r);
      assert Mentions(groups, h);
      var i :| 0 <= i < |groups| && groups[i].hash == h;
      assert r.key in plan[i].deletes;
    }
  }

  lemma SameKey(rows: seq<Row>, a: Row, b: Row)
    requires DistinctKeys(rows) && a in rows && b in rows && a.key == b.key
    ensures a == b
  {}

  lemma Outranked(g: seq<Row>, r: Row)
    requires r in g && r != SortDescending(g)[0]
    ensures |g| >= 2
  {
    assert SortDescending(g)[0] in g;
  }

  // Scan, plan and delete, as the script does when told to apply.
  method Deduplicate(sc: Scanner, rows: seq<Row>, refused: set<string>) returns (left: seq<Row>, deleted: nat)
    requires DistinctKeys(rows)
    ensures DistinctKeys(left) && deleted == |rows| - |left|
    ensures forall r :: r in left <==> r in rows && (IsKept(sc, rows, r) || r.key in refused)
  {
    hide IsKept, IsGrouping;
    var groups := FindDuplicates(sc, rows);
    forall g | g in groups ensures g.recs != [] { GroupsNotEmpty(sc, rows, groups, g); }
    var plan, _ := PlanDeduplication(groups);
    left, deleted := ExecuteDeduplication(rows, plan, refused);
    forall r | r in rows ensures IsPlanned(plan, r.key) <==> !IsKept(sc, rows, r) {
      PlannedExactly(sc, rows, groups, plan, r);
    }
  }

  lemma GroupsNotEmpty(sc: Scanner, rows: seq<Row>, groups: seq<Group>, g: Group)
    requires IsGrouping(sc, rows, groups, 2) && g in groups
    ensures g.recs != []
  {}

  // ------------------------------------------------------ what the script does

  // The table after every planned deletion succeeded.
  ghost predicate IsCleaned(sc: Scanner, rows: seq<Row>, left: seq<Row>) {
    DistinctKeys(rows) && DistinctKeys(left) && forall r :: r in left <==> IsKept(sc, rows, r)
  }

  function Keeper(sc: Scanner, rows: seq<Row>, h: string): Row
    requires GroupOf(sc, rows, h) != []
  {
    SortDescending(GroupOf(sc, rows, h))[0]
  }

  lemma KeeperIsKept(sc: Scanner, rows: seq<Row>, h: string)
    requires GroupOf(sc, rows, h) != []
    ensures IsKept(sc, rows, Keeper(sc, rows, h)) && InGroup(sc, h, Keeper(sc, rows, h))
    ensures forall r :: r in rows && InGroup(sc, h, r) ==> AtMost(RankOf(r), RankOf(Keeper(sc, rows, h)))
  {
    hide SortDescending, GroupOf;
    var g := GroupOf(sc, rows, h);
    var t := SortDescending(g);
    assert t[0] in g;
    forall r | r in rows && InGroup(sc, h, r) ensures AtMost(RankOf(r), RankOf(t[0])) {
      assert r in g && r in t;
      var i :| 0 <= i < |t| && t[i] == r;
    }
  }

  lemma KeptPerHash(sc: Scanner, rows: seq<Row>, left: seq<Row>, r: Row, q: Row)
    requires IsCleaned(sc, rows, left) && r in left && q in left
    requires Content(sc, r) != "" && Content(sc, q) != "" && HashOf(sc, r) == HashOf(sc, q)
    ensures r == q
  {
    hide SortDescending, GroupOf;
    assert IsKept(sc, rows, r) && IsKept(sc, rows, q);
  }

  // Where contents do not collide, each non-empty content keeps exactly one record, and that
  // one has the highest rank among the records that had the content.
  lemma OneKeptPerContent(sc: Scanner, rows: seq<Row>, left: seq<Row>, c: string)
    requires IsCleaned(sc, rows, left) && NoCollision(sc, rows) && c in Contents(sc, rows)
    ensures exists r ::
      && r in left && Content(sc, r) == c
      && (forall q :: q in left && Content(sc, q) == c ==> q == r)
      && (forall q :: q in rows && Content(sc, q) == c ==> AtMost(RankOf(q), RankOf(r)))
  {
    hide SortDescending, GroupOf;
    var x :| x in rows && Content(sc, x) != "" && Content(sc, x) == c;
    var h := HashOf(sc, x);
    assert InGroup(sc, h, x) && x in GroupOf(sc, rows, h);
    KeeperIsKept(sc, rows, h);
    var r := Keeper(sc, rows, h);
    assert r in left && Content(sc, r) == c;
    forall q | q in left && Content(sc, q) == c ensures q == r { KeptPerHash(sc, rows, left, q, r); }
    forall q | q in rows && Content(sc, q) == c ensures AtMost(RankOf(q), RankOf(r)) { assert InGroup(sc, h, q); }
  }

  // The set of contents survives exactly when no two of them share a hash.
  lemma ContentsKeptExactly(sc: Scanner, rows: seq<Row>, left: seq<Row>)
    requires IsCleaned(sc, rows, left)
    ensures Contents(sc, left) == Contents(sc, rows) <==> NoCollision(sc, rows)
  {
    hide SortDescending, GroupOf, IsKept;
    CleanedIsPart(sc, rows, left);
    if NoCollision(sc, rows) {
      forall c | c in Contents(sc, rows) ensures c in Contents(sc, left) { OneKeptPerContent(sc, rows, left, c); }
    } else {
      var r, q :| r in rows && q in rows && Content(sc, r) != "" && Content(sc, q) != ""
        && HashOf(sc, r) == HashOf(sc, q) && Content(sc, r) != Content(sc, q);
      if Contents(sc, left) == Contents(sc, rows) {
        assert Content(sc, r) in Contents(sc, left) && Content(sc, q) in Contents(sc, left);
        var a :| a in left && Content(sc, a) == Content(sc, r);
        var b :| b in left && Content(sc, b) == Content(sc, q);
        KeptPerHash(sc, rows, left, a, b);
        assert false;
      }
    }
  }

  lemma CleanedIsPart(sc: Scanner, rows: seq<Row>, left: seq<Row>)
    requires IsCleaned(sc, rows, left)
    ensures (forall r :: r in left ==> r in rows) && Contents(sc, left) <= Contents(sc, rows)
  {
    hide SortDescending, GroupOf;
    assert forall r :: r in left ==> IsKept(sc, rows, r);
  }

  // A second scan finds nothing to do.
  lemma SecondScanIsEmpty(sc: Scanner, rows: seq<Row>, left: seq<Row>, again: seq<Group>)
    requires IsCleaned(sc, rows, left) && IsGrouping(sc, left, again, 2)
    ensures again == []
  {
    hide GroupOf, IsKept;
    if again != [] {
      var h := again[0].hash;
      var g := GroupOf(sc, left, h);
      assert |g| >= 2;
      GroupDistinct(sc, left, h);
      assert g[0] in g && g[1] in g;
      KeptPerHash(sc, rows, left, g[0], g[1]);
      assert false;
    }
  }

  lemma {:induction false} CountContents(sc: Scanner, rows: seq<Row>)
    requires DistinctKeys(rows)
    requires forall r, q :: r in rows && q in rows && Content(sc, r) != "" && Content(sc, r) == Content(sc, q) ==>
        r == q
    ensures WithContent(sc, rows) == |Contents(sc, rows)|
  {
    if rows == [] {
      assert Contents(sc, rows) == {};
    } else {
      var r, rest := rows[0], rows[1..];
      assert rows == [r] + rest;
      CountContents(sc, rest);
      if Content(sc, r) == "" {
        assert Contents(sc, rows) == Contents(sc, rest);
      } else {
        assert Contents(sc, rows) == Contents(sc, rest) + {Content(sc, r)};
        assert r !in rest;
        assert Content(sc, r) !in Contents(sc, rest);
      }
    }
  }

  function WithoutContent(sc: Scanner, rows: seq<Row>): (n: nat)
    ensures n + WithContent(sc, rows) == |rows|
  {
    if rows == [] then 0 else (if Content(sc, rows[0]) == "" then 1 else 0) + WithoutContent(sc, rows[1..])
  }

  function EmptyKeys(sc: Scanner, rows: seq<Row>): set<string> {
    set r | r in rows && Content(sc, r) == "" :: r.key
  }

  lemma {:induction false} CountEmpty(sc: Scanner, rows: seq<Row>)
    requires DistinctKeys(rows)
    ensures WithoutContent(sc, rows) == |EmptyKeys(sc, rows)|
  {
    if rows == [] {
      assert EmptyKeys(sc, rows) == {};
    } else {
      var r, rest := rows[0], rows[1..];
      assert rows == [r] + rest;
      CountEmpty(sc, rest);
      if Content(sc, r) != "" {
        assert EmptyKeys(sc, rows) == EmptyKeys(sc, rest);
      } else {
        assert EmptyKeys(sc, rows) == EmptyKeys(sc, rest) + {r.key};
        assert r.key !in EmptyKeys(sc, rest);
      }
    }
  }

  // The number of deletions: records with content, minus distinct contents.
  lemma {:induction false} DeletionsCounted(sc: Scanner, rows: seq<Row>, left: seq<Row>)
    requires IsCleaned(sc, rows, left) && NoCollision(sc, rows)
    ensures |rows| - |left| == WithContent(sc, rows) - |Contents(sc, rows)|
  {
    hide SortDescending, GroupOf;
    ContentsKeptExactly(sc, rows, left);
    forall r, q | r in left && q in left && Content(sc, r) != "" && Content(sc, r) == Content(sc, q) ensures r == q {
      KeptPerHash(sc, rows, left, r, q);
    }
    CountContents(sc, left);
    CountEmpty(sc, rows);
    CountEmpty(sc, left);
    EmptyStay(sc, rows, left);
  }

  lemma EmptyStay(sc: Scanner, rows: seq<Row>, left: seq<Row>)
    requires IsCleaned(sc, rows, left)
    ensures EmptyKeys(sc, left) == EmptyKeys(sc, rows)
  {
    hide SortDescending, GroupOf;
    forall r | Content(sc, r) == "" ensures r in left <==> r in rows {
      assert IsKept(sc, rows, r) <==> r in rows;
    }
  }

  // ----------------------------------------------------- which record is kept

  predicate IsMemoryKey(k: string) { "hermes:memory_md:" <= k || "hermes:user_md:" <= k }

  predicate IsHermesKey(k: string) { "hermes:" <= k }

  lemma MemoryKeysAreHermes(k: string)
    ensures IsMemoryKey(k) ==> IsHermesKey(k)
  {
    assert "hermes:memory_md:"[..7] == "hermes:" == "hermes:user_md:"[..7];
    if "hermes:memory_md:" <= k { assert k[..7] == "hermes:memory_md:"[..7]; }
    if "hermes:user_md:" <= k { assert k[..7] == "hermes:user_md:"[..7]; }
  }

  // Of the records with one content, the one kept has a canonical memory key if any has,
  // else a hermes key if any has; among keys of the same kind it is the newest, and among
  // the newest it has the longest key.
  lemma RetentionRule(sc: Scanner, rows: seq<Row>, left: seq<Row>, r: Row, q: Row)
    requires IsCleaned(sc, rows, left) && r in left && q in rows
    requires Content(sc, r) != "" && Content(sc, q) == Content(sc, r)
    ensures IsMemoryKey(q.key) ==> IsMemoryKey(r.key)
    ensures IsHermesKey(q.key) ==> IsHermesKey(r.key)
    ensures IsMemoryKey(q.key) == IsMemoryKey(r.key) && IsHermesKey(q.key) == IsHermesKey(r.key) ==>
      q.timestamp < r.timestamp || (q.timestamp == r.timestamp && |q.key| <= |r.key|)
  {
    hide SortDescending, GroupOf;
    var h := HashOf(sc, r);
    assert IsKept(sc, rows, r) && InGroup(sc, h, r) && InGroup(sc, h, q);
    assert r in GroupOf(sc, rows, h);
    KeeperIsKept(sc, rows, h);
    assert AtMost(RankOf(q), RankOf(r));
    MemoryKeysAreHermes(q.key);
    MemoryKeysAreHermes(r.key);
  }
}
