// A stable sort, the largest first: Python's sort with reverse=True.
module StableSort {
  // The comparison ranks all elements; different elements may have the same rank.
  ghost predicate IsRanking<T(!new)>(atMost: (T, T) -> bool) {
    && (forall a, b :: atMost(a, b) || atMost(b, a))
    && (forall a, b, c :: atMost(a, b) && atMost(b, c) ==> atMost(a, c))
  }

  ghost predicate Descending<T>(atMost: (T, T) -> bool, s: seq<T>) {
    forall i, j :: 0 <= i < j < |s| ==> atMost(s[j], s[i])
  }

  // After every element that ranks at least as high.
  function Insert<T>(atMost: (T, T) -> bool, s: seq<T>, x: T): (r: seq<T>)
    ensures |r| == |s| + 1 && multiset(r) == multiset(s) + multiset{x}
  {
    if s == [] || atMost(x, s[|s|-1]) then s + [x]
    else
      assert s == s[..|s|-1] + [s[|s|-1]];
      Insert(atMost, s[..|s|-1], x) + [s[|s|-1]]
  }

  function Sort<T>(atMost: (T, T) -> bool, s: seq<T>): (r: seq<T>)
    ensures |r| == |s| && multiset(r) == multiset(s)
  {
    if s == [] then []
    else
      assert s == s[..|s|-1] + [s[|s|-1]];
      Insert(atMost, Sort(atMost, s[..|s|-1]), s[|s|-1])
  }

  lemma SameElements<T>(atMost: (T, T) -> bool, s: seq<T>)
    ensures forall x :: x in Sort(atMost, s) <==> x in s
  {
    forall x ensures x in Sort(atMost, s) <==> x in s {
      assert x in s <==> x in multiset(s);
      assert x in Sort(atMost, s) <==> x in multiset(Sort(atMost, s));
    }
  }

  ghost predicate Fits<T>(atMost: (T, T) -> bool, s: seq<T>, x: T, k: nat) {
    k <= |s| && (k > 0 ==> atMost(x, s[k-1])) && forall j :: k <= j < |s| ==> !atMost(x, s[j])
  }

  lemma FitsBefore<T>(atMost: (T, T) -> bool, front: seq<T>, last: T, x: T, k: nat)
    requires Fits(atMost, front, x, k) && !atMost(x, last)
    ensures Fits(atMost, front + [last], x, k)
    ensures (front[..k] + [x] + front[k..]) + [last] == (front + [last])[..k] + [x] + (front + [last])[k..]
  {
    var s := front + [last];
    assert s[..k] == front[..k];
    assert s[k..] == front[k..] + [last];
  }

  lemma {:induction false} InsertAt<T>(atMost: (T, T) -> bool, s: seq<T>, x: T) returns (k: nat)
    ensures Fits(atMost, s, x, k) && Insert(atMost, s, x) == s[..k] + [x] + s[k..]
  {
    if s == [] || atMost(x, s[|s|-1]) {
      k := |s|;
      assert s[..k] == s && s[k..] == [];
    } else {
      var front, last := s[..|s|-1], s[|s|-1];
      assert Insert(atMost, s, x) == Insert(atMost, front, x) + [last];
      hide Insert, Fits;
      k := InsertAt(atMost, front, x);
      assert s == front + [last];
      FitsBefore(atMost, front, last, x, k);
    }
  }

  lemma InsertDescends<T(!new)>(atMost: (T, T) -> bool, s: seq<T>, x: T)
    requires IsRanking(atMost) && Descending(atMost, s)
    ensures Descending(atMost, Insert(atMost, s, x))
  {
    hide Insert;
    var k := InsertAt(atMost, s, x);
    var r := s[..k] + [x] + s[k..];
    forall i, j | 0 <= i < j < |r| ensures atMost(r[j], r[i]) {
      assert r[i] == if i < k then s[i] else if i == k then x else s[i-1];
      assert r[j] == if j < k then s[j] else if j == k then x else s[j-1];
      if j == k && i < k - 1 { assert atMost(s[k-1], s[i]); }
    }
  }

  // The first element of l that no element outranks.
  ghost predicate IsFirstBest<T>(atMost: (T, T) -> bool, l: seq<T>, x: T) {
    exists k :: 0 <= k < |l| && l[k] == x
      && (forall j :: 0 <= j < k ==> !atMost(x, l[j]))
      && (forall j :: 0 <= j < |l| ==> atMost(l[j], x))
  }

  // Sorting keeps every element, orders them, and puts the earliest of the best ones first.
  lemma {:induction false} SortOk<T(!new)>(atMost: (T, T) -> bool, l: seq<T>)
    requires IsRanking(atMost)
    ensures Descending(atMost, Sort(atMost, l))
    ensures l != [] ==> IsFirstBest(atMost, l, Sort(atMost, l)[0])
  {
    hide Insert, IsFirstBest;
    if l != [] {
      var front, x := l[..|l|-1], l[|l|-1];
      SortOk(atMost, front);
      InsertDescends(atMost, Sort(atMost, front), x);
      FirstBestPush(atMost, front, Sort(atMost, front), x);
      assert l == front + [x];
    }
  }

  lemma FirstBestPush<T(!new)>(atMost: (T, T) -> bool, front: seq<T>, sorted: seq<T>, x: T)
    requires IsRanking(atMost) && multiset(sorted) == multiset(front) && |sorted| == |front|
    requires front != [] ==> IsFirstBest(atMost, front, sorted[0])
    ensures IsFirstBest(atMost, front + [x], Insert(atMost, sorted, x)[0])
  {
    hide Insert;
    var k := InsertAt(atMost, sorted, x);
    var l := front + [x];
    if k == 0 {
      forall j | 0 <= j < |front| ensures !atMost(x, front[j]) {
        assert front[j] in multiset(front);
        assert front[j] in sorted;
      }
      assert l[|front|] == x;
    } else {
      var h := sorted[0];
      var i :| 0 <= i < |front| && front[i] == h && (forall j :: 0 <= j < i ==> !atMost(h, front[j]))
        && (forall j :: 0 <= j < |front| ==> atMost(front[j], h));
      assert sorted[k-1] in multiset(sorted);
      assert sorted[k-1] in front;
      assert l[i] == h && atMost(x, h);
    }
  }

  ghost predicate Distinct<T, K>(key: T -> K, s: seq<T>) {
    forall i, j :: 0 <= i < j < |s| ==> key(s[i]) != key(s[j])
  }

  lemma DistinctInsert<T, K>(key: T -> K, s: seq<T>, x: T, k: nat)
    requires Distinct(key, s) && k <= |s| && forall i :: 0 <= i < |s| ==> key(s[i]) != key(x)
    ensures Distinct(key, s[..k] + [x] + s[k..])
  {
    var r := s[..k] + [x] + s[k..];
    forall i, j | 0 <= i < j < |r| ensures key(r[i]) != key(r[j]) {
      assert r[i] == if i < k then s[i] else if i == k then x else s[i-1];
      assert r[j] == if j < k then s[j] else if j == k then x else s[j-1];
    }
  }

  lemma {:induction false} SortKeepsDistinct<T, K>(atMost: (T, T) -> bool, key: T -> K, s: seq<T>)
    requires Distinct(key, s)
    ensures Distinct(key, Sort(atMost, s))
  {
    if s != [] {
      var front, x := s[..|s|-1], s[|s|-1];
      SortKeepsDistinct(atMost, key, front);
      var t := Sort(atMost, front);
      assert Sort(atMost, s) == Insert(atMost, t, x);
      hide Insert, Sort, Fits, Distinct;
      SameElements(atMost, front);
      var k := InsertAt(atMost, t, x);
      forall i | 0 <= i < |t| ensures key(t[i]) != key(x) {
        assert t[i] in t;
        KeyDiffers(key, s, t[i]);
      }
      DistinctInsert(key, t, x, k);
    }
  }

  lemma KeyDiffers<T, K>(key: T -> K, s: seq<T>, x: T)
    requires s != [] && Distinct(key, s) && x in s[..|s|-1]
    ensures key(x) != key(s[|s|-1])
  {}
}
