// Sorting real numbers and searching in the result.
module SortedReals {
  ghost predicate Sorted(s: seq<real>) { forall i, j :: 0 <= i <= j < |s| ==> s[i] <= s[j] }

  // How many elements of a sorted sequence are at most v.
  function BisectRight(xs: seq<real>, v: real): (k: nat)
    ensures k <= |xs| && (forall i :: 0 <= i < k ==> xs[i] <= v) && (k < |xs| ==> v < xs[k])
  {
    if xs == [] || v < xs[0] then 0 else 1 + BisectRight(xs[1..], v)
  }

  lemma SplitSorted(s: seq<real>, k: nat, x: real)
    requires Sorted(s) && k <= |s|
    requires (forall i :: 0 <= i < k ==> s[i] <= x) && (k < |s| ==> x < s[k])
    ensures Sorted(s[..k] + [x] + s[k..])
  {
    var r := s[..k] + [x] + s[k..];
    forall i, j | 0 <= i < j < |r| ensures r[i] <= r[j] {
      assert r[i] == (if i < k then s[i] else if i == k then x else s[i-1]);
      assert r[j] == (if j < k then s[j] else if j == k then x else s[j-1]);
    }
  }

  function Insert(x: real, s: seq<real>): (r: seq<real>)
    requires Sorted(s)
    ensures Sorted(r) && multiset(r) == multiset(s) + multiset{x} && |r| == |s| + 1
  {
    hide Sorted;
    var k := BisectRight(s, x);
    SplitSorted(s, k, x);
    assert s == s[..k] + s[k..];
    s[..k] + [x] + s[k..]
  }

  function Sort(s: seq<real>): (r: seq<real>)
    ensures Sorted(r) && multiset(r) == multiset(s) && |r| == |s|
  {
    if s == [] then []
    else
      assert s == [s[0]] + s[1..];
      Insert(s[0], Sort(s[1..]))
  }

  lemma InSorted(s: seq<real>, x: real)
    ensures x in s <==> x in Sort(s)
  {
    assert x in s <==> x in multiset(s);
    assert x in Sort(s) <==> x in multiset(Sort(s));
  }
}
