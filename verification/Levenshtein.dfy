// The fast test for an edit distance of at most one (write_path.py), against the
// recursive definition of the distance.
module Levenshtein {
  function Min3(a: nat, b: nat, c: nat): nat {
    if a <= b && a <= c then a else if b <= c then b else c
  }

  // Fewest insertions, deletions and substitutions that turn a into b.
  function Distance(a: string, b: string): nat
    decreases |a| + |b|
  {
    if a == [] then |b|
    else if b == [] then |a|
    else Min3(Distance(a[1..], b) + 1, Distance(a, b[1..]) + 1,
              Distance(a[1..], b[1..]) + if a[0] == b[0] then 0 else 1)
  }

  lemma {:induction false} DistanceSymmetric(a: string, b: string)
    ensures Distance(a, b) == Distance(b, a)
    decreases |a| + |b|
  {
    if a != [] && b != [] {
      DistanceSymmetric(a[1..], b);
      DistanceSymmetric(a, b[1..]);
      DistanceSymmetric(a[1..], b[1..]);
    }
  }

  lemma {:induction false} DistanceZero(a: string, b: string)
    ensures Distance(a, b) == 0 <==> a == b
    decreases |a| + |b|
  {
    if a != [] && b != [] {
      DistanceZero(a[1..], b[1..]);
      assert a == [a[0]] + a[1..] && b == [b[0]] + b[1..];
    }
  }

  lemma {:induction false} DistanceLength(a: string, b: string)
    ensures |b| <= |a| + Distance(a, b) && |a| <= |b| + Distance(a, b)
    decreases |a| + |b|
  {
    if a != [] && b != [] {
      DistanceLength(a[1..], b);
      DistanceLength(a, b[1..]);
      DistanceLength(a[1..], b[1..]);
    }
  }

  // Dropping a first character changes the distance by at most one.
  lemma {:induction false} DropLeft(a: string, b: string)
    requires a != []
    ensures Distance(a[1..], b) <= Distance(a, b) + 1
    decreases |a| + |b|
  {
    if b != [] {
      DropLeft(a, b[1..]);
      if a[1..] != [] { assert Distance(a[1..], b) <= Distance(a[1..], b[1..]) + 1; }
    }
  }

  // Equal first characters can be skipped.
  lemma {:induction false} SameHead(a: string, b: string)
    requires a != [] && b != [] && a[0] == b[0]
    ensures Distance(a, b) == Distance(a[1..], b[1..])
  {
    DropLeft(a, b[1..]);
    DropLeft(b, a[1..]);
    DistanceSymmetric(a[1..], b);
    DistanceSymmetric(a[1..], b[1..]);
  }

  lemma DifferentHead(a: string, b: string)
    requires a != [] && b != [] && a[0] != b[0] && |a| <= |b| <= |a| + 1
    ensures Distance(a, b) <= 1 <==> if |a| == |b| then a[1..] == b[1..] else a == b[1..]
  {
    DistanceZero(a[1..], b);
    DistanceZero(a, b[1..]);
    DistanceZero(a[1..], b[1..]);
  }

  function Mismatches(a: string, b: string): nat
    requires |a| == |b|
  {
    if a == [] then 0 else Mismatches(a[..|a|-1], b[..|b|-1]) + if a[|a|-1] != b[|b|-1] then 1 else 0
  }

  lemma {:induction false} MismatchesFront(a: string, b: string)
    requires |a| == |b| > 0
    ensures Mismatches(a, b) == Mismatches(a[1..], b[1..]) + if a[0] != b[0] then 1 else 0
  {
    if |a| > 1 {
      var n := |a| - 1;
      MismatchesFront(a[..n], b[..n]);
      assert a[..n][1..] == a[1..][..n-1] && b[..n][1..] == b[1..][..n-1];
    }
  }

  lemma {:induction false} NoMismatch(a: string, b: string)
    requires |a| == |b|
    ensures Mismatches(a, b) == 0 <==> a == b
  {
    if a != [] {
      MismatchesFront(a, b);
      NoMismatch(a[1..], b[1..]);
      assert a == [a[0]] + a[1..] && b == [b[0]] + b[1..];
    }
  }

  lemma {:induction false} MismatchesDecide(a: string, b: string)
    requires |a| == |b|
    ensures Mismatches(a, b) <= 1 <==> Distance(a, b) <= 1
  {
    if a != [] {
      MismatchesFront(a, b);
      if a[0] == b[0] {
        SameHead(a, b);
        MismatchesDecide(a[1..], b[1..]);
      } else {
        DifferentHead(a, b);
        NoMismatch(a[1..], b[1..]);
      }
    }
  }

  method WithinOne(s1: string, s2: string) returns (close: bool)
    ensures close <==> Distance(s1, s2) <= 1
  {
    if s1 == s2 {
      DistanceZero(s1, s2);
      return true;
    }
    DistanceLength(s1, s2);
    if |s1| > |s2| + 1 || |s2| > |s1| + 1 { return false; }
    if |s1| == |s2| {
      var diffs := 0;
      for k := 0 to |s1|
        invariant diffs == Mismatches(s1[..k], s2[..k])
      {
        assert s1[..k+1][..k] == s1[..k] && s2[..k+1][..k] == s2[..k];
        if s1[k] != s2[k] { diffs := diffs + 1; }
      }
      assert s1[..|s1|] == s1 && s2[..|s2|] == s2;
      MismatchesDecide(s1, s2);
      return diffs <= 1;
    }
    DistanceSymmetric(s1, s2);
    if |s1| > |s2| {
      close := OneLonger(s2, s1);
    } else {
      close := OneLonger(s1, s2);
    }
  }

  // The two-pointer walk over a string and one that is longer by one character.
  method OneLonger(s1: string, s2: string) returns (close: bool)
    requires |s2| == |s1| + 1
    ensures close <==> Distance(s1, s2) <= 1
  {
    var i, j, diffs := 0, 0, 0;
    while i < |s1| && j < |s2|
      invariant 0 <= i <= |s1| && 0 <= j <= |s2| && 0 <= diffs <= 1 && j == i + diffs
      invariant diffs == 0 ==> (Distance(s1, s2) <= 1 <==> Distance(s1[i..], s2[j..]) <= 1)
      invariant diffs == 1 ==> (Distance(s1, s2) <= 1 <==> s1[i..] == s2[j..])
      decreases |s2| - j
    {
      assert s1[i..][1..] == s1[i+1..] && s2[j..][1..] == s2[j+1..];
      assert s1[i..] == [s1[i]] + s1[i+1..] && s2[j..] == [s2[j]] + s2[j+1..];
      if s1[i] == s2[j] {
        SameHead(s1[i..], s2[j..]);
        i, j := i + 1, j + 1;
      } else {
        diffs := diffs + 1;
        if diffs > 1 { return false; }
        DifferentHead(s1[i..], s2[j..]);
        j := j + 1;
      }
    }
    close := true;
  }
}
