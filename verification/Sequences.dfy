/** What spreading a Set built from a sequence gives back: its distinct elements in first-occurrence order. */
module Sequences {

  predicate NoDuplicates<T(==)>(s: seq<T>) {
    forall i, j :: 0 <= i < j < |s| ==> s[i] != s[j]
  }

  function Distinct<T(==)>(s: seq<T>): seq<T> {
    if s == [] then []
    else
      var front := s[..|s| - 1];
      var last := s[|s| - 1];
      if last in front then Distinct(front) else Distinct(front) + [last]
  }

  // The same elements, each once, none before an element that occurred earlier.
  lemma {:induction false} DistinctIsTheSet<T>(s: seq<T>)
    ensures forall x :: x in Distinct(s) <==> x in s
    ensures NoDuplicates(Distinct(s)) && |Distinct(s)| <= |s|
  {
    if s != [] {
      DistinctIsTheSet(s[..|s| - 1]);
      assert s == s[..|s| - 1] + [s[|s| - 1]];
    }
  }

  // The place where `x` first occurs.
  function FirstIndex<T(==)>(s: seq<T>, x: T): (r: nat)
    requires x in s
    ensures r < |s| && s[r] == x && x !in s[..r]
  {
    if s[0] == x then 0 else 1 + FirstIndex(s[1..], x)
  }

  lemma FirstIndexUnique<T>(s: seq<T>, x: T, r: nat)
    requires r < |s| && s[r] == x && x !in s[..r]
    ensures FirstIndex(s, x) == r
  {
    if r > 0 {
      assert s[..r][0] == s[0];
      assert s[1..][..r - 1] == s[..r][1..];
      FirstIndexUnique(s[1..], x, r - 1);
    }
  }

  lemma ElementOfDistinct<T>(s: seq<T>, i: nat)
    requires i < |Distinct(s)|
    ensures Distinct(s)[i] in s
  {
    DistinctIsTheSet(s);
    assert Distinct(s)[i] in Distinct(s);
  }

  lemma {:induction false} DistinctKeepsOrder<T>(s: seq<T>, i: nat, j: nat)
    requires i < j < |Distinct(s)|
    ensures Distinct(s)[i] in s && Distinct(s)[j] in s
    ensures FirstIndex(s, Distinct(s)[i]) < FirstIndex(s, Distinct(s)[j])
  {
    ElementOfDistinct(s, i);
    ElementOfDistinct(s, j);
    var front := s[..|s| - 1];
    assert i < |Distinct(front)| && Distinct(s)[i] == Distinct(front)[i];
    ElementOfDistinct(front, i);
    FirstIndexOfPrefix(s, Distinct(s)[i]);
    if j < |Distinct(front)| {
      DistinctKeepsOrder(front, i, j);
      ElementOfDistinct(front, j);
      FirstIndexOfPrefix(s, Distinct(s)[j]);
    } else {
      FirstIndexUnique(s, s[|s| - 1], |s| - 1);
    }
  }

  lemma FirstIndexOfPrefix<T>(s: seq<T>, x: T)
    requires s != [] && x in s[..|s| - 1]
    ensures x in s && FirstIndex(s, x) == FirstIndex(s[..|s| - 1], x)
  {
    var r := FirstIndex(s[..|s| - 1], x);
    assert s[..|s| - 1][..r] == s[..r];
    FirstIndexUnique(s, x, r);
  }

  lemma {:induction false} DistinctOfDistinct<T>(s: seq<T>)
    requires NoDuplicates(s)
    ensures Distinct(s) == s
  {
    if s != [] {
      DistinctOfDistinct(s[..|s| - 1]);
      assert s == s[..|s| - 1] + [s[|s| - 1]];
    }
  }

  // `part` stands in `s` at place `i`.
  predicate At<T(==)>(s: seq<T>, i: nat, part: seq<T>) {
    i + |part| <= |s| && forall k :: 0 <= k < |part| ==> s[i + k] == part[k]
  }

  lemma AtParts<T>(s: seq<T>, i: nat, left: seq<T>, right: seq<T>)
    requires At(s, i, left + right)
    ensures At(s, i, left) && At(s, i + |left|, right)
  {
    assert forall k :: 0 <= k < |left| ==> (left + right)[k] == left[k];
    assert forall k :: 0 <= k < |right| ==> (left + right)[|left| + k] == right[k];
  }

  // Distinct elements of a sequence are no more than it has.
  lemma NoLonger<T>(s: seq<T>, of: seq<T>)
    requires NoDuplicates(s) && forall x :: x in s ==> x in of
    ensures |s| <= |of|
  {
    var members := set x | x in s;
    var all := set x | x in of;
    DistinctCardinality(s);
    CardinalityAtMost(of);
    assert members <= all;
    SubsetCardinality(members, all);
  }

  lemma {:induction false} DistinctCardinality<T>(s: seq<T>)
    requires NoDuplicates(s)
    ensures |set x | x in s| == |s|
  {
    if s != [] {
      var front := s[..|s| - 1];
      DistinctCardinality(front);
      assert (set x | x in s) == (set x | x in front) + {s[|s| - 1]};
    }
  }

  lemma {:induction false} CardinalityAtMost<T>(s: seq<T>)
    ensures |set x | x in s| <= |s|
  {
    if s != [] {
      var front := s[..|s| - 1];
      CardinalityAtMost(front);
      assert (set x | x in s) == (set x | x in front) + {s[|s| - 1]};
    }
  }

  lemma SubsetCardinality<T>(a: set<T>, b: set<T>)
    requires a <= b
    ensures |a| <= |b|
  {
    assert b == a + (b - a);
  }
}
