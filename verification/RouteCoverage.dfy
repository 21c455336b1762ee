/** Which declared route a referenced path is credited to, and the normal form both are put in. */
module RouteCoverage {
  import opened Wrappers

  // ---------------------------------------------------------------------------------------
  // Attribution
  // ---------------------------------------------------------------------------------------

  const WILDCARD := ":x"

  // The pieces between slashes.
  function Split(path: string): (r: seq<string>)
    ensures r != []
  {
    if path == "" then [""]
    else
      var rest := Split(path[1..]);
      if path[0] == '/' then [""] + rest else [[path[0]] + rest[0]] + rest[1..]
  }

  function Joined(segments: seq<string>): string
    requires segments != []
  {
    if |segments| == 1 then segments[0] else segments[0] + "/" + Joined(segments[1..])
  }

  lemma {:induction false} JoinedSplit(path: string)
    ensures Joined(Split(path)) == path
  {
    if path != "" {
      var rest := Split(path[1..]);
      JoinedSplit(path[1..]);
      if path[0] == '/' {
        assert ([""] + rest)[1..] == rest;
        assert Joined([""] + rest) == "" + "/" + Joined(rest);
      } else {
        var all := [[path[0]] + rest[0]] + rest[1..];
        assert all[1..] == rest[1..];
        assert Joined(all) == [path[0]] + Joined(rest);
      }
      assert path == [path[0]] + path[1..];
    }
  }

  predicate SegmentFits(a: string, b: string) {
    a == b || a == WILDCARD || b == WILDCARD
  }

  // Either side may hold the wildcard.
  predicate Fits(candidate: seq<string>, ref: seq<string>) {
    |candidate| == |ref| && forall i :: 0 <= i < |ref| ==> SegmentFits(candidate[i], ref[i])
  }

  // The places where a wildcard was needed.
  function Wildcards(candidate: seq<string>, ref: seq<string>): nat
    requires |candidate| == |ref|
  {
    if ref == [] then 0
    else
      var last := |ref| - 1;
      Wildcards(candidate[..last], ref[..last]) + if candidate[last] == ref[last] then 0 else 1
  }

  // A route fits a reference exactly when they have as many segments and wherever these differ one of
  // the two is the wildcard.
  lemma FitsIff(candidate: seq<string>, ref: seq<string>)
    ensures Fits(candidate, ref)
       <==> |candidate| == |ref|
            && forall i :: 0 <= i < |ref| && candidate[i] != ref[i] ==> candidate[i] == ":x" || ref[i] == ":x"
    ensures Fits(candidate, ref) <==> Fits(ref, candidate)
  {
  }

  function Differences(candidate: seq<string>, ref: seq<string>): set<nat>
    requires |candidate| == |ref|
  {
    set i: nat | i < |ref| && candidate[i] != ref[i]
  }

  // It then needs one wildcard for each place where they differ.
  lemma {:induction false} WildcardsAreDifferences(candidate: seq<string>, ref: seq<string>)
    requires |candidate| == |ref|
    ensures Wildcards(candidate, ref) == |Differences(candidate, ref)|
  {
    if ref != [] {
      var last := |ref| - 1;
      WildcardsAreDifferences(candidate[..last], ref[..last]);
      assert Differences(candidate, ref)
          == Differences(candidate[..last], ref[..last]) + if candidate[last] == ref[last] then {} else {last};
    }
  }

  // How many wildcards a route needs to fit a reference, if it fits.
  function Cost(route: string, ref: seq<string>): Option<nat> {
    if Fits(Split(route), ref) then Some(Wildcards(Split(route), ref)) else None
  }

  function Costs(declared: seq<string>, ref: seq<string>): (r: seq<Option<nat>>)
    ensures |r| == |declared|
  {
    seq(|declared|, i requires 0 <= i < |declared| => Cost(declared[i], ref))
  }

  // The first of the least costs.
  predicate FirstLeast(costs: seq<Option<nat>>, k: nat) {
    && k < |costs| && costs[k].Some?
    && forall j :: 0 <= j < |costs| && costs[j].Some? ==>
         costs[k].value <= costs[j].value && (j < k ==> costs[k].value < costs[j].value)
  }

  // Route `k` is the first of the declared routes that fits with the fewest wildcards.
  predicate MostLiteral(declared: seq<string>, ref: string, k: nat) {
    FirstLeast(Costs(declared, Split(ref)), k)
  }

  // The unbucketed search: every declared route in turn, keeping the first of the most literal.
  function Search(declared: seq<string>, ref: seq<string>): (r: Option<string>)
    ensures r.Some? ==> Fits(Split(r.value), ref)
  {
    if declared == [] then None
    else Better(Search(declared[..|declared| - 1], ref), declared[|declared| - 1], ref)
  }

  function Better(best: Option<string>, candidate: string, ref: seq<string>): (r: Option<string>)
    requires best.Some? ==> Fits(Split(best.value), ref)
    ensures r.Some? ==> Fits(Split(r.value), ref)
  {
    if Cost(candidate, ref).Some? && (best.None? || Cost(candidate, ref).value < Wildcards(Split(best.value), ref)) then
      Some(candidate)
    else best
  }

  function Bucket(declared: seq<string>, n: nat): seq<string> {
    if declared == [] then []
    else
      var last := declared[|declared| - 1];
      Bucket(declared[..|declared| - 1], n) + if |Split(last)| == n then [last] else []
  }

  lemma {:induction false} BucketLengths(declared: seq<string>, n: nat)
    ensures forall i :: 0 <= i < |Bucket(declared, n)| ==> |Split(Bucket(declared, n)[i])| == n
  {
    if declared != [] {
      BucketLengths(declared[..|declared| - 1], n);
    }
  }

  // Searching the bucket of routes with as many segments is searching them all.
  lemma {:induction false} BucketIsEnough(declared: seq<string>, ref: seq<string>)
    ensures Search(Bucket(declared, |ref|), ref) == Search(declared, ref)
  {
    if declared != [] {
      var last := declared[|declared| - 1];
      var front := Bucket(declared[..|declared| - 1], |ref|);
      BucketIsEnough(declared[..|declared| - 1], ref);
      if |Split(last)| == |ref| {
        assert (front + [last])[..|front|] == front;
      } else {
        assert front + [] == front;
      }
    }
  }

  // Adding a cost that does not improve on the least keeps it the least; one that does is it.
  lemma FirstLeastOfMore(costs: seq<Option<nat>>, last: Option<nat>, k: nat)
    requires FirstLeast(costs, k)
    ensures if last.Some? && last.value < costs[k].value then FirstLeast(costs + [last], |costs|)
            else FirstLeast(costs + [last], k)
  {
  }

  lemma CostsOfMore(declared: seq<string>, ref: seq<string>)
    requires declared != []
    ensures Costs(declared, ref) == Costs(declared[..|declared| - 1], ref) + [Cost(declared[|declared| - 1], ref)]
  {
  }

  // The search finds the first most literal route, and nothing only if no route fits.
  lemma {:induction false} SearchFinds(declared: seq<string>, ref: string) returns (k: nat)
    ensures Search(declared, Split(ref)).Some? ==>
              MostLiteral(declared, ref, k) && Search(declared, Split(ref)) == Some(declared[k])
    ensures Search(declared, Split(ref)).None? ==>
              forall j :: 0 <= j < |declared| ==> Costs(declared, Split(ref))[j].None?
  {
    k := 0;
    if declared != [] {
      var last := |declared| - 1;
      var segments := Split(ref);
      k := SearchFinds(declared[..last], ref);
      CostsOfMore(declared, segments);
      if Search(declared[..last], segments).Some? {
        FirstLeastOfMore(Costs(declared[..last], segments), Cost(declared[last], segments), k);
        if Search(declared, segments) != Search(declared[..last], segments) {
          k := last;
        }
      } else {
        k := last;
      }
    }
  }

  lemma MostLiteralUnique(declared: seq<string>, ref: string, k: nat, m: nat)
    requires MostLiteral(declared, ref, k) && MostLiteral(declared, ref, m)
    ensures k == m
  {
  }

  // What a report credits: the route each reference is attributed to, but for an empty route.
  ghost predicate Credited(declared: seq<string>, referenced: seq<string>, route: string) {
    route != "" && exists r :: 0 <= r < |referenced| && Search(declared, Split(referenced[r])) == Some(route)
  }

  // In the declarative terms: a route is credited if and only if it is not empty and it is the
  // first most literal match of some reference.
  lemma CreditedIff(declared: seq<string>, referenced: seq<string>, route: string)
    ensures Credited(declared, referenced, route)
       <==> && route != ""
            && exists r, k: nat ::
                 0 <= r < |referenced| && MostLiteral(declared, referenced[r], k) && declared[k] == route
  {
    if Credited(declared, referenced, route) {
      var r :| 0 <= r < |referenced| && Search(declared, Split(referenced[r])) == Some(route);
      var k := SearchFinds(declared, referenced[r]);
      assert MostLiteral(declared, referenced[r], k) && declared[k] == route;
    }
    if r, k: nat :|
      route != "" && 0 <= r < |referenced| && MostLiteral(declared, referenced[r], k) && declared[k] == route {
      var m := SearchFinds(declared, referenced[r]);
      MostLiteralUnique(declared, referenced[r], k, m);
    }
  }

  lemma {:induction false} NoWildcards(candidate: seq<string>, ref: seq<string>)
    requires |candidate| == |ref|
    ensures Wildcards(candidate, ref) == 0 <==> candidate == ref
  {
    if ref != [] {
      var last := |ref| - 1;
      NoWildcards(candidate[..last], ref[..last]);
      assert candidate == candidate[..last] + [candidate[last]] && ref == ref[..last] + [ref[last]];
    }
  }

  // A reference that is itself declared is attributed to itself, and so is credited if and only if
  // it is not empty.
  lemma DeclaredIsItsOwn(declared: seq<string>, ref: string)
    requires ref in declared
    ensures Search(declared, Split(ref)) == Some(ref)
    ensures Credited(declared, [ref], ref) <==> ref != ""
  {
    var segments := Split(ref);
    var j :| 0 <= j < |declared| && declared[j] == ref;
    NoWildcards(segments, segments);
    assert Costs(declared, segments)[j] == Some(0);
    var k := SearchFinds(declared, ref);
    assert Costs(declared, segments)[k] == Some(0);
    NoWildcards(Split(declared[k]), segments);
    JoinedSplit(ref);
    JoinedSplit(declared[k]);
    assert [ref][0] == ref;
  }

  function Candidates(bySegmentCount: map<nat, seq<string>>, n: nat): seq<string> {
    if n in bySegmentCount then bySegmentCount[n] else []
  }

  ghost predicate Buckets(bySegmentCount: map<nat, seq<string>>, declared: seq<string>) {
    forall n: nat :: Candidates(bySegmentCount, n) == Bucket(declared, n)
  }

  lemma BucketOfMore(declared: seq<string>, d: nat, n: nat)
    requires d < |declared|
    ensures Bucket(declared[..d + 1], n)
         == if |Split(declared[d])| == n then Bucket(declared[..d], n) + [declared[d]] else Bucket(declared[..d], n)
  {
    assert declared[..d + 1][..d] == declared[..d];
    assert Bucket(declared[..d], n) + [] == Bucket(declared[..d], n);
  }

  lemma BucketAdded(bySegmentCount: map<nat, seq<string>>, declared: seq<string>, d: nat)
    requires d < |declared| && Buckets(bySegmentCount, declared[..d])
    ensures var n := |Split(declared[d])|;
            Buckets(bySegmentCount[n := Candidates(bySegmentCount, n) + [declared[d]]], declared[..d + 1])
  {
    var n := |Split(declared[d])|;
    var after := bySegmentCount[n := Candidates(bySegmentCount, n) + [declared[d]]];
    forall m: nat
      ensures Candidates(after, m) == Bucket(declared[..d + 1], m)
    {
      BucketOfMore(declared, d, m);
      assert Candidates(bySegmentCount, m) == Bucket(declared[..d], m);
    }
  }

  method BySegmentCount(declared: seq<string>) returns (bySegmentCount: map<nat, seq<string>>)
    ensures Buckets(bySegmentCount, declared)
  {
    bySegmentCount := map[];
    for d := 0 to |declared|
      invariant Buckets(bySegmentCount, declared[..d])
    {
      var n := |Split(declared[d])|;
      BucketAdded(bySegmentCount, declared, d);
      bySegmentCount := bySegmentCount[n := Candidates(bySegmentCount, n) + [declared[d]]];
    }
    assert declared[..|declared|] == declared;
  }

  method CoveredRoutePatterns(declared: seq<string>, referenced: seq<string>) returns (covered: set<string>)
    ensures forall route :: route in covered <==> Credited(declared, referenced, route)
  {
    var bySegmentCount := BySegmentCount(declared);
    covered := {};
    for r := 0 to |referenced|
      invariant forall route :: route in covered <==> Credited(declared, referenced[..r], route)
    {
      var best := BestFor(declared, bySegmentCount, Split(referenced[r]));
      CreditedByMore(declared, referenced, r);
      if best.Some? && best.value != "" {
        covered := covered + {best.value};
      }
    }
    assert referenced[..|referenced|] == referenced;
  }

  lemma {:induction false} CreditedByOneMore(declared: seq<string>, referenced: seq<string>, r: nat, route: string)
    requires r < |referenced| && route != ""
    ensures Credited(declared, referenced[..r + 1], route)
       <==> Credited(declared, referenced[..r], route) || Search(declared, Split(referenced[r])) == Some(route)
  {
    var before, after := referenced[..r], referenced[..r + 1];
    if i :| 0 <= i < |before| && Search(declared, Split(before[i])) == Some(route) {
      assert after[i] == before[i];
    }
    if i :| 0 <= i < |after| && Search(declared, Split(after[i])) == Some(route) {
      assert i < r ==> before[i] == after[i];
    }
    assert after[r] == referenced[r];
  }

  lemma {:induction false} CreditedByMore(declared: seq<string>, referenced: seq<string>, r: nat)
    requires r < |referenced|
    ensures forall route :: Credited(declared, referenced[..r + 1], route)
                       <==> || Credited(declared, referenced[..r], route)
                            || (route != "" && Search(declared, Split(referenced[r])) == Some(route))
  {
    forall route | route != ""
      ensures Credited(declared, referenced[..r + 1], route)
         <==> Credited(declared, referenced[..r], route) || Search(declared, Split(referenced[r])) == Some(route)
    {
      CreditedByOneMore(declared, referenced, r, route);
    }
  }

  // The best of the bucket is the best of all.
  method BestFor(ghost declared: seq<string>, bySegmentCount: map<nat, seq<string>>, refSegs: seq<string>)
    returns (best: Option<string>)
    requires Buckets(bySegmentCount, declared)
    ensures best == Search(declared, refSegs)
  {
    BucketLengths(declared, |refSegs|);
    BucketIsEnough(declared, refSegs);
    best := FindBest(Candidates(bySegmentCount, |refSegs|), refSegs);
  }

  // The candidates in turn, with the best so far and its wildcards.
  method FindBest(candidates: seq<string>, refSegs: seq<string>) returns (best: Option<string>)
    requires forall c :: 0 <= c < |candidates| ==> |Split(candidates[c])| == |refSegs|
    ensures best == Search(candidates, refSegs)
  {
    best := None;
    var bestWildcards := 0;
    for c := 0 to |candidates|
      invariant best == Search(candidates[..c], refSegs)
      invariant best.Some? ==> bestWildcards == Wildcards(Split(best.value), refSegs)
    {
      var candSegs := Split(candidates[c]);
      assert candidates[..c + 1][..c] == candidates[..c];
      var matches, wildcards := Compare(candSegs, refSegs);
      if matches && (best.None? || wildcards < bestWildcards) {
        best, bestWildcards := Some(candidates[c]), wildcards;
      }
    }
    assert candidates[..|candidates|] == candidates;
  }

  method Compare(candSegs: seq<string>, refSegs: seq<string>) returns (matches: bool, wildcards: nat)
    requires |candSegs| == |refSegs|
    ensures matches <==> Fits(candSegs, refSegs)
    ensures matches ==> wildcards == Wildcards(candSegs, refSegs)
  {
    matches, wildcards := true, 0;
    for i := 0 to |candSegs|
      invariant matches && forall j :: 0 <= j < i ==> SegmentFits(candSegs[j], refSegs[j])
      invariant wildcards == Wildcards(candSegs[..i], refSegs[..i])
    {
      assert candSegs[..i + 1][..i] == candSegs[..i] && refSegs[..i + 1][..i] == refSegs[..i];
      if candSegs[i] == refSegs[i] {
        continue;
      }
      if candSegs[i] == WILDCARD || refSegs[i] == WILDCARD {
        wildcards := wildcards + 1;
        continue;
      }
      matches := false;
      break;
    }
    assert candSegs[..|candSegs|] == candSegs && refSegs[..|candSegs|] == refSegs;
  }
}
