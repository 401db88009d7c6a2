/** The cost of driving one leg in a given order. */
module Legs {
  import opened Models

  /** One leg to order: `onboard(i)` is the occupancy on the edge that leaves after `i` stops. */
  datatype Leg = Leg(
    matrix: Matrix,
    origin: NodeId,
    terminus: NodeId,
    wDrive: real,
    wRide: real,
    onboard: int -> int)

  function Rate(leg: Leg, visited: int): real {
    leg.wDrive + leg.wRide * leg.onboard(visited) as real
  }

  function Edge(leg: Leg, visited: int, a: NodeId, b: NodeId): real {
    Duration(leg.matrix, a, b) as real * Rate(leg, visited)
  }

  function PathCost(leg: Leg, path: seq<NodeId>): real {
    var n := |path|;
    if n < 2 then 0.0 else PathCost(leg, path[..n - 1]) + Edge(leg, n - 2, path[n - 2], path[n - 1])
  }

  /** The cost of serving the stops in this order, from the leg's origin to its terminus. */
  function Cost(leg: Leg, order: seq<NodeId>): real {
    PathCost(leg, [leg.origin] + order + [leg.terminus])
  }

  method LegCost(leg: Leg, path: seq<NodeId>) returns (total: real)
    ensures total == PathCost(leg, path)
  {
    total := 0.0;
    var i := 0;
    while i + 1 < |path|
      invariant i == 0 || i < |path|
      invariant path != [] ==> total == PathCost(leg, path[..i + 1])
      invariant path == [] ==> total == 0.0
    {
      assert path[..i + 2][..i + 1] == path[..i + 1];
      total := total + Duration(leg.matrix, path[i], path[i + 1]) as real * Rate(leg, i);
      i := i + 1;
    }
    assert path[..|path|] == path;
  }

  ghost predicate Indices(p: seq<nat>, n: nat) {
    forall i :: 0 <= i < |p| ==> p[i] < n
  }

  /** The stops at the given indices. */
  ghost function Pick(stops: seq<NodeId>, p: seq<nat>): seq<NodeId>
    requires Indices(p, |stops|)
  {
    seq(|p|, i requires 0 <= i < |p| => stops[p[i]])
  }

  /** Cost of leaving the origin and serving the stops at indices `p`. */
  ghost function PrefixCost(leg: Leg, stops: seq<NodeId>, p: seq<nat>): real
    requires Indices(p, |stops|)
  {
    PathCost(leg, [leg.origin] + Pick(stops, p))
  }

  lemma PrefixCostStep(leg: Leg, stops: seq<NodeId>, p: seq<nat>, k: nat)
    requires Indices(p, |stops|)
    requires k < |stops|
    ensures PrefixCost(leg, stops, p + [k])
         == PrefixCost(leg, stops, p)
            + Edge(leg, |p|, if p == [] then leg.origin else stops[p[|p| - 1]], stops[k])
  {
    var path := [leg.origin] + Pick(stops, p);
    assert [leg.origin] + Pick(stops, p + [k]) == path + [stops[k]];
  }

  lemma CostOfPick(leg: Leg, stops: seq<NodeId>, p: seq<nat>)
    requires Indices(p, |stops|)
    requires |p| > 0
    ensures Cost(leg, Pick(stops, p))
         == PrefixCost(leg, stops, p) + Edge(leg, |p|, stops[p[|p| - 1]], leg.terminus)
  {
  }

  /** Every index of `s` exactly once. */
  ghost predicate IsPermutation(p: seq<nat>, n: nat) {
    |p| == n && Distinct(p) && Indices(p, n)
  }

  /** Distinct indices below `n`, `n` of them, are all of the indices. */
  lemma {:induction false} PermutationCovers(p: seq<nat>, n: nat, x: nat)
    requires IsPermutation(p, n) && x < n
    ensures x in p
  {
    var mine := set i | i in p;
    DistinctCard(p);
    if x !in p {
      CardMonotone(mine, Below(n) - {x});
    }
  }

  ghost function Below(n: nat): (s: set<nat>)
    ensures forall x: nat :: x in s <==> x < n
    ensures |s| == n
  {
    if n == 0 then {} else Below(n - 1) + {n - 1}
  }

  lemma {:induction false} DistinctCard<T>(s: seq<T>)
    requires Distinct(s)
    ensures |set x | x in s| == |s|
  {
    if |s| > 0 {
      var front, last := s[..|s| - 1], s[|s| - 1];
      DistinctCard(front);
      assert (set x | x in s) == (set x | x in front) + {last};
      assert last !in front;
    }
  }

  lemma {:induction false} CardMonotone<T>(a: set<T>, b: set<T>)
    requires a <= b
    ensures |a| <= |b|
  {
    assert b == a + (b - a);
  }

  lemma RemoveOne(s: seq<NodeId>, at: nat)
    requires at < |s|
    ensures multiset(s[..at] + s[at + 1..]) == multiset(s) - multiset{s[at]}
  {
    assert s == s[..at] + [s[at]] + s[at + 1..];
  }

  /** Two orders of the same stops differ by a permutation of indices. */
  lemma {:induction false} OrderAsPick(stops: seq<NodeId>, q: seq<NodeId>) returns (p: seq<nat>)
    requires multiset(q) == multiset(stops)
    ensures IsPermutation(p, |stops|)
    ensures Pick(stops, p) == q
  {
    assert |q| == |multiset(q)| == |multiset(stops)| == |stops|;
    if q == [] {
      p := [];
    } else {
      hide Pick, IsPermutation;
      var last := |q| - 1;
      assert q[last] in multiset(q);
      var at :| 0 <= at < |stops| && stops[at] == q[last];
      RemoveOne(stops, at);
      RemoveOne(q, last);
      assert q[..last] + q[last + 1..] == q[..last];
      var p' := OrderAsPick(stops[..at] + stops[at + 1..], q[..last]);
      p := InsertLast(stops, at, p');
      assert q == q[..last] + [q[last]];
    }
  }

  lemma InsertLast(stops: seq<NodeId>, at: nat, p: seq<nat>) returns (r: seq<nat>)
    requires at < |stops|
    requires IsPermutation(p, |stops| - 1)
    ensures IsPermutation(r, |stops|)
    ensures Pick(stops, r) == Pick(stops[..at] + stops[at + 1..], p) + [stops[at]]
  {
    var shifted := seq(|p|, i requires 0 <= i < |p| => if p[i] < at then p[i] else p[i] + 1);
    ShiftedPick(stops, at, p, shifted);
    r := shifted + [at];
    assert Pick(stops, r) == Pick(stops, shifted) + [stops[at]];
  }

  lemma ShiftedPick(stops: seq<NodeId>, at: nat, p: seq<nat>, shifted: seq<nat>)
    requires at < |stops| && |shifted| == |p|
    requires IsPermutation(p, |stops| - 1)
    requires forall i :: 0 <= i < |p| ==> shifted[i] == if p[i] < at then p[i] else p[i] + 1
    ensures Distinct(shifted) && at !in shifted && Indices(shifted, |stops|)
    ensures Pick(stops, shifted) == Pick(stops[..at] + stops[at + 1..], p)
  {
    var rest := stops[..at] + stops[at + 1..];
    forall i | 0 <= i < |p|
      ensures p[i] < |rest| && shifted[i] < |stops| && stops[shifted[i]] == rest[p[i]] && shifted[i] != at
    {
    }
  }

  /** Leaving out the stop picked last, the others are still picked by a permutation. */
  lemma WithoutLastPick(stops: seq<NodeId>, p: seq<nat>) returns (p': seq<nat>)
    requires IsPermutation(p, |stops|) && p != []
    ensures var n, at := |p| - 1, p[|p| - 1];
      && Indices(p[..n], |stops|) && IsPermutation(p', n)
      && Pick(stops[..at] + stops[at + 1..], p') == Pick(stops, p[..n])
  {
    var n, at := |p| - 1, p[|p| - 1];
    var front := p[..n];
    p' := seq(n, i requires 0 <= i < n => if front[i] < at then front[i] else front[i] - 1);
    assert forall i :: 0 <= i < n ==> front[i] != at;
    ShiftedPick(stops, at, p', front);
  }

  lemma LastPicked(stops: seq<NodeId>, p: seq<nat>)
    requires Indices(p, |stops|) && p != []
    ensures var n := |p| - 1;
      Indices(p[..n], |stops|) && Pick(stops, p) == Pick(stops, p[..n]) + [stops[p[n]]]
  {
  }

  lemma TakenOutAt(stops: seq<NodeId>, at: nat)
    requires at < |stops|
    ensures multiset(stops) == multiset(stops[..at] + stops[at + 1..]) + multiset{stops[at]}
  {
    assert stops == stops[..at] + [stops[at]] + stops[at + 1..];
  }

  /** Picking by a permutation keeps exactly the stops. */
  lemma {:induction false} PickKeepsStops(stops: seq<NodeId>, p: seq<nat>)
    requires IsPermutation(p, |stops|)
    ensures multiset(Pick(stops, p)) == multiset(stops)
  {
    var n := |stops|;
    if n == 0 {
      assert Pick(stops, p) == stops;
    } else {
      hide IsPermutation, Pick;
      var at := LastIndex(stops, p);
      var p' := WithoutLastPick(stops, p);
      PickKeepsStops(stops[..at] + stops[at + 1..], p');
      LastPicked(stops, p);
      TakenOutAt(stops, at);
    }
  }

  lemma LastIndex(stops: seq<NodeId>, p: seq<nat>) returns (at: nat)
    requires IsPermutation(p, |stops|) && stops != []
    ensures p != [] && Indices(p, |stops|) && |p| == |stops| && at == p[|p| - 1]
  {
    at := p[|p| - 1];
  }
}
