/** The fallback sequencer for implausibly large vehicles: nearest neighbour, then 2-opt. */
module TwoOpt {
  import opened Models
  import opened Legs

  ghost predicate NoFurther(leg: Leg, order: seq<NodeId>, i: nat, j: nat)
    requires i < |order| && j < |order|
  {
    var current := if i == 0 then leg.origin else order[i - 1];
    Duration(leg.matrix, current, order[i]) <= Duration(leg.matrix, current, order[j])
  }

  /** Each stop in turn is as near as any still waiting. */
  ghost predicate Nearest(leg: Leg, order: seq<NodeId>, upTo: nat)
    requires upTo <= |order|
  {
    forall i, j :: 0 <= i < upTo && i <= j < |order| ==> NoFurther(leg, order, i, j)
  }

  /** The stop at `at` is as near as any, and nearer than any before it. */
  ghost predicate IsFirstNearest(leg: Leg, current: NodeId, remaining: seq<NodeId>, at: nat) {
    at < |remaining| && forall j :: 0 <= j < |remaining| ==>
      var there, here := Duration(leg.matrix, current, remaining[j]), Duration(leg.matrix, current, remaining[at]);
      if j < at then here < there else here <= there
  }

  method FirstNearest(leg: Leg, current: NodeId, remaining: seq<NodeId>) returns (at: nat)
    requires |remaining| > 0
    ensures IsFirstNearest(leg, current, remaining, at)
  {
    at := 0;
    for i := 1 to |remaining|
      invariant at < i && IsFirstNearest(leg, current, remaining[..i], at)
    {
      if Duration(leg.matrix, current, remaining[i]) < Duration(leg.matrix, current, remaining[at]) {
        at := i;
      }
    }
    assert remaining[..|remaining|] == remaining;
  }

  /** From `current`, always to the first of the nearest stops still waiting. */
  ghost predicate Nearer(leg: Leg, current: NodeId, remaining: seq<NodeId>, order: seq<NodeId>)
    decreases |remaining|
  {
    if remaining == [] then order == []
    else exists at :: NearerBy(leg, current, remaining, order, at)
  }

  ghost predicate NearerBy(leg: Leg, current: NodeId, remaining: seq<NodeId>, order: seq<NodeId>, at: nat)
    decreases |remaining|, 0
  {
    && IsFirstNearest(leg, current, remaining, at)
    && order != [] && order[0] == remaining[at]
    && Nearer(leg, remaining[at], remaining[..at] + remaining[at + 1..], order[1..])
  }

  method NearestNeighbour(leg: Leg, stops: seq<NodeId>) returns (order: seq<NodeId>)
    ensures multiset(order) == multiset(stops)
    ensures Nearest(leg, order, |order|)
    ensures Nearer(leg, leg.origin, stops, order)
  {
    var remaining := stops;
    order := [];
    var current := leg.origin;
    NothingChosen(leg, stops);
    while remaining != []
      invariant multiset(order) + multiset(remaining) == multiset(stops)
      invariant current == if order == [] then leg.origin else order[|order| - 1]
      invariant Nearest(leg, order + remaining, |order|)
      invariant Completes(leg, stops, order, current, remaining)
      decreases |remaining|
    {
      var at := FirstNearest(leg, current, remaining);
      var next := remaining[at];
      NearestStep(leg, order, remaining, at);
      RemoveOne(remaining, at);
      NearerMore(leg, stops, order, current, remaining, at);
      remaining := remaining[..at] + remaining[at + 1..];
      order := order + [next];
      current := next;
    }
    assert order + remaining == order;
    assert order + [] == order && Nearer(leg, current, [], []);
  }

  /** However the rest is chosen from here, it completes the order as chosen so far. */
  ghost predicate Completes(leg: Leg, stops: seq<NodeId>, order: seq<NodeId>, current: NodeId, remaining: seq<NodeId>) {
    forall rest :: Nearer(leg, current, remaining, rest) ==> Nearer(leg, leg.origin, stops, order + rest)
  }

  lemma NothingChosen(leg: Leg, stops: seq<NodeId>)
    ensures Completes(leg, stops, [], leg.origin, stops)
  {
    forall rest | Nearer(leg, leg.origin, stops, rest) ensures Nearer(leg, leg.origin, stops, [] + rest) {
      assert [] + rest == rest;
    }
  }

  lemma NearerMore(leg: Leg, stops: seq<NodeId>, order: seq<NodeId>, current: NodeId, remaining: seq<NodeId>, at: nat)
    requires IsFirstNearest(leg, current, remaining, at) && Completes(leg, stops, order, current, remaining)
    ensures Completes(leg, stops, order + [remaining[at]], remaining[at], remaining[..at] + remaining[at + 1..])
  {
    var next := remaining[at];
    forall rest | Nearer(leg, next, remaining[..at] + remaining[at + 1..], rest)
      ensures Nearer(leg, leg.origin, stops, order + [next] + rest)
    {
      assert ([next] + rest)[1..] == rest;
      assert NearerBy(leg, current, remaining, [next] + rest, at);
      assert order + ([next] + rest) == order + [next] + rest;
    }
  }

  lemma NearestStep(leg: Leg, order: seq<NodeId>, remaining: seq<NodeId>, at: nat)
    requires at < |remaining|
    requires Nearest(leg, order + remaining, |order|)
    requires forall j :: 0 <= j < |remaining| ==>
      var current := if order == [] then leg.origin else order[|order| - 1];
      Duration(leg.matrix, current, remaining[at]) <= Duration(leg.matrix, current, remaining[j])
    ensures Nearest(leg, order + [remaining[at]] + (remaining[..at] + remaining[at + 1..]), |order| + 1)
  {
    var before := order + remaining;
    var after := order + [remaining[at]] + (remaining[..at] + remaining[at + 1..]);
    forall i, j | 0 <= i < |order| + 1 && i <= j < |after| ensures NoFurther(leg, after, i, j) {
      var j' := if j < |order| then j
                else if j == |order| then |order| + at
                else if j <= |order| + at then j - 1
                else j;
      assert after[j] == before[j'];
      assert i > 0 ==> after[i - 1] == before[i - 1] == order[i - 1];
      if i < |order| {
        assert NoFurther(leg, before, i, j');
      } else {
        assert before[j'] == remaining[j' - |order|];
      }
    }
  }

  function Reverse(s: seq<NodeId>): (r: seq<NodeId>)
    ensures |r| == |s|
    ensures forall i :: 0 <= i < |s| ==> r[i] == s[|s| - 1 - i]
    ensures multiset(r) == multiset(s)
  {
    if s == [] then
      []
    else
      assert s == [s[0]] + s[1..];
      Reverse(s[1..]) + [s[0]]
  }

  /** The segment from `i` to `j` reversed. */
  function Trial(order: seq<NodeId>, i: nat, j: nat): (t: seq<NodeId>)
    requires i < j < |order|
    ensures multiset(t) == multiset(order)
  {
    assert order == order[..i] + order[i..j + 1] + order[j + 1..];
    order[..i] + Reverse(order[i..j + 1]) + order[j + 1..]
  }

  /** No reversal of a segment from `i` up to `within` improves the order by more than the tolerance. */
  ghost predicate SettledFrom(leg: Leg, order: seq<NodeId>, i: nat, within: nat)
    requires within <= |order|
  {
    forall j :: i < j < within ==> Cost(leg, Trial(order, i, j)) >= Cost(leg, order) - TOLERANCE
  }

  ghost predicate Settled(leg: Leg, order: seq<NodeId>, upTo: nat) {
    forall i: nat :: i < upTo ==> SettledFrom(leg, order, i, |order|)
  }

  const TOLERANCE := 0.000000001

  /** `t` is `order` with the stops from `i` to `j` the other way round, every other stop where it was. */
  ghost predicate Reverses(order: seq<NodeId>, t: seq<NodeId>, i: nat, j: nat) {
    && i < j < |order| && |t| == |order|
    && forall k :: 0 <= k < |order| ==> t[k] == order[if i <= k <= j then i + j - k else k]
  }

  lemma TrialReverses(order: seq<NodeId>, i: nat, j: nat)
    requires i < j < |order|
    ensures Reverses(order, Trial(order, i, j), i, j)
  {
    hide Reverse;
    var r := Reverse(order[i..j + 1]);
    var t := order[..i] + r + order[j + 1..];
    forall k | 0 <= k < |order| ensures t[k] == order[if i <= k <= j then i + j - k else k] {
      if i <= k <= j {
        assert t[k] == r[k - i] == order[i..j + 1][j - i - (k - i)];
      }
    }
  }

  lemma OneReversal(order: seq<NodeId>, t: seq<NodeId>, i: nat, j: nat)
    requires Reverses(order, t, i, j)
    ensures t == Trial(order, i, j)
  {
    TrialReverses(order, i, j);
    hide Trial;
    var u := Trial(order, i, j);
    forall k | 0 <= k < |t| ensures t[k] == u[k] {
    }
  }

  /** In so many words: no stretch of the order is worth turning round by more than a billionth. */
  lemma SettledMeans(leg: Leg, order: seq<NodeId>, t: seq<NodeId>, i: nat, j: nat)
    requires Settled(leg, order, |order|) && Reverses(order, t, i, j)
    ensures Cost(leg, t) >= Cost(leg, order) - 0.000000001
  {
    hide Cost, Trial;
    OneReversal(order, t, i, j);
    assert SettledFrom(leg, order, i, |order|);
  }

  ghost function Abs(x: real): (r: real)
    ensures r >= 0.0 && -r <= x
  {
    if x < 0.0 then -x else x
  }

  ghost function FanOut(leg: Leg, visited: nat, a: NodeId, nodes: seq<NodeId>): (r: real)
    ensures r >= 0.0
    ensures forall b :: b in nodes ==> -r <= Edge(leg, visited, a, b)
  {
    if nodes == [] then 0.0
    else
      assert forall b :: b in nodes ==> b == nodes[0] || b in nodes[1..];
      Abs(Edge(leg, visited, a, nodes[0])) + FanOut(leg, visited, a, nodes[1..])
  }

  ghost function AllEdges(leg: Leg, visited: nat, from: seq<NodeId>, nodes: seq<NodeId>): (r: real)
    ensures r >= 0.0
    ensures forall a, b :: a in from && b in nodes ==> -r <= Edge(leg, visited, a, b)
  {
    if from == [] then 0.0
    else
      assert forall a :: a in from ==> a == from[0] || a in from[1..];
      FanOut(leg, visited, from[0], nodes) + AllEdges(leg, visited, from[1..], nodes)
  }

  ghost function Floor(leg: Leg, edges: nat, nodes: seq<NodeId>): real {
    if edges == 0 then 0.0 else Floor(leg, edges - 1, nodes) - AllEdges(leg, edges - 1, nodes, nodes)
  }

  lemma {:induction false} PathAboveFloor(leg: Leg, path: seq<NodeId>, nodes: seq<NodeId>)
    requires |path| > 0 && forall i :: 0 <= i < |path| ==> path[i] in nodes
    ensures PathCost(leg, path) >= Floor(leg, |path| - 1, nodes)
  {
    if |path| > 1 {
      PathAboveFloor(leg, path[..|path| - 1], nodes);
    }
  }

  ghost function Least(leg: Leg, stops: seq<NodeId>): real {
    Floor(leg, |stops| + 1, [leg.origin] + stops + [leg.terminus])
  }

  /** The costs of the orders of a fixed list of stops are bounded below. */
  lemma OrdersAboveLeast(leg: Leg, stops: seq<NodeId>, order: seq<NodeId>)
    requires multiset(order) == multiset(stops)
    ensures Cost(leg, order) >= Least(leg, stops)
  {
    assert |order| == |multiset(order)| == |stops|;
    var nodes := [leg.origin] + stops + [leg.terminus];
    var path := [leg.origin] + order + [leg.terminus];
    forall i | 0 <= i < |path| ensures path[i] in nodes {
      if 0 < i < |path| - 1 {
        assert path[i] == order[i - 1];
        assert path[i] in multiset(order);
        assert path[i] in stops;
        var k :| 0 <= k < |stops| && stops[k] == path[i];
        assert nodes[k + 1] == path[i];
      } else if i == 0 {
        assert nodes[0] == path[i];
      } else {
        assert nodes[|nodes| - 1] == path[i];
      }
    }
    PathAboveFloor(leg, path, nodes);
  }

  /** How many improvements of at least the tolerance can still be made. */
  ghost function Headroom(leg: Leg, stops: seq<NodeId>, order: seq<NodeId>): int {
    ((Cost(leg, order) - Least(leg, stops)) * 1000000000.0).Floor
  }

  lemma HeadroomShrinks(leg: Leg, stops: seq<NodeId>, a: seq<NodeId>, b: seq<NodeId>)
    requires multiset(b) == multiset(stops)
    requires Cost(leg, b) < Cost(leg, a) - TOLERANCE
    ensures 0 <= Headroom(leg, stops, b) < Headroom(leg, stops, a)
  {
    OrdersAboveLeast(leg, stops, b);
  }

  /** What a pass, or part of one, has done to the order it started from. */
  ghost predicate Progress(leg: Leg, stops: seq<NodeId>, start: seq<NodeId>, order: seq<NodeId>, improved: bool) {
    && multiset(order) == multiset(stops) && |order| == |start|
    && Cost(leg, order) <= Cost(leg, start)
    && (improved ==> 0 <= Headroom(leg, stops, order) < Headroom(leg, stops, start))
    && (!improved ==> order == start)
  }

  /** One try of the inner loop. */
  method TryReversal(leg: Leg, ghost stops: seq<NodeId>, order: seq<NodeId>, i: nat, j: nat)
    returns (next: seq<NodeId>, improved: bool)
    requires i < j < |order| && multiset(order) == multiset(stops)
    ensures Progress(leg, stops, order, next, improved)
    ensures improved <==> Cost(leg, Trial(order, i, j)) < Cost(leg, order) - TOLERANCE
  {
    var trial := Trial(order, i, j);
    var cost := LegCost(leg, [leg.origin] + trial + [leg.terminus]);
    var standing := LegCost(leg, [leg.origin] + order + [leg.terminus]);
    improved := cost < standing - TOLERANCE;
    next := if improved then trial else order;
    assert |next| == |multiset(next)| == |order|;
    if improved {
      HeadroomShrinks(leg, stops, order, next);
    }
  }

  /** The segments that begin at `i`; an improvement found part way carries on from there. */
  method PassFrom(leg: Leg, ghost stops: seq<NodeId>, start: seq<NodeId>, i: nat)
    returns (order: seq<NodeId>, improved: bool)
    requires i < |start| && multiset(start) == multiset(stops)
    ensures Progress(leg, stops, start, order, improved)
    ensures !improved <==> SettledFrom(leg, start, i, |start|)
  {
    hide Cost, Trial;
    order, improved := start, false;
    var j := i + 1;
    while j < |start|
      invariant i < j <= |start|
      invariant Progress(leg, stops, start, order, improved)
      invariant !improved <==> SettledFrom(leg, start, i, j)
    {
      var next, better := TryReversal(leg, stops, order, i, j);
      order := next;
      improved := improved || better;
      j := j + 1;
    }
  }

  method Pass(leg: Leg, ghost stops: seq<NodeId>, start: seq<NodeId>)
    returns (order: seq<NodeId>, improved: bool)
    requires multiset(start) == multiset(stops)
    ensures Progress(leg, stops, start, order, improved)
    ensures !improved <==> Settled(leg, start, |start|)
  {
    hide Cost, Trial;
    order, improved := start, false;
    var i := 0;
    while i + 1 < |start|
      invariant 0 <= i <= |start|
      invariant Progress(leg, stops, start, order, improved)
      invariant !improved <==> Settled(leg, start, i)
    {
      var next, better := PassFrom(leg, stops, order, i);
      order := next;
      improved := improved || better;
      i := i + 1;
    }
  }

  /** An order come to from the nearest-neighbour one, which is kept when no reversal improves it. */
  ghost predicate FromNearest(leg: Leg, stops: seq<NodeId>, order: seq<NodeId>) {
    exists from :: ImprovesOn(leg, stops, from, order)
  }

  ghost predicate ImprovesOn(leg: Leg, stops: seq<NodeId>, from: seq<NodeId>, order: seq<NodeId>) {
    && Nearer(leg, leg.origin, stops, from) && Cost(leg, order) <= Cost(leg, from)
    && (Settled(leg, from, |from|) ==> order == from)
  }

  /** `_nearest_neighbour_then_2opt`: ends for every matrix, at an order no single reversal improves. */
  method NearestNeighbourThen2Opt(leg: Leg, stops: seq<NodeId>)
    returns (order: seq<NodeId>, ghost from: seq<NodeId>)
    ensures multiset(order) == multiset(stops)
    ensures Nearer(leg, leg.origin, stops, from)
    ensures multiset(from) == multiset(stops) && Nearest(leg, from, |from|)
    ensures Cost(leg, order) <= Cost(leg, from)
    ensures Settled(leg, order, |order|)
    ensures forall t, i, j :: Reverses(order, t, i, j) ==> Cost(leg, t) >= Cost(leg, order) - 0.000000001
    ensures Settled(leg, from, |from|) ==> order == from
  {
    order := NearestNeighbour(leg, stops);
    from := order;
    var improved := true;
    while improved
      invariant multiset(order) == multiset(stops)
      invariant Cost(leg, order) <= Cost(leg, from)
      invariant !improved ==> Settled(leg, order, |order|)
      invariant Settled(leg, from, |from|) ==> order == from
      decreases Headroom(leg, stops, order), improved
    {
      order, improved := Pass(leg, stops, order);
    }
    forall t, i, j | Reverses(order, t, i, j) ensures Cost(leg, t) >= Cost(leg, order) - 0.000000001 {
      SettledMeans(leg, order, t, i, j);
    }
  }
}
