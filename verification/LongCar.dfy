/** Past twelve stops the order found need not be the best: a car resequencing makes dearer with no undercut at all. */
module LongCar {
  import opened Models
  import opened Legs
  import opened Objective
  import opened Sequence

  /**
    * Stops 1 to 13 in a row: free to drive up the row, 5 s from one down to another. Stop 13 is next to the driver's
    * home and to everyone; whoever else is picked up last is 5 s from the venue.
    */
  ghost function LongCell(a: NodeId, b: NodeId): int {
    if b == 13 then 0
    else if b == DESTINATION then (if 1 <= a <= 12 then 5 else 0)
    else if a == 0 then (if 1 <= b <= 12 then 1 else 0)
    else if 1 <= b < a <= 12 then 5
    else 0
  }

  /** The stops from `k` to `n`. */
  ghost function Row(k: nat, n: nat): (r: seq<NodeId>)
    ensures |r| == if k <= n then n + 1 - k else 0
    ensures forall i :: 0 <= i < |r| ==> r[i] == k + i
  {
    seq(if k <= n then n + 1 - k else 0, i => k + i)
  }

  ghost function Given(): seq<NodeId> {
    Row(1, 12) + [13]
  }

  ghost function Found(): seq<NodeId> {
    [13] + Row(1, 12)
  }

  ghost function LongMatrix(): Matrix {
    Matrix(LongCell)
  }

  ghost function OnlyDriving(inst: Instance): bool {
    && inst.matrix == LongMatrix()
    && inst.weights.driveTime == 1.0 && inst.weights.rideTime == 0.0 && inst.weights.detour == 0.0
  }

  // ---- The nearest-neighbour order -------------------------------------------------------------------------

  lemma OnlyNearest(leg: Leg, current: NodeId, remaining: seq<NodeId>, best: nat, at: nat)
    requires leg.matrix == LongMatrix() && best < |remaining| && TO.IsFirstNearest(leg, current, remaining, at)
    requires Duration(leg.matrix, current, remaining[best]) == 0
    requires forall j :: 0 <= j < best ==> Duration(leg.matrix, current, remaining[j]) > 0
    ensures at == best
  {
    hide LongCell;
    NeverNegative(current, remaining[at]);
  }

  lemma NeverNegative(a: NodeId, b: NodeId)
    ensures Duration(LongMatrix(), a, b) >= 0
  {
  }

  lemma {:induction false} UpTheRow(leg: Leg, current: NodeId, k: nat, order: seq<NodeId>)
    requires leg.matrix == LongMatrix() && 1 <= k <= 13 && (current == 13 || current == k - 1) && current > 0
    requires TO.Nearer(leg, current, Row(k, 12), order)
    ensures order == Row(k, 12)
    decreases 13 - k
  {
    var row := Row(k, 12);
    if k <= 12 {
      var at :| TO.NearerBy(leg, current, row, order, at);
      assert Duration(leg.matrix, current, k) == 0;
      OnlyNearest(leg, current, row, 0, at);
      assert row[..0] + row[1..] == Row(k + 1, 12);
      UpTheRow(leg, k, k + 1, order[1..]);
      assert order == [order[0]] + order[1..];
    }
  }

  lemma FirstThirteen(leg: Leg, order: seq<NodeId>)
    requires leg.matrix == LongMatrix() && leg.origin == 0 && TO.Nearer(leg, 0, Given(), order)
    ensures order == Found()
  {
    var at :| TO.NearerBy(leg, 0, Given(), order, at);
    forall j | 0 <= j < 12 ensures Duration(leg.matrix, 0, Given()[j]) > 0 {
    }
    OnlyNearest(leg, 0, Given(), 12, at);
    assert Given()[..12] + Given()[13..] == Row(1, 12);
    UpTheRow(leg, 13, 1, order[1..]);
    assert order == [order[0]] + order[1..];
  }

  // ---- What it costs, and why no reversal helps ----------------------------------------------------------------

  lemma {:induction false} Costs(leg: Leg, path: seq<NodeId>)
    requires leg.wDrive == 1.0 && leg.wRide == 0.0
    ensures PathCost(leg, path) == PathDuration(leg.matrix, path) as real
  {
    if |path| >= 2 {
      Costs(leg, path[..|path| - 1]);
    }
  }

  lemma {:induction false} EdgeInPath(path: seq<NodeId>, i: nat)
    requires i + 1 < |path|
    ensures PathDuration(LongMatrix(), path) >= Duration(LongMatrix(), path[i], path[i + 1])
  {
    hide Duration;
    var n := |path|;
    NeverNegative(path[n - 2], path[n - 1]);
    if i + 2 < n {
      EdgeInPath(path[..n - 1], i);
    } else {
      PathNeverNegative(path[..n - 1]);
    }
  }

  lemma {:induction false} PathNeverNegative(path: seq<NodeId>)
    ensures PathDuration(LongMatrix(), path) >= 0
  {
    hide Duration;
    if |path| >= 2 {
      PathNeverNegative(path[..|path| - 1]);
      NeverNegative(path[|path| - 2], path[|path| - 1]);
    }
  }

  /** Free up the row, from somewhere with a free way onto it. */
  lemma {:induction false} RowIsFree(start: seq<NodeId>, n: nat)
    requires start != [] && n <= 12
    requires start[|start| - 1] == 13 || start[|start| - 1] == 0
    ensures PathDuration(LongMatrix(), start + Row(1, n))
         == PathDuration(LongMatrix(), start) + if n > 0 && start[|start| - 1] == 0 then 1 else 0
  {
    var path := start + Row(1, n);
    if n == 0 {
      assert path == start;
    } else {
      RowIsFree(start, n - 1);
      OneMoreUp(start, n);
    }
  }

  lemma OneMoreUp(start: seq<NodeId>, n: nat)
    requires start != [] && 1 <= n <= 12
    ensures var path, front := start + Row(1, n), start + Row(1, n - 1);
      PathDuration(LongMatrix(), path) == PathDuration(LongMatrix(), front)
        + Duration(LongMatrix(), if n == 1 then start[|start| - 1] else n - 1, n)
  {
    var path := start + Row(1, n);
    assert path[..|path| - 1] == start + Row(1, n - 1);
    assert path[|path| - 1] == n && path[|path| - 2] == if n == 1 then start[|start| - 1] else n - 1;
  }

  lemma FoundCosts()
    ensures PathDuration(LongMatrix(), [0] + Found() + [DESTINATION]) == 5
  {
    var path := [0] + Found() + [DESTINATION];
    var front := path[..|path| - 1];
    assert front == [0, 13] + Row(1, 12);
    RowIsFree([0, 13], 12);
    assert [0, 13][..1] == [0];
    assert PathDuration(LongMatrix(), [0, 13]) == 0;
    assert path[|path| - 2] == 12;
  }

  lemma GivenCosts()
    ensures PathDuration(LongMatrix(), [0] + Given() + [DESTINATION]) == 1
  {
    var path := [0] + Given() + [DESTINATION];
    var front := path[..|path| - 1];
    RowIsFree([0], 12);
    assert front[..|front| - 1] == [0] + Row(1, 12);
    assert PathDuration(LongMatrix(), front) == 1;
    assert path[|path| - 2] == 13;
  }

  /** A reversal drives down the row somewhere, or still ends 5 s from the venue. */
  lemma ReversedCosts(i: nat, j: nat)
    requires i < j < 13
    ensures PathDuration(LongMatrix(), [0] + TO.Trial(Found(), i, j) + [DESTINATION]) >= 5
  {
    TrialAt(i, j);
    ReachesFive(TO.Trial(Found(), i, j), i, j);
  }

  lemma ReachesFive(t: seq<NodeId>, i: nat, j: nat)
    requires |t| == 13 && i < j < 13
    requires if i == 0 && j == 1 then t[12] == 12 else 1 <= t[i + 1] < t[i] <= 12
    ensures PathDuration(LongMatrix(), [0] + t + [DESTINATION]) >= 5
  {
    hide PathDuration;
    var path := [0] + t + [DESTINATION];
    var at := if i == 0 && j == 1 then 13 else i + 1;
    assert path[at] == t[at - 1] && path[at + 1] == if at == 13 then DESTINATION else t[at];
    EdgeInPath(path, at);
  }

  lemma TrialAt(i: nat, j: nat)
    requires i < j < 13
    ensures var t := TO.Trial(Found(), i, j);
      && |t| == 13
      && (if i == 0 && j == 1 then t[12] == 12 else 1 <= t[i + 1] < t[i] <= 12)
  {
    hide TO.Trial;
    var f := Found();
    ReversalMoves(f, i, j);
    assert f[0] == 13 && forall k :: 1 <= k < 13 ==> f[k] == k;
  }

  lemma ReversalMoves(order: seq<NodeId>, i: nat, j: nat)
    requires i < j < |order|
    ensures var t := TO.Trial(order, i, j);
      && |t| == |order| && t[i] == order[j] && t[i + 1] == order[j - 1]
      && forall k :: j < k < |order| ==> t[k] == order[k]
  {
    hide TO.Reverse;
    var r := TO.Reverse(order[i..j + 1]);
    assert TO.Trial(order, i, j) == order[..i] + r + order[j + 1..];
    assert r[0] == order[j] && r[1] == order[j - 1];
  }

  lemma FoundIsSettled(leg: Leg)
    requires leg.matrix == LongMatrix() && leg.origin == 0 && leg.terminus == DESTINATION
    requires leg.wDrive == 1.0 && leg.wRide == 0.0
    ensures TO.Settled(leg, Found(), |Found()|)
  {
    hide PathDuration, PathCost, TO.Trial, Found, LongCell;
    FoundCosts();
    Costs(leg, [0] + Found() + [DESTINATION]);
    FoundSize();
    forall i: nat, j: nat | i < j < |Found()|
      ensures Cost(leg, TO.Trial(Found(), i, j)) >= Cost(leg, Found()) - TO.TOLERANCE
    {
      ReversedCosts(i, j);
      Costs(leg, [0] + TO.Trial(Found(), i, j) + [DESTINATION]);
    }
  }

  lemma FoundSize()
    ensures |Found()| == 13 && |Given()| == 13 && multiset(Found()) == multiset(Given())
  {
  }

  // ---- The car -----------------------------------------------------------------------------------------------

  lemma HomeAlone()
    ensures PathDuration(LongMatrix(), [DESTINATION, 0]) == 0 && DirectSeconds(LongMatrix(), 0) == 0
  {
    assert [DESTINATION, 0][..1] == [DESTINATION];
  }

  lemma CostsRoundTrip(inst: Instance, q: Route)
    requires OnlyDriving(inst)
    ensures RouteCost(inst, q) == RoundTrip(inst.matrix, q) as real
  {
    hide PathDuration, RideOut, RideBack, DirectSeconds, Max, LongMatrix;
    var m := RouteMetrics(inst, q);
    assert m.outboundSeconds + m.inboundSeconds == RoundTrip(inst.matrix, q);
  }

  /**
    * "Never worsens" fails past twelve stops for another reason: thirteen riders out, driven for 1 s as given, are put
    * in an order that takes 5 s and that no reversal improves. No order here is shorter than the direct trip.
    */
  lemma LongCarWorsens(inst: Instance, r: Route)
    requires OnlyDriving(inst) && IsResequenced(inst, Route(0, Given(), []), r)
    ensures r == Route(0, Found(), [])
    ensures RouteCost(inst, r) == 5.0 && RouteCost(inst, Route(0, Given(), [])) == 1.0
    ensures NeverUndercuts(inst.matrix, Route(0, Given(), []))
  {
    hide PathDuration, PathCost, LongCell, RouteCost, IsResequenced, NeverUndercuts, Given, Found, RoundTrip;
    LongOrder(inst, r);
    FoundCosts();
    GivenCosts();
    ThereAndBack(Given());
    ThereAndBack(Found());
    CostsRoundTrip(inst, r);
    CostsRoundTrip(inst, Route(0, Given(), []));
    NothingUndercuts(Route(0, Given(), []));
  }

  lemma ThereAndBack(stops: seq<NodeId>)
    ensures RoundTrip(LongMatrix(), Route(0, stops, [])) == PathDuration(LongMatrix(), [0] + stops + [DESTINATION])
  {
    HomeAlone();
    hide PathDuration;
    assert Route(0, stops, []).InboundPath() == [DESTINATION, 0];
  }

  lemma NothingUndercuts(route: Route)
    requires route.driver == 0
    ensures NeverUndercuts(LongMatrix(), route)
  {
    hide PathDuration, LongCell;
    HomeAlone();
    forall q | SameCar(route, q) ensures RoundTrip(LongMatrix(), q) >= DirectSeconds(LongMatrix(), q.driver) {
      PathNeverNegative(q.OutboundPath());
      PathNeverNegative(q.InboundPath());
    }
  }

  lemma LongOrder(inst: Instance, r: Route)
    requires OnlyDriving(inst) && IsResequenced(inst, Route(0, Given(), []), r)
    ensures r == Route(0, Found(), [])
  {
    FoundSize();
    var leg := OutboundLeg(inst, 0);
    ShortOrdersEqual([], r.inbound);
    hide PathDuration, PathCost, LongCell, Given, Found, RouteCost, TO.Settled, TO.Nearer, Duration, Cost;
    var from :| TO.ImprovesOn(leg, Given(), from, r.outbound);
    FirstThirteen(leg, from);
    FoundIsSettled(leg);
  }
}
