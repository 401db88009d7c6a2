/** Ordering one car: each leg on its own, and what that does to the car's price. */
module Sequence {
  import opened Models
  import opened Legs
  import HK = HeldKarp
  import TO = TwoOpt
  import opened Objective

  /** Above this many stops the table is abandoned for the heuristic. */
  const MAX_EXACT_STOPS: nat := 12

  function OutboundLeg(inst: Instance, driver: NodeId): Leg {
    Leg(inst.matrix, driver, DESTINATION, inst.weights.driveTime + inst.weights.detour, inst.weights.rideTime,
        visited => visited)
  }

  function InboundLeg(inst: Instance, driver: NodeId, total: nat): Leg {
    Leg(inst.matrix, DESTINATION, driver, inst.weights.driveTime + inst.weights.detour, inst.weights.rideTime,
        visited => total - visited)
  }

  ghost predicate Optimal(leg: Leg, order: seq<NodeId>) {
    forall q :: multiset(q) == multiset(order) ==> Cost(leg, order) <= Cost(leg, q)
  }

  ghost predicate IsSequenced(leg: Leg, stops: seq<NodeId>, order: seq<NodeId>) {
    && multiset(order) == multiset(stops)
    && (|stops| <= MAX_EXACT_STOPS ==> Optimal(leg, order))
    && (|stops| > MAX_EXACT_STOPS ==> TO.Settled(leg, order, |order|) && TO.FromNearest(leg, stops, order))
  }

  lemma ShortOrdersEqual(a: seq<NodeId>, b: seq<NodeId>)
    requires multiset(a) == multiset(b) && |a| <= 1
    ensures a == b
  {
    assert |a| == |multiset(a)| == |multiset(b)| == |b|;
    if |a| == 1 {
      assert a[0] in multiset(b);
    }
  }

  /** `_sequence` */
  method SequenceLeg(leg: Leg, stops: seq<NodeId>) returns (order: seq<NodeId>)
    ensures IsSequenced(leg, stops, order)
    ensures |stops| <= 12 ==> forall q :: multiset(q) == multiset(stops) ==> Cost(leg, order) <= Cost(leg, q)
  {
    hide Cost;
    if |stops| <= 1 {
      order := stops;
      forall q | multiset(q) == multiset(order) ensures Cost(leg, order) <= Cost(leg, q) {
        ShortOrdersEqual(order, q);
      }
    } else if |stops| <= MAX_EXACT_STOPS {
      order := HK.HeldKarp(leg, stops);
    } else {
      ghost var from;
      order, from := TO.NearestNeighbourThen2Opt(leg, stops);
      assert TO.ImprovesOn(leg, stops, from, order);
    }
  }

  /** What `resequence` returns: the same car, the same riders on each leg, each leg in sequenced order. */
  ghost predicate IsResequenced(inst: Instance, route: Route, r: Route) {
    && r.driver == route.driver
    && IsSequenced(OutboundLeg(inst, route.driver), route.outbound, r.outbound)
    && IsSequenced(InboundLeg(inst, route.driver, |route.inbound|), route.inbound, r.inbound)
  }

  method Resequence(inst: Instance, route: Route) returns (r: Route)
    ensures IsResequenced(inst, route, r)
    ensures |route.outbound| <= 12 ==> forall q :: multiset(q) == multiset(route.outbound) ==>
      Cost(OutboundLeg(inst, route.driver), r.outbound) <= Cost(OutboundLeg(inst, route.driver), q)
    ensures |route.inbound| <= 12 ==> forall q :: multiset(q) == multiset(route.inbound) ==>
      Cost(InboundLeg(inst, route.driver, |q|), r.inbound) <= Cost(InboundLeg(inst, route.driver, |q|), q)
  {
    hide Cost, IsSequenced;
    forall q: seq<NodeId> | multiset(q) == multiset(route.inbound) ensures |q| == |route.inbound| {
      assert |q| == |multiset(q)| == |multiset(route.inbound)|;
    }
    var outbound := SequenceLeg(OutboundLeg(inst, route.driver), route.outbound);
    var inbound := SequenceLeg(InboundLeg(inst, route.driver, |route.inbound|), route.inbound);
    r := Route(route.driver, outbound, inbound);
  }

  // ---- The sequencer minimises what the objective scores ------------------------------------

  /** Both legs as the sequencer prices them. */
  ghost function LegTotal(inst: Instance, route: Route): real {
    Cost(OutboundLeg(inst, route.driver), route.outbound)
    + Cost(InboundLeg(inst, route.driver, |route.inbound|), route.inbound)
  }

  /** How far the round trip falls short of the driver's direct one; zero on any sane road network. */
  ghost function Undercut(m: Matrix, route: Route): int {
    Max(0, DirectSeconds(m, route.driver) - RoundTrip(m, route))
  }

  ghost function LegPrice(w: Weights, drive: int, ride: int): real {
    (w.driveTime + w.detour) * drive as real + w.rideTime * ride as real
  }

  lemma PathCostIsPrice(leg: Leg, w: Weights, path: seq<NodeId>, ride: int)
    requires leg.wDrive == w.driveTime + w.detour && leg.wRide == w.rideTime
    requires ride == OccupiedSeconds(leg.matrix, path, leg.onboard)
    ensures PathCost(leg, path) == LegPrice(w, PathDuration(leg.matrix, path), ride)
  {
    hide PathCost, OccupiedSeconds, PathDuration;
    PathCostSplits(leg, path);
  }

  lemma OutboundOccupied(m: Matrix, route: Route, onboard: int -> int)
    requires Plain(route) && forall i :: onboard(i) == i
    ensures RideOut(m, route) == OccupiedSeconds(m, route.OutboundPath(), onboard)
  {
    var path := route.OutboundPath();
    assert Inner(path) == route.outbound;
    hide OccupiedSeconds, PathDuration, SumRemaining, TimesAlong, Inner, Distinct;
    OutboundRide(m, path);
    OccupiedSame(m, path, onboard, visited => visited);
  }

  lemma InboundOccupied(m: Matrix, route: Route, onboard: int -> int)
    requires Plain(route) && forall i :: onboard(i) == |route.inbound| - i
    ensures RideBack(m, route) == OccupiedSeconds(m, route.InboundPath(), onboard)
  {
    var path := route.InboundPath();
    assert Inner(path) == route.inbound && |path| - 2 == |route.inbound|;
    hide OccupiedSeconds, PathDuration, SumTimes, TimesAlong, Inner, Distinct;
    InboundRide(m, path);
    OccupiedSame(m, path, onboard, visited => |path| - 2 - visited);
  }

  lemma OutboundCost(inst: Instance, route: Route)
    requires Plain(route)
    ensures Cost(OutboundLeg(inst, route.driver), route.outbound)
         == LegPrice(inst.weights, PathDuration(inst.matrix, route.OutboundPath()), RideOut(inst.matrix, route))
  {
    hide PathCost, OccupiedSeconds, LegPrice, PathDuration, RideOut, Plain;
    var leg := OutboundLeg(inst, route.driver);
    OutboundOccupied(inst.matrix, route, leg.onboard);
    PathCostIsPrice(leg, inst.weights, route.OutboundPath(), RideOut(inst.matrix, route));
  }

  lemma InboundCost(inst: Instance, route: Route)
    requires Plain(route)
    ensures Cost(InboundLeg(inst, route.driver, |route.inbound|), route.inbound)
         == LegPrice(inst.weights, PathDuration(inst.matrix, route.InboundPath()), RideBack(inst.matrix, route))
  {
    hide PathCost, OccupiedSeconds, LegPrice, PathDuration, RideBack, Plain;
    var leg := InboundLeg(inst, route.driver, |route.inbound|);
    InboundOccupied(inst.matrix, route, leg.onboard);
    PathCostIsPrice(leg, inst.weights, route.InboundPath(), RideBack(inst.matrix, route));
  }

  ghost function DetourCharge(w: Weights, seconds: int): real {
    w.detour * seconds as real
  }

  /** The objective's price of a car is the sequencer's, less the commute, plus any undercut. */
  lemma RouteCostIsLegTotal(inst: Instance, route: Route)
    requires Plain(route)
    ensures RouteCost(inst, route)
         == LegTotal(inst, route)
            - DetourCharge(inst.weights, DirectSeconds(inst.matrix, route.driver))
            + DetourCharge(inst.weights, Undercut(inst.matrix, route))
  {
    hide PathDuration, RideOut, RideBack, Cost, DirectSeconds, Price, LegPrice, Max, OutboundLeg, InboundLeg, Plain,
         DetourCharge;
    OutboundCost(inst, route);
    InboundCost(inst, route);
    var out, back := PathDuration(inst.matrix, route.OutboundPath()), PathDuration(inst.matrix, route.InboundPath());
    var direct := DirectSeconds(inst.matrix, route.driver);
    assert RoundTrip(inst.matrix, route) == out + back;
    assert RoundTrip(inst.matrix, route) - direct == out + back - direct;
    assert direct - RoundTrip(inst.matrix, route) == direct - (out + back);
    CollectTerms(inst.weights, out, back, RideOut(inst.matrix, route), RideBack(inst.matrix, route), direct);
  }

  lemma CollectTerms(w: Weights, out: int, back: int, rideOut: int, rideBack: int, direct: int)
    ensures Price(w, out + back, rideOut + rideBack, Max(0, out + back - direct))
         == LegPrice(w, out, rideOut) + LegPrice(w, back, rideBack)
            - DetourCharge(w, direct) + DetourCharge(w, Max(0, direct - (out + back)))
  {
    assert Max(0, out + back - direct) == out + back - direct + Max(0, direct - (out + back));
    Spread(w.detour, out, back, direct, Max(0, direct - (out + back)));
    Spread(w.driveTime, out, back, 0, 0);
    Spread(w.rideTime, rideOut, rideBack, 0, 0);
  }

  lemma Spread(w: real, a: int, b: int, c: int, d: int)
    ensures w * (a + b - c + d) as real == w * a as real + w * b as real - w * c as real + w * d as real
  {
  }

  /** Another order of the same riders on the same legs of the same car. */
  ghost predicate SameCar(a: Route, b: Route) {
    a.driver == b.driver && multiset(a.outbound) == multiset(b.outbound) && multiset(a.inbound) == multiset(b.inbound)
  }

  lemma SamePlain(a: Route, b: Route)
    requires SameCar(a, b) && Plain(a)
    ensures Plain(b)
  {
    DistinctIsMultiset(a.OutboundPath(), b.OutboundPath());
    DistinctIsMultiset(a.InboundPath(), b.InboundPath());
  }

  lemma DistinctIsMultiset(s: seq<NodeId>, t: seq<NodeId>)
    requires Distinct(s) && multiset(s) == multiset(t)
    ensures Distinct(t)
  {
    DistinctCounts(s);
    forall i, j | 0 <= i < j < |t| ensures t[i] != t[j] {
      if t[i] == t[j] {
        TwiceCounts(t, i, j);
      }
    }
  }

  lemma {:induction false} DistinctCounts(s: seq<NodeId>)
    requires Distinct(s)
    ensures forall x :: x in s ==> multiset(s)[x] == 1
  {
    if s != [] {
      var front, last := s[..|s| - 1], s[|s| - 1];
      DistinctCounts(front);
      assert s == front + [last];
      assert last !in front;
    }
  }

  lemma TwiceCounts(t: seq<NodeId>, i: nat, j: nat)
    requires i < j < |t| && t[i] == t[j]
    ensures multiset(t)[t[i]] >= 2
  {
    assert t == t[..i] + [t[i]] + t[i + 1..j] + [t[j]] + t[j + 1..];
  }

  /** Up to twelve stops a leg, no order of the same riders is priced below the resequenced one, clamp aside. */
  lemma ResequencedLegTotal(inst: Instance, route: Route, r: Route, q: Route)
    requires IsResequenced(inst, route, r) && SameCar(route, q)
    requires |route.outbound| <= MAX_EXACT_STOPS && |route.inbound| <= MAX_EXACT_STOPS
    ensures LegTotal(inst, r) <= LegTotal(inst, q)
  {
    hide Cost;
    assert |q.inbound| == |multiset(q.inbound)| == |multiset(route.inbound)| == |route.inbound|;
    assert |r.inbound| == |multiset(r.inbound)| == |multiset(route.inbound)| == |route.inbound|;
    assert multiset(q.outbound) == multiset(r.outbound);
  }

  /** What resequencing can cost at most: the detour charge on the time it undercuts the direct trip by. */
  lemma ResequenceBound(inst: Instance, route: Route, r: Route, q: Route)
    requires IsResequenced(inst, route, r) && SameCar(route, q) && Plain(route)
    requires |route.outbound| <= MAX_EXACT_STOPS && |route.inbound| <= MAX_EXACT_STOPS
    ensures RouteCost(inst, r) - DetourCharge(inst.weights, Undercut(inst.matrix, r))
         <= RouteCost(inst, q) - DetourCharge(inst.weights, Undercut(inst.matrix, q))
  {
    hide RouteCost, LegTotal, DetourCharge, Undercut, Plain, DirectSeconds;
    SamePlain(route, q);
    SamePlain(route, r);
    RouteCostIsLegTotal(inst, q);
    RouteCostIsLegTotal(inst, r);
    ResequencedLegTotal(inst, route, r, q);
  }

  /** No order of these riders makes the round trip shorter than driving alone. */
  ghost predicate NeverUndercuts(m: Matrix, route: Route) {
    forall q :: SameCar(route, q) ==> RoundTrip(m, q) >= DirectSeconds(m, q.driver)
  }

  /** Where no order undercuts the direct trip, the resequenced car is the cheapest way to carry its riders. */
  lemma ResequenceOptimal(inst: Instance, route: Route, r: Route, q: Route)
    requires IsResequenced(inst, route, r) && SameCar(route, q) && Plain(route)
    requires |route.outbound| <= MAX_EXACT_STOPS && |route.inbound| <= MAX_EXACT_STOPS
    requires inst.weights.detour == 0.0 || NeverUndercuts(inst.matrix, route)
    ensures RouteCost(inst, r) <= RouteCost(inst, q)
  {
    hide RouteCost, Plain, DirectSeconds, RoundTrip;
    ResequenceBound(inst, route, r, q);
    assert SameCar(route, r);
  }

  /** Short of twelve stops the clamp is the only way to lose: a dearer car undercuts the direct trip, and by more. */
  lemma WorseOnlyByUndercutting(inst: Instance, route: Route, r: Route, q: Route)
    requires IsResequenced(inst, route, r) && SameCar(route, q) && Plain(route)
    requires |route.outbound| <= MAX_EXACT_STOPS && |route.inbound| <= MAX_EXACT_STOPS
    requires inst.weights.detour >= 0.0 && RouteCost(inst, r) > RouteCost(inst, q)
    ensures RoundTrip(inst.matrix, r) < DirectSeconds(inst.matrix, r.driver)
    ensures RoundTrip(inst.matrix, r) < RoundTrip(inst.matrix, q)
  {
    hide RouteCost, Plain, DirectSeconds, RoundTrip;
    ResequenceBound(inst, route, r, q);
    ChargeGrows(inst.weights, Undercut(inst.matrix, r), Undercut(inst.matrix, q));
  }

  lemma ChargeGrows(w: Weights, a: int, b: int)
    requires w.detour >= 0.0
    ensures a <= b ==> DetourCharge(w, a) <= DetourCharge(w, b)
  {
    if a <= b {
      assert w.detour * a as real <= w.detour * b as real;
    }
  }

  // ---- Without that hypothesis resequencing can make a car dearer ------------------------------

  /** Two riders on a shortcut: the venue is 100 s away directly, and at most 24 s away through them. */
  ghost function ShortcutCell(a: NodeId, b: NodeId): int {
    if a == 0 && b == 1 then 1
    else if a == 0 && b == 2 then 10
    else if a == 2 && b == DESTINATION then 19
    else if a == 1 && b == DESTINATION then 14
    else if a == 0 || b == 0 then 100
    else 0
  }

  ghost function ShortcutInstance(): Instance {
    var d := Participant(0, Driver, 2, 0, None, None, None, None, true, true);
    var a := Participant(1, Passenger, 0, 0, None, None, None, None, true, false);
    var b := Participant(2, Passenger, 0, 0, None, None, None, None, true, false);
    Instance(0, 1, [d, a, b], Matrix(ShortcutCell), Weights(1.0, 600.0, 0.5, 1.0, 100000.0, 0.0),
             map[0 := d, 1 := a, 2 := b])
  }

  lemma ShortcutIsValid()
    ensures ShortcutInstance().Valid() && forall id :: 0 <= id <= 2 ==> ShortcutInstance().Has(id)
  {
  }

  lemma TwoStopPath(m: Matrix, a: NodeId, b: NodeId, c: NodeId, d: NodeId)
    ensures PathDuration(m, [a, b, c, d]) == Duration(m, a, b) + Duration(m, b, c) + Duration(m, c, d)
  {
    var all := [a, b, c, d];
    assert PathDuration(m, all[..1]) == 0;
    assert all[..2][..1] == all[..1] && all[..3][..2] == all[..2];
    assert PathDuration(m, all[..2]) == Duration(m, a, b);
    assert PathDuration(m, all[..3]) == Duration(m, a, b) + Duration(m, b, c);
  }

  lemma TwoStopOccupied(m: Matrix, a: NodeId, b: NodeId, c: NodeId, d: NodeId)
    ensures OccupiedSeconds(m, [a, b, c, d], visited => visited) == Duration(m, b, c) + 2 * Duration(m, c, d)
  {
    var all := [a, b, c, d];
    assert OccupiedSeconds(m, all[..1], visited => visited) == 0;
    assert all[..2][..1] == all[..1] && all[..3][..2] == all[..2];
    assert OccupiedSeconds(m, all[..2], visited => visited) == Duration(m, a, b) * 0;
    assert OccupiedSeconds(m, all[..3], visited => visited) == Duration(m, b, c);
  }

  /** The shortcut car, out through `x` then `y` and home alone: its drive and ride seconds. */
  lemma ShortcutCar(x: NodeId, y: NodeId)
    requires (x == 1 && y == 2) || (x == 2 && y == 1)
    ensures var route := Route(0, [x, y], []);
      && Plain(route)
      && PathDuration(Matrix(ShortcutCell), route.OutboundPath()) == (if x == 1 then 20 else 24)
      && PathDuration(Matrix(ShortcutCell), route.InboundPath()) == 100
      && RideOut(Matrix(ShortcutCell), route) == (if x == 1 then 38 else 28)
      && RideBack(Matrix(ShortcutCell), route) == 0
  {
    var m, route := Matrix(ShortcutCell), Route(0, [x, y], []);
    ShortcutPaths(x, y);
    hide OccupiedSeconds, PathDuration, RideOut, RideBack, TimesAlong;
    TwoStopPath(m, 0, x, y, DESTINATION);
    TwoStopOccupied(m, 0, x, y, DESTINATION);
    OutboundOccupied(m, route, visited => visited);
  }

  lemma ShortcutPaths(x: NodeId, y: NodeId)
    requires (x == 1 && y == 2) || (x == 2 && y == 1)
    ensures var route := Route(0, [x, y], []);
      && Plain(route) && route.OutboundPath() == [0, x, y, DESTINATION]
      && PathDuration(Matrix(ShortcutCell), route.InboundPath()) == 100
      && RideBack(Matrix(ShortcutCell), route) == 0
  {
    hide TimesAlong;
    var route := Route(0, [x, y], []);
    assert route.OutboundPath() == [0, x, y, DESTINATION];
    assert route.InboundPath() == [DESTINATION, 0];
    assert [DESTINATION, 0][..1] == [DESTINATION];
  }

  lemma PairOrders(s: seq<NodeId>, a: NodeId, b: NodeId)
    requires multiset(s) == multiset([a, b])
    ensures s == [a, b] || s == [b, a]
  {
    assert |s| == |multiset(s)| == 2;
    assert s == [s[0], s[1]];
    assert s[0] in multiset(s) && s[1] in multiset(s);
    assert multiset(s)[a] >= 1 && multiset(s)[b] >= 1;
    assert a in s && b in s;
  }

  /** "Never worsens the objective" fails here: both legs come back optimally ordered and the car costs more. */
  lemma ResequenceCanWorsen(r: Route)
    requires IsResequenced(ShortcutInstance(), Route(0, [2, 1], []), r)
    ensures ShortcutInstance().Valid() && forall id :: 0 <= id <= 2 ==> ShortcutInstance().Has(id)
    ensures RouteCost(ShortcutInstance(), r) > RouteCost(ShortcutInstance(), Route(0, [2, 1], []))
  {
    ShortcutIsValid();
    hide Cost, PathDuration, RideOut, RideBack, Plain, ShortcutCell;
    var inst, slow := ShortcutInstance(), Route(0, [2, 1], []);
    var fast := Route(0, [1, 2], []);
    ShortcutCar(2, 1);
    ShortcutCar(1, 2);
    OutboundCost(inst, slow);
    OutboundCost(inst, fast);
    PairOrders(r.outbound, 2, 1);
    ShortOrdersEqual(slow.inbound, r.inbound);
    assert multiset(fast.outbound) == multiset(r.outbound);
    assert Cost(OutboundLeg(inst, 0), r.outbound) <= Cost(OutboundLeg(inst, 0), fast.outbound);
    assert r == fast;
    ShortcutDirect();
  }

  lemma ShortcutDirect()
    ensures DirectSeconds(Matrix(ShortcutCell), 0) == 200
  {
  }

  // ---- The return trip on a symmetric matrix ------------------------------------------------

  ghost predicate Symmetric(m: Matrix) {
    forall a, b :: Duration(m, a, b) == Duration(m, b, a)
  }

  /** Peeling the first edge instead of the last; the occupancy then starts one stop later. */
  lemma {:induction false} PathCostFront(leg: Leg, path: seq<NodeId>)
    requires |path| >= 2
    ensures PathCost(leg, path)
         == Edge(leg, 0, path[0], path[1]) + PathCost(leg.(onboard := i => leg.onboard(i + 1)), path[1..])
  {
    var n := |path|;
    var later := leg.(onboard := i => leg.onboard(i + 1));
    if n > 2 {
      PathCostFront(leg, path[..n - 1]);
      assert path[1..][..n - 2] == path[..n - 1][1..];
      LaterEdge(leg, later, n - 2, path[n - 2], path[n - 1]);
    }
  }

  lemma LaterEdge(leg: Leg, later: Leg, visited: int, a: NodeId, b: NodeId)
    requires later == leg.(onboard := later.onboard) && later.onboard(visited - 1) == leg.onboard(visited)
    ensures Edge(later, visited - 1, a, b) == Edge(leg, visited, a, b)
  {
  }

  /** Driving a path backwards under the mirrored occupancy costs the same. */
  lemma {:induction false} MirrorCost(a: Leg, b: Leg, path: seq<NodeId>)
    requires Symmetric(a.matrix) && b.matrix == a.matrix && b.wDrive == a.wDrive && b.wRide == a.wRide
    requires forall i :: 0 <= i < |path| - 1 ==> b.onboard(i) == a.onboard(|path| - 2 - i)
    ensures PathCost(b, TO.Reverse(path)) == PathCost(a, path)
    decreases |path|
  {
    var n := |path|;
    if n >= 2 {
      hide Edge, TO.Reverse;
      var back := TO.Reverse(path);
      assert back[1..] == TO.Reverse(path[..n - 1]);
      PathCostFront(b, back);
      var later := b.(onboard := i => b.onboard(i + 1));
      MirrorCost(a, later, path[..n - 1]);
      MirrorEdge(a, b, n - 2, path[n - 2], path[n - 1]);
    }
  }

  lemma MirrorEdge(a: Leg, b: Leg, visited: int, x: NodeId, y: NodeId)
    requires Symmetric(a.matrix) && b.matrix == a.matrix && b.wDrive == a.wDrive && b.wRide == a.wRide
    requires b.onboard(0) == a.onboard(visited)
    ensures Edge(b, 0, y, x) == Edge(a, visited, x, y)
  {
  }

  lemma ReverseIs(s: seq<NodeId>, r: seq<NodeId>)
    requires |r| == |s| && forall i :: 0 <= i < |s| ==> r[i] == s[|s| - 1 - i]
    ensures TO.Reverse(s) == r
  {
    hide TO.Reverse;
  }

  lemma ReversedPath(driver: NodeId, order: seq<NodeId>)
    ensures |TO.Reverse(order)| == |order|
    ensures TO.Reverse([driver] + order + [DESTINATION]) == [DESTINATION] + TO.Reverse(order) + [driver]
  {
    hide TO.Reverse;
    ReverseIs([driver] + order + [DESTINATION], [DESTINATION] + TO.Reverse(order) + [driver]);
  }

  lemma ReversedLegCost(inst: Instance, driver: NodeId, order: seq<NodeId>)
    requires Symmetric(inst.matrix)
    ensures Cost(InboundLeg(inst, driver, |order|), TO.Reverse(order)) == Cost(OutboundLeg(inst, driver), order)
  {
    hide TO.Reverse, PathCost;
    var path := [driver] + order + [DESTINATION];
    ReversedPath(driver, order);
    MirrorCost(OutboundLeg(inst, driver), InboundLeg(inst, driver, |order|), path);
  }

  /** On a symmetric matrix the reverse of any optimal way out is an optimal way back. */
  lemma ReversedIsOptimal(inst: Instance, driver: NodeId, order: seq<NodeId>)
    requires Symmetric(inst.matrix) && Optimal(OutboundLeg(inst, driver), order)
    ensures Optimal(InboundLeg(inst, driver, |order|), TO.Reverse(order))
  {
    hide Cost;
    ReversedLegCost(inst, driver, order);
    forall q | multiset(q) == multiset(TO.Reverse(order))
      ensures Cost(InboundLeg(inst, driver, |order|), TO.Reverse(order)) <= Cost(InboundLeg(inst, driver, |order|), q)
    {
      assert |q| == |multiset(q)| == |multiset(order)| == |order|;
      assert TO.Reverse(TO.Reverse(q)) == q;
      ReversedLegCost(inst, driver, TO.Reverse(q));
    }
  }
}
