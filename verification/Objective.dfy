/** Pricing: what one car costs, and what a whole solution costs. */
module Objective {
  import opened Models
  import opened Legs

  datatype Metrics = Metrics(
    outboundSeconds: int,
    inboundSeconds: int,
    directSeconds: int,
    detourSeconds: int,
    rideSeconds: int,
    seatsUsed: nat)

  function Max(a: int, b: int): int {
    if a < b then b else a
  }

  predicate Timed(order: seq<NodeId>, times: map<NodeId, int>) {
    forall i :: 0 <= i < |order| ==> order[i] in times
  }

  function SumTimes(order: seq<NodeId>, times: map<NodeId, int>): int
    requires Timed(order, times)
  {
    var n := |order|;
    if n == 0 then 0 else SumTimes(order[..n - 1], times) + times[order[n - 1]]
  }

  /** Seconds spent aboard outbound: each rider from their pickup to the destination. */
  function SumRemaining(order: seq<NodeId>, total: int, times: map<NodeId, int>): int
    requires Timed(order, times)
  {
    var n := |order|;
    if n == 0 then 0 else SumRemaining(order[..n - 1], total, times) + total - times[order[n - 1]]
  }

  function DirectSeconds(m: Matrix, driver: NodeId): int {
    Duration(m, driver, DESTINATION) + Duration(m, DESTINATION, driver)
  }

  function RoundTrip(m: Matrix, route: Route): int {
    PathDuration(m, route.OutboundPath()) + PathDuration(m, route.InboundPath())
  }

  /** Seconds from home to each stop on the way out. */
  function OutboundElapsed(m: Matrix, route: Route): (times: map<NodeId, int>)
    ensures Timed(route.outbound, times)
  {
    hide TimesAlong;
    assert forall i :: 0 <= i < |route.outbound| ==> route.OutboundPath()[i + 1] == route.outbound[i];
    TimesAlong(m, route.OutboundPath(), 0)
  }

  /** Seconds from the venue to each stop on the way back. */
  function InboundElapsed(m: Matrix, route: Route): (times: map<NodeId, int>)
    ensures Timed(route.inbound, times)
  {
    hide TimesAlong;
    assert forall i :: 0 <= i < |route.inbound| ==> route.InboundPath()[i + 1] == route.inbound[i];
    TimesAlong(m, route.InboundPath(), 0)
  }

  function RideOut(m: Matrix, route: Route): int {
    SumRemaining(route.outbound, PathDuration(m, route.OutboundPath()), OutboundElapsed(m, route))
  }

  function RideBack(m: Matrix, route: Route): int {
    SumTimes(route.inbound, InboundElapsed(m, route))
  }

  function RouteMetrics(inst: Instance, route: Route): Metrics {
    var m := inst.matrix;
    var direct := DirectSeconds(m, route.driver);
    Metrics(
      PathDuration(m, route.OutboundPath()),
      PathDuration(m, route.InboundPath()),
      direct,
      Max(0, RoundTrip(m, route) - direct),
      RideOut(m, route) + RideBack(m, route),
      Max(|route.outbound|, |route.inbound|))
  }

  function Price(w: Weights, drive: int, ride: int, detour: int): real {
    w.driveTime * drive as real + w.rideTime * ride as real + w.detour * detour as real
  }

  /** Weighted cost of one route, without the per-vehicle charge. */
  function RouteCost(inst: Instance, route: Route): real {
    var m := RouteMetrics(inst, route);
    Price(inst.weights, m.outboundSeconds + m.inboundSeconds, m.rideSeconds, m.detourSeconds)
  }

  // ---- What a car's metrics come to ------------------------------------------------------------------------

  lemma PathOfTwo(m: Matrix, a: NodeId, b: NodeId)
    ensures PathDuration(m, [a, b]) == if a == b then 0 else m.cell(a, b)
  {
    assert [a, b][..1] == [a];
  }

  /** Driving alone is driving there and back: no detour, nobody aboard, no seat taken. */
  lemma AloneMetrics(inst: Instance, d: NodeId)
    requires d != DESTINATION
    ensures var m := RouteMetrics(inst, EmptyCar(d));
      && m.outboundSeconds == inst.matrix.cell(d, DESTINATION) && m.inboundSeconds == inst.matrix.cell(DESTINATION, d)
      && m.directSeconds == m.outboundSeconds + m.inboundSeconds
      && m.detourSeconds == 0 && m.rideSeconds == 0 && m.seatsUsed == 0
  {
    PathOfTwo(inst.matrix, d, DESTINATION);
    PathOfTwo(inst.matrix, DESTINATION, d);
    assert EmptyCar(d).OutboundPath() == [d, DESTINATION] && EmptyCar(d).InboundPath() == [DESTINATION, d];
  }

  /** A car's metrics against those of its driver alone: the detour is what the round trip adds, never below nothing. */
  lemma MetricsAgainstAlone(inst: Instance, route: Route)
    requires route.driver != DESTINATION
    ensures var m, alone := RouteMetrics(inst, route), RouteMetrics(inst, EmptyCar(route.driver));
      var added := m.outboundSeconds + m.inboundSeconds - (alone.outboundSeconds + alone.inboundSeconds);
      && m.directSeconds == alone.outboundSeconds + alone.inboundSeconds
      && m.detourSeconds == (if added > 0 then added else 0)
      && m.outboundSeconds == PathDuration(inst.matrix, [route.driver] + route.outbound + [DESTINATION])
      && m.inboundSeconds == PathDuration(inst.matrix, [DESTINATION] + route.inbound + [route.driver])
      && |route.outbound| <= m.seatsUsed && |route.inbound| <= m.seatsUsed
      && (m.seatsUsed == |route.outbound| || m.seatsUsed == |route.inbound|)
  {
    hide PathDuration, RideOut, RideBack;
    AloneMetrics(inst, route.driver);
    var d := route.driver;
    assert Duration(inst.matrix, d, DESTINATION) == inst.matrix.cell(d, DESTINATION);
  }

  /** What one car is charged: each weight on its own seconds. */
  lemma RouteCostWrittenOut(inst: Instance, route: Route)
    ensures var m, w := RouteMetrics(inst, route), inst.weights;
      RouteCost(inst, route)
      == w.driveTime * (m.outboundSeconds + m.inboundSeconds) as real + w.rideTime * m.rideSeconds as real
         + w.detour * m.detourSeconds as real
  {
    hide RouteMetrics;
  }

  // ---- Ride time is occupancy-weighted drive time ------------------------------------------

  /** Seconds on each edge, times the occupancy on it. */
  ghost function OccupiedSeconds(m: Matrix, path: seq<NodeId>, onboard: int -> int): int {
    var n := |path|;
    if n < 2 then 0
    else OccupiedSeconds(m, path[..n - 1], onboard) + Duration(m, path[n - 2], path[n - 1]) * onboard(n - 2)
  }

  /** Drives one leg no stop twice: neither the car's home, the venue nor a rider repeats. */
  ghost predicate Plain(route: Route) {
    Distinct(route.OutboundPath()) && Distinct(route.InboundPath())
  }

  ghost predicate SameTimes(order: seq<NodeId>, a: map<NodeId, int>, b: map<NodeId, int>) {
    Timed(order, a) && Timed(order, b) && forall i :: 0 <= i < |order| ==> a[order[i]] == b[order[i]]
  }

  lemma {:induction false} SumRemainingShift(order: seq<NodeId>, total: int, extra: int,
                                             a: map<NodeId, int>, b: map<NodeId, int>)
    requires SameTimes(order, a, b)
    ensures SumRemaining(order, total + extra, b) == SumRemaining(order, total, a) + |order| * extra
  {
    var n := |order|;
    if n > 0 {
      SumRemainingShift(order[..n - 1], total, extra, a, b);
      assert (n - 1) * extra + extra == n * extra;
    }
  }

  lemma {:induction false} SumTimesSame(order: seq<NodeId>, a: map<NodeId, int>, b: map<NodeId, int>)
    requires SameTimes(order, a, b)
    ensures SumTimes(order, a) == SumTimes(order, b)
  {
    if order != [] {
      SumTimesSame(order[..|order| - 1], a, b);
    }
  }

  /** The stops of a path: everything but its two ends. */
  ghost function Inner(path: seq<NodeId>): seq<NodeId>
    requires |path| >= 2
  {
    path[1..|path| - 1]
  }

  lemma TimesOnFront(m: Matrix, path: seq<NodeId>, front: seq<NodeId>)
    requires |path| >= 3 && Distinct(path) && front == path[..|path| - 1]
    ensures SameTimes(Inner(front), TimesAlong(m, front, 0), TimesAlong(m, path, 0))
    ensures path[|path| - 2] in TimesAlong(m, path, 0)
    ensures TimesAlong(m, path, 0)[path[|path| - 2]] == PathDuration(m, front)
  {
    forall i | 0 <= i < |Inner(front)|
      ensures Inner(front)[i] in front && Inner(front)[i] != path[|path| - 1]
    {
      assert front[i + 1] == path[i + 1] == Inner(front)[i];
    }
    assert front[|front| - 1] == path[|path| - 2];
  }

  lemma InnerMore(path: seq<NodeId>, front: seq<NodeId>)
    requires |path| >= 3 && front == path[..|path| - 1]
    ensures Inner(path) == Inner(front) + [path[|path| - 2]]
    ensures |Inner(path)| == |Inner(front)| + 1 == |path| - 2 && Inner(path)[..|Inner(front)|] == Inner(front)
  {
  }

  lemma PathDurationMore(m: Matrix, path: seq<NodeId>, front: seq<NodeId>)
    requires |path| >= 2 && front == path[..|path| - 1]
    ensures PathDuration(m, path) == PathDuration(m, front) + Duration(m, path[|path| - 2], path[|path| - 1])
  {
  }

  /** One more edge keeps everyone collected so far aboard for it, and the last stop's rider too. */
  lemma RemainingMore(m: Matrix, path: seq<NodeId>, front: seq<NodeId>, last: int)
    requires |path| >= 3 && Distinct(path) && front == path[..|path| - 1]
    requires last == Duration(m, path[|path| - 2], path[|path| - 1])
    requires Timed(Inner(front), TimesAlong(m, front, 0)) && Timed(Inner(path), TimesAlong(m, path, 0))
    ensures SumRemaining(Inner(path), PathDuration(m, path), TimesAlong(m, path, 0))
         == SumRemaining(Inner(front), PathDuration(m, front), TimesAlong(m, front, 0))
            + |Inner(front)| * last + last
  {
    hide TimesAlong, PathDuration, Inner, Duration, Distinct, SameTimes;
    PathDurationMore(m, path, front);
    TimesOnFront(m, path, front);
    InnerMore(path, front);
    SumRemainingShift(Inner(front), PathDuration(m, front), last,
                      TimesAlong(m, front, 0), TimesAlong(m, path, 0));
  }

  /** Outbound, the riders' time aboard is each edge counted once per rider already picked up. */
  lemma {:induction false} OutboundRide(m: Matrix, path: seq<NodeId>)
    requires |path| >= 2 && Distinct(path)
    ensures Timed(Inner(path), TimesAlong(m, path, 0))
    ensures SumRemaining(Inner(path), PathDuration(m, path), TimesAlong(m, path, 0))
         == OccupiedSeconds(m, path, visited => visited)
  {
    var n := |path|;
    if n == 2 {
      assert OccupiedSeconds(m, path[..1], visited => visited) == 0;
    } else {
      hide OccupiedSeconds, TimesAlong, PathDuration, SumRemaining, Inner;
      var front, last := path[..n - 1], Duration(m, path[n - 2], path[n - 1]);
      OutboundRide(m, front);
      RemainingMore(m, path, front, last);
      InnerMore(path, front);
      OutboundRideStep(m, path, last);
    }
  }

  lemma OutboundRideStep(m: Matrix, path: seq<NodeId>, last: int)
    requires |path| >= 3 && last == Duration(m, path[|path| - 2], path[|path| - 1])
    ensures OccupiedSeconds(m, path, visited => visited)
         == OccupiedSeconds(m, path[..|path| - 1], visited => visited) + (|path| - 3) * last + last
  {
    assert (|path| - 3) * last + last == last * (|path| - 2);
  }

  lemma {:induction false} OccupiedShift(m: Matrix, path: seq<NodeId>, total: int)
    ensures OccupiedSeconds(m, path, visited => total + 1 - visited)
         == OccupiedSeconds(m, path, visited => total - visited) + PathDuration(m, path)
  {
    var n := |path|;
    if n >= 2 {
      OccupiedShift(m, path[..n - 1], total);
      var d := Duration(m, path[n - 2], path[n - 1]);
      assert d * (total + 1 - (n - 2)) == d * (total - (n - 2)) + d;
    }
  }

  lemma TimesMore(m: Matrix, path: seq<NodeId>, front: seq<NodeId>)
    requires |path| >= 3 && Distinct(path) && front == path[..|path| - 1]
    requires Timed(Inner(front), TimesAlong(m, front, 0)) && Timed(Inner(path), TimesAlong(m, path, 0))
    ensures SumTimes(Inner(path), TimesAlong(m, path, 0))
         == SumTimes(Inner(front), TimesAlong(m, front, 0)) + PathDuration(m, front)
  {
    hide TimesAlong, PathDuration, Inner;
    TimesOnFront(m, path, front);
    InnerMore(path, front);
    SumTimesSame(Inner(front), TimesAlong(m, front, 0), TimesAlong(m, path, 0));
  }

  /** Inbound, each edge counts once per rider still aboard. */
  lemma {:induction false} InboundRide(m: Matrix, path: seq<NodeId>)
    requires |path| >= 2 && Distinct(path)
    ensures Timed(Inner(path), TimesAlong(m, path, 0))
    ensures SumTimes(Inner(path), TimesAlong(m, path, 0))
         == OccupiedSeconds(m, path, visited => |path| - 2 - visited)
  {
    var n := |path|;
    if n == 2 {
      assert OccupiedSeconds(m, path[..1], visited => n - 2 - visited) == 0;
    } else {
      hide OccupiedSeconds, TimesAlong, PathDuration, SumTimes, Inner;
      InboundRide(m, path[..n - 1]);
      TimesMore(m, path, path[..n - 1]);
      InboundRideStep(m, path);
    }
  }

  lemma InboundRideStep(m: Matrix, path: seq<NodeId>)
    requires |path| >= 3
    ensures OccupiedSeconds(m, path, visited => |path| - 2 - visited)
         == OccupiedSeconds(m, path[..|path| - 1], visited => |path[..|path| - 1]| - 2 - visited)
            + PathDuration(m, path[..|path| - 1])
  {
    var front, total := path[..|path| - 1], |path| - 3;
    OccupiedShift(m, front, total);
    OccupiedSame(m, front, visited => total + 1 - visited, visited => |path| - 2 - visited);
    OccupiedSame(m, front, visited => total - visited, visited => |front| - 2 - visited);
    var d := Duration(m, path[|path| - 2], path[|path| - 1]);
    assert d * 0 == 0;
  }

  lemma {:induction false} OccupiedSame(m: Matrix, path: seq<NodeId>, f: int -> int, g: int -> int)
    requires forall i :: f(i) == g(i)
    ensures OccupiedSeconds(m, path, f) == OccupiedSeconds(m, path, g)
  {
    if |path| >= 2 {
      OccupiedSame(m, path[..|path| - 1], f, g);
    }
  }

  /** The sequencer's leg cost is the weighted drive time plus the weighted occupied time. */
  lemma {:induction false} PathCostSplits(leg: Leg, path: seq<NodeId>)
    ensures PathCost(leg, path)
         == leg.wDrive * PathDuration(leg.matrix, path) as real
            + leg.wRide * OccupiedSeconds(leg.matrix, path, leg.onboard) as real
  {
    var n := |path|;
    if n >= 2 {
      PathCostSplits(leg, path[..n - 1]);
      EdgeSplits(leg, n - 2, path[n - 2], path[n - 1],
                 PathDuration(leg.matrix, path[..n - 1]),
                 OccupiedSeconds(leg.matrix, path[..n - 1], leg.onboard));
    }
  }

  lemma EdgeSplits(leg: Leg, visited: int, a: NodeId, b: NodeId, drive: int, occupied: int)
    ensures var d := Duration(leg.matrix, a, b);
      leg.wDrive * drive as real + leg.wRide * occupied as real + Edge(leg, visited, a, b)
      == leg.wDrive * (drive + d) as real + leg.wRide * (occupied + d * leg.onboard(visited)) as real
  {
    var d, k := Duration(leg.matrix, a, b), leg.onboard(visited);
    assert (d * k) as real == d as real * k as real;
    Distribute(leg.wDrive, leg.wRide, d as real, k as real);
  }

  lemma Distribute(w: real, r: real, d: real, k: real)
    ensures d * (w + r * k) == w * d + r * (d * k)
  {
    assert d * (r * k) == r * (d * k);
  }
}
