/** Adding one rider to one car at the cheapest feasible position. */
module Insertion {
  import opened Models
  import opened Objective
  import opened Feasibility

  /** Route prices already worked out. Dropped wholesale past the limit, so it only ever holds true prices. */
  class CostMemo {
    const inst: Instance
    var costs: map<Route, real>

    ghost predicate Valid()
      reads this
    {
      forall r :: r in costs ==> costs[r] == RouteCost(inst, r)
    }

    constructor (inst: Instance)
      ensures this.inst == inst && Valid() && costs == map[]
    {
      this.inst := inst;
      costs := map[];
    }

    method Cost(route: Route) returns (cost: real)
      requires Valid()
      modifies this
      ensures Valid()
      ensures cost == RouteCost(inst, route)
    {
      hide RouteCost;
      if route in costs {
        cost := costs[route];
      } else {
        if |costs| > CACHE_LIMIT {
          costs := map[];
        }
        cost := RouteCost(inst, route);
        costs := costs[route := cost];
      }
    }
  }

  const CACHE_LIMIT := 200000

  function InsertAt(s: seq<NodeId>, i: nat, rider: NodeId): seq<NodeId>
    requires i <= |s|
  {
    s[..i] + [rider] + s[i..]
  }

  /** `_positions`, or the leg as it is when the rider does not need it. */
  function Options(s: seq<NodeId>, rider: NodeId, needed: bool): (r: seq<seq<NodeId>>)
    ensures |r| == if needed then |s| + 1 else 1
  {
    if needed then seq(|s| + 1, i requires 0 <= i <= |s| => InsertAt(s, i, rider)) else [s]
  }

  /** A choice of insertion: the car with the rider in it, and what that adds to its price. */
  type Choice = Option<(Route, real)>

  predicate SeatsFull(inst: Instance, route: Route, rider: NodeId)
    requires inst.Has(route.driver) && inst.Has(rider)
  {
    var seats := inst.index[route.driver].seats;
    || (inst.index[rider].needsOutbound && |route.outbound| >= seats)
    || (inst.index[rider].needsReturn && |route.inbound| >= seats)
  }

  ghost function Step(inst: Instance, base: real, best: Choice, candidate: Route): Choice {
    var delta := RouteCost(inst, candidate) - base;
    if (best.None? || delta < best.value.1) && Feasible(inst, candidate) then Some((candidate, delta)) else best
  }

  ghost function FoldInbound(inst: Instance, base: real, best: Choice, driver: NodeId, outbound: seq<NodeId>,
                             inbounds: seq<seq<NodeId>>): Choice
  {
    var n := |inbounds|;
    if n == 0 then best
    else Step(inst, base, FoldInbound(inst, base, best, driver, outbound, inbounds[..n - 1]),
              Route(driver, outbound, inbounds[n - 1]))
  }

  ghost function Fold(inst: Instance, base: real, driver: NodeId, outbounds: seq<seq<NodeId>>,
                      inbounds: seq<seq<NodeId>>): Choice
  {
    var n := |outbounds|;
    if n == 0 then None
    else FoldInbound(inst, base, Fold(inst, base, driver, outbounds[..n - 1], inbounds), driver,
                     outbounds[n - 1], inbounds)
  }

  /** `best_insertion`: the first cheapest feasible position, over both legs. */
  ghost function BestInsertion(inst: Instance, route: Route, rider: NodeId): Choice
    requires inst.Has(route.driver) && inst.Has(rider)
  {
    if SeatsFull(inst, route, rider) then None
    else
      var person := inst.index[rider];
      Fold(inst, RouteCost(inst, route), route.driver,
           Options(route.outbound, rider, person.needsOutbound),
           Options(route.inbound, rider, person.needsReturn))
  }

  // ---- The loop computes it --------------------------------------------------------------------

  method PriceOf(inst: Instance, memo: CostMemo?, route: Route) returns (cost: real)
    requires memo != null ==> memo.Valid() && memo.inst == inst
    modifies memo
    ensures memo != null ==> memo.Valid()
    ensures cost == RouteCost(inst, route)
  {
    if memo == null {
      cost := RouteCost(inst, route);
    } else {
      cost := memo.Cost(route);
    }
  }

  ghost predicate AllKnown(inst: Instance, s: seq<NodeId>) {
    forall i :: 0 <= i < |s| ==> inst.Has(s[i])
  }

  method TryInbounds(inst: Instance, memo: CostMemo?, base: real, start: Choice, driver: NodeId,
                     outbound: seq<NodeId>, inbounds: seq<seq<NodeId>>)
    returns (best: Choice)
    requires memo != null ==> memo.Valid() && memo.inst == inst
    requires inst.Has(driver) && AllKnown(inst, outbound)
    requires forall i :: 0 <= i < |inbounds| ==> AllKnown(inst, inbounds[i])
    modifies memo
    ensures memo != null ==> memo.Valid()
    ensures best == FoldInbound(inst, base, start, driver, outbound, inbounds)
  {
    hide RouteCost, Feasible;
    best := start;
    for i := 0 to |inbounds|
      invariant memo != null ==> memo.Valid()
      invariant best == FoldInbound(inst, base, start, driver, outbound, inbounds[..i])
    {
      assert inbounds[..i + 1][..i] == inbounds[..i];
      assert AllKnown(inst, inbounds[i]);
      var candidate := Route(driver, outbound, inbounds[i]);
      var cost := PriceOf(inst, memo, candidate);
      var delta := cost - base;
      if best.None? || delta < best.value.1 {
        var ok := RouteFeasible(inst, candidate);
        if ok {
          best := Some((candidate, delta));
        }
      }
    }
    assert inbounds[..|inbounds|] == inbounds;
  }

  method TryAll(inst: Instance, memo: CostMemo?, base: real, driver: NodeId,
                outbounds: seq<seq<NodeId>>, inbounds: seq<seq<NodeId>>)
    returns (best: Choice)
    requires memo != null ==> memo.Valid() && memo.inst == inst
    requires inst.Has(driver)
    requires forall i :: 0 <= i < |outbounds| ==> AllKnown(inst, outbounds[i])
    requires forall i :: 0 <= i < |inbounds| ==> AllKnown(inst, inbounds[i])
    modifies memo
    ensures memo != null ==> memo.Valid()
    ensures best == Fold(inst, base, driver, outbounds, inbounds)
  {
    hide RouteCost, Feasible, FoldInbound, AllKnown;
    best := None;
    for i := 0 to |outbounds|
      invariant memo != null ==> memo.Valid()
      invariant best == Fold(inst, base, driver, outbounds[..i], inbounds)
    {
      assert outbounds[..i + 1][..i] == outbounds[..i];
      best := TryInbounds(inst, memo, base, best, driver, outbounds[i], inbounds);
    }
    assert outbounds[..|outbounds|] == outbounds;
  }

  lemma OptionsKnown(inst: Instance, s: seq<NodeId>, rider: NodeId, needed: bool, i: nat)
    requires AllKnown(inst, s) && inst.Has(rider) && i < |Options(s, rider, needed)|
    ensures AllKnown(inst, Options(s, rider, needed)[i])
  {
  }

  /** The loop over both legs, with the price of a route either computed or remembered. */
  method FindInsertion(inst: Instance, memo: CostMemo?, route: Route, rider: NodeId) returns (best: Choice)
    requires memo != null ==> memo.Valid() && memo.inst == inst
    requires Known(inst, route) && inst.Has(rider)
    modifies memo
    ensures memo != null ==> memo.Valid()
    ensures best == BestInsertion(inst, route, rider)
  {
    hide RouteCost, Fold, Options;
    if SeatsFull(inst, route, rider) {
      return None;
    }
    var person := inst.index[rider];
    var base := PriceOf(inst, memo, route);
    var outbounds := Options(route.outbound, rider, person.needsOutbound);
    var inbounds := Options(route.inbound, rider, person.needsReturn);
    forall i | 0 <= i < |outbounds| ensures AllKnown(inst, outbounds[i]) {
      OptionsKnown(inst, route.outbound, rider, person.needsOutbound, i);
    }
    forall i | 0 <= i < |inbounds| ensures AllKnown(inst, inbounds[i]) {
      OptionsKnown(inst, route.inbound, rider, person.needsReturn, i);
    }
    best := TryAll(inst, memo, base, route.driver, outbounds, inbounds);
  }

  // ---- What it finds ---------------------------------------------------------------------------

  /** The rider somewhere on the leg when they need it, with `at` stops before them, and nothing else moved. */
  ghost predicate PutAt(leg: seq<NodeId>, rider: NodeId, needed: bool, at: int, now: seq<NodeId>) {
    if needed then 0 <= at <= |leg| && now == leg[..at] + [rider] + leg[at..]
    else at == 0 && now == leg
  }

  /** The car with the rider added on each leg they need. */
  ghost predicate InsertedAt(inst: Instance, route: Route, rider: NodeId, i: int, j: int, c: Route)
    requires inst.Has(rider)
  {
    && c.driver == route.driver
    && PutAt(route.outbound, rider, inst.index[rider].needsOutbound, i, c.outbound)
    && PutAt(route.inbound, rider, inst.index[rider].needsReturn, j, c.inbound)
  }

  ghost predicate IsInsertion(inst: Instance, route: Route, rider: NodeId, c: Route)
    requires inst.Has(rider)
  {
    exists i, j :: InsertedAt(inst, route, rider, i, j, c)
  }

  lemma OptionAt(leg: seq<NodeId>, rider: NodeId, needed: bool, at: int, now: seq<NodeId>)
    ensures PutAt(leg, rider, needed, at, now) <==>
      0 <= at < |Options(leg, rider, needed)| && Options(leg, rider, needed)[at] == now
  {
  }

  lemma InsertionIsOption(inst: Instance, route: Route, rider: NodeId, c: Route)
    requires inst.Has(rider) && IsInsertion(inst, route, rider, c)
    ensures c.driver == route.driver
    ensures c.outbound in Options(route.outbound, rider, inst.index[rider].needsOutbound)
    ensures c.inbound in Options(route.inbound, rider, inst.index[rider].needsReturn)
  {
    hide Options, PutAt;
    var i, j :| InsertedAt(inst, route, rider, i, j, c);
    OptionAt(route.outbound, rider, inst.index[rider].needsOutbound, i, c.outbound);
    OptionAt(route.inbound, rider, inst.index[rider].needsReturn, j, c.inbound);
  }

  /** Tried before the `m`-th way back with the `n`-th way out. */
  ghost predicate Tried(outbounds: seq<seq<NodeId>>, inbounds: seq<seq<NodeId>>, n: int, m: int, i: int, j: int) {
    0 <= i < |outbounds| && 0 <= j < |inbounds| && (i < n || (i == n && j < m))
  }

  ghost function Pair(driver: NodeId, outbounds: seq<seq<NodeId>>, inbounds: seq<seq<NodeId>>, i: nat, j: nat): Route
    requires i < |outbounds| && j < |inbounds|
  {
    Route(driver, outbounds[i], inbounds[j])
  }

  /** Of those tried, the pair at `i`, `j` is feasible and the cheapest, the first of equals. */
  ghost predicate FirstBest(inst: Instance, base: real, best: (Route, real), driver: NodeId,
                            outbounds: seq<seq<NodeId>>, inbounds: seq<seq<NodeId>>, n: int, m: int, i: int, j: int)
  {
    && Tried(outbounds, inbounds, n, m, i, j)
    && best.0 == Pair(driver, outbounds, inbounds, i, j) && Feasible(inst, best.0)
    && best.1 == RouteCost(inst, best.0) - base
    && forall k, l ::
         Tried(outbounds, inbounds, n, m, k, l) && Feasible(inst, Pair(driver, outbounds, inbounds, k, l)) ==>
         var delta := RouteCost(inst, Pair(driver, outbounds, inbounds, k, l)) - base;
         if k < i || (k == i && l < j) then best.1 < delta else best.1 <= delta
  }

  ghost predicate BestSoFar(inst: Instance, base: real, best: Choice, driver: NodeId,
                            outbounds: seq<seq<NodeId>>, inbounds: seq<seq<NodeId>>, n: int, m: int)
  {
    if best.None? then
      forall i, j ::
        Tried(outbounds, inbounds, n, m, i, j) ==> !Feasible(inst, Pair(driver, outbounds, inbounds, i, j))
    else
      exists i, j ::
        FirstBest(inst, base, best.value, driver, outbounds, inbounds, n, m, i, j)
  }

  lemma OneMoreTried(inst: Instance, base: real, best: Choice, driver: NodeId, outbounds: seq<seq<NodeId>>,
                     inbounds: seq<seq<NodeId>>, n: nat, m: nat)
    requires n < |outbounds| && m < |inbounds| && BestSoFar(inst, base, best, driver, outbounds, inbounds, n, m)
    ensures BestSoFar(inst, base, Step(inst, base, best, Pair(driver, outbounds, inbounds, n, m)), driver, outbounds,
                      inbounds, n, m + 1)
  {
    hide Feasible, RouteCost, Pair;
    var candidate := Pair(driver, outbounds, inbounds, n, m);
    var next := Step(inst, base, best, candidate);
    if best.Some? {
      var i, j :| FirstBest(inst, base, best.value, driver, outbounds, inbounds, n, m, i, j);
      if next == best {
        assert FirstBest(inst, base, best.value, driver, outbounds, inbounds, n, m + 1, i, j);
      } else {
        assert FirstBest(inst, base, next.value, driver, outbounds, inbounds, n, m + 1, n, m);
      }
    } else if next.Some? {
      assert FirstBest(inst, base, next.value, driver, outbounds, inbounds, n, m + 1, n, m);
    }
  }

  lemma {:induction false} FoldInboundIsBest(inst: Instance, base: real, best: Choice, driver: NodeId,
                                             outbounds: seq<seq<NodeId>>, inbounds: seq<seq<NodeId>>, n: nat, m: nat)
    requires n < |outbounds| && m <= |inbounds| && BestSoFar(inst, base, best, driver, outbounds, inbounds, n, 0)
    ensures BestSoFar(inst, base, FoldInbound(inst, base, best, driver, outbounds[n], inbounds[..m]), driver,
                      outbounds, inbounds, n, m)
  {
    hide BestSoFar, Step;
    if m > 0 {
      FoldInboundIsBest(inst, base, best, driver, outbounds, inbounds, n, m - 1);
      assert inbounds[..m][..m - 1] == inbounds[..m - 1];
      OneMoreTried(inst, base, FoldInbound(inst, base, best, driver, outbounds[n], inbounds[..m - 1]), driver,
                   outbounds, inbounds, n, m - 1);
    }
  }

  lemma RowTried(inst: Instance, base: real, best: Choice, driver: NodeId, outbounds: seq<seq<NodeId>>,
                 inbounds: seq<seq<NodeId>>, n: int)
    requires BestSoFar(inst, base, best, driver, outbounds, inbounds, n, |inbounds|)
    ensures BestSoFar(inst, base, best, driver, outbounds, inbounds, n + 1, 0)
  {
    hide Feasible, RouteCost, Pair;
    if best.Some? {
      var i, j :| FirstBest(inst, base, best.value, driver, outbounds, inbounds, n, |inbounds|, i, j);
      assert FirstBest(inst, base, best.value, driver, outbounds, inbounds, n + 1, 0, i, j);
    }
  }

  lemma {:induction false} FoldIsBest(inst: Instance, base: real, driver: NodeId, outbounds: seq<seq<NodeId>>,
                                      inbounds: seq<seq<NodeId>>, n: nat)
    requires n <= |outbounds|
    ensures BestSoFar(inst, base, Fold(inst, base, driver, outbounds[..n], inbounds), driver, outbounds, inbounds, n, 0)
  {
    hide FoldInbound, Feasible, RouteCost;
    if n > 0 {
      hide BestSoFar;
      FoldIsBest(inst, base, driver, outbounds, inbounds, n - 1);
      assert outbounds[..n][..n - 1] == outbounds[..n - 1] && inbounds[..|inbounds|] == inbounds;
      var best := Fold(inst, base, driver, outbounds[..n - 1], inbounds);
      FoldInboundIsBest(inst, base, best, driver, outbounds, inbounds, n - 1, |inbounds|);
      RowTried(inst, base, FoldInbound(inst, base, best, driver, outbounds[n - 1], inbounds), driver, outbounds,
               inbounds, n - 1);
    }
  }

  /** The seats check answers for every position at once: occupancy does not depend on the order. */
  lemma FullCarRefusesEveryPosition(inst: Instance, route: Route, rider: NodeId, c: Route)
    requires inst.Has(route.driver) && inst.Has(rider)
    requires SeatsFull(inst, route, rider) && IsInsertion(inst, route, rider, c)
    ensures !Feasible(inst, c)
  {
    hide RouteMetrics, DetourBroken, TimeBroken, PinBroken;
    SeatsUsed(inst, c);
    var i, j :| InsertedAt(inst, route, rider, i, j, c);
    assert inst.index[rider].needsOutbound ==> |c.outbound| == |route.outbound| + 1;
    assert inst.index[rider].needsReturn ==> |c.inbound| == |route.inbound| + 1;
    assert Known(inst, c) ==> Breaks(inst, c, SeatsRule);
  }

  lemma SeatsUsed(inst: Instance, route: Route)
    ensures RouteMetrics(inst, route).seatsUsed == Max(|route.outbound|, |route.inbound|)
  {
  }

  /** Feasible, its price exactly what it adds, and no position earlier as cheap nor later cheaper. */
  ghost predicate FirstCheapest(inst: Instance, route: Route, rider: NodeId, best: (Route, real), i: int, j: int)
    requires inst.Has(rider)
  {
    && InsertedAt(inst, route, rider, i, j, best.0) && Feasible(inst, best.0)
    && best.1 == RouteCost(inst, best.0) - RouteCost(inst, route)
    && forall k, l, c :: InsertedAt(inst, route, rider, k, l, c) && Feasible(inst, c) ==>
         if k < i || (k == i && l < j) then RouteCost(inst, best.0) < RouteCost(inst, c)
         else RouteCost(inst, best.0) <= RouteCost(inst, c)
  }

  lemma FoldIsFirst(inst: Instance, route: Route, rider: NodeId, outbounds: seq<seq<NodeId>>,
                    inbounds: seq<seq<NodeId>>, best: Choice)
    requires inst.Has(rider)
    requires outbounds == Options(route.outbound, rider, inst.index[rider].needsOutbound)
    requires inbounds == Options(route.inbound, rider, inst.index[rider].needsReturn)
    requires BestSoFar(inst, RouteCost(inst, route), best, route.driver, outbounds, inbounds, |outbounds|, 0)
    ensures best.None? <==> forall c :: IsInsertion(inst, route, rider, c) ==> !Feasible(inst, c)
    ensures best.Some? ==> exists i, j :: FirstCheapest(inst, route, rider, best.value, i, j)
  {
    hide Feasible, RouteCost, Options, PutAt;
    var person := inst.index[rider];
    forall i, j, c
      ensures InsertedAt(inst, route, rider, i, j, c) <==>
        Tried(outbounds, inbounds, |outbounds|, 0, i, j) && c == Pair(route.driver, outbounds, inbounds, i, j)
    {
      OptionAt(route.outbound, rider, person.needsOutbound, i, c.outbound);
      OptionAt(route.inbound, rider, person.needsReturn, j, c.inbound);
    }
    hide InsertedAt, Pair, Tried;
    if best.Some? {
      var i, j :| FirstBest(inst, RouteCost(inst, route), best.value, route.driver, outbounds, inbounds, |outbounds|, 0,
                            i, j);
      assert InsertedAt(inst, route, rider, i, j, best.value.0);
      assert FirstCheapest(inst, route, rider, best.value, i, j);
    } else {
      forall c | IsInsertion(inst, route, rider, c) ensures !Feasible(inst, c) {
        var i, j :| InsertedAt(inst, route, rider, i, j, c);
        assert Tried(outbounds, inbounds, |outbounds|, 0, i, j);
      }
    }
  }

  /** Exhaustive: none exactly when no position is feasible, otherwise the cheapest, the first of equals. */
  lemma BestInsertionIsBest(inst: Instance, route: Route, rider: NodeId)
    requires inst.Has(route.driver) && inst.Has(rider)
    ensures var best := BestInsertion(inst, route, rider);
      && (best.None? <==> forall c :: IsInsertion(inst, route, rider, c) ==> !Feasible(inst, c))
      && (best.Some? ==> exists i, j :: FirstCheapest(inst, route, rider, best.value, i, j))
  {
    hide Feasible, RouteCost, Fold, Options, FirstCheapest, IsInsertion;
    if SeatsFull(inst, route, rider) {
      forall c | IsInsertion(inst, route, rider, c) ensures !Feasible(inst, c) {
        FullCarRefusesEveryPosition(inst, route, rider, c);
      }
    } else {
      hide BestSoFar;
      var person := inst.index[rider];
      var outbounds := Options(route.outbound, rider, person.needsOutbound);
      var inbounds := Options(route.inbound, rider, person.needsReturn);
      FoldIsBest(inst, RouteCost(inst, route), route.driver, outbounds, inbounds, |outbounds|);
      assert outbounds[..|outbounds|] == outbounds;
      FoldIsFirst(inst, route, rider, outbounds, inbounds, BestInsertion(inst, route, rider));
    }
  }

  lemma InsertionFound(inst: Instance, route: Route, rider: NodeId)
    requires inst.Has(route.driver) && inst.Has(rider)
    ensures var best := BestInsertion(inst, route, rider);
      best.Some? ==> IsInsertion(inst, route, rider, best.value.0) && Feasible(inst, best.value.0)
  {
    hide Feasible, BestInsertion, InsertedAt, RouteCost;
    BestInsertionIsBest(inst, route, rider);
  }

  lemma InsertionPriced(inst: Instance, route: Route, rider: NodeId)
    requires inst.Has(route.driver) && inst.Has(rider)
    ensures var best := BestInsertion(inst, route, rider);
      best.Some? ==> best.value.1 == RouteCost(inst, best.value.0) - RouteCost(inst, route)
  {
    hide Feasible, BestInsertion, InsertedAt, RouteCost;
    BestInsertionIsBest(inst, route, rider);
  }
}
