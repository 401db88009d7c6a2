/** When resequencing a car can make it dearer, exactly. */
module Worsening {
  import opened Models
  import opened Legs
  import opened Objective
  import opened Sequence

  ghost function Ride(m: Matrix, route: Route): int {
    RideOut(m, route) + RideBack(m, route)
  }

  /** Under one set of weights: dearer exactly when the charge for undercutting further exceeds what the legs save. */
  lemma DearerExactly(inst: Instance, r: Route, q: Route)
    requires Plain(r) && SameCar(r, q)
    ensures RouteCost(inst, r) > RouteCost(inst, q) <==>
      DetourCharge(inst.weights, Undercut(inst.matrix, r)) - DetourCharge(inst.weights, Undercut(inst.matrix, q))
      > LegTotal(inst, q) - LegTotal(inst, r)
  {
    hide RouteCost, LegTotal, DetourCharge, Undercut, DirectSeconds, Plain;
    SamePlain(r, q);
    RouteCostIsLegTotal(inst, r);
    RouteCostIsLegTotal(inst, q);
  }

  ghost predicate NonNegative(w: Weights) {
    w.driveTime >= 0.0 && w.rideTime >= 0.0 && w.detour >= 0.0
  }

  ghost function Under(inst: Instance, w: Weights): Instance {
    inst.(weights := w)
  }

  /** Some weights, and some order of this car's stops, that resequencing may turn into a dearer one. */
  ghost predicate CanWorsen(inst: Instance, route: Route) {
    exists w, q, r :: NonNegative(w) && SameCar(route, q) && Worsens(Under(inst, w), q, r)
  }

  ghost predicate Worsens(inst: Instance, q: Route, r: Route) {
    IsResequenced(inst, q, r) && RouteCost(inst, r) > RouteCost(inst, q)
  }

  /** Some weights, and some order, that resequencing makes dearer however ties are broken. */
  ghost predicate MustWorsen(inst: Instance, route: Route) {
    exists w, q :: NonNegative(w) && SameCar(route, q) && AlwaysWorsens(Under(inst, w), q)
  }

  ghost predicate AlwaysWorsens(inst: Instance, q: Route) {
    && (exists r :: IsResequenced(inst, q, r))
    && forall r :: IsResequenced(inst, q, r) ==> RouteCost(inst, r) > RouteCost(inst, q)
  }

  /** An order of the same stops that is shortest and has its riders aboard for the least time, both at once. */
  ghost predicate BestAtBoth(m: Matrix, route: Route, o: Route) {
    && SameCar(route, o)
    && forall q :: SameCar(route, q) ==> RoundTrip(m, o) <= RoundTrip(m, q) && Ride(m, o) <= Ride(m, q)
  }

  ghost predicate Small(route: Route) {
    Plain(route) && |route.outbound| <= MAX_EXACT_STOPS && |route.inbound| <= MAX_EXACT_STOPS
  }

  lemma SameSmall(route: Route, q: Route)
    requires Small(route) && SameCar(route, q)
    ensures Small(q)
  {
    SamePlain(route, q);
    assert |q.outbound| == |multiset(q.outbound)| == |multiset(route.outbound)| == |route.outbound|;
    assert |q.inbound| == |multiset(q.inbound)| == |multiset(route.inbound)| == |route.inbound|;
  }

  /** What the sequencer minimises, in seconds. */
  lemma LegTotalIs(inst: Instance, q: Route)
    requires Plain(q)
    ensures LegTotal(inst, q) == LegPrice(inst.weights, RoundTrip(inst.matrix, q), Ride(inst.matrix, q))
  {
    hide Cost, Plain, PathDuration, RideOut, RideBack;
    OutboundCost(inst, q);
    InboundCost(inst, q);
    var w, m := inst.weights, inst.matrix;
    AddPrices(w, PathDuration(m, q.OutboundPath()), RideOut(m, q), PathDuration(m, q.InboundPath()), RideBack(m, q));
  }

  lemma AddPrices(w: Weights, a: int, b: int, c: int, d: int)
    ensures LegPrice(w, a, b) + LegPrice(w, c, d) == LegPrice(w, a + c, b + d)
  {
    Spread(w.driveTime + w.detour, a, c, 0, 0);
    Spread(w.rideTime, b, d, 0, 0);
  }

  lemma RouteCostIs(inst: Instance, q: Route)
    ensures RouteCost(inst, q) == Price(inst.weights, RoundTrip(inst.matrix, q), Ride(inst.matrix, q),
                                        Max(0, RoundTrip(inst.matrix, q) - DirectSeconds(inst.matrix, q.driver)))
  {
    hide PathDuration, RideOut, RideBack, DirectSeconds, Price, Max;
    var m := RouteMetrics(inst, q);
    assert m.outboundSeconds + m.inboundSeconds == RoundTrip(inst.matrix, q) && m.rideSeconds == Ride(inst.matrix, q);
  }

  // ---- If no order is both shortest and best for the riders --------------------------------------------

  lemma ChargeMonotone(c: real, a: int, b: int)
    requires c >= 0.0 && a <= b
    ensures c * a as real <= c * b as real
  {
  }

  /** In seconds: `o` is best at both, `r` undercuts the direct trip and the legs' price ranks it no worse than `o`. */
  lemma BestAtBothIsCheapest(w: Weights, direct: int, dO: int, pO: int, dR: int, pR: int, dQ: int, pQ: int)
    requires NonNegative(w) && dO <= dR && pO <= pR && dO <= dQ && pO <= pQ && dR < direct
    requires LegPrice(w, dR, pR) <= LegPrice(w, dO, pO)
    ensures Price(w, dR, pR, Max(0, dR - direct)) <= Price(w, dQ, pQ, Max(0, dQ - direct))
  {
    ChargeMonotone(w.driveTime, dO, dR);
    ChargeMonotone(w.detour, dO, dR);
    ChargeMonotone(w.rideTime, pO, pR);
    ChargeMonotone(w.driveTime, dO, dQ);
    ChargeMonotone(w.rideTime, pO, pQ);
    ChargeMonotone(w.detour, 0, Max(0, dQ - direct));
    Spread(w.driveTime + w.detour, dR, 0, 0, 0);
    assert (w.driveTime + w.detour) * dR as real == w.driveTime * dR as real + w.detour * dR as real;
    assert (w.driveTime + w.detour) * dO as real == w.driveTime * dO as real + w.detour * dO as real;
  }

  lemma WorsensOnlyIf(inst: Instance, route: Route, q: Route, r: Route)
    requires Small(route) && SameCar(route, q) && NonNegative(inst.weights) && Worsens(inst, q, r)
    ensures !NeverUndercuts(inst.matrix, route) && !exists o :: BestAtBoth(inst.matrix, route, o)
  {
    hide RouteCost, RoundTrip, Ride, Plain, LegTotal, LegPrice, Price, DirectSeconds, Cost;
    SameSmall(route, q);
    WorseOnlyByUndercutting(inst, q, r, q);
    assert SameCar(route, r);
    var m := inst.matrix;
    if o :| BestAtBoth(m, route, o) {
      SameSmall(route, r);
      SameSmall(route, o);
      ResequencedLegTotal(inst, q, r, o);
      LegTotalIs(inst, r);
      LegTotalIs(inst, o);
      RouteCostIs(inst, r);
      RouteCostIs(inst, q);
      BestAtBothIsCheapest(inst.weights, DirectSeconds(m, route.driver), RoundTrip(m, o), Ride(m, o),
                           RoundTrip(m, r), Ride(m, r), RoundTrip(m, q), Ride(m, q));
    }
  }

  // ---- All orders of a car's stops -----------------------------------------------------------------------

  ghost function Orders(s: seq<NodeId>): set<seq<NodeId>> {
    if s == [] then {[]}
    else set o, i | o in Orders(s[1..]) && 0 <= i <= |o| :: o[..i] + [s[0]] + o[i..]
  }

  lemma OrdersMore(s: seq<NodeId>, rest: seq<NodeId>, at: nat)
    requires s != [] && rest in Orders(s[1..]) && at <= |rest|
    ensures rest[..at] + [s[0]] + rest[at..] in Orders(s)
  {
  }

  lemma PutBack(q: seq<NodeId>, at: nat)
    requires at < |q|
    ensures var rest := q[..at] + q[at + 1..];
      at <= |rest| && rest[..at] + [q[at]] + rest[at..] == q
  {
  }

  lemma FirstApart(s: seq<NodeId>)
    requires s != []
    ensures multiset(s[1..]) == multiset(s) - multiset{s[0]} && s[0] in multiset(s)
  {
    assert s == [s[0]] + s[1..];
  }

  lemma PlaceOfFirst(s: seq<NodeId>, q: seq<NodeId>) returns (at: nat)
    requires s != [] && multiset(q) == multiset(s)
    ensures at < |q| && q[at] == s[0] && multiset(q[..at] + q[at + 1..]) == multiset(s[1..])
  {
    FirstApart(s);
    at :| 0 <= at < |q| && q[at] == s[0];
    RemoveOne(q, at);
  }

  lemma {:induction false} OrdersAll(s: seq<NodeId>, q: seq<NodeId>)
    requires multiset(q) == multiset(s)
    ensures q in Orders(s)
  {
    assert |q| == |multiset(q)| == |multiset(s)| == |s|;
    if s == [] {
      assert q == [];
    } else {
      hide Orders;
      var at := PlaceOfFirst(s, q);
      var rest := q[..at] + q[at + 1..];
      OrdersAll(s[1..], rest);
      PutBack(q, at);
      OrdersMore(s, rest, at);
    }
  }

  ghost function SameCars(route: Route): (cars: set<Route>)
    ensures forall q :: q in cars <==> SameCar(route, q)
  {
    hide Orders;
    var cars := set a, b | a in Orders(route.outbound) && b in Orders(route.inbound) :: Route(route.driver, a, b);
    var same := set q | q in cars && SameCar(route, q);
    assert forall q :: SameCar(route, q) ==> q in cars by {
      forall q | SameCar(route, q) ensures q in cars {
        OrdersAll(route.outbound, q.outbound);
        OrdersAll(route.inbound, q.inbound);
        assert q == Route(route.driver, q.outbound, q.inbound);
      }
    }
    same
  }

  lemma {:induction false} LeastOf(s: set<Route>, f: Route -> real) returns (x: Route)
    requires s != {}
    ensures x in s && forall y :: y in s ==> f(x) <= f(y)
  {
    x :| x in s;
    if s != {x} {
      var rest := s - {x};
      assert s == rest + {x};
      var y := LeastOf(rest, f);
      if f(y) < f(x) {
        x := y;
      }
    }
  }

  /** Of the shortest orders, one with its riders aboard for the least time. */
  lemma ShortestOrder(m: Matrix, route: Route) returns (o: Route)
    ensures SameCar(route, o)
    ensures forall q :: SameCar(route, q) ==> RoundTrip(m, o) <= RoundTrip(m, q)
    ensures forall q :: SameCar(route, q) && RoundTrip(m, q) == RoundTrip(m, o) ==> Ride(m, o) <= Ride(m, q)
  {
    hide RoundTrip, Ride, SameCars;
    var all, trip, ride := SameCars(route), (q: Route) => RoundTrip(m, q) as real, (q: Route) => Ride(m, q) as real;
    assert route in all;
    var s := LeastOf(all, trip);
    forall q | SameCar(route, q) ensures RoundTrip(m, s) <= RoundTrip(m, q) {
      assert trip(s) <= trip(q);
    }
    var shortest := set q | q in all && RoundTrip(m, q) == RoundTrip(m, s);
    assert s in shortest;
    o := LeastOf(shortest, ride);
    assert o in shortest;
    forall q | SameCar(route, q) && RoundTrip(m, q) == RoundTrip(m, o) ensures Ride(m, o) <= Ride(m, q) {
      assert q in shortest;
      assert ride(o) <= ride(q);
    }
  }

  /** The extra driving another order asks for, per second its riders are spared. */
  ghost function Exchange(m: Matrix, o: Route, q: Route): real {
    if Ride(m, q) < Ride(m, o) then (RoundTrip(m, q) - RoundTrip(m, o)) as real / (Ride(m, o) - Ride(m, q)) as real
    else 0.0
  }

  lemma CheapestExchange(m: Matrix, route: Route, o: Route) returns (best: Route)
    requires exists q :: SameCar(route, q) && Ride(m, q) < Ride(m, o)
    ensures SameCar(route, best) && Ride(m, best) < Ride(m, o)
    ensures forall q :: SameCar(route, q) && Ride(m, q) < Ride(m, o) ==> Exchange(m, o, best) <= Exchange(m, o, q)
  {
    hide RoundTrip, Ride, Exchange, SameCars, SameCar;
    var all, rate := SameCars(route), (q: Route) => Exchange(m, o, q);
    var some := set q | q in all && Ride(m, q) < Ride(m, o);
    var q :| SameCar(route, q) && Ride(m, q) < Ride(m, o);
    assert q in some;
    best := LeastOf(some, rate);
    assert best in some;
    forall q | SameCar(route, q) && Ride(m, q) < Ride(m, o) ensures Exchange(m, o, best) <= Exchange(m, o, q) {
      assert q in some;
      assert rate(best) <= rate(q);
    }
  }

  // ---- Weights under which it does ----------------------------------------------------------------------

  /** Nothing for driving, one for the detour and `ride` for time aboard. */
  ghost function RideWeights(w: Weights, ride: real): Weights {
    w.(driveTime := 0.0, rideTime := ride, detour := 1.0)
  }

  lemma LegPriceIs(w: Weights, ride: real, d: int, p: int)
    ensures LegPrice(RideWeights(w, ride), d, p) == d as real + ride * p as real
  {
  }

  lemma PriceIs(w: Weights, ride: real, d: int, p: int, extra: int)
    ensures Price(RideWeights(w, ride), d, p, extra) == ride * p as real + extra as real
  {
  }

  /** A ride weight below every exchange rate, yet enough for the clamp to pay for the best exchange. */
  lemma RideWeight(d1: int, p1: int, d: int, p: int, direct: int) returns (ride: real)
    requires d1 < direct && d1 < d && p < p1
    ensures 0.0 < ride < (d - d1) as real / (p1 - p) as real
    ensures ride * p1 as real > ride * p as real + Max(0, d - direct) as real
  {
    var spared, extra, past := (p1 - p) as real, (d - d1) as real, Max(0, d - direct) as real;
    assert 0.0 <= past < extra && spared > 0.0;
    ride := (past + extra) / 2.0 / spared;
    assert ride * spared == (past + extra) / 2.0;
    DividesLess((past + extra) / 2.0, extra, spared);
    assert ride * spared == ride * p1 as real - ride * p as real;
  }

  lemma DividesLess(a: real, b: real, c: real)
    requires 0.0 < a < b && c > 0.0
    ensures 0.0 < a / c < b / c
  {
  }

  /** Below its exchange rate an order that spares its riders more still costs the legs more. */
  lemma BelowExchange(ride: real, d1: int, p1: int, d: int, p: int)
    requires p < p1 && 0.0 < ride < (d - d1) as real / (p1 - p) as real
    ensures d1 as real + ride * p1 as real < d as real + ride * p as real
  {
    var spared, extra := (p1 - p) as real, (d - d1) as real;
    assert extra / spared * spared == extra;
    assert ride * spared < extra / spared * spared;
    assert ride * spared == ride * p1 as real - ride * p as real;
  }

  /** An order neither shorter nor better for its riders costs the legs no less, and as much only if equal in both. */
  lemma NoBetter(ride: real, d1: int, p1: int, d: int, p: int)
    requires ride > 0.0 && d1 <= d && p1 <= p
    ensures d1 as real + ride * p1 as real <= d as real + ride * p as real
    ensures d1 as real + ride * p1 as real == d as real + ride * p as real ==> d1 == d && p1 == p
  {
    assert ride * (p - p1) as real == ride * p as real - ride * p1 as real;
    assert ride * (p - p1) as real >= 0.0;
    assert (d - d1) as real == d as real - d1 as real;
    if p1 < p {
      assert ride * (p - p1) as real > 0.0;
    }
  }

  /** `o` is the shortest order and every exchange asks for more than `ride`: the legs rank it first, alone. */
  ghost predicate Preferred(m: Matrix, route: Route, o: Route, ride: real) {
    && SameCar(route, o) && ride > 0.0
    && (forall q :: SameCar(route, q) ==> RoundTrip(m, o) <= RoundTrip(m, q))
    && (forall q :: SameCar(route, q) && RoundTrip(m, q) == RoundTrip(m, o) ==> Ride(m, o) <= Ride(m, q))
    && (forall q :: SameCar(route, q) && Ride(m, q) < Ride(m, o) ==> ride < Exchange(m, o, q))
  }

  lemma PreferredIsCheapest(inst: Instance, route: Route, o: Route, ride: real, q: Route)
    requires Small(route) && Preferred(inst.matrix, route, o, ride) && SameCar(route, q)
    ensures var i := Under(inst, RideWeights(inst.weights, ride));
      && LegTotal(i, o) <= LegTotal(i, q)
      && (LegTotal(i, o) == LegTotal(i, q) ==>
            RoundTrip(inst.matrix, q) == RoundTrip(inst.matrix, o) && Ride(inst.matrix, q) == Ride(inst.matrix, o))
  {
    hide RoundTrip, Ride, Plain, LegTotal, LegPrice, Cost;
    var m, i := inst.matrix, Under(inst, RideWeights(inst.weights, ride));
    SameSmall(route, o);
    SameSmall(route, q);
    LegTotalIs(i, o);
    LegTotalIs(i, q);
    LegPriceIs(inst.weights, ride, RoundTrip(m, o), Ride(m, o));
    LegPriceIs(inst.weights, ride, RoundTrip(m, q), Ride(m, q));
    hide Under, RideWeights;
    if Ride(m, q) < Ride(m, o) {
      assert ride < Exchange(m, o, q);
      BelowExchange(ride, RoundTrip(m, o), Ride(m, o), RoundTrip(m, q), Ride(m, q));
    } else {
      NoBetter(ride, RoundTrip(m, o), Ride(m, o), RoundTrip(m, q), Ride(m, q));
    }
  }

  /** The cheapest car by its legs is one the sequencer may return. */
  lemma CheapestIsResequenced(inst: Instance, q: Route, o: Route)
    requires Small(q) && SameCar(q, o)
    requires forall other :: SameCar(q, other) ==> LegTotal(inst, o) <= LegTotal(inst, other)
    ensures IsResequenced(inst, q, o)
  {
    hide Cost, Plain;
    SameSmall(q, o);
    forall a | multiset(a) == multiset(o.outbound)
      ensures Cost(OutboundLeg(inst, q.driver), o.outbound) <= Cost(OutboundLeg(inst, q.driver), a)
    {
      assert SameCar(q, Route(q.driver, a, o.inbound));
    }
    assert |o.inbound| == |multiset(o.inbound)| == |multiset(q.inbound)| == |q.inbound|;
    forall b | multiset(b) == multiset(o.inbound)
      ensures Cost(InboundLeg(inst, q.driver, |q.inbound|), o.inbound)
           <= Cost(InboundLeg(inst, q.driver, |q.inbound|), b)
    {
      assert |b| == |multiset(b)| == |multiset(o.inbound)| == |o.inbound|;
      assert SameCar(q, Route(q.driver, o.outbound, b));
    }
  }

  lemma PreferredWorsens(inst: Instance, route: Route, o: Route, q: Route, ride: real)
    requires Small(route) && Preferred(inst.matrix, route, o, ride) && SameCar(route, q)
    requires RoundTrip(inst.matrix, o) < DirectSeconds(inst.matrix, route.driver)
    requires ride * Ride(inst.matrix, o) as real
      > ride * Ride(inst.matrix, q) as real
        + Max(0, RoundTrip(inst.matrix, q) - DirectSeconds(inst.matrix, route.driver)) as real
    ensures AlwaysWorsens(Under(inst, RideWeights(inst.weights, ride)), q)
  {
    hide RoundTrip, Ride, Plain, LegTotal, RouteCost, Price, DirectSeconds, Preferred, IsSequenced;
    var m, i := inst.matrix, Under(inst, RideWeights(inst.weights, ride));
    SameSmall(route, q);
    assert SameCar(route, o) by {
      PreferredIsSame(m, route, o, ride);
    }
    forall other | SameCar(q, other) ensures LegTotal(i, o) <= LegTotal(i, other) {
      PreferredIsCheapest(inst, route, o, ride, other);
    }
    CheapestIsResequenced(i, q, o);
    forall r | IsResequenced(i, q, r) ensures RouteCost(i, r) > RouteCost(i, q) {
      ResequencedIsSameCar(i, q, r);
      ResequencedLegTotal(i, q, r, o);
      PreferredIsCheapest(inst, route, o, ride, r);
      RouteCostIs(i, r);
      RouteCostIs(i, q);
      PriceIs(inst.weights, ride, RoundTrip(m, r), Ride(m, r), Max(0, RoundTrip(m, r) - DirectSeconds(m, r.driver)));
      PriceIs(inst.weights, ride, RoundTrip(m, q), Ride(m, q), Max(0, RoundTrip(m, q) - DirectSeconds(m, q.driver)));
    }
  }

  lemma PreferredIsSame(m: Matrix, route: Route, o: Route, ride: real)
    requires Preferred(m, route, o, ride)
    ensures SameCar(route, o)
  {
  }

  lemma ResequencedIsSameCar(inst: Instance, q: Route, r: Route)
    requires IsResequenced(inst, q, r)
    ensures SameCar(q, r)
  {
    hide Optimal;
  }

  lemma WorsensIf(inst: Instance, route: Route)
    requires Small(route) && !NeverUndercuts(inst.matrix, route)
    requires !exists o :: BestAtBoth(inst.matrix, route, o)
    ensures MustWorsen(inst, route)
  {
    hide RoundTrip, Ride, Plain, DirectSeconds, AlwaysWorsens, Exchange, Small, Preferred, NonNegative;
    var m := inst.matrix;
    var direct := DirectSeconds(m, route.driver);
    var o := ShortestOrder(m, route);
    assert !BestAtBoth(m, route, o);
    var q := CheapestExchange(m, route, o);
    assert RoundTrip(m, q) > RoundTrip(m, o);
    var ride := RideWeight(RoundTrip(m, o), Ride(m, o), RoundTrip(m, q), Ride(m, q), direct);
    ExchangeIs(m, o, q);
    BelowAllIsPreferred(m, route, o, q, ride);
    PreferredWorsens(inst, route, o, q, ride);
    RideWeightsAllowed(inst.weights, ride);
  }

  lemma RideWeightsAllowed(w: Weights, ride: real)
    requires ride > 0.0
    ensures NonNegative(RideWeights(w, ride))
  {
  }

  lemma BelowAllIsPreferred(m: Matrix, route: Route, o: Route, best: Route, ride: real)
    requires SameCar(route, o) && 0.0 < ride < Exchange(m, o, best)
    requires forall q :: SameCar(route, q) ==> RoundTrip(m, o) <= RoundTrip(m, q)
    requires forall q :: SameCar(route, q) && RoundTrip(m, q) == RoundTrip(m, o) ==> Ride(m, o) <= Ride(m, q)
    requires forall q :: SameCar(route, q) && Ride(m, q) < Ride(m, o) ==> Exchange(m, o, best) <= Exchange(m, o, q)
    ensures Preferred(m, route, o, ride)
  {
    hide RoundTrip, Ride, Exchange, SameCar;
  }

  lemma ExchangeIs(m: Matrix, o: Route, q: Route)
    requires Ride(m, q) < Ride(m, o)
    ensures Exchange(m, o, q) == (RoundTrip(m, q) - RoundTrip(m, o)) as real / (Ride(m, o) - Ride(m, q)) as real
  {
    hide RoundTrip, Ride;
  }

  /**
    * Exactly when resequencing a car of at most twelve stops a leg can make it dearer, under some non-negative weights:
    * some order of its stops undercuts the driver's direct trip, and no order is both the shortest and the best for its
    * riders. Some weights then make it dearer whatever way ties are broken.
    */
  lemma CanWorsenExactly(inst: Instance, route: Route)
    requires Small(route)
    ensures CanWorsen(inst, route) <==>
      !NeverUndercuts(inst.matrix, route) && !exists o :: BestAtBoth(inst.matrix, route, o)
    ensures CanWorsen(inst, route) <==> MustWorsen(inst, route)
  {
    hide BestAtBoth, NeverUndercuts, Small, IsResequenced, RouteCost;
    if CanWorsen(inst, route) {
      var w, q, r :| NonNegative(w) && SameCar(route, q) && Worsens(Under(inst, w), q, r);
      WorsensOnlyIf(Under(inst, w), route, q, r);
    }
    if !NeverUndercuts(inst.matrix, route) && !exists o :: BestAtBoth(inst.matrix, route, o) {
      WorsensIf(inst, route);
      assert MustWorsen(inst, route);
    }
    if MustWorsen(inst, route) {
      var w, q :| NonNegative(w) && SameCar(route, q) && AlwaysWorsens(Under(inst, w), q);
      var r :| IsResequenced(Under(inst, w), q, r);
      assert Worsens(Under(inst, w), q, r);
    }
  }
}
