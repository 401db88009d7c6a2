/** What the open cars, or a car of their own, would cost a rider right now. */
module Offers {
  import opened Models
  import opened Sorting
  import opened Objective
  import opened Feasibility
  import opened Insertion
  import opened Fleet

  /** A seat and what it adds to the total; somebody offered a car of their own is its driver. */
  datatype Offer = Offer(driver: NodeId, route: Route, price: real)

  type Previous = map<NodeId, NodeId>

  /** Parting from an earlier driver is charged for; whoever had none rides with anybody for nothing. */
  function Moved(inst: Instance, previous: Previous, rider: NodeId, driver: NodeId): real {
    if rider in previous && previous[rider] != driver then inst.weights.churn else 0.0
  }

  ghost predicate OpenCars(inst: Instance, cars: Cars, drivers: seq<NodeId>) {
    forall i :: 0 <= i < |drivers| ==> drivers[i] in cars && Known(inst, cars[drivers[i]])
  }

  /** The cheapest insertion among the given cars, the earliest such on a tie. */
  ghost function BestCar(inst: Instance, previous: Previous, cars: Cars, rider: NodeId, drivers: seq<NodeId>)
    : Option<Offer>
    requires inst.Has(rider) && OpenCars(inst, cars, drivers)
  {
    var n := |drivers|;
    if n == 0 then None
    else
      var best := BestCar(inst, previous, cars, rider, drivers[..n - 1]);
      var d := drivers[n - 1];
      var insertion := BestInsertion(inst, cars[d], rider);
      if insertion.Some? && (best.None? || insertion.value.1 + Moved(inst, previous, rider, d) < best.value.price)
      then Some(Offer(d, insertion.value.0, insertion.value.1 + Moved(inst, previous, rider, d)))
      else best
  }

  function SoloPrice(inst: Instance, rider: NodeId): real {
    inst.weights.vehicle + RouteCost(inst, EmptyCar(rider))
  }

  /** A flexible rider drives instead when that is feasible and strictly cheaper. */
  ghost function WithSolo(inst: Instance, best: Option<Offer>, rider: NodeId): Option<Offer>
    requires inst.Has(rider)
  {
    if inst.index[rider].role.CanDrive() && Feasible(inst, EmptyCar(rider))
       && (best.None? || best.value.price > SoloPrice(inst, rider))
    then Some(Offer(rider, EmptyCar(rider), SoloPrice(inst, rider)))
    else best
  }

  function FirstN(s: seq<NodeId>, n: nat): seq<NodeId> {
    if |s| <= n then s else s[..n]
  }

  function Nearness(inst: Instance, rider: NodeId): NodeId -> int {
    d => Duration(inst.matrix, rider, d)
  }

  /** Greedy's candidates: the nearest open cars. */
  function GreedyCandidates(inst: Instance, cars: Cars, rider: NodeId, candidates: nat): (r: seq<NodeId>)
    ensures forall i :: 0 <= i < |r| ==> r[i] in cars
  {
    hide SortedBy;
    var all := SortedBy(cars.Keys, Nearness(inst, rider));
    assert forall i :: 0 <= i < |all| ==> all[i] in all;
    FirstN(all, candidates)
  }

  /** The nearest eligible cars by drive from the rider, of equals the least ids, as many as asked for, in order. */
  ghost predicate TakesNearest(inst: Instance, rider: NodeId, eligible: set<NodeId>, r: seq<NodeId>, n: nat) {
    && (forall i :: 0 <= i < |r| ==> r[i] in eligible) && |r| <= n
    && (forall i, j :: 0 <= i < j < |r| ==> IsNearer(inst, rider, r[i], r[j]))
    && forall d :: d in eligible && d !in r ==> |r| == n && forall i :: 0 <= i < |r| ==> IsNearer(inst, rider, r[i], d)
  }

  ghost predicate IsNearer(inst: Instance, rider: NodeId, a: NodeId, b: NodeId) {
    var near, far := Duration(inst.matrix, rider, a), Duration(inst.matrix, rider, b);
    near < far || (near == far && a < b)
  }

  lemma GreedyTakesNearest(inst: Instance, cars: Cars, rider: NodeId, candidates: nat)
    ensures TakesNearest(inst, rider, cars.Keys, GreedyCandidates(inst, cars, rider, candidates), candidates)
  {
    hide SortedBy, Duration;
    var key := Nearness(inst, rider);
    SortedByOrdered(cars.Keys, key);
    FirstAreNearest(inst, rider, cars.Keys, SortedBy(cars.Keys, key), candidates);
  }

  lemma FirstAreNearest(inst: Instance, rider: NodeId, eligible: set<NodeId>, s: seq<NodeId>, n: nat)
    requires Ordered(Nearness(inst, rider), s) && forall d :: d in s <==> d in eligible
    ensures TakesNearest(inst, rider, eligible, FirstN(s, n), n)
  {
    hide Duration;
    var r := FirstN(s, n);
    forall i, j | 0 <= i < j < |s| ensures IsNearer(inst, rider, s[i], s[j]) {
      assert Before(Nearness(inst, rider), s[i], s[j]);
    }
    hide Before, IsNearer;
    forall i | 0 <= i < |r| ensures r[i] in eligible {
      assert r[i] in s;
    }
    forall d | d in eligible && d !in r
      ensures |r| == n && forall i :: 0 <= i < |r| ==> IsNearer(inst, rider, r[i], d)
    {
      assert d in s;
      var j :| 0 <= j < |s| && s[j] == d;
      forall i | 0 <= i < |r| ensures r[i] != d && r[i] == s[i] {
        assert r[i] in r;
      }
    }
  }

  function OnlyOpen(cars: Cars, drivers: seq<NodeId>): (r: seq<NodeId>)
    ensures forall i :: 0 <= i < |r| ==> r[i] in cars
  {
    if drivers == [] then []
    else
      var n := |drivers| - 1;
      var front := OnlyOpen(cars, drivers[..n]);
      if drivers[n] in cars then front + [drivers[n]] else front
  }

  lemma {:induction false} OnlyOpenIs(cars: Cars, drivers: seq<NodeId>, key: NodeId -> int)
    ensures forall d :: d in OnlyOpen(cars, drivers) <==> d in drivers && d in cars
    ensures Ordered(key, drivers) ==> Ordered(key, OnlyOpen(cars, drivers))
  {
    hide Before;
    if drivers != [] {
      var n := |drivers| - 1;
      OnlyOpenIs(cars, drivers[..n], key);
      assert drivers == drivers[..n] + [drivers[n]];
      OpenedInOrder(cars, drivers, OnlyOpen(cars, drivers[..n]), key);
    }
  }

  lemma OpenedInOrder(cars: Cars, drivers: seq<NodeId>, front: seq<NodeId>, key: NodeId -> int)
    requires drivers != [] && front == OnlyOpen(cars, drivers[..|drivers| - 1])
    requires forall d :: d in front ==> d in drivers[..|drivers| - 1]
    requires Ordered(key, drivers) ==> Ordered(key, front)
    ensures Ordered(key, drivers) ==> Ordered(key, OnlyOpen(cars, drivers))
  {
    hide Before;
    var n := |drivers| - 1;
    if Ordered(key, drivers) {
      forall i | 0 <= i < |front| ensures Before(key, front[i], drivers[n]) {
        assert front[i] in front;
        var k :| 0 <= k < n && drivers[..n][k] == front[i];
        assert drivers[k] == front[i];
      }
    }
  }

  /** The search's candidates: the open cars among the drivers sorted once by distance; at least one is tried. */
  function SearchCandidates(nearest: seq<NodeId>, cars: Cars, candidates: nat): (r: seq<NodeId>)
    ensures forall i :: 0 <= i < |r| ==> r[i] in cars
  {
    FirstN(OnlyOpen(cars, nearest), if candidates == 0 then 1 else candidates)
  }

  /** A standing offer is what it says: that rider and nobody else added to that car, feasible, exactly priced. */
  ghost predicate Holds(inst: Instance, previous: Previous, cars: Cars, rider: NodeId, o: Offer)
    requires inst.Has(rider)
  {
    || (&& o.driver in cars && Known(inst, cars[o.driver])
        && var insertion := BestInsertion(inst, cars[o.driver], rider);
           && insertion.Some? && o.route == insertion.value.0
           && o.price == insertion.value.1 + Moved(inst, previous, rider, o.driver))
    || (&& o.driver == rider && o.route == EmptyCar(rider)
        && inst.index[rider].role.CanDrive() && Feasible(inst, EmptyCar(rider))
        && o.price == SoloPrice(inst, rider))
  }

  ghost predicate MayDriveAlone(inst: Instance, rider: NodeId)
    requires inst.Has(rider)
  {
    inst.index[rider].role.CanDrive() && Feasible(inst, EmptyCar(rider))
  }

  /** The price of a seat in that car, when it has one. */
  ghost function SeatIn(inst: Instance, previous: Previous, cars: Cars, rider: NodeId, d: NodeId): Option<Offer>
    requires inst.Has(rider) && d in cars && Known(inst, cars[d])
  {
    var insertion := BestInsertion(inst, cars[d], rider);
    if insertion.Some? then Some(Offer(d, insertion.value.0, insertion.value.1 + Moved(inst, previous, rider, d)))
    else None
  }

  /** The cheapest seat among the given cars, the earliest of equals, or none because none of them has one. */
  ghost predicate CheapestSeat(inst: Instance, previous: Previous, cars: Cars, rider: NodeId, drivers: seq<NodeId>,
                               o: Option<Offer>)
    requires inst.Has(rider) && OpenCars(inst, cars, drivers)
  {
    if o.None? then forall i :: 0 <= i < |drivers| ==> SeatIn(inst, previous, cars, rider, drivers[i]).None?
    else exists k :: 0 <= k < |drivers| && IsCheapestSeat(inst, previous, cars, rider, drivers, o.value, k)
  }

  ghost predicate IsCheapestSeat(inst: Instance, previous: Previous, cars: Cars, rider: NodeId, drivers: seq<NodeId>,
                                 o: Offer, k: int)
    requires inst.Has(rider) && OpenCars(inst, cars, drivers) && 0 <= k < |drivers|
  {
    && SeatIn(inst, previous, cars, rider, drivers[k]) == Some(o)
    && forall i :: 0 <= i < |drivers| && SeatIn(inst, previous, cars, rider, drivers[i]).Some? ==>
         var price := SeatIn(inst, previous, cars, rider, drivers[i]).value.price;
         if i < k then o.price < price else o.price <= price
  }

  /**
    * What an offer has to be: the cheapest of a seat in the given cars and a car of the rider's own, a seat on a tie;
    * none exactly when no car has a seat for them and they may not drive alone.
    */
  ghost predicate CheapestOffer(inst: Instance, previous: Previous, cars: Cars, rider: NodeId, drivers: seq<NodeId>,
                                o: Option<Offer>)
    requires inst.Has(rider) && OpenCars(inst, cars, drivers)
  {
    var seatless := forall i :: 0 <= i < |drivers| ==> SeatIn(inst, previous, cars, rider, drivers[i]).None?;
    var alone := MayDriveAlone(inst, rider);
    && (o.None? <==> seatless && !alone)
    && (o.Some? && alone ==> o.value.price <= SoloPrice(inst, rider))
    && (o.Some? ==>
          || (exists k :: 0 <= k < |drivers| && IsCheapestSeat(inst, previous, cars, rider, drivers, o.value, k))
          || (alone && o.value == Offer(rider, EmptyCar(rider), SoloPrice(inst, rider))
              && forall i :: 0 <= i < |drivers| && SeatIn(inst, previous, cars, rider, drivers[i]).Some? ==>
                   SoloPrice(inst, rider) < SeatIn(inst, previous, cars, rider, drivers[i]).value.price))
  }

  lemma {:induction false} BestCarIsCheapest(inst: Instance, previous: Previous, cars: Cars, rider: NodeId,
                                             drivers: seq<NodeId>)
    requires inst.Has(rider) && OpenCars(inst, cars, drivers)
    ensures CheapestSeat(inst, previous, cars, rider, drivers, BestCar(inst, previous, cars, rider, drivers))
  {
    hide CheapestSeat, BestCar, Better, SeatIn, Known;
    if drivers == [] {
      NoSeats(inst, previous, cars, rider);
    } else {
      var n := |drivers| - 1;
      BestCarIsCheapest(inst, previous, cars, rider, drivers[..n]);
      BestCarStep(inst, previous, cars, rider, drivers);
      OneMoreCar(inst, previous, cars, rider, drivers, BestCar(inst, previous, cars, rider, drivers[..n]));
    }
  }

  lemma NoSeats(inst: Instance, previous: Previous, cars: Cars, rider: NodeId)
    requires inst.Has(rider) && OpenCars(inst, cars, [])
    ensures CheapestSeat(inst, previous, cars, rider, [], BestCar(inst, previous, cars, rider, []))
  {
  }

  /** The better of a seat already found and the last car's; the earlier on a tie. */
  ghost function Better(best: Option<Offer>, next: Option<Offer>): Option<Offer> {
    if next.Some? && (best.None? || next.value.price < best.value.price) then next else best
  }

  lemma BestCarStep(inst: Instance, previous: Previous, cars: Cars, rider: NodeId, drivers: seq<NodeId>)
    requires inst.Has(rider) && OpenCars(inst, cars, drivers) && drivers != []
    ensures BestCar(inst, previous, cars, rider, drivers)
         == Better(BestCar(inst, previous, cars, rider, drivers[..|drivers| - 1]),
                   SeatIn(inst, previous, cars, rider, drivers[|drivers| - 1]))
  {
    hide BestInsertion, Known, Moved;
  }

  lemma OneMoreCar(inst: Instance, previous: Previous, cars: Cars, rider: NodeId, drivers: seq<NodeId>,
                   best: Option<Offer>)
    requires inst.Has(rider) && OpenCars(inst, cars, drivers) && drivers != []
    requires CheapestSeat(inst, previous, cars, rider, drivers[..|drivers| - 1], best)
    ensures CheapestSeat(inst, previous, cars, rider, drivers,
                         Better(best, SeatIn(inst, previous, cars, rider, drivers[|drivers| - 1])))
  {
    hide SeatIn, Known;
    var n := |drivers| - 1;
    var front := drivers[..n];
    assert forall i :: 0 <= i < n ==> front[i] == drivers[i];
    var next := SeatIn(inst, previous, cars, rider, drivers[n]);
    if next.Some? && (best.None? || next.value.price < best.value.price) {
      if best.Some? {
        var k :| 0 <= k < n && IsCheapestSeat(inst, previous, cars, rider, front, best.value, k);
      }
      assert IsCheapestSeat(inst, previous, cars, rider, drivers, next.value, n);
    } else if best.Some? {
      var k :| 0 <= k < n && IsCheapestSeat(inst, previous, cars, rider, front, best.value, k);
      assert IsCheapestSeat(inst, previous, cars, rider, drivers, best.value, k);
    }
  }

  lemma WithSoloIsCheapest(inst: Instance, previous: Previous, cars: Cars, rider: NodeId, drivers: seq<NodeId>,
                           best: Option<Offer>)
    requires inst.Has(rider) && OpenCars(inst, cars, drivers)
    requires CheapestSeat(inst, previous, cars, rider, drivers, best)
    ensures CheapestOffer(inst, previous, cars, rider, drivers, WithSolo(inst, best, rider))
  {
    hide SeatIn, Known, Feasible, SoloPrice;
    if best.Some? {
      var k :| 0 <= k < |drivers| && IsCheapestSeat(inst, previous, cars, rider, drivers, best.value, k);
      assert SeatIn(inst, previous, cars, rider, drivers[k]).Some?;
    }
  }

  lemma SeatInHolds(inst: Instance, previous: Previous, cars: Cars, rider: NodeId, d: NodeId, o: Offer)
    requires inst.Has(rider) && d in cars && Known(inst, cars[d]) && SeatIn(inst, previous, cars, rider, d) == Some(o)
    ensures Holds(inst, previous, cars, rider, o) && o.driver in cars
  {
    hide BestInsertion, Known, Feasible, Moved;
  }

  lemma BestCarHolds(inst: Instance, previous: Previous, cars: Cars, rider: NodeId, drivers: seq<NodeId>)
    requires inst.Has(rider) && OpenCars(inst, cars, drivers)
    ensures var best := BestCar(inst, previous, cars, rider, drivers);
      best.Some? ==> Holds(inst, previous, cars, rider, best.value) && best.value.driver in cars
  {
    hide BestInsertion, BestCar, Known, Feasible, Moved, EmptyCar, SoloPrice;
    BestCarIsCheapest(inst, previous, cars, rider, drivers);
    var best := BestCar(inst, previous, cars, rider, drivers);
    if best.Some? {
      var k :| 0 <= k < |drivers| && IsCheapestSeat(inst, previous, cars, rider, drivers, best.value, k);
      SeatInHolds(inst, previous, cars, rider, drivers[k], best.value);
    }
  }

  lemma WithSoloHolds(inst: Instance, previous: Previous, cars: Cars, rider: NodeId, best: Option<Offer>)
    requires inst.Has(rider)
    requires best.Some? ==> Holds(inst, previous, cars, rider, best.value)
    ensures var o := WithSolo(inst, best, rider);
      o.Some? ==> Holds(inst, previous, cars, rider, o.value)
  {
    hide Feasible, BestInsertion, Known;
  }

  ghost predicate AllCarsKnown(inst: Instance, cars: Cars) {
    forall d :: d in cars ==> Known(inst, cars[d])
  }

  lemma TheseAreOpen(inst: Instance, cars: Cars, drivers: seq<NodeId>)
    requires AllCarsKnown(inst, cars) && forall i :: 0 <= i < |drivers| ==> drivers[i] in cars
    ensures OpenCars(inst, cars, drivers)
  {
    hide Known;
    forall i | 0 <= i < |drivers| ensures Known(inst, cars[drivers[i]]) {
      var d := drivers[i];
      assert d in cars;
    }
  }

  /** The price is exactly what seating adds: the car's own cost, the new car's charge, the churn. */
  lemma OfferIsExact(inst: Instance, previous: Previous, cars: Cars, rider: NodeId, o: Offer)
    requires inst.Has(rider) && rider !in cars && Holds(inst, previous, cars, rider, o)
    ensures if o.driver in cars then
              o.price == RouteCost(inst, o.route) - RouteCost(inst, cars[o.driver])
                         + Moved(inst, previous, rider, o.driver)
            else
              o.price == RouteCost(inst, o.route) + inst.weights.vehicle
    ensures Feasible(inst, o.route)
    ensures o.driver in cars ==> IsInsertion(inst, cars[o.driver], rider, o.route)
  {
    hide RouteCost, Feasible, BestInsertion, IsInsertion;
    if o.driver in cars {
      InsertionFound(inst, cars[o.driver], rider);
      InsertionPriced(inst, cars[o.driver], rider);
    }
  }

  /** Changing another car leaves an offer standing. */
  lemma OfferStands(inst: Instance, previous: Previous, cars: Cars, rider: NodeId, o: Offer, d: NodeId, c: Route)
    requires inst.Has(rider) && rider !in cars && Holds(inst, previous, cars, rider, o)
    requires d in cars && o.driver != d
    ensures Holds(inst, previous, cars[d := c], rider, o)
  {
    hide Feasible, BestInsertion, Known;
  }

  /** Greedy's offer is the cheapest there is among the nearest open cars and driving alone. */
  lemma GreedyOfferIsCheapest(inst: Instance, cars: Cars, rider: NodeId, candidates: nat)
    requires inst.Has(rider) && AllCarsKnown(inst, cars)
    ensures var drivers := GreedyCandidates(inst, cars, rider, candidates);
      && OpenCars(inst, cars, drivers)
      && CheapestOffer(inst, map[], cars, rider, drivers, GreedyOffer(inst, cars, rider, candidates))
  {
    hide Known, BestCar, WithSolo, CheapestOffer, CheapestSeat, GreedyCandidates;
    var drivers := GreedyCandidates(inst, cars, rider, candidates);
    TheseAreOpen(inst, cars, drivers);
    BestCarIsCheapest(inst, map[], cars, rider, drivers);
    WithSoloIsCheapest(inst, map[], cars, rider, drivers, BestCar(inst, map[], cars, rider, drivers));
  }

  /** The search's offer is the cheapest there is among its candidates, churn included, and driving alone. */
  lemma SearchOfferIsCheapest(inst: Instance, previous: Previous, nearest: seq<NodeId>, cars: Cars, rider: NodeId,
                              candidates: nat)
    requires inst.Has(rider) && AllCarsKnown(inst, cars)
    ensures var drivers := SearchCandidates(nearest, cars, candidates);
      && OpenCars(inst, cars, drivers)
      && CheapestOffer(inst, previous, cars, rider, drivers,
                       SearchOffer(inst, previous, nearest, cars, rider, candidates))
  {
    hide Known, BestCar, WithSolo, CheapestOffer, CheapestSeat, SearchCandidates;
    var drivers := SearchCandidates(nearest, cars, candidates);
    TheseAreOpen(inst, cars, drivers);
    BestCarIsCheapest(inst, previous, cars, rider, drivers);
    WithSoloIsCheapest(inst, previous, cars, rider, drivers, BestCar(inst, previous, cars, rider, drivers));
  }

  lemma {:induction false} OnlyOpenPrefix(cars: Cars, drivers: seq<NodeId>, i: nat)
    requires i <= |drivers|
    ensures |OnlyOpen(cars, drivers[..i])| <= |OnlyOpen(cars, drivers)|
    ensures OnlyOpen(cars, drivers)[..|OnlyOpen(cars, drivers[..i])|] == OnlyOpen(cars, drivers[..i])
  {
    var n := |drivers|;
    if i == n {
      assert drivers[..i] == drivers;
    } else {
      assert drivers[..n - 1][..i] == drivers[..i];
      OnlyOpenPrefix(cars, drivers[..n - 1], i);
    }
  }

  ghost function GreedyOffer(inst: Instance, cars: Cars, rider: NodeId, candidates: nat): Option<Offer>
    requires inst.Has(rider) && AllCarsKnown(inst, cars)
  {
    hide Known, GreedyCandidates, BestCar;
    TheseAreOpen(inst, cars, GreedyCandidates(inst, cars, rider, candidates));
    WithSolo(inst, BestCar(inst, map[], cars, rider, GreedyCandidates(inst, cars, rider, candidates)), rider)
  }

  ghost function SearchOffer(inst: Instance, previous: Previous, nearest: seq<NodeId>, cars: Cars, rider: NodeId,
                             candidates: nat): Option<Offer>
    requires inst.Has(rider) && AllCarsKnown(inst, cars)
  {
    hide Known, SearchCandidates, BestCar;
    TheseAreOpen(inst, cars, SearchCandidates(nearest, cars, candidates));
    WithSolo(inst, BestCar(inst, previous, cars, rider, SearchCandidates(nearest, cars, candidates)), rider)
  }

  lemma GreedyOfferHolds(inst: Instance, cars: Cars, rider: NodeId, candidates: nat)
    requires inst.Has(rider) && AllCarsKnown(inst, cars)
    ensures var o := GreedyOffer(inst, cars, rider, candidates);
      o.Some? ==> Holds(inst, map[], cars, rider, o.value)
  {
    hide Known, BestCar, WithSolo, Holds, GreedyCandidates;
    var drivers := GreedyCandidates(inst, cars, rider, candidates);
    TheseAreOpen(inst, cars, drivers);
    BestCarHolds(inst, map[], cars, rider, drivers);
    WithSoloHolds(inst, map[], cars, rider, BestCar(inst, map[], cars, rider, drivers));
  }

  lemma SearchOfferHolds(inst: Instance, previous: Previous, nearest: seq<NodeId>, cars: Cars, rider: NodeId,
                         candidates: nat)
    requires inst.Has(rider) && AllCarsKnown(inst, cars)
    ensures var o := SearchOffer(inst, previous, nearest, cars, rider, candidates);
      o.Some? ==> Holds(inst, previous, cars, rider, o.value)
  {
    hide Known, BestCar, WithSolo, Holds, SearchCandidates;
    var drivers := SearchCandidates(nearest, cars, candidates);
    TheseAreOpen(inst, cars, drivers);
    BestCarHolds(inst, previous, cars, rider, drivers);
    WithSoloHolds(inst, previous, cars, rider, BestCar(inst, previous, cars, rider, drivers));
  }
}
