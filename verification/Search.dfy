/** The search's memo tables: prices, insertions and orderings already worked out, all of them still true. */
module Search {
  import opened Models
  import opened Sorting
  import opened Objective
  import opened Feasibility
  import opened Sequence
  import opened Insertion
  import opened Fleet
  import opened Offers

  /** `route` in sequenced order, or as it was when that order breaks a rule. */
  ghost predicate IsTidied(inst: Instance, route: Route, tidied: Route) {
    exists r :: IsResequenced(inst, route, r) && tidied == if Feasible(inst, r) then r else route
  }

  /** The cars nearest `rider`, open or not. */
  function NearestDrivers(inst: Instance, rider: NodeId): seq<NodeId> {
    SortedBy(OtherDrivers(inst, rider), Nearness(inst, rider))
  }

  function OtherDrivers(inst: Instance, rider: NodeId): set<NodeId> {
    set d | d in inst.index && inst.index[d].role.CanDrive() && d != rider
  }

  /** The search tries the nearest open cars of other drivers, one at least. */
  lemma SearchTakesNearest(inst: Instance, cars: Cars, rider: NodeId, candidates: nat)
    ensures
      var eligible := set d | d in cars && d in inst.index && inst.index[d].role.CanDrive() && d != rider;
      TakesNearest(inst, rider, eligible, SearchCandidates(NearestDrivers(inst, rider), cars, candidates),
                   if candidates == 0 then 1 else candidates)
  {
    hide SortedBy, Nearness, OnlyOpen, Ordered, TakesNearest;
    var drivers, key := NearestDrivers(inst, rider), Nearness(inst, rider);
    var eligible := set d | d in cars && d in inst.index && inst.index[d].role.CanDrive() && d != rider;
    SortedByOrdered(OtherDrivers(inst, rider), key);
    OnlyOpenIs(cars, drivers, key);
    FirstAreNearest(inst, rider, eligible, OnlyOpen(cars, drivers), if candidates == 0 then 1 else candidates);
  }

  class Searcher {
    const inst: Instance
    const candidates: nat
    const previous: Previous
    const nearest: map<NodeId, seq<NodeId>>
    const memo: CostMemo
    var sequenced: map<Route, Route>
    var insertions: map<(Route, NodeId), Choice>

    ghost predicate Valid()
      reads this, memo
    {
      && memo.inst == inst && memo.Valid()
      && (forall r :: r in nearest <==> IsRider(inst, r))
      && (forall r :: r in nearest ==> nearest[r] == NearestDrivers(inst, r))
      && (forall route, rider :: (route, rider) in insertions ==>
            && Known(inst, route) && inst.Has(rider)
            && insertions[(route, rider)] == BestInsertion(inst, route, rider))
      && (forall route :: route in sequenced ==> Known(inst, route) && IsTidied(inst, route, sequenced[route]))
    }

    /** Tables to fill as prices are asked for, and for each rider the others who can drive, nearest first. */
    constructor (inst: Instance, candidates: nat, previous: Previous)
      ensures Valid() && fresh(memo)
      ensures insertions == map[] && sequenced == map[] && memo.costs == map[]
      ensures this.inst == inst && this.candidates == candidates && this.previous == previous
    {
      hide NearestDrivers, BestInsertion, IsTidied, Known, RouteCost, EmptyCar, CostMemo.Valid;
      this.inst := inst;
      this.candidates := candidates;
      this.previous := previous;
      nearest := map r | r in inst.index && inst.index[r].IsRider() :: NearestDrivers(inst, r);
      memo := new CostMemo(inst);
      sequenced := map[];
      insertions := map[];
    }

    /** `greedy.best_insertion`, remembered. */
    method Insertion(route: Route, rider: NodeId) returns (best: Choice)
      requires Valid() && Known(inst, route) && inst.Has(rider)
      modifies this, memo
      ensures Valid()
      ensures best == BestInsertion(inst, route, rider)
    {
      hide BestInsertion, IsTidied, Known, NearestDrivers;
      var key := (route, rider);
      if key !in insertions {
        if |insertions| > CACHE_LIMIT {
          insertions := map[];
        }
        best := FindInsertion(inst, memo, route, rider);
        insertions := insertions[key := best];
      } else {
        best := insertions[key];
      }
    }

    /** `tidy` */
    method Tidy(route: Route) returns (tidied: Route)
      requires Valid() && Known(inst, route)
      modifies this
      ensures Valid()
      ensures IsTidied(inst, route, tidied)
    {
      hide BestInsertion, Known, NearestDrivers, IsResequenced, Feasible;
      if route in sequenced {
        tidied := sequenced[route];
      } else {
        if |sequenced| > CACHE_LIMIT {
          sequenced := map[];
        }
        var resequenced := Resequence(inst, route);
        ResequencedIsKnown(inst, route, resequenced);
        var ok := RouteFeasible(inst, resequenced);
        tidied := if ok then resequenced else route;
        assert IsTidied(inst, route, tidied);
        sequenced := sequenced[route := tidied];
      }
    }

    method SoloOr(best: Option<Offer>, rider: NodeId) returns (offer: Option<Offer>)
      requires Valid() && inst.Has(rider)
      modifies this, memo
      ensures Valid()
      ensures offer == WithSolo(inst, best, rider)
    {
      hide BestInsertion, IsTidied, Feasible, RouteCost, NearestDrivers;
      offer := best;
      if inst.index[rider].role.CanDrive() {
        var ok := RouteFeasible(inst, EmptyCar(rider));
        if ok {
          var cost := memo.Cost(EmptyCar(rider));
          var soloCost := inst.weights.vehicle + cost;
          if best.None? || best.value.price > soloCost {
            offer := Some(Offer(rider, EmptyCar(rider), soloCost));
          }
        }
      }
    }

    /** The cheapest seat in the nearest open cars, the first found of equals. */
    method NearestSeat(cars: Cars, rider: NodeId) returns (best: Option<Offer>, ghost open: seq<NodeId>)
      requires Valid() && IsRider(inst, rider) && AllCarsKnown(inst, cars)
      modifies this, memo
      ensures Valid()
      ensures open == SearchCandidates(nearest[rider], cars, candidates) && OpenCars(inst, cars, open)
      ensures best == BestCar(inst, previous, cars, rider, open)
    {
      hide BestInsertion, IsTidied, Known, NearestDrivers, OnlyOpen, SearchCandidates, BestCar;
      best := None;
      var seen := 0;
      var drivers := nearest[rider];
      var i := 0;
      open := [];
      OpenNone(cars, drivers);
      NoCars(inst, previous, cars, rider);
      while i < |drivers|
        invariant Valid()
        invariant 0 <= i <= |drivers|
        invariant open == OnlyOpen(cars, drivers[..i]) && OpenCars(inst, cars, open)
        invariant seen == |open| && (seen == 0 || seen < candidates)
        invariant best == BestCar(inst, previous, cars, rider, open)
      {
        var driver := drivers[i];
        OpenOneMore(cars, drivers, i);
        i := i + 1;
        if driver !in cars {
          continue;
        }
        seen := seen + 1;
        ghost var before := open;
        open := open + [driver];
        CarIsKnown(inst, cars, before, driver);
        var insertion := Insertion(cars[driver], rider);
        MoreCars(inst, previous, cars, rider, before, driver);
        if insertion.Some? {
          var price := insertion.value.1 + Moved(inst, previous, rider, driver);
          if best.None? || price < best.value.price {
            best := Some(Offer(driver, insertion.value.0, price));
          }
        }
        if seen >= candidates {
          break;
        }
      }
      OpenEnough(cars, drivers, i, candidates);
    }

    /** `_offer` */
    method MakeOffer(cars: Cars, rider: NodeId) returns (offer: Option<Offer>)
      requires Valid() && IsRider(inst, rider) && AllCarsKnown(inst, cars)
      modifies this, memo
      ensures Valid()
      ensures offer == SearchOffer(inst, previous, nearest[rider], cars, rider, candidates)
      ensures var open := SearchCandidates(nearest[rider], cars, candidates);
        OpenCars(inst, cars, open) && CheapestOffer(inst, previous, cars, rider, open, offer)
    {
      hide BestCar, Known, NearestDrivers, WithSolo, SearchCandidates, CheapestOffer, OpenCars;
      var best;
      ghost var open;
      best, open := NearestSeat(cars, rider);
      offer := SoloOr(best, rider);
      SearchOfferIsCheapest(inst, previous, nearest[rider], cars, rider, candidates);
    }
  }

  lemma CarIsKnown(inst: Instance, cars: Cars, open: seq<NodeId>, d: NodeId)
    requires AllCarsKnown(inst, cars) && d in cars && OpenCars(inst, cars, open)
    ensures Known(inst, cars[d]) && OpenCars(inst, cars, open + [d])
  {
    hide Known;
  }

  lemma NoCars(inst: Instance, previous: Previous, cars: Cars, rider: NodeId)
    requires inst.Has(rider)
    ensures OpenCars(inst, cars, []) && BestCar(inst, previous, cars, rider, []).None?
  {
  }

  lemma MoreCars(inst: Instance, previous: Previous, cars: Cars, rider: NodeId, open: seq<NodeId>, d: NodeId)
    requires inst.Has(rider) && d in cars && OpenCars(inst, cars, open + [d])
    ensures OpenCars(inst, cars, open) && Known(inst, cars[d])
    ensures BestCar(inst, previous, cars, rider, open + [d])
         == Better(BestCar(inst, previous, cars, rider, open), SeatIn(inst, previous, cars, rider, d))
  {
    hide BestInsertion, Known, BestCar;
    assert (open + [d])[..|open|] == open && (open + [d])[|open|] == d;
    assert forall i :: 0 <= i < |open| ==> (open + [d])[i] == open[i];
    BestCarStep(inst, previous, cars, rider, open + [d]);
  }

  lemma OpenNone(cars: Cars, drivers: seq<NodeId>)
    ensures OnlyOpen(cars, drivers[..0]) == []
  {
  }

  lemma OpenOneMore(cars: Cars, drivers: seq<NodeId>, i: nat)
    requires i < |drivers|
    ensures OnlyOpen(cars, drivers[..i + 1])
         == OnlyOpen(cars, drivers[..i]) + if drivers[i] in cars then [drivers[i]] else []
  {
    assert drivers[..i + 1][..i] == drivers[..i];
  }

  /** Stopping at the end, or once enough open cars have been seen, has tried exactly the candidates. */
  lemma OpenEnough(cars: Cars, drivers: seq<NodeId>, i: nat, candidates: nat)
    requires i <= |drivers|
    requires var seen := |OnlyOpen(cars, drivers[..i])|;
      if i == |drivers| then seen == 0 || seen <= candidates || seen == 1
      else seen > 0 && seen >= candidates && (seen == 1 || seen == candidates)
    ensures OnlyOpen(cars, drivers[..i]) == SearchCandidates(drivers, cars, candidates)
  {
    OnlyOpenPrefix(cars, drivers, i);
    assert drivers[..|drivers|] == drivers;
  }

  lemma ResequencedIsKnown(inst: Instance, route: Route, r: Route)
    requires Known(inst, route) && IsResequenced(inst, route, r)
    ensures Known(inst, r)
  {
    forall i | 0 <= i < |r.outbound| ensures inst.Has(r.outbound[i]) {
      assert r.outbound[i] in multiset(route.outbound);
    }
    forall i | 0 <= i < |r.inbound| ensures inst.Has(r.inbound[i]) {
      assert r.inbound[i] in multiset(route.inbound);
    }
  }

  /** Greedy's `_offer`, priced without memory. */
  method MakeGreedyOffer(inst: Instance, cars: Cars, rider: NodeId, candidates: nat) returns (offer: Option<Offer>)
    requires inst.Has(rider) && AllCarsKnown(inst, cars)
    ensures offer == GreedyOffer(inst, cars, rider, candidates)
    ensures var open := GreedyCandidates(inst, cars, rider, candidates);
      OpenCars(inst, cars, open) && CheapestOffer(inst, map[], cars, rider, open, offer)
  {
    hide BestInsertion, Known, GreedyCandidates, RouteCost, Feasible, CheapestOffer;
    GreedyOfferIsCheapest(inst, cars, rider, candidates);
    EmptyIsGood(inst, rider);
    GoodIsKnown(inst, rider, EmptyCar(rider));
    var drivers := GreedyCandidates(inst, cars, rider, candidates);
    TheseAreOpen(inst, cars, drivers);
    var best: Option<Offer> := None;
    for i := 0 to |drivers|
      invariant best == BestCar(inst, map[], cars, rider, drivers[..i])
    {
      assert drivers[..i + 1][..i] == drivers[..i];
      var insertion := FindInsertion(inst, null, cars[drivers[i]], rider);
      if insertion.Some? && (best.None? || insertion.value.1 < best.value.price) {
        best := Some(Offer(drivers[i], insertion.value.0, insertion.value.1));
      }
    }
    assert drivers[..|drivers|] == drivers;
    var ok := false;
    if inst.index[rider].role.CanDrive() {
      ok := RouteFeasible(inst, EmptyCar(rider));
    }
    offer := best;
    if ok {
      var soloCost := inst.weights.vehicle + RouteCost(inst, EmptyCar(rider));
      if best.None? || best.value.price > soloCost {
        offer := Some(Offer(rider, EmptyCar(rider), soloCost));
      }
    }
  }
}
