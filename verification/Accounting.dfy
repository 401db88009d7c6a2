/** An offer's price is exactly what taking it adds to the total of the whole state. */
module Accounting {
  import opened Models
  import opened Sorting
  import opened Objective
  import opened Feasibility
  import opened Insertion
  import opened Fleet
  import opened Offers
  import opened Evaluation
  import opened Seating

  /** Everything one open car adds to the total. */
  ghost function CarCharge(inst: Instance, previous: Previous, route: Route): real {
    RouteCost(inst, route) + inst.weights.vehicle + inst.weights.churn * |MovedAboard(previous, route)| as real
  }

  /** The charge of a driver's open car. */
  ghost function ChargeOf(inst: Instance, previous: Previous, cars: Cars): NodeId -> real {
    d => if d in cars then CarCharge(inst, previous, cars[d]) else 0.0
  }

  ghost predicate AllOpen(cars: Cars, drivers: seq<NodeId>) {
    forall i :: 0 <= i < |drivers| ==> drivers[i] in cars
  }

  lemma CombineStep(w: Weights, routing: real, n: nat, moved: nat, cost: real, more: nat)
    ensures Combine(w, routing + cost, n + 1, 0, moved + more)
         == Combine(w, routing, n, 0, moved) + (cost + w.vehicle + w.churn * more as real)
  {
  }

  /** Routing, vehicles and churn of some routes, in their own order. */
  ghost function OrderedTotal(inst: Instance, previous: Previous, routes: seq<Route>): real {
    Combine(inst.weights, CostSum(inst, routes), |routes|, 0, MovedSum(previous, routes))
  }

  lemma OrderedTotalMore(inst: Instance, previous: Previous, routes: seq<Route>, front: seq<Route>)
    requires |routes| > 0 && front == routes[..|routes| - 1]
    ensures OrderedTotal(inst, previous, routes)
         == OrderedTotal(inst, previous, front) + CarCharge(inst, previous, routes[|routes| - 1])
  {
    hide RouteCost, MovedAboard, Combine;
    var d := routes[|routes| - 1];
    CombineStep(inst.weights, CostSum(inst, front), |front|, MovedSum(previous, front),
                RouteCost(inst, d), |MovedAboard(previous, d)|);
  }

  lemma {:induction false} ChargesAreTotal(inst: Instance, previous: Previous, cars: Cars, drivers: seq<NodeId>)
    requires AllOpen(cars, drivers)
    ensures SumBy(ChargeOf(inst, previous, cars), drivers) == OrderedTotal(inst, previous, InOrder(cars, drivers))
  {
    hide CarCharge, Combine, CostSum, MovedSum;
    if drivers == [] {
      NoCars(inst, previous);
      assert InOrder(cars, drivers) == [];
    } else {
      hide OrderedTotal;
      var n := |drivers| - 1;
      var front, d := drivers[..n], drivers[n];
      ChargesAreTotal(inst, previous, cars, front);
      assert InOrder(cars, drivers)[..n] == InOrder(cars, front);
      OrderedTotalMore(inst, previous, InOrder(cars, drivers), InOrder(cars, front));
    }
  }

  lemma NoCars(inst: Instance, previous: Previous)
    ensures OrderedTotal(inst, previous, []) == 0.0
  {
  }

  /** The routing, vehicle and churn part of the total. */
  ghost function Running(inst: Instance, previous: Previous, cars: Cars): real {
    OrderedTotal(inst, previous, CarsInOrder(cars))
  }

  lemma TotalIsRunning(inst: Instance, previous: Previous, cars: Cars, unassigned: set<NodeId>)
    ensures Total(inst, previous, cars, unassigned)
         == Running(inst, previous, cars) + inst.weights.unassigned * UnassignedSum(inst, Sorted(unassigned)) as real
  {
    hide CostSum, MovedSum, CarsInOrder, UnassignedSum, Sorted;
    assert |CarsInOrder(cars)| == |cars|;
  }

  lemma RunningIsCharges(inst: Instance, previous: Previous, cars: Cars)
    ensures Running(inst, previous, cars) == SumBy(ChargeOf(inst, previous, cars), Sorted(cars.Keys))
  {
    hide OrderedTotal, Sorted, ChargeOf, SumBy;
    ChargesAreTotal(inst, previous, cars, Sorted(cars.Keys));
    assert |Sorted(cars.Keys)| == |cars.Keys| == |cars|;
  }

  lemma RestUnchanged(inst: Instance, previous: Previous, cars: Cars, d: NodeId, c: Route)
    ensures SumBy(ChargeOf(inst, previous, cars[d := c]), Sorted(cars.Keys - {d}))
         == SumBy(ChargeOf(inst, previous, cars), Sorted(cars.Keys - {d}))
  {
    hide CarCharge, Sorted, SumBy;
    var rest := Sorted(cars.Keys - {d});
    var f, g := ChargeOf(inst, previous, cars[d := c]), ChargeOf(inst, previous, cars);
    forall i | 0 <= i < |rest| ensures f(rest[i]) == g(rest[i]) {
      assert rest[i] in rest;
    }
    SumBySame(f, g, rest);
  }

  lemma RestAndCar(inst: Instance, previous: Previous, cars: Cars, d: NodeId)
    requires d in cars
    ensures Running(inst, previous, cars)
         == SumBy(ChargeOf(inst, previous, cars), Sorted(cars.Keys - {d})) + CarCharge(inst, previous, cars[d])
  {
    hide Sorted, CarCharge, Running, SumBy;
    RunningIsCharges(inst, previous, cars);
    assert cars.Keys == (cars.Keys - {d}) + {d};
    SumBySorted(ChargeOf(inst, previous, cars), cars.Keys - {d}, d);
  }

  /** Changing or opening one car changes the total by that car's charge alone. */
  lemma OneCarChanges(inst: Instance, previous: Previous, cars: Cars, d: NodeId, c: Route)
    ensures Running(inst, previous, cars[d := c])
         == Running(inst, previous, cars) + CarCharge(inst, previous, c)
            - if d in cars then CarCharge(inst, previous, cars[d]) else 0.0
  {
    hide Sorted, CarCharge, Running, SumBy, ChargeOf;
    var after := cars[d := c];
    RestAndCar(inst, previous, after, d);
    RestUnchanged(inst, previous, cars, d, c);
    assert after.Keys - {d} == cars.Keys - {d};
    if d in cars {
      RestAndCar(inst, previous, cars, d);
    } else {
      RunningIsCharges(inst, previous, cars);
      assert cars.Keys - {d} == cars.Keys;
    }
  }

  lemma MovedWithRider(inst: Instance, previous: Previous, route: Route, c: Route, rider: NodeId)
    requires c.driver == route.driver && c.Passengers() == route.Passengers() + {rider}
    requires rider !in route.Passengers()
    ensures inst.weights.churn * |MovedAboard(previous, c)| as real
         == inst.weights.churn * |MovedAboard(previous, route)| as real
            + Moved(inst, previous, rider, route.driver)
  {
    var n := |MovedAboard(previous, route)|;
    if rider in previous && previous[rider] != route.driver {
      assert MovedAboard(previous, c) == MovedAboard(previous, route) + {rider};
      assert inst.weights.churn * (n + 1) as real == inst.weights.churn * n as real + inst.weights.churn;
    } else {
      assert MovedAboard(previous, c) == MovedAboard(previous, route);
    }
  }

  lemma NobodyAboard(inst: Instance, previous: Previous, d: NodeId)
    ensures CarCharge(inst, previous, EmptyCar(d)) == RouteCost(inst, EmptyCar(d)) + inst.weights.vehicle
  {
    hide RouteCost;
    var none := MovedAboard(previous, EmptyCar(d));
    assert forall p :: p in none <==> p in {};
    assert |none| == 0;
  }

  lemma RiderCharge(inst: Instance, previous: Previous, route: Route, c: Route, rider: NodeId)
    requires c.driver == route.driver && c.Passengers() == route.Passengers() + {rider}
    requires rider !in route.Passengers()
    ensures CarCharge(inst, previous, c) - CarCharge(inst, previous, route)
         == RouteCost(inst, c) - RouteCost(inst, route) + Moved(inst, previous, rider, route.driver)
  {
    hide RouteCost, MovedAboard;
    MovedWithRider(inst, previous, route, c, rider);
  }

  /** Taking a standing offer changes the total, churn included, by exactly its price. */
  lemma OfferIsTheChange(inst: Instance, previous: Previous, cars: Cars, unassigned: set<NodeId>,
                         rider: NodeId, o: Offer)
    requires Coherent(inst, cars) && IsRider(inst, rider) && !Placed(cars, rider)
    requires Holds(inst, previous, cars, rider, o)
    ensures Total(inst, previous, cars[o.driver := o.route], unassigned)
         == Total(inst, previous, cars, unassigned) + o.price
  {
    hide RouteCost, Running, Holds, Total, CarCharge, Feasible, Coherent, IsInsertion, BestInsertion;
    TotalIsRunning(inst, previous, cars, unassigned);
    TotalIsRunning(inst, previous, cars[o.driver := o.route], unassigned);
    OneCarChanges(inst, previous, cars, o.driver, o.route);
    OfferIsExact(inst, previous, cars, rider, o);
    if o.driver in cars {
      CarIsGood(inst, cars, o.driver);
      InsertionFacts(inst, o.driver, cars[o.driver], rider, o.route);
      OfferDriver(inst, cars, o);
      RiderCharge(inst, previous, cars[o.driver], o.route, rider);
    } else {
      SoloOffer(inst, previous, cars, rider, o);
      NobodyAboard(inst, previous, rider);
    }
  }

  lemma OfferDriver(inst: Instance, cars: Cars, o: Offer)
    requires Coherent(inst, cars) && o.driver in cars
    ensures cars[o.driver].driver == o.driver
  {
    assert GoodCar(inst, o.driver, cars[o.driver]);
  }

  lemma SoloOffer(inst: Instance, previous: Previous, cars: Cars, rider: NodeId, o: Offer)
    requires inst.Has(rider) && Holds(inst, previous, cars, rider, o) && o.driver !in cars
    ensures o.driver == rider && o.route == EmptyCar(rider)
  {
  }
}
