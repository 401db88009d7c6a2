/** A finished answer as the search holds it: cars by driver, and why its price does not depend on any order. */
module Answers {
  import opened Models
  import opened Sorting
  import opened Objective
  import opened Fleet
  import opened Offers
  import opened Seating
  import opened Evaluation
  import opened Outcome
  import opened Accounting

  /** The cars of an answer by driver. */
  function CarsOf(routes: seq<Route>): Cars {
    var n := |routes|;
    if n == 0 then map[] else CarsOf(routes[..n - 1])[routes[n - 1].driver := routes[n - 1]]
  }

  function Drivers(routes: seq<Route>): (r: seq<NodeId>)
    ensures |r| == |routes| && forall i :: 0 <= i < |r| ==> r[i] == routes[i].driver
  {
    seq(|routes|, i requires 0 <= i < |routes| => routes[i].driver)
  }

  /** An answer the search can start from: every rule kept, in any order. */
  ghost predicate Startable(inst: Instance, sol: Solution) {
    && Distinct(Drivers(sol.routes)) && Distinct(sol.unassigned)
    && WellFormed(inst, CarsOf(sol.routes), Elements(sol.unassigned))
  }

  lemma {:induction false} CarsOfAll(routes: seq<Route>)
    requires Distinct(Drivers(routes))
    ensures forall i :: 0 <= i < |routes| ==>
      routes[i].driver in CarsOf(routes) && CarsOf(routes)[routes[i].driver] == routes[i]
    ensures forall d :: d in CarsOf(routes) <==> d in Drivers(routes)
  {
    var n := |routes|;
    if n > 0 {
      var front, drivers := routes[..n - 1], Drivers(routes);
      assert Drivers(front) == drivers[..n - 1];
      hide Distinct, Drivers;
      CarsOfAll(front);
      forall i | 0 <= i < n - 1
        ensures routes[i].driver in CarsOf(routes) && CarsOf(routes)[routes[i].driver] == routes[i]
      {
        assert front[i] == routes[i] && drivers[..n - 1][i] in drivers[..n - 1];
      }
    }
  }

  /** Listing a state's cars in order and reading them back gives the same state. */
  lemma CarsOfInOrder(inst: Instance, cars: Cars)
    requires Coherent(inst, cars)
    ensures CarsOf(CarsInOrder(cars)) == cars && Distinct(Drivers(CarsInOrder(cars)))
  {
    hide CarsInOrder, Coherent, CarsOf;
    var routes := CarsInOrder(cars);
    CarsAreDisjoint(inst, cars);
    forall i, j | 0 <= i < j < |routes| ensures Drivers(routes)[i] != Drivers(routes)[j] {
      DriversDiffer(inst, cars, i, j);
    }
    CarsOfAll(routes);
    forall d ensures d in CarsOf(routes) <==> d in cars {
      if d in cars {
        var i := PlaceOf(inst, cars, d);
        assert Drivers(routes)[i] == d;
      }
    }
    forall d | d in cars ensures CarsOf(routes)[d] == cars[d] {
      var i := PlaceOf(inst, cars, d);
      assert routes[i].driver == d;
    }
  }

  // ---- Prices in any order -----------------------------------------------------------------------

  ghost function PenaltyOf(inst: Instance): NodeId -> real {
    p => if inst.Has(p) then (1 + inst.index[p].priority) as real else 0.0
  }

  lemma {:induction false} UnassignedIsSum(inst: Instance, people: seq<NodeId>)
    ensures UnassignedSum(inst, people) as real == SumBy(PenaltyOf(inst), people)
  {
    if people != [] {
      UnassignedIsSum(inst, people[..|people| - 1]);
    }
  }

  lemma UnassignedOrder(inst: Instance, people: seq<NodeId>)
    requires Distinct(people)
    ensures UnassignedSum(inst, people) as real == UnassignedSum(inst, Sorted(Elements(people))) as real
  {
    hide UnassignedSum, SumBy, PenaltyOf, Sorted;
    UnassignedIsSum(inst, people);
    UnassignedIsSum(inst, Sorted(Elements(people)));
    SumByOrder(PenaltyOf(inst), people, Sorted(Elements(people)));
  }

  lemma RoutesOrder(inst: Instance, previous: Previous, routes: seq<Route>)
    requires Distinct(Drivers(routes))
    ensures OrderedTotal(inst, previous, routes) == Running(inst, previous, CarsOf(routes))
  {
    hide OrderedTotal, Running, SumBy, ChargeOf, Sorted, CarsOf, Distinct;
    var cars, drivers := CarsOf(routes), Drivers(routes);
    CarsOfAll(routes);
    forall i | 0 <= i < |drivers| ensures drivers[i] in cars && cars[drivers[i]] == routes[i] {
      assert routes[i].driver in cars;
    }
    assert InOrder(cars, drivers) == routes;
    ChargesAreTotal(inst, previous, cars, drivers);
    RunningIsCharges(inst, previous, cars);
    SumByOrder(ChargeOf(inst, previous, cars), drivers, Sorted(cars.Keys));
  }

  lemma SplitPenalty(w: Weights, routing: real, vehicles: nat, unassigned: int, moved: nat)
    ensures Combine(w, routing, vehicles, unassigned, moved)
         == Combine(w, routing, vehicles, 0, moved) + w.unassigned * unassigned as real
  {
  }

  lemma StartIsDisjoint(inst: Instance, routes: seq<Route>)
    requires Distinct(Drivers(routes)) && Coherent(inst, CarsOf(routes))
    ensures Disjoint(routes)
  {
    hide CarsOf, GoodCar;
    CarsOfAll(routes);
    forall i, j, p | 0 <= i < j < |routes| && p in routes[i].Passengers() ensures p !in routes[j].Passengers() {
      assert Drivers(routes)[i] != Drivers(routes)[j];
    }
  }

  /** The churn the objective counts is what the search sums, on any order of disjoint cars. */
  lemma ChurnIsMoved(inst: Instance, previous: Option<Solution>, routes: seq<Route>, routing: real, n: nat, u: int)
    requires Disjoint(routes)
    ensures Combine(inst.weights, routing, n, u, if previous.Some? then Churn(previous.value.routes, routes) else 0)
         == Combine(inst.weights, routing, n, u, MovedSum(PreviousDrivers(inst, previous), routes))
  {
    hide Disjoint, DriverMap, MovedSum, Combine;
    if previous.Some? && inst.weights.churn != 0.0 {
      MovedSumIsChurn(DriverMap(previous.value.routes), routes);
    } else {
      NothingMoved(routes);
      if previous.Some? {
        FreeChurn(inst.weights, routing, n, u, Churn(previous.value.routes, routes), 0);
      }
    }
  }

  /** What the objective charges for an answer, listed in any order, is the search's total for its cars. */
  lemma EvaluateIsTotal(inst: Instance, previous: Option<Solution>, sol: Solution)
    requires Startable(inst, sol)
    ensures Evaluate(inst, sol, previous).total
         == Total(inst, PreviousDrivers(inst, previous), CarsOf(sol.routes), Elements(sol.unassigned))
  {
    hide Price, Sorted, CarsOf, Combine, CostSum, DriveSum, RideSum, DetourSum, MovedSum, UnassignedSum, Churn,
         Coherent, Distinct, Elements, Running, Total, PreviousDrivers, Settled, AllFeasible;
    var before := PreviousDrivers(inst, previous);
    StartIsDisjoint(inst, sol.routes);
    CostSumIsPrice(inst, sol.routes);
    var u := UnassignedSum(inst, sol.unassigned);
    ChurnIsMoved(inst, previous, sol.routes, CostSum(inst, sol.routes), |sol.routes|, u);
    SplitPenalty(inst.weights, CostSum(inst, sol.routes), |sol.routes|, u, MovedSum(before, sol.routes));
    RoutesOrder(inst, before, sol.routes);
    UnassignedOrder(inst, sol.unassigned);
    TotalIsRunning(inst, before, CarsOf(sol.routes), Elements(sol.unassigned));
  }

  /** A well-formed state, listed in order, is an answer the search could start from again. */
  lemma ListedIsStartable(inst: Instance, cars: Cars, left: seq<NodeId>)
    requires WellFormed(inst, cars, Elements(left)) && Distinct(left)
    ensures Startable(inst, Solution(CarsInOrder(cars), left)) && CarsOf(CarsInOrder(cars)) == cars
  {
    hide CarsOf, CarsInOrder, AllFeasible, Settled, Distinct, Coherent;
    CarsOfInOrder(inst, cars);
  }
}
