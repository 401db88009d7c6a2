/** Scoring a whole solution, and the running total the search keeps of the same thing. */
module Evaluation {
  import opened Models
  import opened Sorting
  import opened Objective
  import opened Fleet
  import opened Offers

  // ---- The objective -----------------------------------------------------------------------------

  function DriveSum(inst: Instance, routes: seq<Route>): int {
    var n := |routes|;
    if n == 0 then 0
    else
      var m := RouteMetrics(inst, routes[n - 1]);
      DriveSum(inst, routes[..n - 1]) + (m.outboundSeconds + m.inboundSeconds)
  }

  function RideSum(inst: Instance, routes: seq<Route>): int {
    var n := |routes|;
    if n == 0 then 0 else RideSum(inst, routes[..n - 1]) + RouteMetrics(inst, routes[n - 1]).rideSeconds
  }

  function DetourSum(inst: Instance, routes: seq<Route>): int {
    var n := |routes|;
    if n == 0 then 0 else DetourSum(inst, routes[..n - 1]) + RouteMetrics(inst, routes[n - 1]).detourSeconds
  }

  function UnassignedSum(inst: Instance, people: seq<NodeId>): int {
    var n := |people|;
    if n == 0 then 0
    else UnassignedSum(inst, people[..n - 1])
         + if inst.Has(people[n - 1]) then 1 + inst.index[people[n - 1]].priority else 0
  }

  function Carries(route: Route): Previous {
    map p | p in route.Passengers() :: route.driver
  }

  /** Each passenger's driver; a later route wins. */
  function DriverMap(routes: seq<Route>): map<NodeId, NodeId> {
    var n := |routes|;
    if n == 0 then map[]
    else DriverMap(routes[..n - 1]) + Carries(routes[n - 1])
  }

  /** People in both whose driver differs. */
  function Changed(before: Previous, after: Previous): set<NodeId> {
    set p | p in after && p in before && before[p] != after[p]
  }

  /** `churn`: people seated in both whose driver changed. */
  function Churn(previous: seq<Route>, current: seq<Route>): nat {
    |Changed(DriverMap(previous), DriverMap(current))|
  }

  function Combine(w: Weights, routing: real, vehicles: nat, unassigned: int, churn: nat): real {
    routing + w.vehicle * vehicles as real + w.unassigned * unassigned as real + w.churn * churn as real
  }

  datatype Breakdown = Breakdown(
    drive: int, vehicles: nat, ride: int, detour: int, unassigned: int, churn: nat, total: real)

  function Evaluate(inst: Instance, sol: Solution, previous: Option<Solution>): Breakdown {
    var w := inst.weights;
    var drive, ride, detour := DriveSum(inst, sol.routes), RideSum(inst, sol.routes), DetourSum(inst, sol.routes);
    var unassigned := UnassignedSum(inst, sol.unassigned);
    var disruption := if previous.Some? then Churn(previous.value.routes, sol.routes) else 0;
    Breakdown(drive, |sol.routes|, ride, detour, unassigned, disruption,
              Combine(w, Price(w, drive, ride, detour), |sol.routes|, unassigned, disruption))
  }

  // ---- What an answer is charged ---------------------------------------------------------------------

  /** Nothing costs nothing; one more car is charged for itself and for its seconds. */
  lemma OneCarMore(inst: Instance, routes: seq<Route>, people: seq<NodeId>, route: Route)
    ensures Evaluate(inst, Solution([], []), None).total == 0.0
    ensures Evaluate(inst, Solution(routes + [route], people), None).total
         == Evaluate(inst, Solution(routes, people), None).total + inst.weights.vehicle + RouteCost(inst, route)
  {
    hide RouteMetrics;
    var w, more := inst.weights, routes + [route];
    assert more[..|routes|] == routes;
    var m := RouteMetrics(inst, route);
    PriceAdds(w, DriveSum(inst, routes), RideSum(inst, routes), DetourSum(inst, routes),
              m.outboundSeconds + m.inboundSeconds, m.rideSeconds, m.detourSeconds);
    assert w.vehicle * |more| as real == w.vehicle * |routes| as real + w.vehicle;
  }

  /** Whoever is left out is charged for once, and once more for every point of their priority. */
  lemma OneMoreLeftOut(inst: Instance, routes: seq<Route>, people: seq<NodeId>, p: NodeId)
    requires inst.Has(p)
    ensures Evaluate(inst, Solution(routes, people + [p]), None).total
         == Evaluate(inst, Solution(routes, people), None).total
            + inst.weights.unassigned * (1 + inst.index[p].priority) as real
  {
    hide RouteMetrics, Price;
    assert (people + [p])[..|people|] == people;
  }

  /** Somebody rides in both answers, with different drivers. */
  ghost predicate Parted(before: seq<Route>, after: seq<Route>, p: NodeId) {
    exists i, j :: PartedIn(before, after, p, i, j)
  }

  ghost predicate PartedIn(before: seq<Route>, after: seq<Route>, p: NodeId, i: int, j: int) {
    && 0 <= i < |before| && 0 <= j < |after| && before[i].driver != after[j].driver
    && p in before[i].Passengers() && p in after[j].Passengers()
  }

  lemma {:induction false} DriverMapAt(routes: seq<Route>, i: nat, p: NodeId)
    requires Disjoint(routes) && i < |routes| && p in routes[i].Passengers()
    ensures p in DriverMap(routes) && DriverMap(routes)[p] == routes[i].driver
  {
    var n := |routes| - 1;
    if i < n {
      assert routes[..n][i] == routes[i];
      DriverMapAt(routes[..n], i, p);
    }
  }

  lemma PartedIsChanged(before: seq<Route>, after: seq<Route>, p: NodeId)
    requires Disjoint(before) && Disjoint(after)
    ensures Parted(before, after, p) <==> p in Changed(DriverMap(before), DriverMap(after))
  {
    DriverMapKeys(before);
    DriverMapKeys(after);
    hide DriverMap, Disjoint;
    forall i | 0 <= i < |before| && p in before[i].Passengers() ensures DriverMap(before)[p] == before[i].driver {
      DriverMapAt(before, i, p);
    }
    forall j | 0 <= j < |after| && p in after[j].Passengers() ensures DriverMap(after)[p] == after[j].driver {
      DriverMapAt(after, j, p);
    }
    if p in Changed(DriverMap(before), DriverMap(after)) {
      var i :| 0 <= i < |before| && p in before[i].Passengers();
      var j :| 0 <= j < |after| && p in after[j].Passengers();
      assert PartedIn(before, after, p, i, j);
    }
  }

  lemma ChurnIsCharged(inst: Instance, sol: Solution, previous: Solution)
    ensures Evaluate(inst, sol, Some(previous)).total
         == Evaluate(inst, sol, None).total
            + inst.weights.churn * |Changed(DriverMap(previous.routes), DriverMap(sol.routes))| as real
  {
    hide DriverMap, Changed, Price, DriveSum, RideSum, DetourSum, UnassignedSum;
  }

  /** Against an earlier answer, everyone riding in both but with another driver is charged for, and nobody else. */
  lemma PartingIsCharged(inst: Instance, sol: Solution, previous: Solution, moved: set<NodeId>)
    requires Disjoint(previous.routes) && Disjoint(sol.routes)
    requires forall p :: p in moved <==> Parted(previous.routes, sol.routes, p)
    ensures Evaluate(inst, sol, Some(previous)).total
         == Evaluate(inst, sol, None).total + inst.weights.churn * |moved| as real
  {
    hide DriverMap, Parted, Changed, Disjoint, Evaluate;
    ChurnIsCharged(inst, sol, previous);
    forall p ensures p in moved <==> p in Changed(DriverMap(previous.routes), DriverMap(sol.routes)) {
      PartedIsChanged(previous.routes, sol.routes, p);
    }
    assert moved == Changed(DriverMap(previous.routes), DriverMap(sol.routes));
  }

  // ---- The search's own total ----------------------------------------------------------------------

  function InOrder(cars: Cars, drivers: seq<NodeId>): (r: seq<Route>)
    requires forall i :: 0 <= i < |drivers| ==> drivers[i] in cars
    ensures |r| == |drivers|
  {
    seq(|drivers|, i requires 0 <= i < |drivers| => cars[drivers[i]])
  }

  function CarsInOrder(cars: Cars): (r: seq<Route>)
    ensures |r| == |cars|
  {
    var drivers := Sorted(cars.Keys);
    assert |cars| == |cars.Keys|;
    assert forall i :: 0 <= i < |drivers| ==> drivers[i] in drivers;
    InOrder(cars, drivers)
  }

  /** The answer a state stands for: cars by driver id, the left-out by id. */
  function ToSolution(cars: Cars, unassigned: set<NodeId>): Solution {
    Solution(CarsInOrder(cars), Sorted(unassigned))
  }

  function CostSum(inst: Instance, routes: seq<Route>): real {
    var n := |routes|;
    if n == 0 then 0.0 else CostSum(inst, routes[..n - 1]) + RouteCost(inst, routes[n - 1])
  }

  /** Riders aboard who had another driver before. */
  function MovedAboard(previous: Previous, route: Route): set<NodeId> {
    set p | p in route.Passengers() && p in previous && previous[p] != route.driver
  }

  function MovedSum(previous: Previous, routes: seq<Route>): nat {
    var n := |routes|;
    if n == 0 then 0 else MovedSum(previous, routes[..n - 1]) + |MovedAboard(previous, routes[n - 1])|
  }

  function Total(inst: Instance, previous: Previous, cars: Cars, unassigned: set<NodeId>): real {
    Combine(inst.weights, CostSum(inst, CarsInOrder(cars)), |cars|, UnassignedSum(inst, Sorted(unassigned)),
            MovedSum(previous, CarsInOrder(cars)))
  }

  /** What churn is counted against; nothing when it is not priced. */
  function PreviousDrivers(inst: Instance, previous: Option<Solution>): Previous {
    if previous.Some? && inst.weights.churn != 0.0 then DriverMap(previous.value.routes) else map[]
  }

  // ---- They agree ------------------------------------------------------------------------------------

  lemma PriceAdds(w: Weights, a: int, b: int, c: int, x: int, y: int, z: int)
    ensures Price(w, a + x, b + y, c + z) == Price(w, a, b, c) + Price(w, x, y, z)
  {
  }

  lemma CostSumStep(inst: Instance, routes: seq<Route>, front: seq<Route>)
    requires |routes| > 0 && front == routes[..|routes| - 1]
    requires CostSum(inst, front)
          == Price(inst.weights, DriveSum(inst, front), RideSum(inst, front), DetourSum(inst, front))
    ensures CostSum(inst, routes)
         == Price(inst.weights, DriveSum(inst, routes), RideSum(inst, routes), DetourSum(inst, routes))
  {
    hide Price, RouteMetrics;
    var m := RouteMetrics(inst, routes[|routes| - 1]);
    PriceAdds(inst.weights, DriveSum(inst, front), RideSum(inst, front), DetourSum(inst, front),
              m.outboundSeconds + m.inboundSeconds, m.rideSeconds, m.detourSeconds);
  }

  lemma {:induction false} CostSumIsPrice(inst: Instance, routes: seq<Route>)
    ensures CostSum(inst, routes)
         == Price(inst.weights, DriveSum(inst, routes), RideSum(inst, routes), DetourSum(inst, routes))
  {
    hide RouteMetrics, RouteCost;
    if routes == [] {
      assert Price(inst.weights, 0, 0, 0) == 0.0;
    } else {
      CostSumIsPrice(inst, routes[..|routes| - 1]);
      CostSumStep(inst, routes, routes[..|routes| - 1]);
    }
  }

  ghost predicate Disjoint(routes: seq<Route>) {
    forall i, j, p :: 0 <= i < j < |routes| && p in routes[i].Passengers() ==> p !in routes[j].Passengers()
  }

  lemma {:induction false} DriverMapKeys(routes: seq<Route>)
    ensures forall p :: p in DriverMap(routes) <==> exists i :: 0 <= i < |routes| && p in routes[i].Passengers()
  {
    var n := |routes|;
    if n > 0 {
      DriverMapKeys(routes[..n - 1]);
      forall p ensures p in DriverMap(routes) <==> exists i :: 0 <= i < |routes| && p in routes[i].Passengers() {
        if p in DriverMap(routes[..n - 1]) {
          var i :| 0 <= i < n - 1 && p in routes[..n - 1][i].Passengers();
          assert p in routes[i].Passengers();
        }
        if i :| 0 <= i < |routes| && p in routes[i].Passengers() {
          if i < n - 1 {
            assert p in routes[..n - 1][i].Passengers();
          }
        }
      }
    }
  }

  /** With nobody in two cars, summing over cars counts each moved rider once. */
  lemma {:induction false} MovedSumIsChurn(previous: Previous, routes: seq<Route>)
    requires Disjoint(routes)
    ensures MovedSum(previous, routes) == |Changed(previous, DriverMap(routes))|
  {
    var n := |routes|;
    if n == 0 {
      assert forall p :: p in Changed(previous, DriverMap(routes)) <==> p in {};
    } else {
      var front, last := routes[..n - 1], routes[n - 1];
      MovedSumIsChurn(previous, front);
      DriverMapKeys(front);
      hide DriverMap;
      LastCarChanges(previous, routes, front);
    }
  }

  lemma LastCarChanges(previous: Previous, routes: seq<Route>, front: seq<Route>)
    requires |routes| > 0 && front == routes[..|routes| - 1] && Disjoint(routes)
    ensures Changed(previous, DriverMap(routes))
         == Changed(previous, DriverMap(front)) + MovedAboard(previous, routes[|routes| - 1])
    ensures Changed(previous, DriverMap(front)) !! MovedAboard(previous, routes[|routes| - 1])
  {
    var n := |routes|;
    DriverMapKeys(front);
    forall p | p in DriverMap(front) ensures p !in routes[n - 1].Passengers() {
      var i :| 0 <= i < |front| && p in front[i].Passengers();
      assert p in routes[i].Passengers();
    }
    assert DriverMap(routes) == DriverMap(front) + Carries(routes[n - 1]);
    hide DriverMap;
    assert forall p :: p in Changed(previous, DriverMap(routes)) <==>
      p in Changed(previous, DriverMap(front)) + MovedAboard(previous, routes[n - 1]);
  }

  lemma CarsAreDisjoint(inst: Instance, cars: Cars)
    requires Coherent(inst, cars)
    ensures Disjoint(CarsInOrder(cars))
    ensures forall i :: 0 <= i < |cars| ==> CarsInOrder(cars)[i].driver in cars
                                            && cars[CarsInOrder(cars)[i].driver] == CarsInOrder(cars)[i]
  {
    hide GoodCar;
    var drivers, routes := Sorted(cars.Keys), CarsInOrder(cars);
    forall i | 0 <= i < |cars|
      ensures drivers[i] in cars && routes[i] == cars[drivers[i]] && routes[i].driver == drivers[i]
    {
      assert drivers[i] in drivers;
      assert GoodCar(inst, drivers[i], cars[drivers[i]]);
      DriverOfGood(inst, drivers[i], cars[drivers[i]]);
    }
    forall i, j, p | 0 <= i < j < |routes| && p in routes[i].Passengers() ensures p !in routes[j].Passengers() {
      assert drivers[i] != drivers[j];
    }
  }

  lemma DriverOfGood(inst: Instance, d: NodeId, route: Route)
    requires GoodCar(inst, d, route)
    ensures route.driver == d
  {
  }

  lemma NothingMoved(routes: seq<Route>)
    ensures MovedSum(map[], routes) == 0
  {
    if routes != [] {
      NothingMoved(routes[..|routes| - 1]);
      var none := MovedAboard(map[], routes[|routes| - 1]);
      assert forall p :: p in none <==> p in {};
    }
  }

  lemma FreeChurn(w: Weights, routing: real, vehicles: nat, unassigned: int, a: nat, b: nat)
    requires w.churn == 0.0
    ensures Combine(w, routing, vehicles, unassigned, a) == Combine(w, routing, vehicles, unassigned, b)
  {
  }

  /** On every coherent state the search's total is the objective's, churn included. */
  lemma TotalIsEvaluate(inst: Instance, previous: Option<Solution>, cars: Cars, unassigned: set<NodeId>)
    requires Coherent(inst, cars)
    ensures Total(inst, PreviousDrivers(inst, previous), cars, unassigned)
         == Evaluate(inst, ToSolution(cars, unassigned), previous).total
  {
    hide Price, Sorted, CarsInOrder, Combine, CostSum, DriveSum, RideSum, DetourSum, MovedSum, UnassignedSum,
         DriverMap, Coherent;
    var routes := CarsInOrder(cars);
    CarsAreDisjoint(inst, cars);
    CostSumIsPrice(inst, routes);
    if previous.Some? && inst.weights.churn != 0.0 {
      MovedSumIsChurn(DriverMap(previous.value.routes), routes);
      assert Churn(previous.value.routes, routes)
          == |Changed(DriverMap(previous.value.routes), DriverMap(routes))|;
    } else {
      NothingMoved(routes);
      if previous.Some? {
        FreeChurn(inst.weights, CostSum(inst, routes), |routes|, UnassignedSum(inst, Sorted(unassigned)),
                  Churn(previous.value.routes, routes), 0);
      }
    }
  }
}
