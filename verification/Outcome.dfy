/** A finished state, and why the answer it stands for passes the independent checker. */
module Outcome {
  import opened Models
  import opened Sorting
  import opened Feasibility
  import opened Validation
  import opened Sequence
  import opened Fleet
  import opened Evaluation

  /** Every car is legal, every committed driver has one, everyone travelling is placed or listed as left out. */
  ghost predicate WellFormed(inst: Instance, cars: Cars, unassigned: set<NodeId>) {
    && Coherent(inst, cars)
    && AllFeasible(inst, cars)
    && Settled(inst, cars, unassigned, {})
  }

  /** A rider; or a flexible participant who takes neither leg, was driving, and is pinned to somebody. */
  ghost predicate Listable(inst: Instance, p: NodeId) {
    IsRider(inst, p)
    || (&& inst.Has(p) && inst.index[p].role.Either?
        && !inst.index[p].NeedsTransport() && inst.index[p].pinnedDriver.Some?)
  }

  /** Nobody is in two places, and only the people in `pending` are nowhere. */
  ghost predicate Settled(inst: Instance, cars: Cars, unassigned: set<NodeId>, pending: set<NodeId>) {
    && (forall p :: p in unassigned ==> Listable(inst, p) && Away(inst, cars, p))
    && (forall p :: p in pending ==> IsRider(inst, p) && !Placed(cars, p) && p !in unassigned)
    && (forall p :: inst.Has(p) && inst.index[p].role.Driver? ==> p in cars)
    && (forall p :: IsRider(inst, p) ==> Placed(cars, p) || p in unassigned || p in pending)
  }

  /** Nobody has to arrive before the event takes arrivals at all. */
  ghost predicate NobodyLate(inst: Instance) {
    forall v :: !LateViolation(inst, v)
  }

  ghost predicate Aboard(route: Route, id: NodeId) {
    id == route.driver || id in route.Passengers()
  }

  ghost predicate Single(route: Route) {
    Distinct(route.outbound) && Distinct(route.inbound) && route.driver !in route.Passengers()
  }

  lemma {:induction false} DistinctCount(s: seq<NodeId>, x: NodeId)
    requires Distinct(s)
    ensures multiset(s)[x] == if x in s then 1 else 0
  {
    if s != [] {
      var front, last := s[..|s| - 1], s[|s| - 1];
      DistinctCount(front, x);
      assert s == front + [last];
    }
  }

  lemma SingleAppearance(route: Route, id: NodeId)
    requires Single(route)
    ensures Appearances(route, id) == if Aboard(route, id) then 1 else 0
  {
    DistinctCount(route.outbound, id);
    DistinctCount(route.inbound, id);
    hide Distinct;
  }

  /** Nobody is aboard two of the routes. */
  ghost predicate Separate(routes: seq<Route>) {
    && (forall i :: 0 <= i < |routes| ==> Single(routes[i]))
    && (forall i, j, id :: 0 <= i < j < |routes| && Aboard(routes[i], id) ==> !Aboard(routes[j], id))
  }

  ghost predicate Carried(routes: seq<Route>, id: NodeId) {
    exists i :: 0 <= i < |routes| && Aboard(routes[i], id)
  }

  lemma {:induction false} SeparateCount(routes: seq<Route>, id: NodeId)
    requires Separate(routes)
    ensures RouteCount(routes, id) == if Carried(routes, id) then 1 else 0
  {
    hide Single, Aboard, Appearances;
    if routes != [] {
      var front, last := routes[..|routes| - 1], routes[|routes| - 1];
      SeparateCount(front, id);
      SingleAppearance(last, id);
      if Carried(front, id) {
        var i :| 0 <= i < |front| && Aboard(front[i], id);
        assert Aboard(routes[i], id);
      }
    }
  }

  lemma CarsAreSeparate(inst: Instance, cars: Cars)
    requires Coherent(inst, cars) && Apart(cars)
    ensures Separate(CarsInOrder(cars))
    ensures forall id :: Carried(CarsInOrder(cars), id) <==> Placed(cars, id)
  {
    hide CarsInOrder, Coherent, Apart, Single, Aboard;
    CarsAreDisjoint(inst, cars);
    var routes := CarsInOrder(cars);
    forall i | 0 <= i < |routes| ensures Single(routes[i]) {
      GoodIsSingle(inst, cars, routes[i].driver);
    }
    forall i, j, id | 0 <= i < j < |routes| && Aboard(routes[i], id) ensures !Aboard(routes[j], id) {
      DriversDiffer(inst, cars, i, j);
      AboardOnce(inst, cars, routes[i].driver, routes[j].driver, id);
    }
    forall id ensures Carried(routes, id) <==> Placed(cars, id) {
      if Placed(cars, id) {
        var d := CarHolding(inst, cars, id);
        var i := PlaceOf(inst, cars, d);
        assert Aboard(routes[i], id);
      }
      if i :| 0 <= i < |routes| && Aboard(routes[i], id) {
        AboardIsPlaced(cars, routes[i].driver, id);
      }
    }
  }

  lemma GoodIsSingle(inst: Instance, cars: Cars, d: NodeId)
    requires Coherent(inst, cars) && d in cars
    ensures Single(cars[d])
  {
    assert GoodCar(inst, d, cars[d]);
  }

  lemma AboardOnce(inst: Instance, cars: Cars, d: NodeId, e: NodeId, id: NodeId)
    requires Coherent(inst, cars) && Apart(cars) && d in cars && e in cars && d != e && Aboard(cars[d], id)
    ensures !Aboard(cars[e], id)
  {
    assert GoodCar(inst, d, cars[d]) && GoodCar(inst, e, cars[e]);
    hide GoodCar;
  }

  lemma CarHolding(inst: Instance, cars: Cars, id: NodeId) returns (d: NodeId)
    requires Coherent(inst, cars) && Placed(cars, id)
    ensures d in cars && Aboard(cars[d], id)
  {
    d :| d in cars && (id == d || id in cars[d].Passengers());
    assert GoodCar(inst, d, cars[d]);
  }

  lemma AboardIsPlaced(cars: Cars, d: NodeId, id: NodeId)
    requires d in cars && cars[d].driver == d && Aboard(cars[d], id)
    ensures Placed(cars, id)
  {
  }

  lemma PlaceOf(inst: Instance, cars: Cars, d: NodeId) returns (i: nat)
    requires Coherent(inst, cars) && d in cars
    ensures i < |cars| && CarsInOrder(cars)[i] == cars[d] && cars[d].driver == d
  {
    assert GoodCar(inst, d, cars[d]);
    var drivers := Sorted(cars.Keys);
    assert d in drivers;
    i :| 0 <= i < |drivers| && drivers[i] == d;
  }

  lemma DriversDiffer(inst: Instance, cars: Cars, i: nat, j: nat)
    requires Coherent(inst, cars) && i < j < |cars|
    ensures CarsInOrder(cars)[i].driver != CarsInOrder(cars)[j].driver
  {
    CarsAreDisjoint(inst, cars);
    var drivers := Sorted(cars.Keys);
    assert drivers[i] in drivers && drivers[j] in drivers;
    assert GoodCar(inst, drivers[i], cars[drivers[i]]) && GoodCar(inst, drivers[j], cars[drivers[j]]);
  }

  lemma AssignedIs(inst: Instance, cars: Cars, left: seq<NodeId>, id: NodeId)
    requires Coherent(inst, cars) && Apart(cars) && Distinct(left)
    ensures Assigned(Solution(CarsInOrder(cars), left), id)
         == (if Placed(cars, id) then 1 else 0) + (if id in left then 1 else 0)
  {
    hide CarsInOrder, Coherent;
    CarsAreSeparate(inst, cars);
    SeparateCount(CarsInOrder(cars), id);
    DistinctCount(left, id);
  }

  lemma CarIsLegal(inst: Instance, cars: Cars, d: NodeId)
    requires Coherent(inst, cars) && AllFeasible(inst, cars) && d in cars
    ensures Feasible(inst, cars[d]) && LegsRight(inst, cars[d])
  {
    hide Feasible, Distinct;
    assert GoodCar(inst, d, cars[d]);
  }

  lemma ListedIsLegal(inst: Instance, cars: Cars)
    requires Coherent(inst, cars) && AllFeasible(inst, cars)
    ensures forall i :: 0 <= i < |CarsInOrder(cars)| ==>
      Feasible(inst, CarsInOrder(cars)[i]) && LegsRight(inst, CarsInOrder(cars)[i])
  {
    hide CarsInOrder, Feasible, LegsRight, Coherent, AllFeasible;
    CarsAreDisjoint(inst, cars);
    var routes := CarsInOrder(cars);
    forall i | 0 <= i < |routes| ensures Feasible(inst, routes[i]) && LegsRight(inst, routes[i]) {
      CarIsLegal(inst, cars, routes[i].driver);
    }
  }

  lemma EveryoneOnce(inst: Instance, cars: Cars, left: seq<NodeId>, id: NodeId)
    requires Coherent(inst, cars) && AllFeasible(inst, cars)
    requires Settled(inst, cars, set p | p in left, {}) && Distinct(left)
    ensures var n := Assigned(Solution(CarsInOrder(cars), left), id);
      && n <= 1 && (n == 1 ==> inst.Has(id))
      && (inst.Has(id) && inst.index[id].NeedsTransport() ==> n == 1)
  {
    hide CarsInOrder, Assigned, Coherent, AllFeasible, Distinct, Placed, Away, Apart;
    FeasibleIsApart(inst, cars);
    AssignedIs(inst, cars, left, id);
    var leftSet := set p | p in left;
    assert id in left <==> id in leftSet;
    if id in left {
      AwayIsUnplaced(inst, cars, id);
    } else if Placed(cars, id) {
      PlacedIsKnown(inst, cars, id);
    } else {
      DriversPlaced(inst, cars, leftSet, id);
    }
  }

  lemma DriversPlaced(inst: Instance, cars: Cars, left: set<NodeId>, id: NodeId)
    requires Settled(inst, cars, left, {}) && !Placed(cars, id) && id !in left
    ensures !(inst.Has(id) && inst.index[id].NeedsTransport())
  {
  }

  lemma PlacedIsKnown(inst: Instance, cars: Cars, id: NodeId)
    requires Coherent(inst, cars) && Placed(cars, id)
    ensures inst.Has(id)
  {
    if id in cars {
      assert GoodCar(inst, id, cars[id]);
    } else {
      var d :| d in cars && id in cars[d].Passengers();
      assert GoodCar(inst, d, cars[d]);
    }
  }

  /** A finished state passes `validate`: nothing it stands for breaks any rule. */
  lemma WellFormedIsClean(inst: Instance, cars: Cars, left: seq<NodeId>)
    requires WellFormed(inst, cars, set p | p in left) && Distinct(left) && NobodyLate(inst)
    ensures Clean(inst, Solution(CarsInOrder(cars), left))
  {
    hide CarsInOrder, Feasible, Assigned, LegsRight, Distinct, Coherent, Settled, LateViolation;
    ListedIsLegal(inst, cars);
    forall id
      ensures var n := Assigned(Solution(CarsInOrder(cars), left), id);
        && n <= 1 && (n == 1 ==> inst.Has(id))
        && (inst.Has(id) && inst.index[id].NeedsTransport() ==> n == 1)
    {
      EveryoneOnce(inst, cars, left, id);
    }
  }

  // ---- Reordering the stops of a car -------------------------------------------------------------

  lemma SameMembers(a: seq<NodeId>, b: seq<NodeId>)
    requires multiset(a) == multiset(b)
    ensures forall x :: x in a <==> x in b
    ensures Distinct(a) ==> Distinct(b)
  {
    forall x ensures x in a <==> x in b {
      assert x in multiset(a) <==> x in multiset(b);
    }
    if Distinct(a) {
      DistinctIsMultiset(a, b);
    }
  }

  lemma ResequencedIsGood(inst: Instance, d: NodeId, route: Route, r: Route)
    requires GoodCar(inst, d, route) && IsResequenced(inst, route, r)
    ensures GoodCar(inst, d, r) && r.Passengers() == route.Passengers()
  {
    SameMembers(route.outbound, r.outbound);
    SameMembers(route.inbound, r.inbound);
    assert forall p :: p in r.Passengers() <==> p in route.Passengers();
  }

  // ---- What an empty report does and does not say about seats --------------------------------------------

  lemma AboardAppears(route: Route, id: NodeId)
    requires Aboard(route, id)
    ensures Appearances(route, id) >= 1
  {
    assert id in route.outbound ==> id in multiset(route.outbound);
    assert id in route.inbound ==> id in multiset(route.inbound);
  }

  lemma {:induction false} CountedTwice(routes: seq<Route>, i: nat, j: nat, id: NodeId)
    requires i < j < |routes|
    ensures RouteCount(routes, id) >= Appearances(routes[i], id) + Appearances(routes[j], id)
  {
    hide Appearances;
    var n := |routes| - 1;
    if j < n {
      CountedTwice(routes[..n], i, j, id);
    } else {
      RouteIsAssigned(routes[..n], i, id);
    }
  }

  lemma {:induction false} OnceIsDistinct(s: seq<NodeId>)
    requires forall x :: multiset(s)[x] <= 1
    ensures Distinct(s)
  {
    if s != [] {
      var front, last := s[..|s| - 1], s[|s| - 1];
      assert s == front + [last];
      forall x ensures multiset(front)[x] <= 1 {
        assert multiset(s)[x] == multiset(front)[x] + multiset([last])[x];
      }
      OnceIsDistinct(front);
      assert multiset(s)[last] == multiset(front)[last] + 1;
      assert last !in multiset(front);
      assert forall i :: 0 <= i < |front| ==> front[i] in multiset(front);
    }
  }

  lemma OnceIsSingle(route: Route)
    requires forall x :: Appearances(route, x) <= 1
    ensures Single(route) <==> Distinct(route.inbound)
  {
    forall x ensures multiset(route.outbound)[x] <= 1 {
      assert Appearances(route, x) <= 1;
    }
    OnceIsDistinct(route.outbound);
    hide Distinct;
    var d := route.driver;
    assert Appearances(route, d) <= 1;
    assert d in route.outbound ==> d in multiset(route.outbound);
    assert d in route.inbound ==> d in multiset(route.inbound);
  }

  /** An answer the checker passes has nobody in two places exactly when no car drops anyone off twice. */
  lemma CleanIsSeparateExactly(inst: Instance, sol: Solution)
    requires Clean(inst, sol)
    ensures Separate(sol.routes) <==> forall i :: 0 <= i < |sol.routes| ==> Distinct(sol.routes[i].inbound)
  {
    hide Feasible, LegsRight, Single, Aboard, Appearances, Distinct, LateViolation;
    var routes := sol.routes;
    forall i | 0 <= i < |routes| ensures Single(routes[i]) <==> Distinct(routes[i].inbound) {
      forall x ensures Appearances(routes[i], x) <= 1 {
        RouteIsAssigned(routes, i, x);
        assert Assigned(sol, x) <= 1;
      }
      OnceIsSingle(routes[i]);
    }
    forall i, j, id | 0 <= i < j < |routes| && Aboard(routes[i], id) ensures !Aboard(routes[j], id) {
      CountedTwice(routes, i, j, id);
      assert Assigned(sol, id) <= 1;
      AboardAppears(routes[i], id);
      if Aboard(routes[j], id) {
        AboardAppears(routes[j], id);
      }
    }
  }
}
