/** Starting the search from an earlier answer, repaired to fit the event as it is now. */
module Warm {
  import opened Models
  import opened Feasibility
  import opened Sequence
  import opened Fleet
  import opened Search
  import opened Seating
  import opened Outcome
  import opened Moves

  /** Everyone who gets a car: earlier drivers who can still drive, and the committed. */
  function WarmDrivers(inst: Instance, previous: seq<Route>): set<NodeId> {
    (set i | 0 <= i < |previous| && previous[i].driver in inst.index && inst.index[previous[i].driver].role.CanDrive()
       :: previous[i].driver)
    + (set d | d in inst.index && inst.index[d].role.Driver?)
  }

  /** Whether a rider keeps their seat on one leg. */
  predicate Stays(inst: Instance, drivers: set<NodeId>, rider: NodeId, driver: NodeId, outbound: bool) {
    && rider !in drivers && inst.Has(rider)
    && var person := inst.index[rider];
       && !person.role.Driver?
       && (if outbound then person.needsOutbound else person.needsReturn)
       && person.PinAllows(driver)
  }

  function StayOn(inst: Instance, drivers: set<NodeId>, driver: NodeId, leg: seq<NodeId>, outbound: bool)
    : (r: seq<NodeId>)
    ensures forall x :: x in r <==> x in leg && Stays(inst, drivers, x, driver, outbound)
    ensures Distinct(leg) ==> Distinct(r)
  {
    hide Stays;
    if leg == [] then []
    else
      var n := |leg| - 1;
      var front := StayOn(inst, drivers, driver, leg[..n], outbound);
      assert forall x :: x in leg <==> x in leg[..n] || x == leg[n];
      assert Distinct(leg) ==> leg[n] !in leg[..n];
      if Stays(inst, drivers, leg[n], driver, outbound) then front + [leg[n]] else front
  }

  function Kept(inst: Instance, drivers: set<NodeId>, route: Route): Route {
    Route(route.driver,
          StayOn(inst, drivers, route.driver, route.outbound, true),
          StayOn(inst, drivers, route.driver, route.inbound, false))
  }

  /** Whoever is given a car: the committed, and whoever is flexible and drove before. */
  lemma WarmDriversExactly(inst: Instance, previous: seq<Route>, d: NodeId)
    ensures d in WarmDrivers(inst, previous) <==>
      && inst.Has(d)
      && (inst.index[d].role == Driver
          || (inst.index[d].role == Either && exists i :: 0 <= i < |previous| && previous[i].driver == d))
  {
  }

  /** On either leg, exactly those stay who still need it, may still ride with this driver and do not drive. */
  lemma KeptExactly(inst: Instance, drivers: set<NodeId>, route: Route, p: NodeId)
    ensures var kept := Kept(inst, drivers, route);
      var rides := inst.Has(p) && inst.index[p].role != Driver && p !in drivers
                   && (inst.index[p].pinnedDriver.None? || inst.index[p].pinnedDriver.value == route.driver);
      && kept.driver == route.driver
      && (p in kept.outbound <==> p in route.outbound && rides && inst.index[p].needsOutbound)
      && (p in kept.inbound <==> p in route.inbound && rides && inst.index[p].needsReturn)
  {
    hide StayOn;
  }

  ghost predicate ComesBefore(r: seq<NodeId>, p: NodeId, q: NodeId) {
    exists k, l ::
      0 <= k < l < |r| && r[k] == p && r[l] == q
  }

  lemma StillBefore(front: seq<NodeId>, more: seq<NodeId>, p: NodeId, q: NodeId)
    requires ComesBefore(front, p, q) || (p in front && q in more)
    ensures ComesBefore(front + more, p, q)
  {
    var r := front + more;
    if ComesBefore(front, p, q) {
      var k, l :| 0 <= k < l < |front| && front[k] == p && front[l] == q;
      assert r[k] == p && r[l] == q;
    } else {
      var k :| 0 <= k < |front| && front[k] == p;
      var l :| 0 <= l < |more| && more[l] == q;
      var m := |front| + l;
      assert r[k] == p && r[m] == q;
    }
  }

  /** Those who stay keep their order. */
  lemma {:induction false} StayInOrder(inst: Instance, drivers: set<NodeId>, driver: NodeId, leg: seq<NodeId>,
                                       outbound: bool, i: nat, j: nat)
    requires i < j < |leg|
    requires Stays(inst, drivers, leg[i], driver, outbound) && Stays(inst, drivers, leg[j], driver, outbound)
    ensures ComesBefore(StayOn(inst, drivers, driver, leg, outbound), leg[i], leg[j])
  {
    hide Stays, ComesBefore;
    var n := |leg| - 1;
    var front := StayOn(inst, drivers, driver, leg[..n], outbound);
    assert leg[..n][i] == leg[i] && leg[i] in leg[..n];
    if j < n {
      assert leg[..n][j] == leg[j];
      StayInOrder(inst, drivers, driver, leg[..n], outbound, i, j);
    }
    var more := if Stays(inst, drivers, leg[n], driver, outbound) then [leg[n]] else [];
    StillBefore(front, more, leg[i], leg[j]);
    assert front + more == StayOn(inst, drivers, driver, leg, outbound);
  }

  /** Nobody who stays has come to need a leg they were not carried on. */
  ghost predicate LegsNotGrown(inst: Instance, drivers: set<NodeId>, route: Route) {
    forall p :: p in Kept(inst, drivers, route).Passengers() ==>
      && (inst.index[p].needsOutbound ==> p in route.outbound)
      && (inst.index[p].needsReturn ==> p in route.inbound)
  }

  /** The earlier answer as the repair relies on it: nobody in two places, no leg newly needed by those who stay. */
  ghost predicate Repairable(inst: Instance, previous: seq<Route>) {
    && Separate(previous)
    && forall i :: 0 <= i < |previous| && previous[i].driver in WarmDrivers(inst, previous) ==>
         LegsNotGrown(inst, WarmDrivers(inst, previous), previous[i])
  }

  lemma KeptIsGood(inst: Instance, drivers: set<NodeId>, route: Route)
    requires Single(route) && LegsNotGrown(inst, drivers, route)
    requires route.driver in drivers && inst.Has(route.driver)
    ensures GoodCar(inst, route.driver, Kept(inst, drivers, route))
    ensures forall p :: p in Kept(inst, drivers, route).Passengers() ==> p in route.Passengers() && p !in drivers
  {
    hide StayOn, Distinct;
  }

  /** Exactly when a repaired car is coherent: nobody kept on it has come to need the leg they were not on. */
  lemma KeptIsGoodExactly(inst: Instance, drivers: set<NodeId>, route: Route)
    requires Single(route) && route.driver in drivers && inst.Has(route.driver)
    ensures GoodCar(inst, route.driver, Kept(inst, drivers, route)) <==> LegsNotGrown(inst, drivers, route)
  {
    hide StayOn, Distinct;
  }

  /** What becomes of an earlier car: kept in its best order, or emptied when it no longer passes. */
  ghost predicate KeptOrEmpty(inst: Instance, drivers: set<NodeId>, route: Route, car: Route) {
    exists tidied :: IsTidied(inst, Kept(inst, drivers, route), tidied)
                     && car == if Feasible(inst, tidied) then tidied else EmptyCar(route.driver)
  }

  ghost predicate Drove(previous: seq<Route>, n: nat, d: NodeId)
    requires n <= |previous|
  {
    exists i :: 0 <= i < n && previous[i].driver == d
  }

  ghost predicate KeptSoFar(inst: Instance, drivers: set<NodeId>, previous: seq<Route>, cars: Cars, n: nat)
    requires n <= |previous|
  {
    && Coherent(inst, cars) && cars.Keys == drivers
    && (forall p :: Seats(cars, p) ==> Carried(previous[..n], p) && p !in drivers)
    && (forall d :: d in cars && !Drove(previous, n, d) ==> cars[d] == EmptyCar(d))
  }

  lemma NotCarriedYet(previous: seq<Route>, n: nat, id: NodeId)
    requires Separate(previous) && n < |previous| && Aboard(previous[n], id)
    ensures !Carried(previous[..n], id)
  {
    hide Aboard;
    forall i | 0 <= i < n ensures !Aboard(previous[..n][i], id) {
      assert previous[..n][i] == previous[i];
    }
  }

  lemma CarriedSoFar(previous: seq<Route>, n: nat, id: NodeId)
    requires n < |previous|
    ensures Carried(previous[..n + 1], id) <==> Carried(previous[..n], id) || Aboard(previous[n], id)
  {
    assert previous[..n + 1][..n] == previous[..n];
  }

  lemma KeepSkips(inst: Instance, drivers: set<NodeId>, previous: seq<Route>, cars: Cars, n: nat)
    requires n < |previous| && KeptSoFar(inst, drivers, previous, cars, n)
    ensures KeptSoFar(inst, drivers, previous, cars, n + 1)
  {
    hide Coherent, Carried, Aboard, Seats;
    forall id ensures Carried(previous[..n], id) ==> Carried(previous[..n + 1], id) {
      CarriedSoFar(previous, n, id);
    }
  }

  /** Putting the kept riders back disturbs nobody: none of them is anywhere yet. */
  lemma KeepTakes(inst: Instance, drivers: set<NodeId>, previous: seq<Route>, cars: Cars, n: nat, c: Route)
    requires n < |previous| && KeptSoFar(inst, drivers, previous, cars, n) && Separate(previous)
    requires previous[n].driver in drivers && GoodCar(inst, previous[n].driver, c)
    requires forall p :: p in c.Passengers() ==> p in previous[n].Passengers() && p !in drivers
    ensures KeptSoFar(inst, drivers, previous, cars[previous[n].driver := c], n + 1)
  {
    hide Coherent, GoodCar, Carried, Seats, Separate;
    var d := previous[n].driver;
    KeptCarEmpty(inst, drivers, previous, cars, n);
    NotCarriedYet(previous, n, d);
    forall p | p in c.Passengers() ensures !Placed(cars, p) {
      NotCarriedYet(previous, n, p);
    }
    forall id ensures Carried(previous[..n + 1], id) <==> Carried(previous[..n], id) || Aboard(previous[n], id) {
      CarriedSoFar(previous, n, id);
    }
    ReplaceCar(inst, cars, d, c, c.Passengers());
    var after := cars[d := c];
    assert after.Keys == drivers;
    forall p | Seats(after, p) ensures Carried(previous[..n + 1], p) && p !in drivers {
      assert Seats(cars, p) || Aboard(previous[n], p);
    }
    assert previous[n].driver == d;
  }

  lemma TidiedIsGood(inst: Instance, d: NodeId, route: Route, tidied: Route)
    requires GoodCar(inst, d, route) && IsTidied(inst, route, tidied)
    ensures GoodCar(inst, d, tidied) && tidied.Passengers() == route.Passengers()
  {
    hide GoodCar, IsResequenced, Feasible;
    var r :| IsResequenced(inst, route, r) && tidied == if Feasible(inst, r) then r else route;
    ResequencedIsGood(inst, d, route, r);
  }

  lemma NothingKept(inst: Instance, drivers: set<NodeId>, previous: seq<Route>)
    requires forall d :: d in drivers ==> inst.Has(d)
    ensures KeptSoFar(inst, drivers, previous, map d | d in drivers :: EmptyCar(d), 0)
  {
    var cars: Cars := map d | d in drivers :: EmptyCar(d);
    forall d | d in cars ensures GoodCar(inst, d, cars[d]) && cars[d].Passengers() == {} {
      EmptyIsGood(inst, d);
    }
  }

  /** The repair loop: every earlier car that still has its driver is kept or emptied. */
  method KeepCars(inst: Instance, search: Searcher, drivers: set<NodeId>, previous: seq<Route>) returns (cars: Cars)
    requires search.Valid() && search.inst == inst
    requires Repairable(inst, previous) && drivers == WarmDrivers(inst, previous)
    requires forall d :: d in drivers ==> inst.Has(d)
    modifies search
    ensures search.Valid()
    ensures KeptSoFar(inst, drivers, previous, cars, |previous|)
    ensures forall i :: 0 <= i < |previous| && previous[i].driver in drivers ==>
      previous[i].driver in cars && KeptOrEmpty(inst, drivers, previous[i], cars[previous[i].driver])
  {
    hide WarmDrivers, KeptSoFar, KeptOrEmpty, Searcher.Valid, LegsNotGrown, Separate, Kept, Feasible, IsTidied,
         GoodCar, Known;
    cars := map d | d in drivers :: EmptyCar(d);
    NothingKept(inst, drivers, previous);
    for n := 0 to |previous|
      invariant search.Valid()
      invariant KeptSoFar(inst, drivers, previous, cars, n)
      invariant forall i :: 0 <= i < n && previous[i].driver in drivers ==>
        previous[i].driver in cars && KeptOrEmpty(inst, drivers, previous[i], cars[previous[i].driver])
    {
      var d := previous[n].driver;
      DriversOnce(previous, n);
      if d in drivers {
        cars := KeepCar(inst, search, drivers, previous, cars, n);
      } else {
        KeepSkips(inst, drivers, previous, cars, n);
      }
    }
  }

  lemma DriversOnce(previous: seq<Route>, n: nat)
    requires Separate(previous) && n < |previous|
    ensures Single(previous[n])
    ensures forall i :: 0 <= i < n ==> previous[i].driver != previous[n].driver
  {
    hide Single;
    forall i | 0 <= i < n ensures previous[i].driver != previous[n].driver {
      assert Aboard(previous[i], previous[i].driver);
    }
  }

  method KeepCar(inst: Instance, search: Searcher, drivers: set<NodeId>, previous: seq<Route>, cars: Cars, n: nat)
    returns (after: Cars)
    requires search.Valid() && search.inst == inst
    requires n < |previous| && Repairable(inst, previous) && drivers == WarmDrivers(inst, previous)
    requires KeptSoFar(inst, drivers, previous, cars, n)
    requires previous[n].driver in drivers && inst.Has(previous[n].driver)
    modifies search
    ensures search.Valid()
    ensures KeptSoFar(inst, drivers, previous, after, n + 1)
    ensures previous[n].driver in after && KeptOrEmpty(inst, drivers, previous[n], after[previous[n].driver])
    ensures forall d :: d in cars && d != previous[n].driver ==> d in after && after[d] == cars[d]
  {
    hide WarmDrivers, KeptSoFar, Searcher.Valid, LegsNotGrown, Separate, Kept, Feasible, IsTidied, GoodCar, Known,
         Single;
    var route := previous[n];
    var d := route.driver;
    DriversOnce(previous, n);
    var kept := Kept(inst, drivers, route);
    KeptIsGood(inst, drivers, route);
    GoodIsKnown(inst, d, kept);
    var tidied := search.Tidy(kept);
    TidiedIsGood(inst, d, kept, tidied);
    GoodIsKnown(inst, d, tidied);
    var ok := RouteFeasible(inst, tidied);
    KeptCarEmpty(inst, drivers, previous, cars, n);
    if ok {
      KeepTakes(inst, drivers, previous, cars, n, tidied);
      after := cars[d := tidied];
    } else {
      KeepSkips(inst, drivers, previous, cars, n);
      after := cars;
    }
    assert KeptOrEmpty(inst, drivers, route, after[d]);
  }

  lemma KeptCarEmpty(inst: Instance, drivers: set<NodeId>, previous: seq<Route>, cars: Cars, n: nat)
    requires n < |previous| && KeptSoFar(inst, drivers, previous, cars, n) && Separate(previous)
    requires previous[n].driver in drivers
    ensures previous[n].driver in cars && cars[previous[n].driver] == EmptyCar(previous[n].driver)
  {
    DriversOnce(previous, n);
  }

  lemma WarmDriversFacts(inst: Instance, previous: seq<Route>)
    ensures forall d :: d in WarmDrivers(inst, previous) ==> inst.Has(d)
    ensures forall d :: inst.Has(d) && inst.index[d].role.Driver? ==> d in WarmDrivers(inst, previous)
    ensures forall d :: d in WarmDrivers(inst, previous) ==> Drives(inst, d)
  {
  }

  lemma KeptKeys(inst: Instance, drivers: set<NodeId>, previous: seq<Route>, cars: Cars)
    requires KeptSoFar(inst, drivers, previous, cars, |previous|)
    ensures cars.Keys == drivers
    ensures forall d :: d in cars && !Drove(previous, |previous|, d) ==> cars[d] == EmptyCar(d)
  {
    hide Coherent, Carried, EmptyCar;
  }

  lemma OpenedForRiders(inst: Instance, before: Cars, after: Cars, pool: set<NodeId>)
    requires OpenedFor(inst, before, after, pool) && NoneStranded(inst, before.Keys) && Driven(inst, after)
    requires forall p :: p in pool ==> IsRider(inst, p)
    ensures NoneStranded(inst, after.Keys)
  {
    hide NoneStranded, IsRider;
    NoneStrandedLater(inst, before.Keys, after.Keys);
  }

  function WaitingFor(inst: Instance, drivers: set<NodeId>, seated: set<NodeId>): set<NodeId> {
    set p | p in inst.index && inst.index[p].IsRider() && p !in drivers && p !in seated
  }

  lemma KeptIsSound(inst: Instance, drivers: set<NodeId>, previous: seq<Route>, cars: Cars)
    requires KeptSoFar(inst, drivers, previous, cars, |previous|)
    requires forall d :: inst.Has(d) && inst.index[d].role.Driver? ==> d in drivers
    ensures Sound(inst, cars, {}, WaitingFor(inst, drivers, SeatedSet(cars)))
    ensures forall p :: p in WaitingFor(inst, drivers, SeatedSet(cars)) ==> IsRider(inst, p)
  {
    hide Coherent, Carried, SeatedSet, EmptyCar;
  }

  /** Every earlier car kept or emptied, everyone else's new and empty, and whoever has no seat in them rebuilt. */
  ghost predicate Repaired(inst: Instance, search: Searcher, previous: seq<Route>, kept: Cars, cars: Cars,
                           left: set<NodeId>) {
    && kept.Keys == WarmDrivers(inst, previous)
    && (forall i :: 0 <= i < |previous| && previous[i].driver in kept ==>
          KeptOrEmpty(inst, kept.Keys, previous[i], kept[previous[i].driver]))
    && (forall d :: d in kept && !Drove(previous, |previous|, d) ==> kept[d] == EmptyCar(d))
    && Rebuilt(inst, search, kept, WaitingFor(inst, kept.Keys, SeatedSet(kept)), cars, left)
  }

  /**
    * `warm_start`: everyone is in one place, every earlier car that still passes keeps its driver and everyone in
    * it who stays, and nobody is left out who was not turned away.
    */
  method WarmStart(inst: Instance, search: Searcher, previous: seq<Route>) returns (st: State, ghost kept: Cars)
    requires search.Valid() && search.inst == inst && PoolPinsAreOneDeep(inst)
    requires Repairable(inst, previous)
    modifies search, search.memo
    ensures search.Valid() && fresh(st)
    ensures Sound(inst, st.routes, st.unassigned, {})
    ensures Repaired(inst, search, previous, kept, st.routes, st.unassigned)
    ensures NoneStranded(inst, WarmDrivers(inst, previous)) && Driven(inst, st.routes) ==>
      NoneStranded(inst, st.routes.Keys)
    ensures Keeps(kept, st.routes)
    ensures AllTurnedAway(inst, search.candidates, search, st.routes, st.unassigned)
  {
    hide Sound, KeptSoFar, Repairable, PoolPinsAreOneDeep, Searcher.Valid, WaitingFor, SeatedSet, WarmDrivers,
         KeptOrEmpty, Keeps, AllTurnedAway, Rebuilt, Drove, EmptyCar,
         NoneStranded, OpenedFor, Riders, Waits, Drives, IsRider;
    var drivers := WarmDrivers(inst, previous);
    WarmDriversFacts(inst, previous);
    var cars := KeepCars(inst, search, drivers, previous);
    KeptKeys(inst, drivers, previous, cars);
    kept := cars;
    KeptIsSound(inst, drivers, previous, cars);
    st := new State(cars, {});
    ghost var waiting := WaitingFor(inst, drivers, SeatedSet(cars));
    assert waiting + {} == waiting;
    AllRide(inst, cars, {}, waiting);
    var raised := Recreate(inst, search, st, WaitingFor(inst, drivers, SeatedSet(cars)));
    assert !raised;
    if NoneStranded(inst, drivers) && Driven(inst, st.routes) {
      OpenedForRiders(inst, cars, st.routes, waiting);
    }
  }
}
