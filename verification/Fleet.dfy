/** Cars under construction: who is seated where, whatever else is still to be decided. */
module Fleet {
  import opened Models
  import opened Objective
  import opened Feasibility
  import opened Insertion

  /** Open cars by driver. */
  type Cars = map<NodeId, Route>

  ghost predicate IsRider(inst: Instance, p: NodeId) {
    inst.Has(p) && inst.index[p].IsRider()
  }

  /** A car by itself is coherent: riders only, each on exactly the legs they need, nobody twice on a leg. */
  ghost predicate GoodCar(inst: Instance, d: NodeId, route: Route) {
    && route.driver == d && inst.Has(d)
    && Distinct(route.outbound) && Distinct(route.inbound)
    && (forall p :: p in route.Passengers() ==>
          && p != d && IsRider(inst, p)
          && (p in route.outbound <==> inst.index[p].needsOutbound)
          && (p in route.inbound <==> inst.index[p].needsReturn))
  }

  ghost predicate Drives(inst: Instance, p: NodeId) {
    inst.Has(p) && inst.index[p].role.CanDrive()
  }

  /**
    * Nobody rides in two cars, and nobody who drives one rides in another. A car opened for somebody who cannot drive
    * takes nobody anywhere, its driver included, who may still be given a seat.
    */
  ghost predicate Coherent(inst: Instance, cars: Cars) {
    && (forall d :: d in cars ==> GoodCar(inst, d, cars[d]))
    && (forall d, e, p :: d in cars && e in cars && p in cars[d].Passengers() && p in cars[e].Passengers() ==> d == e)
    && (forall d, e :: d in cars && e in cars && Drives(inst, e) ==> e !in cars[d].Passengers())
  }

  /** Nobody is named as a driver and carried as a passenger, able to drive or not. */
  ghost predicate Apart(cars: Cars) {
    forall d, e :: d in cars && e in cars ==> e !in cars[d].Passengers()
  }

  /** Every open car's driver can drive. */
  ghost predicate Driven(inst: Instance, cars: Cars) {
    forall d :: d in cars ==> Drives(inst, d)
  }

  /** Neither riding nor driving: at most the driver of a car they cannot drive. */
  ghost predicate Away(inst: Instance, cars: Cars, p: NodeId) {
    !Seats(cars, p) && (p in cars ==> !Drives(inst, p))
  }

  ghost predicate Seats(cars: Cars, p: NodeId) {
    exists d :: d in cars && p in cars[d].Passengers()
  }

  /** Driving or riding. */
  ghost predicate Placed(cars: Cars, p: NodeId) {
    p in cars || Seats(cars, p)
  }

  /** A flexible driver who takes neither leg, pinned to nobody, and to whom no rider outside the cars is pinned. */
  ghost predicate Stranded(inst: Instance, drivers: set<NodeId>, d: NodeId) {
    && d in drivers && inst.Has(d) && inst.index[d].role.Either? && !inst.index[d].NeedsTransport()
    && inst.index[d].pinnedDriver.None? && !exists r :: PinnedOutside(inst, drivers, d, r)
  }

  ghost predicate PinnedOutside(inst: Instance, drivers: set<NodeId>, d: NodeId, r: NodeId) {
    IsRider(inst, r) && inst.index[r].pinnedDriver == Some(d) && r !in drivers
  }

  ghost predicate NoneStranded(inst: Instance, drivers: set<NodeId>) {
    forall d :: d in drivers ==> !Stranded(inst, drivers, d)
  }

  /** Cars opened for unpinned riders strand nobody. */
  lemma NoneStrandedLater(inst: Instance, before: set<NodeId>, after: set<NodeId>)
    requires NoneStranded(inst, before)
    requires forall d :: d in after ==> d in before || (IsRider(inst, d) && inst.index[d].pinnedDriver.None?)
    ensures NoneStranded(inst, after)
  {
    forall d | d in after ensures !Stranded(inst, after, d) {
      if d in before && exists r :: PinnedOutside(inst, before, d, r) {
        var r :| PinnedOutside(inst, before, d, r);
        assert PinnedOutside(inst, after, d, r);
      }
    }
  }

  ghost predicate AllFeasible(inst: Instance, cars: Cars) {
    forall d :: d in cars ==> Feasible(inst, cars[d])
  }

  lemma GoodIsKnown(inst: Instance, d: NodeId, route: Route)
    requires GoodCar(inst, d, route)
    ensures Known(inst, route)
  {
    forall i | 0 <= i < |route.outbound| ensures inst.Has(route.outbound[i]) {
      assert route.outbound[i] in route.Passengers();
    }
    forall i | 0 <= i < |route.inbound| ensures inst.Has(route.inbound[i]) {
      assert route.inbound[i] in route.Passengers();
    }
  }

  /** A coherent car visits no stop twice, so its ride time is its occupied time. */
  lemma GoodIsPlain(inst: Instance, d: NodeId, route: Route)
    requires inst.Valid() && GoodCar(inst, d, route)
    ensures Plain(route)
  {
    assert forall i :: 0 <= i < |route.outbound| ==> route.outbound[i] in route.Passengers();
    assert forall i :: 0 <= i < |route.inbound| ==> route.inbound[i] in route.Passengers();
    assert d != DESTINATION && DESTINATION !in route.Passengers();
  }

  lemma UnplacedIsAway(inst: Instance, cars: Cars, p: NodeId)
    requires !Placed(cars, p)
    ensures Away(inst, cars, p)
  {
  }

  lemma AwayIsUnplaced(inst: Instance, cars: Cars, p: NodeId)
    requires AllFeasible(inst, cars) && Coherent(inst, cars) && Away(inst, cars, p)
    ensures !Placed(cars, p)
  {
    hide Feasible, GoodCar;
    if p in cars {
      FeasibleDrives(inst, cars, p);
    }
  }

  /** In legal cars driving and riding exclude each other. */
  lemma FeasibleIsApart(inst: Instance, cars: Cars)
    requires AllFeasible(inst, cars) && Coherent(inst, cars)
    ensures Apart(cars) && Driven(inst, cars)
  {
    hide Feasible, GoodCar;
    forall d | d in cars ensures Drives(inst, d) {
      FeasibleDrives(inst, cars, d);
    }
    DrivenIsApart(inst, cars);
  }

  lemma DrivenIsApart(inst: Instance, cars: Cars)
    requires Coherent(inst, cars) && Driven(inst, cars)
    ensures Apart(cars)
  {
    hide GoodCar, Drives;
  }

  /** Whoever has a legal car can drive it. */
  lemma FeasibleDrives(inst: Instance, cars: Cars, d: NodeId)
    requires AllFeasible(inst, cars) && Coherent(inst, cars) && d in cars
    ensures Drives(inst, d)
  {
    assert GoodCar(inst, d, cars[d]);
    assert !Breaks(inst, cars[d], RoleRule);
  }

  lemma EmptyIsGood(inst: Instance, d: NodeId)
    requires inst.Has(d)
    ensures GoodCar(inst, d, EmptyCar(d)) && EmptyCar(d).Passengers() == {}
  {
  }

  // ---- Adding one rider -------------------------------------------------------------------------

  lemma InsertedOnce(s: seq<NodeId>, i: nat, rider: NodeId)
    requires i <= |s|
    ensures forall x :: x in InsertAt(s, i, rider) <==> x in s || x == rider
    ensures Distinct(s) && rider !in s ==> Distinct(InsertAt(s, i, rider))
  {
    var r := InsertAt(s, i, rider);
    forall x ensures x in r <==> x in s || x == rider {
      assert r[i] == rider;
      if x in s {
        var k :| 0 <= k < |s| && s[k] == x;
        assert r[if k < i then k else k + 1] == x;
      }
    }
  }

  lemma OptionFacts(s: seq<NodeId>, rider: NodeId, needed: bool, o: seq<NodeId>)
    requires o in Options(s, rider, needed) && Distinct(s) && rider !in s
    ensures Distinct(o)
    ensures forall x :: x in o <==> x in s || (needed && x == rider)
  {
    if needed {
      var i :| 0 <= i < |Options(s, rider, needed)| && Options(s, rider, needed)[i] == o;
      InsertedOnce(s, i, rider);
    }
  }

  lemma InsertionFacts(inst: Instance, d: NodeId, route: Route, rider: NodeId, c: Route)
    requires GoodCar(inst, d, route) && IsRider(inst, rider)
    requires rider !in route.Passengers() && rider != d
    requires IsInsertion(inst, route, rider, c)
    ensures GoodCar(inst, d, c)
    ensures c.Passengers() == route.Passengers() + {rider}
  {
    var person := inst.index[rider];
    InsertionIsOption(inst, route, rider, c);
    OptionFacts(route.outbound, rider, person.needsOutbound, c.outbound);
    OptionFacts(route.inbound, rider, person.needsReturn, c.inbound);
    hide Distinct, Options, GoodCar, IsInsertion;
    assert forall p :: p in c.Passengers() <==> p in route.Passengers() || p == rider;
    LegsStayRight(inst, d, route, rider, c);
  }

  lemma LegsStayRight(inst: Instance, d: NodeId, route: Route, rider: NodeId, c: Route)
    requires GoodCar(inst, d, route) && IsRider(inst, rider) && rider != d
    requires c.driver == d && Distinct(c.outbound) && Distinct(c.inbound)
    requires forall x :: x in c.outbound <==> x in route.outbound || (inst.index[rider].needsOutbound && x == rider)
    requires forall x :: x in c.inbound <==> x in route.inbound || (inst.index[rider].needsReturn && x == rider)
    requires rider !in route.Passengers()
    ensures GoodCar(inst, d, c)
  {
    hide Distinct;
    forall p | p in c.Passengers()
      ensures p != d && IsRider(inst, p)
           && (p in c.outbound <==> inst.index[p].needsOutbound) && (p in c.inbound <==> inst.index[p].needsReturn)
    {
      if p != rider {
        assert p in route.Passengers();
      }
    }
  }

  /** Putting a new rider into an open car keeps everything coherent and seats exactly that rider more. */
  lemma SeatInto(inst: Instance, cars: Cars, d: NodeId, rider: NodeId, c: Route)
    requires Coherent(inst, cars) && d in cars
    requires IsRider(inst, rider) && Away(inst, cars, rider) && rider != d
    requires IsInsertion(inst, cars[d], rider, c)
    ensures Coherent(inst, cars[d := c])
    ensures forall p :: Placed(cars[d := c], p) <==> Placed(cars, p) || p == rider
    ensures forall p :: Seats(cars[d := c], p) <==> Seats(cars, p) || p == rider
  {
    InsertionFacts(inst, d, cars[d], rider, c);
    ReplaceCar(inst, cars, d, c, {rider});
  }

  /** Replacing one car by another that also carries `extra`, nobody of whom was placed. */
  lemma ReplaceCar(inst: Instance, cars: Cars, d: NodeId, c: Route, extra: set<NodeId>)
    requires Coherent(inst, cars) && d in cars && GoodCar(inst, d, c)
    requires c.Passengers() == cars[d].Passengers() + extra
    requires forall p :: p in extra ==> Away(inst, cars, p)
    ensures Coherent(inst, cars[d := c])
    ensures forall p :: Placed(cars[d := c], p) <==> Placed(cars, p) || p in extra
    ensures forall p :: Seats(cars[d := c], p) <==> Seats(cars, p) || p in extra
  {
    hide GoodCar;
    var after := cars[d := c];
    forall p ensures Seats(after, p) <==> Seats(cars, p) || p in extra {
      if Seats(cars, p) {
        var e :| e in cars && p in cars[e].Passengers();
        assert e in after && p in after[e].Passengers();
      }
      if p in extra {
        assert d in after && p in after[d].Passengers();
      }
    }
    assert forall p :: p in extra ==> !Seats(cars, p);
  }

  /** Opening an empty car for someone not yet placed. */
  lemma OpenCar(inst: Instance, cars: Cars, d: NodeId)
    requires Coherent(inst, cars) && inst.Has(d) && !Placed(cars, d)
    ensures Coherent(inst, cars[d := EmptyCar(d)])
    ensures forall p :: Placed(cars[d := EmptyCar(d)], p) <==> Placed(cars, p) || p == d
    ensures forall p :: Seats(cars[d := EmptyCar(d)], p) <==> Seats(cars, p)
  {
    EmptyIsGood(inst, d);
    hide GoodCar;
    var after := cars[d := EmptyCar(d)];
    forall p ensures Seats(after, p) <==> Seats(cars, p) {
      if Seats(cars, p) {
        var e :| e in cars && p in cars[e].Passengers();
        assert e in after && p in after[e].Passengers();
      }
    }
    assert forall e :: e in cars ==> d !in cars[e].Passengers();
  }

  // ---- Taking one rider out ----------------------------------------------------------------------

  function Drop(s: seq<NodeId>, rider: NodeId): (r: seq<NodeId>)
    ensures forall x :: x in r <==> x in s && x != rider
    ensures Distinct(s) ==> Distinct(r)
  {
    if s == [] then []
    else
      var front := Drop(s[..|s| - 1], rider);
      assert forall x :: x in s <==> x in s[..|s| - 1] || x == s[|s| - 1];
      assert Distinct(s) ==> s[|s| - 1] !in s[..|s| - 1];
      if s[|s| - 1] == rider then front else front + [s[|s| - 1]]
  }

  /** `_without` */
  function Without(route: Route, rider: NodeId): (r: Route)
    ensures r.driver == route.driver
    ensures r.Passengers() == route.Passengers() - {rider}
  {
    Route(route.driver, Drop(route.outbound, rider), Drop(route.inbound, rider))
  }

  /** A leg less everyone in `removed`, in the order it had. */
  ghost function Remaining(s: seq<NodeId>, removed: set<NodeId>): (r: seq<NodeId>)
    ensures forall x :: x in r <==> x in s && x !in removed
  {
    if s == [] then []
    else
      var front := Remaining(s[..|s| - 1], removed);
      assert forall x :: x in s <==> x in s[..|s| - 1] || x == s[|s| - 1];
      if s[|s| - 1] in removed then front else front + [s[|s| - 1]]
  }

  /** The car less everyone in `removed`, every other stop where it was. */
  ghost function Thinned(route: Route, removed: set<NodeId>): (r: Route)
    ensures r.driver == route.driver
    ensures r.Passengers() == route.Passengers() - removed
  {
    Route(route.driver, Remaining(route.outbound, removed), Remaining(route.inbound, removed))
  }

  lemma {:induction false} RemainingLess(s: seq<NodeId>, removed: set<NodeId>, rider: NodeId)
    ensures Drop(Remaining(s, removed), rider) == Remaining(s, removed + {rider})
  {
    if s != [] {
      var n := |s| - 1;
      RemainingLess(s[..n], removed, rider);
      var front := Remaining(s[..n], removed);
      assert (front + [s[n]])[..|front|] == front;
    }
  }

  lemma {:induction false} RemainingSame(s: seq<NodeId>, removed: set<NodeId>, rider: NodeId)
    requires rider !in Remaining(s, removed)
    ensures Remaining(s, removed + {rider}) == Remaining(s, removed)
  {
    if s != [] {
      RemainingSame(s[..|s| - 1], removed, rider);
    }
  }

  lemma {:induction false} RemainingNone(s: seq<NodeId>, removed: set<NodeId>)
    requires forall i :: 0 <= i < |s| ==> s[i] !in removed
    ensures Remaining(s, removed) == s
  {
    if s != [] {
      var n := |s| - 1;
      assert s[n] !in removed;
      RemainingNone(s[..n], removed);
      assert s[..n] + [s[n]] == s;
    }
  }

  lemma ThinnedLess(route: Route, removed: set<NodeId>, rider: NodeId)
    ensures Without(Thinned(route, removed), rider) == Thinned(route, removed + {rider})
    ensures rider !in Thinned(route, removed).Passengers() ==>
      Thinned(route, removed + {rider}) == Thinned(route, removed)
  {
    RemainingLess(route.outbound, removed, rider);
    RemainingLess(route.inbound, removed, rider);
    if rider !in Thinned(route, removed).Passengers() {
      RemainingSame(route.outbound, removed, rider);
      RemainingSame(route.inbound, removed, rider);
    }
  }

  lemma ThinnedNobody(route: Route, removed: set<NodeId>)
    requires route.Passengers() !! removed
    ensures Thinned(route, removed) == route
  {
    RemainingNone(route.outbound, removed);
    RemainingNone(route.inbound, removed);
  }

  lemma {:induction false} RemainingGone(s: seq<NodeId>, removed: set<NodeId>)
    requires forall i :: 0 <= i < |s| ==> s[i] in removed
    ensures Remaining(s, removed) == []
  {
    if s != [] {
      var n := |s| - 1;
      assert s[n] in removed;
      RemainingGone(s[..n], removed);
    }
  }

  lemma ThinnedEmpty(route: Route, removed: set<NodeId>)
    requires route.Passengers() <= removed
    ensures Thinned(route, removed) == EmptyCar(route.driver)
  {
    hide Remaining;
    forall i | 0 <= i < |route.outbound| ensures route.outbound[i] in removed {
      assert route.outbound[i] in route.Passengers();
    }
    forall i | 0 <= i < |route.inbound| ensures route.inbound[i] in removed {
      assert route.inbound[i] in route.Passengers();
    }
    RemainingGone(route.outbound, removed);
    RemainingGone(route.inbound, removed);
  }

  lemma WithoutIsGood(inst: Instance, d: NodeId, route: Route, rider: NodeId)
    requires GoodCar(inst, d, route)
    ensures GoodCar(inst, d, Without(route, rider))
  {
    hide Drop;
  }

  /** Replacing one car by another that carries fewer people. */
  lemma ShrinkCar(inst: Instance, cars: Cars, d: NodeId, c: Route)
    requires Coherent(inst, cars) && d in cars && GoodCar(inst, d, c)
    requires c.Passengers() <= cars[d].Passengers()
    ensures Coherent(inst, cars[d := c])
    ensures forall p :: Seats(cars[d := c], p) <==> Seats(cars, p) && p !in cars[d].Passengers() - c.Passengers()
    ensures Apart(cars) ==> forall p ::
      Placed(cars[d := c], p) <==> Placed(cars, p) && p !in cars[d].Passengers() - c.Passengers()
  {
    hide GoodCar;
    var after := cars[d := c];
    forall p ensures Seats(after, p) <==> Seats(cars, p) && p !in cars[d].Passengers() - c.Passengers() {
      if Seats(after, p) {
        var e :| e in after && p in after[e].Passengers();
        assert e in cars && p in cars[e].Passengers();
      }
      if Seats(cars, p) && p !in cars[d].Passengers() - c.Passengers() {
        var e :| e in cars && p in cars[e].Passengers();
        assert e in after && p in after[e].Passengers();
      }
    }
  }

  /** Closing a car: its driver and everyone in it are no longer placed. */
  lemma CloseCar(inst: Instance, cars: Cars, d: NodeId)
    requires Coherent(inst, cars) && d in cars
    ensures Coherent(inst, cars - {d})
    ensures forall p :: Seats(cars - {d}, p) <==> Seats(cars, p) && p !in cars[d].Passengers()
    ensures Apart(cars) ==> forall p ::
      Placed(cars - {d}, p) <==> Placed(cars, p) && p != d && p !in cars[d].Passengers()
  {
    hide GoodCar;
    var after := cars - {d};
    forall p ensures Seats(after, p) <==> Seats(cars, p) && p !in cars[d].Passengers() {
      if Seats(after, p) {
        var e :| e in after && p in after[e].Passengers();
        assert e in cars && p in cars[e].Passengers();
      }
      if Seats(cars, p) && p !in cars[d].Passengers() {
        var e :| e in cars && p in cars[e].Passengers();
        assert e in after && p in after[e].Passengers();
      }
    }
  }
}
