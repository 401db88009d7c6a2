/** Where the solvers' promises stop: what the hypotheses of the main results exclude, and why they are needed. */
module Hypotheses {
  import opened Models
  import opened Objective
  import opened Feasibility
  import opened Validation
  import opened Insertion
  import opened Fleet
  import opened Seating
  import opened Outcome
  import opened Greedy
  import opened Warm

  lemma TwoPlaces(cars: Cars, p: NodeId)
    requires p in cars && Seats(cars, p)
    ensures !Apart(cars)
  {
    var d :| d in cars && p in cars[d].Passengers();
  }

  lemma SeatedIn(cars: Cars, d: NodeId, p: NodeId)
    requires d in cars && p in cars[d].Passengers()
    ensures Seats(cars, p)
  {
  }

  lemma PinnedAboard(inst: Instance, route: Route, rider: NodeId, c: Route)
    requires IsRider(inst, rider) && IsInsertion(inst, route, rider, c)
    ensures rider in c.Passengers()
  {
    InsertedPassengers(inst, route, rider, c);
  }

  /**
    * Exactly when the pin loop goes wrong: it opens a car for someone already riding, or seats someone who already
    * drives. The test can be made before the step, and someone both pinned and pinned to is how it comes about.
    */
  lemma PinTurnCoherentExactly(inst: Instance, cars: Cars, rider: NodeId, after: Cars, ok: bool)
    requires Coherent(inst, cars) && Apart(cars) && !Seats(cars, rider) && PinTurn(inst, cars, rider, after, ok)
    ensures var target := inst.index[rider].pinnedDriver.value;
      Coherent(inst, after) && Apart(after) <==>
        !(Opened(inst, cars, target) != cars && Seats(cars, target)) && !(ok && rider in Opened(inst, cars, target))
  {
    hide Coherent, Apart, GoodCar, BestInsertion, IsInsertion, EmptyCar, Feasible;
    var target := inst.index[rider].pinnedDriver.value;
    var ready := Opened(inst, cars, target);
    if ready != cars && Seats(cars, target) {
      OpenedSeats(cars, target, target);
      StaysTwice(inst, ready, target, rider, after, ok);
    } else {
      OpenedIsCoherent(inst, cars, target, rider);
      if ok {
        InsertionFound(inst, ready[target], rider);
        PinnedAboard(inst, ready[target], rider, after[target]);
        if rider in ready {
          SeatedIn(after, target, rider);
          TwoPlaces(after, rider);
        } else {
          SeatInto(inst, ready, target, rider, after[target]);
          StaysApart(ready, after);
        }
      }
    }
  }

  lemma OpenedSeats(cars: Cars, target: NodeId, p: NodeId)
    requires target !in cars && Seats(cars, p)
    ensures Seats(cars[target := EmptyCar(target)], p)
  {
    var d :| d in cars && p in cars[d].Passengers();
    SeatedIn(cars[target := EmptyCar(target)], d, p);
  }

  /** Someone driving and riding still does both after the rest of the step. */
  lemma StaysTwice(inst: Instance, ready: Cars, target: NodeId, rider: NodeId, after: Cars, ok: bool)
    requires target in ready && Seats(ready, target) && inst.Has(ready[target].driver) && IsRider(inst, rider)
    requires var insertion := BestInsertion(inst, ready[target], rider);
      ok == insertion.Some? && after == if ok then ready[target := insertion.value.0] else ready
    ensures !Apart(after)
  {
    hide BestInsertion, Apart, IsInsertion, Feasible;
    if ok {
      InsertionFound(inst, ready[target], rider);
      StaysAboard(inst, ready, target, rider, after[target], target);
    }
    TwoPlaces(after, target);
  }

  lemma StaysAboard(inst: Instance, ready: Cars, target: NodeId, rider: NodeId, c: Route, p: NodeId)
    requires target in ready && Seats(ready, p) && inst.Has(rider)
    requires IsInsertion(inst, ready[target], rider, c)
    ensures Seats(ready[target := c], p)
  {
    var d :| d in ready && p in ready[d].Passengers();
    if d == target {
      SeatedIn(ready[target := c], target, p);
    } else {
      SeatedIn(ready[target := c], d, p);
    }
  }

  lemma OpenedIsCoherent(inst: Instance, cars: Cars, target: NodeId, rider: NodeId)
    requires Coherent(inst, cars) && Apart(cars) && !Seats(cars, rider)
    requires Opened(inst, cars, target) == cars || !Seats(cars, target)
    ensures Coherent(inst, Opened(inst, cars, target)) && Apart(Opened(inst, cars, target))
    ensures !Seats(Opened(inst, cars, target), rider)
  {
    hide Coherent, Apart, GoodCar, EmptyCar;
    if Opened(inst, cars, target) != cars {
      OpenCar(inst, cars, target);
      StaysApart(cars, Opened(inst, cars, target));
    }
  }

  /** Driving and riding go on excluding each other while no driver takes a seat and nobody seated gets a car. */
  lemma StaysApart(cars: Cars, after: Cars)
    requires Apart(cars)
    requires forall p :: p in after && Seats(after, p) ==> p in cars && Seats(cars, p)
    ensures Apart(after)
  {
    forall p | p in cars ensures !Seats(cars, p) {
    }
    assert forall d, e :: d in after && e in after[d].Passengers() ==> Seats(after, e);
  }

  // ---- The whole pin loop -----------------------------------------------------------------------------

  ghost predicate PinnedToIn(inst: Instance, order: seq<NodeId>, d: NodeId) {
    exists j :: 0 <= j < |order| && IsPinnedTo(inst, order[j], d)
  }

  /** Cars for the committed and for whoever of those pinned to can drive; everyone handled rides or is left out. */
  ghost predicate PinsHandled(inst: Instance, order: seq<NodeId>, cars: Cars, left: seq<NodeId>) {
    && (forall j :: 0 <= j < |order| ==> IsRider(inst, order[j]))
    && (forall d :: d in cars <==> (inst.Has(d) && inst.index[d].role.Driver?)
                                   || (Drives(inst, d) && PinnedToIn(inst, order, d)))
    && (forall p :: Seats(cars, p) || p in left <==> p in order)
  }

  lemma InsertedPassengers(inst: Instance, route: Route, rider: NodeId, c: Route)
    requires IsRider(inst, rider) && IsInsertion(inst, route, rider, c)
    ensures c.Passengers() == route.Passengers() + {rider}
  {
    var person := inst.index[rider];
    InsertionIsOption(inst, route, rider, c);
    if person.needsOutbound {
      var i :| 0 <= i < |Options(route.outbound, rider, true)| && Options(route.outbound, rider, true)[i] == c.outbound;
      InsertedOnce(route.outbound, i, rider);
    }
    if person.needsReturn {
      var i :| 0 <= i < |Options(route.inbound, rider, true)| && Options(route.inbound, rider, true)[i] == c.inbound;
      InsertedOnce(route.inbound, i, rider);
    }
    assert forall p :: p in c.Passengers() <==> p in route.Passengers() || p == rider;
  }

  /** What one pin step does to the cars and to who is seated. */
  lemma PinTurnSeats(inst: Instance, before: Cars, rider: NodeId, after: Cars, ok: bool)
    requires PinTurn(inst, before, rider, after, ok)
    ensures forall d :: d in after <==> d in before || (Drives(inst, d) && IsPinnedTo(inst, rider, d))
    ensures forall p :: Seats(after, p) <==> Seats(before, p) || (ok && p == rider)
  {
    hide BestInsertion, IsInsertion, Feasible;
    var target := inst.index[rider].pinnedDriver.value;
    var ready := Opened(inst, before, target);
    forall p ensures Seats(ready, p) <==> Seats(before, p) {
      if d :| d in before && p in before[d].Passengers() {
        SeatedIn(ready, d, p);
      }
      if d :| d in ready && p in ready[d].Passengers() {
        SeatedIn(before, d, p);
      }
    }
    if ok {
      InsertionFound(inst, ready[target], rider);
      InsertedPassengers(inst, ready[target], rider, after[target]);
      ReplacedSeats(ready, target, after[target], rider);
    }
  }

  lemma ReplacedSeats(cars: Cars, d: NodeId, c: Route, rider: NodeId)
    requires d in cars && c.Passengers() == cars[d].Passengers() + {rider}
    ensures forall p :: Seats(cars[d := c], p) <==> Seats(cars, p) || p == rider
  {
    var after := cars[d := c];
    forall p ensures Seats(after, p) <==> Seats(cars, p) || p == rider {
      if e :| e in cars && p in cars[e].Passengers() {
        SeatedIn(after, e, p);
      }
      if e :| e in after && p in after[e].Passengers() {
        assert p != rider ==> p in cars[e].Passengers();
      }
      SeatedIn(after, d, rider);
    }
  }

  lemma {:induction false} PinsAreHandled(inst: Instance, order: seq<NodeId>, steps: seq<PinStep>, cars: Cars,
                                          left: seq<NodeId>)
    requires PinsInTurn(inst, CommittedCars(inst), order, steps, cars, left)
    ensures PinsHandled(inst, order, cars, left)
    decreases |order|
  {
    hide PinTurn, PinsHandled;
    if order == [] {
      NoneHandled(inst, cars);
    } else {
      var n := |order| - 1;
      PinsAreHandled(inst, order[..n], steps[..n], steps[n].cars, steps[n].left);
      OneMoreHandled(inst, order, steps[n].cars, steps[n].left, cars, left);
    }
  }

  lemma NoneHandled(inst: Instance, cars: Cars)
    requires cars == CommittedCars(inst)
    ensures PinsHandled(inst, [], cars, [])
  {
    assert forall d :: d in cars ==> cars[d].Passengers() == {};
  }

  lemma OneMoreHandled(inst: Instance, order: seq<NodeId>, cars: Cars, left: seq<NodeId>, after: Cars,
                       now: seq<NodeId>)
    requires order != [] && PinsHandled(inst, order[..|order| - 1], cars, left)
    requires PinTurn(inst, cars, order[|order| - 1], after, now == left)
    requires now == left || now == left + [order[|order| - 1]]
    ensures PinsHandled(inst, order, after, now)
  {
    var n := |order| - 1;
    var rider := order[n];
    PinTurnSeats(inst, cars, rider, after, now == left);
    assert IsRider(inst, rider);
    hide PinTurn, Seats, IsPinnedTo, Drives, IsRider, PinnedToIn;
    assert forall p :: p in order <==> p in order[..n] || p == rider;
    forall d ensures PinnedToIn(inst, order, d) <==> PinnedToIn(inst, order[..n], d) || IsPinnedTo(inst, rider, d) {
      OneMorePinned(inst, order, d);
    }
  }

  lemma OneMorePinned(inst: Instance, order: seq<NodeId>, d: NodeId)
    requires order != []
    ensures var n := |order| - 1;
      PinnedToIn(inst, order, d) <==> PinnedToIn(inst, order[..n], d) || IsPinnedTo(inst, order[n], d)
  {
    hide IsPinnedTo;
    var n := |order| - 1;
    if j :| 0 <= j < |order| && IsPinnedTo(inst, order[j], d) {
      assert j < n ==> order[..n][j] == order[j];
    }
    if j :| 0 <= j < n && IsPinnedTo(inst, order[..n][j], d) {
      assert order[j] == order[..n][j];
    }
  }

  lemma {:induction false} PinnedOrderIs(people: seq<Participant>, id: NodeId)
    ensures id in PinnedOrder(people) <==>
      exists i :: 0 <= i < |people| && people[i].id == id && people[i].IsRider() && people[i].pinnedDriver.Some?
  {
    if people != [] {
      var n := |people| - 1;
      PinnedOrderIs(people[..n], id);
      assert forall i :: 0 <= i < n ==> people[..n][i] == people[i];
    }
  }

  /**
    * Exactly when the pin loop puts somebody in two places, driving and also seated or left out: when some flexible
    * rider is both pinned and pinned to. No other property of the event matters.
    */
  lemma PinsPlaceTwiceExactly(inst: Instance, steps: seq<PinStep>, cars: Cars, left: seq<NodeId>)
    requires inst.Valid() && PinsInTurn(inst, CommittedCars(inst), PinnedOrder(inst.participants), steps, cars, left)
    ensures (exists q :: q in cars && (Seats(cars, q) || q in left)) <==> !PinsAreOneDeep(inst)
  {
    hide PinsInTurn, PinnedOrder, Seats;
    var order := PinnedOrder(inst.participants);
    PinsAreHandled(inst, order, steps, cars, left);
    forall id ensures id in order <==> IsRider(inst, id) && inst.index[id].pinnedDriver.Some? {
      PinnedOrderIs(inst.participants, id);
    }
    if p, q :|
      IsPinnedTo(inst, p, q) && IsRider(inst, q) && inst.index[q].role.Either? && inst.index[q].pinnedDriver.Some?
    {
      assert p in order && q in order;
      var j :| 0 <= j < |order| && order[j] == p;
      assert q in cars;
    }
    if q :| q in cars && (Seats(cars, q) || q in left) {
      assert q in order;
      var j :| 0 <= j < |order| && IsPinnedTo(inst, order[j], q);
    }
  }

  // ---- One participant, pinned to themselves -------------------------------------------------------

  ghost function SelfPinned(): Instance {
    var p := Participant(0, Either, 1, 0, None, None, None, Some(0), true, false);
    Instance(0, 1, [p], Matrix((a, b) => 0), Weights(1.0, 1.0, 1.0, 1.0, 1.0, 1.0), map[0 := p])
  }

  lemma SelfPinFits(c: Route)
    requires c == Route(0, [0], [])
    ensures Feasible(SelfPinned(), c)
  {
    hide PathDuration, RoundTrip, RideOut, RideBack, OutboundSchedule;
    forall k ensures !Breaks(SelfPinned(), c, k) {
    }
  }

  lemma SelfPinHasSeat()
    ensures BestInsertion(SelfPinned(), EmptyCar(0), 0).Some?
  {
    hide Feasible, RouteCost, BestInsertion;
    var inst, empty, c := SelfPinned(), EmptyCar(0), Route(0, [0], []);
    SelfPinFits(c);
    assert InsertedAt(inst, empty, 0, 0, 0, c);
    assert IsInsertion(inst, empty, 0, c);
    BestInsertionIsBest(inst, empty, 0);
  }

  /** A flexible participant pinned to themselves is given a car and then a seat in it. */
  lemma SelfPinRidesInOwnCar(after: Cars, ok: bool)
    requires PinTurn(SelfPinned(), map[], 0, after, ok)
    ensures ok && 0 in after && Seats(after, 0) && !Apart(after)
  {
    hide BestInsertion, Feasible, Apart, Seats, IsInsertion;
    var inst := SelfPinned();
    SelfPinHasSeat();
    assert Opened(inst, map[], 0) == map[0 := EmptyCar(0)];
    InsertionFound(inst, EmptyCar(0), 0);
    PinnedAboard(inst, EmptyCar(0), 0, after[0]);
    SeatedIn(after, 0, 0);
    TwoPlaces(after, 0);
  }

  // ---- A committed driver whose own trip breaks a rule -----------------------------------------------

  /** With nobody to carry, a legal answer exists exactly when every committed driver may drive alone. */
  lemma NobodyRidesExactly(inst: Instance)
    requires inst.Valid() && forall p :: !IsRider(inst, p)
    ensures (exists cars, left :: WellFormed(inst, cars, left)) <==>
            forall d :: inst.Has(d) && inst.index[d].role.Driver? ==> Feasible(inst, EmptyCar(d))
  {
    hide Feasible, Coherent, EmptyCar;
    if cars, left :| WellFormed(inst, cars, left) {
      forall d | inst.Has(d) && inst.index[d].role.Driver? ensures Feasible(inst, EmptyCar(d)) {
        CarIsGood(inst, cars, d);
        NobodyAboard(inst, d, cars[d]);
      }
    }
    if forall d :: inst.Has(d) && inst.index[d].role.Driver? ==> Feasible(inst, EmptyCar(d)) {
      AloneIsCoherent(inst);
      assert WellFormed(inst, CommittedCars(inst), {});
    }
  }

  lemma NobodyAboard(inst: Instance, d: NodeId, route: Route)
    requires GoodCar(inst, d, route) && forall p :: !IsRider(inst, p)
    ensures route == EmptyCar(d)
  {
    hide IsRider, Distinct;
    forall i | 0 <= i < |route.outbound| ensures IsRider(inst, route.outbound[i]) {
      assert route.outbound[i] in route.Passengers();
    }
    forall i | 0 <= i < |route.inbound| ensures IsRider(inst, route.inbound[i]) {
      assert route.inbound[i] in route.Passengers();
    }
    SomeRiderAmong(inst, route.outbound);
    SomeRiderAmong(inst, route.inbound);
  }

  lemma SomeRiderAmong(inst: Instance, s: seq<NodeId>)
    requires forall i :: 0 <= i < |s| ==> IsRider(inst, s[i])
    ensures s != [] ==> exists p :: IsRider(inst, p)
  {
    if s != [] {
      assert IsRider(inst, s[0]);
    }
  }

  lemma AloneIsCoherent(inst: Instance)
    requires forall d :: inst.Has(d) && inst.index[d].role.Driver? ==> Feasible(inst, EmptyCar(d))
    ensures Coherent(inst, CommittedCars(inst)) && AllFeasible(inst, CommittedCars(inst))
  {
    hide Feasible;
    var cars := CommittedCars(inst);
    forall d | d in cars ensures GoodCar(inst, d, cars[d]) && cars[d].Passengers() == {} {
      EmptyIsGood(inst, d);
    }
  }

  // ---- A rider dropped off twice -----------------------------------------------------------------------

  ghost function OneRider(): Instance {
    var d := Participant(0, Driver, 2, 0, None, None, None, None, true, true);
    var r := Participant(1, Passenger, 0, 0, None, None, None, None, true, true);
    Instance(0, 1, [d, r], Matrix((a, b) => 0), Weights(1.0, 1.0, 1.0, 1.0, 1.0, 1.0), map[0 := d, 1 := r])
  }

  ghost function DroppedTwice(): Route {
    Route(0, [1], [1, 1])
  }

  lemma DroppedTwiceFits()
    ensures Feasible(OneRider(), DroppedTwice()) && LegsRight(OneRider(), DroppedTwice())
  {
    hide PathDuration, RoundTrip, RideOut, RideBack, OutboundSchedule;
    assert forall p :: p in DroppedTwice().Passengers() <==> p == 1;
    forall k ensures !Breaks(OneRider(), DroppedTwice(), k) {
    }
  }

  lemma DroppedTwiceCounts(id: NodeId)
    ensures Appearances(DroppedTwice(), id) == if id == 0 || id == 1 then 1 else 0
  {
    assert multiset([1])[id] == if id == 1 then 1 else 0;
    assert multiset([1, 1])[id] == if id == 1 then 2 else 0;
  }

  /** The checker passes a car that drops the same rider off twice: riding out, they are only counted there. */
  lemma DroppedTwicePasses()
    ensures Clean(OneRider(), Solution([DroppedTwice()], []))
    ensures !Separate([DroppedTwice()])
  {
    hide Feasible, LegsRight, Appearances;
    var sol := Solution([DroppedTwice()], []);
    DroppedTwiceFits();
    forall id ensures Assigned(sol, id) == if id == 0 || id == 1 then 1 else 0 {
      DroppedTwiceCounts(id);
      assert sol.routes[..0] == [];
      assert RouteCount([], id) == 0;
      assert RouteCount(sol.routes, id) == RouteCount(sol.routes[..0], id) + Appearances(sol.routes[0], id);
    }
    assert forall v :: !LateViolation(OneRider(), v);
    hide Clean;
    assert !Distinct(DroppedTwice().inbound) by {
      assert DroppedTwice().inbound[0] == DroppedTwice().inbound[1];
    }
    assert !Single(DroppedTwice());
  }

  // ---- An earlier rider who has come to need the other leg ---------------------------------------------

  lemma WayOutFits()
    ensures Feasible(OneRider(), Route(0, [1], []))
  {
    hide PathDuration, RoundTrip, RideOut, RideBack, OutboundSchedule;
    assert forall p :: p in Route(0, [1], []).Passengers() <==> p == 1;
    forall k ensures !Breaks(OneRider(), Route(0, [1], []), k) {
    }
  }

  /** Carried out before and needing both legs now, the rider is kept on the way out alone, in a car that passes. */
  lemma RepairLosesALeg()
    ensures var previous := [Route(0, [1], [])];
      var kept := Kept(OneRider(), WarmDrivers(OneRider(), previous), previous[0]);
      && Separate(previous) && !Repairable(OneRider(), previous)
      && kept == previous[0] && Feasible(OneRider(), kept)
      && !GoodCar(OneRider(), 0, kept) && !LegsRight(OneRider(), kept)
  {
    hide Feasible;
    WayOutFits();
    var previous := [Route(0, [1], [])];
    var drivers := WarmDrivers(OneRider(), previous);
    OnlyRiderStays(drivers);
    assert previous[0].driver in drivers;
    assert 1 in Kept(OneRider(), drivers, previous[0]).Passengers();
    assert !LegsNotGrown(OneRider(), drivers, previous[0]);
  }

  lemma OnlyRiderStays(drivers: set<NodeId>)
    requires 1 !in drivers
    ensures StayOn(OneRider(), drivers, 0, [1], true) == [1] && StayOn(OneRider(), drivers, 0, [], false) == []
  {
    assert [1][..0] == [];
    assert StayOn(OneRider(), drivers, 0, [], true) == [];
  }
}
