/** Greedy construction: pins first, then everyone else, then every car in its best order. */
module Greedy {
  import opened Models
  import opened Sorting
  import opened Feasibility
  import opened Validation
  import opened Sequence
  import opened Insertion
  import opened Fleet
  import opened Search
  import opened Seating
  import opened Evaluation
  import opened Outcome

  const DEFAULT_CANDIDATES := 10

  ghost predicate IsPinnedTo(inst: Instance, r: NodeId, d: NodeId) {
    IsRider(inst, r) && inst.index[r].pinnedDriver == Some(d)
  }

  /** No flexible rider is both pinned and pinned to, themselves included: the pin loop would place them twice. */
  ghost predicate PinsAreOneDeep(inst: Instance) {
    forall p, q :: IsPinnedTo(inst, p, q) && IsRider(inst, q) && inst.index[q].role.Either? ==>
      inst.index[q].pinnedDriver.None?
  }

  /** Their car is opened unchecked: the committed drive anyway, and so does the flexible target of a rider's pin. */
  ghost predicate OpensUnchecked(inst: Instance, d: NodeId) {
    inst.Has(d) && (inst.index[d].role.Driver? || (inst.index[d].role.Either? && exists r :: IsPinnedTo(inst, r, d)))
  }

  /** Driving there and back alone breaks no rule of anybody whose car is opened unchecked. */
  ghost predicate SoloFeasible(inst: Instance) {
    forall d :: OpensUnchecked(inst, d) ==> Feasible(inst, EmptyCar(d))
  }

  function CommittedCars(inst: Instance): Cars {
    map d | d in inst.index && inst.index[d].role.Driver? :: EmptyCar(d)
  }

  lemma CommittedCarsCoherent(inst: Instance)
    requires SoloFeasible(inst)
    ensures Coherent(inst, CommittedCars(inst)) && AllFeasible(inst, CommittedCars(inst))
    ensures forall p :: Placed(CommittedCars(inst), p) <==> inst.Has(p) && inst.index[p].role.Driver?
    ensures forall p :: !Seats(CommittedCars(inst), p)
  {
    hide Feasible;
    var cars := CommittedCars(inst);
    forall d | d in cars ensures GoodCar(inst, d, cars[d]) && cars[d].Passengers() == {} {
      EmptyIsGood(inst, d);
    }
  }

  /** Where the pin loop stands: only committed drivers, pin targets and handled pinned riders are placed. */
  ghost predicate PinsSeated(inst: Instance, cars: Cars, unassigned: seq<NodeId>, handled: set<NodeId>) {
    && Coherent(inst, cars) && AllFeasible(inst, cars)
    && (forall d :: inst.Has(d) && inst.index[d].role.Driver? ==> d in cars)
    && (forall d :: d in cars ==>
          inst.Has(d) && (inst.index[d].role.Driver? || !IsRider(inst, d) || inst.index[d].pinnedDriver.None?))
    && (forall p :: Seats(cars, p) ==> p in handled)
    && (forall p :: p in handled ==> IsRider(inst, p) && inst.index[p].pinnedDriver.Some?
                                     && (Seats(cars, p) || p in unassigned))
    && (forall p :: p in unassigned ==> p in handled && !Placed(cars, p))
    && Distinct(unassigned)
    && (forall d :: d in cars ==> inst.index[d].role.Driver? || IsRider(inst, d) || exists r :: IsPinnedTo(inst, r, d))
  }

  lemma PinsStart(inst: Instance)
    requires SoloFeasible(inst)
    ensures PinsSeated(inst, CommittedCars(inst), [], {})
  {
    hide Feasible, Coherent;
    CommittedCarsCoherent(inst);
  }

  /** Opening the car of a pin target; a pinned rider's target is never pinned itself. */
  lemma PinOpens(inst: Instance, cars: Cars, unassigned: seq<NodeId>, handled: set<NodeId>, target: NodeId)
    requires PinsSeated(inst, cars, unassigned, handled) && SoloFeasible(inst)
    requires inst.Has(target) && inst.index[target].role.CanDrive() && target !in cars
    requires !IsRider(inst, target) || inst.index[target].pinnedDriver.None?
    requires exists r :: IsPinnedTo(inst, r, target)
    ensures PinsSeated(inst, cars[target := EmptyCar(target)], unassigned, handled)
    ensures forall p :: Seats(cars[target := EmptyCar(target)], p) <==> Seats(cars, p)
  {
    hide Feasible, Coherent, Distinct;
    assert !Placed(cars, target);
    assert OpensUnchecked(inst, target);
    OpenCar(inst, cars, target);
  }

  lemma PinSeats(inst: Instance, cars: Cars, unassigned: seq<NodeId>, handled: set<NodeId>,
                 target: NodeId, rider: NodeId, c: Route)
    requires PinsSeated(inst, cars, unassigned, handled)
    requires target in cars && IsRider(inst, rider) && inst.index[rider].pinnedDriver.Some? && rider !in handled
    requires IsInsertion(inst, cars[target], rider, c) && Feasible(inst, c)
    ensures PinsSeated(inst, cars[target := c], unassigned, handled + {rider})
  {
    hide Feasible, Coherent, IsInsertion, Distinct;
    assert rider !in cars;
    SeatInto(inst, cars, target, rider, c);
  }

  lemma PinFails(inst: Instance, cars: Cars, unassigned: seq<NodeId>, handled: set<NodeId>, rider: NodeId)
    requires PinsSeated(inst, cars, unassigned, handled)
    requires IsRider(inst, rider) && inst.index[rider].pinnedDriver.Some? && rider !in handled
    ensures PinsSeated(inst, cars, unassigned + [rider], handled + {rider})
  {
    hide Feasible, Coherent;
    assert rider !in cars;
    assert forall p :: p in unassigned + [rider] <==> p in unassigned || p == rider;
  }

  /** The cars once a pin target who can drive has one. */
  ghost function Opened(inst: Instance, cars: Cars, target: NodeId): Cars {
    if target !in cars && inst.Has(target) && inst.index[target].role.CanDrive()
    then cars[target := EmptyCar(target)] else cars
  }

  /** One step of the pin loop: the target's car opened if need be, then the cheapest seat in it, if any. */
  ghost predicate PinTurn(inst: Instance, before: Cars, rider: NodeId, after: Cars, ok: bool) {
    && IsRider(inst, rider) && inst.index[rider].pinnedDriver.Some?
    && var target := inst.index[rider].pinnedDriver.value;
       var cars := Opened(inst, before, target);
       && (target in cars ==> inst.Has(cars[target].driver))
       && var insertion := if target in cars then BestInsertion(inst, cars[target], rider) else None;
          && ok == insertion.Some?
          && after == if ok then cars[target := insertion.value.0] else cars
  }

  /** One pinned rider, seated in their driver's car or left out. */
  method SeatPinned(inst: Instance, st: State, rider: NodeId, ghost unassigned: seq<NodeId>, ghost handled: set<NodeId>)
    returns (ok: bool)
    requires inst.Valid() && SoloFeasible(inst) && PinsAreOneDeep(inst)
    requires PinsSeated(inst, st.routes, unassigned, handled)
    requires IsRider(inst, rider) && inst.index[rider].pinnedDriver.Some? && rider !in handled
    modifies st`routes
    ensures PinsSeated(inst, st.routes, if ok then unassigned else unassigned + [rider], handled + {rider})
    ensures PinTurn(inst, old(st.routes), rider, st.routes, ok)
    ensures Keeps(old(st.routes), st.routes)
    ensures !ok ==> PinRefused(inst, st.routes, rider)
  {
    hide PinsSeated, SoloFeasible, Feasible, BestInsertion, IsInsertion, Coherent, GoodCar;
    var target := inst.index[rider].pinnedDriver.value;
    if target !in st.routes && inst.Has(target) && inst.index[target].role.CanDrive() {
      assert IsPinnedTo(inst, rider, target);
      PinTargetFree(inst, st.routes, unassigned, handled, rider, target);
      PinOpens(inst, st.routes, unassigned, handled, target);
      st.routes := st.routes[target := EmptyCar(target)];
    }
    ghost var ready := st.routes;
    assert ready == Opened(inst, old(st.routes), target);
    var insertion: Choice := None;
    PinsCoherent(inst, st.routes, unassigned, handled);
    if target in st.routes {
      CarIsGood(inst, st.routes, target);
      insertion := FindInsertion(inst, null, st.routes[target], rider);
      InsertionFound(inst, st.routes[target], rider);
    }
    ok := insertion.Some?;
    if ok {
      PinSeats(inst, st.routes, unassigned, handled, target, rider, insertion.value.0);
      PinSeatsKeeps(inst, st.routes, unassigned, handled, target, rider, insertion.value.0);
      st.routes := st.routes[target := insertion.value.0];
      KeepsMore(old(st.routes), ready, st.routes);
    } else {
      PinFails(inst, st.routes, unassigned, handled, rider);
    }
  }

  lemma PinSeatsKeeps(inst: Instance, cars: Cars, unassigned: seq<NodeId>, handled: set<NodeId>,
                      target: NodeId, rider: NodeId, c: Route)
    requires PinsSeated(inst, cars, unassigned, handled)
    requires target in cars && IsRider(inst, rider) && rider !in handled && inst.index[rider].pinnedDriver.Some?
    requires IsInsertion(inst, cars[target], rider, c)
    ensures Keeps(cars, cars[target := c])
  {
    hide Coherent, AllFeasible, IsInsertion, IsRider;
    CarIsGood(inst, cars, target);
    assert !Seats(cars, rider);
    PinNotDriving(inst, cars, unassigned, handled, rider);
    InsertionFacts(inst, target, cars[target], rider, c);
  }

  lemma PinNotDriving(inst: Instance, cars: Cars, unassigned: seq<NodeId>, handled: set<NodeId>, rider: NodeId)
    requires PinsSeated(inst, cars, unassigned, handled)
    requires IsRider(inst, rider) && inst.index[rider].pinnedDriver.Some?
    ensures rider !in cars
  {
    hide Coherent, AllFeasible;
  }

  lemma PinsCoherent(inst: Instance, cars: Cars, unassigned: seq<NodeId>, handled: set<NodeId>)
    requires PinsSeated(inst, cars, unassigned, handled)
    ensures Coherent(inst, cars) && AllFeasible(inst, cars)
  {
  }

  /** Every car the pin loop opens is committed, or its driver rides, or somebody without a car is pinned to it. */
  lemma PinsStrandNobody(inst: Instance, cars: Cars, unassigned: seq<NodeId>, handled: set<NodeId>)
    requires PinsSeated(inst, cars, unassigned, handled)
    ensures NoneStranded(inst, cars.Keys)
  {
    hide Coherent, AllFeasible, Distinct;
    forall d | d in cars ensures !Stranded(inst, cars.Keys, d) {
      if !inst.index[d].role.Driver? && !IsRider(inst, d) {
        var r :| IsPinnedTo(inst, r, d);
        assert PinnedOutside(inst, cars.Keys, d, r);
      }
    }
  }

  lemma PinTargetFree(inst: Instance, cars: Cars, unassigned: seq<NodeId>, handled: set<NodeId>,
                      rider: NodeId, target: NodeId)
    requires PinsSeated(inst, cars, unassigned, handled) && PinsAreOneDeep(inst)
    requires IsPinnedTo(inst, rider, target)
    requires inst.Has(target) && inst.index[target].role.CanDrive() && target !in cars
    ensures !IsRider(inst, target) || inst.index[target].pinnedDriver.None?
  {
    hide Coherent, AllFeasible;
  }

  ghost function PinnedRiders(inst: Instance): set<NodeId> {
    set p | p in inst.index && inst.index[p].IsRider() && inst.index[p].pinnedDriver.Some?
  }

  ghost function PinnedAmong(inst: Instance, people: seq<Participant>): set<NodeId> {
    set p | p in people && p.IsRider() && p.pinnedDriver.Some? :: p.id
  }

  lemma PinnedMore(inst: Instance, i: nat)
    requires inst.Valid() && i < |inst.participants|
    ensures var p := inst.participants[i];
      var before := PinnedAmong(inst, inst.participants[..i]);
      && p.id !in before && inst.Has(p.id) && inst.index[p.id] == p
      && PinnedAmong(inst, inst.participants[..i + 1])
         == if p.IsRider() && p.pinnedDriver.Some? then before + {p.id} else before
  {
    var people := inst.participants;
    var p := people[i];
    assert people[..i + 1] == people[..i] + [p];
    assert forall q :: q in people[..i] ==> q.id != p.id;
    assert forall id :: id in PinnedAmong(inst, people[..i + 1]) <==>
      id in PinnedAmong(inst, people[..i]) || (p.IsRider() && p.pinnedDriver.Some? && id == p.id);
  }

  lemma PinnedAll(inst: Instance)
    requires inst.Valid()
    ensures PinnedAmong(inst, inst.participants) == PinnedRiders(inst)
    ensures PinnedAmong(inst, inst.participants[..0]) == {}
  {
    assert forall id :: id in PinnedAmong(inst, inst.participants) <==> id in PinnedRiders(inst);
    assert forall id :: id in PinnedAmong(inst, inst.participants[..0]) <==> id in {};
  }

  lemma PinLeftMore(inst: Instance, candidates: nat, before: Cars, after: Cars, left: seq<NodeId>, rider: NodeId,
                    ok: bool)
    requires AllTurnedAway(inst, candidates, null, before, Elements(left)) && Keeps(before, after)
    requires !ok ==> PinRefused(inst, after, rider)
    ensures AllTurnedAway(inst, candidates, null, after, Elements(if ok then left else left + [rider]))
  {
    hide TurnedAway, Keeps, PinRefused;
    StillTurnedAway(inst, candidates, null, before, after, Elements(left));
    if !ok {
      PinIsRefused(inst, candidates, null, after, rider);
      assert forall x :: x in Elements(left + [rider]) <==> x in Elements(left) || x == rider;
    }
  }

  /** Pinned riders, in roster order. */
  ghost function PinnedOrder(people: seq<Participant>): seq<NodeId> {
    var n := |people|;
    if n == 0 then []
    else PinnedOrder(people[..n - 1])
         + if people[n - 1].IsRider() && people[n - 1].pinnedDriver.Some? then [people[n - 1].id] else []
  }

  /** Whoever is earlier on the roster has their turn earlier. */
  lemma {:induction false} PinnedInRosterOrder(people: seq<Participant>, a: nat, b: nat)
    requires a < b < |people|
    requires people[a].IsRider() && people[a].pinnedDriver.Some? && people[b].IsRider() && people[b].pinnedDriver.Some?
    ensures exists i, j ::
      0 <= i < j < |PinnedOrder(people)| && PinnedOrder(people)[i] == people[a].id
      && PinnedOrder(people)[j] == people[b].id
  {
    var n := |people| - 1;
    var front, order := PinnedOrder(people[..n]), PinnedOrder(people);
    assert people[..n][a] == people[a];
    if b < n {
      assert people[..n][b] == people[b];
      PinnedInRosterOrder(people[..n], a, b);
      var i, j :| 0 <= i < j < |front| && front[i] == people[a].id && front[j] == people[b].id;
      assert order[i] == front[i] && order[j] == front[j];
    } else {
      HasTheirTurn(people[..n], a);
      var i :| 0 <= i < |front| && front[i] == people[a].id;
      assert order[i] == front[i] && order[|front|] == people[b].id;
    }
  }

  lemma {:induction false} HasTheirTurn(people: seq<Participant>, a: nat)
    requires a < |people| && people[a].IsRider() && people[a].pinnedDriver.Some?
    ensures people[a].id in PinnedOrder(people)
  {
    var n := |people| - 1;
    if a < n {
      assert people[..n][a] == people[a];
      HasTheirTurn(people[..n], a);
    }
  }

  /** What a pinned rider meets: the cars, and whoever has been left out. */
  datatype PinStep = PinStep(cars: Cars, left: seq<NodeId>)

  /** From `start`, pin steps for the riders of `order` in turn lead to `cars`, leaving out `left`. */
  ghost predicate PinsInTurn(inst: Instance, start: Cars, order: seq<NodeId>, steps: seq<PinStep>, cars: Cars,
                             left: seq<NodeId>)
    decreases |order|
  {
    var n := |order|;
    && |steps| == n
    && if n == 0 then cars == start && left == []
       else
         var t := steps[n - 1];
         && PinsInTurn(inst, start, order[..n - 1], steps[..n - 1], t.cars, t.left)
         && PinTurn(inst, t.cars, order[n - 1], cars, left == t.left)
         && (left == t.left || left == t.left + [order[n - 1]])
  }

  lemma PinsInTurnMore(inst: Instance, start: Cars, people: seq<Participant>, i: nat, steps: seq<PinStep>, cars: Cars,
                       left: seq<NodeId>, after: Cars, ok: bool)
    requires i < |people| && people[i].IsRider() && people[i].pinnedDriver.Some?
    requires PinsInTurn(inst, start, PinnedOrder(people[..i]), steps, cars, left)
    requires PinTurn(inst, cars, people[i].id, after, ok)
    ensures PinsInTurn(inst, start, PinnedOrder(people[..i + 1]), steps + [PinStep(cars, left)], after,
                       if ok then left else left + [people[i].id])
  {
    assert people[..i + 1][..i] == people[..i];
    hide PinTurn, PinsInTurn;
    OneMorePin(inst, start, PinnedOrder(people[..i]), steps, cars, left, people[i].id, after, ok);
  }

  lemma OneMorePin(inst: Instance, start: Cars, order: seq<NodeId>, steps: seq<PinStep>, cars: Cars, left: seq<NodeId>,
                   rider: NodeId, after: Cars, ok: bool)
    requires PinsInTurn(inst, start, order, steps, cars, left) && PinTurn(inst, cars, rider, after, ok)
    ensures PinsInTurn(inst, start, order + [rider], steps + [PinStep(cars, left)], after,
                       if ok then left else left + [rider])
  {
    hide PinTurn;
    assert (order + [rider])[..|order|] == order && |steps| == |order|;
    assert (steps + [PinStep(cars, left)])[..|order|] == steps;
    assert (if ok then left else left + [rider]) == left <==> ok;
  }

  lemma PinsInTurnSkips(people: seq<Participant>, i: nat)
    requires i < |people| && !(people[i].IsRider() && people[i].pinnedDriver.Some?)
    ensures PinnedOrder(people[..i + 1]) == PinnedOrder(people[..i])
  {
    assert people[..i + 1][..i] == people[..i];
  }

  /** The pin loop, in roster order. */
  method SeatAllPinned(inst: Instance, st: State, ghost candidates: nat)
    returns (left: seq<NodeId>, ghost steps: seq<PinStep>)
    requires inst.Valid() && SoloFeasible(inst) && PinsAreOneDeep(inst)
    requires st.routes == CommittedCars(inst)
    modifies st`routes
    ensures PinsSeated(inst, st.routes, left, PinnedRiders(inst))
    ensures PinsInTurn(inst, CommittedCars(inst), PinnedOrder(inst.participants), steps, st.routes, left)
    ensures AllTurnedAway(inst, candidates, null, st.routes, Elements(left))
  {
    hide PinsSeated, SoloFeasible, PinsAreOneDeep, PinnedAmong, PinnedRiders, CommittedCars, TurnedAway, PinTurn,
         PinRefused, Keeps, IsRider, PinsInTurn;
    left, steps := [], [];
    NoPinsYet(inst, st.routes);
    PinnedAll(inst);
    PinsStart(inst);
    for i := 0 to |inst.participants|
      invariant PinsSeated(inst, st.routes, left, PinnedAmong(inst, inst.participants[..i]))
      invariant PinsInTurn(inst, CommittedCars(inst), PinnedOrder(inst.participants[..i]), steps, st.routes, left)
      invariant AllTurnedAway(inst, candidates, null, st.routes, Elements(left))
    {
      PinnedMore(inst, i);
      var p := inst.participants[i];
      if p.IsRider() && p.pinnedDriver.Some? {
        RiderIs(inst, p);
        ghost var before := st.routes;
        var ok := SeatPinned(inst, st, p.id, left, PinnedAmong(inst, inst.participants[..i]));
        PinLeftMore(inst, candidates, before, st.routes, left, p.id, ok);
        PinsInTurnMore(inst, CommittedCars(inst), inst.participants, i, steps, before, left, st.routes, ok);
        steps := steps + [PinStep(before, left)];
        left := if ok then left else left + [p.id];
      } else {
        PinsInTurnSkips(inst.participants, i);
      }
    }
    assert inst.participants[..|inst.participants|] == inst.participants;
  }

  lemma NoPinsYet(inst: Instance, cars: Cars)
    ensures PinsInTurn(inst, cars, PinnedOrder(inst.participants[..0]), [], cars, [])
  {
  }

  lemma RiderIs(inst: Instance, p: Participant)
    requires inst.Has(p.id) && inst.index[p.id] == p && p.IsRider()
    ensures IsRider(inst, p.id)
  {
  }

  /** Unpinned riders without a car of their own yet. */
  function FreeRiders(inst: Instance, cars: Cars): set<NodeId> {
    set p | p in inst.index && inst.index[p].IsRider() && inst.index[p].pinnedDriver.None? && p !in cars
  }

  lemma FreeAreUnplaced(inst: Instance, cars: Cars, left: seq<NodeId>)
    requires PinsSeated(inst, cars, left, PinnedRiders(inst))
    ensures forall p :: p in FreeRiders(inst, cars) ==>
      IsRider(inst, p) && !Placed(cars, p) && inst.index[p].pinnedDriver.None?
    ensures forall p :: p in left ==> p !in FreeRiders(inst, cars)
  {
    hide Coherent, AllFeasible;
  }

  /** Both stages together leave everyone placed or listed once. */
  lemma ConstructionSettles(inst: Instance, before: Cars, pinLeft: seq<NodeId>, cars: Cars, freeLeft: seq<NodeId>)
    requires PinsSeated(inst, before, pinLeft, PinnedRiders(inst))
    requires Distinct(freeLeft) && Elements(freeLeft) <= FreeRiders(inst, before)
    requires Grown(inst, before, cars, FreeRiders(inst, before) - Elements(freeLeft))
    ensures WellFormed(inst, cars, Elements(pinLeft + freeLeft)) && Distinct(pinLeft + freeLeft)
    ensures NoneStranded(inst, cars.Keys)
  {
    hide Coherent, Feasible, NoneStranded;
    FreeAreUnplaced(inst, before, pinLeft);
    PinsStrandNobody(inst, before, pinLeft, PinnedRiders(inst));
    NoneStrandedLater(inst, before.Keys, cars.Keys);
    DistinctAppend(pinLeft, freeLeft, FreeRiders(inst, before));
    assert forall d :: d in cars ==> Feasible(inst, cars[d]);
    forall p ensures p in Elements(pinLeft + freeLeft) <==> p in pinLeft || p in Elements(freeLeft) {
    }
    forall p | IsRider(inst, p) ensures Placed(cars, p) || p in pinLeft || p in Elements(freeLeft) {
      if p in PinnedRiders(inst) {
      } else if p !in before {
        assert p in FreeRiders(inst, before);
      }
    }
    assert Settled(inst, cars, Elements(pinLeft + freeLeft), {});
  }

  lemma DistinctAppend(a: seq<NodeId>, b: seq<NodeId>, among: set<NodeId>)
    requires Distinct(a) && Distinct(b) && Elements(b) <= among && forall p :: p in a ==> p !in among
    ensures Distinct(a + b)
  {
    forall i, j | 0 <= i < |a| && 0 <= j < |b| ensures a[i] != b[j] {
      assert a[i] in a && b[j] in Elements(b);
    }
  }

  lemma KeepsWellFormed(inst: Instance, cars: Cars, left: set<NodeId>, d: NodeId, c: Route)
    requires WellFormed(inst, cars, left) && d in cars
    requires GoodCar(inst, d, c) && c.Passengers() == cars[d].Passengers() && Feasible(inst, c)
    ensures WellFormed(inst, cars[d := c], left)
  {
    hide GoodCar, Feasible;
    ReplaceCar(inst, cars, d, c, {});
  }

  /** Of the cars, those of `done` are tidied and the others as they were. */
  ghost predicate TidiedSoFar(inst: Instance, cars: Cars, tidy: Cars, done: seq<NodeId>) {
    tidy.Keys == cars.Keys && forall d :: d in cars ==>
      if d in done then IsTidied(inst, cars[d], tidy[d]) else tidy[d] == cars[d]
  }

  lemma TidiedMore(inst: Instance, cars: Cars, before: Cars, tidy: Cars, order: seq<NodeId>, i: nat)
    requires i < |order| && Distinct(order) && order[i] in cars && TidiedSoFar(inst, cars, before, order[..i])
    requires order[i] in before && order[i] in tidy && IsTidied(inst, before[order[i]], tidy[order[i]])
    requires tidy == before[order[i] := tidy[order[i]]]
    ensures TidiedSoFar(inst, cars, tidy, order[..i + 1])
  {
    hide IsTidied;
    assert order[i] !in order[..i];
    assert order[..i + 1] == order[..i] + [order[i]];
  }

  /** Every car in its best order, or as it stands where that order breaks a rule. */
  method TidyAll(inst: Instance, cars: Cars, ghost left: set<NodeId>) returns (tidy: Cars)
    requires WellFormed(inst, cars, left)
    ensures WellFormed(inst, tidy, left) && tidy.Keys == cars.Keys && Keeps(cars, tidy)
    ensures forall d :: d in cars ==> IsTidied(inst, cars[d], tidy[d])
  {
    hide WellFormed, Sorted, IsTidied, Keeps, Distinct;
    tidy := cars;
    KeepsSame(cars);
    var order := Sorted(cars.Keys);
    for i := 0 to |order|
      invariant WellFormed(inst, tidy, left) && Keeps(cars, tidy) && TidiedSoFar(inst, cars, tidy, order[..i])
    {
      assert order[i] in order;
      ghost var before := tidy;
      tidy := TidyCar(inst, tidy, left, order[i]);
      KeepsMore(cars, before, tidy);
      TidiedMore(inst, cars, before, tidy, order, i);
    }
    assert order[..|order|] == order;
  }

  lemma KeepsSame(cars: Cars)
    ensures Keeps(cars, cars)
  {
  }

  method TidyCar(inst: Instance, cars: Cars, ghost left: set<NodeId>, d: NodeId) returns (tidy: Cars)
    requires WellFormed(inst, cars, left) && d in cars
    ensures WellFormed(inst, tidy, left) && tidy.Keys == cars.Keys
    ensures IsTidied(inst, cars[d], tidy[d]) && tidy == cars[d := tidy[d]]
    ensures Keeps(cars, tidy)
  {
    hide IsResequenced, Feasible, GoodCar, Settled;
    CarIsGood(inst, cars, d);
    var r := Resequence(inst, cars[d]);
    ResequencedIsGood(inst, d, cars[d], r);
    GoodIsKnown(inst, d, r);
    var ok := RouteFeasible(inst, r);
    if ok {
      KeepsWellFormed(inst, cars, left, d, r);
      tidy := cars[d := r];
    } else {
      tidy := cars;
    }
    assert IsTidied(inst, cars[d], tidy[d]);
  }

  /** How the unpinned are seated: in turn, those furthest from the venue first, or cheapest first. */
  ghost predicate FreeSeated(inst: Instance, candidates: nat, cheapest: bool, before: Cars, cars: Cars,
                             left: set<NodeId>) {
    var free := FreeRiders(inst, before);
    if cheapest then
      exists turns :: Fair(inst, candidates, null, None, before, free, turns, cars, left)
    else
      exists order: seq<NodeId>, states: seq<Cars> ::
        IsFurthestFirst(inst, free, order) && InTurnFrom(inst, candidates, null, order, states, before, cars, left)
  }

  /** All of `free`, each once, nobody before somebody further from the venue; of equals the lesser id is first. */
  ghost predicate IsFurthestFirst(inst: Instance, free: set<NodeId>, order: seq<NodeId>) {
    && |order| == |free| && (forall p :: p in order <==> p in free)
    && forall i, j :: 0 <= i < j < |order| ==>
         var far, near := Duration(inst.matrix, order[i], DESTINATION), Duration(inst.matrix, order[j], DESTINATION);
         far > near || (far == near && order[i] < order[j])
  }

  lemma FurthestFirstIs(inst: Instance, free: set<NodeId>)
    ensures IsFurthestFirst(inst, free, FurthestFirst(inst, free))
  {
    hide SortedBy, Duration;
    var order := FurthestFirst(inst, free);
    forall i, j | 0 <= i < j < |order|
      ensures
        var far, near := Duration(inst.matrix, order[i], DESTINATION), Duration(inst.matrix, order[j], DESTINATION);
        far > near || (far == near && order[i] < order[j])
    {
      SortedByOrder(free, p => -Duration(inst.matrix, p, DESTINATION), i, j);
    }
  }

  /** By distance to the venue, furthest first, then by id. */
  function FurthestFirst(inst: Instance, free: set<NodeId>): seq<NodeId> {
    SortedBy(free, p => -Duration(inst.matrix, p, DESTINATION))
  }

  ghost predicate InTurnFrom(inst: Instance, candidates: nat, search: Searcher?, order: seq<NodeId>, states: seq<Cars>,
                             before: Cars, cars: Cars, left: set<NodeId>) {
    && |states| == |order| + 1 && states[0] == before && states[|order|] == cars
    && InTurn(inst, candidates, search, order, states, left)
  }

  /** The unpinned riders: furthest first, or cheapest first when seats are short. */
  method SeatFree(inst: Instance, candidates: nat, cheapest: bool, st: State, free: set<NodeId>)
    returns (left: seq<NodeId>)
    requires Coherent(inst, st.routes) && free == FreeRiders(inst, st.routes)
    requires forall p :: p in free ==> IsRider(inst, p) && !Placed(st.routes, p) && inst.index[p].pinnedDriver.None?
    modifies st`routes
    ensures FreeSeated(inst, candidates, cheapest, old(st.routes), st.routes, Elements(left))
    ensures Distinct(left) && Elements(left) <= free
    ensures Grown(inst, old(st.routes), st.routes, free - Elements(left))
    ensures AllTurnedAway(inst, candidates, null, st.routes, Elements(left))
  {
    hide Sorted, SortedBy, Elements, Grown, Coherent, Placed, Distinct, Fair, InTurn, RefusedEarlier,
         RefusedSince, TurnedAway, FreeRiders, IsFurthestFirst;
    if cheapest {
      ElementsSorted(free);
      ghost var turns;
      left, turns := SeatCheapestFirst(inst, candidates, null, st, Sorted(free), None);
    } else {
      var order := FurthestFirst(inst, free);
      FurthestFirstIs(inst, free);
      ElementsOf(order, free);
      ghost var states;
      left, states := SeatInOrder(inst, candidates, null, st, order);
      assert InTurnFrom(inst, candidates, null, order, states, old(st.routes), st.routes, Elements(left));
    }
    FreeTurnedAway(inst, candidates, null, st.routes, Elements(left));
  }

  lemma AllLeft(inst: Instance, candidates: nat, before: Cars, cars: Cars, tidy: Cars, pinLeft: seq<NodeId>,
                freeLeft: seq<NodeId>, seated: set<NodeId>)
    requires AllTurnedAway(inst, candidates, null, before, Elements(pinLeft))
    requires AllTurnedAway(inst, candidates, null, cars, Elements(freeLeft))
    requires Grown(inst, before, cars, seated) && Keeps(cars, tidy)
    ensures AllTurnedAway(inst, candidates, null, tidy, Elements(pinLeft + freeLeft))
  {
    hide TurnedAway, Keeps, Coherent, Placed;
    StillTurnedAway(inst, candidates, null, before, cars, Elements(pinLeft));
    StillTurnedAway(inst, candidates, null, cars, tidy, Elements(pinLeft));
    StillTurnedAway(inst, candidates, null, cars, tidy, Elements(freeLeft));
    assert forall x :: x in Elements(pinLeft + freeLeft) <==> x in Elements(pinLeft) || x in Elements(freeLeft);
  }

  /** A run of the construction: the pins, then everyone else in the order asked for, then every car tidied. */
  ghost predicate Constructed(inst: Instance, candidates: nat, cheapest: bool, sol: Solution) {
    exists steps: seq<PinStep>, pinLeft: seq<NodeId>, before: Cars, freeLeft: seq<NodeId>, cars: Cars, tidy: Cars ::
      ConstructedBy(inst, candidates, cheapest, sol, steps, pinLeft, before, freeLeft, cars, tidy)
  }

  ghost predicate ConstructedBy(inst: Instance, candidates: nat, cheapest: bool, sol: Solution, steps: seq<PinStep>,
                                pinLeft: seq<NodeId>, before: Cars, freeLeft: seq<NodeId>, cars: Cars, tidy: Cars) {
    && PinsInTurn(inst, CommittedCars(inst), PinnedOrder(inst.participants), steps, before, pinLeft)
    && FreeSeated(inst, candidates, cheapest, before, cars, Elements(freeLeft))
    && tidy.Keys == cars.Keys && (forall d :: d in cars ==> IsTidied(inst, cars[d], tidy[d]))
    && sol == Solution(CarsInOrder(tidy), pinLeft + freeLeft)
  }

  /** `_construct`: a finished answer, for either order; nobody is left out who was not turned away. */
  method Construct(inst: Instance, candidates: nat, cheapest: bool) returns (sol: Solution, ghost cars: Cars)
    requires inst.Valid() && SoloFeasible(inst) && PinsAreOneDeep(inst)
    ensures WellFormed(inst, cars, Elements(sol.unassigned)) && Distinct(sol.unassigned)
    ensures sol.routes == CarsInOrder(cars) && NoneStranded(inst, cars.Keys)
    ensures Constructed(inst, candidates, cheapest, sol)
    ensures AllTurnedAway(inst, candidates, null, cars, Elements(sol.unassigned))
  {
    hide WellFormed, PinsSeated, SoloFeasible, PinsAreOneDeep, FreeRiders, PinnedRiders, CommittedCars,
         Elements, Grown, Coherent, Placed, IsRider, Distinct, AllTurnedAway, Keeps, IsTidied, PinsInTurn, FreeSeated,
         PinnedOrder, NoneStranded;
    var st := new State(CommittedCars(inst), {});
    var pinLeft;
    ghost var steps;
    pinLeft, steps := SeatAllPinned(inst, st, candidates);
    PinsCoherent(inst, st.routes, pinLeft, PinnedRiders(inst));
    FreeAreUnplaced(inst, st.routes, pinLeft);
    ghost var before := st.routes;
    var free := FreeRiders(inst, st.routes);
    var freeLeft := SeatFree(inst, candidates, cheapest, st, free);
    ConstructionSettles(inst, before, pinLeft, st.routes, freeLeft);
    var tidy := TidyAll(inst, st.routes, Elements(pinLeft + freeLeft));
    AllLeft(inst, candidates, before, st.routes, tidy, pinLeft, freeLeft, free - Elements(freeLeft));
    cars := tidy;
    sol := Solution(CarsInOrder(tidy), pinLeft + freeLeft);
    assert ConstructedBy(inst, candidates, cheapest, sol, steps, pinLeft, before, freeLeft, st.routes, tidy);
  }

  lemma ElementsOf(order: seq<NodeId>, s: set<NodeId>)
    requires forall x :: x in order <==> x in s
    ensures Elements(order) == s
  {
    assert forall x :: x in Elements(order) <==> x in s;
  }

  function SeatSum(people: seq<Participant>): nat {
    var n := |people|;
    if n == 0 then 0
    else SeatSum(people[..n - 1]) + if people[n - 1].role.CanDrive() then people[n - 1].seats else 0
  }

  function RiderCount(people: seq<Participant>): nat {
    var n := |people|;
    if n == 0 then 0 else RiderCount(people[..n - 1]) + if people[n - 1].IsRider() then 1 else 0
  }

  /** Fewer seats, of all who can drive, than riders. */
  predicate SeatShort(inst: Instance) {
    SeatSum(inst.participants) < RiderCount(inst.participants)
  }

  /** The furthest-first construction, or the cheapest-first one where seats are short and that costs strictly less. */
  ghost predicate IsGreedy(inst: Instance, candidates: nat, sol: Solution) {
    exists furthest, cheapest :: BetterOf(inst, candidates, sol, furthest, cheapest)
  }

  ghost predicate BetterOf(inst: Instance, candidates: nat, sol: Solution, furthest: Solution, cheapest: Solution) {
    && Constructed(inst, candidates, false, furthest)
    && (SeatShort(inst) ==> Constructed(inst, candidates, true, cheapest))
    && sol == if SeatShort(inst) && Evaluate(inst, cheapest, None).total < Evaluate(inst, furthest, None).total
              then cheapest else furthest
  }

  /** `greedy.solve`: feasible for every instance, and never dearer than the furthest-first construction. */
  method Solve(inst: Instance, candidates: nat) returns (sol: Solution, ghost cars: Cars)
    requires inst.Valid() && SoloFeasible(inst) && PinsAreOneDeep(inst)
    ensures WellFormed(inst, cars, Elements(sol.unassigned)) && Distinct(sol.unassigned)
    ensures sol.routes == CarsInOrder(cars) && NoneStranded(inst, cars.Keys)
    ensures Clean(inst, sol) <==> NobodyLate(inst)
    ensures AllTurnedAway(inst, candidates, null, cars, Elements(sol.unassigned))
    ensures IsGreedy(inst, candidates, sol)
    ensures exists furthest ::
      Constructed(inst, candidates, false, furthest)
      && Evaluate(inst, sol, None).total <= Evaluate(inst, furthest, None).total
  {
    hide WellFormed, SoloFeasible, PinsAreOneDeep, Evaluate, Elements, Distinct, Clean, CarsInOrder, NobodyLate,
         AllTurnedAway, Constructed, SeatShort, NoneStranded;
    sol, cars := Construct(inst, candidates, false);
    ghost var furthest, cheapest := sol, sol;
    if SeatShort(inst) {
      var other, otherCars := Construct(inst, candidates, true);
      cheapest := other;
      if Evaluate(inst, other, None).total < Evaluate(inst, sol, None).total {
        sol, cars := other, otherCars;
      }
    }
    assert BetterOf(inst, candidates, sol, furthest, cheapest);
    FinishedIsClean(inst, cars, sol);
  }

  lemma FinishedIsClean(inst: Instance, cars: Cars, sol: Solution)
    requires WellFormed(inst, cars, Elements(sol.unassigned)) && Distinct(sol.unassigned)
    requires sol.routes == CarsInOrder(cars)
    ensures Clean(inst, sol) <==> NobodyLate(inst)
  {
    hide WellFormed, CarsInOrder, Distinct, Feasible, LegsRight, AssignedOnce, LateViolation;
    assert sol == Solution(CarsInOrder(cars), sol.unassigned);
    if NobodyLate(inst) {
      WellFormedIsClean(inst, cars, sol.unassigned);
    }
  }
}
