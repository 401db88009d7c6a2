/** When the enumeration misses a legal car: seats are per leg, but columns count people over both legs. */
module Coverage {
  import opened Models
  import opened Sorting
  import opened Objective
  import opened Feasibility
  import opened Fleet
  import opened Seating
  import opened Evaluation
  import opened Outcome
  import opened Greedy
  import opened Hypotheses
  import opened Answers
  import opened Enumeration
  import opened Columns
  import opened Partition
  import opened Exact
  import opened Optimum

  ghost predicate MayJoin(inst: Instance, d: NodeId, p: NodeId) {
    IsRider(inst, p) && inst.index[p].PinAllows(d)
  }

  ghost predicate OutOnly(inst: Instance, d: NodeId, p: NodeId) {
    MayJoin(inst, d, p) && !inst.index[p].needsReturn
  }

  ghost predicate BackOnly(inst: Instance, d: NodeId, p: NodeId) {
    MayJoin(inst, d, p) && !inst.index[p].needsOutbound
  }

  /** Someone only going out and someone only coming back could share a seat, and there are more riders than seats. */
  ghost predicate SharesSeats(inst: Instance, d: NodeId)
    requires inst.Has(d)
  {
    && 0 < inst.index[d].seats < |Eligible(inst, d)|
    && (exists p :: OutOnly(inst, d, p))
    && (exists q :: BackOnly(inst, d, q))
  }

  lemma PassengersJoin(inst: Instance, d: NodeId, car: Route)
    requires inst.Valid() && GoodCar(inst, d, car) && Feasible(inst, car)
    ensures forall p :: p in car.Passengers() ==> MayJoin(inst, d, p)
    ensures car.Passengers() <= Elements(Eligible(inst, d))
    ensures |car.outbound| <= inst.index[d].seats && |car.inbound| <= inst.index[d].seats
  {
    hide Eligible, Distinct, RoundTrip, RideOut, RideBack, OutboundSchedule;
    EligibleAre(inst, d);
    assert !Breaks(inst, car, PinRule) && !Breaks(inst, car, SeatsRule);
  }

  lemma LegSize(leg: seq<NodeId>, people: set<NodeId>)
    requires Distinct(leg) && forall p :: p in people ==> p in leg
    ensures |people| <= |leg|
  {
    hide Distinct;
    DistinctSize(leg);
    assert forall p :: p in people ==> p in Elements(leg);
    SubsetSize(people, Elements(leg));
  }

  /** Where nobody can share a seat, everyone in a legal car has one. */
  lemma EveryoneHasASeat(inst: Instance, d: NodeId, car: Route)
    requires inst.Valid() && GoodCar(inst, d, car) && Feasible(inst, car) && !SharesSeats(inst, d)
    ensures |car.Passengers()| <= inst.index[d].seats
  {
    hide Eligible, Feasible, Route.Passengers;
    PassengersJoin(inst, d, car);
    EligibleAre(inst, d);
    DistinctSize(Eligible(inst, d));
    SubsetSize(car.Passengers(), Elements(Eligible(inst, d)));
    if forall p :: !OutOnly(inst, d, p) {
      forall p | p in car.Passengers() ensures p in car.inbound {
        assert !OutOnly(inst, d, p);
      }
      LegSize(car.inbound, car.Passengers());
    } else if forall q :: !BackOnly(inst, d, q) {
      forall q | q in car.Passengers() ensures q in car.outbound {
        assert !BackOnly(inst, d, q);
      }
      LegSize(car.outbound, car.Passengers());
    } else if inst.index[d].seats == 0 {
      NobodyFits(car);
    }
  }

  lemma NobodyFits(car: Route)
    requires |car.outbound| == 0 && |car.inbound| == 0
    ensures |car.Passengers()| == 0
  {
    assert forall p :: p in car.Passengers() <==> p in {};
  }

  lemma LegalIsRepresented(inst: Instance, cars: Cars, left: set<NodeId>)
    requires inst.Valid() && Supported(inst) && WellFormed(inst, cars, left)
    requires forall d :: d in DriverIds(inst) ==> inst.Has(d) && !SharesSeats(inst, d)
    ensures Represented(inst, cars)
  {
    hide Supported, WellFormed, Feasible, GoodCar, SharesSeats, DriverIds, Eligible;
    EveryoneDrives(inst, cars, left);
    forall d | d in cars ensures IsColumn(inst, d, cars[d].Passengers()) {
      assert d in Elements(DriverIds(inst));
      DriverIsLegal(inst, cars, left, d);
      PassengersJoin(inst, d, cars[d]);
      EveryoneHasASeat(inst, d, cars[d]);
    }
  }

  // ---- The other way round: a legal car that is no column ----------------------------------------------

  lemma {:induction false} SomeOf(s: set<NodeId>, k: nat) returns (t: set<NodeId>)
    requires k <= |s|
    ensures t <= s && |t| == k
  {
    if k == 0 {
      t := {};
    } else {
      assert |s| > 0;
      NonEmpty(s);
      var x :| x in s;
      var rest := SomeOf(s - {x}, k - 1);
      t := rest + {x};
    }
  }

  /** One rider more than seats, two of them sharing one. */
  lemma Crowd(inst: Instance, d: NodeId) returns (group: set<NodeId>)
    requires inst.Valid() && inst.Has(d) && SharesSeats(inst, d)
    ensures |group| == inst.index[d].seats + 1
    ensures forall p :: p in group ==> MayJoin(inst, d, p)
    ensures exists p :: p in group && OutOnly(inst, d, p)
    ensures exists q :: q in group && BackOnly(inst, d, q)
  {
    hide Eligible, Distinct, IsRider;
    EligibleAre(inst, d);
    var people := Elements(Eligible(inst, d));
    DistinctSize(Eligible(inst, d));
    var p :| OutOnly(inst, d, p);
    var q :| BackOnly(inst, d, q);
    NotBothOnly(inst, d, p);
    assert p != q && p in people && q in people;
    assert |people - {p, q}| == |people| - |{p, q}|;
    var rest := SomeOf(people - {p, q}, inst.index[d].seats - 1);
    group := rest + {p, q};
    assert |group| == |rest| + |{p, q}|;
    assert p in group && q in group;
  }

  lemma NotBothOnly(inst: Instance, d: NodeId, p: NodeId)
    requires OutOnly(inst, d, p)
    ensures !BackOnly(inst, d, p)
  {
  }

  lemma CrowdFits(inst: Instance, d: NodeId, group: set<NodeId>, c: Column)
    requires inst.Valid() && Supported(inst) && inst.Has(d) && inst.index[d].role.Driver?
    requires |group| == inst.index[d].seats + 1 && forall p :: p in group ==> MayJoin(inst, d, p)
    requires exists p :: p in group && OutOnly(inst, d, p)
    requires exists q :: q in group && BackOnly(inst, d, q)
    requires c == Column(d, Sorted(group))
    ensures GoodCar(inst, d, Raw(inst, c)) && Raw(inst, c).Passengers() == group && Feasible(inst, Raw(inst, c))
  {
    hide Supported, Only, Feasible, Sorted;
    var raw := Raw(inst, c);
    var p :| p in group && OutOnly(inst, d, p);
    var q :| q in group && BackOnly(inst, d, q);
    assert forall x :: x in raw.Passengers() <==> x in group;
    LegShorter(raw.outbound, group, q);
    LegShorter(raw.inbound, group, p);
    SupportedFeasible(inst, d, raw);
  }

  lemma LegShorter(leg: seq<NodeId>, group: set<NodeId>, x: NodeId)
    requires Distinct(leg) && x in group && x !in leg && forall y :: y in leg ==> y in group
    ensures |leg| < |group|
  {
    hide Distinct;
    DistinctSize(leg);
    assert forall y :: y in Elements(leg) ==> y in leg && y in group - {x};
    SubsetSize(Elements(leg), group - {x});
  }

  /** Drivers alone, everyone left out. */
  lemma NobodyAboardIsLegal(inst: Instance)
    requires inst.Valid() && Supported(inst)
    ensures WellFormed(inst, CommittedCars(inst), Elements(RiderIds(inst)))
  {
    hide Supported, Feasible, RiderIds, Distinct;
    RiderIdsAre(inst);
    forall d | inst.Has(d) && inst.index[d].role.Driver? ensures Feasible(inst, EmptyCar(d)) {
      EmptyIsGood(inst, d);
      SupportedFeasible(inst, d, EmptyCar(d));
    }
    AloneIsCoherent(inst);
    NobodySeated(inst);
  }

  lemma NobodySeated(inst: Instance)
    ensures forall p :: !Seats(CommittedCars(inst), p)
    ensures forall p :: IsRider(inst, p) ==> p !in CommittedCars(inst)
  {
    forall d | d in CommittedCars(inst) ensures CommittedCars(inst)[d].Passengers() == {} {
      EmptyIsGood(inst, d);
    }
  }

  /** A legal answer that no selection stands for. */
  lemma CrowdIsMissed(inst: Instance, d: NodeId) returns (cars: Cars, left: set<NodeId>)
    requires inst.Valid() && Supported(inst) && d in DriverIds(inst) && inst.Has(d) && SharesSeats(inst, d)
    ensures WellFormed(inst, cars, left) && !Represented(inst, cars)
  {
    hide Supported, Feasible, RiderIds, DriverIds, GoodCar, Raw, Coherent, SharesSeats, Sorted, CommittedCars;
    DriverIdsAre(inst);
    RiderIdsAre(inst);
    var group := Crowd(inst, d);
    var c := Column(d, Sorted(group));
    CrowdFits(inst, d, group, c);
    NobodyAboardIsLegal(inst);
    NobodySeated(inst);
    var alone := CommittedCars(inst);
    EveryoneDrives(inst, alone, Elements(RiderIds(inst)));
    assert d in alone && alone[d].Passengers() == {} by {
      DriverAlone(inst, d);
    }
    ReplaceCar(inst, alone, d, Raw(inst, c), group);
    cars := alone[d := Raw(inst, c)];
    left := Elements(RiderIds(inst)) - group;
    CrowdSettles(inst, alone, cars, group, left);
    assert !IsColumn(inst, d, cars[d].Passengers());
  }

  lemma DriverAlone(inst: Instance, d: NodeId)
    requires inst.Has(d) && inst.index[d].role.Driver?
    ensures d in CommittedCars(inst) && CommittedCars(inst)[d].Passengers() == {}
  {
  }

  lemma CrowdSettles(inst: Instance, alone: Cars, cars: Cars, group: set<NodeId>, left: set<NodeId>)
    requires inst.Valid() && WellFormed(inst, alone, Elements(RiderIds(inst)))
    requires Coherent(inst, cars) && AllFeasible(inst, cars) && cars.Keys == alone.Keys
    requires forall p :: Placed(cars, p) <==> Placed(alone, p) || p in group
    requires left == Elements(RiderIds(inst)) - group
    ensures WellFormed(inst, cars, left)
  {
    hide Coherent, Feasible, RiderIds, Placed, Away;
    RiderIdsAre(inst);
    forall p | p in left ensures IsRider(inst, p) && Away(inst, cars, p) {
      AwayIsUnplaced(inst, alone, p);
      UnplacedIsAway(inst, cars, p);
    }
  }

  /** Every legal answer is made of columns exactly when nobody could share a seat in anybody's car. */
  lemma ColumnsCoverExactly(inst: Instance)
    requires inst.Valid() && Supported(inst)
    ensures (forall cars, left :: WellFormed(inst, cars, left) ==> Represented(inst, cars)) <==>
            forall d :: d in DriverIds(inst) && inst.Has(d) ==> !SharesSeats(inst, d)
  {
    hide Supported, WellFormed, Represented, SharesSeats, DriverIds;
    DriverIdsAre(inst);
    if forall d :: d in DriverIds(inst) && inst.Has(d) ==> !SharesSeats(inst, d) {
      forall cars, left | WellFormed(inst, cars, left) ensures Represented(inst, cars) {
        LegalIsRepresented(inst, cars, left);
      }
    } else {
      var d :| d in DriverIds(inst) && inst.Has(d) && SharesSeats(inst, d);
      var cars, left := CrowdIsMissed(inst, d);
    }
  }

  /** There is always something to select, and so a minimum to find. */
  lemma AlwaysAdmissible(inst: Instance, m: Model)
    requires IsModel(inst, m)
    ensures exists sel :: Admissible(m, sel)
  {
    hide Supported, Built, Weighed, Admissible, WellFormed, ColumnsFor, RiderIds, DriverIds, CommittedCars;
    NobodyAboardIsLegal(inst);
    EmptyIsRepresented(inst);
    EncodeAdmissible(inst, m, CommittedCars(inst), Elements(RiderIds(inst)));
  }

  lemma EmptyIsRepresented(inst: Instance)
    ensures Represented(inst, CommittedCars(inst))
  {
    forall d | d in CommittedCars(inst) ensures CommittedCars(inst)[d].Passengers() == {} {
      EmptyIsGood(inst, d);
    }
  }

  /**
    * On a supported event where nobody could share a seat and the sequencer prices every column exactly, the answer
    * decoded from a minimum selection is legal and costs no more than any legal answer, up to rounding.
    */
  lemma ExactIsOptimal(inst: Instance, m: Model, sel: Selection, cars: Cars, other: Solution)
    requires IsModel(inst, m) && PricedExactly(inst) && IsMinimal(m, sel) && Decodes(inst, m, sel, cars)
    requires forall d :: d in DriverIds(inst) ==> inst.Has(d) && !SharesSeats(inst, d)
    requires Startable(inst, other)
    ensures var sol := ToSolution(cars, sel.left);
      && Startable(inst, sol)
      && Evaluate(inst, sol, None).total <= Evaluate(inst, other, None).total + Thousandths(inst)
  {
    hide IsModel, PricedExactly, Admissible, Decodes, Represented, Total, Minimised, Thousandths, Evaluate, Startable,
         WellFormed, SharesSeats, DriverIds, CarsOf, Elements, Sorted, CarsInOrder;
    ModelParts(inst, m);
    StartIsLegal(inst, other);
    LegalIsRepresented(inst, CarsOf(other.routes), Elements(other.unassigned));
    MinimumIsOptimal(inst, m, sel, cars, CarsOf(other.routes), Elements(other.unassigned));
    DecodedIsLegal(inst, m, sel, cars);
    ElementsSorted(sel.left);
    ListedIsStartable(inst, cars, Sorted(sel.left));
    EvaluateIsTotal(inst, None, ToSolution(cars, sel.left));
    EvaluateIsTotal(inst, None, other);
  }

  lemma StartIsLegal(inst: Instance, sol: Solution)
    requires Startable(inst, sol)
    ensures WellFormed(inst, CarsOf(sol.routes), Elements(sol.unassigned))
  {
  }

  // ---- One seat, one rider out, another back -----------------------------------------------------------------

  ghost function SharingInstance(): Instance {
    var d := Participant(0, Driver, 1, 0, None, None, None, None, true, true);
    var out := Participant(1, Passenger, 0, 0, None, None, None, None, true, false);
    var back := Participant(2, Passenger, 0, 0, None, None, None, None, false, true);
    Instance(0, 1, [d, out, back], Matrix((a, b) => 0), Weights(0.0, 0.0, 0.0, 0.0, 1.0, 0.0),
             map[0 := d, 1 := out, 2 := back])
  }

  ghost function SharedCar(): Route {
    Route(0, [1], [2])
  }

  lemma SharingIsSupported()
    ensures SharingInstance().Valid() && Supported(SharingInstance())
  {
  }

  lemma SharedCarFits()
    ensures Feasible(SharingInstance(), SharedCar()) && GoodCar(SharingInstance(), 0, SharedCar())
    ensures SharedCar().Passengers() == {1, 2}
  {
    hide PathDuration, RoundTrip, RideOut, RideBack, OutboundSchedule;
    assert forall p :: p in SharedCar().Passengers() <==> p == 1 || p == 2;
    forall k ensures !Breaks(SharingInstance(), SharedCar(), k) {
    }
  }

  lemma SharedCarIsLegal()
    ensures WellFormed(SharingInstance(), map[0 := SharedCar()], {})
  {
    hide Feasible, GoodCar, SharedCar;
    SharedCarFits();
    var cars: Cars := map[0 := SharedCar()];
    assert cars[0].Passengers() == {1, 2};
    assert Seats(cars, 1) && Seats(cars, 2);
  }

  /** No column has both riders, so every selection leaves somebody out. */
  lemma SomebodyIsLeft(m: Model, sel: Selection)
    requires IsModel(SharingInstance(), m) && Admissible(m, sel)
    ensures sel.left != {}
  {
    var inst := SharingInstance();
    hide IsModel, Admissible, DriverIds, RiderIds, SharingInstance, Elements, Distinct;
    if 1 !in sel.left && 2 !in sel.left {
      var i := TakenWith(m, sel, 1);
      var j := TakenWith(m, sel, 2);
      ModelParts(inst, m);
      ColumnsAre(inst, m, i);
      DriversPick(inst, m, sel, 0);
      assert IsPick(m, sel, 0, i) && IsPick(m, sel, 0, j);
      TwoAreTooMany(m.columns[i]);
    }
  }

  lemma SharingIds()
    ensures IsRider(SharingInstance(), 1) && IsRider(SharingInstance(), 2)
    ensures SharingInstance().Has(0) && SharingInstance().index[0].role.Driver?
  {
  }

  lemma TakenSomewhere(inst: Instance, m: Model, sel: Selection, r: NodeId) returns (i: nat)
    requires IsModel(inst, m) && Admissible(m, sel) && IsRider(inst, r) && r !in sel.left
    ensures TakesRider(m, sel, r, i) && m.columns[i].driver in m.byDriver
    ensures inst.Has(m.columns[i].driver) && inst.index[m.columns[i].driver].role.Driver?
  {
    hide IsModel, Admissible, DriverIds, RiderIds, Elements, Distinct, IsRider, AColumn;
    ModelParts(inst, m);
    BuiltKeys(inst, m);
    RidersPick(inst, m, sel, r);
    i :| TakesRider(m, sel, r, i);
    ColumnsAre(inst, m, i);
  }

  lemma TakenWith(m: Model, sel: Selection, r: NodeId) returns (i: nat)
    requires IsModel(SharingInstance(), m) && Admissible(m, sel) && (r == 1 || r == 2) && r !in sel.left
    ensures TakesRider(m, sel, r, i) && m.columns[i].driver == 0 && 0 in m.byDriver
  {
    hide IsModel, Admissible, IsRider, TakesRider;
    SharingIds();
    i := TakenSomewhere(SharingInstance(), m, sel, r);
    TakenIsColumn(m, sel, r, i);
  }

  lemma TakenIsColumn(m: Model, sel: Selection, r: NodeId, i: nat)
    requires TakesRider(m, sel, r, i)
    requires SharingInstance().Has(m.columns[i].driver) && SharingInstance().index[m.columns[i].driver].role.Driver?
    ensures m.columns[i].driver == 0
  {
  }

  lemma TwoAreTooMany(c: Column)
    requires AColumn(SharingInstance(), c) && c.driver == 0
    ensures !(1 in c.group && 2 in c.group)
  {
    hide Distinct;
    if 1 in c.group && 2 in c.group {
      SubsetSize({1, 2}, Elements(c.group));
    }
  }

  lemma OnlyTheLeftCost(cars: Cars, left: set<NodeId>)
    ensures Total(SharingInstance(), map[], cars, left) == UnassignedSum(SharingInstance(), Sorted(left)) as real
  {
    hide CarsInOrder, Sorted, UnassignedSum, MovedSum, SharingInstance;
    CostsNothing(CarsInOrder(cars));
    assert SharingInstance().weights == Weights(0.0, 0.0, 0.0, 0.0, 1.0, 0.0) by {
      SharingWeights();
    }
  }

  lemma SharingWeights()
    ensures SharingInstance().weights == Weights(0.0, 0.0, 0.0, 0.0, 1.0, 0.0)
  {
  }

  lemma {:induction false} CostsNothing(routes: seq<Route>)
    ensures CostSum(SharingInstance(), routes) == 0.0
  {
    hide RouteMetrics;
    if routes != [] {
      CostsNothing(routes[..|routes| - 1]);
      SharingWeights();
    }
  }

  lemma SomebodyCosts(left: set<NodeId>)
    requires left != {} && forall p :: p in left ==> p == 1 || p == 2
    ensures UnassignedSum(SharingInstance(), Sorted(left)) >= 1
  {
    hide Sorted;
    var s := Sorted(left);
    assert |s| == |left| > 0;
    assert s[|s| - 1] in s;
    NeverLess(s[..|s| - 1]);
  }

  lemma {:induction false} NeverLess(people: seq<NodeId>)
    ensures UnassignedSum(SharingInstance(), people) >= 0
  {
    if people != [] {
      NeverLess(people[..|people| - 1]);
    }
  }

  /**
    * A supported event on which the decoded minimum is dearer than a legal answer by far more than rounding: one seat,
    * a rider out and another back. Every selection leaves one of them out, and one car carries both.
    */
  lemma SharingIsMissed(m: Model, sel: Selection, cars: Cars)
    requires IsModel(SharingInstance(), m) && Admissible(m, sel) && Decodes(SharingInstance(), m, sel, cars)
    ensures SharingInstance().Has(0) && SharesSeats(SharingInstance(), 0)
    ensures exists other ::
      WellFormed(SharingInstance(), other, {})
      && Total(SharingInstance(), map[], other, {}) + 1.0 <= Total(SharingInstance(), map[], cars, sel.left)
  {
    SharingShares();
    var inst := SharingInstance();
    var other: Cars := map[0 := SharedCar()];
    hide IsModel, Admissible, Decodes, WellFormed, SharesSeats, Total, UnassignedSum, Sorted, SharingInstance, IsRider;
    SharedCarIsLegal();
    SomebodyIsLeft(m, sel);
    LeftRide(inst, m, sel);
    forall p | p in sel.left ensures p == 1 || p == 2 {
      SharingRiders(p);
    }
    SomebodyCosts(sel.left);
    OnlyTheLeftCost(cars, sel.left);
    OnlyTheLeftCost(other, {});
    NobodyCosts();
    assert WellFormed(inst, other, {});
  }

  lemma SharingRiders(p: NodeId)
    requires IsRider(SharingInstance(), p)
    ensures p == 1 || p == 2
  {
  }

  lemma NobodyCosts()
    ensures UnassignedSum(SharingInstance(), Sorted({})) == 0
  {
  }

  lemma SharingShares()
    ensures SharingInstance().Has(0) && SharesSeats(SharingInstance(), 0)
  {
    var inst := SharingInstance();
    SharingIsSupported();
    hide Eligible, Elements;
    assert OutOnly(inst, 0, 1) && BackOnly(inst, 0, 2);
    EligibleAre(inst, 0);
    assert 1 in Elements(Eligible(inst, 0)) && 2 in Elements(Eligible(inst, 0)) by {
      ElementsHold(Eligible(inst, 0));
    }
    DistinctSize(Eligible(inst, 0));
    SubsetSize({1, 2}, Elements(Eligible(inst, 0)));
  }

  lemma ElementsHold(s: seq<NodeId>)
    ensures forall p :: p in s <==> p in Elements(s)
  {
  }
}
