/**
  * Picking one car per driver is solving the event: what a selection decodes to, and when its minimum
  * is the optimum.
  */
module Exact {
  import opened Models
  import opened Sorting
  import opened Objective
  import opened Feasibility
  import opened Sequence
  import opened Fleet
  import opened Seating
  import opened Evaluation
  import opened Outcome
  import opened Enumeration
  import opened Columns
  import opened Partition

  // ---- Selections ----------------------------------------------------------------------------------

  /** A value for every variable: the columns taken and the riders left out. */
  datatype Selection = Selection(chosen: seq<bool>, left: set<NodeId>)

  ghost predicate Takes(indices: seq<nat>, chosen: seq<bool>, i: int) {
    i in indices && 0 <= i < |chosen| && chosen[i]
  }

  ghost predicate OnlyTakes(indices: seq<nat>, chosen: seq<bool>, i: int) {
    Takes(indices, chosen, i) && forall j :: Takes(indices, chosen, j) ==> j == i
  }

  ghost predicate ExactlyOne(indices: seq<nat>, chosen: seq<bool>) {
    exists i :: OnlyTakes(indices, chosen, i)
  }

  ghost predicate NoneTaken(indices: seq<nat>, chosen: seq<bool>) {
    forall i :: !Takes(indices, chosen, i)
  }

  /** Every `add_exactly_one` holds: one car per driver, each rider in one car or left out. */
  ghost predicate Admissible(m: Model, sel: Selection) {
    && |sel.chosen| == |m.columns| && sel.left <= m.byRider.Keys
    && (forall d :: d in m.byDriver ==> ExactlyOne(m.byDriver[d], sel.chosen))
    && (forall r :: r in m.byRider ==>
          if r in sel.left then NoneTaken(m.byRider[r], sel.chosen) else ExactlyOne(m.byRider[r], sel.chosen))
  }

  /** The model of an instance. */
  ghost predicate IsModel(inst: Instance, m: Model) {
    && inst.Valid() && Supported(inst) && Built(inst, m) && Weighed(inst, m)
    && m.columns == ColumnsFor(inst, DriverIds(inst))
  }

  /** The one column taken for a driver. */
  ghost predicate IsPick(m: Model, sel: Selection, d: NodeId, i: int) {
    0 <= i < |m.columns| && i < |sel.chosen| && sel.chosen[i] && m.columns[i].driver == d
  }

  lemma DriversPick(inst: Instance, m: Model, sel: Selection, d: NodeId)
    requires Built(inst, m) && Admissible(m, sel) && d in m.byDriver
    ensures exists i :: IsPick(m, sel, d, i)
    ensures forall i, j :: IsPick(m, sel, d, i) && IsPick(m, sel, d, j) ==> i == j
  {
    hide PricedAs, ListsRider, DriverIds, RiderIds, NoneTaken;
    assert ListsDriver(m.columns, d, m.byDriver[d]);
    var i :| OnlyTakes(m.byDriver[d], sel.chosen, i);
    assert IsPick(m, sel, d, i);
    forall j | IsPick(m, sel, d, j) ensures j == i {
      assert Takes(m.byDriver[d], sel.chosen, j);
    }
  }

  ghost function PickOf(m: Model, sel: Selection, d: NodeId): (i: int)
    ensures (exists j :: IsPick(m, sel, d, j)) ==> IsPick(m, sel, d, i)
  {
    if j :| IsPick(m, sel, d, j) then j else 0
  }

  ghost predicate TakesRider(m: Model, sel: Selection, r: NodeId, i: int) {
    0 <= i < |m.columns| && i < |sel.chosen| && sel.chosen[i] && r in m.columns[i].group
  }

  /** A rider is in at most one taken column, and in none exactly when left out. */
  lemma RidersPick(inst: Instance, m: Model, sel: Selection, r: NodeId)
    requires Built(inst, m) && Admissible(m, sel) && r in m.byRider
    ensures forall i, j :: TakesRider(m, sel, r, i) && TakesRider(m, sel, r, j) ==> i == j
    ensures r in sel.left <==> forall i :: !TakesRider(m, sel, r, i)
  {
    hide PricedAs, ListsDriver, DriverIds, RiderIds;
    var mine := m.byRider[r];
    assert ListsRider(m.columns, r, mine);
    forall i | TakesRider(m, sel, r, i) ensures Takes(mine, sel.chosen, i) {
    }
    if r !in sel.left {
      var i :| OnlyTakes(mine, sel.chosen, i);
      assert TakesRider(m, sel, r, i);
    }
  }

  // ---- What a selection decodes to -------------------------------------------------------------------

  /** Each taken column's car, its stops in sequenced order. */
  ghost predicate Decodes(inst: Instance, m: Model, sel: Selection, cars: Cars) {
    && cars.Keys == m.byDriver.Keys
    && (forall d :: d in cars ==> DecodesTo(inst, m, sel, d, cars[d]))
  }

  ghost predicate DecodesTo(inst: Instance, m: Model, sel: Selection, d: NodeId, car: Route) {
    exists i :: IsPick(m, sel, d, i) && IsResequenced(inst, Raw(inst, m.columns[i]), car)
  }

  /** A column's car is coherent and carries exactly its group. */
  lemma RawIsGood(inst: Instance, c: Column)
    requires inst.Valid() && AColumn(inst, c)
    ensures GoodCar(inst, c.driver, Raw(inst, c)) && Raw(inst, c).Passengers() == Elements(c.group)
    ensures |Raw(inst, c).outbound| <= Columns.SeatsOf(inst, c.driver)
    ensures |Raw(inst, c).inbound| <= Columns.SeatsOf(inst, c.driver)
  {
    hide Only, Distinct;
    DistinctSize(c.group);
    assert forall p :: p in Raw(inst, c).Passengers() <==> p in Elements(c.group);
  }

  lemma NotRestricted(inst: Instance, p: NodeId)
    requires inst.Valid() && Supported(inst) && inst.Has(p)
    ensures inst.index[p].earliestDeparture.None? && !inst.index[p].role.Either?
    ensures inst.index[p].role.Driver? ==> inst.index[p].maxDetour.None?
  {
    var i :| 0 <= i < |inst.participants| && inst.participants[i] == inst.index[p];
  }

  /** On a supported instance a car is legal exactly when its legs fit and its riders may ride with its driver. */
  lemma SupportedFeasible(inst: Instance, d: NodeId, route: Route)
    requires inst.Valid() && Supported(inst) && GoodCar(inst, d, route) && inst.index[d].role.Driver?
    ensures Feasible(inst, route) <==>
      && |route.outbound| <= inst.index[d].seats && |route.inbound| <= inst.index[d].seats
      && forall p :: p in route.Passengers() ==> inst.index[p].PinAllows(d)
  {
    hide RoundTrip, RideOut, RideBack, OutboundSchedule, Supported;
    GoodIsKnown(inst, d, route);
    NotRestricted(inst, d);
    forall i | 0 <= i < |route.outbound| ensures !TooEarly(inst, route, route.outbound[i]) {
      NotRestricted(inst, route.outbound[i]);
    }
    assert Breaks(inst, route, SeatsRule) <==>
      !(|route.outbound| <= inst.index[d].seats && |route.inbound| <= inst.index[d].seats);
    assert Breaks(inst, route, PinRule) <==> !forall p :: p in route.Passengers() ==> inst.index[p].PinAllows(d);
    assert !Breaks(inst, route, RoleRule) && !Breaks(inst, route, DetourRule) && !Breaks(inst, route, TimeRule);
  }

  lemma ColumnsAre(inst: Instance, m: Model, i: nat)
    requires IsModel(inst, m) && i < |m.columns|
    ensures AColumn(inst, m.columns[i]) && m.columns[i].driver in m.byDriver
  {
    hide Built, AColumn, ColumnsFor, Supported, Weighed, Distinct;
    DriverIdsAre(inst);
    assert forall k :: 0 <= k < |DriverIds(inst)| ==> DriverIds(inst)[k] in DriverIds(inst);
    ColumnsAreColumns(inst, DriverIds(inst), i);
    BuiltKeys(inst, m);
  }

  lemma BuiltKeys(inst: Instance, m: Model)
    requires Built(inst, m) && inst.Valid()
    ensures forall d :: d in m.byDriver <==> inst.Has(d) && inst.index[d].role.Driver?
    ensures forall r :: r in m.byRider <==> IsRider(inst, r)
    ensures m.byDriver.Keys == Elements(DriverIds(inst)) && m.byRider.Keys == Elements(RiderIds(inst))
  {
    hide PricedAs, ListsDriver, ListsRider, DriverIds, RiderIds;
    DriverIdsAre(inst);
    RiderIdsAre(inst);
  }

  /** One decoded car: its driver's, legal, and carrying the group it was chosen for. */
  lemma DecodedCar(inst: Instance, m: Model, sel: Selection, d: NodeId, car: Route, i: int)
    requires IsModel(inst, m) && IsPick(m, sel, d, i) && IsResequenced(inst, Raw(inst, m.columns[i]), car)
    ensures GoodCar(inst, d, car) && Feasible(inst, car) && car.Passengers() == Elements(m.columns[i].group)
  {
    hide Built, Weighed, Supported, Feasible, GoodCar, IsResequenced, Raw, ColumnsFor, Elements;
    var c := m.columns[i];
    ColumnsAre(inst, m, i);
    RawIsGood(inst, c);
    ResequencedIsGood(inst, d, Raw(inst, c), car);
    ResequencedSizes(inst, Raw(inst, c), car);
    SupportedFeasible(inst, d, car);
  }

  lemma ResequencedSizes(inst: Instance, route: Route, r: Route)
    requires IsResequenced(inst, route, r)
    ensures |r.outbound| == |route.outbound| && |r.inbound| == |route.inbound|
  {
    assert |multiset(r.outbound)| == |r.outbound| && |multiset(r.inbound)| == |r.inbound|;
    assert |multiset(route.outbound)| == |route.outbound| && |multiset(route.inbound)| == |route.inbound|;
  }

  lemma DecodedCars(inst: Instance, m: Model, sel: Selection, cars: Cars, d: NodeId)
    requires IsModel(inst, m) && Admissible(m, sel) && Decodes(inst, m, sel, cars) && d in cars
    ensures GoodCar(inst, d, cars[d]) && Feasible(inst, cars[d])
    ensures IsPick(m, sel, d, PickOf(m, sel, d))
    ensures cars[d].Passengers() == Elements(m.columns[PickOf(m, sel, d)].group)
    ensures IsResequenced(inst, Raw(inst, m.columns[PickOf(m, sel, d)]), cars[d])
  {
    hide Built, Admissible, Weighed, Supported, Feasible, GoodCar, IsResequenced, Raw, ColumnsFor, Elements;
    assert DecodesTo(inst, m, sel, d, cars[d]);
    var i :| IsPick(m, sel, d, i) && IsResequenced(inst, Raw(inst, m.columns[i]), cars[d]);
    DriversPick(inst, m, sel, d);
    DecodedCar(inst, m, sel, d, cars[d], i);
  }

  /** Nobody is decoded into two cars, and nobody left out is decoded into one. */
  lemma DecodedApart(inst: Instance, m: Model, sel: Selection, cars: Cars, p: NodeId, d: NodeId, e: NodeId)
    requires IsModel(inst, m) && Admissible(m, sel) && Decodes(inst, m, sel, cars)
    requires d in cars && e in cars && p in cars[d].Passengers() && p in cars[e].Passengers()
    ensures d == e && p !in sel.left
  {
    hide Admissible, Built, Weighed, Supported, Feasible, IsResequenced, Raw, ColumnsFor, Decodes;
    DecodedCars(inst, m, sel, cars, d);
    DecodedCars(inst, m, sel, cars, e);
    BuiltKeys(inst, m);
    assert IsRider(inst, p);
    RidersPick(inst, m, sel, p);
    assert TakesRider(m, sel, p, PickOf(m, sel, d));
    assert TakesRider(m, sel, p, PickOf(m, sel, e));
  }

  lemma DecodedSomewhere(inst: Instance, m: Model, sel: Selection, cars: Cars, p: NodeId)
    requires IsModel(inst, m) && Admissible(m, sel) && Decodes(inst, m, sel, cars)
    requires IsRider(inst, p) && p !in sel.left
    ensures Seats(cars, p)
  {
    hide Admissible, Built, Weighed, Supported, Feasible, IsResequenced, Raw, ColumnsFor, GoodCar;
    BuiltKeys(inst, m);
    RidersPick(inst, m, sel, p);
    var i :| TakesRider(m, sel, p, i);
    var d := m.columns[i].driver;
    ColumnsAre(inst, m, i);
    DecodedCars(inst, m, sel, cars, d);
    DriversPick(inst, m, sel, d);
    assert IsPick(m, sel, d, i);
    assert p in cars[d].Passengers();
  }

  lemma AdmissibleLeft(m: Model, sel: Selection)
    requires Admissible(m, sel)
    ensures sel.left <= m.byRider.Keys && |sel.chosen| == |m.columns|
  {
    hide ExactlyOne, NoneTaken;
  }

  lemma DecodedCoherent(inst: Instance, m: Model, sel: Selection, cars: Cars)
    requires IsModel(inst, m) && Admissible(m, sel) && Decodes(inst, m, sel, cars)
    ensures Coherent(inst, cars) && AllFeasible(inst, cars)
  {
    hide Admissible, Feasible, IsModel, GoodCar, Decodes;
    DecodedDisjoint(inst, m, sel, cars);
    DecodedGood(inst, m, sel, cars);
  }

  lemma DecodedDisjoint(inst: Instance, m: Model, sel: Selection, cars: Cars)
    requires IsModel(inst, m) && Admissible(m, sel) && Decodes(inst, m, sel, cars)
    ensures forall d, e, p ::
      d in cars && e in cars && p in cars[d].Passengers() && p in cars[e].Passengers() ==> d == e
  {
    hide Admissible, IsModel, Decodes, Route.Passengers;
    forall d, e, p | d in cars && e in cars && p in cars[d].Passengers() && p in cars[e].Passengers() ensures d == e {
      DecodedApart(inst, m, sel, cars, p, d, e);
    }
  }

  lemma DecodedGood(inst: Instance, m: Model, sel: Selection, cars: Cars)
    requires IsModel(inst, m) && Admissible(m, sel) && Decodes(inst, m, sel, cars)
    ensures forall d :: d in cars ==> GoodCar(inst, d, cars[d]) && Feasible(inst, cars[d])
    ensures forall d, e :: d in cars && e in cars ==> e !in cars[d].Passengers()
  {
    hide Admissible, Feasible, IsModel, GoodCar, Decodes, Route.Passengers;
    ModelParts(inst, m);
    BuiltKeys(inst, m);
    DecodesKeys(inst, m, sel, cars);
    forall d | d in cars ensures GoodCar(inst, d, cars[d]) && Feasible(inst, cars[d]) {
      DecodedCars(inst, m, sel, cars, d);
    }
    forall d, e | d in cars && e in cars ensures e !in cars[d].Passengers() {
      RidersOnly(inst, d, cars[d], e);
    }
  }

  lemma RidersOnly(inst: Instance, d: NodeId, route: Route, e: NodeId)
    requires GoodCar(inst, d, route) && inst.Has(e) && inst.index[e].role.Driver?
    ensures e !in route.Passengers()
  {
  }

  lemma DecodesKeys(inst: Instance, m: Model, sel: Selection, cars: Cars)
    requires Decodes(inst, m, sel, cars)
    ensures cars.Keys == m.byDriver.Keys
  {
  }

  lemma LeftIsNowhere(inst: Instance, m: Model, sel: Selection, cars: Cars, p: NodeId)
    requires IsModel(inst, m) && Admissible(m, sel) && Decodes(inst, m, sel, cars) && p in sel.left
    ensures IsRider(inst, p) && !Placed(cars, p)
  {
    hide Admissible, IsModel, Decodes, IsRider;
    ModelParts(inst, m);
    BuiltKeys(inst, m);
    DecodesKeys(inst, m, sel, cars);
    AdmissibleLeft(m, sel);
    if Seats(cars, p) {
      var d :| d in cars && p in cars[d].Passengers();
      DecodedApart(inst, m, sel, cars, p, d, d);
    }
    NotBoth(inst, p);
  }

  lemma CommittedDrive(inst: Instance, m: Model, sel: Selection, cars: Cars)
    requires IsModel(inst, m) && Admissible(m, sel) && Decodes(inst, m, sel, cars)
    ensures forall p :: inst.Has(p) && inst.index[p].role.Driver? ==> p in cars
  {
    hide Admissible, IsModel, Decodes, IsRider, Weighed, Supported;
    ModelParts(inst, m);
    BuiltKeys(inst, m);
    DecodesKeys(inst, m, sel, cars);
  }

  lemma DecodedSettled(inst: Instance, m: Model, sel: Selection, cars: Cars)
    requires IsModel(inst, m) && Admissible(m, sel) && Decodes(inst, m, sel, cars)
    ensures Settled(inst, cars, sel.left, {})
  {
    hide Admissible, IsModel, Decodes, IsRider, Seats;
    CommittedDrive(inst, m, sel, cars);
    forall p | p in sel.left ensures IsRider(inst, p) && !Placed(cars, p) {
      LeftIsNowhere(inst, m, sel, cars, p);
    }
    forall p | IsRider(inst, p) && p !in sel.left ensures Placed(cars, p) {
      DecodedSomewhere(inst, m, sel, cars, p);
    }
  }

  lemma NotBoth(inst: Instance, p: NodeId)
    ensures IsRider(inst, p) ==> !inst.index[p].role.Driver?
  {
  }

  /** Every admissible selection decodes to a legal answer in which every driver drives. */
  lemma DecodedIsLegal(inst: Instance, m: Model, sel: Selection, cars: Cars)
    requires IsModel(inst, m) && Admissible(m, sel) && Decodes(inst, m, sel, cars)
    ensures WellFormed(inst, cars, sel.left)
  {
    hide Admissible, IsModel, Decodes, Coherent, AllFeasible, Settled;
    DecodedCoherent(inst, m, sel, cars);
    DecodedSettled(inst, m, sel, cars);
  }

  lemma ModelParts(inst: Instance, m: Model)
    requires IsModel(inst, m)
    ensures inst.Valid() && Built(inst, m) && Supported(inst) && Weighed(inst, m)
    ensures m.columns == ColumnsFor(inst, DriverIds(inst))
  {
  }

  /** The decoding in `solve`: one car per taken column, by driver, and the left out by id. */
  method Decode(inst: Instance, m: Model, sel: Selection) returns (sol: Solution)
    requires IsModel(inst, m) && Admissible(m, sel)
    ensures exists cars: Cars ::
      Decodes(inst, m, sel, cars) && WellFormed(inst, cars, sel.left) && sol == ToSolution(cars, sel.left)
  {
    hide IsModel, Admissible, IsResequenced, Raw, Built, ColumnsFor, WellFormed, CarsInOrder, Sorted;
    var routes: Cars := map[];
    AdmissibleLeft(m, sel);
    ModelParts(inst, m);
    for i := 0 to |m.columns|
      invariant forall d :: d in routes ==> DecodesTo(inst, m, sel, d, routes[d])
      invariant forall k :: 0 <= k < i && sel.chosen[k] ==> m.columns[k].driver in routes
      invariant routes.Keys <= m.byDriver.Keys
    {
      if sel.chosen[i] {
        ColumnsAre(inst, m, i);
        var d := m.columns[i].driver;
        var r := Car(inst, m.columns[i]);
        assert IsPick(m, sel, d, i);
        assert DecodesTo(inst, m, sel, d, r);
        routes := routes[d := r];
      }
    }
    forall d | d in m.byDriver ensures d in routes {
      DriversPick(inst, m, sel, d);
      var i :| IsPick(m, sel, d, i);
    }
    assert routes.Keys == m.byDriver.Keys;
    DecodedIsLegal(inst, m, sel, routes);
    sol := Solution(CarsInOrder(routes), Sorted(sel.left));
    assert sol == ToSolution(routes, sel.left);
  }

  /** What `solve` does before it can ask for a selection. */
  datatype Prepared = Refused(refusal: Refusal) | TooMany(count: nat) | Ready(model: Model)

  method Prepare(inst: Instance, maxColumns: nat) returns (r: Prepared)
    requires inst.Valid()
    ensures r.Refused? <==> !Supported(inst)
    ensures r.TooMany? ==> r.count == |ColumnsFor(inst, DriverIds(inst))| > maxColumns
    ensures r.Ready? ==> IsModel(inst, r.model) && |r.model.columns| <= maxColumns
  {
    hide Supported, ColumnsFor, DriverIds, RefusalOf, Built, Weighed;
    var refusal := CheckSupported(inst);
    if refusal.Some? {
      return Refused(refusal.value);
    }
    var count := ColumnCount(inst);
    if count > maxColumns {
      return TooMany(count);
    }
    var m := BuildModel(inst);
    r := Ready(m);
  }
}
