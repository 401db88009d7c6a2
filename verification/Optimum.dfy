/** The decoded minimum is the cheapest, up to rounding, of the answers whose cars are columns. */
module Optimum {
  import opened Models
  import opened Sorting
  import opened Objective
  import opened Feasibility
  import opened Sequence
  import opened Fleet
  import opened Seating
  import opened Evaluation
  import opened Outcome
  import opened Accounting
  import opened Answers
  import opened Enumeration
  import opened Columns
  import opened Partition
  import opened Exact

  // ---- Sums that are close -------------------------------------------------------------------------

  lemma {:induction false} SumAtMost(f: NodeId -> real, g: NodeId -> real, s: seq<NodeId>, each: real)
    requires forall i :: 0 <= i < |s| ==> f(s[i]) <= g(s[i]) + each
    ensures SumBy(f, s) <= SumBy(g, s) + each * |s| as real
  {
    var n := |s|;
    if n > 0 {
      SumAtMost(f, g, s[..n - 1], each);
      assert each * n as real == each * (n - 1) as real + each;
    }
  }

  ghost function Scaled(factor: real, f: NodeId -> real): NodeId -> real {
    x => factor * f(x)
  }

  lemma {:induction false} SumScaled(factor: real, f: NodeId -> real, s: seq<NodeId>)
    ensures SumBy(Scaled(factor, f), s) == factor * SumBy(f, s)
  {
    if s != [] {
      SumScaled(factor, f, s[..|s| - 1]);
    }
  }

  lemma {:induction false} SumMapped(f: NodeId -> real, p: seq<NodeId>, g: NodeId -> real, q: seq<NodeId>)
    requires |p| == |q| && forall k :: 0 <= k < |p| ==> f(p[k]) == g(q[k])
    ensures SumBy(f, p) == SumBy(g, q)
  {
    if p != [] {
      SumMapped(f, p[..|p| - 1], g, q[..|q| - 1]);
    }
  }

  // ---- The objective --------------------------------------------------------------------------------

  /** The indices of the variables that are true. */
  function Chosen(chosen: seq<bool>): seq<int> {
    var n := |chosen|;
    if n == 0 then [] else Chosen(chosen[..n - 1]) + if chosen[n - 1] then [n - 1] else []
  }

  lemma {:induction false} ChosenAre(chosen: seq<bool>)
    ensures Distinct(Chosen(chosen))
    ensures forall i :: i in Chosen(chosen) <==> 0 <= i < |chosen| && chosen[i]
  {
    var n := |chosen|;
    if n > 0 {
      ChosenAre(chosen[..n - 1]);
      ChosenMore(chosen, Chosen(chosen[..n - 1]));
    }
  }

  lemma ChosenMore(chosen: seq<bool>, front: seq<int>)
    requires chosen != [] && front == Chosen(chosen[..|chosen| - 1]) && Distinct(front)
    requires forall i :: i in front <==> 0 <= i < |chosen| - 1 && chosen[i]
    ensures Distinct(Chosen(chosen))
    ensures forall i :: i in Chosen(chosen) <==> 0 <= i < |chosen| && chosen[i]
  {
    var n := |chosen| - 1;
    assert Chosen(chosen) == if chosen[n] then front + [n] else front;
    hide Chosen, Distinct;
    if chosen[n] {
      OneMoreIndex(front, n);
    }
  }

  lemma OneMoreIndex(front: seq<int>, n: int)
    requires Distinct(front) && n !in front
    ensures Distinct(front + [n]) && forall i :: i in front + [n] <==> i in front || i == n
  {
    forall k | 0 <= k < |front| ensures front[k] != n {
      assert front[k] in front;
    }
  }

  /** What each column's variable weighs. */
  function WeightAt(m: Model): int -> real {
    (i: int) => if 0 <= i < |m.costs| then (m.costs[i] + m.vehicle) as real else 0.0
  }

  function PenaltyAt(m: Model): NodeId -> real {
    r => if r in m.penalty then m.penalty[r] as real else 0.0
  }

  /** What CP-SAT minimises, an integer whatever the selection. */
  function Minimised(m: Model, sel: Selection): real {
    SumBy(WeightAt(m), Chosen(sel.chosen)) + SumBy(PenaltyAt(m), Sorted(sel.left))
  }

  /** A minimum-cost admissible selection: all that is assumed of the solver's answer. */
  ghost predicate IsMinimal(m: Model, sel: Selection) {
    Admissible(m, sel) && forall other :: Admissible(m, other) ==> Minimised(m, sel) <= Minimised(m, other)
  }

  /** The weight of the column taken for each driver. */
  ghost function WeightFor(m: Model, sel: Selection): NodeId -> real {
    d => WeightAt(m)(PickOf(m, sel, d))
  }

  /** The taken columns are one for each driver. */
  lemma ChosenByDriver(inst: Instance, m: Model, sel: Selection)
    requires IsModel(inst, m) && Admissible(m, sel)
    ensures SumBy(WeightAt(m), Chosen(sel.chosen)) == SumBy(WeightFor(m, sel), DriverIds(inst))
  {
    hide SumBy, Admissible, IsModel, Chosen, WeightAt, DriverIds, Distinct, PickOf, Supported;
    AdmissibleLeft(m, sel);
    ModelParts(inst, m);
    DriverIdsAre(inst);
    ChosenAre(sel.chosen);
    var p := Chosen(sel.chosen);
    assert forall k :: 0 <= k < |p| ==> p[k] in p;
    var q := PickedDrivers(inst, m, sel, p);
    SumMapped(WeightAt(m), p, WeightFor(m, sel), q);
    PicksCover(inst, m, sel, p, q);
    SumByOrder(WeightFor(m, sel), q, DriverIds(inst));
  }

  lemma PickedDrivers(inst: Instance, m: Model, sel: Selection, p: seq<int>) returns (q: seq<NodeId>)
    requires IsModel(inst, m) && Admissible(m, sel) && |sel.chosen| == |m.columns|
    requires forall k :: 0 <= k < |p| ==> 0 <= p[k] < |sel.chosen| && sel.chosen[p[k]]
    ensures |q| == |p| && forall k :: 0 <= k < |p| ==> PickOf(m, sel, q[k]) == p[k] && q[k] in m.byDriver
  {
    hide Admissible, IsModel, PickOf;
    ModelParts(inst, m);
    q := seq(|p|, k requires 0 <= k < |p| => m.columns[p[k]].driver);
    forall k | 0 <= k < |p| ensures PickOf(m, sel, q[k]) == p[k] && q[k] in m.byDriver {
      assert IsPick(m, sel, q[k], p[k]);
      ColumnsAre(inst, m, p[k]);
      DriversPick(inst, m, sel, q[k]);
      PickIs(m, sel, q[k]);
    }
  }

  lemma PicksCover(inst: Instance, m: Model, sel: Selection, p: seq<int>, q: seq<NodeId>)
    requires IsModel(inst, m) && Admissible(m, sel) && |sel.chosen| == |m.columns|
    requires Distinct(p) && forall i :: i in p <==> 0 <= i < |sel.chosen| && sel.chosen[i]
    requires |q| == |p| && forall k :: 0 <= k < |p| ==> PickOf(m, sel, q[k]) == p[k] && q[k] in m.byDriver
    ensures Distinct(q) && forall d :: d in q <==> d in DriverIds(inst)
  {
    hide Admissible, IsModel, DriverIds, PickOf;
    ModelParts(inst, m);
    BuiltKeys(inst, m);
    DriverIdsAre(inst);
    forall d | d in DriverIds(inst) ensures d in q {
      DriversPick(inst, m, sel, d);
      var i :| IsPick(m, sel, d, i);
      assert i in p;
      var k :| 0 <= k < |p| && p[k] == i;
      DriversPick(inst, m, sel, q[k]);
      PickIs(m, sel, q[k]);
      assert q[k] == d;
    }
  }

  lemma PickIs(m: Model, sel: Selection, d: NodeId)
    requires exists i :: IsPick(m, sel, d, i)
    ensures IsPick(m, sel, d, PickOf(m, sel, d))
  {
  }

  // ---- Prices, up to rounding --------------------------------------------------------------------------

  /** The sequencer prices this car exactly: few enough stops, and no order of them beats the direct trip. */
  ghost predicate SequencesExactly(inst: Instance, route: Route) {
    && |route.outbound| <= MAX_EXACT_STOPS && |route.inbound| <= MAX_EXACT_STOPS
    && (inst.weights.detour == 0.0 || NeverUndercuts(inst.matrix, route))
  }

  ghost predicate PricedExactly(inst: Instance) {
    forall c :: AColumn(inst, c) ==> SequencesExactly(inst, Raw(inst, c))
  }

  lemma CheapestOrder(inst: Instance, c: Column, r: Route, q: Route)
    requires inst.Valid() && AColumn(inst, c) && PricedExactly(inst)
    requires IsResequenced(inst, Raw(inst, c), r) && SameCar(Raw(inst, c), q)
    ensures RouteCost(inst, r) <= RouteCost(inst, q)
  {
    hide AColumn, RouteCost, IsResequenced, Plain, NeverUndercuts, Raw;
    RawIsGood(inst, c);
    GoodIsPlain(inst, c.driver, Raw(inst, c));
    assert SequencesExactly(inst, Raw(inst, c));
    ResequenceOptimal(inst, Raw(inst, c), r, q);
  }

  lemma ResequencedIsSame(inst: Instance, route: Route, r: Route)
    requires IsResequenced(inst, route, r)
    ensures SameCar(route, r)
  {
    hide Optimal;
  }

  /** Scaling and rounding a price moves it by at most a half. */
  lemma NearlyWeighs(inst: Instance, m: Model, i: int, cost: real)
    requires 0 <= i < |m.costs| && m.vehicle == Round(SCALE as real * inst.weights.vehicle)
    ensures SCALE as real * cost <= m.costs[i] as real + 0.5 ==>
      SCALE as real * (cost + inst.weights.vehicle) <= WeightAt(m)(i) + 1.0
    ensures m.costs[i] as real <= SCALE as real * cost + 0.5 ==>
      WeightAt(m)(i) <= SCALE as real * (cost + inst.weights.vehicle) + 1.0
  {
    hide Round;
    assert SCALE as real * (cost + inst.weights.vehicle)
        == SCALE as real * cost + SCALE as real * inst.weights.vehicle;
    assert WeightAt(m)(i) == m.costs[i] as real + m.vehicle as real;
  }

  /** A car ordered for a column costs no more than the column weighs. */
  lemma ColumnWeighs(inst: Instance, m: Model, i: int, car: Route)
    requires IsModel(inst, m) && PricedExactly(inst) && 0 <= i < |m.columns|
    requires IsResequenced(inst, Raw(inst, m.columns[i]), car)
    ensures SCALE as real * (RouteCost(inst, car) + inst.weights.vehicle) <= WeightAt(m)(i) + 1.0
  {
    hide IsResequenced, RouteCost, Raw, ColumnsFor, Supported, PricedExactly, WeightAt, ListsDriver, ListsRider, Round,
         DriverIds, RiderIds, Penalties;
    var c := m.columns[i];
    ColumnsAre(inst, m, i);
    assert PricedAs(inst, c, m.costs[i]);
    var r :| IsResequenced(inst, Raw(inst, c), r) && m.costs[i] == Round(SCALE as real * RouteCost(inst, r));
    ResequencedIsSame(inst, Raw(inst, c), r);
    CheapestOrder(inst, c, car, r);
    NearlyWeighs(inst, m, i, RouteCost(inst, car));
  }

  /** A column weighs no more than any car with the same people on the same legs. */
  lemma ColumnWeighsAtMost(inst: Instance, m: Model, i: int, car: Route)
    requires IsModel(inst, m) && PricedExactly(inst) && 0 <= i < |m.columns|
    requires SameCar(Raw(inst, m.columns[i]), car)
    ensures WeightAt(m)(i) <= SCALE as real * (RouteCost(inst, car) + inst.weights.vehicle) + 1.0
  {
    hide IsResequenced, RouteCost, Raw, ColumnsFor, Supported, PricedExactly, WeightAt, ListsDriver, ListsRider, Round,
         DriverIds, RiderIds, Penalties, SameCar;
    var c := m.columns[i];
    ColumnsAre(inst, m, i);
    assert PricedAs(inst, c, m.costs[i]);
    var r :| IsResequenced(inst, Raw(inst, c), r) && m.costs[i] == Round(SCALE as real * RouteCost(inst, r));
    CheapestOrder(inst, c, r, car);
    NearlyWeighs(inst, m, i, RouteCost(inst, car));
  }

  // ---- Totals --------------------------------------------------------------------------------------------

  ghost function Charge(inst: Instance, cars: Cars): NodeId -> real {
    ChargeOf(inst, map[], cars)
  }

  lemma ChargeIs(inst: Instance, cars: Cars, d: NodeId)
    requires d in cars
    ensures Charge(inst, cars)(d) == RouteCost(inst, cars[d]) + inst.weights.vehicle
  {
    hide RouteCost;
    var none := MovedAboard(map[], cars[d]);
    assert forall p :: p in none <==> p in {};
    assert |none| == 0;
  }

  /** The scaled total as two scaled sums. */
  lemma ScaledTotal(inst: Instance, cars: Cars, left: set<NodeId>)
    requires inst.Valid() && cars.Keys == Elements(DriverIds(inst))
    ensures SCALE as real * Total(inst, map[], cars, left)
         == SumBy(Scaled(SCALE as real, Charge(inst, cars)), DriverIds(inst))
            + SumBy(Scaled(SCALE as real * inst.weights.unassigned, PenaltyOf(inst)), Sorted(left))
  {
    hide SumBy, Sorted, DriverIds, ChargeOf, PenaltyOf, UnassignedSum, Running, Total, Distinct, Scaled;
    TotalIsRunning(inst, map[], cars, left);
    RunningIsCharges(inst, map[], cars);
    DriverIdsAre(inst);
    SumByOrder(Charge(inst, cars), DriverIds(inst), Sorted(cars.Keys));
    UnassignedIsSum(inst, Sorted(left));
    SumScaled(SCALE as real, Charge(inst, cars), DriverIds(inst));
    SumScaled(SCALE as real * inst.weights.unassigned, PenaltyOf(inst), Sorted(left));
  }

  lemma PenaltyNear(inst: Instance, m: Model, r: NodeId)
    requires IsModel(inst, m) && IsRider(inst, r)
    ensures var exact := Scaled(SCALE as real * inst.weights.unassigned, PenaltyOf(inst))(r);
      exact <= PenaltyAt(m)(r) + 0.5 && PenaltyAt(m)(r) <= exact + 0.5
  {
    hide Built, ColumnsFor, Supported, Round, RiderIds, DriverIds;
    RiderIdsAre(inst);
    var exact := ScaledPenalty(inst, inst.index[r].priority);
    assert m.penalty == Penalties(inst);
    assert m.penalty[r] == Round(exact);
    assert PenaltyAt(m)(r) == Round(exact) as real;
    assert PenaltyOf(inst)(r) == (1 + inst.index[r].priority) as real;
    assert Scaled(SCALE as real * inst.weights.unassigned, PenaltyOf(inst))(r) == exact;
  }

  lemma PenaltiesNear(inst: Instance, m: Model, left: set<NodeId>)
    requires IsModel(inst, m) && forall r :: r in left ==> IsRider(inst, r)
    ensures var exact := SumBy(Scaled(SCALE as real * inst.weights.unassigned, PenaltyOf(inst)), Sorted(left));
      var rounded := SumBy(PenaltyAt(m), Sorted(left));
      exact <= rounded + 0.5 * |left| as real && rounded <= exact + 0.5 * |left| as real
  {
    hide IsModel, SumBy, Sorted, Scaled, PenaltyOf, PenaltyAt, IsRider;
    var f, g := Scaled(SCALE as real * inst.weights.unassigned, PenaltyOf(inst)), PenaltyAt(m);
    forall i | 0 <= i < |Sorted(left)|
      ensures f(Sorted(left)[i]) <= g(Sorted(left)[i]) + 0.5 && g(Sorted(left)[i]) <= f(Sorted(left)[i]) + 0.5
    {
      assert Sorted(left)[i] in Sorted(left);
      PenaltyNear(inst, m, Sorted(left)[i]);
    }
    SumAtMost(f, g, Sorted(left), 0.5);
    SumAtMost(g, f, Sorted(left), 0.5);
  }

  /** Every driver's car costs at most what the column taken for them weighs. */
  ghost predicate NoDearer(inst: Instance, m: Model, sel: Selection, cars: Cars) {
    forall i :: 0 <= i < |DriverIds(inst)| ==>
      Scaled(SCALE as real, Charge(inst, cars))(DriverIds(inst)[i]) <= WeightFor(m, sel)(DriverIds(inst)[i]) + 1.0
  }

  ghost predicate NoCheaper(inst: Instance, m: Model, sel: Selection, cars: Cars) {
    forall i :: 0 <= i < |DriverIds(inst)| ==>
      WeightFor(m, sel)(DriverIds(inst)[i]) <= Scaled(SCALE as real, Charge(inst, cars))(DriverIds(inst)[i]) + 1.0
  }

  ghost function Slack(inst: Instance, left: set<NodeId>): real {
    |DriverIds(inst)| as real + 0.5 * |left| as real
  }

  lemma TotalAtMost(inst: Instance, m: Model, sel: Selection, cars: Cars)
    requires IsModel(inst, m) && Admissible(m, sel) && cars.Keys == Elements(DriverIds(inst))
    requires forall r :: r in sel.left ==> IsRider(inst, r)
    requires NoDearer(inst, m, sel, cars)
    ensures SCALE as real * Total(inst, map[], cars, sel.left) <= Minimised(m, sel) + Slack(inst, sel.left)
  {
    hide IsModel, Admissible, SumBy, Sorted, Scaled, PenaltyOf, PenaltyAt, IsRider, DriverIds, WeightFor, WeightAt,
         Total,
         Charge, Elements, Chosen;
    ModelParts(inst, m);
    ScaledTotal(inst, cars, sel.left);
    PenaltiesNear(inst, m, sel.left);
    ChosenByDriver(inst, m, sel);
    SumAtMost(Scaled(SCALE as real, Charge(inst, cars)), WeightFor(m, sel), DriverIds(inst), 1.0);
  }

  lemma TotalAtLeast(inst: Instance, m: Model, sel: Selection, cars: Cars)
    requires IsModel(inst, m) && Admissible(m, sel) && cars.Keys == Elements(DriverIds(inst))
    requires forall r :: r in sel.left ==> IsRider(inst, r)
    requires NoCheaper(inst, m, sel, cars)
    ensures Minimised(m, sel) <= SCALE as real * Total(inst, map[], cars, sel.left) + Slack(inst, sel.left)
  {
    hide IsModel, Admissible, SumBy, Sorted, Scaled, PenaltyOf, PenaltyAt, IsRider, DriverIds, WeightFor, WeightAt,
         Total,
         Charge, Elements, Chosen;
    ModelParts(inst, m);
    ScaledTotal(inst, cars, sel.left);
    PenaltiesNear(inst, m, sel.left);
    ChosenByDriver(inst, m, sel);
    SumAtMost(WeightFor(m, sel), Scaled(SCALE as real, Charge(inst, cars)), DriverIds(inst), 1.0);
  }

  /** Each of these cars costs no more than the column taken for its driver weighs. */
  ghost predicate CarsNoDearer(inst: Instance, m: Model, sel: Selection, cars: Cars) {
    forall d :: d in cars ==>
      SCALE as real * (RouteCost(inst, cars[d]) + inst.weights.vehicle) <= WeightAt(m)(PickOf(m, sel, d)) + 1.0
  }

  ghost predicate CarsNoCheaper(inst: Instance, m: Model, sel: Selection, cars: Cars) {
    forall d :: d in cars ==>
      WeightAt(m)(PickOf(m, sel, d)) <= SCALE as real * (RouteCost(inst, cars[d]) + inst.weights.vehicle) + 1.0
  }

  /** If no car is dearer than its column, neither is the answer, up to rounding; nor cheaper, if none is. */
  lemma PriceByCar(inst: Instance, m: Model, sel: Selection, cars: Cars)
    requires IsModel(inst, m) && Admissible(m, sel) && cars.Keys == Elements(DriverIds(inst))
    requires forall r :: r in sel.left ==> IsRider(inst, r)
    ensures CarsNoDearer(inst, m, sel, cars) ==>
      SCALE as real * Total(inst, map[], cars, sel.left) <= Minimised(m, sel) + Slack(inst, sel.left)
    ensures CarsNoCheaper(inst, m, sel, cars) ==>
      Minimised(m, sel) <= SCALE as real * Total(inst, map[], cars, sel.left) + Slack(inst, sel.left)
  {
    hide IsModel, Admissible, RouteCost, WeightAt, Total, Charge, DriverIds, Minimised, Slack, PickOf, IsRider;
    forall i | 0 <= i < |DriverIds(inst)|
      ensures DriverIds(inst)[i] in cars
      ensures Scaled(SCALE as real, Charge(inst, cars))(DriverIds(inst)[i])
           == SCALE as real * (RouteCost(inst, cars[DriverIds(inst)[i]]) + inst.weights.vehicle)
    {
      assert DriverIds(inst)[i] in DriverIds(inst);
      ChargeIs(inst, cars, DriverIds(inst)[i]);
    }
    if CarsNoDearer(inst, m, sel, cars) {
      TotalAtMost(inst, m, sel, cars);
    }
    if CarsNoCheaper(inst, m, sel, cars) {
      TotalAtLeast(inst, m, sel, cars);
    }
  }

  lemma LeftRide(inst: Instance, m: Model, sel: Selection)
    requires IsModel(inst, m) && Admissible(m, sel)
    ensures m.byDriver.Keys == Elements(DriverIds(inst)) && forall r :: r in sel.left ==> IsRider(inst, r)
  {
    hide Admissible, IsModel, DriverIds, RiderIds;
    ModelParts(inst, m);
    BuiltKeys(inst, m);
    AdmissibleLeft(m, sel);
    ModelKeys(inst, m);
  }

  lemma ModelKeys(inst: Instance, m: Model)
    requires Built(inst, m)
    ensures m.byDriver.Keys == Elements(DriverIds(inst))
  {
    hide DriverIds, RiderIds, PricedAs, ListsDriver, ListsRider;
  }

  /** A decoded answer costs no more than its selection weighs, up to rounding. */
  lemma DecodedPrice(inst: Instance, m: Model, sel: Selection, cars: Cars)
    requires IsModel(inst, m) && PricedExactly(inst) && Admissible(m, sel) && Decodes(inst, m, sel, cars)
    ensures SCALE as real * Total(inst, map[], cars, sel.left) <= Minimised(m, sel) + Slack(inst, sel.left)
  {
    hide IsModel, PricedExactly, Admissible, Decodes, RouteCost, IsResequenced, Raw, WeightAt, GoodCar, Feasible, Total,
         DriverIds, Minimised, Slack, Elements, IsRider;
    DecodesKeys(inst, m, sel, cars);
    LeftRide(inst, m, sel);
    forall d | d in cars
      ensures SCALE as real * (RouteCost(inst, cars[d]) + inst.weights.vehicle) <= WeightAt(m)(PickOf(m, sel, d)) + 1.0
    {
      DecodedCars(inst, m, sel, cars, d);
      ColumnWeighs(inst, m, PickOf(m, sel, d), cars[d]);
    }
    PriceByCar(inst, m, sel, cars);
  }

  // ---- Selections for answers ----------------------------------------------------------------------------

  /** Every car of an answer is a column: its riders, counted as people, fit in its seats. */
  ghost predicate Represented(inst: Instance, cars: Cars) {
    forall d :: d in cars ==> IsColumn(inst, d, cars[d].Passengers())
  }

  ghost predicate Matches(c: Column, cars: Cars) {
    c.driver in cars && Elements(c.group) == cars[c.driver].Passengers()
  }

  /** Take each driver's column with exactly their passengers. */
  ghost function Encode(m: Model, cars: Cars, left: set<NodeId>): (sel: Selection)
    ensures |sel.chosen| == |m.columns| && sel.left == left
    ensures forall i :: 0 <= i < |m.columns| ==> sel.chosen[i] == Matches(m.columns[i], cars)
  {
    hide Matches;
    Selection(seq(|m.columns|, i requires 0 <= i < |m.columns| => Matches(m.columns[i], cars)), left)
  }

  lemma DriverIsLegal(inst: Instance, cars: Cars, left: set<NodeId>, d: NodeId)
    requires inst.Valid() && Supported(inst) && WellFormed(inst, cars, left) && d in cars
    ensures inst.Has(d) && inst.index[d].role.Driver? && GoodCar(inst, d, cars[d]) && Feasible(inst, cars[d])
  {
    hide Settled, Supported;
    CarIsGood(inst, cars, d);
    assert !Breaks(inst, cars[d], RoleRule);
    NotRestricted(inst, d);
  }

  /** On a supported instance the cars of a legal answer are exactly the committed drivers'. */
  lemma EveryoneDrives(inst: Instance, cars: Cars, left: set<NodeId>)
    requires inst.Valid() && Supported(inst) && WellFormed(inst, cars, left)
    ensures cars.Keys == Elements(DriverIds(inst))
  {
    hide Supported, Coherent, Feasible, DriverIds, Distinct, GoodCar;
    DriverIdsAre(inst);
    forall d ensures d in cars <==> d in Elements(DriverIds(inst)) {
      if d in cars {
        DriverIsLegal(inst, cars, left, d);
      }
    }
  }

  /** Each driver has exactly one column with their passengers. */
  lemma MatchOnce(inst: Instance, m: Model, cars: Cars, d: NodeId) returns (i: nat)
    requires IsModel(inst, m) && Represented(inst, cars) && d in cars && d in m.byDriver
    ensures i < |m.columns| && m.columns[i].driver == d && Matches(m.columns[i], cars)
    ensures forall j :: 0 <= j < |m.columns| && m.columns[j].driver == d && Matches(m.columns[j], cars) ==> j == i
  {
    hide IsModel, DriverIds, ColumnsFor, Elements, IsColumn, AColumn, Distinct;
    ModelParts(inst, m);
    BuiltKeys(inst, m);
    DriverIdsAre(inst);
    var drivers := DriverIds(inst);
    assert forall k :: 0 <= k < |drivers| ==> drivers[k] in drivers;
    var k :| 0 <= k < |drivers| && drivers[k] == d;
    i := Columns.ColumnsComplete(inst, drivers, k, cars[d].Passengers());
    forall j | 0 <= j < |m.columns| && m.columns[j].driver == d && Matches(m.columns[j], cars) ensures j == i {
      if j < i {
        ColumnsDiffer(inst, drivers, j, i);
      } else if i < j {
        ColumnsDiffer(inst, drivers, i, j);
      }
    }
  }

  lemma EncodeDriver(inst: Instance, m: Model, cars: Cars, left: set<NodeId>, d: NodeId)
    requires IsModel(inst, m) && Represented(inst, cars) && d in cars && d in m.byDriver
    ensures ExactlyOne(m.byDriver[d], Encode(m, cars, left).chosen)
  {
    hide IsModel, Represented, Matches, PricedAs, DriverIds, RiderIds, ListsRider;
    ModelParts(inst, m);
    var sel := Encode(m, cars, left);
    var i := MatchOnce(inst, m, cars, d);
    assert ListsDriver(m.columns, d, m.byDriver[d]);
    assert OnlyTakes(m.byDriver[d], sel.chosen, i);
  }

  lemma EncodeLeft(inst: Instance, m: Model, cars: Cars, left: set<NodeId>, r: NodeId)
    requires IsModel(inst, m) && r in m.byRider && !Seats(cars, r)
    ensures NoneTaken(m.byRider[r], Encode(m, cars, left).chosen)
  {
    hide IsModel, Takes, Encode, Seats;
    forall i ensures !Takes(m.byRider[r], Encode(m, cars, left).chosen, i) {
      if Takes(m.byRider[r], Encode(m, cars, left).chosen, i) {
        TakenIsSeated(inst, m, cars, left, r, i);
      }
    }
  }

  lemma TakenIsSeated(inst: Instance, m: Model, cars: Cars, left: set<NodeId>, r: NodeId, i: int)
    requires IsModel(inst, m) && r in m.byRider && Takes(m.byRider[r], Encode(m, cars, left).chosen, i)
    ensures Seats(cars, r)
  {
    hide IsModel, PricedAs, DriverIds, RiderIds, ListsDriver;
    ModelParts(inst, m);
    assert ListsRider(m.columns, r, m.byRider[r]);
    assert Matches(m.columns[i], cars);
    assert r in Elements(m.columns[i].group);
    SeatedHere(cars, m.columns[i].driver, r);
  }

  lemma SeatedHere(cars: Cars, d: NodeId, p: NodeId)
    requires d in cars && p in cars[d].Passengers()
    ensures Seats(cars, p)
  {
  }

  lemma EncodeSeated(inst: Instance, m: Model, cars: Cars, left: set<NodeId>, r: NodeId)
    requires IsModel(inst, m) && Represented(inst, cars) && Coherent(inst, cars) && cars.Keys == m.byDriver.Keys
    requires r in m.byRider && Seats(cars, r)
    ensures ExactlyOne(m.byRider[r], Encode(m, cars, left).chosen)
  {
    hide IsModel, PricedAs, DriverIds, RiderIds, ListsDriver, GoodCar, Represented;
    ModelParts(inst, m);
    var sel := Encode(m, cars, left);
    var d :| d in cars && r in cars[d].Passengers();
    var i := MatchOnce(inst, m, cars, d);
    assert ListsRider(m.columns, r, m.byRider[r]);
    assert r in Elements(m.columns[i].group);
    assert Takes(m.byRider[r], sel.chosen, i);
    forall j | Takes(m.byRider[r], sel.chosen, j) ensures j == i {
      assert r in Elements(m.columns[j].group);
      assert m.columns[j].driver == d;
    }
    assert OnlyTakes(m.byRider[r], sel.chosen, i);
  }

  /** A legal answer made of columns is an admissible selection. */
  lemma EncodeAdmissible(inst: Instance, m: Model, cars: Cars, left: set<NodeId>)
    requires IsModel(inst, m) && WellFormed(inst, cars, left) && Represented(inst, cars)
    ensures Admissible(m, Encode(m, cars, left))
  {
    hide IsModel, Represented, Coherent, Feasible, ExactlyOne, NoneTaken, Encode, DriverIds;
    ModelParts(inst, m);
    BuiltKeys(inst, m);
    EveryoneDrives(inst, cars, left);
    assert forall r :: r in left ==> r in m.byRider;
    assert cars.Keys == m.byDriver.Keys;
    forall d | d in m.byDriver ensures ExactlyOne(m.byDriver[d], Encode(m, cars, left).chosen) {
      EncodeDriver(inst, m, cars, left, d);
    }
    forall r | r in m.byRider
      ensures if r in left then NoneTaken(m.byRider[r], Encode(m, cars, left).chosen)
              else ExactlyOne(m.byRider[r], Encode(m, cars, left).chosen)
    {
      if r in left {
        EncodeLeft(inst, m, cars, left, r);
      } else {
        assert IsRider(inst, r) && Placed(cars, r);
        EncodeSeated(inst, m, cars, left, r);
      }
    }
  }

  /** The same people on the same legs. */
  lemma RawMatches(inst: Instance, c: Column, car: Route)
    requires inst.Valid() && AColumn(inst, c) && GoodCar(inst, c.driver, car) && car.Passengers() == Elements(c.group)
    ensures SameCar(Raw(inst, c), car)
  {
    RawIsGood(inst, c);
    var raw := Raw(inst, c);
    SameLegs(inst, c.driver, raw, car);
    SameMultiset(raw.outbound, car.outbound);
    SameMultiset(raw.inbound, car.inbound);
  }

  lemma SameLegs(inst: Instance, d: NodeId, a: Route, b: Route)
    requires GoodCar(inst, d, a) && GoodCar(inst, d, b) && a.Passengers() == b.Passengers()
    ensures forall p :: (p in a.outbound <==> p in b.outbound) && (p in a.inbound <==> p in b.inbound)
  {
    hide Distinct;
    forall p ensures (p in a.outbound <==> p in b.outbound) && (p in a.inbound <==> p in b.inbound) {
      assert p in a.Passengers() <==> p in b.Passengers();
    }
  }

  lemma SameMultiset(a: seq<NodeId>, b: seq<NodeId>)
    requires Distinct(a) && Distinct(b) && forall x :: x in a <==> x in b
    ensures multiset(a) == multiset(b)
  {
    forall x ensures multiset(a)[x] == multiset(b)[x] {
      DistinctCount(a, x);
      DistinctCount(b, x);
    }
  }

  /** An answer costs at least what its selection weighs, up to rounding. */
  lemma EncodedPrice(inst: Instance, m: Model, cars: Cars, left: set<NodeId>)
    requires IsModel(inst, m) && PricedExactly(inst) && WellFormed(inst, cars, left) && Represented(inst, cars)
    ensures Minimised(m, Encode(m, cars, left)) <= SCALE as real * Total(inst, map[], cars, left) + Slack(inst, left)
  {
    hide IsModel, PricedExactly, RouteCost, Raw, WeightAt, GoodCar, Feasible, Total, DriverIds, Minimised, Slack,
         Elements, Encode, Admissible, Represented, Matches, Coherent, SameCar, IsRider, PickOf;
    var sel := Encode(m, cars, left);
    EncodeAdmissible(inst, m, cars, left);
    ModelParts(inst, m);
    EveryoneDrives(inst, cars, left);
    LeftRide(inst, m, sel);
    forall d | d in cars
      ensures WeightAt(m)(PickOf(m, sel, d)) <= SCALE as real * (RouteCost(inst, cars[d]) + inst.weights.vehicle) + 1.0
    {
      PickMatches(inst, m, cars, left, d);
      ColumnWeighsAtMost(inst, m, PickOf(m, sel, d), cars[d]);
    }
    PriceByCar(inst, m, sel, cars);
  }

  lemma PickMatches(inst: Instance, m: Model, cars: Cars, left: set<NodeId>, d: NodeId)
    requires IsModel(inst, m) && WellFormed(inst, cars, left) && Admissible(m, Encode(m, cars, left))
    requires d in cars && d in m.byDriver
    ensures var i := PickOf(m, Encode(m, cars, left), d);
      0 <= i < |m.columns| && SameCar(Raw(inst, m.columns[i]), cars[d])
  {
    hide IsModel, Raw, GoodCar, Feasible, Encode, Admissible, SameCar, AColumn;
    var sel := Encode(m, cars, left);
    ModelParts(inst, m);
    DriversPick(inst, m, sel, d);
    var i := PickOf(m, sel, d);
    assert IsPick(m, sel, d, i);
    assert Matches(m.columns[i], cars);
    ColumnsAre(inst, m, i);
    CarIsGood(inst, cars, d);
    RawMatches(inst, m.columns[i], cars[d]);
  }

  /** How far rounding can put the minimum from the optimum: two halves a driver, twice, and a half a rider, twice. */
  ghost function RoundingBound(inst: Instance): real {
    2.0 * |DriverIds(inst)| as real + |RiderIds(inst)| as real
  }

  lemma SlackAtMost(inst: Instance, a: set<NodeId>, b: set<NodeId>)
    requires inst.Valid() && forall r :: r in a + b ==> IsRider(inst, r)
    ensures Slack(inst, a) + Slack(inst, b) <= RoundingBound(inst)
  {
    hide RiderIds, DriverIds, IsRider, Distinct;
    RiderIdsAre(inst);
    DistinctSize(RiderIds(inst));
    assert forall r :: r in a ==> r in a + b;
    assert forall r :: r in b ==> r in a + b;
    assert forall r :: r in a + b ==> r in RiderIds(inst);
    SubsetSize(a, Elements(RiderIds(inst)));
    SubsetSize(b, Elements(RiderIds(inst)));
  }

  /** In the objective's own units: two thousandths a driver and one a rider. */
  ghost function Thousandths(inst: Instance): real {
    0.002 * |set d | d in inst.index && inst.index[d].role.Driver?| as real
    + 0.001 * |set r | r in inst.index && inst.index[r].IsRider()| as real
  }

  lemma InThousandths(inst: Instance, a: real, b: real)
    requires inst.Valid() && SCALE as real * a <= SCALE as real * b + RoundingBound(inst)
    ensures a <= b + Thousandths(inst)
  {
    hide RiderIds, DriverIds, Distinct;
    RiderIdsAre(inst);
    DriverIdsAre(inst);
    DistinctSize(RiderIds(inst));
    DistinctSize(DriverIds(inst));
    var drivers := set d | d in inst.index && inst.index[d].role.Driver?;
    var riders := set r | r in inst.index && inst.index[r].IsRider();
    assert forall d :: d in drivers <==> d in DriverIds(inst);
    assert forall r :: r in riders <==> r in RiderIds(inst);
    assert drivers == Elements(DriverIds(inst)) && riders == Elements(RiderIds(inst));
  }

  /** The decoded minimum costs no more than any legal answer made of columns, up to rounding. */
  lemma MinimumIsOptimal(inst: Instance, m: Model, sel: Selection, cars: Cars, other: Cars, left: set<NodeId>)
    requires IsModel(inst, m) && PricedExactly(inst)
    requires IsMinimal(m, sel) && Decodes(inst, m, sel, cars)
    requires WellFormed(inst, other, left) && Represented(inst, other)
    ensures Total(inst, map[], cars, sel.left) <= Total(inst, map[], other, left) + Thousandths(inst)
  {
    hide IsModel, PricedExactly, Admissible, Decodes, Represented, Total, Minimised, Slack, RoundingBound,
         Coherent, Thousandths, Feasible, Encode;
    ModelParts(inst, m);
    DecodedIsLegal(inst, m, sel, cars);
    DecodedPrice(inst, m, sel, cars);
    EncodeAdmissible(inst, m, other, left);
    EncodedPrice(inst, m, other, left);
    SlackAtMost(inst, sel.left, left);
    InThousandths(inst, Total(inst, map[], cars, sel.left), Total(inst, map[], other, left));
  }

  // ---- One sequencer for pricing and decoding --------------------------------------------------------------

  /** Every column was priced as `car` orders it: `_car` has one answer for a column, however it breaks ties. */
  ghost predicate PricedBy(inst: Instance, m: Model, car: Column -> Route) {
    |m.costs| == |m.columns| && forall i :: 0 <= i < |m.columns| ==>
      && IsResequenced(inst, Raw(inst, m.columns[i]), car(m.columns[i]))
      && m.costs[i] == Round(SCALE as real * RouteCost(inst, car(m.columns[i])))
  }

  /** Each driver's car is the one `car` makes of the column taken for them. */
  ghost predicate CarsBy(m: Model, sel: Selection, car: Column -> Route, cars: Cars) {
    forall d :: d in cars ==>
      0 <= PickOf(m, sel, d) < |m.columns| && cars[d] == car(m.columns[PickOf(m, sel, d)])
  }

  lemma PricedByCar(inst: Instance, m: Model, sel: Selection, car: Column -> Route, cars: Cars)
    requires IsModel(inst, m) && PricedBy(inst, m, car) && CarsBy(m, sel, car, cars)
    ensures CarsNoDearer(inst, m, sel, cars) && CarsNoCheaper(inst, m, sel, cars)
  {
    hide RouteCost, IsResequenced, Raw, WeightAt, PickOf, Supported, ColumnsFor, DriverIds, RiderIds, Penalties, Round;
    forall d | d in cars
      ensures SCALE as real * (RouteCost(inst, cars[d]) + inst.weights.vehicle) <= WeightAt(m)(PickOf(m, sel, d)) + 1.0
      ensures WeightAt(m)(PickOf(m, sel, d)) <= SCALE as real * (RouteCost(inst, cars[d]) + inst.weights.vehicle) + 1.0
    {
      RoundNear(SCALE as real * RouteCost(inst, cars[d]));
      NearlyWeighs(inst, m, PickOf(m, sel, d), RouteCost(inst, cars[d]));
    }
  }

  lemma RoundNear(x: real)
    ensures x <= Round(x) as real + 0.5 && Round(x) as real <= x + 0.5
  {
  }

  /**
    * Whatever the number of stops, and undercutting or not: the decoded minimum costs no more than any legal answer
    * whose cars are columns ordered by the same sequencer, up to rounding.
    */
  lemma MinimumIsOptimalSequenced(inst: Instance, m: Model, sel: Selection, cars: Cars, other: Cars, left: set<NodeId>,
                                  car: Column -> Route)
    requires IsModel(inst, m) && PricedBy(inst, m, car) && IsMinimal(m, sel)
    requires Decodes(inst, m, sel, cars) && CarsBy(m, sel, car, cars)
    requires WellFormed(inst, other, left) && Represented(inst, other)
    requires CarsBy(m, Encode(m, other, left), car, other)
    ensures Total(inst, map[], cars, sel.left) <= Total(inst, map[], other, left) + Thousandths(inst)
  {
    hide IsModel, PricedBy, CarsBy, Admissible, Decodes, Represented, Total, Minimised, Slack, RoundingBound,
         Coherent, Thousandths, Feasible, Encode, DriverIds, IsRider, Elements, CarsNoDearer, CarsNoCheaper;
    ModelParts(inst, m);
    DecodesKeys(inst, m, sel, cars);
    LeftRide(inst, m, sel);
    PricedByCar(inst, m, sel, car, cars);
    PriceByCar(inst, m, sel, cars);
    EncodeAdmissible(inst, m, other, left);
    EveryoneDrives(inst, other, left);
    LeftRide(inst, m, Encode(m, other, left));
    PricedByCar(inst, m, Encode(m, other, left), car, other);
    PriceByCar(inst, m, Encode(m, other, left), other);
    SlackAtMost(inst, sel.left, left);
    InThousandths(inst, Total(inst, map[], cars, sel.left), Total(inst, map[], other, left));
  }
}
