/** The set-partitioning model built over the columns, and what a selection of them means. */
module Partition {
  import opened Models
  import opened Objective
  import opened Sequence
  import opened Seating
  import opened Enumeration
  import opened Columns

  function Only(inst: Instance, group: seq<NodeId>, outbound: bool): (r: seq<NodeId>)
    ensures |r| <= |group|
    ensures forall x :: x in r <==>
      x in group && inst.Has(x) && if outbound then inst.index[x].needsOutbound else inst.index[x].needsReturn
    ensures Distinct(group) ==> Distinct(r)
  {
    if group == [] then []
    else
      var n := |group| - 1;
      var front := Only(inst, group[..n], outbound);
      assert forall x :: x in group <==> x in group[..n] || x == group[n];
      assert Distinct(group) ==> group[n] !in group[..n];
      if inst.Has(group[n])
         && (if outbound then inst.index[group[n]].needsOutbound else inst.index[group[n]].needsReturn)
      then front + [group[n]] else front
  }

  /** A column's car before its stops are ordered. */
  function Raw(inst: Instance, c: Column): Route {
    Route(c.driver, Only(inst, c.group, true), Only(inst, c.group, false))
  }

  /** `_car` */
  method Car(inst: Instance, c: Column) returns (r: Route)
    ensures IsResequenced(inst, Raw(inst, c), r)
  {
    hide IsResequenced;
    r := Resequence(inst, Raw(inst, c));
  }

  ghost predicate PricedAs(inst: Instance, c: Column, cost: int) {
    exists r :: IsResequenced(inst, Raw(inst, c), r) && cost == Round(SCALE as real * RouteCost(inst, r))
  }

  /** The columns, their costs, and for each driver and each rider the columns they appear in. */
  datatype Model = Model(
    columns: seq<Column>,
    costs: seq<int>,
    byDriver: map<NodeId, seq<nat>>,
    byRider: map<NodeId, seq<nat>>,
    vehicle: int,
    penalty: map<NodeId, int>)

  ghost predicate ListsDriver(columns: seq<Column>, d: NodeId, indices: seq<nat>) {
    Distinct(indices) && forall i :: i in indices <==> 0 <= i < |columns| && columns[i].driver == d
  }

  ghost predicate ListsRider(columns: seq<Column>, r: NodeId, indices: seq<nat>) {
    Distinct(indices) && forall i :: i in indices <==> 0 <= i < |columns| && r in columns[i].group
  }

  ghost predicate Built(inst: Instance, m: Model) {
    && |m.costs| == |m.columns|
    && (forall i :: 0 <= i < |m.columns| ==> PricedAs(inst, m.columns[i], m.costs[i]))
    && m.byDriver.Keys == Elements(DriverIds(inst)) && m.byRider.Keys == Elements(RiderIds(inst))
    && (forall d :: d in m.byDriver ==> ListsDriver(m.columns, d, m.byDriver[d]))
    && (forall r :: r in m.byRider ==> ListsRider(m.columns, r, m.byRider[r]))
  }

  function ScaledPenalty(inst: Instance, priority: nat): real {
    SCALE as real * inst.weights.unassigned * (1 + priority) as real
  }

  /** What leaving each rider out costs, scaled and rounded. */
  function Penalties(inst: Instance): map<NodeId, int> {
    map r | r in RiderIds(inst) && inst.Has(r) :: Round(ScaledPenalty(inst, inst.index[r].priority))
  }

  ghost predicate Weighed(inst: Instance, m: Model) {
    m.vehicle == Round(SCALE as real * inst.weights.vehicle) && m.penalty == Penalties(inst)
  }

  lemma IndexMoreDriver(columns: seq<Column>, c: Column, d: NodeId, indices: seq<nat>)
    requires ListsDriver(columns, d, indices)
    ensures ListsDriver(columns + [c], d, if c.driver == d then indices + [|columns|] else indices)
  {
    var now := if c.driver == d then indices + [|columns|] else indices;
    forall k | 0 <= k < |indices| ensures indices[k] != |columns| {
      assert indices[k] in indices;
    }
    forall i: int ensures i in now <==> 0 <= i < |columns + [c]| && (columns + [c])[i].driver == d {
    }
  }

  lemma IndexMoreRider(columns: seq<Column>, c: Column, r: NodeId, indices: seq<nat>)
    requires ListsRider(columns, r, indices)
    ensures ListsRider(columns + [c], r, if r in c.group then indices + [|columns|] else indices)
  {
    var now := if r in c.group then indices + [|columns|] else indices;
    forall k | 0 <= k < |indices| ensures indices[k] != |columns| {
      assert indices[k] in indices;
    }
    forall i: int ensures i in now <==> 0 <= i < |columns + [c]| && r in (columns + [c])[i].group {
    }
  }

  /** The new column's index added to the list of everyone in the group. */
  function Listed(byRider: map<NodeId, seq<nat>>, group: seq<NodeId>, i: nat): map<NodeId, seq<nat>> {
    map r | r in byRider :: if r in group then byRider[r] + [i] else byRider[r]
  }

  method ListRiders(byRider: map<NodeId, seq<nat>>, group: seq<NodeId>, i: nat) returns (after: map<NodeId, seq<nat>>)
    requires Distinct(group) && forall k :: 0 <= k < |group| ==> group[k] in byRider
    ensures after == Listed(byRider, group, i)
  {
    after := byRider;
    for k := 0 to |group|
      invariant after.Keys == byRider.Keys
      invariant forall r :: r in byRider ==> after[r] == if r in group[..k] then byRider[r] + [i] else byRider[r]
    {
      assert group[..k + 1] == group[..k] + [group[k]];
      assert group[k] !in group[..k];
      after := after[group[k] := after[group[k]] + [i]];
    }
    assert group[..|group|] == group;
    assert forall r :: r in byRider ==> after[r] == Listed(byRider, group, i)[r];
  }

  /** One more column, priced and listed. */
  method AddColumn(inst: Instance, m: Model, c: Column) returns (after: Model)
    requires Built(inst, m) && c.driver in m.byDriver
    requires Distinct(c.group) && forall k :: 0 <= k < |c.group| ==> c.group[k] in m.byRider
    ensures Built(inst, after) && after.columns == m.columns + [c]
    ensures after.vehicle == m.vehicle && after.penalty == m.penalty
  {
    hide IsResequenced, RouteCost, Distinct, ListsDriver, ListsRider, DriverIds, RiderIds, Raw, Round;
    var r := Car(inst, c);
    var cost := Round(SCALE as real * RouteCost(inst, r));
    assert PricedAs(inst, c, cost);
    var byRider := ListRiders(m.byRider, c.group, |m.columns|);
    after := m.(columns := m.columns + [c], costs := m.costs + [cost],
                byDriver := m.byDriver[c.driver := m.byDriver[c.driver] + [|m.columns|]], byRider := byRider);
    BuiltMore(inst, m, c, cost, after);
  }

  lemma BuiltMore(inst: Instance, m: Model, c: Column, cost: int, after: Model)
    requires Built(inst, m) && c.driver in m.byDriver && PricedAs(inst, c, cost)
    requires after.columns == m.columns + [c] && after.costs == m.costs + [cost]
    requires after.byDriver == m.byDriver[c.driver := m.byDriver[c.driver] + [|m.columns|]]
    requires after.byRider == Listed(m.byRider, c.group, |m.columns|)
    ensures Built(inst, after)
  {
    hide PricedAs, ListsDriver, ListsRider, DriverIds, RiderIds;
    forall d | d in after.byDriver ensures ListsDriver(after.columns, d, after.byDriver[d]) {
      IndexMoreDriver(m.columns, c, d, m.byDriver[d]);
    }
    forall r | r in after.byRider ensures ListsRider(after.columns, r, after.byRider[r]) {
      IndexMoreRider(m.columns, c, r, m.byRider[r]);
    }
  }

  method AddGroups(inst: Instance, start: Model, driver: NodeId, groups: seq<seq<NodeId>>) returns (m: Model)
    requires Built(inst, start) && driver in start.byDriver
    requires AllFit(start, groups)
    ensures Built(inst, m) && m.columns == start.columns + Paired(driver, groups)
    ensures m.vehicle == start.vehicle && m.penalty == start.penalty
    ensures m.byDriver.Keys == start.byDriver.Keys && m.byRider.Keys == start.byRider.Keys
  {
    hide Built, Distinct;
    m := start;
    for i := 0 to |groups|
      invariant Built(inst, m) && m.columns == start.columns + Paired(driver, groups[..i])
      invariant m.vehicle == start.vehicle && m.penalty == start.penalty
      invariant m.byDriver.Keys == start.byDriver.Keys && m.byRider.Keys == start.byRider.Keys
    {
      SameKeys(inst, start, m);
      var before := m;
      m := AddColumn(inst, m, Column(driver, groups[i]));
      SameKeys(inst, start, before);
      SameKeys(inst, before, m);
      assert Paired(driver, groups[..i + 1]) == Paired(driver, groups[..i]) + [Column(driver, groups[i])];
    }
    assert groups[..|groups|] == groups;
  }

  ghost predicate AllFit(m: Model, groups: seq<seq<NodeId>>) {
    forall i :: 0 <= i < |groups| ==> Distinct(groups[i]) && AllListed(m, groups[i])
  }

  ghost predicate AllListed(m: Model, group: seq<NodeId>) {
    forall k :: 0 <= k < |group| ==> group[k] in m.byRider
  }

  lemma SameKeys(inst: Instance, a: Model, b: Model)
    requires Built(inst, a) && Built(inst, b)
    ensures b.byDriver.Keys == a.byDriver.Keys && b.byRider.Keys == a.byRider.Keys
  {
    hide PricedAs, ListsDriver, ListsRider, DriverIds, RiderIds;
  }

  /** Every size of group for one driver, smallest first. */
  method AddDriver(inst: Instance, start: Model, driver: NodeId) returns (m: Model)
    requires inst.Valid() && Built(inst, start) && driver in start.byDriver
    ensures Built(inst, m) && m.columns == start.columns + Block(inst, driver)
    ensures m.vehicle == start.vehicle && m.penalty == start.penalty
    ensures m.byDriver.Keys == start.byDriver.Keys
  {
    hide Built, Eligible, Sizes, Combinations;
    m := start;
    var people := Eligible(inst, driver);
    for size := 0 to Sizes(inst, driver)
      invariant Built(inst, m) && m.columns == start.columns + Paired(driver, Groups(people, size))
      invariant m.vehicle == start.vehicle && m.penalty == start.penalty
      invariant m.byDriver.Keys == start.byDriver.Keys && m.byRider.Keys == start.byRider.Keys
    {
      GroupsListed(inst, m, driver, size);
      m := AddGroups(inst, m, driver, Combinations(people, size));
      PairedMore(driver, people, size);
    }
  }

  lemma PairedMore(driver: NodeId, people: seq<NodeId>, size: nat)
    ensures Paired(driver, Groups(people, size + 1))
         == Paired(driver, Groups(people, size)) + Paired(driver, Combinations(people, size))
  {
    hide Combinations;
  }

  lemma GroupsListed(inst: Instance, m: Model, driver: NodeId, size: nat)
    requires inst.Valid() && Built(inst, m)
    ensures AllFit(m, Combinations(Eligible(inst, driver), size))
  {
    hide Combinations, Eligible, Distinct, ListsDriver, ListsRider, PricedAs, DriverIds, RiderIds;
    var people := Eligible(inst, driver);
    EligibleAre(inst, driver);
    RiderIdsAre(inst);
    var groups := Combinations(people, size);
    forall i | 0 <= i < |groups| ensures Distinct(groups[i]) && AllListed(m, groups[i]) {
      CombinationsAreGroups(people, size, i);
      forall k | 0 <= k < |groups[i]| ensures groups[i][k] in m.byRider {
        var p := groups[i][k];
        assert p in Elements(groups[i]);
        assert p in Elements(people);
        assert p in RiderIds(inst);
        assert p in Elements(RiderIds(inst));
      }
    }
  }

  lemma NothingBuilt(inst: Instance, m: Model)
    requires m.columns == [] && m.costs == []
    requires m.byDriver == map d | d in DriverIds(inst) :: []
    requires m.byRider == map r | r in RiderIds(inst) :: []
    ensures Built(inst, m)
  {
    hide DriverIds, RiderIds;
    assert forall d :: d in m.byDriver <==> d in Elements(DriverIds(inst));
    assert forall r :: r in m.byRider <==> r in Elements(RiderIds(inst));
  }

  lemma DriverListed(inst: Instance, m: Model, i: nat)
    requires Built(inst, m) && i < |DriverIds(inst)|
    ensures DriverIds(inst)[i] in m.byDriver
  {
    hide DriverIds, RiderIds, PricedAs, ListsDriver, ListsRider;
    assert DriverIds(inst)[i] in DriverIds(inst);
  }

  /** The model `solve` hands to CP-SAT. */
  method BuildModel(inst: Instance) returns (m: Model)
    requires inst.Valid()
    ensures Built(inst, m) && Weighed(inst, m) && m.columns == ColumnsFor(inst, DriverIds(inst))
  {
    hide Built, DriverIds, RiderIds, Round, Block, Penalties, Elements;
    var drivers := DriverIds(inst);
    m := Model([], [], map d | d in DriverIds(inst) :: [], map r | r in RiderIds(inst) :: [],
               Round(SCALE as real * inst.weights.vehicle), Penalties(inst));
    NothingBuilt(inst, m);
    ghost var start := m;
    for i := 0 to |drivers|
      invariant Built(inst, m) && m.columns == ColumnsFor(inst, drivers[..i])
      invariant m.vehicle == start.vehicle && m.penalty == start.penalty
      invariant m.byDriver.Keys == start.byDriver.Keys
    {
      assert drivers[..i + 1][..i] == drivers[..i];
      DriverListed(inst, start, i);
      m := AddDriver(inst, m, drivers[i]);
    }
    assert drivers[..|drivers|] == drivers;
  }
}
