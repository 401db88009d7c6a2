/** The exact model's columns: each driver with every set of riders that fits, priced once. */
module Columns {
  import opened Models
  import opened Fleet
  import opened Seating
  import opened Enumeration

  const SCALE := 1000

  // ---- What is refused -----------------------------------------------------------------------------

  datatype Refusal = FlexibleDriver(id: NodeId) | DetourCap(id: NodeId) | DepartureWindow(id: NodeId)

  function RefusalOf(p: Participant): Option<Refusal> {
    if p.role.Either? then Some(FlexibleDriver(p.id))
    else if p.role.Driver? && p.maxDetour.Some? then Some(DetourCap(p.id))
    else if p.earliestDeparture.Some? then Some(DepartureWindow(p.id))
    else None
  }

  /** Not flexible, no detour cap on a driver, no restricted departure. */
  ghost predicate SupportedOne(p: Participant) {
    !p.role.Either? && (p.role.Driver? ==> p.maxDetour.None?) && p.earliestDeparture.None?
  }

  ghost predicate Supported(inst: Instance) {
    forall i :: 0 <= i < |inst.participants| ==> SupportedOne(inst.participants[i])
  }

  /** The first who is not supported, and why: being flexible before a cap, and that before a departure. */
  ghost predicate FirstRefused(inst: Instance, i: nat, refusal: Refusal) {
    && i < |inst.participants| && (forall j :: 0 <= j < i ==> SupportedOne(inst.participants[j]))
    && var p := inst.participants[i];
       match refusal
       case FlexibleDriver(id) => id == p.id && p.role == Either
       case DetourCap(id) => id == p.id && p.role == Driver && p.maxDetour.Some?
       case DepartureWindow(id) =>
         id == p.id && p.role != Either && !(p.role == Driver && p.maxDetour.Some?) && p.earliestDeparture.Some?
  }

  /** `_check_supported`: refuses for the first participant that is not supported. */
  method CheckSupported(inst: Instance) returns (refusal: Option<Refusal>)
    ensures refusal.None? <==> Supported(inst)
    ensures refusal.Some? ==> exists i :: FirstRefused(inst, i, refusal.value)
  {
    for i := 0 to |inst.participants|
      invariant forall j :: 0 <= j < i ==> SupportedOne(inst.participants[j])
    {
      refusal := RefusalOf(inst.participants[i]);
      if refusal.Some? {
        assert FirstRefused(inst, i, refusal.value);
        return;
      }
    }
    refusal := None;
  }

  // ---- Who drives and who might ride with them --------------------------------------------------------

  function Drives(): Participant -> bool {
    (p: Participant) => p.role.Driver?
  }

  function Rides(): Participant -> bool {
    (p: Participant) => p.IsRider()
  }

  /** The ids of those who pass a test, in roster order. */
  function Ids(people: seq<Participant>, test: Participant -> bool): seq<NodeId> {
    var n := |people|;
    if n == 0 then [] else Ids(people[..n - 1], test) + if test(people[n - 1]) then [people[n - 1].id] else []
  }

  lemma {:induction false} IdsFrom(people: seq<Participant>, test: Participant -> bool, x: NodeId)
    ensures x in Ids(people, test) <==> exists i :: 0 <= i < |people| && test(people[i]) && people[i].id == x
  {
    var n := |people|;
    if n > 0 {
      IdsFrom(people[..n - 1], test, x);
      if i :| 0 <= i < n - 1 && test(people[i]) && people[i].id == x {
        assert people[..n - 1][i] == people[i];
      }
    }
  }

  lemma {:induction false} IdsDistinct(people: seq<Participant>, test: Participant -> bool)
    requires forall i, j :: 0 <= i < j < |people| ==> people[i].id != people[j].id
    ensures Distinct(Ids(people, test))
  {
    var n := |people|;
    if n > 0 {
      var front := people[..n - 1];
      IdsDistinct(front, test);
      IdsFrom(front, test, people[n - 1].id);
      assert forall i :: 0 <= i < |front| ==> front[i].id != people[n - 1].id;
    }
  }

  function DriverIds(inst: Instance): seq<NodeId> {
    Ids(inst.participants, Drives())
  }

  function RiderIds(inst: Instance): seq<NodeId> {
    Ids(inst.participants, Rides())
  }

  lemma IdsOf(inst: Instance, test: Participant -> bool)
    requires inst.Valid()
    ensures Distinct(Ids(inst.participants, test))
    ensures forall x :: x in Ids(inst.participants, test) <==> inst.Has(x) && test(inst.index[x])
  {
    IdsDistinct(inst.participants, test);
    forall x ensures x in Ids(inst.participants, test) <==> inst.Has(x) && test(inst.index[x]) {
      IdsFrom(inst.participants, test, x);
      if inst.Has(x) && test(inst.index[x]) {
        var i :| 0 <= i < |inst.participants| && inst.participants[i] == inst.index[x];
      }
    }
  }

  lemma DriverIdsAre(inst: Instance)
    requires inst.Valid()
    ensures Distinct(DriverIds(inst))
    ensures forall x :: x in DriverIds(inst) <==> inst.Has(x) && inst.index[x].role.Driver?
  {
    hide Distinct, Ids;
    IdsOf(inst, Drives());
  }

  lemma RiderIdsAre(inst: Instance)
    requires inst.Valid()
    ensures Distinct(RiderIds(inst))
    ensures forall x :: x in RiderIds(inst) <==> IsRider(inst, x)
  {
    hide Distinct, Ids;
    IdsOf(inst, Rides());
  }

  /** Riders not pinned to another driver. */
  function EligibleFrom(inst: Instance, riders: seq<NodeId>, driver: NodeId): (r: seq<NodeId>)
    ensures forall x :: x in r <==> x in riders && inst.Has(x) && inst.index[x].PinAllows(driver)
    ensures Distinct(riders) ==> Distinct(r)
  {
    if riders == [] then []
    else
      var n := |riders| - 1;
      var front := EligibleFrom(inst, riders[..n], driver);
      assert forall x :: x in riders <==> x in riders[..n] || x == riders[n];
      assert Distinct(riders) ==> riders[n] !in riders[..n];
      if inst.Has(riders[n]) && inst.index[riders[n]].PinAllows(driver) then front + [riders[n]] else front
  }

  function Eligible(inst: Instance, driver: NodeId): seq<NodeId> {
    EligibleFrom(inst, RiderIds(inst), driver)
  }

  lemma EligibleAre(inst: Instance, driver: NodeId)
    requires inst.Valid()
    ensures Distinct(Eligible(inst, driver))
    ensures forall x :: x in Elements(Eligible(inst, driver)) <==> IsRider(inst, x) && inst.index[x].PinAllows(driver)
  {
    hide Distinct, RiderIds;
    RiderIdsAre(inst);
  }

  function SeatsOf(inst: Instance, driver: NodeId): nat {
    if inst.Has(driver) then inst.index[driver].seats else 0
  }

  /** How many group sizes there are: none up to the seats, or up to everyone. */
  function Sizes(inst: Instance, driver: NodeId): nat {
    var seats, eligible := SeatsOf(inst, driver), |Eligible(inst, driver)|;
    (if seats < eligible then seats else eligible) + 1
  }

  // ---- Columns -------------------------------------------------------------------------------------------

  datatype Column = Column(driver: NodeId, group: seq<NodeId>)

  function Paired(driver: NodeId, groups: seq<seq<NodeId>>): (r: seq<Column>)
    ensures |r| == |groups| && forall i :: 0 <= i < |r| ==> r[i] == Column(driver, groups[i])
  {
    seq(|groups|, i requires 0 <= i < |groups| => Column(driver, groups[i]))
  }

  function Block(inst: Instance, driver: NodeId): seq<Column> {
    Paired(driver, Groups(Eligible(inst, driver), Sizes(inst, driver)))
  }

  function ColumnsFor(inst: Instance, drivers: seq<NodeId>): seq<Column> {
    var n := |drivers|;
    if n == 0 then [] else ColumnsFor(inst, drivers[..n - 1]) + Block(inst, drivers[n - 1])
  }

  /** A driver and a set of riders who may all ride with them and fit, counted as people. */
  ghost predicate IsColumn(inst: Instance, driver: NodeId, group: set<NodeId>) {
    && inst.Has(driver) && inst.index[driver].role.Driver?
    && |group| <= inst.index[driver].seats
    && forall p :: p in group ==> IsRider(inst, p) && inst.index[p].PinAllows(driver)
  }

  ghost predicate AColumn(inst: Instance, c: Column) {
    Distinct(c.group) && IsColumn(inst, c.driver, Elements(c.group))
  }

  lemma BlockIsColumns(inst: Instance, driver: NodeId, i: nat)
    requires inst.Valid() && inst.Has(driver) && inst.index[driver].role.Driver? && i < |Block(inst, driver)|
    ensures Block(inst, driver)[i].driver == driver && AColumn(inst, Block(inst, driver)[i])
  {
    hide Groups, Distinct, Eligible, Elements;
    var people := Eligible(inst, driver);
    EligibleAre(inst, driver);
    GroupsAreGroups(people, Sizes(inst, driver), i);
    var c := Groups(people, Sizes(inst, driver))[i];
    GroupSize(people, |c|, c);
    assert IsGroup(people, |c|, c);
  }

  lemma BlockComplete(inst: Instance, driver: NodeId, group: set<NodeId>) returns (i: nat)
    requires inst.Valid() && IsColumn(inst, driver, group)
    ensures i < |Block(inst, driver)| && Elements(Block(inst, driver)[i].group) == group
  {
    hide Groups, Distinct, Eligible, Elements;
    var people := Eligible(inst, driver);
    EligibleAre(inst, driver);
    forall p | p in group ensures p in Elements(people) {
    }
    SubsetSize(group, Elements(people));
    DistinctSize(people);
    i := Enumeration.GroupsComplete(people, Sizes(inst, driver), group);
  }

  lemma SubsetSize(a: set<NodeId>, b: set<NodeId>)
    requires a <= b
    ensures |a| <= |b|
  {
    assert b == a + (b - a);
  }

  lemma BlockDiffers(inst: Instance, driver: NodeId, i: nat, j: nat)
    requires inst.Valid() && i < j < |Block(inst, driver)|
    ensures Elements(Block(inst, driver)[i].group) != Elements(Block(inst, driver)[j].group)
  {
    hide Groups, Distinct, Eligible, Elements;
    EligibleAre(inst, driver);
    GroupsDiffer(Eligible(inst, driver), Sizes(inst, driver), i, j);
  }

  ghost predicate AllDrive(inst: Instance, drivers: seq<NodeId>) {
    forall i :: 0 <= i < |drivers| ==> inst.Has(drivers[i]) && inst.index[drivers[i]].role.Driver?
  }

  lemma {:induction false} ColumnsAreColumns(inst: Instance, drivers: seq<NodeId>, i: nat)
    requires inst.Valid() && AllDrive(inst, drivers) && i < |ColumnsFor(inst, drivers)|
    ensures AColumn(inst, ColumnsFor(inst, drivers)[i]) && ColumnsFor(inst, drivers)[i].driver in drivers
  {
    hide Block, AColumn;
    var n := |drivers| - 1;
    var before := ColumnsFor(inst, drivers[..n]);
    if i < |before| {
      ColumnsAreColumns(inst, drivers[..n], i);
    } else {
      BlockIsColumns(inst, drivers[n], i - |before|);
    }
  }

  lemma {:induction false} ColumnsComplete(inst: Instance, drivers: seq<NodeId>, k: nat, group: set<NodeId>)
    returns (i: nat)
    requires inst.Valid() && AllDrive(inst, drivers) && k < |drivers| && IsColumn(inst, drivers[k], group)
    ensures i < |ColumnsFor(inst, drivers)| && ColumnsFor(inst, drivers)[i].driver == drivers[k]
    ensures Elements(ColumnsFor(inst, drivers)[i].group) == group
  {
    hide Block, IsColumn, Elements, AColumn;
    var n := |drivers| - 1;
    if k < n {
      i := ColumnsComplete(inst, drivers[..n], k, group);
    } else {
      var j := BlockComplete(inst, drivers[n], group);
      BlockIsColumns(inst, drivers[n], j);
      i := |ColumnsFor(inst, drivers[..n])| + j;
    }
  }

  lemma {:induction false} ColumnsDiffer(inst: Instance, drivers: seq<NodeId>, i: nat, j: nat)
    requires inst.Valid() && AllDrive(inst, drivers) && Distinct(drivers) && i < j < |ColumnsFor(inst, drivers)|
    ensures var all := ColumnsFor(inst, drivers);
      all[i].driver == all[j].driver ==> Elements(all[i].group) != Elements(all[j].group)
  {
    hide Block, Elements, AColumn;
    var n := |drivers| - 1;
    var before := ColumnsFor(inst, drivers[..n]);
    if j < |before| {
      ColumnsDiffer(inst, drivers[..n], i, j);
    } else {
      BlockIsColumns(inst, drivers[n], j - |before|);
      if i < |before| {
        ColumnsAreColumns(inst, drivers[..n], i);
      } else {
        BlockDiffers(inst, drivers[n], i - |before|, j - |before|);
      }
    }
  }

  // ---- Counting without enumerating ------------------------------------------------------------------------

  method CombTotal(m: nat, sizes: nat) returns (total: nat)
    ensures total == CombSum(m, sizes)
  {
    total := 0;
    for k := 0 to sizes
      invariant total == CombSum(m, k)
    {
      total := total + Comb(m, k);
    }
  }

  lemma BlockCount(inst: Instance, driver: NodeId)
    ensures |Block(inst, driver)| == CombSum(|Eligible(inst, driver)|, Sizes(inst, driver))
  {
    GroupsCount(Eligible(inst, driver), Sizes(inst, driver));
  }

  /** `column_count`: exactly how many cars the model goes on to enumerate. */
  method ColumnCount(inst: Instance) returns (total: nat)
    ensures total == |ColumnsFor(inst, DriverIds(inst))|
  {
    hide Block, Eligible, CombSum, Sizes;
    total := 0;
    var people := inst.participants;
    for i := 0 to |people|
      invariant total == |ColumnsFor(inst, Ids(people[..i], Drives()))|
    {
      assert people[..i + 1][..i] == people[..i];
      IdsMore(people, i);
      if people[i].role.Driver? {
        var d := people[i].id;
        var some := CombTotal(|Eligible(inst, d)|, Sizes(inst, d));
        BlockCount(inst, d);
        total := total + some;
      }
    }
    assert people[..|people|] == people;
  }

  lemma IdsMore(people: seq<Participant>, i: nat)
    requires i < |people|
    ensures Ids(people[..i + 1], Drives())
         == if people[i].role.Driver? then Ids(people[..i], Drives()) + [people[i].id] else Ids(people[..i], Drives())
  {
    assert people[..i + 1][..i] == people[..i];
  }
}
