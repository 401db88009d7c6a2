/** Whether the seats go round: what counting them against the riders says, and what it does not. */
module Shortage {
  import opened Models
  import opened Sorting
  import opened Objective
  import opened Feasibility
  import opened Fleet
  import opened Seating
  import opened Outcome
  import opened Greedy
  import opened Enumeration
  import opened Columns

  /** Who has to ride on a leg: they take it and cannot drive. */
  ghost predicate Needs(inst: Instance, back: bool, p: NodeId) {
    && inst.Has(p) && inst.index[p].role.Passenger?
    && if back then inst.index[p].needsReturn else inst.index[p].needsOutbound
  }

  ghost function Waiting(inst: Instance, back: bool): (r: set<NodeId>)
    ensures forall p :: p in r <==> Needs(inst, back, p)
  {
    set p | p in inst.index && Needs(inst, back, p)
  }

  function LegOf(route: Route, back: bool): seq<NodeId> {
    if back then route.inbound else route.outbound
  }

  /** On either leg, no more people who cannot drive than seats of people who can. */
  ghost predicate SeatsGoRound(inst: Instance) {
    forall back :: |Waiting(inst, back)| <= SeatSum(inst.participants)
  }

  // ---- Too many for the seats: somebody is left out -----------------------------------------------------------

  /** Everyone on one leg of the cars of `people`. */
  ghost function AboardOf(cars: Cars, people: seq<Participant>, back: bool): set<NodeId> {
    var n := |people|;
    if n == 0 then {}
    else
      AboardOf(cars, people[..n - 1], back)
      + if people[n - 1].id in cars then Elements(LegOf(cars[people[n - 1].id], back)) else {}
  }

  lemma {:induction false} AboardAre(cars: Cars, people: seq<Participant>, back: bool, j: nat, p: NodeId)
    requires j < |people| && people[j].id in cars && p in LegOf(cars[people[j].id], back)
    ensures p in AboardOf(cars, people, back)
  {
    var n := |people| - 1;
    if j < n {
      assert people[..n][j] == people[j];
      AboardAre(cars, people[..n], back, j, p);
    }
  }

  lemma LegFits(inst: Instance, cars: Cars, d: NodeId, back: bool)
    requires Coherent(inst, cars) && AllFeasible(inst, cars) && d in cars
    ensures inst.Has(d) && inst.index[d].role.CanDrive()
    ensures |Elements(LegOf(cars[d], back))| <= inst.index[d].seats
  {
    hide Distinct, RoundTrip, RideOut, RideBack, OutboundSchedule;
    CarIsGood(inst, cars, d);
    assert !Breaks(inst, cars[d], RoleRule) && !Breaks(inst, cars[d], SeatsRule);
    DistinctSize(LegOf(cars[d], back));
  }

  lemma UnionSize(a: set<NodeId>, b: set<NodeId>)
    ensures |a + b| <= |a| + |b|
  {
    assert a + b == a + (b - a);
    SubsetSize(b - a, b);
  }

  lemma {:induction false} AboardFit(inst: Instance, cars: Cars, people: seq<Participant>, back: bool)
    requires Coherent(inst, cars) && AllFeasible(inst, cars)
    requires forall i :: 0 <= i < |people| ==> inst.Has(people[i].id) && inst.index[people[i].id] == people[i]
    ensures |AboardOf(cars, people, back)| <= SeatSum(people)
  {
    hide Coherent, Feasible;
    if people != [] {
      var n := |people| - 1;
      AboardFit(inst, cars, people[..n], back);
      var more := if people[n].id in cars then Elements(LegOf(cars[people[n].id], back)) else {};
      if people[n].id in cars {
        LegFits(inst, cars, people[n].id, back);
      }
      UnionSize(AboardOf(cars, people[..n], back), more);
    }
  }

  lemma WaitingRides(inst: Instance, cars: Cars, left: set<NodeId>, back: bool, p: NodeId)
    requires inst.Valid() && WellFormed(inst, cars, left) && Needs(inst, back, p) && p !in left
    ensures p in AboardOf(cars, inst.participants, back)
  {
    hide Feasible, Distinct;
    assert IsRider(inst, p);
    if p in cars {
      FeasibleDrives(inst, cars, p);
    }
    var d :| d in cars && p in cars[d].Passengers();
    assert GoodCar(inst, d, cars[d]);
    var j :| 0 <= j < |inst.participants| && inst.participants[j] == inst.index[d];
    AboardAre(cars, inst.participants, back, j, p);
  }

  /** When a leg has more passengers than all the seats there are, every legal answer leaves one of them out. */
  lemma SomebodyIsLeftOut(inst: Instance, cars: Cars, left: set<NodeId>, back: bool)
    requires inst.Valid() && WellFormed(inst, cars, left)
    requires |Waiting(inst, back)| > SeatSum(inst.participants)
    ensures exists p :: p in left && Needs(inst, back, p)
  {
    hide WellFormed, SeatSum, Needs;
    if forall p :: p in left ==> !Needs(inst, back, p) {
      forall p | p in Waiting(inst, back) ensures p in AboardOf(cars, inst.participants, back) {
        WaitingRides(inst, cars, left, back, p);
      }
      SubsetSize(Waiting(inst, back), AboardOf(cars, inst.participants, back));
      WellFormedFits(inst, cars, left, back);
    }
  }

  lemma WellFormedFits(inst: Instance, cars: Cars, left: set<NodeId>, back: bool)
    requires inst.Valid() && WellFormed(inst, cars, left)
    ensures |AboardOf(cars, inst.participants, back)| <= SeatSum(inst.participants)
  {
    hide Coherent, Feasible, SeatSum;
    AboardFit(inst, cars, inst.participants, back);
  }

  // ---- Seats enough: with nothing else in the way, nobody is ----------------------------------------------------

  /** No pin, no detour limit and no earliest departure: only roles and seats can be broken. */
  ghost predicate NothingBinds(inst: Instance) {
    forall p :: inst.Has(p) ==>
      && inst.index[p].pinnedDriver.None? && inst.index[p].maxDetour.None? && inst.index[p].earliestDeparture.None?
  }

  ghost function Both(inst: Instance): set<NodeId> {
    set p | p in inst.index && Needs(inst, false, p) && Needs(inst, true, p)
  }

  ghost function OneWay(inst: Instance, back: bool): set<NodeId> {
    set p | p in inst.index && Needs(inst, back, p) && !Needs(inst, !back, p)
  }

  /** The passengers of a leg in a row, those who take both legs first: the `k`-th sits in the `k`-th seat. */
  ghost function Row(inst: Instance, back: bool): seq<NodeId> {
    Sorted(Both(inst)) + Sorted(OneWay(inst, back))
  }

  lemma RowIs(inst: Instance, back: bool)
    ensures Distinct(Row(inst, back)) && |Row(inst, back)| == |Waiting(inst, back)|
    ensures forall p :: p in Row(inst, back) <==> Needs(inst, back, p)
  {
    hide Sorted, Needs;
    var a, b := Both(inst), OneWay(inst, back);
    assert Waiting(inst, back) == a + b && a !! b;
    forall i, j | 0 <= i < |a| && 0 <= j < |b| ensures Sorted(a)[i] != Sorted(b)[j] {
      assert Sorted(a)[i] in a && Sorted(b)[j] in b;
    }
  }

  /** Whoever takes both legs has the same seat on each. */
  lemma SameSeat(inst: Instance, back: bool, k: nat)
    requires k < |Row(inst, back)| && Needs(inst, !back, Row(inst, back)[k])
    ensures k < |Row(inst, !back)| && Row(inst, !back)[k] == Row(inst, back)[k]
  {
    hide Sorted, Needs;
    RowIs(inst, back);
    if k >= |Both(inst)| {
      OneWayLast(inst, back, k);
    }
  }

  lemma OneWayLast(inst: Instance, back: bool, k: nat)
    requires |Both(inst)| <= k < |Row(inst, back)|
    ensures Row(inst, back)[k] in OneWay(inst, back)
  {
    hide Sorted, Needs;
    assert Row(inst, back)[k] == Sorted(OneWay(inst, back))[k - |Both(inst)|];
    assert Row(inst, back)[k] in Sorted(OneWay(inst, back));
  }

  /** The seats before somebody's on the roster. */
  ghost function SeatsBefore(inst: Instance, i: nat): nat
    requires i <= |inst.participants|
  {
    SeatSum(inst.participants[..i])
  }

  lemma SeatsNext(inst: Instance, i: nat)
    requires i < |inst.participants|
    ensures var p := inst.participants[i];
      SeatsBefore(inst, i + 1) == SeatsBefore(inst, i) + if p.role.CanDrive() then p.seats else 0
  {
    assert inst.participants[..i + 1][..i] == inst.participants[..i];
  }

  lemma {:induction false} SeatsGrow(inst: Instance, i: nat, j: nat)
    requires i <= j <= |inst.participants|
    ensures SeatsBefore(inst, i) <= SeatsBefore(inst, j)
  {
    if i < j {
      SeatsGrow(inst, i, j - 1);
      SeatsNext(inst, j - 1);
    }
  }

  /** Every seat is somebody's. */
  lemma {:induction false} SeatOf(inst: Instance, k: nat, n: nat) returns (i: nat)
    requires n <= |inst.participants| && k < SeatsBefore(inst, n)
    ensures i < n && inst.participants[i].role.CanDrive() && SeatsBefore(inst, i) <= k < SeatsBefore(inst, i + 1)
  {
    hide SeatsBefore;
    if n == 0 {
      NoSeats(inst);
    }
    SeatsNext(inst, n - 1);
    if k < SeatsBefore(inst, n - 1) {
      i := SeatOf(inst, k, n - 1);
    } else {
      i := n - 1;
    }
  }

  lemma NoSeats(inst: Instance)
    ensures SeatsBefore(inst, 0) == 0
  {
  }

  /** The stretch of a row from one seat up to another. */
  function Stretch(row: seq<NodeId>, from: nat, to: nat): (r: seq<NodeId>)
    requires from <= to
    ensures |r| <= to - from
    ensures forall p :: p in r <==> exists k :: from <= k < to && k < |row| && row[k] == p
    ensures Distinct(row) ==> Distinct(r)
  {
    var stop := if to < |row| then to else |row|;
    var start := if from < stop then from else stop;
    var r := row[start..stop];
    assert forall k :: start <= k < stop ==> row[k] == r[k - start];
    r
  }

  /** The passengers whose seats are this participant's. */
  ghost function FullCar(inst: Instance, i: nat): Route
    requires i < |inst.participants|
  {
    SeatsGrow(inst, i, i + 1);
    var from, to := SeatsBefore(inst, i), SeatsBefore(inst, i + 1);
    Route(inst.participants[i].id, Stretch(Row(inst, false), from, to), Stretch(Row(inst, true), from, to))
  }

  ghost function PlaceIn(inst: Instance, d: NodeId): (i: nat)
    requires inst.Valid() && inst.Has(d)
    ensures i < |inst.participants| && inst.participants[i] == inst.index[d]
  {
    var i: nat :| i < |inst.participants| && inst.participants[i] == inst.index[d];
    i
  }

  /** Everyone who can drive does. */
  ghost function FullCars(inst: Instance): Cars
    requires inst.Valid()
  {
    map d | d in inst.index && inst.index[d].role.CanDrive() :: FullCar(inst, PlaceIn(inst, d))
  }

  /** Who sits in the car: those of either row whose seat it is. */
  lemma InFullCar(inst: Instance, i: nat, back: bool, p: NodeId)
    requires i < |inst.participants|
    ensures p in LegOf(FullCar(inst, i), back) <==>
      exists k: nat ::
        SeatsBefore(inst, i) <= k < SeatsBefore(inst, i + 1) && k < |Row(inst, back)| && Row(inst, back)[k] == p
    ensures Distinct(LegOf(FullCar(inst, i), back))
    ensures |LegOf(FullCar(inst, i), back)| <= SeatsBefore(inst, i + 1) - SeatsBefore(inst, i)
  {
    hide Row, SeatsBefore, Distinct;
    SeatsGrow(inst, i, i + 1);
    RowIs(inst, back);
  }

  lemma FullCarSame(inst: Instance, i: nat, back: bool, p: NodeId)
    requires i < |inst.participants| && p in LegOf(FullCar(inst, i), back) && Needs(inst, !back, p)
    ensures p in LegOf(FullCar(inst, i), !back)
  {
    hide Row, SeatsBefore, FullCar, LegOf, Needs;
    InFullCar(inst, i, back, p);
    InFullCar(inst, i, !back, p);
    var k: nat :|
      SeatsBefore(inst, i) <= k < SeatsBefore(inst, i + 1) && k < |Row(inst, back)| && Row(inst, back)[k] == p;
    SameSeat(inst, back, k);
  }

  lemma FullCarNeeds(inst: Instance, i: nat, back: bool, p: NodeId)
    requires i < |inst.participants| && p in LegOf(FullCar(inst, i), back)
    ensures Needs(inst, back, p)
  {
    hide Row, SeatsBefore, FullCar, LegOf, Needs;
    InFullCar(inst, i, back, p);
    RowIs(inst, back);
  }

  lemma FullCarIsGood(inst: Instance, d: NodeId)
    requires inst.Valid() && inst.Has(d) && inst.index[d].role.CanDrive()
    ensures GoodCar(inst, d, FullCar(inst, PlaceIn(inst, d)))
  {
    hide FullCar, Distinct;
    var i := PlaceIn(inst, d);
    var car := FullCar(inst, i);
    FullLegsDistinct(inst, i);
    FullCarDriver(inst, i);
    forall p | p in car.Passengers()
      ensures p != d && IsRider(inst, p)
      ensures p in car.outbound <==> inst.index[p].needsOutbound
      ensures p in car.inbound <==> inst.index[p].needsReturn
    {
      FullCarRider(inst, i, p);
    }
  }

  lemma FullLegsDistinct(inst: Instance, i: nat)
    requires i < |inst.participants|
    ensures Distinct(FullCar(inst, i).outbound) && Distinct(FullCar(inst, i).inbound)
  {
    hide FullCar, Distinct;
    InFullCar(inst, i, false, 0);
    InFullCar(inst, i, true, 0);
  }

  lemma FullCarDriver(inst: Instance, i: nat)
    requires i < |inst.participants|
    ensures FullCar(inst, i).driver == inst.participants[i].id
  {
  }

  lemma FullCarRider(inst: Instance, i: nat, p: NodeId)
    requires i < |inst.participants| && p in FullCar(inst, i).Passengers()
    ensures inst.Has(p) && inst.index[p].role.Passenger? && IsRider(inst, p)
    ensures p in FullCar(inst, i).outbound <==> inst.index[p].needsOutbound
    ensures p in FullCar(inst, i).inbound <==> inst.index[p].needsReturn
  {
    hide FullCar;
    var car := FullCar(inst, i);
    var back := p !in car.outbound;
    assert p in LegOf(car, back);
    FullCarNeeds(inst, i, back, p);
    if Needs(inst, !back, p) {
      FullCarSame(inst, i, back, p);
    } else if p in LegOf(car, !back) {
      FullCarNeeds(inst, i, !back, p);
    }
  }

  lemma FullCarIsFeasible(inst: Instance, d: NodeId)
    requires inst.Valid() && NothingBinds(inst) && inst.Has(d) && inst.index[d].role.CanDrive()
    ensures Feasible(inst, FullCar(inst, PlaceIn(inst, d)))
  {
    hide FullCar, RoundTrip, RideOut, RideBack, OutboundSchedule, SeatsBefore, Distinct;
    var i := PlaceIn(inst, d);
    var car := FullCar(inst, i);
    FullCarIsGood(inst, d);
    GoodIsKnown(inst, d, car);
    InFullCar(inst, i, false, d);
    InFullCar(inst, i, true, d);
    SeatsNext(inst, i);
  }

  /** Two cars hold different seats. */
  lemma NobodyTwice(inst: Instance, i: nat, j: nat, p: NodeId)
    requires i < j < |inst.participants| && p in FullCar(inst, i).Passengers()
    ensures p !in FullCar(inst, j).Passengers()
  {
    hide FullCar, SeatsBefore, Row;
    var back := p !in FullCar(inst, i).outbound;
    FullCarRider(inst, i, p);
    InFullCar(inst, i, back, p);
    InFullCar(inst, j, back, p);
    RowIs(inst, back);
    SeatsGrow(inst, i + 1, j);
    if p in FullCar(inst, j).Passengers() {
      FullCarRider(inst, j, p);
    }
  }

  lemma FullIsCoherent(inst: Instance)
    requires inst.Valid() && NothingBinds(inst)
    ensures Coherent(inst, FullCars(inst)) && AllFeasible(inst, FullCars(inst))
  {
    hide FullCar, Feasible, GoodCar, NothingBinds;
    var cars := FullCars(inst);
    forall d | d in cars ensures GoodCar(inst, d, cars[d]) && Feasible(inst, cars[d]) {
      FullCarIsGood(inst, d);
      FullCarIsFeasible(inst, d);
    }
    forall d, e, p | d in cars && e in cars && p in cars[d].Passengers() && p in cars[e].Passengers() ensures d == e {
      var i, j := PlaceIn(inst, d), PlaceIn(inst, e);
      if i < j {
        NobodyTwice(inst, i, j, p);
      } else if j < i {
        NobodyTwice(inst, j, i, p);
      }
    }
    forall d, e | d in cars && e in cars ensures e !in cars[d].Passengers() {
      if e in cars[d].Passengers() {
        FullCarRider(inst, PlaceIn(inst, d), e);
      }
    }
  }

  lemma EveryoneHasASeat(inst: Instance, back: bool, p: NodeId)
    requires inst.Valid() && |Waiting(inst, back)| <= SeatSum(inst.participants) && Needs(inst, back, p)
    ensures Seats(FullCars(inst), p)
  {
    hide FullCar, Row, Needs, SeatSum;
    RowIs(inst, back);
    var k: nat :| k < |Row(inst, back)| && Row(inst, back)[k] == p;
    var n := |inst.participants|;
    assert inst.participants[..n] == inst.participants;
    var i := SeatOf(inst, k, n);
    var d := inst.participants[i].id;
    assert PlaceIn(inst, d) == i;
    InFullCar(inst, i, back, p);
    assert p in LegOf(FullCar(inst, i), back);
    assert d in FullCars(inst) && p in FullCars(inst)[d].Passengers();
  }

  lemma FullIsWellFormed(inst: Instance)
    requires inst.Valid() && NothingBinds(inst) && SeatsGoRound(inst)
    ensures WellFormed(inst, FullCars(inst), {})
  {
    hide FullCar, Feasible, Coherent, NothingBinds, Seats;
    FullIsCoherent(inst);
    forall p | IsRider(inst, p) ensures Placed(FullCars(inst), p) {
      if inst.index[p].role.Passenger? {
        var back := !inst.index[p].needsOutbound;
        assert Needs(inst, back, p);
        assert |Waiting(inst, back)| <= SeatSum(inst.participants);
        EveryoneHasASeat(inst, back, p);
      }
    }
  }

  /**
    * Where only roles and seats can be broken, everyone can be carried exactly when on neither leg there are more
    * passengers than seats: whoever is flexible drives.
    */
  lemma EveryoneRidesExactly(inst: Instance)
    requires inst.Valid() && NothingBinds(inst)
    ensures (exists cars :: WellFormed(inst, cars, {})) <==> SeatsGoRound(inst)
  {
    hide WellFormed, NothingBinds;
    if SeatsGoRound(inst) {
      FullIsWellFormed(inst);
    }
    if cars :| WellFormed(inst, cars, {}) {
      forall back ensures |Waiting(inst, back)| <= SeatSum(inst.participants) {
        if |Waiting(inst, back)| > SeatSum(inst.participants) {
          SomebodyIsLeftOut(inst, cars, {}, back);
        }
      }
    }
  }

  // ---- What the count of riders says --------------------------------------------------------------------------

  /** Of so many people, those who ride. */
  ghost function RidersOf(people: seq<Participant>): set<NodeId> {
    set i | 0 <= i < |people| && people[i].IsRider() :: people[i].id
  }

  lemma {:induction false} RidersCounted(people: seq<Participant>)
    requires forall i, j :: 0 <= i < j < |people| ==> people[i].id != people[j].id
    ensures RiderCount(people) == |RidersOf(people)|
  {
    if people == [] {
      assert RidersOf(people) == {};
    } else {
      var n := |people| - 1;
      RidersCounted(people[..n]);
      forall p ensures p in RidersOf(people)
        <==> p in RidersOf(people[..n]) || (people[n].IsRider() && p == people[n].id)
      {
        if p in RidersOf(people[..n]) {
          var i :| 0 <= i < n && people[..n][i].IsRider() && people[..n][i].id == p;
          assert people[i].id == p;
        }
      }
      assert RidersOf(people) == RidersOf(people[..n]) + if people[n].IsRider() then {people[n].id} else {};
    }
  }

  /** The seats are short when there are fewer than people who ride, whichever legs they take and whether they drive. */
  lemma ShortExactly(inst: Instance)
    requires inst.Valid()
    ensures SeatShort(inst) <==> SeatSum(inst.participants) < |set p | p in inst.index && IsRider(inst, p)|
  {
    RidersCounted(inst.participants);
    assert (set p | p in inst.index && IsRider(inst, p)) == RidersOf(inst.participants);
  }

  /** Every rider is a passenger who takes this leg. */
  ghost predicate AllGo(inst: Instance, back: bool) {
    forall p :: IsRider(inst, p) ==> Needs(inst, back, p)
  }

  /** Where all riders are passengers who take the same leg, short means that every legal answer leaves one out. */
  lemma ShortLeavesOut(inst: Instance, cars: Cars, left: set<NodeId>, back: bool)
    requires inst.Valid() && AllGo(inst, back) && SeatShort(inst) && WellFormed(inst, cars, left)
    ensures exists p :: p in left && IsRider(inst, p)
  {
    hide SeatSum, SeatShort, WellFormed;
    ShortExactly(inst);
    assert (set p | p in inst.index && IsRider(inst, p)) == Waiting(inst, back);
    SomebodyIsLeftOut(inst, cars, left, back);
  }

  /** One seat, one passenger out and another back. */
  ghost function TwoHalves(): Instance {
    var d := Participant(0, Driver, 1, 0, None, None, None, None, true, true);
    var out := Participant(1, Passenger, 0, 0, None, None, None, None, true, false);
    var back := Participant(2, Passenger, 0, 0, None, None, None, None, false, true);
    Instance(0, 1, [d, out, back], Matrix((a, b) => 0), Weights(1.0, 1.0, 1.0, 1.0, 1.0, 1.0),
             map[0 := d, 1 := out, 2 := back])
  }

  lemma TwoHalvesCounts()
    ensures SeatSum(TwoHalves().participants) == 1 && RiderCount(TwoHalves().participants) == 2
  {
    var people := TwoHalves().participants;
    var two, one := people[..2], people[..1];
    assert two[..1] == one && one[..0] == [];
    assert SeatSum(one) == 1 && RiderCount(one) == 0;
    assert SeatSum(two) == 1 && RiderCount(two) == 1;
  }

  /** Short by the count, and yet everyone can be carried. */
  lemma ShortIsNotEnough()
    ensures TwoHalves().Valid() && SeatShort(TwoHalves()) && exists cars :: WellFormed(TwoHalves(), cars, {})
  {
    hide WellFormed;
    var inst := TwoHalves();
    TwoHalvesCounts();
    assert inst.Valid() && NothingBinds(inst);
    assert Waiting(inst, false) == {1} && Waiting(inst, true) == {2};
    assert SeatsGoRound(inst);
    EveryoneRidesExactly(inst);
  }
}
