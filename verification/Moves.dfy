/** The moves of the search: tearing part of a state down and building it back up. */
module Moves {
  import opened Models
  import opened Sorting
  import opened Feasibility
  import opened Insertion
  import opened Fleet
  import opened Search
  import opened Seating
  import opened Outcome
  import opened Greedy

  const MAX_RUIN := 30
  const SEAT_NOISE := 0.5

  // ---- Random draws: callers know only the range, so what is proved holds for every stream ---------

  method RandomUnit() returns (x: real)
    ensures 0.0 <= x < 1.0
  {
    var y: real := *;
    x := if 0.0 <= y < 1.0 then y else 0.0;
  }

  method RandomInt(lo: int, hi: int) returns (x: int)
    requires lo <= hi
    ensures lo <= x <= hi
  {
    var y: int := *;
    x := if lo <= y <= hi then y else lo;
  }

  method Sample(from: set<NodeId>, k: nat) returns (r: set<NodeId>)
    requires k <= |from|
    ensures r <= from && |r| == k
  {
    r := {};
    var left := from;
    for i := 0 to k
      invariant left <= from && r == from - left && |r| == i
    {
      var x := PickElement(left);
      r, left := r + {x}, left - {x};
    }
  }

  method Shuffle(s: set<NodeId>) returns (r: seq<NodeId>)
    ensures Distinct(r) && forall x :: x in r <==> x in s
  {
    r := [];
    var left := s;
    while left != {}
      invariant left <= s && Distinct(r) && forall x :: x in r <==> x in s && x !in left
      decreases |left|
    {
      var x := PickElement(left);
      r, left := r + [x], left - {x};
    }
  }

  // ---- Ruin ------------------------------------------------------------------------------------------

  function SeatedSet(cars: Cars): (s: set<NodeId>)
    ensures forall p :: p in s <==> Seats(cars, p)
  {
    set d, p | d in cars && p in cars[d].Passengers() :: p
  }

  function CarOf(cars: Cars, p: NodeId): (d: NodeId)
    requires Seats(cars, p)
    requires forall d, e :: d in cars && e in cars && p in cars[d].Passengers() && p in cars[e].Passengers() ==> d == e
    ensures d in cars && p in cars[d].Passengers()
  {
    var d :| d in cars && p in cars[d].Passengers();
    d
  }

  /** Cars that can be emptied: those with someone in them, and those of flexible drivers. */
  function Closable(inst: Instance, cars: Cars): set<NodeId> {
    set d | d in cars && d in inst.index && (cars[d].Passengers() != {} || !inst.index[d].role.Driver?)
  }

  /** Coherent, nobody in two places, and only `pending` still to be seated; feasibility is rechecked later. */
  ghost predicate Sound(inst: Instance, cars: Cars, unassigned: set<NodeId>, pending: set<NodeId>) {
    Coherent(inst, cars) && Settled(inst, cars, unassigned, pending)
  }

  ghost function Riders(inst: Instance, pool: set<NodeId>): set<NodeId> {
    set p | p in pool && IsRider(inst, p)
  }

  /** A flexible participant who takes neither leg and does not drive; driving until their car was closed. */
  ghost predicate Idler(inst: Instance, cars: Cars, p: NodeId) {
    inst.Has(p) && inst.index[p].role.Either? && !inst.index[p].NeedsTransport() && !Placed(cars, p)
  }

  /** Everyone in the pool rides, or is an idler not yet left out. */
  ghost predicate Waits(inst: Instance, cars: Cars, unassigned: set<NodeId>, pool: set<NodeId>) {
    forall p :: p in pool ==> IsRider(inst, p) || (Idler(inst, cars, p) && p !in unassigned)
  }

  /** Exactly `removed` have left: every other seat, its place in the order and every other car is as it was. */
  ghost predicate TakenOut(before: Cars, after: Cars, removed: set<NodeId>) {
    && (forall d :: d in after ==> d in before && after[d] == Thinned(before[d], removed))
    && (forall d :: d in before && d !in after ==> before[d].Passengers() + {d} <= removed)
    && (forall p :: p in removed ==> Placed(before, p))
  }

  lemma EmptyingIsSound(inst: Instance, cars: Cars, unassigned: set<NodeId>, d: NodeId)
    requires Sound(inst, cars, unassigned, {}) && Driven(inst, cars) && d in cars
    ensures Sound(inst, cars[d := EmptyCar(d)], unassigned, cars[d].Passengers())
  {
    DrivenIsApart(inst, cars);
    CarIsGood(inst, cars, d);
    EmptyIsGood(inst, d);
    PassengersAreRiders(inst, cars, d);
    hide Coherent, Apart, GoodCar;
    ShrinkCar(inst, cars, d, EmptyCar(d));
    assert forall p :: p in cars[d].Passengers() ==> Seats(cars, p);
  }

  lemma PassengersAreRiders(inst: Instance, cars: Cars, d: NodeId)
    requires Coherent(inst, cars) && d in cars
    ensures forall p :: p in cars[d].Passengers() ==> IsRider(inst, p) && p != d
    ensures Driven(inst, cars) ==> forall p :: p in cars[d].Passengers() ==> p !in cars
  {
    assert GoodCar(inst, d, cars[d]);
  }

  lemma ClosingIsSound(inst: Instance, cars: Cars, unassigned: set<NodeId>, d: NodeId)
    requires Sound(inst, cars, unassigned, {}) && Driven(inst, cars)
    requires d in cars && inst.Has(d) && inst.index[d].role.Either?
    ensures Sound(inst, cars - {d}, unassigned, Riders(inst, cars[d].Passengers() + {d}))
    ensures Waits(inst, cars - {d}, unassigned, cars[d].Passengers() + {d})
  {
    DrivenIsApart(inst, cars);
    PassengersAreRiders(inst, cars, d);
    hide Coherent, Apart, GoodCar;
    CloseCar(inst, cars, d);
    assert forall p :: p in cars[d].Passengers() ==> Seats(cars, p);
    assert Placed(cars, d);
  }

  lemma RemovingUnplaces(inst: Instance, cars: Cars, d: NodeId, rider: NodeId)
    requires Coherent(inst, cars) && Driven(inst, cars) && d in cars && rider in cars[d].Passengers()
    ensures Coherent(inst, cars[d := Without(cars[d], rider)])
    ensures forall p :: Placed(cars[d := Without(cars[d], rider)], p) <==> Placed(cars, p) && p != rider
    ensures forall p :: Seats(cars[d := Without(cars[d], rider)], p) <==> Seats(cars, p) && p != rider
    ensures IsRider(inst, rider) && Seats(cars, rider) && rider !in cars
  {
    DrivenIsApart(inst, cars);
    CarIsGood(inst, cars, d);
    WithoutIsGood(inst, d, cars[d], rider);
    PassengersAreRiders(inst, cars, d);
    hide Coherent, Apart, GoodCar, Without, IsRider;
    ShrinkCar(inst, cars, d, Without(cars[d], rider));
    assert cars[d].Passengers() - Without(cars[d], rider).Passengers() == {rider};
  }

  lemma RemovingIsSound(inst: Instance, cars: Cars, unassigned: set<NodeId>, pending: set<NodeId>, rider: NodeId,
                        d: NodeId)
    requires Sound(inst, cars, unassigned, pending) && Driven(inst, cars)
    requires d in cars && rider in cars[d].Passengers()
    ensures Sound(inst, cars[d := Without(cars[d], rider)], unassigned, pending + {rider})
  {
    hide GoodCar, Without, IsRider, Seats;
    RemovingUnplaces(inst, cars, d, rider);
  }

  /** Who a ruin of seated riders removes: any `k` of them, or the `k` nearest one of them. */
  method ChooseRemoved(inst: Instance, placed: set<NodeId>, k: nat, scattered: bool) returns (removed: set<NodeId>)
    requires 1 <= k <= |placed|
    ensures removed <= placed && |removed| == k
    ensures !scattered ==> exists seed :: seed in placed && AreNearest(inst, placed, removed, seed)
  {
    hide SortedBy;
    if scattered {
      removed := Sample(placed, k);
    } else {
      var seed := PickElement(placed);
      var nearest := SortedBy(placed, RoundTripFrom(inst, seed));
      removed := Elements(nearest[..k]);
      assert forall i :: 0 <= i < k ==> nearest[i] in nearest;
      DistinctElements(nearest[..k]);
      FirstAreNearest(inst, placed, seed, k);
    }
  }

  function RoundTripFrom(inst: Instance, seed: NodeId): NodeId -> int {
    p => Duration(inst.matrix, seed, p) + Duration(inst.matrix, p, seed)
  }

  /** Nobody left behind is nearer to `seed`, there and back, than anybody removed; of equals the least ids go. */
  ghost predicate AreNearest(inst: Instance, placed: set<NodeId>, removed: set<NodeId>, seed: NodeId) {
    forall p, q :: p in removed && q in placed && q !in removed ==>
      var near := Duration(inst.matrix, seed, p) + Duration(inst.matrix, p, seed);
      var far := Duration(inst.matrix, seed, q) + Duration(inst.matrix, q, seed);
      near < far || (near == far && p < q)
  }

  lemma FirstAreNearest(inst: Instance, placed: set<NodeId>, seed: NodeId, k: nat)
    requires k <= |placed|
    ensures AreNearest(inst, placed, Elements(SortedBy(placed, RoundTripFrom(inst, seed))[..k]), seed)
  {
    hide SortedBy, Duration;
    var key := RoundTripFrom(inst, seed);
    var s := SortedBy(placed, key);
    forall m | 0 <= m < k ensures s[m] in Elements(s[..k]) {
      assert s[..k][m] == s[m];
    }
    forall p, q | p in Elements(s[..k]) && q in placed && q !in Elements(s[..k])
      ensures key(p) < key(q) || (key(p) == key(q) && p < q)
    {
      assert p in s[..k];
      var i :| 0 <= i < k && s[i] == p;
      assert q in s;
      var j :| 0 <= j < |s| && s[j] == q;
      SortedByOrder(placed, key, i, j);
    }
  }

  lemma {:induction false} DistinctElements(s: seq<NodeId>)
    requires Distinct(s)
    ensures |Elements(s)| == |s|
  {
    if s != [] {
      var n := |s| - 1;
      DistinctElements(s[..n]);
      ElementsMore(s, n);
      assert s[..n + 1] == s;
      assert s[n] !in Elements(s[..n]);
    } else {
      ElementsNone(s);
      assert s[..0] == s;
    }
  }

  lemma NobodyTaken(cars: Cars)
    ensures TakenOut(cars, cars, {})
  {
    forall d | d in cars ensures cars[d] == Thinned(cars[d], {}) {
      ThinnedNobody(cars[d], {});
    }
  }

  lemma OneMoreTaken(before: Cars, cars: Cars, removed: set<NodeId>, d: NodeId, rider: NodeId, now: set<NodeId>)
    requires TakenOut(before, cars, removed) && d in cars && rider in cars[d].Passengers()
    requires forall e :: e in cars && rider in cars[e].Passengers() ==> e == d
    requires now == removed + {rider}
    ensures TakenOut(before, cars[d := Without(cars[d], rider)], now)
  {
    hide Without, Thinned;
    assert rider in before[d].Passengers();
    ThinnedLess(before[d], removed, rider);
    forall e | e in cars && e != d ensures cars[e] == Thinned(before[e], now) {
      assert rider !in cars[e].Passengers() && rider !in removed;
      ThinnedLess(before[e], removed, rider);
    }
  }

  method RemoveRiders(inst: Instance, st: State, removed: set<NodeId>)
    requires Sound(inst, st.routes, st.unassigned, {}) && Driven(inst, st.routes)
    requires forall p :: p in removed ==> Seats(st.routes, p)
    modifies st`routes
    ensures Sound(inst, st.routes, st.unassigned, removed)
    ensures TakenOut(old(st.routes), st.routes, removed)
  {
    hide Without, Settled, TakenOut;
    var left := removed;
    assert removed - left == {};
    NobodyTaken(st.routes);
    while left != {}
      invariant left <= removed && Sound(inst, st.routes, st.unassigned, removed - left)
      invariant Driven(inst, st.routes)
      invariant forall p :: p in left ==> Seats(st.routes, p)
      invariant TakenOut(old(st.routes), st.routes, removed - left)
      decreases |left|
    {
      var rider := PickElement(left);
      var d := CarOf(st.routes, rider);
      RemovingIsSound(inst, st.routes, st.unassigned, removed - left, rider, d);
      OthersStay(inst, st.routes, rider, d);
      OneMoreTaken(old(st.routes), st.routes, removed - left, d, rider, removed - (left - {rider}));
      st.routes := st.routes[d := Without(st.routes[d], rider)];
      assert removed - left + {rider} == removed - (left - {rider});
      left := left - {rider};
    }
    assert removed - left == removed;
  }

  lemma OthersStay(inst: Instance, cars: Cars, rider: NodeId, d: NodeId)
    requires Coherent(inst, cars) && d in cars && rider in cars[d].Passengers()
    ensures forall p :: Seats(cars, p) && p != rider ==> Seats(cars[d := Without(cars[d], rider)], p)
  {
    CarIsGood(inst, cars, d);
    WithoutIsGood(inst, d, cars[d], rider);
    hide Coherent, GoodCar, Without;
    ShrinkCar(inst, cars, d, Without(cars[d], rider));
  }

  lemma OwnCar(inst: Instance, cars: Cars, d: NodeId)
    requires Coherent(inst, cars) && d in cars
    ensures cars[d].driver == d
  {
    CarIsGood(inst, cars, d);
  }

  lemma ApartFrom(inst: Instance, cars: Cars, d: NodeId, e: NodeId)
    requires Coherent(inst, cars) && Driven(inst, cars) && d in cars && e in cars && e != d
    ensures cars[e].Passengers() !! cars[d].Passengers() + {d}
  {
    hide GoodCar;
    forall p | p in cars[e].Passengers() ensures p !in cars[d].Passengers() && p != d {
    }
  }

  lemma AboardPlaced(cars: Cars, d: NodeId, p: NodeId)
    requires d in cars && (p == d || p in cars[d].Passengers())
    ensures Placed(cars, p)
  {
    assert p in cars[d].Passengers() ==> Seats(cars, p);
  }

  lemma EmptiedIsTaken(inst: Instance, cars: Cars, d: NodeId, after: Cars, removed: set<NodeId>)
    requires Coherent(inst, cars) && Driven(inst, cars) && d in cars
    requires (after == cars - {d} && removed == cars[d].Passengers() + {d})
          || (after == cars[d := EmptyCar(d)] && removed == cars[d].Passengers())
    ensures TakenOut(cars, after, removed)
  {
    hide Coherent, GoodCar, Placed, EmptyCar, Thinned;
    OwnCar(inst, cars, d);
    forall e | e in cars && e != d ensures cars[e] == Thinned(cars[e], removed) {
      ApartFrom(inst, cars, d, e);
      ThinnedNobody(cars[e], removed);
    }
    ThinnedEmpty(cars[d], removed);
    forall p | p in removed ensures Placed(cars, p) {
      AboardPlaced(cars, d, p);
    }
  }

  /** Whoever is pinned to an open car and has none of their own is in it, or left out. */
  lemma PinnedAreClose(inst: Instance, cars: Cars, unassigned: set<NodeId>, d: NodeId, r: NodeId)
    requires WellFormed(inst, cars, unassigned) && d in cars
    requires IsRider(inst, r) && inst.index[r].pinnedDriver == Some(d) && r !in cars
    ensures r in cars[d].Passengers() || r in unassigned
  {
    if r !in unassigned {
      var e :| e in cars && r in cars[e].Passengers();
      CarIsGood(inst, cars, e);
      assert !Breaks(inst, cars[e], PinRule);
      assert inst.index[r].PinAllows(cars[e].driver);
    }
  }

  /**
    * Everyone out of one car; unless its driver is committed the car itself goes, and its driver waits
    * with the rest.
    */
  method EmptyOneCar(inst: Instance, st: State, driver: NodeId) returns (removed: set<NodeId>)
    requires WellFormed(inst, st.routes, st.unassigned) && driver in st.routes
    modifies st`routes
    ensures Sound(inst, st.routes, st.unassigned, Riders(inst, removed))
    ensures Waits(inst, st.routes, st.unassigned, removed)
    ensures TakenOut(old(st.routes), st.routes, removed)
    ensures removed == old(st.routes)[driver].Passengers() + if driver in st.routes then {} else {driver}
    ensures driver in st.routes <==> inst.Has(driver) && inst.index[driver].role.Driver?
  {
    hide Sound, Feasible, Coherent, Settled, EmptyCar, TakenOut, Waits, Driven;
    FeasibleIsApart(inst, st.routes);
    assert Sound(inst, st.routes, st.unassigned, {}) by {
      WellFormedIsSound(inst, st.routes, st.unassigned);
    }
    FeasibleDrives(inst, st.routes, driver);
    removed := st.routes[driver].Passengers();
    if !inst.index[driver].role.Driver? {
      ClosingIsSound(inst, st.routes, st.unassigned, driver);
      EmptiedIsTaken(inst, st.routes, driver, st.routes - {driver}, removed + {driver});
      st.routes := st.routes - {driver};
      removed := removed + {driver};
    } else {
      EmptyingIsSound(inst, st.routes, st.unassigned, driver);
      AllRide(inst, st.routes[driver := EmptyCar(driver)], st.unassigned, removed);
      EmptiedIsTaken(inst, st.routes, driver, st.routes[driver := EmptyCar(driver)], removed);
      st.routes := st.routes[driver := EmptyCar(driver)];
    }
  }

  lemma AllRide(inst: Instance, cars: Cars, unassigned: set<NodeId>, pool: set<NodeId>)
    requires Sound(inst, cars, unassigned, pool)
    ensures Riders(inst, pool) == pool && Waits(inst, cars, unassigned, pool)
  {
    hide Coherent, Placed, IsRider;
  }

  lemma WellFormedIsSound(inst: Instance, cars: Cars, unassigned: set<NodeId>)
    requires WellFormed(inst, cars, unassigned)
    ensures Sound(inst, cars, unassigned, {})
  {
  }

  lemma WellFormedIsDriven(inst: Instance, cars: Cars, unassigned: set<NodeId>)
    requires WellFormed(inst, cars, unassigned)
    ensures Driven(inst, cars)
  {
    FeasibleIsApart(inst, cars);
  }

  ghost predicate EmptiesCar(inst: Instance, cars: Cars, removed: set<NodeId>, d: NodeId) {
    && d in cars
    && removed == cars[d].Passengers() + if inst.Has(d) && inst.index[d].role.Driver? then {} else {d}
  }

  /** Everyone of one car, with a driver who is not committed; or up to a quarter of those seated, thirty at most. */
  ghost predicate RuinSized(inst: Instance, cars: Cars, removed: set<NodeId>) {
    && removed != {}
    && ((exists d :: EmptiesCar(inst, cars, removed, d))
        || ((forall p :: p in removed ==> Seats(cars, p))
            && |removed| <= 30 && (|removed| == 1 || 4 * |removed| <= |SeatedSet(cars)|)))
  }

  /** `ruin`: who was taken out, or nothing when nobody can be. */
  method Ruin(inst: Instance, st: State) returns (removed: Option<set<NodeId>>)
    requires WellFormed(inst, st.routes, st.unassigned)
    modifies st`routes
    ensures removed.None? ==> st.routes == old(st.routes) && forall p :: !Seats(st.routes, p)
    ensures removed.Some? ==>
      && Sound(inst, st.routes, st.unassigned, Riders(inst, removed.value))
      && Waits(inst, st.routes, st.unassigned, removed.value)
      && TakenOut(old(st.routes), st.routes, removed.value)
      && RuinSized(inst, old(st.routes), removed.value)
  {
    hide Sound, WellFormed, TakenOut, Waits, Driven;
    var placed := SeatedSet(st.routes);
    var closable := Closable(inst, st.routes);
    if placed == {} && closable == {} {
      return None;
    }
    var quarter := |placed| / 4;
    var most := if quarter > MAX_RUIN then MAX_RUIN else quarter;
    var k := RandomInt(1, if most < 1 then 1 else most);
    var operator := RandomUnit();
    if operator < 0.2 && closable != {} {
      var driver := PickElement(closable);
      var riders := EmptyOneCar(inst, st, driver);
      assert EmptiesCar(inst, old(st.routes), riders, driver);
      return Some(riders);
    }
    if placed == {} {
      return None;
    }
    assert |placed| > 0;
    var riders := ChooseRemoved(inst, placed, k, operator < 0.6);
    WellFormedIsSound(inst, st.routes, st.unassigned);
    WellFormedIsDriven(inst, st.routes, st.unassigned);
    RemoveRiders(inst, st, riders);
    AllRide(inst, st.routes, st.unassigned, riders);
    removed := Some(riders);
  }

  // ---- Recreate ---------------------------------------------------------------------------------------

  /** Nobody who may ever be pooled is pinned to somebody flexible who is pinned too. */
  ghost predicate PoolPinsAreOneDeep(inst: Instance) {
    forall p, q ::
      MayPool(inst, p) && inst.index[p].pinnedDriver == Some(q) && inst.Has(q) && inst.index[q].role.Either? ==>
      inst.index[q].pinnedDriver.None?
  }

  /** A rider, or somebody flexible who drives though they take neither leg. */
  ghost predicate MayPool(inst: Instance, p: NodeId) {
    IsRider(inst, p) || (inst.Has(p) && inst.index[p].role.Either?)
  }

  lemma PoolPinsCoverRiders(inst: Instance)
    requires PoolPinsAreOneDeep(inst)
    ensures PinsAreOneDeep(inst)
  {
  }

  /** Somebody pinned whose turn is still to come. */
  ghost predicate Due(inst: Instance, cars: Cars, unassigned: set<NodeId>, p: NodeId) {
    Listable(inst, p) && inst.index[p].pinnedDriver.Some? && Away(inst, cars, p) && p !in unassigned
  }

  /** Opening a car for somebody in the pool, riding or not, able to drive or not. */
  lemma OpenFromPool(inst: Instance, cars: Cars, unassigned: set<NodeId>, pool: set<NodeId>, target: NodeId)
    requires Sound(inst, cars, unassigned, Riders(inst, pool)) && Waits(inst, cars, unassigned, pool) && target in pool
    ensures Sound(inst, cars[target := EmptyCar(target)], unassigned, Riders(inst, pool - {target}))
    ensures Waits(inst, cars[target := EmptyCar(target)], unassigned, pool - {target})
    ensures forall p :: Seats(cars[target := EmptyCar(target)], p) <==> Seats(cars, p)
  {
    hide Coherent, Seats;
    OpenCar(inst, cars, target);
  }

  /** The car opened belongs to nobody whose own turn is due, unless they cannot drive it. */
  lemma OpenedStaysDue(inst: Instance, cars: Cars, unassigned: set<NodeId>, rider: NodeId, target: NodeId, p: NodeId)
    requires PoolPinsAreOneDeep(inst) && Listable(inst, rider) && inst.index[rider].pinnedDriver == Some(target)
    requires Due(inst, cars, unassigned, p)
    requires forall x :: Seats(cars[target := EmptyCar(target)], x) <==> Seats(cars, x)
    ensures Due(inst, cars[target := EmptyCar(target)], unassigned, p)
  {
    hide Seats;
    if p == target {
      assert MayPool(inst, rider);
      assert !inst.index[p].role.Either?;
    }
  }

  lemma SeatFromPool(inst: Instance, cars: Cars, unassigned: set<NodeId>, pool: set<NodeId>,
                     target: NodeId, rider: NodeId, c: Route)
    requires Sound(inst, cars, unassigned, pool) && target in cars
    requires IsRider(inst, rider) && Away(inst, cars, rider) && rider !in unassigned && rider != target
    requires IsInsertion(inst, cars[target], rider, c)
    ensures Sound(inst, cars[target := c], unassigned, pool - {rider})
    ensures forall p :: Placed(cars[target := c], p) <==> Placed(cars, p) || p == rider
    ensures forall p :: Seats(cars[target := c], p) <==> Seats(cars, p) || p == rider
  {
    hide Coherent, IsInsertion, Seats;
    SeatInto(inst, cars, target, rider, c);
  }

  lemma LeaveFromPool(inst: Instance, cars: Cars, unassigned: set<NodeId>, pool: set<NodeId>, rider: NodeId)
    requires Sound(inst, cars, unassigned, pool) && Listable(inst, rider) && Away(inst, cars, rider)
    ensures Sound(inst, cars, unassigned + {rider}, pool - {rider})
  {
    hide Coherent, Placed, Away;
  }

  lemma PoolTogether(inst: Instance, cars: Cars, unassigned: set<NodeId>, pending: set<NodeId>)
    requires Sound(inst, cars, unassigned, Riders(inst, pending)) && Waits(inst, cars, unassigned, pending)
    requires Driven(inst, cars)
    ensures Sound(inst, cars, {}, Riders(inst, pending + unassigned)) && Waits(inst, cars, {}, pending + unassigned)
  {
    hide Coherent, Seats;
  }

  lemma PoolSeated(inst: Instance, before: Cars, cars: Cars, unassigned: set<NodeId>, pool: set<NodeId>,
                   left: set<NodeId>)
    requires Sound(inst, before, unassigned, pool) && left <= pool
    requires Grown(inst, before, cars, pool - left)
    ensures Sound(inst, cars, unassigned + left, {})
  {
    hide Coherent, Seats, Feasible;
  }

  lemma SoundParts(inst: Instance, cars: Cars, unassigned: set<NodeId>, pool: set<NodeId>)
    requires Sound(inst, cars, unassigned, pool)
    ensures Coherent(inst, cars)
    ensures forall p :: p in pool ==> IsRider(inst, p) && !Placed(cars, p)
  {
  }

  function Pinned(inst: Instance, pool: set<NodeId>): set<NodeId> {
    set p | p in pool && p in inst.index && inst.index[p].pinnedDriver.Some?
  }

  /** What a rebuild has come to: the cars, who is still waiting, and who is left out. */
  datatype Rebuild = Rebuild(cars: Cars, pool: set<NodeId>, left: set<NodeId>)

  /** One pinned rider: their driver's car opened from the pool if need be, then its cheapest seat, if any. */
  ghost predicate PoolTurn(inst: Instance, rider: NodeId, a: Rebuild, b: Rebuild) {
    && inst.Has(rider) && inst.index[rider].pinnedDriver.Some?
    && var target := inst.index[rider].pinnedDriver.value;
       var opens := target !in a.cars && target in a.pool - {rider};
       var cars := if opens then a.cars[target := EmptyCar(target)] else a.cars;
       && (target in cars ==> inst.Has(cars[target].driver))
       && var insertion := if target in cars then BestInsertion(inst, cars[target], rider) else None;
          b == Rebuild(if insertion.Some? then cars[target := insertion.value.0] else cars,
                       a.pool - {rider} - (if opens then {target} else {}),
                       if insertion.Some? then a.left else a.left + {rider})
  }

  ghost predicate PoolTurns(inst: Instance, order: seq<NodeId>, states: seq<Rebuild>)
    requires |states| == |order| + 1
  {
    forall i :: 0 <= i < |order| ==>
      var later := i + 1;
      PoolTurn(inst, order[i], states[i], states[later])
  }

  lemma PoolTurnsMore(inst: Instance, order: seq<NodeId>, i: nat, states: seq<Rebuild>, after: Rebuild)
    requires i < |order| && |states| == i + 1 && PoolTurns(inst, order[..i], states)
    requires PoolTurn(inst, order[i], states[i], after)
    ensures PoolTurns(inst, order[..i + 1], states + [after])
  {
    hide PoolTurn;
    var next := states + [after];
    forall k | 0 <= k < i + 1
      ensures var later := k + 1;
        PoolTurn(inst, order[..i + 1][k], next[k], next[later])
    {
      if k < i {
        assert order[..i][k] == order[k];
        var later := k + 1;
        assert next[k] == states[k] && next[later] == states[later];
      }
    }
  }

  /** Whoever of the pool is pinned, as greedy does it; only someone in the pool has a car opened for them. */
  method RecreatePinned(inst: Instance, search: Searcher, st: State, pool: set<NodeId>, rider: NodeId)
    returns (rest: set<NodeId>)
    requires search.Valid() && search.inst == inst && PoolPinsAreOneDeep(inst)
    requires Sound(inst, st.routes, st.unassigned, Riders(inst, pool))
    requires Waits(inst, st.routes, st.unassigned, pool) && Due(inst, st.routes, st.unassigned, rider)
    modifies st, search, search.memo
    ensures search.Valid()
    ensures Sound(inst, st.routes, st.unassigned, Riders(inst, rest))
    ensures Waits(inst, st.routes, st.unassigned, rest)
    ensures forall p :: p != rider && Due(inst, old(st.routes), old(st.unassigned), p) ==>
      Due(inst, st.routes, st.unassigned, p)
    ensures PoolTurn(inst, rider, Rebuild(old(st.routes), pool, old(st.unassigned)),
                     Rebuild(st.routes, rest, st.unassigned))
    ensures rest <= pool - {rider}
    ensures OpenedFor(inst, old(st.routes), st.routes, pool)
    ensures Keeps(old(st.routes), st.routes)
    ensures st.unassigned == old(st.unassigned)
            || (st.unassigned == old(st.unassigned) + {rider} && PinRefused(inst, st.routes, rider))
  {
    hide Sound, PoolPinsAreOneDeep, BestInsertion, IsInsertion, Coherent, Feasible, Placed, Known, Searcher.Valid,
         EmptyCar,
         Keeps, GoodCar, IsRider, Riders, Waits, Due, Listable, Away;
    DuePinned(inst, st.routes, st.unassigned, rider);
    var target := inst.index[rider].pinnedDriver.value;
    rest := pool;
    KeepsSame(st.routes);
    if target !in st.routes && target in pool && target != rider {
      MayOpen(inst, st.routes, st.unassigned, pool, rider, target);
      OpenFromPool(inst, st.routes, st.unassigned, rest, target);
      DueAfterOpening(inst, st.routes, st.unassigned, rider, target);
      OpeningKeeps(st.routes, target, EmptyCar(target));
      st.routes := st.routes[target := EmptyCar(target)];
      rest := rest - {target};
    }
    ghost var ready := st.routes;
    var insertion: Choice := None;
    if target in st.routes {
      SoundCoherent(inst, st.routes, st.unassigned, Riders(inst, rest));
      CarIsGood(inst, st.routes, target);
      insertion := search.Insertion(st.routes[target], rider);
      InsertionFound(inst, st.routes[target], rider);
    }
    RidersLess(inst, rest, rider);
    if insertion.None? {
      DueIsAway(inst, st.routes, st.unassigned, rider);
      LeaveFromPool(inst, st.routes, st.unassigned, Riders(inst, rest), rider);
      WaitsLess(inst, st.routes, st.unassigned, rest, rider);
      st.unassigned := st.unassigned + {rider};
    } else {
      TakePinnedSeat(inst, st.routes, st.unassigned, rest, target, rider, insertion.value.0);
      st.routes := st.routes[target := insertion.value.0];
      KeepsMore(old(st.routes), ready, st.routes);
    }
    rest := rest - {rider};
  }

  lemma DuePinned(inst: Instance, cars: Cars, unassigned: set<NodeId>, rider: NodeId)
    requires Due(inst, cars, unassigned, rider)
    ensures inst.Has(rider) && inst.index[rider].pinnedDriver.Some?
  {
  }

  /** Somebody pinned to by a rider or an idler is pinned to nobody themselves, unless they cannot drive. */
  lemma MayOpen(inst: Instance, cars: Cars, unassigned: set<NodeId>, pool: set<NodeId>, rider: NodeId, target: NodeId)
    requires PoolPinsAreOneDeep(inst) && Waits(inst, cars, unassigned, pool) && target in pool
    requires Due(inst, cars, unassigned, rider) && inst.index[rider].pinnedDriver == Some(target)
    ensures inst.Has(target)
    ensures inst.index[target].pinnedDriver.None? || !inst.index[target].role.CanDrive()
  {
    assert MayPool(inst, rider);
  }

  lemma SoundCoherent(inst: Instance, cars: Cars, unassigned: set<NodeId>, pending: set<NodeId>)
    requires Sound(inst, cars, unassigned, pending)
    ensures Coherent(inst, cars)
  {
  }

  lemma DueIsAway(inst: Instance, cars: Cars, unassigned: set<NodeId>, p: NodeId)
    requires Due(inst, cars, unassigned, p)
    ensures inst.Has(p) && Listable(inst, p) && Away(inst, cars, p) && !Seats(cars, p) && p !in unassigned
  {
  }

  lemma DueAfterOpening(inst: Instance, cars: Cars, unassigned: set<NodeId>, rider: NodeId, target: NodeId)
    requires PoolPinsAreOneDeep(inst) && Due(inst, cars, unassigned, rider)
    requires inst.index[rider].pinnedDriver == Some(target)
    requires forall x :: Seats(cars[target := EmptyCar(target)], x) <==> Seats(cars, x)
    ensures forall p :: Due(inst, cars, unassigned, p) ==> Due(inst, cars[target := EmptyCar(target)], unassigned, p)
  {
    hide Seats, PoolPinsAreOneDeep, Listable, Away, EmptyCar;
    forall p | Due(inst, cars, unassigned, p) ensures Due(inst, cars[target := EmptyCar(target)], unassigned, p) {
      OpenedStaysDue(inst, cars, unassigned, rider, target, p);
    }
  }

  /** Whoever is left out of the pool changes nothing for those still in it, or still due. */
  lemma WaitsLess(inst: Instance, cars: Cars, unassigned: set<NodeId>, pool: set<NodeId>, rider: NodeId)
    requires Waits(inst, cars, unassigned, pool)
    ensures Waits(inst, cars, unassigned + {rider}, pool - {rider})
    ensures forall p :: p != rider && Due(inst, cars, unassigned, p) ==> Due(inst, cars, unassigned + {rider}, p)
  {
    hide Idler, Listable, Away, IsRider;
  }

  /** A rider takes a seat in the car of somebody who can drive it; an idler needs none, and the car stays as it is. */
  lemma TakePinnedSeat(inst: Instance, cars: Cars, unassigned: set<NodeId>, pool: set<NodeId>, target: NodeId,
                       rider: NodeId, c: Route)
    requires Sound(inst, cars, unassigned, Riders(inst, pool)) && Waits(inst, cars, unassigned, pool)
    requires Due(inst, cars, unassigned, rider) && target in cars
    requires IsInsertion(inst, cars[target], rider, c) && Feasible(inst, c)
    ensures Sound(inst, cars[target := c], unassigned, Riders(inst, pool - {rider}))
    ensures Waits(inst, cars[target := c], unassigned, pool - {rider})
    ensures forall p :: p != rider && Due(inst, cars, unassigned, p) ==> Due(inst, cars[target := c], unassigned, p)
    ensures Keeps(cars, cars[target := c])
  {
    hide Sound, Feasible, IsInsertion, Coherent, GoodCar, Riders, Waits, Due, IsRider, Listable, Seats;
    SoundCoherent(inst, cars, unassigned, Riders(inst, pool));
    DueIsAway(inst, cars, unassigned, rider);
    RidersLess(inst, pool, rider);
    if IsRider(inst, rider) {
      NotOwnSeat(inst, cars, target, rider, c);
      SeatFromPool(inst, cars, unassigned, Riders(inst, pool), target, rider, c);
      SeatedWaits(inst, cars, unassigned, pool, target, rider, c);
      SeatingKeeps(inst, cars, target, rider, c);
    } else {
      IdlerNeedsNoSeat(inst, cars, unassigned, target, rider, c);
      assert cars[target := c] == cars;
      KeepsSame(cars);
      FewerWait(inst, cars, unassigned, pool, rider);
    }
  }

  lemma NotOwnSeat(inst: Instance, cars: Cars, target: NodeId, rider: NodeId, c: Route)
    requires Coherent(inst, cars) && target in cars && Away(inst, cars, rider) && inst.Has(rider)
    requires IsInsertion(inst, cars[target], rider, c) && Feasible(inst, c)
    ensures rider != target
  {
    CarIsGood(inst, cars, target);
    assert !Breaks(inst, c, RoleRule);
  }

  lemma SeatedWaits(inst: Instance, cars: Cars, unassigned: set<NodeId>, pool: set<NodeId>, target: NodeId,
                    rider: NodeId, c: Route)
    requires Waits(inst, cars, unassigned, pool) && target in cars
    requires forall p :: Placed(cars[target := c], p) <==> Placed(cars, p) || p == rider
    requires forall p :: Seats(cars[target := c], p) <==> Seats(cars, p) || p == rider
    ensures Waits(inst, cars[target := c], unassigned, pool - {rider})
    ensures forall p :: p != rider && Due(inst, cars, unassigned, p) ==> Due(inst, cars[target := c], unassigned, p)
  {
    hide Seats, Placed, IsRider;
  }

  lemma IdlerNeedsNoSeat(inst: Instance, cars: Cars, unassigned: set<NodeId>, target: NodeId, rider: NodeId, c: Route)
    requires Due(inst, cars, unassigned, rider) && !IsRider(inst, rider) && target in cars
    requires IsInsertion(inst, cars[target], rider, c)
    ensures c == cars[target] && forall pool :: Riders(inst, pool - {rider}) == Riders(inst, pool)
  {
    assert !inst.index[rider].needsOutbound && !inst.index[rider].needsReturn;
  }

  lemma FewerWait(inst: Instance, cars: Cars, unassigned: set<NodeId>, pool: set<NodeId>, rider: NodeId)
    requires Waits(inst, cars, unassigned, pool)
    ensures Waits(inst, cars, unassigned, pool - {rider})
  {
    hide Idler, IsRider;
  }

  lemma RidersLess(inst: Instance, pool: set<NodeId>, rider: NodeId)
    ensures Riders(inst, pool - {rider}) == Riders(inst, pool) - {rider}
  {
  }

  /** Cars are opened only for those of the pool who are pinned to nobody, or cannot drive. */
  ghost predicate OpenedFor(inst: Instance, before: Cars, after: Cars, pool: set<NodeId>) {
    forall d :: d in after ==>
      d in before || (d in pool && inst.Has(d) && (inst.index[d].pinnedDriver.None? || !inst.index[d].role.CanDrive()))
  }

  lemma OpeningKeeps(cars: Cars, d: NodeId, c: Route)
    requires d !in cars
    ensures Keeps(cars, cars[d := c])
  {
  }

  lemma SeatingKeeps(inst: Instance, cars: Cars, target: NodeId, rider: NodeId, c: Route)
    requires Coherent(inst, cars) && target in cars && rider != target && !Seats(cars, rider)
    requires IsRider(inst, rider) && IsInsertion(inst, cars[target], rider, c)
    ensures Keeps(cars, cars[target := c])
  {
    hide Coherent, IsInsertion;
    CarIsGood(inst, cars, target);
    InsertionFacts(inst, target, cars[target], rider, c);
  }

  /** The pinned of the pool, by id: by the end everybody still waiting is pinned to nobody. */
  method RecreateAllPinned(inst: Instance, search: Searcher, st: State, start: set<NodeId>)
    returns (pool: set<NodeId>, ghost states: seq<Rebuild>)
    requires search.Valid() && search.inst == inst && PoolPinsAreOneDeep(inst)
    requires Sound(inst, st.routes, st.unassigned, Riders(inst, start)) && Waits(inst, st.routes, st.unassigned, start)
    modifies st, search, search.memo
    ensures search.Valid()
    ensures Sound(inst, st.routes, st.unassigned, Riders(inst, pool)) && pool <= start
    ensures Waits(inst, st.routes, st.unassigned, pool)
    ensures Pins(inst, start, states, Rebuild(old(st.routes), start, old(st.unassigned)),
                 Rebuild(st.routes, pool, st.unassigned))
    ensures OpenedFor(inst, old(st.routes), st.routes, start)
    ensures Keeps(old(st.routes), st.routes)
    ensures forall p :: p in pool ==> inst.Has(p) && inst.index[p].pinnedDriver.None?
    ensures st.unassigned <= old(st.unassigned) + start
    ensures AllTurnedAway(inst, search.candidates, search, st.routes, st.unassigned - old(st.unassigned))
  {
    hide Sound, PoolPinsAreOneDeep, Sorted, Keeps, AllTurnedAway, PinRefused, Pinned, PoolTurn, PoolTurns, Riders,
         Waits, Due,
         Searcher.Valid;
    NobodyTurnedAway(inst, search, st.routes);
    pool := start;
    KeepsSame(st.routes);
    assert st.unassigned - old(st.unassigned) == {};
    var pinned := Sorted(Pinned(inst, start));
    PinnedAreDue(inst, st.routes, st.unassigned, start, pinned);
    states := [Rebuild(st.routes, start, st.unassigned)];
    NoPoolTurns(inst, pinned, states);
    for i := 0 to |pinned|
      invariant search.Valid()
      invariant Sound(inst, st.routes, st.unassigned, Riders(inst, pool)) && pool <= start
      invariant Waits(inst, st.routes, st.unassigned, pool) && OpenedFor(inst, old(st.routes), st.routes, start)
      invariant Keeps(old(st.routes), st.routes)
      invariant st.unassigned <= old(st.unassigned) + start
      invariant AllTurnedAway(inst, search.candidates, search, st.routes, st.unassigned - old(st.unassigned))
      invariant forall j :: i <= j < |pinned| ==> Due(inst, st.routes, st.unassigned, pinned[j])
      invariant forall j :: 0 <= j < i ==> pinned[j] !in pool
      invariant |states| == i + 1 && states[0] == Rebuild(old(st.routes), start, old(st.unassigned))
      invariant states[i] == Rebuild(st.routes, pool, st.unassigned)
      invariant PoolTurns(inst, pinned[..i], states)
    {
      assert pinned[i] in pinned;
      ghost var before, cars, left := pool, st.routes, st.unassigned;
      InStart(inst, start, pinned[i]);
      pool := RecreatePinned(inst, search, st, pool, pinned[i]);
      PoolTurnsMore(inst, pinned, i, states, Rebuild(st.routes, pool, st.unassigned));
      states := states + [Rebuild(st.routes, pool, st.unassigned)];
      KeepsMore(old(st.routes), cars, st.routes);
      UnassignedMore(inst, search, cars, st.routes, left - old(st.unassigned), st.unassigned - old(st.unassigned),
                     pinned[i]);
    }
    NonePinned(inst, st.routes, st.unassigned, start, pinned, pool);
    assert pinned[..|pinned|] == pinned;
  }

  lemma InStart(inst: Instance, start: set<NodeId>, p: NodeId)
    requires p in Pinned(inst, start)
    ensures p in start
  {
  }

  lemma PinnedAreDue(inst: Instance, cars: Cars, unassigned: set<NodeId>, start: set<NodeId>, pinned: seq<NodeId>)
    requires Sound(inst, cars, unassigned, Riders(inst, start)) && Waits(inst, cars, unassigned, start)
    requires pinned == Sorted(Pinned(inst, start))
    ensures forall j :: 0 <= j < |pinned| ==> Due(inst, cars, unassigned, pinned[j])
  {
    hide Sorted, Coherent, Seats;
    forall j | 0 <= j < |pinned| ensures Due(inst, cars, unassigned, pinned[j]) {
      assert pinned[j] in pinned;
    }
  }

  /** The pin steps of a rebuild, from `first` to `last`. */
  ghost predicate Pins(inst: Instance, start: set<NodeId>, states: seq<Rebuild>, first: Rebuild, last: Rebuild) {
    var order := Sorted(Pinned(inst, start));
    && |states| == |order| + 1 && states[0] == first && states[|order|] == last
    && PoolTurns(inst, order, states)
  }

  lemma NoPoolTurns(inst: Instance, order: seq<NodeId>, states: seq<Rebuild>)
    requires |states| == 1
    ensures PoolTurns(inst, order[..0], states)
  {
  }

  lemma NobodyTurnedAway(inst: Instance, search: Searcher, cars: Cars)
    ensures AllTurnedAway(inst, search.candidates, search, cars, {})
  {
  }

  lemma UnassignedMore(inst: Instance, search: Searcher, before: Cars, cars: Cars, left: set<NodeId>, more: set<NodeId>,
                       rider: NodeId)
    requires AllTurnedAway(inst, search.candidates, search, before, left) && Keeps(before, cars)
    requires more <= left || (more <= left + {rider} && PinRefused(inst, cars, rider))
    ensures AllTurnedAway(inst, search.candidates, search, cars, more)
  {
    hide TurnedAway, Keeps, PinRefused;
    StillTurnedAway(inst, search.candidates, search, before, cars, left);
    if !(more <= left) {
      PinIsRefused(inst, search.candidates, search, cars, rider);
    }
  }

  lemma NonePinned(inst: Instance, cars: Cars, unassigned: set<NodeId>, start: set<NodeId>, pinned: seq<NodeId>,
                   pool: set<NodeId>)
    requires pinned == Sorted(Pinned(inst, start)) && pool <= start && Waits(inst, cars, unassigned, pool)
    requires forall j :: 0 <= j < |pinned| ==> pinned[j] !in pool
    ensures forall p :: p in pool ==> inst.Has(p) && inst.index[p].pinnedDriver.None?
  {
    hide Sorted;
    forall p | p in pool ensures inst.Has(p) && inst.index[p].pinnedDriver.None? {
      assert p in pinned <==> p in Pinned(inst, start);
    }
  }

  /** Random factors within a half of one, one per rider, fixed for one rebuild. */
  method DrawScale(riders: seq<NodeId>) returns (scale: map<NodeId, real>)
    ensures forall r :: r in riders ==> r in scale && 0.5 <= scale[r] < 1.5
  {
    scale := map[];
    for i := 0 to |riders|
      invariant forall j :: 0 <= j < i ==>
        riders[j] in scale && 1.0 - SEAT_NOISE <= scale[riders[j]] < 1.0 + SEAT_NOISE
    {
      var u := RandomUnit();
      scale := scale[riders[i] := 1.0 + SEAT_NOISE * (2.0 * u - 1.0)];
    }
  }

  /** How a rebuild seats the unpinned: cheapest first under noise, where seats are short, or in turn in some order. */
  ghost predicate PoolFilled(inst: Instance, search: Searcher, before: Cars, pool: set<NodeId>, cars: Cars,
                             left: set<NodeId>) {
    || (SeatShort(inst) && exists scale, turns :: FilledCheapest(inst, search, before, pool, scale, turns, cars, left))
    || exists order: seq<NodeId>, states: seq<Cars> ::
         Elements(order) == pool && Distinct(order)
         && InTurnFrom(inst, search.candidates, search, order, states, before, cars, left)
  }

  ghost predicate FilledCheapest(inst: Instance, search: Searcher, before: Cars, pool: set<NodeId>,
                                 scale: map<NodeId, real>, turns: seq<Turn>, cars: Cars, left: set<NodeId>) {
    && (forall r :: r in pool ==> r in scale && 0.5 <= scale[r] < 1.5)
    && Fair(inst, search.candidates, search, Some(scale), before, pool, turns, cars, left)
  }

  /** Everyone unpinned, cheapest first when seats are short, otherwise in one of three orders. */
  method SeatPool(inst: Instance, search: Searcher, st: State, pool: set<NodeId>) returns (left: seq<NodeId>)
    requires search.Valid() && search.inst == inst
    requires Sound(inst, st.routes, st.unassigned, pool)
    requires forall p :: p in pool ==> inst.Has(p) && inst.index[p].pinnedDriver.None?
    modifies st`routes, search, search.memo
    ensures search.Valid()
    ensures PoolFilled(inst, search, old(st.routes), pool, st.routes, Elements(left))
    ensures Elements(left) <= pool && Grown(inst, old(st.routes), st.routes, pool - Elements(left))
    ensures AllTurnedAway(inst, search.candidates, search, st.routes, Elements(left))
  {
    hide Sound, Coherent, Placed, IsRider, Sorted, SortedBy, Elements, Distinct, Grown, Fair, InTurn, RefusedEarlier,
         RefusedSince, TurnedAway;
    SoundParts(inst, st.routes, st.unassigned, pool);
    var style := RandomUnit();
    if style < 0.5 && SeatShort(inst) {
      var order := Sorted(pool);
      ElementsSorted(pool);
      var scale := DrawScale(order);
      ghost var turns;
      left, turns := SeatCheapestFirst(inst, search.candidates, search, st, order, Some(scale));
      assert FilledCheapest(inst, search, old(st.routes), pool, scale, turns, st.routes, Elements(left));
    } else {
      var order: seq<NodeId>;
      if style < 0.5 {
        order := SortedBy(pool, p => -Duration(inst.matrix, p, DESTINATION));
      } else if style < 0.75 {
        order := Shuffle(pool);
      } else {
        order := SortedBy(pool, p => Duration(inst.matrix, p, DESTINATION));
      }
      ElementsOf(order, pool);
      ghost var states;
      left, states := SeatInOrder(inst, search.candidates, search, st, order);
      assert InTurnFrom(inst, search.candidates, search, order, states, old(st.routes), st.routes, Elements(left));
    }
    FreeTurnedAway(inst, search.candidates, search, st.routes, Elements(left));
  }

  lemma OpenedMore(inst: Instance, start: Cars, before: Cars, cars: Cars, everyone: set<NodeId>, pool: set<NodeId>,
                   seated: set<NodeId>)
    requires OpenedFor(inst, start, before, everyone) && pool <= everyone && seated <= pool
    requires forall p :: p in pool ==> IsRider(inst, p) && inst.index[p].pinnedDriver.None?
    requires Grown(inst, before, cars, seated)
    ensures OpenedFor(inst, start, cars, everyone)
  {
    hide Coherent, Keeps, Placed, Feasible;
  }

  lemma RecreatedFrom(inst: Instance, search: Searcher, start: Cars, before: Cars, cars: Cars, pinLeft: set<NodeId>,
                      left: set<NodeId>, seated: set<NodeId>)
    requires Keeps(start, before) && Grown(inst, before, cars, seated)
    requires AllTurnedAway(inst, search.candidates, search, before, pinLeft)
    requires AllTurnedAway(inst, search.candidates, search, cars, left)
    ensures Keeps(start, cars) && AllTurnedAway(inst, search.candidates, search, cars, pinLeft + left)
  {
    hide Keeps, TurnedAway, Coherent, Placed;
    KeepsMore(start, before, cars);
    StillTurnedAway(inst, search.candidates, search, before, cars, pinLeft);
  }

  /** A rebuild of everyone in `pool`: the pinned by id, then everyone else. */
  ghost predicate Rebuilt(inst: Instance, search: Searcher, before: Cars, pool: set<NodeId>, cars: Cars,
                          left: set<NodeId>) {
    exists states: seq<Rebuild>, mid: Rebuild, rest: set<NodeId> ::
      && Pins(inst, pool, states, Rebuild(before, pool, {}), mid)
      && PoolFilled(inst, search, mid.cars, mid.pool, cars, rest)
      && left == mid.left + rest
  }

  /** A rebuild that breaks off: once the pins are seated, somebody waits whom the search has no distances for. */
  ghost predicate Fails(inst: Instance, search: Searcher, before: Cars, pool: set<NodeId>) {
    exists states: seq<Rebuild>, last: Rebuild, p: NodeId ::
      Pins(inst, pool, states, Rebuild(before, pool, {}), last) && p in last.pool && p !in search.nearest
  }

  /**
    * `recreate`: everyone in `pending` and everyone already left out is seated, or left out having been turned away,
    * and nobody already seated loses their seat; or looking up somebody's distances fails.
    */
  method Recreate(inst: Instance, search: Searcher, st: State, pending: set<NodeId>) returns (raised: bool)
    requires search.Valid() && search.inst == inst && PoolPinsAreOneDeep(inst) && Driven(inst, st.routes)
    requires Sound(inst, st.routes, st.unassigned, Riders(inst, pending))
    requires Waits(inst, st.routes, st.unassigned, pending)
    modifies st, search, search.memo
    ensures search.Valid()
    ensures raised ==> Fails(inst, search, old(st.routes), pending + old(st.unassigned))
    ensures raised ==> exists p :: p in pending + old(st.unassigned) && !IsRider(inst, p)
    ensures !raised ==>
      && Sound(inst, st.routes, st.unassigned, {})
      && OpenedFor(inst, old(st.routes), st.routes, pending + old(st.unassigned))
      && Keeps(old(st.routes), st.routes)
      && st.unassigned <= old(st.unassigned) + pending
      && AllTurnedAway(inst, search.candidates, search, st.routes, st.unassigned)
      && Rebuilt(inst, search, old(st.routes), pending + old(st.unassigned), st.routes, st.unassigned)
  {
    hide Sound, PoolPinsAreOneDeep, Elements, Grown, Keeps, AllTurnedAway, Pins, PoolFilled, Riders, Waits,
         OpenedFor, Driven,
         IsRider;
    PoolTogether(inst, st.routes, st.unassigned, pending);
    var start := pending + st.unassigned;
    st.unassigned := {};
    var pool;
    ghost var states;
    pool, states := RecreateAllPinned(inst, search, st, start);
    ghost var mid := Rebuild(st.routes, pool, st.unassigned);
    if exists p :: p in pool && p !in search.nearest {
      return true;
    }
    AllNear(inst, search, pool);
    ghost var before, pinLeft := st.routes, st.unassigned;
    assert pinLeft - {} == pinLeft;
    var left := SeatPool(inst, search, st, pool);
    PoolSeated(inst, before, st.routes, st.unassigned, pool, Elements(left));
    OpenedMore(inst, old(st.routes), before, st.routes, start, pool, pool - Elements(left));
    RecreatedFrom(inst, search, old(st.routes), before, st.routes, pinLeft, Elements(left), pool - Elements(left));
    assert PoolFilled(inst, search, mid.cars, mid.pool, st.routes, Elements(left));
    st.unassigned := st.unassigned + Elements(left);
    raised := false;
  }

  lemma AllNear(inst: Instance, search: Searcher, pool: set<NodeId>)
    requires search.Valid() && search.inst == inst && forall p :: p in pool ==> p in search.nearest
    ensures Riders(inst, pool) == pool && forall p :: p in pool ==> IsRider(inst, p)
  {
  }

  // ---- Swap ---------------------------------------------------------------------------------------------

  /** Exchanging two riders between two cars, neither of them pinned: the insertions are into the cars without them. */
  lemma SwapIsSound(inst: Instance, cars: Cars, unassigned: set<NodeId>, carA: NodeId, carB: NodeId,
                    a: NodeId, b: NodeId, intoA: Route, intoB: Route)
    requires Sound(inst, cars, unassigned, {}) && Driven(inst, cars)
    requires carA in cars && carB in cars && carA != carB
    requires a in cars[carA].Passengers() && b in cars[carB].Passengers()
    requires IsRider(inst, a) && IsRider(inst, b)
    requires IsInsertion(inst, Without(cars[carB], b), a, intoB)
    requires IsInsertion(inst, Without(cars[carA], a), b, intoA)
    ensures Sound(inst, cars[carA := intoA][carB := intoB], unassigned, {})
  {
    hide Sound, IsInsertion, Without, IsRider;
    var less := cars[carA := Without(cars[carA], a)];
    var least := less[carB := Without(cars[carB], b)];
    RemovingIsSound(inst, cars, unassigned, {}, a, carA);
    RemovingIsSound(inst, less, unassigned, {} + {a}, b, carB);
    PendingIsAway(inst, least, unassigned, {} + {a} + {b}, a);
    SeatFromPool(inst, least, unassigned, {} + {a} + {b}, carB, a, intoB);
    var more := least[carB := intoB];
    SoundSame(inst, more, unassigned, {} + {a} + {b} - {a}, {b}, cars, carA, carB, a, b);
    PendingIsAway(inst, more, unassigned, {b}, b);
    SeatFromPool(inst, more, unassigned, {b}, carA, b, intoA);
    assert {b} - {b} == {};
    assert more[carA := intoA] == cars[carA := intoA][carB := intoB];
  }

  lemma PendingIsAway(inst: Instance, cars: Cars, unassigned: set<NodeId>, pending: set<NodeId>, p: NodeId)
    requires Sound(inst, cars, unassigned, pending) && p in pending
    ensures Away(inst, cars, p) && p !in unassigned && p !in cars
  {
    hide Coherent, Seats;
  }

  lemma SoundSame(inst: Instance, more: Cars, unassigned: set<NodeId>, pool: set<NodeId>, same: set<NodeId>,
                  cars: Cars, carA: NodeId, carB: NodeId, a: NodeId, b: NodeId)
    requires Sound(inst, cars, unassigned, {})
    requires carA in cars && carB in cars && carA != carB
    requires a in cars[carA].Passengers() && b in cars[carB].Passengers()
    requires pool == {} + {a} + {b} - {a} && same == {b}
    requires Sound(inst, more, unassigned, pool)
    ensures Sound(inst, more, unassigned, same)
  {
    hide Settled;
    assert a != b;
    assert pool == same;
  }

  /** `a` and `b` have changed cars, each to the cheapest place in the other's car without its own rider. */
  ghost predicate Exchanged(inst: Instance, before: Cars, after: Cars, a: NodeId, b: NodeId, carA: NodeId,
                            carB: NodeId) {
    && carA in before && carB in before && carA != carB
    && a in before[carA].Passengers() && b in before[carB].Passengers()
    && inst.Has(a) && inst.Has(b) && inst.Has(before[carA].driver) && inst.Has(before[carB].driver)
    && inst.index[a].pinnedDriver.None? && inst.index[b].pinnedDriver.None?
    && var intoA := BestInsertion(inst, Without(before[carA], a), b);
       var intoB := BestInsertion(inst, Without(before[carB], b), a);
       && intoA.Some? && intoB.Some?
       && after == before[carA := intoA.value.0][carB := intoB.value.0]
  }

  /** Why two riders were not exchanged: one car, a pin, or no place in the other's car. */
  ghost predicate NotExchanged(inst: Instance, cars: Cars, a: NodeId, b: NodeId, carA: NodeId, carB: NodeId) {
    && carA in cars && carB in cars && a in cars[carA].Passengers() && b in cars[carB].Passengers()
    && inst.Has(a) && inst.Has(b) && inst.Has(cars[carA].driver) && inst.Has(cars[carB].driver)
    && (carA == carB || inst.index[a].pinnedDriver.Some? || inst.index[b].pinnedDriver.Some?
        || BestInsertion(inst, Without(cars[carA], a), b).None? || BestInsertion(inst, Without(cars[carB], b), a).None?)
  }

  /** The exchange itself, once two riders of different cars have been drawn. */
  method SwapRiders(inst: Instance, search: Searcher, st: State, a: NodeId, b: NodeId, carA: NodeId, carB: NodeId)
    returns (done: bool)
    requires search.Valid() && search.inst == inst
    requires Sound(inst, st.routes, st.unassigned, {}) && Coherent(inst, st.routes) && Driven(inst, st.routes)
    requires carA in st.routes && carB in st.routes && carA != carB
    requires a in st.routes[carA].Passengers() && b in st.routes[carB].Passengers()
    modifies st`routes, search, search.memo
    ensures search.Valid()
    ensures !done ==> st.routes == old(st.routes) && NotExchanged(inst, st.routes, a, b, carA, carB)
    ensures done ==> Exchanged(inst, old(st.routes), st.routes, a, b, carA, carB)
    ensures Sound(inst, st.routes, st.unassigned, {})
    ensures st.routes.Keys == old(st.routes).Keys
  {
    hide Sound, BestInsertion, IsInsertion, Feasible, Known, GoodCar, Without, Searcher.Valid, Coherent;
    PassengersAreRiders(inst, st.routes, carA);
    PassengersAreRiders(inst, st.routes, carB);
    DriverIsKnown(inst, st.routes, carA);
    DriverIsKnown(inst, st.routes, carB);
    if inst.index[a].pinnedDriver.Some? || inst.index[b].pinnedDriver.Some? {
      return false;
    }
    WithoutIsKnown(inst, st.routes, carA, a);
    WithoutIsKnown(inst, st.routes, carB, b);
    var intoB := search.Insertion(Without(st.routes[carB], b), a);
    var intoA := search.Insertion(Without(st.routes[carA], a), b);
    if intoA.None? || intoB.None? {
      return false;
    }
    InsertionFound(inst, Without(st.routes[carB], b), a);
    InsertionFound(inst, Without(st.routes[carA], a), b);
    SwapIsSound(inst, st.routes, st.unassigned, carA, carB, a, b, intoA.value.0, intoB.value.0);
    st.routes := st.routes[carA := intoA.value.0][carB := intoB.value.0];
    done := true;
  }

  ghost predicate NoSwap(inst: Instance, cars: Cars) {
    |SeatedSet(cars)| < 2 || exists a, b, carA, carB :: a != b && NotExchanged(inst, cars, a, b, carA, carB)
  }

  method DrawTwo(placed: set<NodeId>) returns (a: NodeId, b: NodeId)
    requires |placed| >= 2
    ensures a in placed && b in placed && a != b
  {
    var pair := Sample(placed, 2);
    assert |pair| > 0;
    a := PickElement(pair);
    assert |pair - {a}| > 0;
    b := PickElement(pair - {a});
  }

  lemma SharesCar(inst: Instance, cars: Cars, a: NodeId, b: NodeId, d: NodeId)
    requires Coherent(inst, cars) && d in cars && a in cars[d].Passengers() && b in cars[d].Passengers()
    ensures NotExchanged(inst, cars, a, b, d, d)
  {
    hide Coherent, GoodCar, Without, BestInsertion;
    DriverIsKnown(inst, cars, d);
    PassengersAreRiders(inst, cars, d);
  }

  lemma DriverIsKnown(inst: Instance, cars: Cars, d: NodeId)
    requires Coherent(inst, cars) && d in cars
    ensures inst.Has(cars[d].driver)
  {
    CarIsGood(inst, cars, d);
    GoodIsKnown(inst, d, cars[d]);
  }

  /** `swap`: whether two riders were exchanged; the state is untouched when not. */
  method Swap(inst: Instance, search: Searcher, st: State) returns (done: bool)
    requires search.Valid() && search.inst == inst
    requires Sound(inst, st.routes, st.unassigned, {}) && Driven(inst, st.routes)
    modifies st`routes, search, search.memo
    ensures search.Valid()
    ensures !done ==> st.routes == old(st.routes) && NoSwap(inst, st.routes)
    ensures done ==> exists a, b, carA, carB :: Exchanged(inst, old(st.routes), st.routes, a, b, carA, carB)
    ensures Sound(inst, st.routes, st.unassigned, {})
    ensures st.routes.Keys == old(st.routes).Keys
  {
    hide Sound, GoodCar, Searcher.Valid, Exchanged, NotExchanged;
    var placed := SeatedSet(st.routes);
    if |placed| < 2 {
      return false;
    }
    var a, b := DrawTwo(placed);
    SoundParts(inst, st.routes, st.unassigned, {});
    var carA, carB := CarOf(st.routes, a), CarOf(st.routes, b);
    if carA == carB {
      SharesCar(inst, st.routes, a, b, carA);
      return false;
    }
    done := SwapRiders(inst, search, st, a, b, carA, carB);
  }

  lemma WithoutIsKnown(inst: Instance, cars: Cars, d: NodeId, rider: NodeId)
    requires Coherent(inst, cars) && d in cars
    ensures Known(inst, Without(cars[d], rider))
  {
    CarIsGood(inst, cars, d);
    WithoutIsGood(inst, d, cars[d], rider);
    GoodIsKnown(inst, d, Without(cars[d], rider));
  }
}
