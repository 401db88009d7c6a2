/** A car closed over the head of a driver who takes neither leg: when the rebuild looks up distances nobody sorted. */
module Stranding {
  import opened Models
  import opened Sorting
  import opened Objective
  import opened Feasibility
  import opened Insertion
  import opened Fleet
  import opened Search
  import opened Seating
  import opened Outcome
  import opened Greedy
  import opened Answers
  import opened Moves

  ghost predicate Names(inst: Instance, r: NodeId, p: NodeId) {
    r == p || (inst.Has(r) && inst.index[r].pinnedDriver == Some(p))
  }

  /** After `k` pin steps only those handled so far, and whoever they are pinned to, have left the pool. */
  ghost predicate PoolLeft(inst: Instance, order: seq<NodeId>, first: Rebuild, now: Rebuild, k: nat)
    requires k <= |order|
  {
    && now.pool !! now.cars.Keys && now.pool <= first.pool
    && (forall j, p :: 0 <= j < k && Names(inst, order[j], p) ==> p !in now.pool)
    && (forall p :: p in first.pool && p !in now.pool ==> exists j :: 0 <= j < k && Names(inst, order[j], p))
  }

  lemma {:induction false} PoolAfter(inst: Instance, order: seq<NodeId>, states: seq<Rebuild>, k: nat)
    requires |states| == |order| + 1 && k <= |order| && PoolTurns(inst, order, states)
    requires states[0].pool !! states[0].cars.Keys
    ensures PoolLeft(inst, order, states[0], states[k], k)
  {
    hide PoolTurn, PoolLeft;
    if k > 0 {
      PoolAfter(inst, order, states, k - 1);
      PoolStep(inst, order, states[0], states[k - 1], states[k], k - 1);
    } else {
      NothingLeft(inst, order, states[0]);
    }
  }

  lemma NothingLeft(inst: Instance, order: seq<NodeId>, first: Rebuild)
    requires first.pool !! first.cars.Keys
    ensures PoolLeft(inst, order, first, first, 0)
  {
  }

  lemma PoolStep(inst: Instance, order: seq<NodeId>, first: Rebuild, a: Rebuild, b: Rebuild, k: nat)
    requires k < |order| && PoolLeft(inst, order, first, a, k) && PoolTurn(inst, order[k], a, b)
    ensures PoolLeft(inst, order, first, b, k + 1)
  {
    hide BestInsertion, EmptyCar;
    forall p | p in first.pool && p !in b.pool ensures exists j :: 0 <= j < k + 1 && Names(inst, order[j], p) {
      if p in a.pool {
        assert Names(inst, order[k], p);
      } else {
        var j :| 0 <= j < k && Names(inst, order[j], p);
      }
    }
  }

  /** Everyone pooled when a flexible driver's car is closed, its driver included. */
  ghost function Pooled(cars: Cars, unassigned: set<NodeId>, d: NodeId): set<NodeId>
    requires d in cars
  {
    cars[d].Passengers() + {d} + unassigned
  }

  /** Whoever is pooled beside the closed car's driver rides or is pinned, and nobody pooled has a car. */
  lemma PooledAre(inst: Instance, cars: Cars, unassigned: set<NodeId>, d: NodeId)
    requires WellFormed(inst, cars, unassigned) && d in cars
    ensures forall p :: p in Pooled(cars, unassigned, d) && p != d ==>
      IsRider(inst, p) || (inst.Has(p) && inst.index[p].pinnedDriver.Some?)
    ensures Pooled(cars, unassigned, d) !! (cars - {d}).Keys
  {
    hide Feasible, GoodCar, Away;
    FeasibleIsApart(inst, cars);
    PassengersAreRiders(inst, cars, d);
    assert (cars - {d}).Keys == cars.Keys - {d};
    forall p | p in Pooled(cars, unassigned, d) && p != d ensures p !in cars {
      if p in unassigned {
        AwayIsUnplaced(inst, cars, p);
      }
    }
  }

  /** Somebody pooled is pinned to `d`. */
  ghost predicate Wanted(inst: Instance, pool: set<NodeId>, d: NodeId) {
    exists r :: r in pool && inst.Has(r) && inst.index[r].pinnedDriver == Some(d)
  }

  /** Whether the closed car's driver is still waiting when the pin steps are over. */
  lemma DriverLeft(inst: Instance, cars: Cars, unassigned: set<NodeId>, d: NodeId, states: seq<Rebuild>, last: Rebuild)
    requires WellFormed(inst, cars, unassigned) && d in cars && inst.Has(d)
    requires Pins(inst, Pooled(cars, unassigned, d), states, Rebuild(cars - {d}, Pooled(cars, unassigned, d), {}), last)
    ensures last.pool <= Pooled(cars, unassigned, d)
    ensures forall p :: p in last.pool && inst.Has(p) ==> inst.index[p].pinnedDriver.None?
    ensures d in last.pool <==>
      inst.index[d].pinnedDriver.None? && !Wanted(inst, Pooled(cars, unassigned, d), d)
  {
    hide Sorted, WellFormed, PoolTurns, Pooled;
    var pool := Pooled(cars, unassigned, d);
    var order := Sorted(Pinned(inst, pool));
    PooledAre(inst, cars, unassigned, d);
    assert d in pool by {
      DriverIsPooled(cars, unassigned, d);
    }
    PoolAfter(inst, order, states, |order|);
    PinnedHaveLeft(inst, order, pool, states[0], last);
    if d !in last.pool {
      var j :| 0 <= j < |order| && Names(inst, order[j], d);
      assert order[j] in order;
    }
  }

  lemma DriverIsPooled(cars: Cars, unassigned: set<NodeId>, d: NodeId)
    requires d in cars
    ensures d in Pooled(cars, unassigned, d)
  {
  }

  /** After the last pin step neither the pinned wait, nor anybody the pinned are pinned to. */
  lemma PinnedHaveLeft(inst: Instance, order: seq<NodeId>, pool: set<NodeId>, first: Rebuild, last: Rebuild)
    requires order == Sorted(Pinned(inst, pool)) && PoolLeft(inst, order, first, last, |order|)
    ensures forall p, r :: r in pool && inst.Has(r) && inst.index[r].pinnedDriver.Some? && Names(inst, r, p) ==>
      p !in last.pool
    ensures last.pool <= pool && first.pool == pool ==>
      forall p :: p in last.pool && inst.Has(p) ==> inst.index[p].pinnedDriver.None?
  {
    hide Sorted;
    forall p, r | r in pool && inst.Has(r) && inst.index[r].pinnedDriver.Some? && Names(inst, r, p)
      ensures p !in last.pool
    {
      assert r in order;
      var j :| 0 <= j < |order| && order[j] == r;
    }
    forall p | p in pool && p in last.pool && inst.Has(p) ensures inst.index[p].pinnedDriver.None? {
      assert Names(inst, p, p);
    }
  }

  /**
    * Exactly when closing a flexible driver's car makes the rebuild fail: after the pin steps somebody waits whom the
    * search has no distances for if and only if the driver takes neither leg, is pinned to nobody, and nobody in their
    * car or left out is pinned to them.
    */
  lemma ClosingStrandsExactly(inst: Instance, search: Searcher, cars: Cars, unassigned: set<NodeId>, d: NodeId,
                              states: seq<Rebuild>, last: Rebuild)
    requires search.Valid() && search.inst == inst
    requires WellFormed(inst, cars, unassigned) && d in cars && inst.Has(d) && inst.index[d].role.Either?
    requires Pins(inst, Pooled(cars, unassigned, d), states, Rebuild(cars - {d}, Pooled(cars, unassigned, d), {}), last)
    ensures (exists p :: p in last.pool && p !in search.nearest) <==>
      && !inst.index[d].NeedsTransport() && inst.index[d].pinnedDriver.None?
      && !Wanted(inst, Pooled(cars, unassigned, d), d)
  {
    hide WellFormed, Pins, Pooled;
    PooledAre(inst, cars, unassigned, d);
    DriverLeft(inst, cars, unassigned, d, states, last);
  }

  // ---- What a search that fails has come to --------------------------------------------------------------

  /** Some ruin of this state that the rebuild breaks off on. */
  ghost predicate Raises(inst: Instance, search: Searcher, cars: Cars, unassigned: set<NodeId>) {
    exists ruined: Cars, removed: set<NodeId> :: RaisesAfter(inst, search, cars, unassigned, ruined, removed)
  }

  ghost predicate RaisesAfter(inst: Instance, search: Searcher, cars: Cars, unassigned: set<NodeId>, ruined: Cars,
                              removed: set<NodeId>) {
    && TakenOut(cars, ruined, removed) && Fails(inst, search, ruined, removed + unassigned)
    && Sound(inst, ruined, unassigned, Riders(inst, removed)) && Waits(inst, ruined, unassigned, removed)
  }

  /** Nobody in the pool of a ruin has a car. */
  lemma RuinedPool(inst: Instance, cars: Cars, unassigned: set<NodeId>, ruined: Cars, removed: set<NodeId>)
    requires WellFormed(inst, cars, unassigned) && TakenOut(cars, ruined, removed)
    requires Sound(inst, ruined, unassigned, Riders(inst, removed)) && Waits(inst, ruined, unassigned, removed)
    ensures removed + unassigned !! ruined.Keys
  {
    hide Feasible, GoodCar, Away, Thinned, Coherent;
    forall p | p in removed + unassigned ensures p !in ruined {
      if p in unassigned {
        AwayIsUnplaced(inst, cars, p);
      } else {
        assert p in Riders(inst, removed) <==> IsRider(inst, p);
      }
    }
  }

  /** Somebody pooled who is no rider and pinned to nobody drove a car that was closed. */
  lemma IdlePooled(inst: Instance, cars: Cars, unassigned: set<NodeId>, ruined: Cars, removed: set<NodeId>, p: NodeId)
    requires WellFormed(inst, cars, unassigned) && TakenOut(cars, ruined, removed)
    requires Waits(inst, ruined, unassigned, removed) && p in removed + unassigned && !IsRider(inst, p)
    requires inst.Has(p) ==> inst.index[p].pinnedDriver.None?
    ensures p in cars && inst.Has(p) && inst.index[p].role.Either? && !inst.index[p].NeedsTransport()
    ensures cars[p].Passengers() <= removed
  {
    hide Feasible, GoodCar, Thinned, Coherent, Away;
    assert p in unassigned ==> Listable(inst, p);
    if p !in cars {
      var e :| e in cars && p in cars[e].Passengers();
      PassengersAreRiders(inst, cars, e);
    }
  }

  /** The search fails only in a state with a stranded driver. */
  lemma RaisesOnlyIfStranded(inst: Instance, search: Searcher, cars: Cars, unassigned: set<NodeId>)
    requires search.Valid() && search.inst == inst && WellFormed(inst, cars, unassigned)
    requires Raises(inst, search, cars, unassigned)
    ensures !NoneStranded(inst, cars.Keys)
  {
    hide WellFormed, TakenOut, Sound, Waits, Riders, PoolTurns, Sorted, Fails;
    var ruined, removed :| RaisesAfter(inst, search, cars, unassigned, ruined, removed);
    var p := FailsOn(inst, search, ruined, removed + unassigned);
    RuinedPool(inst, cars, unassigned, ruined, removed);
    AfterPins(inst, search, ruined, removed + unassigned, p);
    IdlePooled(inst, cars, unassigned, ruined, removed, p);
    forall r | PinnedOutside(inst, cars.Keys, p, r) ensures false {
      PinnedAreClose(inst, cars, unassigned, p, r);
    }
    assert Stranded(inst, cars.Keys, p);
  }

  lemma FailsOn(inst: Instance, search: Searcher, before: Cars, pool: set<NodeId>) returns (p: NodeId)
    requires Fails(inst, search, before, pool)
    ensures FailsAt(inst, search, before, pool, p)
  {
    var states: seq<Rebuild>, last: Rebuild, q: NodeId :|
      Pins(inst, pool, states, Rebuild(before, pool, {}), last) && q in last.pool && q !in search.nearest;
    p := q;
  }

  ghost predicate FailsAt(inst: Instance, search: Searcher, before: Cars, pool: set<NodeId>, p: NodeId) {
    exists states: seq<Rebuild>, last: Rebuild ::
      Pins(inst, pool, states, Rebuild(before, pool, {}), last) && p in last.pool && p !in search.nearest
  }

  lemma AfterPins(inst: Instance, search: Searcher, before: Cars, pool: set<NodeId>, p: NodeId)
    requires search.Valid() && search.inst == inst && pool !! before.Keys && FailsAt(inst, search, before, pool, p)
    ensures p in pool && !IsRider(inst, p) && (inst.Has(p) ==> inst.index[p].pinnedDriver.None?)
    ensures forall r :: r in pool && inst.Has(r) ==> inst.index[r].pinnedDriver != Some(p)
  {
    hide Sorted, PoolTurns;
    var states: seq<Rebuild>, last: Rebuild :|
      Pins(inst, pool, states, Rebuild(before, pool, {}), last) && p in last.pool && p !in search.nearest;
    var order := Sorted(Pinned(inst, pool));
    PoolAfter(inst, order, states, |order|);
    PinnedHaveLeft(inst, order, pool, states[0], last);
    forall r | r in pool && inst.Has(r) ensures inst.index[r].pinnedDriver != Some(p) {
      assert inst.index[r].pinnedDriver == Some(p) ==> Names(inst, r, p);
    }
  }

  // ---- One flexible participant who takes neither leg --------------------------------------------------

  ghost function OneIdle(): Instance {
    var p := Participant(0, Either, 1, 0, None, None, None, None, false, false);
    Instance(0, 1, [p], Matrix((a, b) => 0), Weights(1.0, 1.0, 1.0, 1.0, 1.0, 1.0), map[0 := p])
  }

  lemma AloneFits()
    ensures Feasible(OneIdle(), EmptyCar(0)) && GoodCar(OneIdle(), 0, EmptyCar(0))
  {
    hide PathDuration, RoundTrip, RideOut, RideBack, OutboundSchedule;
    forall k ensures !Breaks(OneIdle(), EmptyCar(0), k) {
    }
  }

  lemma AloneIsWellFormed()
    ensures WellFormed(OneIdle(), map[0 := EmptyCar(0)], {}) && EmptyCar(0).Passengers() == {}
    ensures SoloFeasible(OneIdle())
  {
    hide Feasible, GoodCar;
    AloneFits();
  }

  lemma AloneStarts()
    ensures OneIdle().Valid() && PoolPinsAreOneDeep(OneIdle())
    ensures Startable(OneIdle(), Solution([EmptyCar(0)], [])) && CarsOf([EmptyCar(0)]) == map[0 := EmptyCar(0)]
  {
    hide WellFormed;
    AloneIsWellFormed();
    assert [EmptyCar(0)][..0] == [];
    assert CarsOf([]) == map[];
    assert CarsOf([EmptyCar(0)]) == map[0 := EmptyCar(0)];
    assert Elements([]) == {};
  }

  /** Their empty car is an answer that keeps every rule, and closing it makes every rebuild fail. */
  lemma IdleDriverStrands(search: Searcher, states: seq<Rebuild>, last: Rebuild)
    requires search.Valid() && search.inst == OneIdle()
    requires Pins(OneIdle(), {0}, states, Rebuild(map[], {0}, {}), last)
    ensures OneIdle().Valid() && PoolPinsAreOneDeep(OneIdle()) && SoloFeasible(OneIdle())
    ensures Startable(OneIdle(), Solution([EmptyCar(0)], [])) && CarsOf([EmptyCar(0)]) == map[0 := EmptyCar(0)]
    ensures 0 in Closable(OneIdle(), map[0 := EmptyCar(0)])
    ensures 0 in last.pool && 0 !in search.nearest
  {
    AloneStarts();
    AloneIsWellFormed();
    var inst, cars: Cars := OneIdle(), map[0 := EmptyCar(0)];
    hide WellFormed, Pins, Startable, CarsOf, SoloFeasible, PoolPinsAreOneDeep;
    assert Pooled(cars, {}, 0) == {0};
    assert cars - {0} == map[];
    DriverLeft(inst, cars, {}, 0, states, last);
  }
}
