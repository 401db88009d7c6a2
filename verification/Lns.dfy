/** Large neighbourhood search: whatever is drawn, the answer stays legal and never gets worse. */
module Lns {
  import opened Models
  import opened Sorting
  import opened Objective
  import opened Feasibility
  import opened Validation
  import opened Sequence
  import opened Insertion
  import opened Fleet
  import opened Offers
  import opened Search
  import opened Seating
  import opened Evaluation
  import opened Outcome
  import opened Greedy
  import opened Moves
  import opened Warm
  import opened Stranding
  import opened Answers

  /** How much better a state must be to replace the best seen. */
  const MARGIN := 0.000000001

  // ---- Pricing a state -----------------------------------------------------------------------------

  method SumCosts(inst: Instance, search: Searcher, routes: seq<Route>) returns (cost: real)
    requires search.Valid() && search.inst == inst
    modifies search.memo
    ensures search.Valid() && cost == CostSum(inst, routes)
  {
    hide RouteCost, BestInsertion, IsTidied, Known, NearestDrivers;
    cost := 0.0;
    for i := 0 to |routes|
      invariant search.Valid() && cost == CostSum(inst, routes[..i])
    {
      assert routes[..i + 1][..i] == routes[..i];
      var c := search.memo.Cost(routes[i]);
      cost := cost + c;
    }
    assert routes[..|routes|] == routes;
  }

  /** `churn` */
  method CountMoved(previous: Previous, routes: seq<Route>) returns (moved: nat)
    ensures moved == MovedSum(previous, routes)
  {
    hide MovedAboard;
    if |previous| == 0 {
      assert previous == map[] by {
        assert |previous.Keys| == 0;
      }
      NothingMoved(routes);
      return 0;
    }
    moved := 0;
    for i := 0 to |routes|
      invariant moved == MovedSum(previous, routes[..i])
    {
      assert routes[..i + 1][..i] == routes[..i];
      moved := moved + |MovedAboard(previous, routes[i])|;
    }
    assert routes[..|routes|] == routes;
  }

  /** `total`, with the cost of each car remembered. */
  method PriceState(inst: Instance, search: Searcher, st: State) returns (total: real)
    requires search.Valid() && search.inst == inst
    modifies search.memo
    ensures search.Valid() && total == Total(inst, search.previous, st.routes, st.unassigned)
  {
    hide CostSum, MovedSum, UnassignedSum, CarsInOrder, Sorted, Searcher.Valid;
    var routes := CarsInOrder(st.routes);
    var cost := SumCosts(inst, search, routes);
    var moved := CountMoved(search.previous, routes);
    total := Combine(inst.weights, cost, |st.routes|, UnassignedSum(inst, Sorted(st.unassigned)), moved);
  }

  // ---- Tidying and rechecking what a move changed ---------------------------------------------------

  lemma TidyingIsSound(inst: Instance, cars: Cars, unassigned: set<NodeId>, d: NodeId, c: Route)
    requires Sound(inst, cars, unassigned, {}) && d in cars && IsTidied(inst, cars[d], c)
    ensures Sound(inst, cars[d := c], unassigned, {})
  {
    hide Coherent, GoodCar, IsTidied;
    CarIsGood(inst, cars, d);
    TidiedIsGood(inst, d, cars[d], c);
    ReplaceCar(inst, cars, d, c, {});
  }

  /** A car the move left alone stays as it is; any other is put in its best order. */
  ghost predicate Renewed(inst: Instance, was: Cars, d: NodeId, moved: Route, car: Route) {
    if d in was && was[d] == moved then car == moved else IsTidied(inst, moved, car)
  }

  /** How far the recheck has got: from the cars as the move left them. */
  ghost predicate Rechecked(inst: Instance, was: Cars, moved: Cars, cars: Cars, order: seq<NodeId>, n: nat)
    requires n <= |order|
  {
    && cars.Keys == moved.Keys && (forall i :: 0 <= i < |order| ==> order[i] in cars)
    && (forall i :: 0 <= i < n ==> Feasible(inst, cars[order[i]]))
    && (forall i :: 0 <= i < n ==> Renewed(inst, was, order[i], moved[order[i]], cars[order[i]]))
    && (forall i :: n <= i < |order| ==> cars[order[i]] == moved[order[i]])
  }

  lemma RecheckStarts(inst: Instance, was: Cars, cars: Cars)
    ensures Rechecked(inst, was, cars, cars, Sorted(cars.Keys), 0)
  {
    hide Feasible, IsTidied;
    assert forall i :: 0 <= i < |Sorted(cars.Keys)| ==> Sorted(cars.Keys)[i] in Sorted(cars.Keys);
  }

  lemma RecheckMore(inst: Instance, was: Cars, moved: Cars, cars: Cars, order: seq<NodeId>, n: nat, c: Route)
    requires n < |order| && Distinct(order) && Rechecked(inst, was, moved, cars, order, n)
    requires Feasible(inst, c) && Renewed(inst, was, order[n], moved[order[n]], c)
    ensures Rechecked(inst, was, moved, cars[order[n] := c], order, n + 1)
  {
    hide Feasible, Renewed;
  }

  lemma RecheckEnds(inst: Instance, was: Cars, moved: Cars, cars: Cars, unassigned: set<NodeId>)
    requires Rechecked(inst, was, moved, cars, Sorted(moved.Keys), |Sorted(moved.Keys)|)
    requires Sound(inst, cars, unassigned, {})
    ensures WellFormed(inst, cars, unassigned)
  {
    hide Feasible, Renewed, Coherent, Settled, Sorted;
    var order := Sorted(moved.Keys);
    forall d | d in cars ensures Feasible(inst, cars[d]) {
      assert d in order;
      var i :| 0 <= i < |order| && order[i] == d;
    }
  }

  /** Exactly the cars the move changed are put in their best order. */
  ghost predicate OnlyTidied(inst: Instance, was: Cars, moved: Cars, cars: Cars) {
    && cars.Keys == moved.Keys
    && forall d :: d in moved ==> Renewed(inst, was, d, moved[d], cars[d])
  }

  lemma RecheckTidies(inst: Instance, was: Cars, moved: Cars, cars: Cars)
    requires Rechecked(inst, was, moved, cars, Sorted(moved.Keys), |Sorted(moved.Keys)|)
    ensures OnlyTidied(inst, was, moved, cars)
  {
    hide Feasible, Renewed, Sorted;
    var order := Sorted(moved.Keys);
    forall d | d in moved ensures Renewed(inst, was, d, moved[d], cars[d]) {
      assert d in order;
      var i :| 0 <= i < |order| && order[i] == d;
    }
  }

  /** A car that fails even in its best order already failed as the move left it. */
  lemma TidiedFails(inst: Instance, route: Route, tidied: Route)
    requires IsTidied(inst, route, tidied) && !Feasible(inst, tidied)
    ensures tidied == route
  {
    hide Feasible, IsResequenced;
  }

  /** Only the cars a move changed are reordered and rechecked; a move is rejected only if it left a car infeasible. */
  method Recheck(inst: Instance, search: Searcher, st: State, before: Cars) returns (ok: bool)
    requires search.Valid() && search.inst == inst
    requires Sound(inst, st.routes, st.unassigned, {}) && AllFeasible(inst, before)
    modifies st`routes, search
    ensures search.Valid()
    ensures ok ==> WellFormed(inst, st.routes, st.unassigned) && OnlyTidied(inst, before, old(st.routes), st.routes)
    ensures st.routes.Keys == old(st.routes).Keys
    ensures !ok ==> !AllFeasible(inst, old(st.routes))
  {
    hide Sound, Feasible, AllFeasible, IsTidied, Renewed, Rechecked, Sorted, Searcher.Valid, Known, OnlyTidied,
         WellFormed, GoodCar, Coherent;
    var order := Sorted(st.routes.Keys);
    RecheckStarts(inst, before, st.routes);
    for i := 0 to |order|
      invariant search.Valid()
      invariant Sound(inst, st.routes, st.unassigned, {}) && st.routes.Keys == old(st.routes).Keys
      invariant Rechecked(inst, before, old(st.routes), st.routes, order, i)
    {
      var d := order[i];
      RecheckNext(inst, before, old(st.routes), st.routes, order, i);
      var route := st.routes[d];
      if d in before && before[d] == route {
        RecheckSkips(inst, before, old(st.routes), st.routes, order, i);
        continue;
      }
      SoundParts(inst, st.routes, st.unassigned, {});
      CarIsGood(inst, st.routes, d);
      var tidied := search.Tidy(route);
      TidiedIsGood(inst, d, route, tidied);
      GoodIsKnown(inst, d, tidied);
      var fits := RouteFeasible(inst, tidied);
      if !fits {
        TidiedFails(inst, route, tidied);
        FailsHere(inst, old(st.routes), d);
        return false;
      }
      TidyingIsSound(inst, st.routes, st.unassigned, d, tidied);
      RecheckTidied(inst, before, old(st.routes), st.routes, order, i, tidied);
      st.routes := st.routes[d := tidied];
    }
    RecheckEnds(inst, before, old(st.routes), st.routes, st.unassigned);
    RecheckTidies(inst, before, old(st.routes), st.routes);
    ok := true;
  }

  /** A car the move left alone is as legal as it was. */
  lemma RecheckSkips(inst: Instance, was: Cars, moved: Cars, cars: Cars, order: seq<NodeId>, n: nat)
    requires n < |order| && Distinct(order) && Rechecked(inst, was, moved, cars, order, n) && AllFeasible(inst, was)
    requires order[n] in was && order[n] in cars && was[order[n]] == cars[order[n]]
    ensures Rechecked(inst, was, moved, cars, order, n + 1)
  {
    hide Feasible, IsTidied;
    var d := order[n];
    assert Feasible(inst, was[d]);
    RecheckMore(inst, was, moved, cars, order, n, cars[order[n]]);
    assert cars[order[n] := cars[order[n]]] == cars;
  }

  lemma RecheckTidied(inst: Instance, was: Cars, moved: Cars, cars: Cars, order: seq<NodeId>, n: nat, c: Route)
    requires n < |order| && Distinct(order) && Rechecked(inst, was, moved, cars, order, n)
    requires order[n] in cars && !(order[n] in was && was[order[n]] == cars[order[n]])
    requires Feasible(inst, c) && IsTidied(inst, cars[order[n]], c)
    ensures Rechecked(inst, was, moved, cars[order[n] := c], order, n + 1)
  {
    hide Feasible, IsTidied;
    RecheckMore(inst, was, moved, cars, order, n, c);
  }

  lemma FailsHere(inst: Instance, cars: Cars, d: NodeId)
    requires d in cars && !Feasible(inst, cars[d])
    ensures !AllFeasible(inst, cars)
  {
    hide Feasible;
  }

  lemma RecheckNext(inst: Instance, was: Cars, moved: Cars, cars: Cars, order: seq<NodeId>, n: nat)
    requires n < |order| && Rechecked(inst, was, moved, cars, order, n)
    ensures order[n] in cars && order[n] in moved && cars[order[n]] == moved[order[n]]
  {
    hide Feasible, Renewed;
  }

  // ---- The search ------------------------------------------------------------------------------------

  /** A state of the search. */
  datatype Snapshot = Snapshot(cars: Cars, unassigned: set<NodeId>)

  /** Two riders exchanged, or some taken out and everyone waiting rebuilt. */
  ghost predicate Altered(inst: Instance, search: Searcher, a: Snapshot, b: Snapshot) {
    || (b.unassigned == a.unassigned && exists x, y, carX, carY :: Exchanged(inst, a.cars, b.cars, x, y, carX, carY))
    || exists ruined: Cars, removed: set<NodeId> ::
         RuinSized(inst, a.cars, removed) && TakenOut(a.cars, ruined, removed)
         && Rebuilt(inst, search, ruined, removed + a.unassigned, b.cars, b.unassigned)
  }

  /** A whole move: the alteration, then the cars it changed put in order. */
  ghost predicate MoveTo(inst: Instance, search: Searcher, a: Snapshot, b: Snapshot) {
    exists mid: Snapshot ::
      Altered(inst, search, a, mid) && OnlyTidied(inst, a.cars, mid.cars, b.cars) && b.unassigned == mid.unassigned
  }

  /** Why a move may come to nothing: two riders cannot be exchanged, nobody rides, or a car ends up infeasible. */
  ghost predicate NoMove(inst: Instance, search: Searcher, a: Snapshot) {
    || NoSwap(inst, a.cars)
    || (forall p :: !Seats(a.cars, p))
    || exists mid: Snapshot :: Altered(inst, search, a, mid) && !AllFeasible(inst, mid.cars)
  }

  ghost function Shot(st: State): Snapshot
    reads st
  {
    Snapshot(st.routes, st.unassigned)
  }

  /** Only drivers whose cars a move closed, and riders, have cars opened again. */
  lemma MoveStrandsNobody(inst: Instance, before: Cars, ruined: Cars, removed: set<NodeId>, unassigned: set<NodeId>,
                          cars: Cars)
    requires WellFormed(inst, before, unassigned) && NoneStranded(inst, before.Keys) && Driven(inst, cars)
    requires TakenOut(before, ruined, removed) && OpenedFor(inst, ruined, cars, removed + unassigned)
    ensures NoneStranded(inst, cars.Keys)
  {
    hide Feasible, GoodCar, NoneStranded, Thinned, Away;
    forall d | d in cars ensures d in before || (IsRider(inst, d) && inst.index[d].pinnedDriver.None?) {
      assert Drives(inst, d);
      if d in removed && d !in before {
        var e :| e in before && d in before[e].Passengers();
        PassengersAreRiders(inst, before, e);
      }
    }
    NoneStrandedLater(inst, before.Keys, cars.Keys);
  }

  /**
    * One move on a copy of the current state: `ok` when it led somewhere legal, `raised` when a rebuild looked up
    * distances nobody had sorted.
    */
  method Move(inst: Instance, search: Searcher, st: State) returns (ok: bool, raised: bool)
    requires search.Valid() && search.inst == inst
    requires PoolPinsAreOneDeep(inst) && WellFormed(inst, st.routes, st.unassigned)
    modifies st, search, search.memo
    ensures search.Valid()
    ensures raised ==> !ok && Raises(inst, search, old(st.routes), old(st.unassigned))
    ensures ok ==> WellFormed(inst, st.routes, st.unassigned)
    ensures ok && NoneStranded(inst, old(st.routes).Keys) ==> NoneStranded(inst, st.routes.Keys)
    ensures ok ==> MoveTo(inst, search, old(Shot(st)), Shot(st))
    ensures !ok && !raised ==> NoMove(inst, search, old(Shot(st)))
  {
    hide Sound, PoolPinsAreOneDeep, NoneStranded, OpenedFor, Waits, Riders, Driven, Searcher.Valid, Coherent, Settled,
         Feasible, Exchanged, TakenOut, RuinSized, Keeps, AllTurnedAway, Rebuilt, NoSwap, OnlyTidied, Fails, Raises;
    var before := st.routes;
    ghost var left, ruined, gone := st.unassigned, before, {};
    WellFormedIsSound(inst, st.routes, st.unassigned);
    WellFormedIsDriven(inst, st.routes, st.unassigned);
    raised := false;
    var u := RandomUnit();
    if u < 0.15 {
      var swapped := Swap(inst, search, st);
      if !swapped {
        return false, false;
      }
    } else {
      var removed := Ruin(inst, st);
      if removed.None? {
        return false, false;
      }
      ruined, gone := st.routes, removed.value;
      RuinedIsDriven(inst, before, ruined, gone);
      raised := Recreate(inst, search, st, removed.value);
      if raised {
        assert RaisesAfter(inst, search, before, left, ruined, gone);
        RaisesFrom(inst, search, before, left, ruined, gone);
        return false, true;
      }
      assert Rebuilt(inst, search, ruined, gone + left, st.routes, st.unassigned);
    }
    ghost var mid := Shot(st);
    assert Altered(inst, search, old(Shot(st)), mid);
    ok := Recheck(inst, search, st, before);
    assert ok ==> OnlyTidied(inst, before, mid.cars, st.routes);
    if ok && NoneStranded(inst, before.Keys) {
      WellFormedIsDriven(inst, st.routes, st.unassigned);
      if u < 0.15 {
        assert st.routes.Keys == before.Keys;
      } else {
        SameDrivers(inst, mid.cars, st.routes, ruined, gone + left);
        MoveStrandsNobody(inst, before, ruined, gone, left, st.routes);
      }
    }
  }

  lemma RaisesFrom(inst: Instance, search: Searcher, cars: Cars, unassigned: set<NodeId>, ruined: Cars,
                   removed: set<NodeId>)
    requires RaisesAfter(inst, search, cars, unassigned, ruined, removed)
    ensures Raises(inst, search, cars, unassigned)
  {
    hide RaisesAfter;
  }

  lemma RuinedIsDriven(inst: Instance, before: Cars, ruined: Cars, removed: set<NodeId>)
    requires Driven(inst, before) && TakenOut(before, ruined, removed)
    ensures Driven(inst, ruined)
  {
    hide Drives, Thinned;
  }

  lemma SameDrivers(inst: Instance, cars: Cars, after: Cars, ruined: Cars, pool: set<NodeId>)
    requires OpenedFor(inst, ruined, cars, pool) && after.Keys == cars.Keys
    ensures OpenedFor(inst, ruined, after, pool)
  {
  }

  ghost function TotalOf(inst: Instance, previous: Previous, s: Snapshot): real {
    Total(inst, previous, s.cars, s.unassigned)
  }

  /** Every state tried was legal, and none beats `cost` by more than the margin. */
  ghost predicate NoneBetter(inst: Instance, previous: Previous, tried: seq<Snapshot>, cost: real) {
    forall i :: 0 <= i < |tried| ==>
      && WellFormed(inst, tried[i].cars, tried[i].unassigned)
      && cost <= TotalOf(inst, previous, tried[i]) + MARGIN
  }

  lemma OneMoreTried(inst: Instance, previous: Previous, tried: seq<Snapshot>, s: Snapshot, before: real, cost: real)
    requires NoneBetter(inst, previous, tried, before) && cost <= before
    requires WellFormed(inst, s.cars, s.unassigned) && cost <= TotalOf(inst, previous, s) + MARGIN
    ensures NoneBetter(inst, previous, tried + [s], cost)
  {
    hide WellFormed, TotalOf;
  }

  lemma AllTriedBefore(inst: Instance, previous: Previous, cost: real)
    ensures NoneBetter(inst, previous, [], cost)
  {
  }

  /** One round of the search: a move that came to nothing, or a state tried and accepted or not. */
  datatype Round = Rejected | Tried(from: Snapshot, to: Snapshot, accepted: bool)

  /** From `start`, the rounds lead to `current`; every improvement is accepted, anything else may be. */
  ghost predicate IsRun(inst: Instance, search: Searcher, start: Snapshot, rounds: seq<Round>, current: Snapshot)
    decreases |rounds|
  {
    var n := |rounds|;
    if n == 0 then current == start
    else
      match rounds[n - 1]
      case Rejected => IsRun(inst, search, start, rounds[..n - 1], current) && NoMove(inst, search, current)
      case Tried(from, to, accepted) =>
        && IsRun(inst, search, start, rounds[..n - 1], from)
        && MoveTo(inst, search, from, to)
        && (TotalOf(inst, search.previous, to) < TotalOf(inst, search.previous, from) ==> accepted)
        && current == if accepted then to else from
  }

  lemma RunMore(inst: Instance, search: Searcher, start: Snapshot, rounds: seq<Round>, current: Snapshot, r: Round)
    requires IsRun(inst, search, start, rounds, current)
    requires if r.Rejected? then NoMove(inst, search, current)
             else r.from == current && MoveTo(inst, search, current, r.to)
                  && (TotalOf(inst, search.previous, r.to) < TotalOf(inst, search.previous, current) ==> r.accepted)
    ensures IsRun(inst, search, start, rounds + [r], if r.Tried? && r.accepted then r.to else current)
    ensures TriedIn(rounds + [r]) == TriedIn(rounds) + if r.Tried? then [r.to] else []
  {
    hide MoveTo, NoMove, TotalOf;
    assert (rounds + [r])[..|rounds|] == rounds;
  }

  /** Every state tried, in order. */
  ghost function TriedIn(rounds: seq<Round>): seq<Snapshot> {
    var n := |rounds|;
    if n == 0 then []
    else TriedIn(rounds[..n - 1]) + if rounds[n - 1].Tried? then [rounds[n - 1].to] else []
  }

  /** The search begins at the start, or at the earlier answer repaired when that is legal and costs less. */
  ghost predicate Begun(inst: Instance, search: Searcher, start: Snapshot, previous: Option<Solution>,
                        warm: Option<Snapshot>, began: Snapshot) {
    if previous.None? then warm.None? && began == start
    else exists w: Snapshot, kept: Cars ::
      && Repaired(inst, search, previous.value.routes, kept, w.cars, w.unassigned)
      && warm == (if AllFeasible(inst, w.cars) then Some(w) else None)
      && began == if warm.Some? && TotalOf(inst, search.previous, w) < TotalOf(inst, search.previous, start)
                  then w else start
  }

  ghost function ListOf(warm: Option<Snapshot>): seq<Snapshot> {
    if warm.Some? then [warm.value] else []
  }

  /** Where the search begins: the given answer, or greedy's, or the earlier answer repaired when that costs less. */
  method Begin(inst: Instance, search: Searcher, start: Solution, previous: Option<Solution>)
    returns (current: State, cost: real, ghost warm: Option<Snapshot>)
    requires search.Valid() && search.inst == inst
    requires PoolPinsAreOneDeep(inst) && Startable(inst, start)
    requires previous.Some? ==> Repairable(inst, previous.value.routes)
    modifies search, search.memo
    ensures search.Valid() && fresh(current)
    ensures WellFormed(inst, current.routes, current.unassigned)
    ensures NoneStranded(inst, CarsOf(start.routes).Keys)
            && (previous.Some? ==> NoneStranded(inst, WarmDrivers(inst, previous.value.routes))) ==>
      NoneStranded(inst, current.routes.Keys)
    ensures cost == Total(inst, search.previous, current.routes, current.unassigned)
    ensures cost <= Total(inst, search.previous, CarsOf(start.routes), Elements(start.unassigned))
    ensures Begun(inst, search, Snapshot(CarsOf(start.routes), Elements(start.unassigned)), previous, warm,
                  Shot(current))
    ensures NoneBetter(inst, search.previous, ListOf(warm), cost)
  {
    hide PoolPinsAreOneDeep, Searcher.Valid, CarsOf, Elements, Total, Repairable, Sound, Keeps, AllTurnedAway, Repaired,
         NoneBetter, NoneStranded, WarmDrivers;
    hide Feasible, Coherent, Settled, Distinct;
    current := new State(CarsOf(start.routes), Elements(start.unassigned));
    cost := PriceState(inst, search, current);
    warm := None;
    ghost var first := Shot(current);
    AllTriedBefore(inst, search.previous, cost);
    if previous.Some? {
      ghost var kept;
      var repaired;
      repaired, kept := WarmStart(inst, search, previous.value.routes);
      ghost var s := Shot(repaired);
      assert Repaired(inst, search, previous.value.routes, kept, s.cars, s.unassigned);
      var fits := AllCarsFeasible(inst, repaired);
      if fits {
        SoundIsWellFormed(inst, repaired.routes, repaired.unassigned);
        WellFormedIsDriven(inst, repaired.routes, repaired.unassigned);
        warm := Some(s);
        var warmCost := PriceState(inst, search, repaired);
        OneMoreTried(inst, search.previous, [], s, cost, if warmCost < cost then warmCost else cost);
        assert [] + [s] == ListOf(warm);
        if warmCost < cost {
          current, cost := repaired, warmCost;
        }
      }
    }
  }

  lemma SoundIsWellFormed(inst: Instance, cars: Cars, unassigned: set<NodeId>)
    requires Sound(inst, cars, unassigned, {}) && AllFeasible(inst, cars)
    ensures WellFormed(inst, cars, unassigned)
  {
  }

  method AllCarsFeasible(inst: Instance, st: State) returns (ok: bool)
    requires Sound(inst, st.routes, st.unassigned, {})
    ensures ok == AllFeasible(inst, st.routes)
  {
    hide Sound, Feasible, Known, GoodCar, Coherent;
    SoundParts(inst, st.routes, st.unassigned, {});
    var left := st.routes.Keys;
    while left != {}
      invariant left <= st.routes.Keys
      invariant forall d :: d in st.routes && d !in left ==> Feasible(inst, st.routes[d])
      decreases |left|
    {
      var d := PickElement(left);
      CarIsGood(inst, st.routes, d);
      var fits := RouteFeasible(inst, st.routes[d]);
      if !fits {
        return false;
      }
      left := left - {d};
    }
    ok := true;
  }

  /**
    * The loop's promise: both states legal and correctly priced, and nothing tried beats the best by more
    * than the margin.
    */
  ghost predicate Promise(inst: Instance, previous: Previous, current: Snapshot, cost: real, best: Snapshot,
                          bestCost: real,
                          tried: seq<Snapshot>) {
    && WellFormed(inst, current.cars, current.unassigned) && cost == TotalOf(inst, previous, current)
    && WellFormed(inst, best.cars, best.unassigned) && bestCost == TotalOf(inst, previous, best)
    && bestCost <= cost + MARGIN
    && NoneBetter(inst, previous, tried, bestCost)
  }

  /** A priced candidate keeps the promise whether or not it is accepted, as long as an improvement always is. */
  lemma CandidateKeeps(inst: Instance, previous: Previous, current: Snapshot, cost: real, best: Snapshot,
                       bestCost: real,
                       tried: seq<Snapshot>, candidate: Snapshot, price: real, accepted: bool)
    requires Promise(inst, previous, current, cost, best, bestCost, tried)
    requires WellFormed(inst, candidate.cars, candidate.unassigned) && price == TotalOf(inst, previous, candidate)
    requires price < cost ==> accepted
    ensures var better := accepted && price < bestCost - MARGIN;
      Promise(inst, previous, if accepted then candidate else current, if accepted then price else cost,
              if better then candidate else best, if better then price else bestCost, tried + [candidate])
  {
    hide WellFormed, TotalOf, NoneBetter;
    var better := accepted && price < bestCost - MARGIN;
    OneMoreTried(inst, previous, tried, candidate, bestCost, if better then price else bestCost);
  }

  lemma PromiseStarts(inst: Instance, previous: Previous, s: Snapshot, cost: real, tried: seq<Snapshot>)
    requires WellFormed(inst, s.cars, s.unassigned) && cost == TotalOf(inst, previous, s)
    requires NoneBetter(inst, previous, tried, cost)
    ensures Promise(inst, previous, s, cost, s, cost, tried)
  {
    hide WellFormed, TotalOf, NoneBetter;
  }

  /** A move tried on a copy, and priced where it led somewhere. */
  method TryMove(inst: Instance, search: Searcher, current: State)
    returns (candidate: State, price: real, ok: bool, raised: bool)
    requires search.Valid() && search.inst == inst
    requires PoolPinsAreOneDeep(inst) && WellFormed(inst, current.routes, current.unassigned)
    modifies search, search.memo
    ensures search.Valid() && fresh(candidate)
    ensures raised ==> !ok && Raises(inst, search, current.routes, current.unassigned)
    ensures ok ==> WellFormed(inst, candidate.routes, candidate.unassigned)
    ensures ok ==> price == TotalOf(inst, search.previous, Shot(candidate))
    ensures ok && NoneStranded(inst, current.routes.Keys) ==> NoneStranded(inst, candidate.routes.Keys)
    ensures ok ==> MoveTo(inst, search, Shot(current), Shot(candidate))
    ensures !ok && !raised ==> NoMove(inst, search, Shot(current))
  {
    hide PoolPinsAreOneDeep, NoneStranded, Searcher.Valid, WellFormed, Total, MoveTo, NoMove, Raises;
    candidate := new State(current.routes, current.unassigned);
    ok, raised := Move(inst, search, candidate);
    price := 0.0;
    if ok {
      price := PriceState(inst, search, candidate);
    }
  }

  /**
    * The annealing loop. `timed` says a progress function was given; what it returns, what is drawn and which worse
    * states are accepted are all arbitrary.
    */
  method Anneal(inst: Instance, search: Searcher, start: State, startCost: real, iterations: nat, timed: bool,
                ghost before: seq<Snapshot>)
    returns (best: State, raised: bool, ghost rounds: seq<Round>, ghost last: Snapshot)
    requires search.Valid() && search.inst == inst
    requires PoolPinsAreOneDeep(inst) && WellFormed(inst, start.routes, start.unassigned)
    requires startCost == Total(inst, search.previous, start.routes, start.unassigned)
    requires NoneBetter(inst, search.previous, before, startCost)
    modifies search, search.memo
    ensures search.Valid()
    ensures IsRun(inst, search, Shot(start), rounds, last)
    ensures |rounds| <= iterations && (!timed && !raised ==> |rounds| == iterations)
    ensures raised ==> |rounds| < iterations && Raises(inst, search, last.cars, last.unassigned)
    ensures NoneStranded(inst, start.routes.Keys) ==> !raised
    ensures WellFormed(inst, best.routes, best.unassigned)
    ensures Shot(best) in [Shot(start)] + TriedIn(rounds)
    ensures Total(inst, search.previous, best.routes, best.unassigned) <= startCost
    ensures NoneBetter(inst, search.previous, before + TriedIn(rounds),
                       Total(inst, search.previous, best.routes, best.unassigned))
    ensures forall s :: s in before + TriedIn(rounds) ==>
      TotalOf(inst, search.previous, s) >= Total(inst, search.previous, best.routes, best.unassigned) - 0.000000001
  {
    hide PoolPinsAreOneDeep, NoneStranded, Searcher.Valid, WellFormed, Total, NoneBetter, Promise, IsRun, TriedIn,
         MoveTo,
         NoMove, Raises;
    var current, cost := start, startCost;
    best := new State(current.routes, current.unassigned);
    var bestCost := cost;
    raised, rounds := false, [];
    NoRounds(inst, search, Shot(start));
    assert before + TriedIn(rounds) == before;
    PromiseStarts(inst, search.previous, Shot(start), startCost, before);
    for iteration := 0 to iterations
      invariant search.Valid() && !raised
      invariant fresh(best) && (current == start || fresh(current)) && current != best
      invariant IsRun(inst, search, Shot(start), rounds, Shot(current)) && |rounds| == iteration
      invariant NoneStranded(inst, old(start.routes).Keys) ==> NoneStranded(inst, current.routes.Keys)
      invariant Promise(inst, search.previous, Shot(current), cost, Shot(best), bestCost, before + TriedIn(rounds))
      invariant bestCost <= startCost
      invariant Shot(best) in [Shot(start)] + TriedIn(rounds)
    {
      var stop := SpentAll(timed);
      if stop {
        break;
      }
      ghost var tried := TriedIn(rounds);
      PromiseParts(inst, search.previous, Shot(current), cost, Shot(best), bestCost, before + tried);
      var candidate, price, ok;
      candidate, price, ok, raised := TryMove(inst, search, current);
      if raised {
        RaisesOnlyIfStranded(inst, search, current.routes, current.unassigned);
        break;
      }
      if !ok {
        RunMore(inst, search, Shot(start), rounds, Shot(current), Rejected);
        rounds := rounds + [Rejected];
        assert tried + [] == tried;
        continue;
      }
      var lucky: bool := *;
      var accepted := price < cost || lucky;
      CandidateKeeps(inst, search.previous, Shot(current), cost, Shot(best), bestCost, before + tried, Shot(candidate),
                     price, accepted);
      RunMore(inst, search, Shot(start), rounds, Shot(current), Tried(Shot(current), Shot(candidate), accepted));
      rounds := rounds + [Tried(Shot(current), Shot(candidate), accepted)];
      assert before + tried + [Shot(candidate)] == before + TriedIn(rounds);
      if accepted {
        current, cost := candidate, price;
        if cost < bestCost - MARGIN {
          best := new State(candidate.routes, candidate.unassigned);
          bestCost := cost;
        }
      }
    }
    last := Shot(current);
    PromiseParts(inst, search.previous, Shot(current), cost, Shot(best), bestCost, before + TriedIn(rounds));
    WithinABillionth(inst, search.previous, before + TriedIn(rounds), bestCost);
  }

  /** In so many words: nothing tried is cheaper by more than a billionth. */
  lemma WithinABillionth(inst: Instance, previous: Previous, tried: seq<Snapshot>, cost: real)
    requires NoneBetter(inst, previous, tried, cost)
    ensures forall s :: s in tried ==> TotalOf(inst, previous, s) >= cost - 0.000000001
  {
    hide WellFormed, TotalOf;
  }

  lemma NoRounds(inst: Instance, search: Searcher, start: Snapshot)
    ensures IsRun(inst, search, start, [], start) && TriedIn([]) == []
  {
  }

  lemma PromiseParts(inst: Instance, previous: Previous, current: Snapshot, cost: real, best: Snapshot, bestCost: real,
                     tried: seq<Snapshot>)
    requires Promise(inst, previous, current, cost, best, bestCost, tried)
    ensures WellFormed(inst, current.cars, current.unassigned) && cost == TotalOf(inst, previous, current)
    ensures WellFormed(inst, best.cars, best.unassigned) && bestCost == TotalOf(inst, previous, best)
    ensures NoneBetter(inst, previous, tried, bestCost)
  {
    hide WellFormed, TotalOf, NoneBetter;
  }

  /** Without a progress function the iteration count alone ends the search. */
  method SpentAll(timed: bool) returns (stop: bool)
    ensures stop ==> timed
  {
    var spent: bool := *;
    stop := timed && spent;
  }

  /** Everything a search went through. */
  datatype Course = Course(start: Solution, warm: Option<Snapshot>, began: Snapshot, rounds: seq<Round>, last: Snapshot)
  {
    /** Every state priced after the start. */
    ghost function Tried(): seq<Snapshot> {
      ListOf(warm) + TriedIn(rounds)
    }
  }

  /** A search from the given start, or greedy's, for as many rounds as the cap and the progress allow. */
  ghost predicate IsSearch(inst: Instance, search: Searcher, initial: Option<Solution>, iterations: nat, timed: bool,
                           previous: Option<Solution>, c: Course, raised: bool) {
    && (if initial.Some? then c.start == initial.value else IsGreedy(inst, 10, c.start))
    && Begun(inst, search, Snapshot(CarsOf(c.start.routes), Elements(c.start.unassigned)),
             if initial.Some? then None else previous, c.warm, c.began)
    && IsRun(inst, search, c.began, c.rounds, c.last)
    && |c.rounds| <= iterations && (!timed && !raised ==> |c.rounds| == iterations)
    && (raised ==> |c.rounds| < iterations && Raises(inst, search, c.last.cars, c.last.unassigned))
  }

  /** One of the states the search went through, listed. */
  ghost predicate Passed(c: Course, sol: Solution) {
    exists s :: s in [c.began] + TriedIn(c.rounds) && sol == Solution(CarsInOrder(s.cars), Sorted(s.unassigned))
  }

  /** No car the search may start with has a driver it could not seat again. */
  ghost predicate StartsUnstranded(inst: Instance, initial: Option<Solution>, previous: Option<Solution>) {
    if initial.Some? then NoneStranded(inst, CarsOf(initial.value.routes).Keys)
    else previous.Some? ==> NoneStranded(inst, WarmDrivers(inst, previous.value.routes))
  }

  /**
    * `solve`: for every stream of draws, every progress and every cap, a legal answer no dearer than the start, churn
    * included, and no dearer than any state tried on the way, up to the margin. Nothing comes back when a move looks up
    * distances nobody had sorted, which takes a stranded driver in the state it starts from.
    */
  method Solve(inst: Instance, initial: Option<Solution>, iterations: nat, timed: bool, candidates: nat,
               previous: Option<Solution>)
    returns (r: Option<Solution>, ghost search: Searcher, ghost course: Course)
    requires inst.Valid() && PoolPinsAreOneDeep(inst)
    requires if initial.Some? then Startable(inst, initial.value) else SoloFeasible(inst)
    requires initial.None? && previous.Some? ==> Repairable(inst, previous.value.routes)
    ensures search.inst == inst && search.candidates == candidates && search.previous == PreviousDrivers(inst, previous)
    ensures IsSearch(inst, search, initial, iterations, timed, previous, course, r.None?)
    ensures StartsUnstranded(inst, initial, previous) ==> r.Some?
    ensures r.Some? ==> Startable(inst, r.value) && (Clean(inst, r.value) <==> NobodyLate(inst))
    ensures r.Some? && initial.Some? ==>
      Evaluate(inst, r.value, previous).total <= Evaluate(inst, initial.value, previous).total
    ensures NoneStranded(inst, course.began.cars.Keys) ==> r.Some?
    ensures Startable(inst, course.start)
    ensures r.Some? ==>
      && Passed(course, r.value)
      && Evaluate(inst, r.value, previous).total <= Evaluate(inst, course.start, previous).total
      && NoneBetter(inst, PreviousDrivers(inst, previous), course.Tried(), Evaluate(inst, r.value, previous).total)
      && forall s :: s in course.Tried() ==>
           TotalOf(inst, PreviousDrivers(inst, previous), s) >= Evaluate(inst, r.value, previous).total - 0.000000001
  {
    hide PoolPinsAreOneDeep, PinsAreOneDeep, NoneStranded, WarmDrivers, SoloFeasible, Repairable, Startable,
         Evaluate, Total, Clean, NobodyLate, NoneBetter, PreviousDrivers, WellFormed, CarsOf, CarsInOrder, Sorted,
         Elements, AllTurnedAway, Searcher.Valid, IsGreedy, Constructed, Begun, IsRun, TriedIn, ListOf, Raises;
    var searcher := new Searcher(inst, candidates, PreviousDrivers(inst, previous));
    search := searcher;
    var start: Solution;
    if initial.Some? {
      start := initial.value;
    } else {
      ghost var cars;
      PoolPinsCoverRiders(inst);
      start, cars := Greedy.Solve(inst, DEFAULT_CANDIDATES);
      ListedIsStartable(inst, cars, start.unassigned);
      assert start == Solution(CarsInOrder(cars), start.unassigned);
      ListedDrivers(inst, cars, start.unassigned);
    }
    EvaluateIsTotal(inst, previous, start);
    var current, cost;
    ghost var warm;
    current, cost, warm := Begin(inst, searcher, start, if initial.Some? then None else previous);
    ghost var began := Shot(current);
    var best, raised;
    ghost var rounds, last;
    best, raised, rounds, last := Anneal(inst, searcher, current, cost, iterations, timed, ListOf(warm));
    course := Course(start, warm, began, rounds, last);
    if raised {
      return None, searcher, course;
    }
    var sol := Solution(CarsInOrder(best.routes), Sorted(best.unassigned));
    ghost var s := Shot(best);
    assert sol == Solution(CarsInOrder(s.cars), Sorted(s.unassigned));
    Listed(inst, previous, best.routes, best.unassigned);
    FinishedIsClean(inst, best.routes, sol);
    WithinABillionth(inst, PreviousDrivers(inst, previous), course.Tried(), Evaluate(inst, sol, previous).total);
    r := Some(sol);
  }

  lemma ListedDrivers(inst: Instance, cars: Cars, left: seq<NodeId>)
    requires WellFormed(inst, cars, Elements(left))
    ensures CarsOf(CarsInOrder(cars)) == cars
  {
    hide Feasible, Settled, CarsInOrder, CarsOf;
    CarsOfInOrder(inst, cars);
  }

  /** What is returned for a state: legal, and charged exactly what the search charged. */
  lemma Listed(inst: Instance, previous: Option<Solution>, cars: Cars, unassigned: set<NodeId>)
    requires WellFormed(inst, cars, unassigned)
    ensures var sol := Solution(CarsInOrder(cars), Sorted(unassigned));
      && WellFormed(inst, cars, Elements(sol.unassigned)) && Distinct(sol.unassigned)
      && Startable(inst, sol)
      && Evaluate(inst, sol, previous).total == Total(inst, PreviousDrivers(inst, previous), cars, unassigned)
  {
    hide WellFormed, CarsInOrder, Sorted, Startable, Evaluate, Total, PreviousDrivers, CarsOf, Elements;
    ElementsSorted(unassigned);
    ListedIsStartable(inst, cars, Sorted(unassigned));
    EvaluateIsTotal(inst, previous, Solution(CarsInOrder(cars), Sorted(unassigned)));
  }
}
