/** The independent checker: every way a solution breaks the rules. */
module Validation {
  import opened Models
  import opened Sorting
  import opened Feasibility

  datatype Code =
    | UnknownParticipant | DuplicateAssignment | MissingAssignment
    | DriverCannotDrive | CapacityExceeded | DetourExceeded | EarlyPickup
    | PinViolated | LegNotNeeded | LegMissing | LateArrival

  datatype Violation = Violation(code: Code, participant: Option<NodeId>, driver: Option<NodeId>)

  // ---- What counts as being assigned -----------------------------------------------------------

  /** How often a route assigns `id`; riding both legs is one assignment. */
  ghost function Appearances(route: Route, id: NodeId): nat {
    (if route.driver == id then 1 else 0)
    + multiset(route.outbound)[id]
    + (if id in route.outbound then 0 else multiset(route.inbound)[id])
  }

  ghost function RouteCount(routes: seq<Route>, id: NodeId): nat {
    var n := |routes|;
    if n == 0 then 0 else RouteCount(routes[..n - 1], id) + Appearances(routes[n - 1], id)
  }

  ghost function Assigned(sol: Solution, id: NodeId): nat {
    RouteCount(sol.routes, id) + multiset(sol.unassigned)[id]
  }

  // ---- What each complaint means ---------------------------------------------------------------

  ghost predicate AssignmentViolation(inst: Instance, sol: Solution, v: Violation) {
    v.participant.Some? && v.driver.None? &&
    var id := v.participant.value;
    match v.code
    case UnknownParticipant => Assigned(sol, id) > 0 && !inst.Has(id)
    case DuplicateAssignment => Assigned(sol, id) > 1 && inst.Has(id)
    case MissingAssignment => Assigned(sol, id) == 0 && inst.Has(id) && inst.index[id].NeedsTransport()
    case _ => false
  }

  ghost predicate CarViolation(inst: Instance, route: Route, v: Violation)
    requires Known(inst, route)
  {
    v.participant.None? && v.driver == Some(route.driver) &&
    match v.code
    case DriverCannotDrive => Breaks(inst, route, RoleRule)
    case CapacityExceeded => Breaks(inst, route, SeatsRule)
    case DetourExceeded => Breaks(inst, route, DetourRule)
    case _ => false
  }

  ghost predicate PickupViolation(inst: Instance, route: Route, v: Violation)
    requires Known(inst, route)
  {
    && v.code.EarlyPickup? && v.driver == Some(route.driver) && v.participant.Some?
    && (v.participant.value == route.driver || v.participant.value in route.outbound)
    && inst.Has(v.participant.value)
    && TooEarly(inst, route, v.participant.value)
  }

  /** A passenger in the wrong car, or on legs that are not the ones they need. */
  ghost predicate PassengerViolation(inst: Instance, route: Route, p: NodeId, v: Violation)
    requires inst.Has(p)
  {
    v.participant == Some(p) &&
    var person := inst.index[p];
    match v.code
    case PinViolated => v.driver == Some(route.driver) && !person.PinAllows(route.driver)
    case LegNotNeeded => v.driver.None? && ((p in route.outbound && !person.needsOutbound)
                                            || (p in route.inbound && !person.needsReturn))
    case LegMissing => v.driver.None? && ((p !in route.outbound && person.needsOutbound)
                                          || (p !in route.inbound && person.needsReturn))
    case _ => false
  }

  ghost predicate RouteViolation(inst: Instance, route: Route, v: Violation)
    requires Known(inst, route)
  {
    || CarViolation(inst, route, v)
    || PickupViolation(inst, route, v)
    || exists p :: p in route.Passengers() && inst.Has(p) && PassengerViolation(inst, route, p, v)
  }

  ghost predicate LateViolation(inst: Instance, v: Violation) {
    && v.code.LateArrival? && v.driver.None? && v.participant.Some?
    && inst.Has(v.participant.value)
    && var latest := inst.index[v.participant.value].latestArrival;
       latest.Some? && latest.value < inst.arrivalBy
  }

  /** A route whose driver is in the event but that carries someone who is not: looking them up fails. */
  ghost predicate Stranger(inst: Instance, route: Route) {
    inst.Has(route.driver) && !Known(inst, route)
  }

  ghost predicate FromRoutes(inst: Instance, routes: seq<Route>, v: Violation) {
    exists i :: 0 <= i < |routes| && Known(inst, routes[i]) && RouteViolation(inst, routes[i], v)
  }

  ghost predicate Justified(inst: Instance, sol: Solution, v: Violation) {
    || AssignmentViolation(inst, sol, v)
    || FromRoutes(inst, sol.routes, v)
    || LateViolation(inst, v)
  }

  // ---- The checker -----------------------------------------------------------------------------

  method CountRoute(seen: multiset<NodeId>, route: Route) returns (after: multiset<NodeId>)
    ensures forall id :: after[id] == seen[id] + Appearances(route, id)
  {
    after := CountRiders(seen + multiset{route.driver}, route.outbound, []);
    after := CountRiders(after, route.inbound, route.outbound);
  }

  /** Everyone on a leg, less those already counted on the other. */
  method CountRiders(seen: multiset<NodeId>, leg: seq<NodeId>, counted: seq<NodeId>) returns (after: multiset<NodeId>)
    ensures forall id :: after[id] == seen[id] + if id in counted then 0 else multiset(leg)[id]
  {
    after := seen;
    for i := 0 to |leg|
      invariant forall id :: after[id] == seen[id] + if id in counted then 0 else multiset(leg[..i])[id]
    {
      assert leg[..i + 1] == leg[..i] + [leg[i]];
      if leg[i] !in counted {
        after := after + multiset{leg[i]};
      }
    }
    assert leg[..|leg|] == leg;
  }

  method CountAssignments(sol: Solution) returns (seen: multiset<NodeId>)
    ensures forall id :: seen[id] == Assigned(sol, id)
  {
    hide Appearances;
    seen := multiset{};
    for i := 0 to |sol.routes|
      invariant forall id :: seen[id] == RouteCount(sol.routes[..i], id)
    {
      assert sol.routes[..i + 1][..i] == sol.routes[..i];
      seen := CountRoute(seen, sol.routes[i]);
    }
    assert sol.routes[..|sol.routes|] == sol.routes;
    seen := seen + multiset(sol.unassigned);
  }

  /** Everyone seen is in the event, and seen once. */
  method CheckSeen(inst: Instance, sol: Solution, seen: multiset<NodeId>) returns (vs: set<Violation>)
    requires forall id :: seen[id] == Assigned(sol, id)
    ensures forall v :: v in vs <==> AssignmentViolation(inst, sol, v) && !v.code.MissingAssignment?
  {
    hide Assigned;
    var all := set id | id in seen;
    vs := {};
    var left := all;
    while left != {}
      invariant left <= all
      invariant forall v :: v in vs <==>
        AssignmentViolation(inst, sol, v) && !v.code.MissingAssignment? && v.participant.value in all - left
      decreases |left|
    {
      var id := PickElement(left);
      if !inst.Has(id) {
        vs := vs + {Violation(UnknownParticipant, Some(id), None)};
      } else if seen[id] > 1 {
        vs := vs + {Violation(DuplicateAssignment, Some(id), None)};
      }
      left := left - {id};
    }
  }

  method CheckMissing(inst: Instance, sol: Solution, seen: multiset<NodeId>) returns (vs: set<Violation>)
    requires forall id :: seen[id] == Assigned(sol, id)
    ensures forall v :: v in vs <==> AssignmentViolation(inst, sol, v) && v.code.MissingAssignment?
  {
    hide Assigned, Sorted;
    var missing := Sorted(set id | id in inst.index && inst.index[id].NeedsTransport() && id !in seen);
    vs := {};
    for i := 0 to |missing|
      invariant forall v :: v in vs <==>
        v.code.MissingAssignment? && v.driver.None? && v.participant.Some? && v.participant.value in missing[..i]
    {
      assert missing[..i + 1] == missing[..i] + [missing[i]];
      vs := vs + {Violation(MissingAssignment, Some(missing[i]), None)};
    }
    assert missing[..|missing|] == missing;
  }

  method CheckAssignments(inst: Instance, sol: Solution) returns (vs: set<Violation>)
    ensures forall v :: v in vs <==> AssignmentViolation(inst, sol, v)
  {
    var seen := CountAssignments(sol);
    hide Assigned;
    var a := CheckSeen(inst, sol, seen);
    var b := CheckMissing(inst, sol, seen);
    vs := a + b;
  }

  method CheckCar(inst: Instance, route: Route) returns (vs: set<Violation>)
    requires Known(inst, route)
    ensures forall v :: v in vs <==> CarViolation(inst, route, v)
  {
    hide SeatsBroken, DetourBroken;
    vs := {};
    if !inst.index[route.driver].role.CanDrive() {
      vs := vs + {Violation(DriverCannotDrive, None, Some(route.driver))};
    }
    if SeatsBroken(inst, route) {
      vs := vs + {Violation(CapacityExceeded, None, Some(route.driver))};
    }
    if DetourBroken(inst, route) {
      vs := vs + {Violation(DetourExceeded, None, Some(route.driver))};
    }
  }

  method CheckPickups(inst: Instance, route: Route) returns (vs: set<Violation>)
    requires Known(inst, route)
    ensures forall v :: v in vs <==> PickupViolation(inst, route, v)
  {
    hide OutboundSchedule;
    vs := {};
    if TooEarly(inst, route, route.driver) {
      vs := {Violation(EarlyPickup, Some(route.driver), Some(route.driver))};
    }
    for i := 0 to |route.outbound|
      invariant forall v :: v in vs <==>
        PickupViolation(inst, route, v)
        && (v.participant.value == route.driver || v.participant.value in route.outbound[..i])
    {
      assert route.outbound[..i + 1] == route.outbound[..i] + [route.outbound[i]];
      if TooEarly(inst, route, route.outbound[i]) {
        vs := vs + {Violation(EarlyPickup, Some(route.outbound[i]), Some(route.driver))};
      }
    }
    assert route.outbound[..|route.outbound|] == route.outbound;
  }

  method CheckPassenger(inst: Instance, route: Route, p: NodeId) returns (vs: set<Violation>)
    requires inst.Has(p)
    ensures forall v :: v in vs <==> PassengerViolation(inst, route, p, v)
  {
    var person := inst.index[p];
    vs := {};
    if !person.PinAllows(route.driver) {
      vs := vs + {Violation(PinViolated, Some(p), Some(route.driver))};
    }
    if p in route.outbound && !person.needsOutbound {
      vs := vs + {Violation(LegNotNeeded, Some(p), None)};
    }
    if p in route.inbound && !person.needsReturn {
      vs := vs + {Violation(LegNotNeeded, Some(p), None)};
    }
    if person.needsOutbound && p !in route.outbound {
      vs := vs + {Violation(LegMissing, Some(p), None)};
    }
    if person.needsReturn && p !in route.inbound {
      vs := vs + {Violation(LegMissing, Some(p), None)};
    }
  }

  method CheckPassengers(inst: Instance, route: Route) returns (vs: set<Violation>)
    requires Known(inst, route)
    ensures forall v :: v in vs <==>
      exists p :: p in route.Passengers() && inst.Has(p) && PassengerViolation(inst, route, p, v)
  {
    hide PassengerViolation;
    vs := {};
    var left := route.Passengers();
    while left != {}
      invariant left <= route.Passengers()
      invariant forall v :: v in vs <==>
        exists p :: p in route.Passengers() - left && inst.Has(p) && PassengerViolation(inst, route, p, v)
      decreases |left|
    {
      var p := PickElement(left);
      assert p in route.Passengers();
      var more := CheckPassenger(inst, route, p);
      vs := vs + more;
      left := left - {p};
    }
  }

  method CheckRoute(inst: Instance, route: Route) returns (vs: set<Violation>)
    requires Known(inst, route)
    ensures forall v :: v in vs <==> RouteViolation(inst, route, v)
  {
    hide CarViolation, PickupViolation, PassengerViolation;
    var a := CheckCar(inst, route);
    var b := CheckPickups(inst, route);
    var c := CheckPassengers(inst, route);
    vs := a + b + c;
  }

  lemma FromOneMore(inst: Instance, routes: seq<Route>, route: Route, v: Violation)
    ensures FromRoutes(inst, routes + [route], v) <==>
      FromRoutes(inst, routes, v) || (Known(inst, route) && RouteViolation(inst, route, v))
  {
    hide Known, RouteViolation;
    var more := routes + [route];
    if FromRoutes(inst, routes, v) {
      var i :| 0 <= i < |routes| && Known(inst, routes[i]) && RouteViolation(inst, routes[i], v);
      assert more[i] == routes[i];
    }
    if Known(inst, route) && RouteViolation(inst, route, v) {
      assert more[|routes|] == route;
    }
  }

  method CheckRoutes(inst: Instance, routes: seq<Route>) returns (r: Option<set<Violation>>)
    ensures r.None? <==> exists i :: 0 <= i < |routes| && Stranger(inst, routes[i])
    ensures r.Some? ==> forall v :: v in r.value <==> FromRoutes(inst, routes, v)
  {
    hide RouteViolation;
    var vs: set<Violation> := {};
    for i := 0 to |routes|
      invariant forall j :: 0 <= j < i ==> !Stranger(inst, routes[j])
      invariant forall v :: v in vs <==> FromRoutes(inst, routes[..i], v)
    {
      assert routes[..i + 1] == routes[..i] + [routes[i]];
      forall v ensures FromRoutes(inst, routes[..i + 1], v) <==>
        FromRoutes(inst, routes[..i], v) || (Known(inst, routes[i]) && RouteViolation(inst, routes[i], v))
      {
        FromOneMore(inst, routes[..i], routes[i], v);
      }
      if inst.Has(routes[i].driver) {
        if !(forall j :: 0 <= j < |routes[i].outbound| ==> inst.Has(routes[i].outbound[j]))
           || !(forall j :: 0 <= j < |routes[i].inbound| ==> inst.Has(routes[i].inbound[j])) {
          return None;
        }
        var more := CheckRoute(inst, routes[i]);
        vs := vs + more;
      }
    }
    assert routes[..|routes|] == routes;
    r := Some(vs);
  }

  method CheckLate(inst: Instance) returns (vs: set<Violation>)
    requires inst.Valid()
    ensures forall v :: v in vs <==> LateViolation(inst, v)
  {
    vs := {};
    for i := 0 to |inst.participants|
      invariant forall v :: v in vs <==>
        LateViolation(inst, v) && inst.index[v.participant.value] in inst.participants[..i]
    {
      var p := inst.participants[i];
      assert inst.participants[..i + 1] == inst.participants[..i] + [p];
      if p.latestArrival.Some? && p.latestArrival.value < inst.arrivalBy {
        vs := vs + {Violation(LateArrival, Some(p.id), None)};
      }
    }
    assert inst.participants[..|inst.participants|] == inst.participants;
  }

  /** `validate`: exactly the justified complaints, or the failure of looking up a stranger. */
  method Validate(inst: Instance, sol: Solution) returns (r: Option<set<Violation>>)
    requires inst.Valid()
    ensures r.None? <==> exists i :: 0 <= i < |sol.routes| && Stranger(inst, sol.routes[i])
    ensures r.Some? ==> forall v :: v in r.value <==> Justified(inst, sol, v)
    ensures r == Some({}) <==> Clean(inst, sol)
  {
    hide AssignmentViolation, LateViolation, FromRoutes, Stranger, Clean;
    CleanIsUnjustified(inst, sol);
    var a := CheckAssignments(inst, sol);
    r := CheckRoutes(inst, sol.routes);
    if r.Some? {
      var late := CheckLate(inst);
      r := Some(a + r.value + late);
      assert forall v :: v in r.value <==> Justified(inst, sol, v);
      if forall v :: !Justified(inst, sol, v) {
        assert forall v :: v in r.value <==> v in {};
        assert r.value == {};
      }
    }
  }

  // ---- What an empty answer means --------------------------------------------------------------

  ghost predicate LegsRight(inst: Instance, route: Route) {
    forall p :: p in route.Passengers() && inst.Has(p) ==>
      (p in route.outbound <==> inst.index[p].needsOutbound) && (p in route.inbound <==> inst.index[p].needsReturn)
  }

  /** Everyone assigned is in the event, once, and everyone who travels is assigned. */
  ghost predicate AssignedOnce(inst: Instance, sol: Solution) {
    && (forall id :: Assigned(sol, id) <= 1)
    && (forall id :: Assigned(sol, id) == 1 ==> inst.Has(id))
    && (forall id :: inst.Has(id) && inst.index[id].NeedsTransport() ==> Assigned(sol, id) == 1)
  }

  /** A legal answer: everyone placed once, every car legal, everyone on exactly the legs they need. */
  ghost predicate Clean(inst: Instance, sol: Solution) {
    && AssignedOnce(inst, sol)
    && (forall i :: 0 <= i < |sol.routes| ==> Feasible(inst, sol.routes[i]) && LegsRight(inst, sol.routes[i]))
    && (forall v :: !LateViolation(inst, v))
  }

  lemma AssignedOnceIsUnjustified(inst: Instance, sol: Solution)
    ensures AssignedOnce(inst, sol) <==> forall v :: !AssignmentViolation(inst, sol, v)
  {
    hide Assigned;
    if forall v :: !AssignmentViolation(inst, sol, v) {
      forall id
        ensures Assigned(sol, id) > 0 ==> inst.Has(id)
        ensures inst.Has(id) ==> Assigned(sol, id) <= 1
        ensures inst.Has(id) && inst.index[id].NeedsTransport() ==> Assigned(sol, id) > 0
      {
        assert !AssignmentViolation(inst, sol, Violation(UnknownParticipant, Some(id), None));
        assert !AssignmentViolation(inst, sol, Violation(DuplicateAssignment, Some(id), None));
        assert !AssignmentViolation(inst, sol, Violation(MissingAssignment, Some(id), None));
      }
    }
  }

  lemma FeasibleIsUnjustified(inst: Instance, route: Route)
    requires Known(inst, route)
    ensures (Feasible(inst, route) && LegsRight(inst, route)) <==> forall v :: !RouteViolation(inst, route, v)
  {
    hide SeatsBroken, DetourBroken, TooEarly;
    if forall v :: !RouteViolation(inst, route, v) {
      NoViolationsIsFeasible(inst, route);
    }
    if Feasible(inst, route) && LegsRight(inst, route) {
      FeasibleHasNoViolations(inst, route);
    }
  }

  lemma NoViolationsIsFeasible(inst: Instance, route: Route)
    requires Known(inst, route) && forall v :: !RouteViolation(inst, route, v)
    ensures Feasible(inst, route) && LegsRight(inst, route)
  {
    hide SeatsBroken, DetourBroken, TooEarly;
    var car := Some(route.driver);
    assert !RouteViolation(inst, route, Violation(EarlyPickup, car, car));
    forall i | 0 <= i < |route.outbound| ensures !TooEarly(inst, route, route.outbound[i]) {
      assert !RouteViolation(inst, route, Violation(EarlyPickup, Some(route.outbound[i]), car));
    }
    forall p | p in route.Passengers() && inst.Has(p) ensures inst.index[p].PinAllows(route.driver) {
      var v := Violation(PinViolated, Some(p), car);
      assert !RouteViolation(inst, route, v);
      assert !PassengerViolation(inst, route, p, v);
    }
    forall c ensures !Breaks(inst, route, c) {
      assert !RouteViolation(inst, route, Violation(DriverCannotDrive, None, car));
      assert !RouteViolation(inst, route, Violation(CapacityExceeded, None, car));
      assert !RouteViolation(inst, route, Violation(DetourExceeded, None, car));
    }
    forall p | p in route.Passengers() && inst.Has(p)
      ensures !PassengerViolation(inst, route, p, Violation(LegNotNeeded, Some(p), None))
      ensures !PassengerViolation(inst, route, p, Violation(LegMissing, Some(p), None))
    {
      assert !RouteViolation(inst, route, Violation(LegNotNeeded, Some(p), None));
      assert !RouteViolation(inst, route, Violation(LegMissing, Some(p), None));
    }
  }

  lemma FeasibleHasNoViolations(inst: Instance, route: Route)
    requires Feasible(inst, route) && LegsRight(inst, route)
    ensures forall v :: !RouteViolation(inst, route, v)
  {
    hide SeatsBroken, DetourBroken, TooEarly;
    assert !Breaks(inst, route, RoleRule) && !Breaks(inst, route, SeatsRule) && !Breaks(inst, route, DetourRule);
    assert !Breaks(inst, route, TimeRule) && !Breaks(inst, route, PinRule);
  }

  lemma {:induction false} RouteIsAssigned(routes: seq<Route>, i: nat, id: NodeId)
    requires i < |routes|
    ensures RouteCount(routes, id) >= Appearances(routes[i], id)
  {
    if i < |routes| - 1 {
      RouteIsAssigned(routes[..|routes| - 1], i, id);
    }
  }

  lemma CleanIsUnjustified(inst: Instance, sol: Solution)
    ensures Clean(inst, sol) <==>
      (forall v :: !Justified(inst, sol, v)) && !(exists i :: 0 <= i < |sol.routes| && Stranger(inst, sol.routes[i]))
  {
    hide AssignmentViolation, LateViolation, RouteViolation, Known, Feasible, LegsRight, AssignedOnce;
    AssignedOnceIsUnjustified(inst, sol);
    if Clean(inst, sol) {
      forall v ensures !FromRoutes(inst, sol.routes, v) {
        forall i | 0 <= i < |sol.routes| && Known(inst, sol.routes[i])
          ensures !RouteViolation(inst, sol.routes[i], v)
        {
          FeasibleIsUnjustified(inst, sol.routes[i]);
        }
      }
      forall i | 0 <= i < |sol.routes| ensures !Stranger(inst, sol.routes[i]) {
        FeasibleIsKnown(inst, sol.routes[i]);
      }
    }
    if (forall v :: !Justified(inst, sol, v)) && !(exists i :: 0 <= i < |sol.routes| && Stranger(inst, sol.routes[i])) {
      forall v
        ensures !AssignmentViolation(inst, sol, v) && !FromRoutes(inst, sol.routes, v) && !LateViolation(inst, v)
      {
        assert !Justified(inst, sol, v);
      }
      forall i | 0 <= i < |sol.routes| ensures Feasible(inst, sol.routes[i]) && LegsRight(inst, sol.routes[i]) {
        DriverIsKnown(inst, sol, i);
        assert !Stranger(inst, sol.routes[i]);
        forall v ensures !RouteViolation(inst, sol.routes[i], v) {
          assert !FromRoutes(inst, sol.routes, v);
        }
        FeasibleIsUnjustified(inst, sol.routes[i]);
      }
    }
  }

  lemma FeasibleIsKnown(inst: Instance, route: Route)
    requires Feasible(inst, route)
    ensures Known(inst, route)
  {
  }

  lemma DriverIsKnown(inst: Instance, sol: Solution, i: nat)
    requires AssignedOnce(inst, sol) && i < |sol.routes|
    ensures inst.Has(sol.routes[i].driver)
  {
    RouteIsAssigned(sol.routes, i, sol.routes[i].driver);
    assert Assigned(sol, sol.routes[i].driver) >= 1;
  }
}
