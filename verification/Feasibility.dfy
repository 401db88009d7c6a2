/** What one car may not do, and what a whole solution may not do. */
module Feasibility {
  import opened Models
  import opened Objective
  import opened Sorting

  /** The rules a single route can break. */
  datatype Constraint = RoleRule | SeatsRule | DetourRule | TimeRule | PinRule

  /** Everyone the route names is in the event; looking anyone else up fails. */
  ghost predicate Known(inst: Instance, route: Route) {
    && inst.Has(route.driver)
    && (forall i :: 0 <= i < |route.outbound| ==> inst.Has(route.outbound[i]))
    && (forall i :: 0 <= i < |route.inbound| ==> inst.Has(route.inbound[i]))
  }

  predicate SeatsBroken(inst: Instance, route: Route)
    requires inst.Has(route.driver)
  {
    RouteMetrics(inst, route).seatsUsed > inst.index[route.driver].seats
  }

  predicate DetourBroken(inst: Instance, route: Route)
    requires inst.Has(route.driver)
  {
    var cap := inst.index[route.driver].maxDetour;
    cap.Some? && RouteMetrics(inst, route).detourSeconds > cap.value
  }

  predicate TooEarly(inst: Instance, route: Route, p: NodeId)
    requires inst.Has(p) && (p == route.driver || p in route.outbound)
  {
    var earliest := inst.index[p].earliestDeparture;
    earliest.Some? && OutboundSchedule(inst, route)[p] < earliest.value
  }

  ghost predicate TimeBroken(inst: Instance, route: Route)
    requires Known(inst, route)
  {
    || TooEarly(inst, route, route.driver)
    || exists i :: 0 <= i < |route.outbound| && TooEarly(inst, route, route.outbound[i])
  }

  ghost predicate PinBroken(inst: Instance, route: Route)
    requires Known(inst, route)
  {
    exists p :: p in route.Passengers() && inst.Has(p) && !inst.index[p].PinAllows(route.driver)
  }

  ghost predicate Breaks(inst: Instance, route: Route, c: Constraint)
    requires Known(inst, route)
  {
    match c
    case RoleRule => !inst.index[route.driver].role.CanDrive()
    case SeatsRule => SeatsBroken(inst, route)
    case DetourRule => DetourBroken(inst, route)
    case TimeRule => TimeBroken(inst, route)
    case PinRule => PinBroken(inst, route)
  }

  /** Everyone on the route is known and it breaks none of the rules. */
  ghost predicate Feasible(inst: Instance, route: Route) {
    Known(inst, route) && forall c :: !Breaks(inst, route, c)
  }

  method AnyTooEarly(inst: Instance, route: Route) returns (early: bool)
    requires Known(inst, route)
    ensures early == TimeBroken(inst, route)
  {
    hide OutboundSchedule;
    if TooEarly(inst, route, route.driver) {
      return true;
    }
    for i := 0 to |route.outbound|
      invariant forall j :: 0 <= j < i ==> !TooEarly(inst, route, route.outbound[j])
    {
      if TooEarly(inst, route, route.outbound[i]) {
        return true;
      }
    }
    early := false;
  }

  method AnyPinBroken(inst: Instance, route: Route) returns (broken: bool)
    requires Known(inst, route)
    ensures broken == PinBroken(inst, route)
  {
    var left := route.Passengers();
    while left != {}
      invariant left <= route.Passengers()
      invariant forall p :: p in route.Passengers() - left ==> inst.Has(p) && inst.index[p].PinAllows(route.driver)
      decreases |left|
    {
      var p := PickElement(left);
      assert p in route.Passengers();
      if !inst.index[p].PinAllows(route.driver) {
        return true;
      }
      left := left - {p};
    }
    broken := false;
  }

  /** Rule by rule is every rule there is. */
  lemma ExactlyThese(inst: Instance, route: Route, ignore: set<Constraint>, broken: set<Constraint>)
    requires Known(inst, route)
    requires RoleRule in broken <==> RoleRule !in ignore && !inst.index[route.driver].role.CanDrive()
    requires SeatsRule in broken <==> SeatsRule !in ignore && SeatsBroken(inst, route)
    requires DetourRule in broken <==> DetourRule !in ignore && DetourBroken(inst, route)
    requires TimeRule in broken <==> TimeRule !in ignore && TimeBroken(inst, route)
    requires PinRule in broken <==> PinRule !in ignore && PinBroken(inst, route)
    ensures forall c :: c in broken <==> c !in ignore && Breaks(inst, route, c)
  {
    hide SeatsBroken, DetourBroken, TimeBroken, PinBroken, Known;
    forall c ensures c in broken <==> c !in ignore && Breaks(inst, route, c) {
      match c
      case RoleRule =>
      case SeatsRule =>
      case DetourRule =>
      case TimeRule =>
      case PinRule =>
    }
  }

  /** `violated_constraints`: exactly the rules the route breaks, less the ones to ignore. */
  method ViolatedConstraints(inst: Instance, route: Route, ignore: set<Constraint>)
    returns (broken: set<Constraint>)
    requires Known(inst, route)
    ensures forall c :: c in broken <==> c !in ignore && Breaks(inst, route, c)
  {
    hide SeatsBroken, DetourBroken, TimeBroken, PinBroken, Breaks;
    broken := {};
    if RoleRule !in ignore && !inst.index[route.driver].role.CanDrive() {
      broken := broken + {RoleRule};
    }
    if SeatsRule !in ignore && SeatsBroken(inst, route) {
      broken := broken + {SeatsRule};
    }
    if DetourRule !in ignore && DetourBroken(inst, route) {
      broken := broken + {DetourRule};
    }
    if PinRule !in ignore {
      var pin := AnyPinBroken(inst, route);
      if pin {
        broken := broken + {PinRule};
      }
    }
    if TimeRule !in ignore {
      var early := AnyTooEarly(inst, route);
      if early {
        broken := broken + {TimeRule};
      }
    }
    ExactlyThese(inst, route, ignore, broken);
  }

  /** `route_feasible` */
  method RouteFeasible(inst: Instance, route: Route) returns (ok: bool)
    requires Known(inst, route)
    ensures ok == Feasible(inst, route)
  {
    hide Known;
    var broken := ViolatedConstraints(inst, route, {});
    ok := broken == {};
    if !ok {
      var c :| c in broken;
      assert Breaks(inst, route, c);
    }
  }

  // ---- The rules in so many words ------------------------------------------------------------------------------

  /** Too much is asked of the driver, or of their car. */
  lemma CarRulesExactly(inst: Instance, route: Route)
    requires Known(inst, route) && route.driver != DESTINATION
    ensures var driver := inst.index[route.driver];
      && (Breaks(inst, route, RoleRule) <==> driver.role == Passenger)
      && (Breaks(inst, route, SeatsRule) <==> |route.outbound| > driver.seats || |route.inbound| > driver.seats)
    ensures var cap := inst.index[route.driver].maxDetour;
      var there := [route.driver] + route.outbound + [DESTINATION];
      var back := [DESTINATION] + route.inbound + [route.driver];
      var direct := inst.matrix.cell(route.driver, DESTINATION) + inst.matrix.cell(DESTINATION, route.driver);
      Breaks(inst, route, DetourRule) <==>
        && cap.Some?
        && (0 > cap.value || PathDuration(inst.matrix, there) + PathDuration(inst.matrix, back) - direct > cap.value)
  {
    hide PathDuration, RideOut, RideBack;
    MetricsAgainstAlone(inst, route);
    AloneMetrics(inst, route.driver);
  }

  /** Somebody aboard is pinned to somebody else. */
  lemma PinRuleExactly(inst: Instance, route: Route)
    requires Known(inst, route)
    ensures Breaks(inst, route, PinRule) <==>
      exists p ::
        && (p in route.outbound || p in route.inbound)
        && inst.index[p].pinnedDriver.Some? && inst.index[p].pinnedDriver.value != route.driver
  {
    if p :| (p in route.outbound || p in route.inbound) && inst.index[p].pinnedDriver.Some?
            && inst.index[p].pinnedDriver.value != route.driver
    {
      assert p in route.Passengers() && !inst.index[p].PinAllows(route.driver);
    }
  }

  /** Somebody would have to leave home too early for the rest of the way to end at the deadline. */
  ghost predicate LeavesTooEarly(inst: Instance, path: seq<NodeId>, i: nat)
    requires i < |path| && inst.Has(path[i])
  {
    var earliest := inst.index[path[i]].earliestDeparture;
    earliest.Some? && inst.arrivalBy - PathDuration(inst.matrix, path[i..]) < earliest.value
  }

  lemma StopTooEarly(inst: Instance, route: Route, i: nat)
    requires Known(inst, route) && Distinct(route.OutboundPath()) && i <= |route.outbound|
    ensures var path := route.OutboundPath();
      && inst.Has(path[i]) && (path[i] == route.driver || path[i] in route.outbound)
      && (TooEarly(inst, route, path[i]) <==> LeavesTooEarly(inst, path, i))
  {
    hide OutboundSchedule, PathDuration;
    OutboundTimes(inst, route, i);
    assert i > 0 ==> route.OutboundPath()[i] == route.outbound[i - 1];
  }

  lemma TimeRuleExactly(inst: Instance, route: Route)
    requires Known(inst, route) && Distinct(route.OutboundPath())
    ensures forall i :: 0 <= i <= |route.outbound| ==> inst.Has(route.OutboundPath()[i])
    ensures Breaks(inst, route, TimeRule) <==>
      exists i ::
        0 <= i <= |route.outbound| && LeavesTooEarly(inst, route.OutboundPath(), i)
  {
    hide OutboundSchedule, LeavesTooEarly, Distinct;
    var path := route.OutboundPath();
    forall i | 0 <= i <= |route.outbound|
      ensures inst.Has(path[i]) && (path[i] == route.driver || path[i] in route.outbound)
      ensures TooEarly(inst, route, path[i]) <==> LeavesTooEarly(inst, path, i)
      ensures i > 0 ==> path[i] == route.outbound[i - 1]
    {
      StopTooEarly(inst, route, i);
    }
    hide TooEarly;
    assert path[0] == route.driver;
    if TooEarly(inst, route, route.driver) {
      assert LeavesTooEarly(inst, path, 0);
    }
    if i :| 0 <= i < |route.outbound| && TooEarly(inst, route, route.outbound[i]) {
      var k := i + 1;
      assert path[k] == route.outbound[i];
      assert LeavesTooEarly(inst, path, k);
    }
    if i :| 0 <= i <= |route.outbound| && LeavesTooEarly(inst, path, i) {
      if i > 0 {
        var j := i - 1;
        assert path[i] == route.outbound[j];
        assert TooEarly(inst, route, route.outbound[j]);
      }
    }
  }
}
