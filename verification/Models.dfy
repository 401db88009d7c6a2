/** The domain's data: people, matrix, instance, routes and solutions, and times along a path. */
module Models {

  datatype Option<+T> = None | Some(value: T)

  /** Identifiers are only ever compared for equality and order, so an integer stands for the string. */
  type NodeId = int

  /** The shared destination, reserved: no participant carries this id. */
  const DESTINATION: NodeId := -1

  /** `round`: to the nearest integer, halves to even. */
  function Round(x: real): (n: int)
    ensures -0.5 <= x - n as real <= 0.5
    ensures x - n as real == 0.5 || x - n as real == -0.5 ==> n % 2 == 0
  {
    var f := x.Floor;
    var part := x - f as real;
    if part < 0.5 || (part == 0.5 && f % 2 == 0) then f else f + 1
  }

  datatype Role = Driver | Passenger | Either {
    predicate CanDrive() {
      Driver? || Either?
    }
  }

  datatype Participant = Participant(
    id: NodeId,
    role: Role,
    seats: nat,
    priority: nat,
    earliestDeparture: Option<int>,
    latestArrival: Option<int>,
    maxDetour: Option<int>,
    pinnedDriver: Option<NodeId>,
    needsOutbound: bool,
    needsReturn: bool)
  {
    predicate NeedsTransport() {
      needsOutbound || needsReturn
    }

    /** Someone the solver has to seat or leave out: not a committed driver, and travelling. */
    predicate IsRider() {
      !role.Driver? && NeedsTransport()
    }

    predicate PinAllows(driver: NodeId) {
      pinnedDriver.None? || pinnedDriver.value == driver
    }
  }

  datatype Weights = Weights(
    driveTime: real,
    vehicle: real,
    rideTime: real,
    detour: real,
    unassigned: real,
    churn: real)

  /** Directed travel times in seconds. */
  datatype Matrix = Matrix(cell: (NodeId, NodeId) -> int)

  function Duration(m: Matrix, a: NodeId, b: NodeId): int {
    if a == b then 0 else m.cell(a, b)
  }

  function PathDuration(m: Matrix, path: seq<NodeId>): int {
    var n := |path|;
    if n < 2 then 0 else PathDuration(m, path[..n - 1]) + Duration(m, path[n - 2], path[n - 1])
  }

  datatype Instance = Instance(
    arrivalBy: int,
    endsAt: int,
    participants: seq<Participant>,
    matrix: Matrix,
    weights: Weights,
    index: map<NodeId, Participant>)
  {
    /** What construction enforces: the event ends after it begins, ids are distinct and not reserved. */
    ghost predicate Valid() {
      && arrivalBy < endsAt
      && (forall i, j :: 0 <= i < j < |participants| ==> participants[i].id != participants[j].id)
      && (forall i :: 0 <= i < |participants| ==>
            participants[i].id in index && index[participants[i].id] == participants[i])
      && (forall id :: id in index ==> index[id].id == id && index[id] in participants)
      && DESTINATION !in index
    }

    predicate Has(id: NodeId) {
      id in index
    }
  }

  /** One driver's car: an order of stops for each leg, never a schedule. */
  datatype Route = Route(driver: NodeId, outbound: seq<NodeId>, inbound: seq<NodeId>) {
    function Passengers(): set<NodeId> {
      (set p | p in outbound) + (set p | p in inbound)
    }

    function OutboundPath(): seq<NodeId> {
      [driver] + outbound + [DESTINATION]
    }

    function InboundPath(): seq<NodeId> {
      [DESTINATION] + inbound + [driver]
    }
  }

  function EmptyCar(driver: NodeId): Route {
    Route(driver, [], [])
  }

  datatype Solution = Solution(routes: seq<Route>, unassigned: seq<NodeId>)

  predicate Distinct<T(==)>(s: seq<T>) {
    forall i, j :: 0 <= i < j < |s| ==> s[i] != s[j]
  }

  /** Arrival time at every node of `path` when `path[0]` is left at `start`; a repeated node keeps its last. */
  function TimesAlong(m: Matrix, path: seq<NodeId>, start: int): (times: map<NodeId, int>)
    requires |path| > 0
    ensures forall v :: v in times <==> v in path
    ensures path[|path| - 1] in times && times[path[|path| - 1]] == start + PathDuration(m, path)
  {
    var n := |path|;
    if n == 1 then
      map[path[0] := start]
    else
      assert forall v :: v in path <==> v in path[..n - 1] || v == path[n - 1];
      TimesAlong(m, path[..n - 1], start)[path[n - 1] := start + PathDuration(m, path)]
  }

  /** On a path that repeats no node, the time at stop `i` is the length of the path up to it. */
  lemma {:induction false} TimesAlongDistinct(m: Matrix, path: seq<NodeId>, start: int, i: nat)
    requires i < |path| && Distinct(path)
    ensures TimesAlong(m, path, start)[path[i]] == start + PathDuration(m, path[..i + 1])
  {
    if i == |path| - 1 {
      assert path[..i + 1] == path;
    } else {
      var front := path[..|path| - 1];
      TimesAlongDistinct(m, front, start, i);
      assert front[..i + 1] == path[..i + 1];
      assert front[i] == path[i] != path[|path| - 1];
    }
  }

  /** The way to a stop and the way on from it make up the whole path. */
  lemma {:induction false} PathSplits(m: Matrix, path: seq<NodeId>, i: nat)
    requires i < |path|
    ensures PathDuration(m, path) == PathDuration(m, path[..i + 1]) + PathDuration(m, path[i..])
  {
    var n := |path| - 1;
    if i == n {
      assert path[..i + 1] == path;
    } else {
      PathSplits(m, path[..n], i);
      assert path[..n][..i + 1] == path[..i + 1];
      assert path[..n][i..] == path[i..][..n - i];
    }
  }

  /** `schedule_forward`; with `depart == 0` it is the objective's table of elapsed seconds. */
  method ScheduleForward(m: Matrix, path: seq<NodeId>, depart: int) returns (times: map<NodeId, int>)
    requires |path| > 0
    ensures times == TimesAlong(m, path, depart)
  {
    var t := depart;
    times := map[path[0] := t];
    for i := 1 to |path|
      invariant t == depart + PathDuration(m, path[..i])
      invariant times == TimesAlong(m, path[..i], depart)
    {
      assert path[..i + 1][..i] == path[..i];
      t := t + Duration(m, path[i - 1], path[i]);
      times := times[path[i] := t];
    }
    assert path[..|path|] == path;
  }

  /** `schedule_backward`: leave exactly when arriving at the last node on time requires. */
  function BackwardTimes(m: Matrix, path: seq<NodeId>, arriveBy: int): (times: map<NodeId, int>)
    requires |path| > 0
    ensures path[|path| - 1] in times && times[path[|path| - 1]] == arriveBy
  {
    TimesAlong(m, path, arriveBy - PathDuration(m, path))
  }

  function OutboundSchedule(inst: Instance, route: Route): (times: map<NodeId, int>)
    ensures forall p :: p in route.outbound || p == route.driver || p == DESTINATION <==> p in times
    ensures times[DESTINATION] == inst.arrivalBy
  {
    BackwardTimes(inst.matrix, route.OutboundPath(), inst.arrivalBy)
  }

  /** Everyone on the way out is left as long before the deadline as the rest of the way takes. */
  lemma OutboundTimes(inst: Instance, route: Route, i: nat)
    requires Distinct(route.OutboundPath()) && i < |route.OutboundPath()|
    ensures var path := route.OutboundPath();
      path[i] in OutboundSchedule(inst, route)
      && OutboundSchedule(inst, route)[path[i]] == inst.arrivalBy - PathDuration(inst.matrix, path[i..])
  {
    hide TimesAlong, PathDuration;
    var path := route.OutboundPath();
    TimesAlongDistinct(inst.matrix, path, inst.arrivalBy - PathDuration(inst.matrix, path), i);
    PathSplits(inst.matrix, path, i);
  }
}
