/** Leaving out the people no road reaches, so that every time left in the matrix is a road time. */
module Unroutable {
  import opened Models
  import opened Sorting

  type Table = seq<seq<Option<real>>>
  type Cell = (int, int)

  datatype Outcome<T> = Done(value: T) | DestinationUnreachable | MostUnreachable

  predicate Square(t: Table, n: nat) {
    |t| == n && forall i :: 0 <= i < n ==> |t[i]| == n
  }

  ghost predicate Roster(order: seq<NodeId>) {
    Distinct(order) && DESTINATION in order
  }

  /** The off-diagonal cells one of the tables has nothing in. */
  function Missing(a: Table, b: Table, n: nat): (s: set<Cell>)
    requires Square(a, n) && Square(b, n)
  {
    set i, j | 0 <= i < n && 0 <= j < n && i != j && (a[i][j].None? || b[i][j].None?) :: (i, j)
  }

  ghost predicate Touches(c: Cell, k: int) {
    c.0 == k || c.1 == k
  }

  ghost function Count(missing: set<Cell>, k: int): nat {
    |set c | c in missing && Touches(c, k)|
  }

  /** More missing cells first; on a tie a participant before the destination, then the earlier node. */
  predicate Sooner(order: seq<NodeId>, k: int, countK: nat, l: int, countL: nat)
    requires 0 <= k < |order| && 0 <= l < |order|
  {
    || countK > countL
    || (countK == countL && order[k] != DESTINATION && order[l] == DESTINATION)
    || (countK == countL && (order[k] != DESTINATION <==> order[l] != DESTINATION) && k < l)
  }

  ghost predicate InTable(missing: set<Cell>, n: nat) {
    forall i, j :: (i, j) in missing ==> 0 <= i < n && 0 <= j < n && i != j
  }

  ghost predicate Affected(missing: set<Cell>, k: int) {
    exists c :: c in missing && Touches(c, k)
  }

  ghost predicate Worst(order: seq<NodeId>, missing: set<Cell>, k: int) {
    && 0 <= k < |order| && Affected(missing, k)
    && forall l :: 0 <= l < |order| && l != k && Affected(missing, l) ==>
         Sooner(order, k, Count(missing, k), l, Count(missing, l))
  }

  // ---- Counting ----------------------------------------------------------------------------------------

  ghost function Touching(missing: set<Cell>, k: int): set<Cell> {
    set c | c in missing && Touches(c, k)
  }

  lemma CountMore(done: set<Cell>, c: Cell, k: int)
    requires c !in done && c.0 != c.1
    ensures Count(done + {c}, k) == Count(done, k) + if Touches(c, k) then 1 else 0
  {
    if Touches(c, k) {
      assert Touching(done + {c}, k) == Touching(done, k) + {c};
    } else {
      assert Touching(done + {c}, k) == Touching(done, k);
    }
    assert Count(done + {c}, k) == |Touching(done + {c}, k)| && Count(done, k) == |Touching(done, k)|;
  }

  function Other(c: Cell, k: int): int {
    if c.0 == k then c.1 else c.0
  }

  lemma TouchingPartners(missing: set<Cell>, k: int, partners: set<int>)
    requires forall j :: (k, j) in missing ==> j in partners
    requires forall j :: (j, k) in missing ==> j in partners
    ensures forall c :: c in Touching(missing, k) ==> Other(c, k) in partners
  {
    forall c | c in Touching(missing, k) ensures Other(c, k) in partners {
      assert c == (c.0, c.1);
    }
  }

  /** The cells of one node when its row and its column are missing the same partners. */
  lemma {:induction false} Pairs(missing: set<Cell>, k: int, partners: set<int>)
    requires k !in partners
    requires forall j :: (k, j) in missing <==> j in partners
    requires forall j :: (j, k) in missing <==> j in partners
    ensures Count(missing, k) == 2 * |partners|
    decreases |partners|
  {
    assert Count(missing, k) == |Touching(missing, k)|;
    TouchingPartners(missing, k, partners);
    if partners == {} {
    } else {
      NonEmpty(partners);
      var j :| j in partners;
      var rest := missing - {(k, j), (j, k)};
      Pairs(rest, k, partners - {j});
      assert Touching(missing, k) == Touching(rest, k) + {(k, j), (j, k)};
      assert Count(rest, k) == |Touching(rest, k)|;
    }
  }

  // ---- When whole rows and columns are missing -----------------------------------------------------------

  function Kept(n: nat, removed: set<int>): set<int> {
    set k | 0 <= k < n && k !in removed
  }

  ghost predicate Participants(order: seq<NodeId>, b: set<int>) {
    forall k :: k in b ==> 0 <= k < |order| && order[k] != DESTINATION
  }

  /** Among the nodes still kept, what is missing is exactly the rows and columns of `b`. */
  ghost predicate ExactlyRows(order: seq<NodeId>, missing: set<Cell>, removed: set<int>, b: set<int>) {
    && removed <= b && Participants(order, b)
    && forall i, j :: (i, j) in missing <==>
         i in Kept(|order|, removed) && j in Kept(|order|, removed) && i != j && (i in b || j in b)
  }

  lemma BrokenCount(order: seq<NodeId>, missing: set<Cell>, removed: set<int>, b: set<int>, k: int)
    requires ExactlyRows(order, missing, removed, b) && k in Kept(|order|, removed)
    ensures Count(missing, k) == 2 * if k in b then |Kept(|order|, removed)| - 1 else |b - removed|
  {
    hide Count;
    var kept := Kept(|order|, removed);
    if k in b {
      Pairs(missing, k, kept - {k});
      assert kept == (kept - {k}) + {k};
    } else {
      Pairs(missing, k, b - removed);
    }
  }

  lemma SizeAtMost(a: set<int>, b: set<int>)
    requires a <= b
    ensures |a| <= |b|
    ensures |a| == |b| ==> a == b
  {
    assert b == a + (b - a);
    if |a| == |b| {
      assert |b - a| == 0;
      assert b - a == {};
    }
  }

  /** The node with the most missing cells is then one of `b`: the destination only ever ties. */
  lemma WorstIsBroken(order: seq<NodeId>, missing: set<Cell>, removed: set<int>, b: set<int>, worst: int)
    requires Roster(order) && ExactlyRows(order, missing, removed, b) && Worst(order, missing, worst)
    ensures worst in b - removed
  {
    hide Count, Distinct;
    var kept := Kept(|order|, removed);
    var c :| c in missing && Touches(c, worst);
    var i, j := c.0, c.1;
    assert c == (i, j) && (i, j) in missing;
    assert i in kept && j in kept && worst in kept;
    if worst !in b {
      var k := Other(c, worst);
      assert k in b && k in kept && (k == i || k == j);
      assert Touches(c, k);
      assert Affected(missing, k);
      BrokenCount(order, missing, removed, b, worst);
      BrokenCount(order, missing, removed, b, k);
      SizeAtMost(b - removed, kept - {worst});
      assert kept == (kept - {worst}) + {worst};
      assert order[k] != DESTINATION;
      if |b - removed| == |kept - {worst}| {
        OnlyDestinationLeft(order, removed, b, worst);
      }
    }
  }

  lemma OnlyDestinationLeft(order: seq<NodeId>, removed: set<int>, b: set<int>, worst: int)
    requires Roster(order) && Participants(order, b) && removed <= b
    requires worst in Kept(|order|, removed) && b - removed == Kept(|order|, removed) - {worst}
    ensures order[worst] == DESTINATION
  {
    var d :| 0 <= d < |order| && order[d] == DESTINATION;
    assert d !in b && d in Kept(|order|, removed);
    assert d !in b - removed && d !in Kept(|order|, removed) - {worst};
  }

  // ---- The elimination --------------------------------------------------------------------------------------

  ghost predicate Counted(missing: set<Cell>, counts: map<int, nat>) {
    && (forall k :: k in counts <==> Affected(missing, k))
    && (forall k :: k in counts ==> counts[k] == Count(missing, k))
  }

  function Bump(counts: map<int, nat>, k: int): map<int, nat> {
    counts[k := if k in counts then counts[k] + 1 else 1]
  }

  lemma CountedMore(done: set<Cell>, counts: map<int, nat>, c: Cell)
    requires Counted(done, counts) && c !in done && c.0 != c.1
    ensures Counted(done + {c}, Bump(Bump(counts, c.0), c.1))
  {
    hide Count;
    var now := Bump(Bump(counts, c.0), c.1);
    forall k ensures (k in now <==> Affected(done + {c}, k)) && (k in now ==> now[k] == Count(done + {c}, k)) {
      CountMore(done, c, k);
      if Touches(c, k) {
        assert c in done + {c};
        if !Affected(done, k) {
          NotAffected(done, k);
        }
      }
      if Affected(done, k) {
        var e :| e in done && Touches(e, k);
        assert e in done + {c};
      }
    }
  }

  lemma NotAffected(missing: set<Cell>, k: int)
    requires !Affected(missing, k)
    ensures Count(missing, k) == 0
  {
    assert Count(missing, k) == |Touching(missing, k)|;
  }

  method CountCells(missing: set<Cell>, n: nat) returns (counts: map<int, nat>)
    requires InTable(missing, n)
    ensures Counted(missing, counts)
  {
    hide Count, Affected;
    counts := map[];
    var left := missing;
    ghost var done: set<Cell> := {};
    NothingCounted();
    while left != {}
      invariant done == missing - left && left <= missing && Counted(done, counts)
      decreases |left|
    {
      var c :| c in left;
      assert c == (c.0, c.1);
      CountedMore(done, counts, c);
      counts := Bump(Bump(counts, c.0), c.1);
      left := left - {c};
      done := done + {c};
    }
    assert done == missing;
  }

  lemma NothingCounted()
    ensures Counted({}, map[])
  {
    forall k ensures !Affected({}, k) {
    }
  }

  /** `max` over the counted nodes. */
  method FindWorst(order: seq<NodeId>, ghost missing: set<Cell>, counts: map<int, nat>) returns (worst: int)
    requires Counted(missing, counts) && counts != map[] && InTable(missing, |order|)
    ensures Worst(order, missing, worst)
  {
    hide Count, Affected;
    KeysInTable(missing, |order|, counts);
    SomeKey(counts);
    worst :| worst in counts;
    var left := counts.Keys - {worst};
    while left != {}
      invariant worst in counts && left <= counts.Keys
      invariant forall l :: l in counts && l !in left && l != worst ==>
        Sooner(order, worst, counts[worst], l, counts[l])
      decreases |left|
    {
      var k := PickElement(left);
      if k != worst && Sooner(order, k, counts[k], worst, counts[worst]) {
        worst := k;
      }
      left := left - {k};
    }
  }

  lemma SomeKey(counts: map<int, nat>)
    requires counts != map[]
    ensures exists k :: k in counts
  {
    if counts.Keys == {} {
    } else {
      NonEmpty(counts.Keys);
    }
  }

  lemma KeysInTable(missing: set<Cell>, n: nat, counts: map<int, nat>)
    requires Counted(missing, counts) && InTable(missing, n)
    ensures forall k :: k in counts ==> 0 <= k < n
  {
    hide Count;
    forall k | k in counts ensures 0 <= k < n {
      var c :| c in missing && Touches(c, k);
      assert c == (c.0, c.1);
    }
  }

  function Without(missing: set<Cell>, worst: int): set<Cell> {
    set c | c in missing && c.0 != worst && c.1 != worst
  }

  lemma FewerCells(missing: set<Cell>, worst: int)
    requires Affected(missing, worst)
    ensures |Without(missing, worst)| < |missing|
  {
    var c :| c in missing && Touches(c, worst);
    assert Without(missing, worst) <= missing - {c};
    CellsAtMost(Without(missing, worst), missing - {c});
  }

  lemma CellsAtMost(a: set<Cell>, b: set<Cell>)
    requires a <= b
    ensures |a| <= |b|
  {
    assert b == a + (b - a);
  }

  lemma RowsLeft(order: seq<NodeId>, missing: set<Cell>, removed: set<int>, b: set<int>, worst: int)
    requires ExactlyRows(order, missing, removed, b) && worst in b - removed
    ensures ExactlyRows(order, Without(missing, worst), removed + {worst}, b)
  {
    var after, now := Without(missing, worst), removed + {worst};
    forall i, j ensures (i, j) in after <==>
      i in Kept(|order|, now) && j in Kept(|order|, now) && i != j && (i in b || j in b)
    {
      assert (i, j) in after <==> (i, j) in missing && i != worst && j != worst;
    }
  }

  /** Nothing missing touches a kept node twice over: what is left is what is missing between kept nodes. */
  ghost predicate Remains(all: set<Cell>, missing: set<Cell>, removed: set<int>) {
    forall c :: c in missing <==> c in all && c.0 !in removed && c.1 !in removed
  }

  /** Every node removed had something missing, and is a participant. */
  ghost predicate Justly(order: seq<NodeId>, all: set<Cell>, removed: set<int>) {
    forall k :: k in removed ==> 0 <= k < |order| && order[k] != DESTINATION && Affected(all, k)
  }

  lemma StillAffected(all: set<Cell>, missing: set<Cell>, k: int)
    requires Affected(missing, k) && missing <= all
    ensures Affected(all, k)
  {
  }

  /** Taking out the worst node, a participant, again and again: the nodes of `chain` in turn, `left` still missing. */
  ghost predicate Worn(order: seq<NodeId>, all: set<Cell>, chain: seq<int>, left: set<Cell>)
    decreases |chain|
  {
    var n := |chain|;
    if n == 0 then left == all
    else exists before :: WornOnce(order, all, chain, before, left)
  }

  ghost predicate WornOnce(order: seq<NodeId>, all: set<Cell>, chain: seq<int>, before: set<Cell>, left: set<Cell>)
    requires chain != []
    decreases |chain|, 0
  {
    var k := chain[|chain| - 1];
    && Worn(order, all, chain[..|chain| - 1], before)
    && Worst(order, before, k) && order[k] != DESTINATION && left == Without(before, k)
  }

  lemma WornMore(order: seq<NodeId>, all: set<Cell>, chain: seq<int>, before: set<Cell>, k: int)
    requires Worn(order, all, chain, before) && Worst(order, before, k) && order[k] != DESTINATION
    ensures Worn(order, all, chain + [k], Without(before, k))
  {
    hide Worst, Without;
    assert (chain + [k])[..|chain|] == chain;
    assert WornOnce(order, all, chain + [k], before, Without(before, k));
  }

  ghost predicate WornTo(order: seq<NodeId>, all: set<Cell>, removed: set<int>, left: set<Cell>) {
    exists chain :: Worn(order, all, chain, left) && removed == set k | k in chain
  }

  lemma WornToMore(order: seq<NodeId>, all: set<Cell>, removed: set<int>, before: set<Cell>, k: int)
    requires WornTo(order, all, removed, before) && Worst(order, before, k) && order[k] != DESTINATION
    ensures WornTo(order, all, removed + {k}, Without(before, k))
  {
    hide Worst, Without, Worn;
    var chain: seq<int> :| Worn(order, all, chain, before) && removed == set k | k in chain;
    WornMore(order, all, chain, before, k);
    assert (set j | j in chain + [k]) == removed + {k};
  }

  lemma WornToStart(order: seq<NodeId>, all: set<Cell>)
    ensures WornTo(order, all, {}, all)
  {
    var none: seq<int> := [];
    assert Worn(order, all, none, all);
    assert (set k | k in none) == {};
  }

  /** Taking out the worst again and again, the destination's turn comes. */
  ghost predicate DestinationWorst(order: seq<NodeId>, all: set<Cell>) {
    exists removed, left, d ::
      WornTo(order, all, removed, left) && 0 <= d < |order| && order[d] == DESTINATION && Worst(order, left, d)
  }

  /** Taking out the worst until nothing is missing takes more than half of the roster. */
  ghost predicate MostFail(order: seq<NodeId>, all: set<Cell>) {
    exists removed :: WornTo(order, all, removed, {}) && 2 * |removed| > |order| - 1
  }

  /** `_unroutable`, on the missing cells: whoever is removed, or why the answer is refused. */
  method Eliminate(order: seq<NodeId>, all: set<Cell>) returns (r: Outcome<set<int>>)
    requires Roster(order) && InTable(all, |order|)
    ensures r.Done? ==>
      && Justly(order, all, r.value) && Remains(all, {}, r.value) && WornTo(order, all, r.value, {})
      && 2 * |r.value| <= |order| - 1
    ensures r.DestinationUnreachable? ==> DestinationWorst(order, all)
    ensures r.MostUnreachable? ==> MostFail(order, all)
    ensures forall b :: ExactlyRows(order, all, {}, b) ==>
      r == if 2 * |b| <= |order| - 1 then Done(b) else MostUnreachable
  {
    hide Count, Affected, Distinct, ExactlyRows, Without, Worst, WornTo;
    var missing := all;
    var removed: set<int> := {};
    WornToStart(order, all);
    while missing != {}
      invariant missing <= all && InTable(missing, |order|)
      invariant Remains(all, missing, removed) && Justly(order, all, removed) && WornTo(order, all, removed, missing)
      invariant forall b :: ExactlyRows(order, all, {}, b) ==> ExactlyRows(order, missing, removed, b)
      decreases |missing|
    {
      var counts := CountCells(missing, |order|);
      SomethingCounted(missing, counts);
      var worst := FindWorst(order, missing, counts);
      WorstIsAffected(order, missing, worst);
      forall b | ExactlyRows(order, all, {}, b) ensures worst in b - removed && order[worst] != DESTINATION {
        WorstIsBroken(order, missing, removed, b, worst);
        BrokenAreParticipants(order, missing, removed, b, worst);
      }
      if order[worst] == DESTINATION {
        return DestinationUnreachable;
      }
      forall b | ExactlyRows(order, all, {}, b)
        ensures ExactlyRows(order, Without(missing, worst), removed + {worst}, b)
      {
        RowsLeft(order, missing, removed, b, worst);
      }
      WornToMore(order, all, removed, missing, worst);
      FewerCells(missing, worst);
      StillAffected(all, missing, worst);
      WithoutIs(all, missing, removed, worst);
      removed := removed + {worst};
      missing := Without(missing, worst);
    }
    forall b | ExactlyRows(order, all, {}, b) ensures removed == b {
      NothingMissing(order, removed, b);
    }
    if 2 * |removed| > |order| - 1 {
      return MostUnreachable;
    }
    r := Done(removed);
  }

  lemma WorstIsAffected(order: seq<NodeId>, missing: set<Cell>, k: int)
    requires Worst(order, missing, k)
    ensures 0 <= k < |order| && Affected(missing, k)
  {
  }

  lemma BrokenAreParticipants(order: seq<NodeId>, missing: set<Cell>, removed: set<int>, b: set<int>, k: int)
    requires ExactlyRows(order, missing, removed, b) && k in b
    ensures 0 <= k < |order| && order[k] != DESTINATION
  {
  }

  lemma SomethingCounted(missing: set<Cell>, counts: map<int, nat>)
    requires missing != {} && Counted(missing, counts)
    ensures counts != map[]
  {
    hide Count;
    var c :| c in missing;
    assert Touches(c, c.0);
    assert Affected(missing, c.0);
  }

  lemma WithoutIs(all: set<Cell>, missing: set<Cell>, removed: set<int>, worst: int)
    requires Remains(all, missing, removed)
    ensures Remains(all, Without(missing, worst), removed + {worst}) && Without(missing, worst) <= missing
  {
  }

  /** Nothing missing any more: every row of `b` has been removed, for the destination was never one of them. */
  lemma NothingMissing(order: seq<NodeId>, removed: set<int>, b: set<int>)
    requires Roster(order) && ExactlyRows(order, {}, removed, b)
    ensures removed == b
  {
    var d :| 0 <= d < |order| && order[d] == DESTINATION;
    forall k | k in b ensures k in removed {
      assert (k, d) !in {};
    }
  }

  // ---- Reading the tables -----------------------------------------------------------------------------------

  /** Entries by position in the order asked for, and the nodes left out. */
  datatype Estimates = Estimates(durations: map<Cell, int>, distances: map<Cell, int>, unroutable: set<NodeId>)

  /** Both tables have a number between every two different kept nodes, so reading a cell never fails. */
  ghost predicate Readable(a: Table, b: Table, n: nat, removed: set<int>)
    requires Square(a, n) && Square(b, n)
  {
    forall i, j :: i in Kept(n, removed) && j in Kept(n, removed) && i != j ==> a[i][j].Some? && b[i][j].Some?
  }

  lemma KeptIsReadable(a: Table, b: Table, n: nat, removed: set<int>)
    requires Square(a, n) && Square(b, n) && Remains(Missing(a, b, n), {}, removed)
    ensures Readable(a, b, n, removed)
  {
    forall i, j | i in Kept(n, removed) && j in Kept(n, removed) && i != j ensures a[i][j].Some? && b[i][j].Some? {
      assert (i, j) !in {};
      assert (i, j) !in Missing(a, b, n);
    }
  }

  /** The rounded entries between different kept nodes, all of them and nothing else. */
  ghost predicate Reads(t: Table, n: nat, removed: set<int>, values: map<Cell, int>)
    requires Square(t, n)
  {
    && (forall i, j :: (i, j) in values <==> i in Kept(n, removed) && j in Kept(n, removed) && i != j)
    && (forall i, j :: (i, j) in values ==> t[i][j].Some? && values[(i, j)] == Round(t[i][j].value))
  }

  /** `_cell` */
  function CellOf(t: Table, i: nat, j: nat): real
    requires i < |t| && j < |t[i]| && t[i][j].Some?
  {
    t[i][j].value
  }

  method ReadTable(t: Table, n: nat, removed: set<int>) returns (values: map<Cell, int>)
    requires Square(t, n)
    requires forall i, j :: i in Kept(n, removed) && j in Kept(n, removed) && i != j ==> t[i][j].Some?
    ensures Reads(t, n, removed, values)
  {
    hide Round;
    values := map i, j | 0 <= i < n && 0 <= j < n && i in Kept(n, removed) && j in Kept(n, removed) && i != j
      :: (i, j) := Round(CellOf(t, i, j));
  }

  /** Of two different places one is a broken participant exactly when either table has nothing between them. */
  ghost predicate Broken(order: seq<NodeId>, durations: Table, distances: Table, b: set<int>)
    requires Square(durations, |order|) && Square(distances, |order|)
  {
    && (forall k :: k in b ==> 0 <= k < |order| && order[k] != DESTINATION)
    && forall i, j :: 0 <= i < |order| && 0 <= j < |order| && i != j ==>
         (durations[i][j].None? || distances[i][j].None? <==> i in b || j in b)
  }

  lemma BrokenAreRows(order: seq<NodeId>, durations: Table, distances: Table, b: set<int>)
    requires Square(durations, |order|) && Square(distances, |order|) && Broken(order, durations, distances, b)
    ensures ExactlyRows(order, Missing(durations, distances, |order|), {}, b)
  {
  }

  lemma MissingInTable(a: Table, b: Table, n: nat)
    requires Square(a, n) && Square(b, n)
    ensures InTable(Missing(a, b, n), n)
  {
  }

  /** Either table has nothing between place `k` and some other, one way or the other. */
  ghost predicate LacksSomething(a: Table, b: Table, n: nat, k: int)
    requires Square(a, n) && Square(b, n)
  {
    && 0 <= k < n
    && exists j ::
      0 <= j < n && j != k && (a[k][j].None? || b[k][j].None? || a[j][k].None? || b[j][k].None?)
  }

  lemma AffectedLacks(a: Table, b: Table, n: nat, k: int)
    requires Square(a, n) && Square(b, n) && 0 <= k < n
    ensures Affected(Missing(a, b, n), k) <==> LacksSomething(a, b, n, k)
  {
    var all := Missing(a, b, n);
    if Affected(all, k) {
      var c :| c in all && Touches(c, k);
      assert c == (c.0, c.1) && Other(c, k) != k;
    }
    if LacksSomething(a, b, n, k) {
      var j :| 0 <= j < n && j != k && (a[k][j].None? || b[k][j].None? || a[j][k].None? || b[j][k].None?);
      var c := if a[k][j].None? || b[k][j].None? then (k, j) else (j, k);
      assert c in all && Touches(c, k);
    }
  }

  lemma RemovedLack(order: seq<NodeId>, a: Table, b: Table, removed: set<int>)
    requires Square(a, |order|) && Square(b, |order|) && Justly(order, Missing(a, b, |order|), removed)
    ensures forall k :: k in removed ==>
      LacksSomething(a, b, |order|, k) && 0 <= k < |order| && order[k] != DESTINATION
  {
    hide Affected, LacksSomething, Missing;
    forall k | k in removed ensures LacksSomething(a, b, |order|, k) {
      AffectedLacks(a, b, |order|, k);
    }
  }

  lemma AllThere(order: seq<NodeId>, a: Table, b: Table)
    requires Square(a, |order|) && Square(b, |order|)
    requires forall k :: 0 <= k < |order| ==> !LacksSomething(a, b, |order|, k)
    ensures Broken(order, a, b, {})
  {
    forall i, j | 0 <= i < |order| && 0 <= j < |order| && i != j ensures a[i][j].Some? && b[i][j].Some? {
      assert !LacksSomething(a, b, |order|, i);
    }
  }

  /** `parse_matrix`: refused, or complete between everyone it keeps. */
  method ParseMatrix(order: seq<NodeId>, durations: Table, distances: Table) returns (r: Outcome<Estimates>)
    requires Roster(order) && Square(durations, |order|) && Square(distances, |order|)
    ensures r.Done? ==> exists removed ::
      && (forall k :: k in removed ==>
            LacksSomething(durations, distances, |order|, k) && 0 <= k < |order| && order[k] != DESTINATION)
      && WornTo(order, Missing(durations, distances, |order|), removed, {})
      && r.value.unroutable == (set k | k in removed && 0 <= k < |order| :: order[k])
      && Reads(durations, |order|, removed, r.value.durations)
      && Reads(distances, |order|, removed, r.value.distances)
    ensures r.DestinationUnreachable? ==> DestinationWorst(order, Missing(durations, distances, |order|))
    ensures r.MostUnreachable? ==> MostFail(order, Missing(durations, distances, |order|))
    ensures forall b :: Broken(order, durations, distances, b) ==>
      if 2 * |b| <= |order| - 1 then r.Done? && r.value.unroutable == (set k | k in b && 0 <= k < |order| :: order[k])
      else r.MostUnreachable?
    ensures (forall k :: 0 <= k < |order| ==> !LacksSomething(durations, distances, |order|, k)) ==>
      r.Done? && r.value.unroutable == {}
  {
    hide Count, Affected, Distinct, ExactlyRows, Reads, Kept, WornTo, Broken, LacksSomething, Missing;
    MissingInTable(durations, distances, |order|);
    var outcome := Eliminate(order, Missing(durations, distances, |order|));
    forall b | Broken(order, durations, distances, b)
      ensures ExactlyRows(order, Missing(durations, distances, |order|), {}, b)
    {
      BrokenAreRows(order, durations, distances, b);
    }
    if forall k :: 0 <= k < |order| ==> !LacksSomething(durations, distances, |order|, k) {
      AllThere(order, durations, distances);
      ghost var none: set<int> := {};
      assert Broken(order, durations, distances, none) && 2 * |none| <= |order| - 1;
    }
    match outcome
    case DestinationUnreachable => r := DestinationUnreachable;
    case MostUnreachable => r := MostUnreachable;
    case Done(removed) =>
      RemovedLack(order, durations, distances, removed);
      KeptIsReadable(durations, distances, |order|, removed);
      var d := ReadTable(durations, |order|, removed);
      var m := ReadTable(distances, |order|, removed);
      r := Done(Estimates(d, m, set k | k in removed && 0 <= k < |order| :: order[k]));
  }
}
