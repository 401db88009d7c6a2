/** The exact sequencer: a table over visited subsets, filled forward and read back. */
module HeldKarp {
  import opened Models
  import opened Bits
  import opened Legs

  /** A table entry: infinity until some order reaches it. */
  datatype Entry = Infinite | Finite(v: real)

  predicate AtMost(a: Entry, b: Entry) {
    b.Infinite? || (a.Finite? && a.v <= b.v)
  }

  function Plus(a: Entry, d: real): Entry {
    if a.Infinite? then Infinite else Finite(a.v + d)
  }

  /** `best` and `came_from`, indexed by visited mask and last stop. */
  datatype Tables = Tables(best: seq<seq<Entry>>, came: seq<seq<int>>)

  ghost predicate Shape(n: nat, tab: Tables) {
    && |tab.best| == |tab.came| == Pow2(n)
    && forall t :: 0 <= t < Pow2(n) ==> |tab.best[t]| == |tab.came[t]| == n
  }

  /** A finite entry is the first edge, or a finite entry of an earlier mask plus one edge. */
  ghost predicate Sound(leg: Leg, stops: seq<NodeId>, tab: Tables, t: nat, k: nat, limit: int)
    requires Shape(|stops|, tab) && t < Pow2(|stops|) && k < |stops|
  {
    tab.best[t][k].Finite? ==>
      && Bit(t, k)
      && var prev, from := FlipBit(t, k), tab.came[t][k];
         if from == -1 then
           prev == 0 && tab.best[t][k].v == Edge(leg, 0, leg.origin, stops[k])
         else
           && 0 <= from < |stops| && prev < t && prev <= limit
           && Bit(prev, from)
           && tab.best[prev][from].Finite?
           && tab.best[t][k].v == tab.best[prev][from].v + Edge(leg, BitCount(prev), stops[from], stops[k])
  }

  ghost predicate AllSound(leg: Leg, stops: seq<NodeId>, tab: Tables, limit: int)
    requires Shape(|stops|, tab)
  {
    forall t: nat, k: nat :: t < Pow2(|stops|) && k < |stops| ==> Sound(leg, stops, tab, t, k, limit)
  }

  /** Going from stop `j` with `mask` visited to the unvisited stop `k` has been considered. */
  ghost predicate Relaxed(leg: Leg, stops: seq<NodeId>, tab: Tables, mask: nat, j: nat, k: nat)
    requires Shape(|stops|, tab) && mask < Pow2(|stops|) && j < |stops| && k < |stops|
  {
    Bit(mask, j) && !Bit(mask, k) ==>
      && SetBit(mask, k) < Pow2(|stops|)
      && AtMost(tab.best[SetBit(mask, k)][k],
                Plus(tab.best[mask][j], Edge(leg, BitCount(mask), stops[j], stops[k])))
  }

  ghost predicate FirstEdges(leg: Leg, stops: seq<NodeId>, tab: Tables)
    requires Shape(|stops|, tab)
  {
    forall k: nat :: k < |stops| ==>
      && SetBit(0, k) < Pow2(|stops|)
      && AtMost(tab.best[SetBit(0, k)][k], Finite(Edge(leg, 0, leg.origin, stops[k])))
  }

  /** Entries only ever improve, and the rows up to `mask` are final. */
  ghost predicate Improved(n: nat, a: Tables, b: Tables, mask: int)
    requires Shape(n, a) && Shape(n, b)
  {
    && (forall t: nat, k: nat :: t < Pow2(n) && k < n ==> AtMost(b.best[t][k], a.best[t][k]))
    && (forall t: nat :: t < Pow2(n) && t <= mask ==> b.best[t] == a.best[t])
  }

  ghost predicate InitialEntry(leg: Leg, stops: seq<NodeId>, tab: Tables, upTo: nat, t: nat, k: nat)
    requires Shape(|stops|, tab) && t < Pow2(|stops|) && k < |stops|
  {
    && tab.came[t][k] == -1
    && tab.best[t][k] == if k < upTo && t == Pow2(k) then Finite(Edge(leg, 0, leg.origin, stops[k]))
                         else Infinite
  }

  /** Both tables before the first mask: only the first edges are known. */
  ghost predicate Initial(leg: Leg, stops: seq<NodeId>, tab: Tables, upTo: nat)
    requires Shape(|stops|, tab)
  {
    forall t: nat, k: nat :: t < Pow2(|stops|) && k < |stops| ==> InitialEntry(leg, stops, tab, upTo, t, k)
  }

  function Write(tab: Tables, t: nat, k: nat, v: real, from: int): (r: Tables)
    requires t < |tab.best| == |tab.came| && k < |tab.best[t]| && k < |tab.came[t]|
  {
    Tables(tab.best[t := tab.best[t][k := Finite(v)]], tab.came[t := tab.came[t][k := from]])
  }

  lemma WriteFacts(n: nat, tab: Tables, t: nat, k: nat, v: real, from: int)
    requires Shape(n, tab) && t < Pow2(n) && k < n
    ensures Shape(n, Write(tab, t, k, v, from))
    ensures Write(tab, t, k, v, from).best[t][k] == Finite(v)
    ensures Write(tab, t, k, v, from).came[t][k] == from
    ensures forall t': nat, k': nat :: t' < Pow2(n) && k' < n && !(t' == t && k' == k) ==>
              && Write(tab, t, k, v, from).best[t'][k'] == tab.best[t'][k']
              && Write(tab, t, k, v, from).came[t'][k'] == tab.came[t'][k']
  {
  }

  lemma InitialStep(leg: Leg, stops: seq<NodeId>, tab: Tables, k: nat)
    requires Shape(|stops|, tab) && Initial(leg, stops, tab, k) && k < |stops|
    requires Pow2(k) < Pow2(|stops|)
    ensures var after := Write(tab, Pow2(k), k, Edge(leg, 0, leg.origin, stops[k]), -1);
      Shape(|stops|, after) && Initial(leg, stops, after, k + 1)
  {
    var cost := Edge(leg, 0, leg.origin, stops[k]);
    WriteFacts(|stops|, tab, Pow2(k), k, cost, -1);
    var after, next := Write(tab, Pow2(k), k, cost, -1), k + 1;
    forall t: nat, i: nat | t < Pow2(|stops|) && i < |stops|
      ensures InitialEntry(leg, stops, after, next, t, i)
    {
      assert InitialEntry(leg, stops, tab, k, t, i);
    }
  }

  lemma BlankIsInitial(leg: Leg, stops: seq<NodeId>, tab: Tables)
    requires Shape(|stops|, tab)
    requires forall t: nat, k: nat :: t < Pow2(|stops|) && k < |stops| ==>
      tab.best[t][k] == Infinite && tab.came[t][k] == -1
    ensures Initial(leg, stops, tab, 0)
  {
  }

  method InitTables(leg: Leg, stops: seq<NodeId>) returns (tab: Tables)
    ensures Shape(|stops|, tab) && Initial(leg, stops, tab, |stops|)
  {
    hide Initial, Write;
    var n := |stops|;
    tab := Tables(seq(Pow2(n), _ => seq(n, _ => Infinite)), seq(Pow2(n), _ => seq(n, _ => -1)));
    BlankIsInitial(leg, stops, tab);
    var departureRate := Rate(leg, 0);
    for k := 0 to n
      invariant Shape(n, tab) && Initial(leg, stops, tab, k)
    {
      SetBitBelow(0, k, n);
      SingleBit(k);
      InitialStep(leg, stops, tab, k);
      var cost := Duration(leg.matrix, leg.origin, stops[k]) as real * departureRate;
      assert cost == Edge(leg, 0, leg.origin, stops[k]);
      tab := Write(tab, Pow2(k), k, cost, -1);
    }
  }

  lemma InitialSound(leg: Leg, stops: seq<NodeId>, tab: Tables)
    requires Shape(|stops|, tab) && Initial(leg, stops, tab, |stops|)
    ensures AllSound(leg, stops, tab, -1)
    ensures FirstEdges(leg, stops, tab)
  {
    forall t: nat, k: nat | t < Pow2(|stops|) && k < |stops|
      ensures Sound(leg, stops, tab, t, k, -1)
    {
      assert InitialEntry(leg, stops, tab, |stops|, t, k);
      SingleBit(k);
      ZeroHasNoBits(k);
      SetBitMembers(0, k, k);
      SetBitGrows(0, k);
    }
    forall k: nat | k < |stops|
      ensures SetBit(0, k) < Pow2(|stops|)
           && AtMost(tab.best[SetBit(0, k)][k], Finite(Edge(leg, 0, leg.origin, stops[k])))
    {
      SingleBit(k);
      SetBitBelow(0, k, |stops|);
      assert InitialEntry(leg, stops, tab, |stops|, Pow2(k), k);
    }
  }

  /** Writing a sound entry above every finished row keeps the whole table sound. */
  lemma WriteSound(leg: Leg, stops: seq<NodeId>, tab: Tables, mask: nat, j: nat, k: nat, v: real)
    requires Shape(|stops|, tab) && mask < Pow2(|stops|) && j < |stops| && k < |stops|
    requires Bit(mask, j) && !Bit(mask, k) && tab.best[mask][j].Finite?
    requires v == tab.best[mask][j].v + Edge(leg, BitCount(mask), stops[j], stops[k])
    requires AllSound(leg, stops, tab, mask) && SetBit(mask, k) < Pow2(|stops|)
    ensures Shape(|stops|, Write(tab, SetBit(mask, k), k, v, j))
    ensures AllSound(leg, stops, Write(tab, SetBit(mask, k), k, v, j), mask)
  {
    var target := SetBit(mask, k);
    SetBitGrows(mask, k);
    SetBitMembers(mask, k, k);
    WriteFacts(|stops|, tab, target, k, v, j);
    var after := Write(tab, target, k, v, j);
    forall t: nat, i: nat | t < Pow2(|stops|) && i < |stops|
      ensures Sound(leg, stops, after, t, i, mask)
    {
      assert Sound(leg, stops, tab, t, i, mask);
    }
  }

  /** One step of the innermost loop: try reaching `k` from `j` with `mask` visited. */
  method RelaxEdge(leg: Leg, stops: seq<NodeId>, tab: Tables, mask: nat, j: nat, k: nat,
                   costSoFar: real, rate: real)
    returns (after: Tables)
    requires Shape(|stops|, tab) && mask < Pow2(|stops|) && j < |stops| && k < |stops|
    requires Bit(mask, j) && !Bit(mask, k) && tab.best[mask][j] == Finite(costSoFar)
    requires rate == Rate(leg, BitCount(mask))
    requires AllSound(leg, stops, tab, mask)
    ensures Shape(|stops|, after) && AllSound(leg, stops, after, mask)
    ensures Improved(|stops|, tab, after, mask)
    ensures Relaxed(leg, stops, after, mask, j, k)
  {
    hide Pow2, BitCount, Bit, SetBit, Write;
    SetBitGrows(mask, k);
    SetBitBelow(mask, k, |stops|);
    var candidate := costSoFar + Duration(leg.matrix, stops[j], stops[k]) as real * rate;
    var target := SetBit(mask, k);
    if AtMost(tab.best[target][k], Finite(candidate)) {
      after := tab;
    } else {
      after := Write(tab, target, k, candidate, j);
      WriteSound(leg, stops, tab, mask, j, k, candidate);
      WriteFacts(|stops|, tab, target, k, candidate, j);
    }
  }

  lemma ImprovedTrans(n: nat, a: Tables, b: Tables, c: Tables, mask: int)
    requires Shape(n, a) && Shape(n, b) && Shape(n, c)
    requires Improved(n, a, b, mask) && Improved(n, b, c, mask)
    ensures Improved(n, a, c, mask)
  {
    forall t: nat, k: nat | t < Pow2(n) && k < n ensures AtMost(c.best[t][k], a.best[t][k]) {
      assert AtMost(b.best[t][k], a.best[t][k]) && AtMost(c.best[t][k], b.best[t][k]);
    }
  }

  lemma RelaxedKept(leg: Leg, stops: seq<NodeId>, a: Tables, b: Tables, limit: int, mask: nat, j: nat, k: nat)
    requires Shape(|stops|, a) && Shape(|stops|, b) && Improved(|stops|, a, b, limit)
    requires mask < Pow2(|stops|) && j < |stops| && k < |stops| && mask <= limit
    requires Relaxed(leg, stops, a, mask, j, k)
    ensures Relaxed(leg, stops, b, mask, j, k)
  {
    if Bit(mask, j) && !Bit(mask, k) {
      assert AtMost(b.best[SetBit(mask, k)][k], a.best[SetBit(mask, k)][k]);
    }
  }

  ghost predicate RelaxedFrom(leg: Leg, stops: seq<NodeId>, tab: Tables, mask: nat, j: nat)
    requires Shape(|stops|, tab) && mask < Pow2(|stops|) && j < |stops|
  {
    forall k: nat :: k < |stops| ==> Relaxed(leg, stops, tab, mask, j, k)
  }

  /** The loop over `k`: extend the orders ending at `j` by every unvisited stop. */
  method RelaxStop(leg: Leg, stops: seq<NodeId>, tab: Tables, mask: nat, j: nat, rate: real)
    returns (after: Tables)
    requires Shape(|stops|, tab) && mask < Pow2(|stops|) && j < |stops| && Bit(mask, j)
    requires rate == Rate(leg, BitCount(mask))
    requires AllSound(leg, stops, tab, mask)
    ensures Shape(|stops|, after) && AllSound(leg, stops, after, mask)
    ensures Improved(|stops|, tab, after, mask)
    ensures RelaxedFrom(leg, stops, after, mask, j)
  {
    hide Pow2, BitCount, Bit, SetBit, AllSound;
    after := tab;
    var costSoFar := tab.best[mask][j];
    if costSoFar.Infinite? {
      forall k: nat | k < |stops| ensures Relaxed(leg, stops, after, mask, j, k) {
        if !Bit(mask, k) {
          SetBitBelow(mask, k, |stops|);
        }
      }
      return;
    }
    for k := 0 to |stops|
      invariant Shape(|stops|, after) && AllSound(leg, stops, after, mask)
      invariant Improved(|stops|, tab, after, mask)
      invariant forall i: nat :: i < k ==> Relaxed(leg, stops, after, mask, j, i)
    {
      if !Bit(mask, k) {
        var before := after;
        after := RelaxEdge(leg, stops, before, mask, j, k, costSoFar.v, rate);
        ImprovedTrans(|stops|, tab, before, after, mask);
        forall i: nat | i < k ensures Relaxed(leg, stops, after, mask, j, i) {
          RelaxedKept(leg, stops, before, after, mask, mask, j, i);
        }
      }
    }
  }

  lemma RelaxedFromKept(leg: Leg, stops: seq<NodeId>, a: Tables, b: Tables, limit: int, mask: nat, j: nat)
    requires Shape(|stops|, a) && Shape(|stops|, b) && Improved(|stops|, a, b, limit)
    requires mask < Pow2(|stops|) && j < |stops| && mask <= limit
    requires RelaxedFrom(leg, stops, a, mask, j)
    ensures RelaxedFrom(leg, stops, b, mask, j)
  {
    forall k: nat | k < |stops| ensures Relaxed(leg, stops, b, mask, j, k) {
      RelaxedKept(leg, stops, a, b, limit, mask, j, k);
    }
  }

  ghost predicate RowDone(leg: Leg, stops: seq<NodeId>, tab: Tables, mask: nat)
    requires Shape(|stops|, tab) && mask < Pow2(|stops|)
  {
    forall j: nat :: j < |stops| && Bit(mask, j) ==> RelaxedFrom(leg, stops, tab, mask, j)
  }

  /** The loop over `j`: every order visiting exactly `mask`. */
  method RelaxMask(leg: Leg, stops: seq<NodeId>, tab: Tables, mask: nat) returns (after: Tables)
    requires Shape(|stops|, tab) && mask < Pow2(|stops|)
    requires AllSound(leg, stops, tab, mask)
    ensures Shape(|stops|, after) && AllSound(leg, stops, after, mask)
    ensures Improved(|stops|, tab, after, mask)
    ensures RowDone(leg, stops, after, mask)
  {
    hide Pow2, BitCount, Bit, AllSound, RelaxedFrom;
    after := tab;
    var rate := Rate(leg, BitCount(mask));
    for j := 0 to |stops|
      invariant Shape(|stops|, after) && AllSound(leg, stops, after, mask)
      invariant Improved(|stops|, tab, after, mask)
      invariant forall i: nat :: i < j && Bit(mask, i) ==> RelaxedFrom(leg, stops, after, mask, i)
    {
      if Bit(mask, j) {
        var before := after;
        after := RelaxStop(leg, stops, before, mask, j, rate);
        ImprovedTrans(|stops|, tab, before, after, mask);
        forall i: nat | i < j && Bit(mask, i) ensures RelaxedFrom(leg, stops, after, mask, i) {
          RelaxedFromKept(leg, stops, before, after, mask, mask, i);
        }
      }
    }
  }

  lemma RowDoneKept(leg: Leg, stops: seq<NodeId>, a: Tables, b: Tables, limit: int, mask: nat)
    requires Shape(|stops|, a) && Shape(|stops|, b) && Improved(|stops|, a, b, limit)
    requires mask < Pow2(|stops|) && mask <= limit
    requires RowDone(leg, stops, a, mask)
    ensures RowDone(leg, stops, b, mask)
  {
    forall j: nat | j < |stops| && Bit(mask, j) ensures RelaxedFrom(leg, stops, b, mask, j) {
      RelaxedFromKept(leg, stops, a, b, limit, mask, j);
    }
  }

  lemma SoundWider(leg: Leg, stops: seq<NodeId>, tab: Tables, limit: int, wider: int)
    requires Shape(|stops|, tab) && AllSound(leg, stops, tab, limit) && limit <= wider
    ensures AllSound(leg, stops, tab, wider)
  {
    forall t: nat, k: nat | t < Pow2(|stops|) && k < |stops|
      ensures Sound(leg, stops, tab, t, k, wider)
    {
      assert Sound(leg, stops, tab, t, k, limit);
    }
  }

  /** Everything the finished tables promise. */
  ghost predicate Complete(leg: Leg, stops: seq<NodeId>, tab: Tables)
    requires Shape(|stops|, tab)
  {
    && AllSound(leg, stops, tab, Pow2(|stops|))
    && FirstEdges(leg, stops, tab)
    && forall m: nat :: m < Pow2(|stops|) ==> RowDone(leg, stops, tab, m)
  }

  method FillTables(leg: Leg, stops: seq<NodeId>) returns (tab: Tables)
    ensures Shape(|stops|, tab) && Complete(leg, stops, tab)
  {
    tab := InitTables(leg, stops);
    InitialSound(leg, stops, tab);
    for mask := 0 to Pow2(|stops|)
      invariant Shape(|stops|, tab) && AllSound(leg, stops, tab, mask - 1)
      invariant FirstEdges(leg, stops, tab)
      invariant forall m: nat :: m < mask ==> RowDone(leg, stops, tab, m)
    {
      var before := tab;
      SoundWider(leg, stops, before, mask - 1, mask);
      tab := RelaxMask(leg, stops, before, mask);
      forall m: nat | m < mask ensures RowDone(leg, stops, tab, m) {
        RowDoneKept(leg, stops, before, tab, mask, m);
      }
    }
    SoundWider(leg, stops, tab, Pow2(|stops|) - 1, Pow2(|stops|));
  }

  /** The indices reached by following `came_from` back from stop `j` with `mask` visited. */
  ghost function Trace(n: nat, tab: Tables, mask: nat, j: int): seq<nat>
    requires Shape(n, tab) && mask < Pow2(n)
    decreases mask
  {
    if 0 <= j < n && Bit(mask, j) then
      FlipBitShrinks(mask, j);
      Trace(n, tab, FlipBit(mask, j), tab.came[mask][j]) + [j]
    else
      []
  }

  /** The set of indices in `p`, as a mask. */
  ghost function MaskOf(p: seq<nat>): nat {
    if p == [] then 0 else SetBit(MaskOf(p[..|p| - 1]), p[|p| - 1])
  }

  lemma {:induction false} MaskOfMembers(p: seq<nat>, x: nat)
    ensures Bit(MaskOf(p), x) <==> x in p
  {
    if p == [] {
      ZeroHasNoBits(x);
    } else {
      var front := p[..|p| - 1];
      MaskOfMembers(front, x);
      SetBitMembers(MaskOf(front), p[|p| - 1], x);
      assert p == front + [p[|p| - 1]];
    }
  }

  lemma {:induction false} MaskOfBelow(p: seq<nat>, n: nat)
    requires Indices(p, n)
    ensures MaskOf(p) < Pow2(n)
  {
    if p != [] {
      MaskOfBelow(p[..|p| - 1], n);
      SetBitBelow(MaskOf(p[..|p| - 1]), p[|p| - 1], n);
    }
  }

  lemma {:induction false} MaskOfCount(p: seq<nat>)
    requires Distinct(p)
    ensures BitCount(MaskOf(p)) == |p|
  {
    if p != [] {
      var front, last := p[..|p| - 1], p[|p| - 1];
      MaskOfCount(front);
      MaskOfMembers(front, last);
      SetBitGrows(MaskOf(front), last);
    }
  }

  lemma MaskOfPermutation(p: seq<nat>, n: nat)
    requires IsPermutation(p, n)
    ensures MaskOf(p) == Pow2(n) - 1
  {
    forall x: nat ensures Bit(MaskOf(p), x) <==> Bit(Pow2(n) - 1, x) {
      MaskOfMembers(p, x);
      FullMask(n, x);
      if x < n {
        PermutationCovers(p, n, x);
      }
    }
    SameBits(MaskOf(p), Pow2(n) - 1);
  }

  lemma MaskOfAppend(p: seq<nat>, k: nat)
    ensures MaskOf(p + [k]) == SetBit(MaskOf(p), k)
  {
    assert (p + [k])[..|p|] == p;
  }

  /** What a finite entry stands for: a real order visiting `mask`, ending at `j`, at that cost. */
  ghost predicate IsOrder(leg: Leg, stops: seq<NodeId>, p: seq<nat>, mask: nat, j: nat, cost: real) {
    && |p| > 0 && p[|p| - 1] == j
    && Distinct(p) && Indices(p, |stops|)
    && MaskOf(p) == mask
    && PrefixCost(leg, stops, p) == cost
  }

  lemma {:induction false} TraceIsOrder(leg: Leg, stops: seq<NodeId>, tab: Tables, mask: nat, j: nat)
    requires Shape(|stops|, tab) && AllSound(leg, stops, tab, Pow2(|stops|))
    requires mask < Pow2(|stops|) && j < |stops| && tab.best[mask][j].Finite?
    ensures Bit(mask, j)
    ensures IsOrder(leg, stops, Trace(|stops|, tab, mask, j), mask, j, tab.best[mask][j].v)
    decreases mask
  {
    assert Sound(leg, stops, tab, mask, j, Pow2(|stops|));
    FlipBitShrinks(mask, j);
    var prev, from := FlipBit(mask, j), tab.came[mask][j];
    var front := Trace(|stops|, tab, prev, from);
    FlipBitMembers(mask, j, j);
    if from != -1 {
      TraceIsOrder(leg, stops, tab, prev, from);
      MaskOfCount(front);
    }
    MaskOfMembers(front, j);
    ExtendOrder(leg, stops, front, j);
  }

  lemma ExtendOrder(leg: Leg, stops: seq<NodeId>, p: seq<nat>, j: nat)
    requires Distinct(p) && Indices(p, |stops|) && j < |stops| && j !in p
    ensures IsOrder(leg, stops, p + [j], SetBit(MaskOf(p), j), j,
                    PrefixCost(leg, stops, p)
                    + Edge(leg, |p|, if p == [] then leg.origin else stops[p[|p| - 1]], stops[j]))
  {
    MaskOfAppend(p, j);
    PrefixCostStep(leg, stops, p, j);
  }

  /** No order beats the table: every way of visiting a subset costs at least its entry. */
  lemma {:induction false} TableIsLowerBound(leg: Leg, stops: seq<NodeId>, tab: Tables, p: seq<nat>)
    requires Shape(|stops|, tab) && Complete(leg, stops, tab)
    requires |p| > 0 && Distinct(p) && Indices(p, |stops|)
    ensures MaskOf(p) < Pow2(|stops|)
    ensures AtMost(tab.best[MaskOf(p)][p[|p| - 1]], Finite(PrefixCost(leg, stops, p)))
  {
    var front, k := p[..|p| - 1], p[|p| - 1];
    assert p == front + [k];
    MaskOfBelow(p, |stops|);
    PrefixCostStep(leg, stops, front, k);
    MaskOfAppend(front, k);
    if |p| == 1 {
      assert PrefixCost(leg, stops, front) == 0.0;
    } else {
      TableIsLowerBound(leg, stops, tab, front);
      var j := front[|front| - 1];
      MaskOfCount(front);
      MaskOfMembers(front, k);
      MaskOfMembers(front, j);
      assert RowDone(leg, stops, tab, MaskOf(front));
      assert RelaxedFrom(leg, stops, tab, MaskOf(front), j);
      assert Relaxed(leg, stops, tab, MaskOf(front), j, k);
    }
  }

  ghost predicate CheapestLast(leg: Leg, stops: seq<NodeId>, row: seq<Entry>, last: nat)
    requires |row| == |stops| && last < |stops|
  {
    forall j: nat :: j < |stops| ==>
      AtMost(Plus(row[last], Edge(leg, |stops|, stops[last], leg.terminus)),
             Plus(row[j], Edge(leg, |stops|, stops[j], leg.terminus)))
  }

  lemma EdgeIs(leg: Leg, visited: int, a: NodeId, b: NodeId)
    ensures Edge(leg, visited, a, b) == Duration(leg.matrix, a, b) as real * Rate(leg, visited)
  {
  }

  /** The stop to end on: cheapest once the last edge is added, the earliest such on a tie. */
  method PickLast(leg: Leg, stops: seq<NodeId>, row: seq<Entry>) returns (last: nat)
    requires |stops| > 0 && |row| == |stops|
    ensures last < |stops| && CheapestLast(leg, stops, row, last)
  {
    hide Edge, Rate, Duration;
    last := 0;
    var finalRate := Rate(leg, |stops|);
    EdgeIs(leg, |stops|, stops[0], leg.terminus);
    var cheapest := Plus(row[0], Duration(leg.matrix, stops[0], leg.terminus) as real * finalRate);
    for i := 1 to |stops|
      invariant last < |stops|
      invariant cheapest == Plus(row[last], Edge(leg, |stops|, stops[last], leg.terminus))
      invariant forall j: nat :: j < i ==>
        AtMost(cheapest, Plus(row[j], Edge(leg, |stops|, stops[j], leg.terminus)))
    {
      EdgeIs(leg, |stops|, stops[i], leg.terminus);
      var total := Plus(row[i], Duration(leg.matrix, stops[i], leg.terminus) as real * finalRate);
      if !AtMost(cheapest, total) {
        last, cheapest := i, total;
      }
    }
  }

  /** Reading the order back through `came_from`; the list is built last stop first and reversed. */
  method Rebuild(ghost leg: Leg, stops: seq<NodeId>, tab: Tables, full: nat, last: nat) returns (order: seq<NodeId>)
    requires Shape(|stops|, tab) && full < Pow2(|stops|) && last < |stops|
    requires AllSound(leg, stops, tab, Pow2(|stops|))
    requires tab.best[full][last].Finite?
    ensures Indices(Trace(|stops|, tab, full, last), |stops|)
    ensures order == Pick(stops, Trace(|stops|, tab, full, last))
  {
    hide Pow2, Edge, BitCount;
    var mask: nat, j: int := full, last;
    order := [];
    ghost var back: seq<nat> := [];
    while j != -1
      invariant mask < Pow2(|stops|) && -1 <= j < |stops|
      invariant j >= 0 ==> tab.best[mask][j].Finite?
      invariant Indices(back, |stops|) && order == Pick(stops, back)
      invariant Trace(|stops|, tab, full, last) == Trace(|stops|, tab, mask, j) + back
      decreases mask, j
    {
      assert Sound(leg, stops, tab, mask, j, Pow2(|stops|));
      FlipBitShrinks(mask, j);
      assert stops[j] == Pick(stops, [j] + back)[0];
      assert [stops[j]] + order == Pick(stops, [j] + back);
      order, back := [stops[j]] + order, [j as nat] + back;
      mask, j := FlipBit(mask, j), tab.came[mask][j];
    }
  }

  lemma LastIsFinite(leg: Leg, stops: seq<NodeId>, tab: Tables, last: nat)
    requires Shape(|stops|, tab) && Complete(leg, stops, tab) && last < |stops|
    requires CheapestLast(leg, stops, tab.best[Pow2(|stops|) - 1], last)
    ensures tab.best[Pow2(|stops|) - 1][last].Finite?
  {
    hide MaskOf, Pow2, Complete, PrefixCost, Edge;
    var n := |stops|;
    var p := seq(n, i requires 0 <= i < n => i as nat);
    MaskOfPermutation(p, n);
    TableIsLowerBound(leg, stops, tab, p);
    assert tab.best[Pow2(n) - 1][p[n - 1]].Finite?;
  }

  lemma TraceIsPermutation(leg: Leg, stops: seq<NodeId>, p: seq<nat>, last: nat, cost: real)
    requires IsOrder(leg, stops, p, Pow2(|stops|) - 1, last, cost)
    ensures IsPermutation(p, |stops|)
  {
    hide MaskOf, Pow2, PrefixCost;
    var n := |stops|;
    var q := seq(n, i requires 0 <= i < n => i as nat);
    MaskOfPermutation(q, n);
    MaskOfCount(q);
    MaskOfCount(p);
  }

  /** A complete order costs at least its last entry plus the edge to the terminus. */
  lemma OrderBounded(leg: Leg, stops: seq<NodeId>, tab: Tables, r: seq<nat>)
    requires Shape(|stops|, tab) && Complete(leg, stops, tab) && |stops| > 0
    requires IsPermutation(r, |stops|)
    ensures var last := r[|r| - 1];
      AtMost(Plus(tab.best[Pow2(|stops|) - 1][last], Edge(leg, |stops|, stops[last], leg.terminus)),
             Finite(Cost(leg, Pick(stops, r))))
  {
    hide MaskOf, Pow2, Complete, PrefixCost, Cost, Pick, Edge;
    MaskOfPermutation(r, |stops|);
    TableIsLowerBound(leg, stops, tab, r);
    CostOfPick(leg, stops, r);
  }

  lemma LastIsOptimal(leg: Leg, stops: seq<NodeId>, tab: Tables, last: nat, p: seq<nat>, q: seq<NodeId>)
    requires Shape(|stops|, tab) && Complete(leg, stops, tab) && last < |stops|
    requires CheapestLast(leg, stops, tab.best[Pow2(|stops|) - 1], last)
    requires tab.best[Pow2(|stops|) - 1][last].Finite?
    requires IsOrder(leg, stops, p, Pow2(|stops|) - 1, last, tab.best[Pow2(|stops|) - 1][last].v)
    requires |p| == |stops|
    requires multiset(q) == multiset(stops)
    ensures Cost(leg, Pick(stops, p)) <= Cost(leg, q)
  {
    hide MaskOf, Pow2, Complete, PrefixCost, Cost, Edge;
    var r := OrderAsPick(stops, q);
    OrderBounded(leg, stops, tab, r);
    CostOfPick(leg, stops, p);
    assert r[|r| - 1] < |stops|;
  }

  /** `_held_karp`: an order of the stops that no other order beats. */
  method HeldKarp(leg: Leg, stops: seq<NodeId>) returns (order: seq<NodeId>)
    requires |stops| > 0
    ensures multiset(order) == multiset(stops)
    ensures forall q :: multiset(q) == multiset(stops) ==> Cost(leg, order) <= Cost(leg, q)
  {
    hide MaskOf, Pow2, Complete, Cost;
    var tab := FillTables(leg, stops);
    var full := Pow2(|stops|) - 1;
    var last := PickLast(leg, stops, tab.best[full]);
    LastIsFinite(leg, stops, tab, last);
    TraceIsOrder(leg, stops, tab, full, last);
    order := Rebuild(leg, stops, tab, full, last);
    ghost var p := Trace(|stops|, tab, full, last);
    TraceIsPermutation(leg, stops, p, last, tab.best[full][last].v);
    PickKeepsStops(stops, p);
    forall q | multiset(q) == multiset(stops) ensures Cost(leg, order) <= Cost(leg, q) {
      LastIsOptimal(leg, stops, tab, last, p, q);
    }
  }
}
