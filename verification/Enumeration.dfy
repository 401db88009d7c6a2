/** Every set of riders up to a size, each once: what the exact model enumerates and how many there are. */
module Enumeration {
  import opened Models
  import opened Seating

  /** `math.comb`, by Pascal's rule. */
  function Comb(n: nat, k: nat): nat {
    if k == 0 then 1 else if n == 0 then 0 else Comb(n - 1, k - 1) + Comb(n - 1, k)
  }

  function Prefixed(x: NodeId, groups: seq<seq<NodeId>>): (r: seq<seq<NodeId>>)
    ensures |r| == |groups| && forall i :: 0 <= i < |r| ==> r[i] == [x] + groups[i]
  {
    seq(|groups|, i requires 0 <= i < |groups| => [x] + groups[i])
  }

  /** `itertools.combinations(s, k)`: in order of position, those with the first element first. */
  function Combinations(s: seq<NodeId>, k: nat): seq<seq<NodeId>> {
    if k == 0 then [[]]
    else if s == [] then []
    else Prefixed(s[0], Combinations(s[1..], k - 1)) + Combinations(s[1..], k)
  }

  /** With the first element, then without it. */
  lemma CombinationsAt(s: seq<NodeId>, k: nat, i: nat)
    requires k > 0 && s != [] && i < |Combinations(s, k)|
    ensures var n := |Combinations(s[1..], k - 1)|;
      && |Combinations(s, k)| == n + |Combinations(s[1..], k)|
      && Combinations(s, k)[i]
         == if i < n then [s[0]] + Combinations(s[1..], k - 1)[i] else Combinations(s[1..], k)[i - n]
  {
  }

  lemma CombinationsSize(s: seq<NodeId>, k: nat)
    requires k > 0 && s != []
    ensures |Combinations(s, k)| == |Combinations(s[1..], k - 1)| + |Combinations(s[1..], k)|
  {
  }

  lemma {:induction false} CombinationsCount(s: seq<NodeId>, k: nat)
    ensures |Combinations(s, k)| == Comb(|s|, k)
  {
    if k > 0 && s != [] {
      CombinationsCount(s[1..], k - 1);
      CombinationsCount(s[1..], k);
    }
  }

  /** A group of `k` different people out of `s`. */
  ghost predicate IsGroup(s: seq<NodeId>, k: nat, c: seq<NodeId>) {
    Distinct(c) && |c| == k && Elements(c) <= Elements(s)
  }

  lemma FirstIsNew(s: seq<NodeId>)
    requires s != [] && Distinct(s)
    ensures Distinct(s[1..]) && s[0] !in Elements(s[1..]) && Elements(s) == {s[0]} + Elements(s[1..])
  {
    assert s == [s[0]] + s[1..];
    assert forall x :: x in Elements(s) <==> x in {s[0]} + Elements(s[1..]);
  }

  lemma WithFirst(s: seq<NodeId>, k: nat, c: seq<NodeId>)
    requires s != [] && Distinct(s) && IsGroup(s[1..], k, c)
    ensures IsGroup(s, k + 1, [s[0]] + c) && Elements([s[0]] + c) == {s[0]} + Elements(c)
  {
    FirstIsNew(s);
    assert s[0] !in Elements(c);
    assert forall x :: x in Elements([s[0]] + c) <==> x in {s[0]} + Elements(c);
  }

  lemma WithoutFirst(s: seq<NodeId>, k: nat, c: seq<NodeId>)
    requires s != [] && Distinct(s) && IsGroup(s[1..], k, c)
    ensures IsGroup(s, k, c)
  {
    FirstIsNew(s);
  }

  lemma {:induction false} CombinationsAreGroups(s: seq<NodeId>, k: nat, i: nat)
    requires Distinct(s) && i < |Combinations(s, k)|
    ensures IsGroup(s, k, Combinations(s, k)[i])
  {
    if k == 0 {
    } else {
      hide IsGroup, Distinct;
      FirstIsNew(s);
      var with := Combinations(s[1..], k - 1);
      if i < |with| {
        CombinationsAreGroups(s[1..], k - 1, i);
        WithFirst(s, k - 1, with[i]);
      } else {
        CombinationsAreGroups(s[1..], k, i - |with|);
        WithoutFirst(s, k, Combinations(s[1..], k)[i - |with|]);
      }
    }
  }

  /** Every set of the right size is enumerated; says where. */
  lemma {:induction false} CombinationsComplete(s: seq<NodeId>, k: nat, t: set<NodeId>) returns (i: nat)
    requires Distinct(s) && t <= Elements(s) && |t| == k
    ensures i < |Combinations(s, k)| && Elements(Combinations(s, k)[i]) == t
    decreases |s|, 1
  {
    if k == 0 {
      hide Elements, Distinct;
      NoElements();
      i := 0;
      assert t == {};
    } else {
      i := CombinationsCompleteStep(s, k, t);
    }
  }

  lemma {:induction false} CombinationsCompleteStep(s: seq<NodeId>, k: nat, t: set<NodeId>) returns (i: nat)
    requires Distinct(s) && t <= Elements(s) && |t| == k > 0
    ensures i < |Combinations(s, k)| && Elements(Combinations(s, k)[i]) == t
    decreases |s|, 0
  {
    hide Distinct, Elements, Combinations, IsGroup;
    SomeElement(s, t);
    FirstIsNew(s);
    CombinationsSize(s, k);
    var with := Combinations(s[1..], k - 1);
    if s[0] in t {
      i := CombinationsComplete(s[1..], k - 1, t - {s[0]});
      CombinationsAt(s, k, i);
      CombinationsAreGroups(s[1..], k - 1, i);
      WithFirst(s, k - 1, with[i]);
      assert t == {s[0]} + (t - {s[0]});
    } else {
      var j := CombinationsComplete(s[1..], k, t);
      i := |with| + j;
      CombinationsAt(s, k, i);
    }
  }

  lemma NoElements()
    ensures Elements([]) == {}
  {
    assert forall x :: x in Elements([]) <==> x in {};
  }

  lemma SomeElement(s: seq<NodeId>, t: set<NodeId>)
    requires t <= Elements(s) && |t| > 0
    ensures s != []
  {
    NoElements();
    assert s == [] ==> t <= {};
  }

  /** No set is enumerated twice. */
  lemma {:induction false} CombinationsDiffer(s: seq<NodeId>, k: nat, i: nat, j: nat)
    requires Distinct(s) && i < j < |Combinations(s, k)|
    ensures Elements(Combinations(s, k)[i]) != Elements(Combinations(s, k)[j])
  {
    hide Distinct, Elements, Combinations, IsGroup;
    SeveralGroups(s, k);
    FirstIsNew(s);
    CombinationsAt(s, k, i);
    CombinationsAt(s, k, j);
    var x, with, rest := s[0], Combinations(s[1..], k - 1), Combinations(s[1..], k);
    if i >= |with| {
      CombinationsDiffer(s[1..], k, i - |with|, j - |with|);
    } else if j < |with| {
      CombinationsDiffer(s[1..], k - 1, i, j);
      BothWithFirst(s, k - 1, with[i], with[j], i, j);
    } else {
      CombinationsAreGroups(s[1..], k - 1, i);
      CombinationsAreGroups(s[1..], k, j - |with|);
      OnlyOneWithFirst(s, k, with[i], rest[j - |with|]);
    }
  }

  lemma SeveralGroups(s: seq<NodeId>, k: nat)
    requires |Combinations(s, k)| > 1
    ensures k > 0 && s != []
  {
  }

  lemma OnlyOneWithFirst(s: seq<NodeId>, k: nat, a: seq<NodeId>, b: seq<NodeId>)
    requires k > 0 && s != [] && Distinct(s) && IsGroup(s[1..], k - 1, a) && IsGroup(s[1..], k, b)
    ensures Elements([s[0]] + a) != Elements(b)
  {
    FirstIsNew(s);
    WithFirst(s, k - 1, a);
    hide Elements;
    assert s[0] in Elements([s[0]] + a) && s[0] !in Elements(b);
  }

  lemma BothWithFirst(s: seq<NodeId>, k: nat, a: seq<NodeId>, b: seq<NodeId>, i: nat, j: nat)
    requires s != [] && Distinct(s) && i < |Combinations(s[1..], k)| && j < |Combinations(s[1..], k)|
    requires a == Combinations(s[1..], k)[i] && b == Combinations(s[1..], k)[j]
    requires Elements(a) != Elements(b)
    ensures Elements([s[0]] + a) != Elements([s[0]] + b)
  {
    hide Distinct, Elements, Combinations;
    FirstIsNew(s);
    CombinationsAreGroups(s[1..], k, i);
    CombinationsAreGroups(s[1..], k, j);
    WithFirst(s, k, a);
    WithFirst(s, k, b);
    StillDiffer(s[0], Elements(a), Elements(b), Elements(s[1..]));
  }

  lemma StillDiffer(x: NodeId, a: set<NodeId>, b: set<NodeId>, among: set<NodeId>)
    requires a <= among && b <= among && x !in among && a != b
    ensures {x} + a != {x} + b
  {
    assert {x} + a - {x} == a && {x} + b - {x} == b;
  }

  // ---- Up to a size ----------------------------------------------------------------------------------

  /** All groups of fewer than `n`, smaller ones first. */
  function Groups(s: seq<NodeId>, n: nat): seq<seq<NodeId>> {
    if n == 0 then [] else Groups(s, n - 1) + Combinations(s, n - 1)
  }

  function CombSum(m: nat, n: nat): nat {
    if n == 0 then 0 else CombSum(m, n - 1) + Comb(m, n - 1)
  }

  lemma {:induction false} GroupsCount(s: seq<NodeId>, n: nat)
    ensures |Groups(s, n)| == CombSum(|s|, n)
  {
    if n > 0 {
      GroupsCount(s, n - 1);
      CombinationsCount(s, n - 1);
    }
  }

  lemma {:induction false} GroupsAreGroups(s: seq<NodeId>, n: nat, i: nat)
    requires Distinct(s) && i < |Groups(s, n)|
    ensures |Groups(s, n)[i]| < n && IsGroup(s, |Groups(s, n)[i]|, Groups(s, n)[i])
  {
    hide IsGroup, Combinations, Distinct;
    var smaller := Groups(s, n - 1);
    if i < |smaller| {
      GroupsAreGroups(s, n - 1, i);
    } else {
      CombinationsAreGroups(s, n - 1, i - |smaller|);
      GroupSize(s, n - 1, Combinations(s, n - 1)[i - |smaller|]);
    }
  }

  lemma GroupSize(s: seq<NodeId>, k: nat, c: seq<NodeId>)
    requires IsGroup(s, k, c)
    ensures |c| == k == |Elements(c)|
  {
    DistinctSize(c);
  }

  lemma {:induction false} DistinctSize(s: seq<NodeId>)
    requires Distinct(s)
    ensures |Elements(s)| == |s|
  {
    if s == [] {
      ElementsNone(s);
      assert s[..0] == s;
    } else {
      FirstIsNew(s);
      DistinctSize(s[1..]);
    }
  }

  lemma {:induction false} GroupsComplete(s: seq<NodeId>, n: nat, t: set<NodeId>) returns (i: nat)
    requires Distinct(s) && t <= Elements(s) && |t| < n
    ensures i < |Groups(s, n)| && Elements(Groups(s, n)[i]) == t
  {
    hide Combinations, Distinct, Elements;
    if |t| == n - 1 {
      var j := CombinationsComplete(s, n - 1, t);
      i := |Groups(s, n - 1)| + j;
    } else {
      i := GroupsComplete(s, n - 1, t);
    }
  }

  lemma {:induction false} GroupsDiffer(s: seq<NodeId>, n: nat, i: nat, j: nat)
    requires Distinct(s) && i < j < |Groups(s, n)|
    ensures Elements(Groups(s, n)[i]) != Elements(Groups(s, n)[j])
  {
    hide Combinations, Distinct, Elements, IsGroup;
    var smaller, now := Groups(s, n - 1), Combinations(s, n - 1);
    if j < |smaller| {
      GroupsDiffer(s, n - 1, i, j);
    } else if i < |smaller| {
      GroupsAreGroups(s, n - 1, i);
      GroupSize(s, |smaller[i]|, smaller[i]);
      CombinationsAreGroups(s, n - 1, j - |smaller|);
      GroupSize(s, n - 1, now[j - |smaller|]);
    } else {
      CombinationsDiffer(s, n - 1, i - |smaller|, j - |smaller|);
    }
  }
}
