/** Sets of people, and the orders the solver walks them in. */
module Sorting {
  import opened Models

  lemma Empty(s: set<NodeId>)
    requires forall x :: x !in s
    ensures s == {}
  {
    assert forall x :: x in s <==> x in {};
  }

  lemma NonEmpty(s: set<NodeId>)
    requires s != {}
    ensures exists x :: x in s
  {
    if forall x :: x !in s {
      Empty(s);
    }
  }

  method PickElement(s: set<NodeId>) returns (x: NodeId)
    requires s != {}
    ensures x in s
  {
    NonEmpty(s);
    x :| x in s;
  }

  /** Earlier by key, then by id: the order `sorted` puts two different people in. */
  predicate Before(key: NodeId -> int, a: NodeId, b: NodeId) {
    key(a) < key(b) || (key(a) == key(b) && a < b)
  }

  ghost predicate IsLeast(s: set<NodeId>, key: NodeId -> int, x: NodeId) {
    x in s && forall y :: y in s && y != x ==> Before(key, x, y)
  }

  lemma {:induction false} LeastExists(s: set<NodeId>, key: NodeId -> int)
    requires s != {}
    ensures exists x :: IsLeast(s, key, x)
  {
    NonEmpty(s);
    var a :| a in s;
    if s == {a} {
      assert IsLeast(s, key, a);
    } else {
      LeastExists(s - {a}, key);
      var b :| IsLeast(s - {a}, key, b);
      if Before(key, a, b) {
        assert forall y :: y in s && y != a ==> y == b || Before(key, b, y);
        assert IsLeast(s, key, a);
      } else {
        assert IsLeast(s, key, b);
      }
    }
  }

  function Least(s: set<NodeId>, key: NodeId -> int): (x: NodeId)
    requires s != {}
    ensures IsLeast(s, key, x)
  {
    LeastExists(s, key);
    var x :| x in s && forall y :: y in s && y != x ==> Before(key, x, y);
    x
  }

  /** `sorted(s, key=lambda x: (key(x), x))`: everyone once, in order. */
  function SortedBy(s: set<NodeId>, key: NodeId -> int): (r: seq<NodeId>)
    ensures |r| == |s|
    ensures forall x :: x in r <==> x in s
    ensures Distinct(r)
    decreases |s|
  {
    if s == {} then
      []
    else
      var x := Least(s, key);
      [x] + SortedBy(s - {x}, key)
  }

  lemma {:induction false} SortedByBefore(s: set<NodeId>, key: NodeId -> int, i: nat, j: nat)
    requires i < j < |s|
    ensures Before(key, SortedBy(s, key)[i], SortedBy(s, key)[j])
    decreases |s|
  {
    var x, r := Least(s, key), SortedBy(s, key);
    if i == 0 {
      assert r[j] in s && r[j] != x;
    } else {
      SortedByBefore(s - {x}, key, i - 1, j - 1);
    }
  }

  /** Whoever comes earlier has the lesser key, or the same one and the lesser id. */
  lemma SortedByOrder(s: set<NodeId>, key: NodeId -> int, i: nat, j: nat)
    requires i < j < |s|
    ensures var a, b := SortedBy(s, key)[i], SortedBy(s, key)[j];
      key(a) < key(b) || (key(a) == key(b) && a < b)
  {
    hide SortedBy;
    SortedByBefore(s, key, i, j);
  }

  ghost predicate Ordered(key: NodeId -> int, s: seq<NodeId>) {
    forall i, j :: 0 <= i < j < |s| ==> Before(key, s[i], s[j])
  }

  lemma SortedByOrdered(s: set<NodeId>, key: NodeId -> int)
    ensures Ordered(key, SortedBy(s, key))
  {
    hide SortedBy, Before;
    forall i, j | 0 <= i < j < |s| ensures Before(key, SortedBy(s, key)[i], SortedBy(s, key)[j]) {
      SortedByBefore(s, key, i, j);
    }
  }

  function Zero(): NodeId -> int {
    _ => 0
  }

  /** `sorted(s)` */
  function Sorted(s: set<NodeId>): (r: seq<NodeId>)
    ensures |r| == |s|
    ensures forall x :: x in r <==> x in s
    ensures Distinct(r)
  {
    SortedBy(s, Zero())
  }

  /** Ids in increasing order. */
  lemma SortedAscends(s: set<NodeId>, i: nat, j: nat)
    requires i < j < |s|
    ensures Sorted(s)[i] < Sorted(s)[j]
  {
    hide SortedBy;
    SortedByOrder(s, Zero(), i, j);
  }

  // ---- Sums over people, in whatever order -------------------------------------------------------

  function SumBy(f: NodeId -> real, s: seq<NodeId>): real {
    var n := |s|;
    if n == 0 then 0.0 else SumBy(f, s[..n - 1]) + f(s[n - 1])
  }

  lemma {:induction false} SumByWithout(f: NodeId -> real, p: seq<NodeId>, x: NodeId, q: seq<NodeId>)
    ensures SumBy(f, p + [x] + q) == SumBy(f, p + q) + f(x)
  {
    var n := |q|;
    if n == 0 {
      assert p + q == p && p + [x] + q == p + [x];
      assert (p + [x])[..|p|] == p;
    } else {
      SumByWithout(f, p, x, q[..n - 1]);
      assert (p + [x] + q)[..|p| + n] == p + [x] + q[..n - 1];
      assert (p + q)[..|p| + n - 1] == p + q[..n - 1];
    }
  }

  lemma CutOut(b: seq<NodeId>, k: nat)
    requires k < |b| && Distinct(b)
    ensures b == b[..k] + [b[k]] + b[k + 1..]
    ensures Distinct(b[..k] + b[k + 1..])
    ensures forall y :: y in b[..k] + b[k + 1..] <==> y in b && y != b[k]
  {
    var rest := b[..k] + b[k + 1..];
    forall y ensures y in rest <==> y in b && y != b[k] {
      if y in b && y != b[k] {
        var j :| 0 <= j < |b| && b[j] == y;
        assert rest[if j < k then j else j - 1] == y;
      }
    }
  }

  lemma SomeoneIn(b: seq<NodeId>)
    requires b != []
    ensures exists y :: y in b
  {
    var y := b[0];
    assert y in b;
  }

  /** Two orders of the same people have the same sum. */
  lemma {:induction false} SumByOrder(f: NodeId -> real, a: seq<NodeId>, b: seq<NodeId>)
    requires Distinct(a) && Distinct(b) && forall y :: y in a <==> y in b
    ensures SumBy(f, a) == SumBy(f, b)
  {
    var n := |a|;
    if n == 0 {
      if b != [] {
        SomeoneIn(b);
      }
    } else {
      var x := a[n - 1];
      assert x in b;
      var k :| 0 <= k < |b| && b[k] == x;
      hide Distinct;
      CutOut(b, k);
      var front := a[..n - 1];
      var rest := b[..k] + b[k + 1..];
      forall y ensures y in front <==> y in rest {
        assert y in front <==> y in a && y != x;
        assert y in rest <==> y in b && y != x;
      }
      SumByOrder(f, front, rest);
      SumByWithout(f, b[..k], x, b[k + 1..]);
    }
  }

  lemma {:induction false} SumBySame(f: NodeId -> real, g: NodeId -> real, s: seq<NodeId>)
    requires forall i :: 0 <= i < |s| ==> f(s[i]) == g(s[i])
    ensures SumBy(f, s) == SumBy(g, s)
  {
    if s != [] {
      SumBySame(f, g, s[..|s| - 1]);
    }
  }

  /** One more person adds their own term, wherever they sort. */
  lemma SumBySorted(f: NodeId -> real, s: set<NodeId>, x: NodeId)
    requires x !in s
    ensures SumBy(f, Sorted(s + {x})) == SumBy(f, Sorted(s)) + f(x)
  {
    hide SortedBy, Sorted;
    var more := Sorted(s) + [x];
    assert more[..|Sorted(s)|] == Sorted(s);
    SumByOrder(f, Sorted(s + {x}), more);
  }
}
