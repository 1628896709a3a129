/** The total of frequency times code length, and when an assignment of characters to the leaves of a tree
    makes it least: exactly when no leaf has a rarer character than a deeper leaf has. */
module HuffCost {
  import opened Bytes
  import opened HuffTree

  /** The frequencies of the 256 characters. */
  type Counts = f: seq<nat> | |f| == 256 witness seq(256, _ => 0)

  /** The depths of the leaves in order, the root being at depth `d`. */
  function Depths<T>(t: Tree<T>, d: nat): (s: seq<nat>)
    ensures |s| == |Leaves(t)|
  {
    match t
    case Leaf(_) => [d]
    case Node(l, r) => Depths(l, d + 1) + Depths(r, d + 1)
  }

  /** The depth of a leaf is the length of its character's code. */
  lemma {:induction false} CodeLength(t: Tree<byte>, d: nat, k: nat)
    requires k < |Leaves(t)| && Distinct(Leaves(t))
    ensures Depths(t, d)[k] == d + |Code(t, Leaves(t)[k])|
  {
    match t
    case Leaf(_) =>
    case Node(l, r) =>
      DistinctParts(Leaves(l), Leaves(r));
      if k < |Leaves(l)| {
        CodeLength(l, d + 1, k);
        assert Leaves(t)[k] == Leaves(l)[k];
      } else {
        CodeLength(r, d + 1, k - |Leaves(l)|);
        assert Leaves(t)[k] == Leaves(r)[k - |Leaves(l)|];
      }
  }

  function Dot(f: Counts, s: seq<byte>, d: seq<nat>): nat
    requires |s| == |d|
  {
    if s == [] then 0 else Dot(f, s[..|s| - 1], d[..|s| - 1]) + f[s[|s| - 1]] * d[|s| - 1]
  }

  /** What the text whose counts are `f` takes in bits. */
  function Cost(f: Counts, t: Tree<byte>): nat {
    Dot(f, Leaves(t), Depths(t, 0))
  }

  predicate SameShape<S, T>(t: Tree<S>, u: Tree<T>) {
    match (t, u)
    case (Leaf(_), Leaf(_)) => true
    case (Node(a, b), Node(c, d)) => SameShape(a, c) && SameShape(b, d)
    case _ => false
  }

  lemma {:induction false} SameShapeDepths<S, T>(t: Tree<S>, u: Tree<T>, d: nat)
    requires SameShape(t, u)
    ensures Depths(t, d) == Depths(u, d)
  {
    if t.Node? {
      SameShapeDepths(t.left, u.left, d + 1);
      SameShapeDepths(t.right, u.right, d + 1);
    }
  }

  /** No assignment of the same characters to the same leaves costs less. */
  ghost predicate Least(f: Counts, t: Tree<byte>) {
    forall u: Tree<byte> :: SameShape(t, u) && multiset(Leaves(u)) == multiset(Leaves(t)) ==> Cost(f, t) <= Cost(f, u)
  }

  /** No place has a rarer character than a deeper place. */
  ghost predicate InOrder(f: Counts, s: seq<byte>, d: seq<nat>)
    requires |s| == |d|
  {
    forall j, k :: 0 <= j < |s| && 0 <= k < |s| && d[j] < d[k] ==> f[s[j]] >= f[s[k]]
  }

  // ---------------------------------------------------------------- sums

  function Without<T>(s: seq<T>, m: nat): seq<T>
    requires m < |s|
  {
    s[..m] + s[m + 1..]
  }

  lemma {:induction false} DotWithout(f: Counts, s: seq<byte>, d: seq<nat>, m: nat)
    requires |s| == |d| && m < |s|
    ensures Dot(f, s, d) == Dot(f, Without(s, m), Without(d, m)) + f[s[m]] * d[m]
  {
    var n := |s| - 1;
    if m < n {
      DotWithout(f, s[..n], d[..n], m);
      assert Without(s, m)[..n - 1] == Without(s[..n], m);
      assert Without(d, m)[..n - 1] == Without(d[..n], m);
    } else {
      assert Without(s, m) == s[..n];
      assert Without(d, m) == d[..n];
    }
  }

  /** Exchanging the characters of two places. */
  function Exchange<T>(s: seq<T>, j: nat, k: nat): seq<T>
    requires j < |s| && k < |s|
  {
    s[j := s[k]][k := s[j]]
  }

  lemma DotUpdated(f: Counts, s: seq<byte>, d: seq<nat>, k: nat, c: byte)
    requires |s| == |d| && k < |s|
    ensures Dot(f, s[k := c], d) == Dot(f, s, d) - f[s[k]] * d[k] + f[c] * d[k]
  {
    DotWithout(f, s, d, k);
    DotWithout(f, s[k := c], d, k);
    assert Without(s, k) == Without(s[k := c], k);
  }

  lemma DotExchanged(f: Counts, s: seq<byte>, d: seq<nat>, j: nat, k: nat)
    requires |s| == |d| && j < |s| && k < |s|
    ensures Dot(f, Exchange(s, j, k), d) == Dot(f, s, d) - ((f[s[k]] as int) - f[s[j]]) * ((d[k] as int) - d[j])
  {
    DotUpdated(f, s, d, j, s[k]);
    DotUpdated(f, s[j := s[k]], d, k, s[j]);
    hide Dot;
    Rebalance(f[s[j]], f[s[k]], d[j], d[k]);
  }

  lemma Rebalance(a: int, b: int, x: int, y: int)
    ensures -a * x + b * x - b * y + a * y == -(b - a) * (y - x)
  {
  }

  lemma ExchangedMultiset<T>(s: seq<T>, j: nat, k: nat)
    requires j < |s| && k < |s|
    ensures multiset(Exchange(s, j, k)) == multiset(s)
  {
  }

  lemma WithoutMultiset<T>(s: seq<T>, m: nat)
    requires m < |s|
    ensures multiset(s) == multiset(Without(s, m)) + multiset{s[m]}
  {
    assert s == s[..m] + [s[m]] + s[m + 1..];
  }

  /** A deepest place with a rarest character. */
  lemma {:induction false} Extreme(f: Counts, s: seq<byte>, d: seq<nat>) returns (m: nat)
    requires |s| == |d| > 0 && InOrder(f, s, d)
    ensures m < |s| && forall k :: 0 <= k < |s| ==> d[k] <= d[m] && f[s[m]] <= f[s[k]]
  {
    var n := |s| - 1;
    if n == 0 {
      m := 0;
    } else {
      m := Extreme(f, s[..n], d[..n]);
      assert s[..n][m] == s[m] && d[..n][m] == d[m];
      forall k | 0 <= k < n ensures d[k] <= d[m] && f[s[m]] <= f[s[k]] {
        assert s[..n][k] == s[k] && d[..n][k] == d[k];
      }
      if d[n] > d[m] || (d[n] == d[m] && f[s[n]] < f[s[m]]) {
        m := n;
      }
    }
  }

  lemma InOrderWithout(f: Counts, s: seq<byte>, d: seq<nat>, m: nat)
    requires |s| == |d| && m < |s| && InOrder(f, s, d)
    ensures InOrder(f, Without(s, m), Without(d, m))
  {
    var s', d' := Without(s, m), Without(d, m);
    forall j, k | 0 <= j < |s'| && 0 <= k < |s'| && d'[j] < d'[k] ensures f[s'[j]] >= f[s'[k]] {
      var j', k' := if j < m then j else j + 1, if k < m then k else k + 1;
      assert s'[j] == s[j'] && d'[j] == d[j'] && s'[k] == s[k'] && d'[k] == d[k'];
    }
  }

  lemma MemberAt<T>(s: seq<T>, x: T) returns (j: nat)
    requires multiset(s)[x] > 0
    ensures j < |s| && s[j] == x
  {
    assert x in s;
    j :| j < |s| && s[j] == x;
  }

  /** The rearrangement inequality. */
  lemma {:induction false} Rearranged(f: Counts, s: seq<byte>, u: seq<byte>, d: seq<nat>)
    requires |s| == |d| == |u| && multiset(s) == multiset(u) && InOrder(f, s, d)
    ensures Dot(f, s, d) <= Dot(f, u, d)
    decreases |s|
  {
    hide Dot, InOrder, Without, Exchange;
    if s != [] {
      var m := Extreme(f, s, d);
      var j := MemberAt(u, s[m]);
      MemberOf(s, u, m);
      DotExchanged(f, u, d, j, m);
      ExchangedMultiset(u, j, m);
      var v := Exchange(u, j, m);
      Moved(u, j, m);
      Gain(f[u[m]], f[u[j]], d[m], d[j]);
      WithoutMultiset(s, m);
      WithoutMultiset(v, m);
      Cancel(multiset(Without(s, m)), multiset(Without(v, m)), s[m]);
      InOrderWithout(f, s, d, m);
      WithoutLength(s, m);
      WithoutLength(v, m);
      WithoutLength(d, m);
      Rearranged(f, Without(s, m), Without(v, m), Without(d, m));
      DotWithout(f, s, d, m);
      DotWithout(f, v, d, m);
    } else {
      assert u == s;
    }
  }

  lemma Cancel<T>(a: multiset<T>, b: multiset<T>, x: T)
    requires a + multiset{x} == b + multiset{x}
    ensures a == b
  {
    assert a == a + multiset{x} - multiset{x};
    assert b == b + multiset{x} - multiset{x};
  }

  lemma MemberOf(s: seq<byte>, u: seq<byte>, m: nat)
    requires multiset(s) == multiset(u) && |s| == |u| && m < |s|
    ensures u[m] in s
  {
    assert u[m] in multiset(u);
  }

  lemma Moved<T>(u: seq<T>, j: nat, m: nat)
    requires j < |u| && m < |u|
    ensures |Exchange(u, j, m)| == |u| && Exchange(u, j, m)[m] == u[j]
  {
  }

  lemma WithoutLength<T>(s: seq<T>, m: nat)
    requires m < |s|
    ensures |Without(s, m)| == |s| - 1
  {
  }

  lemma Gain(a: int, b: int, x: int, y: int)
    requires a >= b && x >= y
    ensures (a - b) * (x - y) >= 0
  {
  }

  // ---------------------------------------------------------------- assignments

  /** The tree of the shape of `t` whose leaves are `s`. */
  function Refill<S, T>(t: Tree<S>, s: seq<T>): (u: Tree<T>)
    requires |s| == |Leaves(t)|
    ensures Leaves(u) == s && SameShape(t, u)
  {
    match t
    case Leaf(_) => Leaf(s[0])
    case Node(l, r) => Node(Refill(l, s[..|Leaves(l)|]), Refill(r, s[|Leaves(l)|..]))
  }

  /** An assignment is best exactly when it is in order. */
  lemma LeastExact(f: Counts, t: Tree<byte>)
    ensures Least(f, t) <==> InOrder(f, Leaves(t), Depths(t, 0))
  {
    if InOrder(f, Leaves(t), Depths(t, 0)) {
      InOrderLeast(f, t);
    } else {
      var s, d := Leaves(t), Depths(t, 0);
      var j, k :| 0 <= j < |s| && 0 <= k < |s| && d[j] < d[k] && f[s[j]] < f[s[k]];
      Improved(f, t, j, k);
    }
  }

  lemma InOrderLeast(f: Counts, t: Tree<byte>)
    requires InOrder(f, Leaves(t), Depths(t, 0))
    ensures Least(f, t)
  {
    hide Dot, Leaves, Depths, InOrder;
    forall u: Tree<byte> | SameShape(t, u) && multiset(Leaves(u)) == multiset(Leaves(t)) ensures Cost(f, t) <= Cost(f, u) {
      SameShapeDepths(t, u, 0);
      Rearranged(f, Leaves(t), Leaves(u), Depths(t, 0));
    }
  }

  lemma Improved(f: Counts, t: Tree<byte>, j: nat, k: nat)
    requires j < |Leaves(t)| && k < |Leaves(t)|
    requires Depths(t, 0)[j] < Depths(t, 0)[k] && f[Leaves(t)[j]] < f[Leaves(t)[k]]
    ensures !Least(f, t)
  {
    hide Dot, Leaves, Depths, Exchange;
    var s, d := Leaves(t), Depths(t, 0);
    DotExchanged(f, s, d, j, k);
    ExchangedMultiset(s, j, k);
    StrictGain(f[s[k]], f[s[j]], d[k], d[j]);
    Moved(s, j, k);
    var u := Refill(t, Exchange(s, j, k));
    SameShapeDepths(t, u, 0);
    assert Cost(f, u) < Cost(f, t);
  }

  lemma StrictGain(a: int, b: int, x: int, y: int)
    requires a > b && x > y
    ensures (a - b) * (x - y) > 0
  {
  }
}
