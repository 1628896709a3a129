/** How deep the tree of encode.c gets: as deep as it has leaves exactly when every split is at an end of its range. */
module HuffDeep {
  import opened HuffTree
  import opened HuffCost
  import opened HuffBuild

  /** Where the loop of bld stops that adds up frequencies from `first` on. */
  function StopFrom(cs: seq<Chent>, first: nat, k: nat, last: nat, target: int): (r: nat)
    requires first <= k <= last < |cs|
    ensures k <= r <= last
    decreases last - k
  {
    if Run(cs, first, k + 1) >= target || k == last then k else StopFrom(cs, first, k + 1, last, target)
  }

  /** The entry a range is split after. */
  function SplitPlace(cs: seq<Chent>, factor: int, first: nat, last: nat): (k: nat)
    requires first < last < |cs| && factor != 0
    ensures first <= k < last
  {
    var k := StopFrom(cs, first, first, last, Trunc(Run(cs, first, last + 1), factor));
    if k == last then (first + last) / 2 else k
  }

  lemma {:induction false} StopShort(cs: seq<Chent>, first: nat, k: nat, last: nat, target: int)
    requires first <= k <= last < |cs| && Short(cs, first, k, target)
    ensures var r := StopFrom(cs, first, k, last, target);
      Short(cs, first, r, target) && (r < last ==> Run(cs, first, r + 1) >= target)
    decreases last - k
  {
    if Run(cs, first, k + 1) < target && k < last {
      StopShort(cs, first, k + 1, last, target);
    }
  }

  /** There is only one place to split. */
  lemma SplitIs(cs: seq<Chent>, factor: int, first: nat, last: nat, k: nat)
    requires first < last < |cs| && factor != 0 && IsSplit(cs, factor, first, last, k)
    ensures k == SplitPlace(cs, factor, first, last)
  {
    hide Run, Trunc, StopFrom;
    var target := Trunc(Run(cs, first, last + 1), factor);
    var r := StopFrom(cs, first, first, last, target);
    StopShort(cs, first, first, last, target);
    assert r < last ==> !Short(cs, first, last, target);
    assert k < r ==> Run(cs, first, k + 1) < target;
  }

  /** Every split leaves a single entry on one side, and the other side is split in the same way. */
  predicate EndSplits(cs: seq<Chent>, factor: int, first: nat, last: nat)
    requires first <= last < |cs| && factor != 0
    decreases last - first
  {
    first == last ||
    var k := SplitPlace(cs, factor, first, last);
    (k == first && EndSplits(cs, factor, first + 1, last)) || (k + 1 == last && EndSplits(cs, factor, first, k))
  }

  /** The tree is as high as its number of leaves allows exactly then. */
  lemma {:induction false} HeightExact(cs: seq<Chent>, factor: int, first: nat, last: nat, n: nat, t: Tree<nat>)
    requires factor != 0 && first <= last < |cs| && Built(cs, factor, first, last, n, t)
    ensures Height(t) == last - first <==> EndSplits(cs, factor, first, last)
    decreases t
  {
    hide SplitPlace, IsSplit;
    BuiltLeaves(cs, factor, first, last, n, t, 0);
    match t
    case Leaf(_) =>
    case Node(l, r) =>
      var k := first + |Leaves(l)| - 1;
      SplitInside(cs, factor, first, last, k);
      SplitIs(cs, factor, first, last, k);
      HeightExact(cs, factor, first, k, n, l);
      HeightExact(cs, factor, k + 1, last, n + |Leaves(l)|, r);
      BuiltLeaves(cs, factor, first, k, n, l, 0);
      BuiltLeaves(cs, factor, k + 1, last, n + |Leaves(l)|, r, 0);
      HeightBound(l);
      HeightBound(r);
  }

  /** Some leaf is as deep as the tree is high. */
  lemma {:induction false} DeepLeaf<T>(t: Tree<T>, d: nat) returns (k: nat)
    ensures k < |Leaves(t)| && Depths(t, d)[k] == d + Height(t)
  {
    match t
    case Leaf(_) => k := 0;
    case Node(l, r) =>
      if Height(l) > Height(r) {
        k := DeepLeaf(l, d + 1);
      } else {
        k := DeepLeaf(r, d + 1);
        k := k + |Leaves(l)|;
      }
  }

  /** With a factor larger than the total every split is after the first entry. */
  lemma {:induction false} FlatSplits(cs: seq<Chent>, factor: int, first: nat, last: nat)
    requires first <= last < |cs| && factor > 0 && forall i, j :: 0 <= i <= j <= |cs| ==> Run(cs, i, j) < factor
    ensures EndSplits(cs, factor, first, last)
    decreases last - first
  {
    if first < last {
      FlatSplits(cs, factor, first + 1, last);
      assert Trunc(Run(cs, first, last + 1), factor) == 0;
      assert SplitPlace(cs, factor, first, last) == first;
    }
  }

  // ---------------------------------------------------------------- it is a matter of the frequencies alone

  ghost predicate SameFrequencies(cs: seq<Chent>, ds: seq<Chent>) {
    |cs| == |ds| && forall i :: 0 <= i < |cs| ==> cs[i].freq == ds[i].freq
  }

  function Members(cs: seq<Chent>, n: nat): set<Chent>
    requires n <= |cs|
  {
    set x | x in cs[..n]
  }

  lemma {:induction false} MembersCount(cs: seq<Chent>, n: nat)
    requires n <= |cs|
    ensures |Members(cs, n)| <= n
    ensures Distinct(cs) ==> |Members(cs, n)| == n
  {
    if n > 0 {
      MembersCount(cs, n - 1);
      assert cs[..n] == cs[..n - 1] + [cs[n - 1]];
      assert Members(cs, n) == Members(cs, n - 1) + {cs[n - 1]};
    } else {
      assert Members(cs, 0) == {};
    }
  }

  /** However ties are sorted, the frequencies come in the same order. */
  lemma RankedSame(cs: seq<Chent>, n: nat, ds: seq<Chent>, m: nat, f: Counts)
    requires Ranked(cs, n, f) && Ranked(ds, m, f)
    ensures SameFrequencies(cs, ds)
  {
    hide Distinct;
    forall i | 0 <= i < 256 ensures cs[i].freq == ds[i].freq {
      NotMore(cs, n, ds, m, f, i);
      NotMore(ds, m, cs, n, f, i);
    }
  }

  lemma NotMore(cs: seq<Chent>, n: nat, ds: seq<Chent>, m: nat, f: Counts, i: nat)
    requires Ranked(cs, n, f) && Ranked(ds, m, f) && i < 256
    ensures cs[i].freq <= ds[i].freq
  {
    if cs[i].freq > ds[i].freq {
      MembersCount(cs, i + 1);
      MembersCount(ds, i);
      hide Distinct;
      forall x | x in Members(cs, i + 1) ensures x in Members(ds, i) {
        var j :| 0 <= j <= i && cs[j] == x;
        assert x == Chent(x.chr, f[x.chr]);
        var k :| 0 <= k < 256 && ds[k] == x;
        assert k < i;
      }
      Subset(Members(cs, i + 1), Members(ds, i));
    }
  }

  lemma {:induction false} Subset(a: set<Chent>, b: set<Chent>)
    requires a <= b
    ensures |a| <= |b|
  {
    assert b == a + (b - a);
  }

  lemma {:induction false} RunSame(cs: seq<Chent>, ds: seq<Chent>, i: nat, j: nat)
    requires SameFrequencies(cs, ds) && j <= |cs|
    ensures Run(cs, i, j) == Run(ds, i, j)
    decreases j
  {
    if i < j { RunSame(cs, ds, i, j - 1); }
  }

  lemma {:induction false} StopSame(cs: seq<Chent>, ds: seq<Chent>, first: nat, k: nat, last: nat, target: int)
    requires SameFrequencies(cs, ds) && first <= k <= last < |cs|
    ensures StopFrom(cs, first, k, last, target) == StopFrom(ds, first, k, last, target)
    decreases last - k
  {
    RunSame(cs, ds, first, k + 1);
    if k < last { StopSame(cs, ds, first, k + 1, last, target); }
  }

  lemma {:induction false} EndSplitsSame(cs: seq<Chent>, ds: seq<Chent>, factor: int, first: nat, last: nat)
    requires SameFrequencies(cs, ds) && factor != 0 && first <= last < |cs|
    ensures EndSplits(cs, factor, first, last) <==> EndSplits(ds, factor, first, last)
    decreases last - first
  {
    hide StopFrom, Run, Trunc;
    if first < last {
      RunSame(cs, ds, first, last + 1);
      StopSame(cs, ds, first, first, last, Trunc(Run(cs, first, last + 1), factor));
      EndSplitsSame(cs, ds, factor, first + 1, last);
      EndSplitsSame(cs, ds, factor, first, last - 1);
      assert SplitPlace(cs, factor, first, last) == SplitPlace(ds, factor, first, last);
    }
  }
}
