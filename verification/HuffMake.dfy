/** The end of make_tree: the leaves, by rising level, take the characters, by falling frequency; then the code
    words are read off the tree. */
module HuffMake {
  import opened Bytes
  import opened HuffTree
  import opened HuffCost
  import opened QSort
  import opened HuffBuild
  import opened HuffDeep

  function Cmpnp(x: Np, y: Np): int {
    x.len - y.len
  }

  lemma CmpnpConsistent()
    ensures Consistent(Cmpnp)
  {
  }

  // ---------------------------------------------------------------- the assignment

  /** The leaves of `shape` in the order of the second sort. */
  ghost predicate Levelled(ps: seq<Np>, shape: Tree<nat>) {
    && multiset(ps) == multiset(Records(shape, 0)) && |ps| == |Leaves(shape)|
    && (forall i, j :: 0 <= i < j < |ps| ==> ps[i].len <= ps[j].len)
  }

  /** Leaves are numbered from 0. */
  ghost predicate Numbered(shape: Tree<nat>) {
    forall j :: 0 <= j < |Leaves(shape)| ==> Leaves(shape)[j] == j
  }

  lemma LevelledAt(ps: seq<Np>, shape: Tree<nat>, i: nat)
    requires Levelled(ps, shape) && Numbered(shape) && i < |ps|
    ensures ps[i].node < |ps| && ps[i].len == (Depths(shape, 0)[ps[i].node] + 1) % 256
  {
    assert ps[i] in multiset(Records(shape, 0));
    var j := MemberAt(Records(shape, 0), ps[i]);
    RecordsAt(shape, 0, j);
  }

  lemma LevelledHas(ps: seq<Np>, shape: Tree<nat>, k: nat) returns (i: nat)
    requires Levelled(ps, shape) && Numbered(shape) && k < |ps|
    ensures i < |ps| && ps[i].node == k
  {
    RecordsAt(shape, 0, k);
    assert Records(shape, 0)[k] in multiset(Records(shape, 0));
    i := MemberAt(ps, Records(shape, 0)[k]);
  }

  lemma LevelledDistinct(ps: seq<Np>, shape: Tree<nat>, i: nat, j: nat)
    requires Levelled(ps, shape) && Numbered(shape) && i < |ps| && j < |ps| && ps[i].node == ps[j].node
    ensures i == j
  {
    RecordsDistinct(shape);
    DistinctPermuted(Records(shape, 0), ps);
    LevelledAt(ps, shape, i);
    LevelledAt(ps, shape, j);
    assert ps[i] == ps[j];
  }

  lemma RecordsDistinct(shape: Tree<nat>)
    requires Numbered(shape)
    ensures Distinct(Records(shape, 0))
  {
    forall i, j | 0 <= i < j < |Records(shape, 0)| ensures Records(shape, 0)[i] != Records(shape, 0)[j] {
      RecordsAt(shape, 0, i);
      RecordsAt(shape, 0, j);
    }
  }

  /** Leaf number ps[i].node has the i-th character. */
  ghost predicate Assigned(ps: seq<Np>, cs: seq<Chent>, nc: seq<byte>) {
    && |ps| == |nc| <= |cs|
    && forall i :: 0 <= i < |ps| ==> ps[i].node < |nc| && nc[ps[i].node] == cs[i].chr
  }

  method Assign(nptrs: array<Np>, cptrs: array<Chent>, ghost shape: Tree<nat>) returns (nc: array<byte>)
    requires Levelled(nptrs[..], shape) && Numbered(shape) && nptrs.Length <= cptrs.Length
    ensures fresh(nc) && Assigned(nptrs[..], cptrs[..], nc[..])
  {
    hide Levelled, Numbered;
    ghost var ps, cs := nptrs[..], cptrs[..];
    nc := new byte[nptrs.Length](_ => 0);
    var c := 0;
    while c < nptrs.Length
      invariant 0 <= c <= nptrs.Length && nptrs[..] == ps && cptrs[..] == cs
      invariant forall i :: 0 <= i < c ==> ps[i].node < nc.Length && nc[ps[i].node] == cs[i].chr
    {
      LevelledAt(ps, shape, c);
      forall i | 0 <= i < c ensures ps[i].node != ps[c].node {
        if ps[i].node == ps[c].node { LevelledDistinct(ps, shape, i, c); }
      }
      nc[nptrs[c].node] := cptrs[c].chr;
      c := c + 1;
    }
  }

  /** The tree with the characters its leaves were given. */
  function Labelled(t: Tree<nat>, nc: seq<byte>): Tree<byte>
  {
    match t
    case Leaf(id) => Leaf(if id < |nc| then nc[id] else 0)
    case Node(l, r) => Node(Labelled(l, nc), Labelled(r, nc))
  }

  lemma {:induction false} LabelledLeaves(t: Tree<nat>, nc: seq<byte>, k: nat, d: nat)
    ensures |Leaves(Labelled(t, nc))| == |Leaves(t)| && Depths(Labelled(t, nc), d) == Depths(t, d)
    ensures k < |Leaves(t)| && Leaves(t)[k] < |nc| ==> Leaves(Labelled(t, nc))[k] == nc[Leaves(t)[k]]
  {
    match t
    case Leaf(_) =>
    case Node(l, r) =>
      LabelledLeaves(l, nc, k, d + 1);
      LabelledLeaves(r, nc, if k < |Leaves(l)| then 0 else k - |Leaves(l)|, d + 1);
  }

  lemma LabelledWhole(shape: Tree<nat>, nc: seq<byte>)
    requires Numbered(shape) && |nc| == |Leaves(shape)|
    ensures Leaves(Labelled(shape, nc)) == nc && Depths(Labelled(shape, nc), 0) == Depths(shape, 0)
  {
    LabelledLeaves(shape, nc, 0, 0);
    forall k | 0 <= k < |nc| ensures Leaves(Labelled(shape, nc))[k] == nc[k] { LabelledLeaves(shape, nc, k, 0); }
  }

  /** The leaves carry the characters in use, each once. */
  lemma AssignedChars(ps: seq<Np>, cs: seq<Chent>, nc: seq<byte>, shape: Tree<nat>, f: Counts)
    requires Levelled(ps, shape) && Numbered(shape) && Assigned(ps, cs, nc) && Ranked(cs, |ps|, f)
    ensures Distinct(nc) && forall c: byte :: c in nc <==> f[c] > 0
  {
    hide Levelled, Numbered;
    forall j, k | 0 <= j < k < |nc| ensures nc[j] != nc[k] {
      var i := LevelledHas(ps, shape, j);
      var i' := LevelledHas(ps, shape, k);
      RankedDistinct(cs, |ps|, f, i, i');
    }
    hide Ranked;
    forall c: byte ensures c in nc <==> f[c] > 0 {
      var i := RankedHas(cs, |ps|, f, c);
      if f[c] > 0 { assert nc[ps[i].node] == c; }
      if c in nc {
        var k :| 0 <= k < |nc| && nc[k] == c;
        var j := LevelledHas(ps, shape, k);
        RankedIs(cs, |ps|, f, j);
      }
    }
  }

  lemma RankedDistinct(cs: seq<Chent>, n: nat, f: Counts, i: nat, j: nat)
    requires Ranked(cs, n, f) && i < 256 && j < 256 && i != j
    ensures cs[i].chr != cs[j].chr
  {
    assert cs[i] != cs[j];
  }

  lemma RankedHas(cs: seq<Chent>, n: nat, f: Counts, c: byte) returns (i: nat)
    requires Ranked(cs, n, f)
    ensures i < 256 == |cs| && cs[i].chr == c && (i < n <==> f[c] > 0)
  {
    assert Chent(c, f[c]) in cs;
    i :| i < 256 && cs[i] == Chent(c, f[c]);
  }

  lemma RankedIs(cs: seq<Chent>, n: nat, f: Counts, i: nat)
    requires Ranked(cs, n, f) && i < 256
    ensures |cs| == 256 && (i < n <==> f[cs[i].chr] > 0)
  {
  }

  // ---------------------------------------------------------------- when the assignment is best

  /** The char that holds a level wraps for leaves at depth 255. */
  ghost predicate Wrapped(d: seq<nat>) {
    exists k :: 0 <= k < |d| && d[k] == 255
  }

  ghost predicate Even(f: Counts, s: seq<byte>) {
    forall j, k :: 0 <= j < |s| && 0 <= k < |s| ==> f[s[j]] == f[s[k]]
  }

  lemma {:induction false} DepthBound<T>(t: Tree<T>, d: nat, k: nat)
    requires k < |Leaves(t)|
    ensures d <= Depths(t, d)[k] <= d + Height(t)
  {
    match t
    case Leaf(_) =>
    case Node(l, r) =>
      if k < |Leaves(l)| { DepthBound(l, d + 1, k); } else { DepthBound(r, d + 1, k - |Leaves(l)|); }
  }

  ghost predicate AtLeast(d: seq<nat>, h: nat) {
    forall k :: 0 <= k < |d| ==> d[k] >= h
  }

  /** A tree all of whose leaves are at least `h` deep has more than `h` of them. */
  lemma {:induction false} ManyLeaves<T>(t: Tree<T>, d: nat, h: nat)
    requires AtLeast(Depths(t, d), d + h)
    ensures |Leaves(t)| > h
  {
    match t
    case Leaf(_) =>
      assert Depths(t, d)[0] == d;
    case Node(l, r) =>
      if h > 0 {
        BothDeep(Depths(l, d + 1), Depths(r, d + 1), d + h);
        ManyLeaves(l, d + 1, h - 1);
      }
  }

  lemma BothDeep(a: seq<nat>, b: seq<nat>, h: nat)
    requires AtLeast(a + b, h)
    ensures AtLeast(a, h) && AtLeast(b, h)
  {
    forall k | 0 <= k < |a| ensures a[k] >= h { assert (a + b)[k] == a[k]; }
    forall k | 0 <= k < |b| ensures b[k] >= h { assert (a + b)[|a| + k] == b[k]; }
  }

  /** At most 256 leaves cannot all be 255 deep. */
  lemma NotAllDeep<T>(t: Tree<T>)
    requires |Leaves(t)| <= 256
    ensures !AtLeast(Depths(t, 0), 255)
  {
    match t
    case Leaf(_) =>
      assert Depths(t, 0)[0] == 0;
    case Node(l, r) =>
      if AtLeast(Depths(t, 0), 255) {
        BothDeep(Depths(l, 1), Depths(r, 1), 255);
        ManyLeaves(l, 1, 254);
        ManyLeaves(r, 1, 254);
      }
  }

  /** Deeper leaves come later in the second sort, unless the level has wrapped. */
  lemma LaterDeeper(ps: seq<Np>, shape: Tree<nat>, i: nat, j: nat)
    requires Levelled(ps, shape) && Numbered(shape) && i < |ps| && j < |ps| && |ps| <= 256
    requires ps[i].node < |ps| && ps[j].node < |ps| && Depths(shape, 0)[ps[i].node] < Depths(shape, 0)[ps[j].node]
    ensures if Depths(shape, 0)[ps[j].node] == 255 then j < i else i < j
  {
    LevelledAt(ps, shape, i);
    LevelledAt(ps, shape, j);
    HeightBound(shape);
    DepthBound(shape, 0, ps[i].node);
    DepthBound(shape, 0, ps[j].node);
  }

  /** The assignment is in order exactly when no leaf is 255 deep or all frequencies are the same. */
  lemma OrderExact(ps: seq<Np>, cs: seq<Chent>, nc: seq<byte>, shape: Tree<nat>, f: Counts)
    requires Levelled(ps, shape) && Numbered(shape) && Assigned(ps, cs, nc) && Ranked(cs, |ps|, f)
    ensures |nc| == |Depths(shape, 0)|
    ensures InOrder(f, nc, Depths(shape, 0)) <==> !Wrapped(Depths(shape, 0)) || Even(f, nc)
  {
    var d := Depths(shape, 0);
    hide Levelled, Numbered, Ranked, Depths;
    LevelledLength(ps, shape);
    if !Wrapped(d) {
      forall j, k | 0 <= j < |nc| && 0 <= k < |nc| && d[j] < d[k] ensures f[nc[j]] >= f[nc[k]] {
        var i := LevelledHas(ps, shape, j);
        var i' := LevelledHas(ps, shape, k);
        LaterDeeper(ps, shape, i, i');
        RankedFalls(cs, |ps|, f, i, i');
      }
    } else if !Even(f, nc) {
      var k :| 0 <= k < |d| && d[k] == 255;
      WrappedOutOfOrder(ps, cs, nc, shape, f, k);
    }
  }

  lemma LevelledLength(ps: seq<Np>, shape: Tree<nat>)
    requires Levelled(ps, shape)
    ensures |ps| == |Depths(shape, 0)| == |Leaves(shape)|
  {
  }

  lemma RankedFalls(cs: seq<Chent>, n: nat, f: Counts, i: nat, j: nat)
    requires Ranked(cs, n, f) && i <= j < 256
    ensures |cs| == 256 && f[cs[i].chr] >= f[cs[j].chr]
  {
  }

  lemma RankedSize(cs: seq<Chent>, n: nat, f: Counts)
    requires Ranked(cs, n, f)
    ensures n <= 256 == |cs|
  {
  }

  /** The first character, the commonest, is on a wrapped leaf, and the last, the rarest, on another. */
  lemma WrappedOutOfOrder(ps: seq<Np>, cs: seq<Chent>, nc: seq<byte>, shape: Tree<nat>, f: Counts, k: nat)
    requires Levelled(ps, shape) && Numbered(shape) && Assigned(ps, cs, nc) && Ranked(cs, |ps|, f)
    requires |ps| == |Depths(shape, 0)| && k < |ps| && Depths(shape, 0)[k] == 255 && !Even(f, nc)
    ensures !InOrder(f, nc, Depths(shape, 0))
  {
    var d, n := Depths(shape, 0), |ps|;
    hide Levelled, Numbered, Ranked, Depths;
    RankedSize(cs, n, f);
    LevelledLength(ps, shape);
    FirstWrapped(ps, shape, k);
    var a, b := ps[0].node, ps[n - 1].node;
    assert nc[a] == cs[0].chr && nc[b] == cs[n - 1].chr;
    assert f[nc[a]] != f[nc[b]] by {
      forall j | 0 <= j < |nc| ensures f[nc[b]] <= f[nc[j]] <= f[nc[a]] {
        var i := LevelledHas(ps, shape, j);
        RankedFalls(cs, n, f, 0, i);
        RankedFalls(cs, n, f, i, n - 1);
      }
    }
    RankedFalls(cs, n, f, 0, n - 1);
    assert d[b] < d[a] && f[nc[b]] < f[nc[a]];
  }

  lemma FirstWrapped(ps: seq<Np>, shape: Tree<nat>, k: nat)
    requires Levelled(ps, shape) && Numbered(shape) && |ps| == |Depths(shape, 0)| <= 256
    requires k < |ps| && Depths(shape, 0)[k] == 255
    ensures ps[0].node < |ps| && ps[|ps| - 1].node < |ps|
    ensures Depths(shape, 0)[ps[0].node] == 255 && Depths(shape, 0)[ps[|ps| - 1].node] < 255
  {
    var d, n := Depths(shape, 0), |ps|;
    NotAllDeep(shape);
    var s: nat :| s < |d| && d[s] < 255;
    hide Depths, Levelled, Numbered;
    var i := LevelledHas(ps, shape, k);
    var j := LevelledHas(ps, shape, s);
    LevelOf(ps, shape, 0);
    LevelOf(ps, shape, n - 1);
    LevelOf(ps, shape, i);
    LevelOf(ps, shape, j);
    LevelsRise(ps, shape, 0, i);
    LevelsRise(ps, shape, j, n - 1);
  }

  lemma LevelOf(ps: seq<Np>, shape: Tree<nat>, i: nat)
    requires Levelled(ps, shape) && Numbered(shape) && |ps| == |Depths(shape, 0)| <= 256 && i < |ps|
    ensures ps[i].node < |ps| && Depths(shape, 0)[ps[i].node] <= 255
    ensures ps[i].len == 0 <==> Depths(shape, 0)[ps[i].node] == 255
  {
    LevelledAt(ps, shape, i);
    HeightBound(shape);
    DepthBound(shape, 0, ps[i].node);
  }

  lemma LevelsRise(ps: seq<Np>, shape: Tree<nat>, i: nat, j: nat)
    requires Levelled(ps, shape) && i <= j < |ps|
    ensures ps[i].len <= ps[j].len
  {
  }

  // ---------------------------------------------------------------- how deep the tree gets

  lemma {:induction false} RunSplit(cs: seq<Chent>, i: nat, j: nat, k: nat)
    requires i <= j <= k <= |cs|
    ensures Run(cs, i, k) == Run(cs, i, j) + Run(cs, j, k)
    decreases k
  {
    if j < k { RunSplit(cs, i, j, k - 1); }
  }

  lemma {:induction false} RunWide(cs: seq<Chent>, i: nat, j: nat, c: nat)
    requires i <= j <= |cs| && forall k :: i <= k < j ==> cs[k].freq <= c
    ensures Run(cs, i, j) <= (j - i) * c
    decreases j
  {
    if i < j {
      RunWide(cs, i, j - 1, c);
      assert (j - 1 - i) * c + c == (j - i) * c;
    }
  }

  /** Entries in use, by falling frequency. */
  ghost predicate Falling(cs: seq<Chent>, n: nat) {
    && n <= |cs|
    && (forall i :: 0 <= i < n ==> cs[i].freq > 0)
    && (forall i, j :: 0 <= i <= j < n ==> cs[j].freq <= cs[i].freq)
  }

  /** With the factor 2 neither side of a split, but for its last entry, is more than half. */
  lemma HalfSplit(cs: seq<Chent>, n: nat, first: nat, last: nat, k: nat)
    requires Falling(cs, n) && first < last < n && IsSplit(cs, 2, first, last, k)
    ensures first <= k < last && 2 * Run(cs, k + 1, last + 1) <= Run(cs, first, last + 1) + 1
    ensures 2 * Run(cs, first, k) <= Run(cs, first, last + 1)
    ensures Run(cs, first, k + 1) <= Run(cs, first, last + 1)
  {
    hide Short, Run;
    var t := Run(cs, first, last + 1);
    RunSplit(cs, first, k + 1, last + 1);
    if Short(cs, first, last, t / 2) {
      LastShort(cs, n, first, last);
    } else {
      ShortAt(cs, first, k, t / 2);
    }
  }

  lemma ShortAt(cs: seq<Chent>, first: nat, k: nat, target: int)
    requires first <= k < |cs| && Short(cs, first, k, target)
    ensures Run(cs, first, k) < target || k == first
    ensures k == first ==> Run(cs, first, k) == 0
  {
  }

  /** The last entry, the least, cannot alone be more than half. */
  lemma LastShort(cs: seq<Chent>, n: nat, first: nat, last: nat)
    requires Falling(cs, n) && first < last < n
    ensures !Short(cs, first, last, Run(cs, first, last + 1) / 2)
  {
    RunSplit(cs, first, first + 1, last);
    assert Run(cs, first, first) == 0;
  }

  /** Every two levels halve the total, so that the tree is at most twice as high as the total has bits. */
  lemma {:induction false} HeightLog(cs: seq<Chent>, n: nat, first: nat, last: nat, id: nat, t: Tree<nat>, m: nat)
    requires Falling(cs, n) && first <= last < n <= |cs| && Built(cs, 2, first, last, id, t)
    requires Run(cs, first, last + 1) <= Pow2(m)
    ensures Height(t) <= 2 * m
    decreases m
  {
    hide Short, Run, Falling, IsSplit;
    if t.Node? {
      TwoEntries(cs, n, first, last);
      assert m > 0;
      var k := first + |Leaves(t.left)| - 1;
      HalfSplit(cs, n, first, last, k);
      HeightLog(cs, n, k + 1, last, id + |Leaves(t.left)|, t.right, m - 1);
      if t.left.Node? {
        var l := t.left;
        var k' := first + |Leaves(l.left)| - 1;
        HalfSplit(cs, n, first, k, k');
        HeightLog(cs, n, k' + 1, k, id + |Leaves(l.left)|, l.right, m - 1);
        RunSplit(cs, first, k' + 1, k);
        HeightLog(cs, n, first, k', id, l.left, m - 1);
      }
    }
  }

  lemma TwoEntries(cs: seq<Chent>, n: nat, first: nat, last: nat)
    requires Falling(cs, n) && first < last < n
    ensures Run(cs, first, last + 1) >= 2
  {
    RunSplit(cs, first, first + 1, last);
    assert Run(cs, first, first) == 0;
  }

  // ---------------------------------------------------------------- when a level wraps

  /** A level wraps exactly if all 256 characters are in use and every split is at an end of its range. */
  lemma WrappedExact(cs: seq<Chent>, factor: int, n: nat, shape: Tree<nat>)
    requires factor != 0 && 0 < n <= 256 == |cs| && Built(cs, factor, 0, n - 1, 0, shape)
    ensures Wrapped(Depths(shape, 0)) <==> n == 256 && EndSplits(cs, factor, 0, 255)
  {
    BuiltLeaves(cs, factor, 0, n - 1, 0, shape, 0);
    HeightBound(shape);
    HeightExact(cs, factor, 0, n - 1, 0, shape);
    hide Built, EndSplits;
    if Height(shape) == 255 {
      var k := DeepLeaf(shape, 0);
    }
    if Wrapped(Depths(shape, 0)) {
      var k :| 0 <= k < |Depths(shape, 0)| && Depths(shape, 0)[k] == 255;
      DepthBound(shape, 0, k);
    }
  }

  /** All characters are equally frequent. */
  ghost predicate Flat(f: Counts) {
    forall c: byte, d: byte :: f[c] == f[d]
  }

  /** What makes the total larger than it need be, from the frequencies, in falling order, and the factor. */
  ghost predicate Costly(cs: seq<Chent>, factor: int, n: nat, f: Counts)
    requires factor != 0 && n <= 256 == |cs|
  {
    n == 256 && EndSplits(cs, factor, 0, 255) && !Flat(f)
  }

  /** It is a matter of frequencies and factor only, however the sort orders equal frequencies. */
  lemma CostlySame(cs: seq<Chent>, n: nat, ds: seq<Chent>, m: nat, f: Counts, factor: int)
    requires Ranked(cs, n, f) && Ranked(ds, m, f) && factor != 0
    ensures |cs| == |ds| == 256 && n == m <= 256 && (Costly(cs, factor, n, f) <==> Costly(ds, factor, m, f))
  {
    hide *;
    hide Costly;
    RankedSame(cs, n, ds, m, f);
    RankedSize(cs, n, f);
    RankedSize(ds, m, f);
    SameUse(cs, n, ds, m, f);
    EndSplitsSame(cs, ds, factor, 0, 255);
    CostlyIs(cs, factor, n, f);
    CostlyIs(ds, factor, m, f);
  }

  lemma CostlyIs(cs: seq<Chent>, factor: int, n: nat, f: Counts)
    requires factor != 0 && n <= 256 == |cs|
    ensures Costly(cs, factor, n, f) <==> n == 256 && EndSplits(cs, factor, 0, 255) && !Flat(f)
  {
  }

  lemma SameUse(cs: seq<Chent>, n: nat, ds: seq<Chent>, m: nat, f: Counts)
    requires Ranked(cs, n, f) && Ranked(ds, m, f) && SameFrequencies(cs, ds)
    ensures n == m
  {
    hide Distinct;
    assert n < 256 ==> cs[n].freq == ds[n].freq;
    assert m < 256 ==> cs[m].freq == ds[m].freq;
  }

  /** The total is the least exactly if this is not so; `nc` are the characters of the leaves. */
  lemma CostlyExact(ps: seq<Np>, cs: seq<Chent>, nc: seq<byte>, shape: Tree<nat>, f: Counts, factor: int)
    requires Levelled(ps, shape) && Numbered(shape) && Assigned(ps, cs, nc) && Ranked(cs, |ps|, f)
    requires factor != 0 && 0 < |ps| <= 256 == |cs| && Built(cs, factor, 0, |ps| - 1, 0, shape)
    ensures |nc| == |Depths(shape, 0)|
    ensures InOrder(f, nc, Depths(shape, 0)) <==> !Costly(cs, factor, |ps|, f)
  {
    OrderExact(ps, cs, nc, shape, f);
    WrappedExact(cs, factor, |ps|, shape);
    AssignedChars(ps, cs, nc, shape, f);
    if |ps| == 256 {
      AllUsed(cs, f);
      FlatEven(f, nc);
    }
  }

  lemma AllUsed(cs: seq<Chent>, f: Counts)
    requires Ranked(cs, 256, f)
    ensures forall c: byte :: f[c] > 0
  {
    forall c: byte ensures f[c] > 0 { var i := RankedHas(cs, 256, f, c); }
  }

  lemma FlatEven(f: Counts, nc: seq<byte>)
    requires forall c: byte :: c in nc
    ensures Even(f, nc) <==> Flat(f)
  {
    if Even(f, nc) {
      forall c: byte, d: byte ensures f[c] == f[d] {
        assert c in nc && d in nc;
        var j :| 0 <= j < |nc| && nc[j] == c;
        var k :| 0 <= k < |nc| && nc[k] == d;
      }
    }
  }

  // ---------------------------------------------------------------- code words

  /** TST. */
  predicate Tst(cbits: seq<byte>, i: nat)
    requires |cbits| == 32 && i < 256
  {
    BitOf(cbits[i / 8], i % 8)
  }

  /** SET and CLR. */
  function SetBit(cbits: seq<byte>, i: nat, v: bool): (r: seq<byte>)
    requires |cbits| == 32 && i < 256
    ensures |r| == 32
  {
    cbits[i / 8 := WithBit8(cbits[i / 8], i % 8, v)]
  }

  lemma SetBitSets(cbits: seq<byte>, i: nat, v: bool, j: nat)
    requires |cbits| == 32 && i < 256 && j < 256
    ensures Tst(SetBit(cbits, i, v), j) == (if j == i then v else Tst(cbits, j))
  {
    WithBitSets(cbits[i / 8], i % 8, v, j % 8);
  }

  /** The code word an h_char holds. */
  function Word(h: HChar): (w: seq<bool>)
    requires |h.cbits| == 32
    ensures |w| == h.nbits
  {
    seq(h.nbits, i requires 0 <= i < h.nbits => Tst(h.cbits, i))
  }

  lemma WordExtended(h: HChar, v: bool)
    requires |h.cbits| == 32 && h.nbits < 255
    ensures Word(HChar(h.nbits + 1, SetBit(h.cbits, h.nbits, v))) == Word(h) + [v]
  {
    hide Tst, SetBit;
    var h' := HChar(h.nbits + 1, SetBit(h.cbits, h.nbits, v));
    forall i | 0 <= i < h'.nbits ensures Word(h')[i] == (Word(h) + [v])[i] { SetBitSets(h.cbits, h.nbits, v, i); }
  }

  lemma WordReplaced(h: HChar, w: seq<bool>, v: bool)
    requires |h.cbits| == 32 && h.nbits > 0 && Word(h) == w + [!v]
    ensures Word(HChar(h.nbits, SetBit(h.cbits, h.nbits - 1, v))) == w + [v]
  {
    hide Tst, SetBit;
    var h' := HChar(h.nbits, SetBit(h.cbits, h.nbits - 1, v));
    forall i | 0 <= i < h.nbits ensures Word(h')[i] == (w + [v])[i] {
      SetBitSets(h.cbits, h.nbits - 1, v, i);
      assert i < h.nbits - 1 ==> Word(h)[i] == w[i];
    }
  }

  ghost predicate Sized(bits: seq<HChar>) {
    |bits| == 256 && forall c: byte :: |bits[c].cbits| == 32
  }

  /** The code words of the characters of `t`, each after the word `w`. */
  ghost predicate Coded(bits: seq<HChar>, t: Tree<byte>, w: seq<bool>)
    requires Sized(bits)
  {
    forall c: byte :: c in Leaves(t) ==> Word(bits[c]) == w + Code(t, c)
  }

  ghost predicate SameOutside(before: seq<HChar>, after: seq<HChar>, t: Tree<byte>)
    requires Sized(before) && Sized(after)
  {
    forall c: byte :: c !in Leaves(t) ==> after[c] == before[c]
  }

  lemma CodedNode(b0: seq<HChar>, b1: seq<HChar>, b2: seq<HChar>, l: Tree<byte>, r: Tree<byte>, w: seq<bool>)
    requires Sized(b0) && Sized(b1) && Sized(b2) && Distinct(Leaves(l) + Leaves(r))
    requires Coded(b1, l, w + [true]) && SameOutside(b0, b1, l)
    requires Coded(b2, r, w + [false]) && SameOutside(b1, b2, r)
    ensures Coded(b2, Node(l, r), w) && SameOutside(b0, b2, Node(l, r))
  {
    DistinctParts(Leaves(l), Leaves(r));
    var t := Node(l, r);
    assert Leaves(t) == Leaves(l) + Leaves(r);
    hide Word, Code, Leaves, Distinct;
    forall c: byte | c in Leaves(t) ensures Word(b2[c]) == w + Code(t, c) { CodeNode(l, r, c, w); }
  }

  lemma CodeNode(l: Tree<byte>, r: Tree<byte>, c: byte, w: seq<bool>)
    requires c in Leaves(Node(l, r))
    ensures c in Leaves(l) ==> w + Code(Node(l, r), c) == w + [true] + Code(l, c)
    ensures c !in Leaves(l) ==> c in Leaves(r) && w + Code(Node(l, r), c) == w + [false] + Code(r, c)
  {
  }

  /** bld_bits: the word so far is passed by value; a leaf keeps it. */
  method BldBits(bits: array<HChar>, t: Tree<byte>, tch: HChar)
    requires Sized(bits[..]) && |tch.cbits| == 32 && tch.nbits + Height(t) < 256 && Distinct(Leaves(t))
    modifies bits
    ensures Sized(bits[..]) && Coded(bits[..], t, Word(tch)) && SameOutside(old(bits[..]), bits[..], t)
    decreases t
  {
    hide Word, SetBit;
    ghost var b0 := bits[..];
    match t
    case Leaf(c) =>
      bits[c] := tch;
      assert bits[..] == b0[c := tch];
      assert Word(tch) + [] == Word(tch);
    case Node(l, r) =>
      DistinctParts(Leaves(l), Leaves(r));
      WordExtended(tch, true);
      var h := HChar(tch.nbits + 1, SetBit(tch.cbits, tch.nbits, true));
      hide Coded, SameOutside, Distinct, Sized;
      BldBits(bits, l, h);
      ghost var b1 := bits[..];
      WordReplaced(h, Word(tch), false);
      h := HChar(h.nbits, SetBit(h.cbits, h.nbits - 1, false));
      BldBits(bits, r, h);
      CodedNode(b0, b1, bits[..], l, r, Word(tch));
  }

  // ---------------------------------------------------------------- make_tree

  lemma {:induction false} TextHasNul(files: seq<Source>)
    requires files != []
    ensures 0 in Text(files)
  {
    assert TextOf(files[|files| - 1])[|TextOf(files[|files| - 1])| - 1] == 0;
  }

  lemma InText(f: Counts, text: seq<byte>, c: byte)
    requires Counted(f, text)
    ensures f[c] > 0 <==> c in text
  {
    assert c in multiset(text) <==> c in text;
  }

  lemma NumberedBuilt(cs: seq<Chent>, factor: int, n: nat, shape: Tree<nat>)
    requires 0 < n <= |cs| && factor != 0 && Built(cs, factor, 0, n - 1, 0, shape)
    ensures Numbered(shape) && |Leaves(shape)| == n
  {
    forall j | 0 <= j < |Leaves(shape)| ensures Leaves(shape)[j] == j { BuiltLeaves(cs, factor, 0, n - 1, 0, shape, j); }
    BuiltLeaves(cs, factor, 0, n - 1, 0, shape, 0);
  }

  lemma {:induction false} LabelledShape(t: Tree<nat>, nc: seq<byte>)
    ensures SameShape(t, Labelled(t, nc))
  {
    if t.Node? {
      LabelledShape(t.left, nc);
      LabelledShape(t.right, nc);
    }
  }

  lemma {:induction false} CountWithin(f: Counts, text: seq<byte>, c: byte)
    requires Counted(f, text)
    ensures f[c] <= |text|
  {
    assert multiset(text)[c] <= |multiset(text)|;
  }

  /** With the default factor and a text counted in a long the level cannot wrap. */
  lemma DefaultShallow(f: Counts, text: seq<byte>, cs: seq<Chent>, n: nat, shape: Tree<nat>)
    requires Counted(f, text) && |text| < 0x8000_0000 && Ranked(cs, n, f) && n > 0
    requires Built(cs, 2, 0, n - 1, 0, shape)
    ensures !Wrapped(Depths(shape, 0))
  {
    hide Built, Counted;
    forall i | 0 <= i < n ensures cs[i].freq <= 0x8000_0000 { CountWithin(f, text, cs[i].chr); }
    RunWide(cs, 0, n, 0x8000_0000);
    assert n * 0x8000_0000 <= 256 * 0x8000_0000;
    Pow39();
    assert Falling(cs, n);
    HeightLog(cs, n, 0, n - 1, 0, shape, 39);
    forall k | 0 <= k < |Depths(shape, 0)| ensures Depths(shape, 0)[k] < 255 { DepthBound(shape, 0, k); }
  }

  lemma Pow39()
    ensures Pow2(39) == 0x80_0000_0000
  {
    assert Pow2(8) == 256;
    assert Pow2(16) == 0x1_0000;
    assert Pow2(24) == 0x100_0000;
    assert Pow2(32) == 0x1_0000_0000;
  }

  /** The tree for the first `n` characters, and its leaves sorted by level. */
  method Plant(cptrs: array<Chent>, n: nat, factor: int) returns (shape: Tree<nat>, nptrs: array<Np>)
    requires cptrs.Length == 256 && 0 < n <= 256 && factor != 0
    ensures fresh(nptrs) && nptrs.Length == n && Built(cptrs[..], factor, 0, n - 1, 0, shape)
    ensures Levelled(nptrs[..], shape) && Numbered(shape) && |Leaves(shape)| == n
  {
    hide Built, Levelled, Numbered, Sorted, Consistent;
    nptrs := new Np[n](_ => Np(0, 0));
    var b := new Builder(cptrs, nptrs, factor);
    shape := b.Bld(0, n - 1);
    NumberedBuilt(cptrs[..], factor, n, shape);
    assert nptrs[..] == Records(shape, 0);
    CmpnpConsistent();
    var ok := Qsort(nptrs, 3, Cmpnp);
    SortedLevelled(nptrs[..], shape);
  }

  /** `f` are the frequencies of the text, `cs` the characters by falling frequency and `shape` the tree bld makes
      of them. The characters in use are each on one leaf, with the path to it as the code word. The
      total length is the least the shape allows unless all 256 characters are in use, not all equally frequent, and
      every split is at an end of its range; so always with fewer characters, and with the default factor. */
  method MakeTree(files: seq<Source>, factor: int)
    returns (root: Tree<byte>, clist: array<HChar>, alfused: nat, ghost f: Counts, ghost cs: seq<Chent>, shape: Tree<nat>)
    requires files != [] && factor != 0
    ensures Counted(f, Text(files)) && Ranked(cs, alfused, f) && 0 < alfused <= 256 == |cs|
    ensures Built(cs, factor, 0, alfused - 1, 0, shape) && SameShape(shape, root)
    ensures Distinct(Leaves(root)) && |Leaves(root)| == alfused
    ensures forall c: byte :: c in Leaves(root) <==> c in Text(files)
    ensures fresh(clist) && Sized(clist[..]) && Coded(clist[..], root, [])
    ensures Least(f, root) <==> !Costly(cs, factor, alfused, f)
    ensures alfused < 256 ==> Least(f, root)
    ensures factor == 2 && |Text(files)| < 0x8000_0000 ==> Least(f, root)
  {
    hide Counted, Ranked, Built, Levelled, Numbered, Distinct, Coded, Least, Wrapped, Even, Text, InOrder, Sorted;
    hide Consistent, EndSplits, Flat;
    var freq := Count(files);
    CountsLength(freq[..], Text(files));
    f := freq[..];
    var cptrs, n := Rank(freq);
    alfused, cs := n, cptrs[..];
    RankedSize(cs, n, f);
    SomeUsed(files, f, cs, n);
    var nptrs;
    shape, nptrs := Plant(cptrs, n, factor);
    ghost var ps := nptrs[..];
    var nc := Assign(nptrs, cptrs, shape);
    LabelledWhole(shape, nc[..]);
    LabelledShape(shape, nc[..]);
    // the source has the leaves in the tree already; here their characters are put into it
    root := Labelled(shape, nc[..]);
    AssignedChars(ps, cs, nc[..], shape, f);
    forall c: byte ensures c in Leaves(root) <==> c in Text(files) { InText(f, Text(files), c); }
    CostlyExact(ps, cs, nc[..], shape, f, factor);
    LeastExact(f, root);
    if factor == 2 && |Text(files)| < 0x8000_0000 {
      DefaultShallow(f, Text(files), cs, n, shape);
      WrappedExact(cs, factor, n, shape);
    }
    clist := Codes(root);
  }

  // ---------------------------------------------------------------- a tree 255 deep

  /** A file with every byte once, under a name of one letter. */
  function SampleFiles(): seq<Source> {
    [Source([65], seq(256, i requires 0 <= i < 256 => i), false)]
  }

  lemma SampleText()
    ensures SampleFiles() != [] && Text(SampleFiles()) == SampleFiles()[0].data + [65] + [0]
  {
    var fs := SampleFiles();
    assert fs[..0] == [];
    assert Text([]) + TextOf(fs[0]) == TextOf(fs[0]);
  }

  lemma OnceEach(c: byte)
    ensures multiset(SampleFiles()[0].data)[c] == 1
  {
    var s := SampleFiles()[0].data;
    assert s[c] == c;
    assert c in multiset(s);
    DistinctOnce(s, c);
  }

  lemma CountOneMore(s: seq<byte>, x: byte, c: byte)
    ensures multiset(s + [x])[c] == multiset(s)[c] + if x == c then 1 else 0
  {
  }

  lemma SampleCounts(f: Counts)
    requires Counted(f, Text(SampleFiles()))
    ensures f[0] == 2 && f[1] == 1 && forall c: byte :: 1 <= f[c] <= 2
  {
    SampleText();
    var s := SampleFiles()[0].data;
    hide SampleFiles, Text;
    forall c: byte ensures f[c] == 1 + (if c == 65 then 1 else 0) + (if c == 0 then 1 else 0) {
      OnceEach(c);
      CountOneMore(s, 65, c);
      CountOneMore(s + [65], 0, c);
    }
  }

  /** With the factor 600 every split of its characters is after the first. */
  lemma SampleCostly(f: Counts, cs: seq<Chent>, n: nat)
    requires Counted(f, Text(SampleFiles())) && Ranked(cs, n, f)
    ensures n == 256 == |cs| && Costly(cs, 600, n, f)
  {
    SampleCounts(f);
    hide Counted, SampleFiles, Text, EndSplits;
    RankedSize(cs, n, f);
    if n < 256 { RankedIs(cs, n, f, n); }
    forall i | 0 <= i < 256 ensures cs[i].freq <= 2 { FreqIs(cs, n, f, i); }
    hide Ranked;
    forall i, j | 0 <= i <= j <= 256 ensures Run(cs, i, j) < 600 { RunWide(cs, i, j, 2); }
    FlatSplits(cs, 600, 0, 255);
  }

  lemma FreqIs(cs: seq<Chent>, n: nat, f: Counts, i: nat)
    requires Ranked(cs, n, f) && i < 256
    ensures |cs| == 256 && cs[i].freq == f[cs[i].chr]
  {
  }

  /** So the total for that file is not the least its tree allows. */
  method SampleTree() returns (ghost f: Counts, root: Tree<byte>)
    ensures Counted(f, Text(SampleFiles())) && !Least(f, root)
  {
    hide Counted, Ranked, Least, Text, SampleFiles, Built, Costly;
    SampleText();
    var clist, alfused, shape;
    ghost var cs;
    root, clist, alfused, f, cs, shape := MakeTree(SampleFiles(), 600);
    SampleCostly(f, cs, alfused);
  }

  /** The code words of a tree. */
  method Codes(root: Tree<byte>) returns (clist: array<HChar>)
    requires |Leaves(root)| <= 256 && Distinct(Leaves(root))
    ensures fresh(clist) && Sized(clist[..]) && Coded(clist[..], root, [])
  {
    hide Distinct;
    HeightBound(root);
    clist := new HChar[256](_ => HChar(0, seq(32, _ => 0)));
    assert Word(HChar(0, seq(32, _ => 0))) == [];
    BldBits(clist, root, HChar(0, seq(32, _ => 0)));
  }

  lemma SomeUsed(files: seq<Source>, f: Counts, cs: seq<Chent>, n: nat)
    requires files != [] && Counted(f, Text(files)) && Ranked(cs, n, f)
    ensures n > 0
  {
    TextHasNul(files);
    InText(f, Text(files), 0);
    var i := RankedHas(cs, n, f, 0);
  }

  lemma SortedLevelled(ps: seq<Np>, shape: Tree<nat>)
    requires multiset(ps) == multiset(Records(shape, 0)) && Sorted(ps, Cmpnp)
    ensures Levelled(ps, shape)
  {
    assert |ps| == |multiset(ps)| == |Records(shape, 0)|;
    forall i, j | 0 <= i < j < |ps| ensures ps[i].len <= ps[j].len { assert !(Cmpnp(ps[j], ps[i]) < 0); }
  }
}
