/** make_tree of encode.c: counting, the splitting of the sorted characters into a tree, the two sorts that give
    the characters to the leaves, and the code words. */
module HuffBuild {
  import opened Bytes
  import opened HuffTree
  import opened HuffCost
  import opened QSort

  /** A file to be archived: its name, what stdio reads from it, and the mode it is read in. */
  datatype Source = Source(name: seq<byte>, data: seq<byte>, asc: bool)

  /** A character with its frequency: an entry of clist, pointed to from cptrs. */
  datatype Chent = Chent(chr: byte, freq: nat)

  /** A leaf, known by the order of its making, with its level in an unsigned char. */
  datatype Np = Np(node: nat, len: byte)

  /** A code word: h_char. */
  datatype HChar = HChar(nbits: byte, cbits: seq<byte>)

  // ---------------------------------------------------------------- counting

  /** Everything that will be coded. */
  function Text(files: seq<Source>): seq<byte> {
    if files == [] then [] else Text(files[..|files| - 1]) + TextOf(files[|files| - 1])
  }

  function TextOf(f: Source): seq<byte> {
    f.data + f.name + [0]
  }

  ghost predicate Counted(freq: seq<nat>, text: seq<byte>) {
    |freq| == 256 && forall c: byte :: freq[c] == multiset(text)[c]
  }

  lemma CountedMore(freq: seq<nat>, text: seq<byte>, c: byte)
    requires Counted(freq, text)
    ensures Counted(freq[c := freq[c] + 1], text + [c])
  {
  }

  method CountChars(freq: array<nat>, s: seq<byte>, ghost text: seq<byte>)
    requires Counted(freq[..], text)
    modifies freq
    ensures Counted(freq[..], text + s)
  {
    hide Counted;
    assert |freq[..]| == 256 by { CountsLength(freq[..], text); }
    var i := 0;
    assert text + s[..0] == text;
    while i < |s|
      invariant 0 <= i <= |s| && Counted(freq[..], text + s[..i])
    {
      CountedMore(freq[..], text + s[..i], s[i]);
      ghost var before := freq[..];
      freq[s[i]] := freq[s[i]] + 1;
      assert freq[..] == before[s[i] := before[s[i]] + 1];
      assert text + s[..i + 1] == text + s[..i] + [s[i]];
      i := i + 1;
    }
    assert s[..|s|] == s;
  }

  lemma CountsLength(freq: seq<nat>, text: seq<byte>)
    requires Counted(freq, text)
    ensures |freq| == 256
  {
  }

  method CountFile(freq: array<nat>, f: Source, ghost text: seq<byte>)
    requires freq.Length == 256 && Counted(freq[..], text)
    modifies freq
    ensures Counted(freq[..], text + TextOf(f))
  {
    hide Counted;
    CountChars(freq, f.data, text);
    CountChars(freq, f.name, text + f.data);
    CountChars(freq, [0], text + f.data + f.name);
    assert text + f.data + f.name + [0] == text + TextOf(f);
  }

  /** The reading pass over the files. */
  method Count(files: seq<Source>) returns (freq: array<nat>)
    ensures fresh(freq) && freq.Length == 256 && Counted(freq[..], Text(files))
  {
    freq := new nat[256](_ => 0);
    assert Counted(freq[..], []);
    hide Counted, TextOf;
    var i := 0;
    while i < |files|
      invariant 0 <= i <= |files| && Counted(freq[..], Text(files[..i]))
    {
      CountFile(freq, files[i], Text(files[..i]));
      assert files[..i + 1][..i] == files[..i];
      i := i + 1;
    }
    assert files[..|files|] == files;
  }

  // ---------------------------------------------------------------- permutations of distinct elements

  lemma Occurrences<T>(s: seq<T>, i: nat, j: nat)
    requires i < j < |s| && s[i] == s[j]
    ensures multiset(s)[s[i]] >= 2
  {
    assert s == s[..i] + [s[i]] + s[i + 1..j] + [s[j]] + s[j + 1..];
  }

  lemma {:induction false} DistinctOnce<T(!new)>(s: seq<T>, x: T)
    requires Distinct(s)
    ensures multiset(s)[x] <= 1
  {
    if s != [] {
      var n := |s| - 1;
      DistinctOnce(s[..n], x);
      assert s == s[..n] + [s[n]];
      assert s[n] !in s[..n];
    }
  }

  lemma DistinctPermuted<T(!new)>(s: seq<T>, t: seq<T>)
    requires Distinct(s) && multiset(s) == multiset(t)
    ensures Distinct(t) && |s| == |t|
  {
    assert |s| == |multiset(s)| == |t|;
    forall i, j | 0 <= i < j < |t| ensures t[i] != t[j] {
      if t[i] == t[j] {
        Occurrences(t, i, j);
        DistinctOnce(s, t[i]);
      }
    }
  }

  // ---------------------------------------------------------------- sorting the characters

  function Cmpr(x: Chent, y: Chent): int {
    var i := y.freq - x.freq;
    if i > 0 then 1 else if i < 0 then -1 else 0
  }

  /** The characters by falling frequency; the first `n` are those in use. */
  ghost predicate Ranked(cs: seq<Chent>, n: nat, f: Counts) {
    && n <= 256 == |cs| && Distinct(cs)
    && (forall c: byte :: Chent(c, f[c]) in cs)
    && (forall i :: 0 <= i < 256 ==> cs[i].freq == f[cs[i].chr])
    && (forall i, j :: 0 <= i < j < 256 ==> cs[j].freq <= cs[i].freq)
    && (forall i :: 0 <= i < 256 ==> (cs[i].freq > 0 <==> i < n))
  }

  function Entries(f: Counts): (s: seq<Chent>)
    ensures |s| == 256
  {
    seq(256, c requires 0 <= c < 256 => Chent(c, f[c]))
  }

  lemma EntriesDistinct(f: Counts)
    ensures Distinct(Entries(f))
  {
  }

  lemma EntriesAll(f: Counts, c: byte)
    ensures Chent(c, f[c]) in Entries(f)
  {
    assert Entries(f)[c] == Chent(c, f[c]);
  }

  lemma CmprConsistent()
    ensures Consistent(Cmpr)
  {
  }

  lemma EntriesPermuted(f: Counts, cs: seq<Chent>, x: Chent)
    requires multiset(cs) == multiset(Entries(f))
    ensures x in cs ==> x.freq == f[x.chr]
    ensures x.freq == f[x.chr] ==> x in cs
  {
    if x in cs {
      assert x in multiset(Entries(f));
      assert x in Entries(f);
    }
    if x.freq == f[x.chr] {
      EntriesAll(f, x.chr);
      assert x in multiset(cs);
    }
  }

  method Rank(freq: array<nat>) returns (cptrs: array<Chent>, alfused: nat)
    requires freq.Length == 256
    ensures fresh(cptrs) && cptrs.Length == 256 && Ranked(cptrs[..], alfused, freq[..])
  {
    hide Consistent, Sorted;
    cptrs := new Chent[256](_ => Chent(0, 0));
    var c := 0;
    while c < 256
      invariant 0 <= c <= 256 && freq[..] == old(freq[..])
      invariant forall i :: 0 <= i < c ==> cptrs[i] == Chent(i, freq[i])
    {
      cptrs[c] := Chent(c, freq[c]);
      c := c + 1;
    }
    ghost var f: Counts := freq[..];
    assert cptrs[..] == Entries(f);
    EntriesDistinct(f);
    CmprConsistent();
    var ok := Qsort(cptrs, 2, Cmpr);
    ghost var cs := cptrs[..];
    DistinctPermuted(Entries(f), cs);
    alfused := 0;
    while alfused < 256 && cptrs[alfused].freq > 0
      invariant 0 <= alfused <= 256 && cptrs[..] == cs
      invariant forall i :: 0 <= i < alfused ==> cs[i].freq > 0
    {
      alfused := alfused + 1;
    }
    RankedNow(f, cs, alfused);
  }

  lemma RankedNow(f: Counts, cs: seq<Chent>, n: nat)
    requires multiset(cs) == multiset(Entries(f)) && Distinct(cs) && |cs| == 256 && Sorted(cs, Cmpr)
    requires n <= 256 && (forall i :: 0 <= i < n ==> cs[i].freq > 0) && (n < 256 ==> cs[n].freq == 0)
    ensures Ranked(cs, n, f)
  {
    forall i | 0 <= i < 256 ensures cs[i].freq == f[cs[i].chr] { EntriesPermuted(f, cs, cs[i]); }
    forall c: byte ensures Chent(c, f[c]) in cs { EntriesPermuted(f, cs, Chent(c, f[c])); }
    forall i, j | 0 <= i < j < 256 ensures cs[j].freq <= cs[i].freq { assert !(Cmpr(cs[j], cs[i]) < 0); }
  }

  // ---------------------------------------------------------------- splitting

  /** The frequencies of entries i to j - 1 together. */
  function Run(cs: seq<Chent>, i: nat, j: nat): nat
    requires j <= |cs|
    decreases j
  {
    if j <= i then 0 else Run(cs, i, j - 1) + cs[j - 1].freq
  }

  /** Division as C has it. */
  function Trunc(a: nat, b: int): int
    requires b != 0
  {
    if b > 0 then a / b else -(a / -b)
  }

  /** None of the totals from `first` up to before `k` reaches the target. */
  ghost predicate Short(cs: seq<Chent>, first: nat, k: nat, target: int)
    requires k < |cs|
  {
    forall j :: first < j <= k ==> Run(cs, first, j) < target
  }

  /** Where the range first to last is split: after the first entry with which the running total reaches the
      range's total divided by `factor`; but if only the last entry does, in the middle. */
  ghost predicate IsSplit(cs: seq<Chent>, factor: int, first: nat, last: nat, k: nat)
    requires last < |cs| && factor != 0
  {
    var target := Trunc(Run(cs, first, last + 1), factor);
    && first <= k < last
    && (if Short(cs, first, last, target) then k == (first + last) / 2
        else Short(cs, first, k, target) && Run(cs, first, k + 1) >= target)
  }

  /** `t` is the tree for entries first to last, with leaves numbered from `n`. */
  ghost predicate Built(cs: seq<Chent>, factor: int, first: nat, last: nat, n: nat, t: Tree<nat>)
    requires factor != 0 && last < |cs|
    decreases t
  {
    match t
    case Leaf(id) => first == last && id == n
    case Node(l, r) =>
      var k := first + |Leaves(l)| - 1;
      && first < last && IsSplit(cs, factor, first, last, k)
      && Built(cs, factor, first, k, n, l) && Built(cs, factor, k + 1, last, n + |Leaves(l)|, r)
  }

  /** One leaf for each entry, numbered from left to right. */
  lemma {:induction false} BuiltLeaves(cs: seq<Chent>, factor: int, first: nat, last: nat, n: nat, t: Tree<nat>, j: nat)
    requires factor != 0 && last < |cs| && Built(cs, factor, first, last, n, t)
    ensures |Leaves(t)| == last - first + 1
    ensures j < |Leaves(t)| ==> Leaves(t)[j] == n + j
    decreases t
  {
    hide IsSplit;
    match t
    case Leaf(_) =>
    case Node(l, r) =>
      var k := first + |Leaves(l)| - 1;
      assert IsSplit(cs, factor, first, last, k);
      SplitInside(cs, factor, first, last, k);
      BuiltLeaves(cs, factor, first, k, n, l, j);
      BuiltLeaves(cs, factor, k + 1, last, n + |Leaves(l)|, r, if j < |Leaves(l)| then 0 else j - |Leaves(l)|);
  }

  lemma SplitInside(cs: seq<Chent>, factor: int, first: nat, last: nat, k: nat)
    requires last < |cs| && factor != 0 && IsSplit(cs, factor, first, last, k)
    ensures first <= k < last
  {
  }

  /** What bld records for the leaves of `t`, the root of which it reaches at level `d`. */
  function Records(t: Tree<nat>, d: nat): (s: seq<Np>)
    ensures |s| == |Leaves(t)|
  {
    match t
    case Leaf(id) => [Np(id, (d + 1) % 256)]
    case Node(l, r) => Records(l, d + 1) + Records(r, d + 1)
  }

  lemma {:induction false} RecordsAt(t: Tree<nat>, d: nat, j: nat)
    requires j < |Leaves(t)|
    ensures Records(t, d)[j] == Np(Leaves(t)[j], (Depths(t, d)[j] + 1) % 256)
  {
    match t
    case Leaf(_) =>
    case Node(l, r) =>
      if j < |Leaves(l)| { RecordsAt(l, d + 1, j); } else { RecordsAt(r, d + 1, j - |Leaves(l)|); }
  }

  /** `s` with the elements from place `k` on replaced by `r`. */
  function Placed<T>(s: seq<T>, k: nat, r: seq<T>): seq<T>
    requires k + |r| <= |s|
  {
    s[..k] + r + s[k + |r|..]
  }

  lemma PlacedTwice<T>(s: seq<T>, k: nat, a: seq<T>, b: seq<T>)
    requires k + |a| + |b| <= |s|
    ensures |Placed(s, k, a)| == |s|
    ensures Placed(Placed(s, k, a), k + |a|, b) == Placed(s, k, a + b)
  {
  }

  class Builder {
    const cptrs: array<Chent>
    const nptrs: array<Np>
    const factor: int
    var level: nat        // an unsigned char in the source
    var nidx: nat

    ghost predicate Valid()
      reads this
    {
      factor != 0 && cptrs.Length == 256 && nidx <= nptrs.Length && cptrs as object != nptrs
    }

    constructor (cptrs: array<Chent>, nptrs: array<Np>, factor: int)
      requires factor != 0 && cptrs.Length == 256 && cptrs as object != nptrs
      ensures Valid() && level == 0 && nidx == 0
      ensures this.cptrs == cptrs && this.nptrs == nptrs && this.factor == factor
    {
      this.cptrs, this.nptrs, this.factor, level, nidx := cptrs, nptrs, factor, 0, 0;
    }

    /** The loops of bld. */
    method Split(first: nat, last: nat) returns (i: nat)
      requires Valid() && first < last < 256
      ensures IsSplit(cptrs[..], factor, first, last, i)
    {
      ghost var cs := cptrs[..];
      var tot: int := 0;
      i := first;
      while i <= last
        invariant first <= i <= last + 1 && tot == Run(cs, first, i)
      {
        tot := tot + cptrs[i].freq;
        i := i + 1;
      }
      tot := if factor > 0 then tot / factor else -(tot / -factor);
      assert tot == Trunc(Run(cs, first, last + 1), factor);
      i := first;
      var run := cptrs[first].freq;
      assert Run(cs, first, first) == 0;
      while run < tot && i != last
        invariant first <= i <= last && run == Run(cs, first, i + 1)
        invariant Short(cs, first, i, tot)
        decreases last - i
      {
        i := i + 1;
        run := run + cptrs[i].freq;
      }
      if i == last {
        i := (first + last) / 2;
      }
    }

    method NewLeaf(ghost first: nat) returns (t: Tree<nat>)
      requires Valid() && nidx < nptrs.Length && level < 256 && first < 256
      modifies this`nidx, nptrs
      ensures Valid() && nidx == old(nidx) + 1 && Built(cptrs[..], factor, first, first, old(nidx), t)
      ensures |Records(t, level)| == 1 && nptrs[..] == Placed(old(nptrs[..]), old(nidx), Records(t, level))
    {
      nptrs[nidx] := Np(nidx, (level + 1) % 256);
      t := Leaf(nidx);
      nidx := nidx + 1;
    }

    method Bld(first: nat, last: nat) returns (t: Tree<nat>)
      requires Valid() && first <= last < 256 && nidx + (last - first) < nptrs.Length && level + (last - first) < 256
      modifies this`level, this`nidx, nptrs
      ensures Valid() && level == old(level) && nidx == old(nidx) + (last - first) + 1
      ensures Built(cptrs[..], factor, first, last, old(nidx), t)
      ensures |Records(t, level)| == last - first + 1
      ensures nptrs[..] == Placed(old(nptrs[..]), old(nidx), Records(t, level))
      decreases last - first
    {
      hide IsSplit, Placed;
      if first == last {
        t := NewLeaf(first);
        return;
      }
      level := level + 1;
      var i := Split(first, last);
      SplitInside(cptrs[..], factor, first, last, i);
      var l: Tree<nat>;
      if i == first {
        l := NewLeaf(first);
      } else {
        l := Bld(first, i);
      }
      BuiltLeaves(cptrs[..], factor, first, i, old(nidx), l, 0);
      var r := Bld(i + 1, last);
      BuiltLeaves(cptrs[..], factor, i + 1, last, old(nidx) + |Leaves(l)|, r, 0);
      t := Node(l, r);
      level := level - 1;
      PlacedTwice(old(nptrs[..]), old(nidx), Records(l, level + 1), Records(r, level + 1));
    }
  }
}
