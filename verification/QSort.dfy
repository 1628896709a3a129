/** qsort.c: Wirth's quicksort with an explicit stack of twenty pending segments. */
module QSort {

  /** `cmp` orders the elements: what the source expects of its comparison function. */
  ghost predicate Consistent<T(!new)>(cmp: (T, T) -> int) {
    && (forall x, y :: cmp(x, y) < 0 ==> !(cmp(y, x) < 0))
    && (forall x, y, z :: !(cmp(y, x) < 0) && !(cmp(z, y) < 0) ==> !(cmp(z, x) < 0))
  }

  /** Every element left of position `k` is at most every element from `k` on. */
  ghost predicate Cut<T(!new)>(a: seq<T>, cmp: (T, T) -> int, k: int) {
    forall i, j :: 0 <= i < k <= j < |a| ==> !(cmp(a[j], a[i]) < 0)
  }

  ghost predicate Sorted<T(!new)>(a: seq<T>, cmp: (T, T) -> int) {
    forall i, j :: 0 <= i < j < |a| ==> !(cmp(a[j], a[i]) < 0)
  }

  /** A stretch of the array still to be sorted, both ends included. */
  datatype Segment = Segment(l: int, r: int)

  /** `k` lies inside `g`: nothing is yet known of the cut there. */
  predicate Inside(g: Segment, k: int) {
    g.l < k <= g.r
  }

  ghost predicate InsideAny(gs: seq<Segment>, k: int) {
    exists t :: 0 <= t < |gs| && Inside(gs[t], k)
  }

  /** All cuts are in place but those inside a pending segment. */
  ghost predicate Progress<T(!new)>(a: seq<T>, cmp: (T, T) -> int, gs: seq<Segment>, cur: Segment) {
    forall k :: 0 < k < |a| ==> Cut(a, cmp, k) || Inside(cur, k) || InsideAny(gs, k)
  }

  /** `c`, doubled `d` times, is at most `n`. */
  predicate Fits(c: int, d: nat, n: nat)
    decreases d
  {
    if d == 0 then c <= n else Fits(2 * c, d - 1, n)
  }

  lemma {:induction false} FitsMonotone(b: int, c: int, d: nat, n: nat)
    requires b <= c && Fits(c, d, n)
    ensures Fits(b, d, n)
    decreases d
  {
    if d > 0 { FitsMonotone(2 * b, 2 * c, d - 1, n); }
  }

  lemma {:induction false} FitsDoubled(c: int, d: nat, n: nat)
    requires Fits(2 * c, d, n)
    ensures Fits(c, d + 1, n)
  {
  }

  /** A segment of two or more cannot have been halved fourteen times. */
  lemma FitsShallow(c: int, d: nat)
    requires 2 <= c && Fits(c, d, 32767)
    ensures d <= 13
  {
    assert !Fits(2, 14, 32767);
    if d >= 14 {
      FitsMonotone(2, c, d, 32767);
      FitsDeep(2, d, 14);
    }
  }

  lemma {:induction false} FitsDeep(c: int, d: nat, e: nat)
    requires e <= d && 0 <= c && Fits(c, d, 32767)
    ensures Fits(c, e, 32767)
    decreases e
  {
    if e > 0 {
      FitsDeep(2 * c, d - 1, e - 1);
    } else {
      FitsTop(c, d);
    }
  }

  lemma {:induction false} FitsTop(c: int, d: nat)
    requires 0 <= c && Fits(c, d, 32767)
    ensures c <= 32767
    decreases d
  {
    if d > 0 { FitsTop(2 * c, d - 1); }
  }

  /** Every pending segment is inside the array and small for its depth. */
  ghost predicate Stacked(gs: seq<Segment>, n: nat) {
    forall t :: 0 <= t < |gs| ==> 0 <= gs[t].l < gs[t].r < n && Fits(gs[t].r - gs[t].l + 1, t, n)
  }

  // ---------------------------------------------------------------- 16-bit arithmetic

  /** A sum as a 16-bit int holds it. */
  function Int16(x: int): int {
    (x + 0x8000) % 0x1_0000 - 0x8000
  }

  /** (i + j) / 2 as compiled: wrapped to 16 bits, then truncated towards zero. */
  function Middle(i: int, j: int): int {
    var s := Int16(i + j);
    if s >= 0 then s / 2 else -(-s / 2)
  }

  /** The middle is between the ends exactly when the sum of the ends fits, and negative when it does not. */
  lemma MiddleExact(i: int, j: int)
    requires 0 <= i <= j < 0x8000
    ensures i <= Middle(i, j) <= j <==> i + j < 0x8000
    ensures i + j >= 0x8000 ==> Middle(i, j) < 0
  {
  }

  /** The bytes of an array. A function of its own, so that proofs need not look inside it. */
  function Size(n: nat, width: nat): nat {
    n * width
  }

  /** Where the pivot is fetched from: the offset in bytes, which wraps round as addresses do. */
  function PivotAt(width: nat, i: int, j: int): int {
    width * Middle(i, j) % 0x1_0000
  }

  /** The number of the element there. */
  function Pivot(width: nat, i: int, j: int): int
    requires width > 0
  {
    PivotAt(width, i, j) / width
  }

  /** It is an element of the stretch. */
  predicate Found(width: nat, i: int, j: int)
    requires width > 0
  {
    PivotAt(width, i, j) % width == 0 && i <= Pivot(width, i, j) <= j
  }

  lemma Offset(width: nat, k: nat)
    requires width > 0
    ensures width * k / width == k && width * k % width == 0
  {
    var q, r := width * k / width, width * k % width;
    Multiples(width, k, q, r);
  }

  lemma Multiples(w: nat, k: int, q: int, r: int)
    requires w > 0 && w * k == q * w + r && 0 <= r < w
    ensures q == k && r == 0
  {
    var d := k - q;
    assert w * d == r;
    AtLeast(w, d);
    AtLeast(w, -d);
  }

  lemma AtLeast(w: nat, d: int)
    ensures d >= 1 ==> w * d >= w
    ensures w * -d == -(w * d)
  {
  }

  lemma SmallOffset(width: nat, k: nat, n: nat)
    requires width > 0 && k < n && Size(n, width) <= 0x1_0000
    ensures 0 <= width * k < 0x1_0000
  {
    AtLeast(width, n - k);
    Apart(width, k, n - k);
  }

  lemma Apart(width: nat, k: nat, d: nat)
    ensures (k + d) * width == width * k + width * d
  {
  }

  /** In an array that goes beyond the middle of the numbers an element has at most three bytes. */
  lemma Narrow(width: nat, n: nat)
    requires n > 16384 && Size(n, width) <= 0x1_0000
    ensures width <= 3
  {
    assert n * width == width * n;
    assert width >= 4 ==> width * n >= 4 * n;
  }

  /** The pivot is found exactly if the sum of the ends fits or elements have an even number of bytes: then what is lost of
      the sum is a whole turn of the addresses. */
  lemma FoundExact(width: nat, i: int, j: int, n: nat)
    requires width > 0 && 0 <= i <= j < n < 0x8000 && Size(n, width) <= 0x1_0000
    ensures Found(width, i, j) <==> width % 2 == 0 || i + j < 0x8000
    ensures i + j < 0x8000 ==> Pivot(width, i, j) == Middle(i, j)
  {
    if i + j < 0x8000 {
      MiddleExact(i, j);
      var k := Middle(i, j);
      hide Middle, Size;
      SmallOffset(width, k, n);
      Offset(width, k);
    } else {
      Narrow(width, n);
      hide Size;
      assert Middle(i, j) == (i + j + 1) / 2 - 0x8000;
      FoundNarrow(width, i, j, (i + j + 1) / 2);
    }
  }

  lemma FoundNarrow(width: nat, i: int, j: int, k: int)
    requires 1 <= width <= 3 && 0 <= i <= j < 0x8000 && i + j >= 0x8000 && i <= k <= j && 2 * k >= 0x8000
    requires Middle(i, j) == k - 0x8000 && (width == 3 ==> j < 21846)
    ensures Found(width, i, j) <==> width % 2 == 0
  {
    hide Middle;
    if width == 1 {
      assert PivotAt(width, i, j) == k + 0x8000;
    } else if width == 2 {
      assert PivotAt(width, i, j) == 2 * k;
    } else {
      assert PivotAt(width, i, j) == 3 * k - 0x8000;
    }
  }

  // ---------------------------------------------------------------- partitioning

  ghost predicate Among<T(!new)>(a: seq<T>, x: T, l: int, r: int) {
    exists j :: l <= j <= r && 0 <= j < |a| && x == a[j]
  }

  /** `b` is `a` with its elements in [l, r] rearranged. */
  ghost predicate Rearranged<T(!new)>(a: seq<T>, b: seq<T>, l: int, r: int) {
    && |a| == |b| && multiset(a) == multiset(b)
    && (forall i :: 0 <= i < |a| && !(l <= i <= r) ==> b[i] == a[i])
    && (forall i :: 0 <= i < |a| && l <= i <= r ==> Among(a, b[i], l, r))
  }

  lemma CutKept<T(!new)>(a: seq<T>, b: seq<T>, cmp: (T, T) -> int, l: int, r: int, k: int)
    requires Rearranged(a, b, l, r) && Cut(a, cmp, k) && (k <= l || r < k)
    ensures Cut(b, cmp, k)
  {
    forall i, j | 0 <= i < k <= j < |b| ensures !(cmp(b[j], b[i]) < 0) {
      var i' := if l <= i <= r then (var x :| l <= x <= r && 0 <= x < |a| && b[i] == a[x]; x) else i;
      var j' := if l <= j <= r then (var x :| l <= x <= r && 0 <= x < |a| && b[j] == a[x]; x) else j;
      assert !(cmp(a[j'], a[i']) < 0);
    }
  }

  lemma SwapMultiset<T>(b: seq<T>, i: int, j: int)
    requires 0 <= i < |b| && 0 <= j < |b|
    ensures multiset(b[i := b[j]][j := b[i]]) == multiset(b)
  {
  }

  lemma RearrangedSelf<T(!new)>(a: seq<T>, l: int, r: int)
    ensures Rearranged(a, a, l, r)
  {
    forall i | 0 <= i < |a| && l <= i <= r ensures Among(a, a[i], l, r) { assert a[i] == a[i]; }
  }

  /** Exchanging two elements of the stretch. */
  lemma Exchanged<T(!new)>(a: seq<T>, b: seq<T>, l: int, r: int, i: int, j: int)
    requires Rearranged(a, b, l, r) && 0 <= l <= i <= r < |a| && l <= j <= r
    ensures |b| == |a| && Rearranged(a, b[i := b[j]][j := b[i]], l, r)
  {
    var c := b[i := b[j]][j := b[i]];
    SwapMultiset(b, i, j);
    forall x | 0 <= x < |a| && l <= x <= r ensures Among(a, c[x], l, r) {
      var z := if x == j then i else if x == i then j else x;
      assert c[x] == b[z];
    }
  }

  /** What the scans of one pass keep: left of `i` nothing exceeds the pivot, right of `j` nothing is below it,
      and each scan still has an element ahead that stops it. */
  ghost predicate Scanned<T(!new)>(a: seq<T>, cmp: (T, T) -> int, x: T, l: int, r: int, i: int, j: int) {
    && 0 <= l <= i <= r + 1 && l - 1 <= j <= r < |a|
    && (forall m :: l <= m < i ==> !(cmp(x, a[m]) < 0))
    && (forall m :: j < m <= r ==> !(cmp(a[m], x) < 0))
  }

  ghost predicate StopsUp<T(!new)>(a: seq<T>, cmp: (T, T) -> int, x: T, i: int, stop: int) {
    0 <= i <= stop < |a| && !(cmp(a[stop], x) < 0)
  }

  ghost predicate StopsDown<T(!new)>(a: seq<T>, cmp: (T, T) -> int, x: T, j: int, stop: int) {
    0 <= stop <= j < |a| && !(cmp(x, a[stop]) < 0)
  }

  method Swap<T>(a: array<T>, i: int, j: int)
    requires 0 <= i < a.Length && 0 <= j < a.Length
    modifies a
    ensures a[..] == old(a[..])[i := old(a[j])][j := old(a[i])]
  {
    a[i], a[j] := a[j], a[i];
  }

  lemma Asymmetric<T(!new)>(cmp: (T, T) -> int, x: T, y: T)
    requires Consistent(cmp) && cmp(x, y) < 0
    ensures !(cmp(y, x) < 0)
  {
  }

  lemma Reflexive<T(!new)>(cmp: (T, T) -> int, x: T)
    requires Consistent(cmp)
    ensures !(cmp(x, x) < 0)
  {
  }

  /** The exchange keeps what the scans have found, and leaves each a new stop. */
  lemma StillScanned<T(!new)>(a: seq<T>, cmp: (T, T) -> int, x: T, l: int, r: int, i: int, j: int)
    requires Scanned(a, cmp, x, l, r, i, j) && i <= j && l <= i && j <= r && !(cmp(a[i], x) < 0) && !(cmp(x, a[j]) < 0)
    ensures var b := a[i := a[j]][j := a[i]];
      Scanned(b, cmp, x, l, r, i + 1, j - 1)
      && (i < j ==> StopsUp(b, cmp, x, i + 1, j) && StopsDown(b, cmp, x, j - 1, i))
  {
  }

  /** Strictly in order. */
  ghost predicate Rising<T(!new)>(a: seq<T>, cmp: (T, T) -> int) {
    forall i, j :: 0 <= i < j < |a| ==> cmp(a[i], a[j]) < 0
  }

  /** All the same. */
  ghost predicate Level<T(!new)>(a: seq<T>, cmp: (T, T) -> int) {
    forall i, j :: 0 <= i < |a| && 0 <= j < |a| ==> !(cmp(a[i], a[j]) < 0)
  }

  /** Arrays on which every partition goes about the middle. */
  ghost predicate Regular<T(!new)>(a: seq<T>, cmp: (T, T) -> int) {
    Rising(a, cmp) || Level(a, cmp)
  }

  lemma LevelKept<T(!new)>(a: seq<T>, b: seq<T>, cmp: (T, T) -> int, l: int, r: int, k: int)
    requires Level(a, cmp) && Rearranged(a, b, l, r) && 0 <= k < |a|
    ensures Level(b, cmp) && forall m :: 0 <= m < |b| ==> !(cmp(b[m], a[k]) < 0) && !(cmp(a[k], b[m]) < 0)
  {
    forall m | 0 <= m < |b| ensures exists j :: 0 <= j < |a| && b[m] == a[j] {
      if l <= m <= r {
        assert Among(a, b[m], l, r);
      } else {
        assert b[m] == a[m];
      }
    }
  }

  lemma RisingStops<T(!new)>(a: seq<T>, cmp: (T, T) -> int, mid: int, i: int, j: int)
    requires Rising(a, cmp) && 0 <= i <= mid <= j < |a| && !(cmp(a[i], a[mid]) < 0) && !(cmp(a[mid], a[j]) < 0)
    ensures i == mid == j
  {
  }

  lemma StepUp<T(!new)>(a: seq<T>, cmp: (T, T) -> int, x: T, l: int, r: int, i: int, j: int, stop: int)
    requires Consistent(cmp) && Scanned(a, cmp, x, l, r, i, j) && StopsUp(a, cmp, x, i, stop) && stop <= r
    ensures 0 <= i <= stop < |a|
    ensures cmp(a[i], x) < 0 ==> Scanned(a, cmp, x, l, r, i + 1, j) && StopsUp(a, cmp, x, i + 1, stop)
  {
    if cmp(a[i], x) < 0 { Asymmetric(cmp, a[i], x); }
  }

  lemma StepDown<T(!new)>(a: seq<T>, cmp: (T, T) -> int, x: T, l: int, r: int, i: int, j: int, stop: int)
    requires Consistent(cmp) && Scanned(a, cmp, x, l, r, i, j) && StopsDown(a, cmp, x, j, stop) && l <= stop
    ensures 0 <= stop <= j < |a|
    ensures cmp(x, a[j]) < 0 ==> Scanned(a, cmp, x, l, r, i, j - 1) && StopsDown(a, cmp, x, j - 1, stop)
  {
    if cmp(x, a[j]) < 0 { Asymmetric(cmp, x, a[j]); }
  }

  /** The scan from the left, up to an element that is not below the pivot. */
  method ScanUp<T(!new)>(a: array<T>, cmp: (T, T) -> int, x: T, ghost l: int, ghost r: int, from: int, ghost j: int, ghost up: int)
    returns (i: int)
    requires Consistent(cmp) && Scanned(a[..], cmp, x, l, r, from, j) && StopsUp(a[..], cmp, x, from, up) && up <= r
    ensures Scanned(a[..], cmp, x, l, r, i, j) && StopsUp(a[..], cmp, x, i, up) && 0 <= from <= i < a.Length
    ensures !(cmp(a[i], x) < 0) && (!(cmp(a[from], x) < 0) ==> i == from)
  {
    hide Consistent, Scanned, StopsUp;
    StepUp(a[..], cmp, x, l, r, from, j, up);
    i := from;
    while cmp(a[i], x) < 0
      invariant from <= i <= up < a.Length && Scanned(a[..], cmp, x, l, r, i, j) && StopsUp(a[..], cmp, x, i, up)
      invariant i > from ==> cmp(a[from], x) < 0
      decreases up - i
    {
      StepUp(a[..], cmp, x, l, r, i, j, up);
      i := i + 1;
      StepUp(a[..], cmp, x, l, r, i, j, up);
    }
  }

  /** The scan from the right, down to an element that is not above the pivot. */
  method ScanDown<T(!new)>(a: array<T>, cmp: (T, T) -> int, x: T, ghost l: int, ghost r: int, ghost i: int, from: int, ghost down: int)
    returns (j: int)
    requires Consistent(cmp) && Scanned(a[..], cmp, x, l, r, i, from) && StopsDown(a[..], cmp, x, from, down) && l <= down
    ensures Scanned(a[..], cmp, x, l, r, i, j) && StopsDown(a[..], cmp, x, j, down) && 0 <= j <= from < a.Length
    ensures !(cmp(x, a[j]) < 0) && (!(cmp(x, a[from]) < 0) ==> j == from)
  {
    hide Consistent, Scanned, StopsDown;
    StepDown(a[..], cmp, x, l, r, i, from, down);
    j := from;
    while cmp(x, a[j]) < 0
      invariant 0 <= down <= j <= from < a.Length && Scanned(a[..], cmp, x, l, r, i, j) && StopsDown(a[..], cmp, x, j, down)
      invariant j < from ==> cmp(x, a[from]) < 0
      decreases j - down
    {
      StepDown(a[..], cmp, x, l, r, i, j, down);
      j := j - 1;
      StepDown(a[..], cmp, x, l, r, i, j, down);
    }
  }

  /** The inner passes of the source: exchange elements about the middle one, `x`, until the scans cross. `ok`: what is fetched
      as the middle one is an element of the stretch; if it is not there is no saying what happens. */
  method Partition<T(!new)>(a: array<T>, width: nat, cmp: (T, T) -> int, l: int, r: int)
    returns (ok: bool, i: int, j: int, ghost x: T)
    requires Consistent(cmp) && 0 <= l <= r < a.Length < 0x8000 && 0 < width && Size(a.Length, width) <= 0x1_0000
    modifies a
    ensures ok <==> width % 2 == 0 || l + r < 0x8000
    ensures !ok ==> a[..] == old(a[..])
    ensures ok ==> Rearranged(old(a[..]), a[..], l, r) && Scanned(a[..], cmp, x, l, r, i, j)
    ensures ok ==> l < i && j < r && j < i
    ensures ok && Regular(old(a[..]), cmp) ==> Regular(a[..], cmp)
    ensures ok && Regular(old(a[..]), cmp) && l + r < 0x8000 ==> i == (l + r) / 2 + 1
  {
    FoundExact(width, l, r, a.Length);
    if l + r < 0x8000 { MiddleIs(width, l, r, a.Length); }
    hide Rising, Level;
    i, j, x := l, r, a[l];
    var at := PivotAt(width, i, j);
    var k := at / width;
    ok := at % width == 0 && i <= k <= j;
    if ok {
      i, j, x := Exchange(a, cmp, l, r, k);
    }
  }

  lemma Starts<T(!new)>(a: seq<T>, cmp: (T, T) -> int, l: int, r: int, k: int)
    requires Consistent(cmp) && 0 <= l <= k <= r < |a|
    ensures Scanned(a, cmp, a[k], l, r, l, r) && StopsUp(a, cmp, a[k], l, k) && StopsDown(a, cmp, a[k], r, k)
  {
    Reflexive(cmp, a[k]);
  }

  /** One pass: both scans, and the exchange unless they have crossed. `up` and `down` are elements that stop them. */
  method Pass<T(!new)>(a: array<T>, cmp: (T, T) -> int, x: T, l: int, r: int, from: int, to: int,
                       ghost was: seq<T>, ghost k: int, ghost up: int, ghost down: int)
    returns (i: int, j: int, ghost up': int, ghost down': int)
    requires Consistent(cmp) && Rearranged(was, a[..], l, r) && 0 <= k < |was| && x == was[k]
    requires Scanned(a[..], cmp, x, l, r, from, to) && from <= to
    requires StopsUp(a[..], cmp, x, from, up) && up <= r && StopsDown(a[..], cmp, x, to, down) && l <= down
    requires (up == down && from == l && to == r) || (l < from && to < r)
    modifies a
    ensures Rearranged(was, a[..], l, r) && Scanned(a[..], cmp, x, l, r, i, j) && l < i && j < r
    ensures i <= j ==> StopsUp(a[..], cmp, x, i, up') && up' <= r && StopsDown(a[..], cmp, x, j, down') && l <= down'
    ensures i <= j ==> from < i && j < to
    ensures Rising(was, cmp) && old(a[..]) == was && up == k == down ==> a[..] == was && i == k + 1 && j == k - 1
    ensures Level(was, cmp) ==> i == from + 1 && j == to - 1
  {
    hide Rearranged, Consistent, Rising, Level, StopsUp, StopsDown, Scanned;
    ghost var s := a[..];
    SameLength(was, s, l, r);
    i, j := Scans(a, cmp, x, l, r, from, to, was, k, up, down);
    up', down' := up, down;
    if i <= j {
      Exchanged(was, s, l, r, i, j);
      Swap(a, i, j);
      StillScanned(s, cmp, x, l, r, i, j);
      up', down' := j, i;
      i, j := i + 1, j - 1;
    }
  }

  /** Both scans. */
  method Scans<T(!new)>(a: array<T>, cmp: (T, T) -> int, x: T, l: int, r: int, from: int, to: int,
                        ghost was: seq<T>, ghost k: int, ghost up: int, ghost down: int)
    returns (i: int, j: int)
    requires Consistent(cmp) && Rearranged(was, a[..], l, r) && 0 <= k < |was| == a.Length && x == was[k]
    requires Scanned(a[..], cmp, x, l, r, from, to) && from <= to
    requires StopsUp(a[..], cmp, x, from, up) && up <= r && StopsDown(a[..], cmp, x, to, down) && l <= down
    ensures Scanned(a[..], cmp, x, l, r, i, j) && 0 <= l <= from <= i <= up <= r && l <= down <= j <= to <= r < a.Length
    ensures !(cmp(a[i], x) < 0) && !(cmp(x, a[j]) < 0)
    ensures Rising(was, cmp) && a[..] == was && up == k == down ==> i == k == j
    ensures Level(was, cmp) ==> i == from && j == to
  {
    hide Rearranged, Consistent, Rising, Level;
    if Level(was, cmp) { LevelKept(was, a[..], cmp, l, r, k); }
    i := ScanUp(a, cmp, x, l, r, from, to, up);
    j := ScanDown(a, cmp, x, l, r, i, to, down);
    if Rising(was, cmp) && a[..] == was && up == k == down { RisingStops(was, cmp, k, i, j); }
  }

  /** The passes about element `k`. */
  method Exchange<T(!new)>(a: array<T>, cmp: (T, T) -> int, l: int, r: int, k: int) returns (i: int, j: int, ghost x: T)
    requires Consistent(cmp) && 0 <= l <= k <= r < a.Length
    modifies a
    ensures Rearranged(old(a[..]), a[..], l, r) && Scanned(a[..], cmp, x, l, r, i, j)
    ensures l < i && j < r && j < i
    ensures Rising(old(a[..]), cmp) ==> a[..] == old(a[..]) && i == k + 1
    ensures Level(old(a[..]), cmp) ==> Level(a[..], cmp) && i == (l + r) / 2 + 1
  {
    Starts(a[..], cmp, l, r, k);
    RearrangedSelf(a[..], l, r);
    hide Rearranged, Consistent, Rising, Level, Scanned, StopsUp, StopsDown;
    i, j := l, r;
    var pivot := a[k];
    x := pivot;
    ghost var was, up, down := a[..], k, k;
    while true
      invariant Rearranged(was, a[..], l, r) && Scanned(a[..], cmp, x, l, r, i, j) && i <= j
      invariant StopsUp(a[..], cmp, x, i, up) && up <= r && StopsDown(a[..], cmp, x, j, down) && l <= down
      invariant (up == down && i == l && j == r) || (l < i && j < r)
      invariant Rising(was, cmp) ==> a[..] == was && up == k == down
      invariant Level(was, cmp) ==> i + j == l + r
      decreases j - i
    {
      i, j, up, down := Pass(a, cmp, pivot, l, r, i, j, was, k, up, down);
      if i > j {
        if Level(was, cmp) { LevelKept(was, a[..], cmp, l, r, k); }
        return;
      }
    }
  }

  // ---------------------------------------------------------------- the pending segments

  predicate Clear(g: Segment, h: Segment) {
    g.r < h.l || h.r < g.l
  }

  ghost predicate ClearOfAll(gs: seq<Segment>, cur: Segment) {
    forall t :: 0 <= t < |gs| ==> Clear(gs[t], cur)
  }

  ghost predicate AllClear(gs: seq<Segment>) {
    forall t, u :: 0 <= t < u < |gs| ==> Clear(gs[t], gs[u])
  }

  /** The state of the sort: what is pending, `cur` being worked on, and every other cut made. */
  ghost predicate Pending<T(!new)>(a: seq<T>, cmp: (T, T) -> int, gs: seq<Segment>, cur: Segment) {
    && Progress(a, cmp, gs, cur) && Stacked(gs, |a|) && AllClear(gs) && ClearOfAll(gs, cur)
    && 0 <= cur.l && cur.r < |a| && Fits(cur.r - cur.l + 1, |gs|, |a|)
  }

  /** After a partition the cuts between the scans are made. */
  lemma CutMade<T(!new)>(a: seq<T>, b: seq<T>, cmp: (T, T) -> int, x: T, l: int, r: int, i: int, j: int, k: int)
    requires Consistent(cmp) && Rearranged(a, b, l, r) && Scanned(b, cmp, x, l, r, i, j) && j < k <= i
    requires Cut(a, cmp, l) && Cut(a, cmp, r + 1)
    ensures Cut(b, cmp, k)
  {
    CutKept(a, b, cmp, l, r, l);
    CutKept(a, b, cmp, l, r, r + 1);
    forall m, n | 0 <= m < k <= n < |b| ensures !(cmp(b[n], b[m]) < 0) {
      if m < l {
        assert l <= n;
      } else if r < n {
        assert m <= r;
      } else {
        Between(cmp, b[m], x, b[n]);
      }
    }
  }

  lemma Between<T(!new)>(cmp: (T, T) -> int, x: T, y: T, z: T)
    requires Consistent(cmp) && !(cmp(y, x) < 0) && !(cmp(z, y) < 0)
    ensures !(cmp(z, x) < 0)
  {
  }

  /** A partition leaves pending what was pending and the two sides. */
  lemma Divided<T(!new)>(a: seq<T>, b: seq<T>, cmp: (T, T) -> int, gs: seq<Segment>, x: T,
                         l: int, r: int, i: int, j: int, k: int)
    requires Consistent(cmp) && Pending(a, cmp, gs, Segment(l, r)) && Rearranged(a, b, l, r)
    requires Scanned(b, cmp, x, l, r, i, j) && j < i && 0 < k < |b|
    ensures Cut(b, cmp, k) || Inside(Segment(l, j), k) || Inside(Segment(i, r), k) || InsideAny(gs, k)
  {
    hide Consistent, Rearranged;
    assert |a| == |b| by { SameLength(a, b, l, r); }
    if !InsideAny(gs, k) && !Inside(Segment(l, r), k) {
      CutKept(a, b, cmp, l, r, k);
    } else if !InsideAny(gs, k) && j < k <= i {
      Edge(a, cmp, gs, l, r, l);
      Edge(a, cmp, gs, l, r, r + 1);
      CutMade(a, b, cmp, x, l, r, i, j, k);
    }
  }

  lemma SameLength<T(!new)>(a: seq<T>, b: seq<T>, l: int, r: int)
    requires Rearranged(a, b, l, r)
    ensures |a| == |b| && multiset(a) == multiset(b)
  {
  }

  /** The cuts at the ends of the current segment are made. */
  lemma Edge<T(!new)>(a: seq<T>, cmp: (T, T) -> int, gs: seq<Segment>, l: int, r: int, k: int)
    requires Pending(a, cmp, gs, Segment(l, r)) && l <= r && (k == l || k == r + 1)
    ensures Cut(a, cmp, k)
  {
    if 0 < k < |a| {
      if t :| 0 <= t < |gs| && Inside(gs[t], k) { assert Clear(gs[t], Segment(l, r)); }
    }
  }

  /** One side stacked, the other, no larger, worked on next. */
  lemma SideStacked<T(!new)>(a: seq<T>, b: seq<T>, cmp: (T, T) -> int, gs: seq<Segment>, x: T,
                             l: int, r: int, i: int, j: int, g: Segment, cur: Segment)
    requires Consistent(cmp) && Pending(a, cmp, gs, Segment(l, r)) && Rearranged(a, b, l, r)
    requires Scanned(b, cmp, x, l, r, i, j) && j < i && l < i && j < r
    requires (g == Segment(i, r) && cur == Segment(l, j)) || (g == Segment(l, j) && cur == Segment(i, r))
    requires g.l < g.r && cur.r - cur.l <= g.r - g.l && |a| <= 32767
    ensures Pending(b, cmp, gs + [g], cur) && |gs| <= 13
  {
    SameLength(a, b, l, r);
    forall k | 0 < k < |b| ensures Cut(b, cmp, k) || Inside(cur, k) || InsideAny(gs + [g], k) {
      Divided(a, b, cmp, gs, x, l, r, i, j, k);
      InsideMore(gs, g, k);
    }
    hide Consistent, Rearranged, Cut, InsideAny, Inside;
    assert Progress(b, cmp, gs + [g], cur);
    assert 0 <= l && r < |b| && l <= g.l && g.r <= r && l <= cur.l && cur.r <= r && Clear(g, cur);
    hide Progress, Scanned;
    StackedShape(gs, |b|, l, r, g, cur);
  }

  lemma StackedShape(gs: seq<Segment>, n: nat, l: int, r: int, g: Segment, cur: Segment)
    requires Stacked(gs, n) && AllClear(gs) && ClearOfAll(gs, Segment(l, r)) && Fits(r - l + 1, |gs|, n) && n <= 32767
    requires 0 <= l && r < n && l <= g.l < g.r <= r && l <= cur.l && cur.r <= r && Clear(g, cur)
    requires 2 * (cur.r - cur.l + 1) <= r - l + 1
    ensures Stacked(gs + [g], n) && AllClear(gs + [g]) && ClearOfAll(gs + [g], cur)
    ensures Fits(cur.r - cur.l + 1, |gs + [g]|, n) && |gs| <= 13
  {
    StackedDepth(|gs|, n, l, r, g, cur);
    StackedMore(gs, n, g);
    hide *;
    AllClearMore(gs, g, cur, l, r);
  }

  lemma StackedMore(gs: seq<Segment>, n: nat, g: Segment)
    requires Stacked(gs, n) && 0 <= g.l < g.r < n && Fits(g.r - g.l + 1, |gs|, n)
    ensures Stacked(gs + [g], n) && forall t :: 0 <= t < |gs| ==> gs[t].l <= gs[t].r
  {
    hide Fits;
  }

  lemma StackedDepth(d: nat, n: nat, l: int, r: int, g: Segment, cur: Segment)
    requires Fits(r - l + 1, d, n) && n <= 32767 && l <= g.l < g.r <= r && 2 * (cur.r - cur.l + 1) <= r - l + 1
    ensures Fits(cur.r - cur.l + 1, d + 1, n) && Fits(g.r - g.l + 1, d, n) && d <= 13
  {
    FitsMonotone(2 * (cur.r - cur.l + 1), r - l + 1, d, n);
    FitsDoubled(cur.r - cur.l + 1, d, n);
    FitsMonotone(g.r - g.l + 1, r - l + 1, d, n);
    FitsShallowAny(g.r - g.l + 1, d, n);
  }

  lemma FitsShallowAny(c: int, d: nat, n: nat)
    requires 2 <= c && Fits(c, d, n) && n <= 32767
    ensures d <= 13
  {
    FitsWider(c, d, n);
    FitsShallow(c, d);
  }

  lemma {:induction false} FitsWider(c: int, d: nat, n: nat)
    requires Fits(c, d, n) && n <= 32767
    ensures Fits(c, d, 32767)
    decreases d
  {
    if d > 0 { FitsWider(2 * c, d - 1, n); }
  }

  lemma InsideMore(gs: seq<Segment>, g: Segment, k: int)
    ensures InsideAny(gs + [g], k) <==> InsideAny(gs, k) || Inside(g, k)
  {
    if t :| 0 <= t < |gs| && Inside(gs[t], k) { assert (gs + [g])[t] == gs[t]; }
    if Inside(g, k) { assert (gs + [g])[|gs|] == g; }
  }

  lemma AllClearMore(gs: seq<Segment>, g: Segment, cur: Segment, l: int, r: int)
    requires AllClear(gs) && ClearOfAll(gs, Segment(l, r)) && Clear(g, cur)
    requires l <= g.l && g.r <= r && l <= cur.l && cur.r <= r
    requires forall t :: 0 <= t < |gs| ==> gs[t].l <= gs[t].r
    ensures AllClear(gs + [g]) && ClearOfAll(gs + [g], cur)
  {
    forall t | 0 <= t < |gs| ensures Clear(gs[t], g) && Clear(gs[t], cur) {
      assert Clear(gs[t], Segment(l, r));
    }
  }

  /** A side of at most one element needs no more work. */
  lemma SideDone<T(!new)>(a: seq<T>, b: seq<T>, cmp: (T, T) -> int, gs: seq<Segment>, x: T,
                          l: int, r: int, i: int, j: int, g: Segment, cur: Segment)
    requires Consistent(cmp) && Pending(a, cmp, gs, Segment(l, r)) && Rearranged(a, b, l, r)
    requires Scanned(b, cmp, x, l, r, i, j) && j < i && l < i && j < r
    requires (g == Segment(i, r) && cur == Segment(l, j)) || (g == Segment(l, j) && cur == Segment(i, r))
    requires g.l >= g.r
    ensures Pending(b, cmp, gs, cur)
  {
    hide Consistent, Rearranged;
    SameLength(a, b, l, r);
    FitsMonotone(cur.r - cur.l + 1, r - l + 1, |gs|, |b|);
    forall k | 0 < k < |b| ensures Cut(b, cmp, k) || Inside(cur, k) || InsideAny(gs, k) {
      Divided(a, b, cmp, gs, x, l, r, i, j, k);
    }
    forall t | 0 <= t < |gs| ensures Clear(gs[t], cur) { assert Clear(gs[t], Segment(l, r)); }
  }

  /** A measure of the work left: shrinks with every partition. */
  function Weight(gs: seq<Segment>): int {
    if gs == [] then 0 else Weight(gs[..|gs| - 1]) + Work(gs[|gs| - 1])
  }

  function Work(g: Segment): int {
    if g.l <= g.r then 2 * (g.r - g.l) + 1 else 0
  }

  lemma WeightMore(gs: seq<Segment>, g: Segment)
    ensures Weight(gs + [g]) == Weight(gs) + Work(g)
  {
    assert (gs + [g])[..|gs|] == gs;
  }

  lemma WeightLess(gs: seq<Segment>, g: Segment)
    ensures Weight(gs) <= Weight(gs + [g])
  {
    WeightMore(gs, g);
    WorkPositive(g);
    hide Weight, Work;
  }

  lemma LastApart<T>(gs: seq<T>)
    requires gs != []
    ensures gs[..|gs| - 1] + [gs[|gs| - 1]] == gs
  {
  }

  lemma WorkPositive(g: Segment)
    ensures Work(g) >= 0
  {
  }

  lemma {:induction false} WeightPositive(gs: seq<Segment>)
    ensures 0 <= Weight(gs)
  {
    if gs != [] { WeightPositive(gs[..|gs| - 1]); }
  }

  lemma Bounds<T(!new)>(a: seq<T>, cmp: (T, T) -> int, gs: seq<Segment>, cur: Segment)
    requires Pending(a, cmp, gs, cur)
    ensures 0 <= cur.l && cur.r < |a|
  {
  }

  /** The two sides are less work than the whole. */
  lemma LessWork(gs: seq<Segment>, l: int, r: int, i: int, j: int)
    requires l <= r && j < i && l < i && j < r
    ensures Weight(gs + [Segment(i, r)] + [Segment(l, j)]) < Weight(gs + [Segment(l, r)])
    ensures Weight(gs + [Segment(l, j)] + [Segment(i, r)]) < Weight(gs + [Segment(l, r)])
    ensures Weight(gs + [Segment(i, r)]) < Weight(gs + [Segment(l, r)])
    ensures Weight(gs + [Segment(l, j)]) < Weight(gs + [Segment(l, r)])
  {
    hide Weight;
    WeightMore(gs, Segment(l, r));
    WeightMore(gs, Segment(l, j));
    WeightMore(gs, Segment(i, r));
    WeightMore(gs + [Segment(i, r)], Segment(l, j));
    WeightMore(gs + [Segment(l, j)], Segment(i, r));
  }

  /** The stretch that ends where the array does is still to be sorted. */
  ghost predicate LastPending(gs: seq<Segment>, cur: Segment, n: nat) {
    (cur.r == n - 1 && cur.l < cur.r) || exists t :: 0 <= t < |gs| && gs[t].r == n - 1
  }

  /** In an array in order it stays so: either its pivot is not found, or its right side takes its place. */
  lemma LastStays(gs: seq<Segment>, l: int, r: int, m: int, n: nat, gs': seq<Segment>, cur: Segment)
    requires LastPending(gs, Segment(l, r), n) && n > 16385 && 0 <= l <= r && l + r < 0x8000 && m == (l + r) / 2
    requires (gs' == gs && (r <= m + 1 || cur == Segment(m + 1, r)))
      || (gs' == gs + [Segment(m + 1, r)] && m + 1 < r)
      || (exists g :: gs' == gs + [g] && (r <= m + 1 || cur == Segment(m + 1, r)))
    ensures LastPending(gs', cur, n)
  {
    if r == n - 1 && l < r {
      assert m + 1 < r;
      if gs' == gs + [Segment(m + 1, r)] { assert gs'[|gs|].r == n - 1; }
    } else {
      var t :| 0 <= t < |gs| && gs[t].r == n - 1;
      assert gs'[t] == gs[t];
    }
  }

  /** One turn of the inner loop: partition [l, r], stack the longer side if it needs work, go on with the other. */
  method Divide<T(!new)>(a: array<T>, width: nat, cmp: (T, T) -> int, stack: array<Segment>, s: int, l: int, r: int,
                         ghost gs: seq<Segment>)
    returns (ok: bool, s': int, l': int, r': int, ghost gs': seq<Segment>)
    requires Consistent(cmp) && a.Length < 0x8000 && 0 < width && Size(a.Length, width) <= 0x1_0000
    requires stack.Length == 20 && a as object != stack
    requires -1 <= s <= 13 && |gs| == s + 1 && stack[..s + 1] == gs
    requires Pending(a[..], cmp, gs, Segment(l, r)) && l <= r
    modifies a, stack
    ensures ok <==> width % 2 == 0 || l + r < 0x8000
    ensures ok ==> -1 <= s' <= 13 && |gs'| == s' + 1 && stack[..s' + 1] == gs'
    ensures ok ==> Pending(a[..], cmp, gs', Segment(l', r')) && r' - l' < r - l
    ensures ok ==> multiset(a[..]) == multiset(old(a[..]))
    ensures ok ==> Weight(gs' + [Segment(l', r')]) < Weight(gs + [Segment(l, r)])
    ensures ok && Regular(old(a[..]), cmp) ==> Regular(a[..], cmp)
    ensures ok && Regular(old(a[..]), cmp) && width % 2 == 1 && a.Length > 16385 && LastPending(gs, Segment(l, r), a.Length)
      ==> LastPending(gs', Segment(l', r'), a.Length)
  {
    hide Consistent, Rearranged, Pending, Weight, Scanned, Regular, LastPending;
    Bounds(a[..], cmp, gs, Segment(l, r));
    ghost var b := a[..];
    var i, j;
    ghost var x;
    ok, i, j, x := Partition(a, width, cmp, l, r);
    s', l', r', gs' := s, l, r, gs;
    if !ok {
      return;
    }
    SameLength(b, a[..], l, r);
    ghost var right, left := Segment(i, r), Segment(l, j);
    LessWork(gs, l, r, i, j);
    if j - l < r - i {
      if i < r {
        SideStacked(b, a[..], cmp, gs, x, l, r, i, j, right, left);
        s' := s + 1;
        stack[s'] := Segment(i, r);
        gs' := gs + [right];
      } else {
        SideDone(b, a[..], cmp, gs, x, l, r, i, j, right, left);
      }
      r' := j;
    } else {
      if l < j {
        SideStacked(b, a[..], cmp, gs, x, l, r, i, j, left, right);
        s' := s + 1;
        stack[s'] := Segment(l, j);
        gs' := gs + [left];
      } else {
        SideDone(b, a[..], cmp, gs, x, l, r, i, j, left, right);
      }
      l' := i;
    }
    if Regular(b, cmp) && width % 2 == 1 && a.Length > 16385 && LastPending(gs, Segment(l, r), a.Length) {
      LastStays(gs, l, r, (l + r) / 2, a.Length, gs', Segment(l', r'));
    }
  }

  lemma MiddleIs(width: nat, l: int, r: int, n: nat)
    requires 0 < width && 0 <= l <= r < n < 0x8000 && Size(n, width) <= 0x1_0000 && l + r < 0x8000
    ensures Pivot(width, l, r) == (l + r) / 2
  {
    FoundExact(width, l, r, n);
  }

  /** The whole. `ok`: every pivot that is fetched is an element of its stretch; then the array is sorted and holds what it
      held. It is always so for elements of an even number of bytes, and for up to 16385 elements; otherwise it is not for an
      array that is strictly in order, nor for one of equal elements. */
  method Qsort<T(!new)>(a: array<T>, width: nat, cmp: (T, T) -> int) returns (ok: bool)
    requires 1 <= a.Length < 0x8000 && 0 < width && Size(a.Length, width) <= 0x1_0000 && Consistent(cmp)
    modifies a
    ensures ok ==> Sorted(a[..], cmp) && multiset(a[..]) == multiset(old(a[..]))
    ensures width % 2 == 0 || a.Length <= 16385 ==> ok
    ensures Regular(old(a[..]), cmp) ==> (ok <==> width % 2 == 0 || a.Length <= 16385)
  {
    hide Consistent, Rearranged, Pending, Sorted, Weight, Regular, LastPending;
    var stack := new Segment[20];
    var s := 0;
    stack[0] := Segment(0, a.Length - 1);
    ghost var gs: seq<Segment>, cur := [], Segment(0, a.Length - 1);
    ghost var was, risky := a[..], Regular(a[..], cmp) && width % 2 == 1 && a.Length > 16385;
    Initially(a[..], cmp);
    LastFirst(a.Length);
    while true
      invariant 0 <= s <= 13 && |gs| == s && stack[..s] == gs && stack[s] == cur
      invariant Pending(a[..], cmp, gs, cur) && cur.l <= cur.r && (cur.l < cur.r || cur.l == 0)
      invariant multiset(a[..]) == multiset(was) && (risky ==> Regular(a[..], cmp) && LastPending(gs, cur, a.Length))
      decreases Weight(gs + [cur])
    {
      WeightPositive(gs + [cur]);
      ghost var work := Weight(gs + [cur]);
      var l, r := stack[s].l, stack[s].r;
      Bounds(a[..], cmp, gs, cur);
      s := s - 1;
      ok, s, l, r, gs := Divide(a, width, cmp, stack, s, l, r, gs);
      if !ok {
        return;
      }
      while l < r
        invariant -1 <= s <= 13 && |gs| == s + 1 && stack[..s + 1] == gs
        invariant Pending(a[..], cmp, gs, Segment(l, r)) && multiset(a[..]) == multiset(was)
        invariant risky ==> Regular(a[..], cmp) && LastPending(gs, Segment(l, r), a.Length)
        invariant Weight(gs + [Segment(l, r)]) < work
        decreases r - l
      {
        Bounds(a[..], cmp, gs, Segment(l, r));
        ok, s, l, r, gs := Divide(a, width, cmp, stack, s, l, r, gs);
        if !ok {
          return;
        }
      }
      if s < 0 {
        Finished(a[..], cmp, Segment(l, r));
        if risky { NoneLast(Segment(l, r), a.Length); }
        break;
      }
      Popped(a[..], cmp, gs, Segment(l, r));
      WeightLess(gs, Segment(l, r));
      LastApart(gs);
      if risky { LastPopped(gs, Segment(l, r), a.Length); }
      cur, gs := gs[s], gs[..s];
    }
  }

  /** For every odd width there is an array that goes wrong, whenever so many elements have room at all. */
  method OddMisses(n: nat, width: nat) returns (ok: bool)
    requires 16385 < n < 0x8000 && width % 2 == 1 && Size(n, width) <= 0x1_0000
    ensures !ok
  {
    var a := new int[n](_ => 0);
    var cmp := (x: int, y: int) => x - y;
    assert Consistent(cmp) && Level(a[..], cmp);
    ok := Qsort(a, width, cmp);
  }

  lemma LastFirst(n: nat)
    ensures n > 1 ==> LastPending([], Segment(0, n - 1), n)
  {
  }

  lemma NoneLast(cur: Segment, n: nat)
    requires cur.l >= cur.r
    ensures !LastPending([], cur, n)
  {
  }

  lemma LastPopped(gs: seq<Segment>, cur: Segment, n: nat)
    requires LastPending(gs, cur, n) && cur.l >= cur.r && gs != [] && gs[|gs| - 1].l < gs[|gs| - 1].r
    ensures LastPending(gs[..|gs| - 1], gs[|gs| - 1], n)
  {
    var t :| 0 <= t < |gs| && gs[t].r == n - 1;
    if t < |gs| - 1 { assert gs[..|gs| - 1][t] == gs[t]; }
  }

  lemma Finished<T(!new)>(a: seq<T>, cmp: (T, T) -> int, cur: Segment)
    requires Pending(a, cmp, [], cur) && cur.l >= cur.r
    ensures Sorted(a, cmp)
  {
    forall i, j | 0 <= i < j < |a| ensures !(cmp(a[j], a[i]) < 0) {
      assert Cut(a, cmp, j);
    }
  }

  lemma Popped<T(!new)>(a: seq<T>, cmp: (T, T) -> int, gs: seq<Segment>, cur: Segment)
    requires Pending(a, cmp, gs, cur) && cur.l >= cur.r && gs != []
    ensures Pending(a, cmp, gs[..|gs| - 1], gs[|gs| - 1]) && gs[|gs| - 1].l < gs[|gs| - 1].r
  {
    var n := |gs| - 1;
    assert gs == gs[..n] + [gs[n]];
    forall k | 0 < k < |a| ensures Cut(a, cmp, k) || Inside(gs[n], k) || InsideAny(gs[..n], k) {
      InsideMore(gs[..n], gs[n], k);
    }
  }

  lemma Initially<T(!new)>(a: seq<T>, cmp: (T, T) -> int)
    requires 1 <= |a|
    ensures Pending(a, cmp, [], Segment(0, |a| - 1))
  {
  }
}
