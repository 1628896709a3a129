/** What the contracts of malloc, free and realloc add up to: safety over whole runs, the arithmetic of the
    arena, and an arena on which realloc loses data. */
module MallocRuns {
  import opened Bytes
  import opened Arena

  /** One event in a run: a call (`x` being what malloc saved), the program writing into a block, or anything else it does
      to memory that is not in a block or a header, taking more of it with sbrk included. `Null` is a malloc that returns
      NULL, and the second half of a realloc that does. */
  datatype Event = Malloc(nb: nat, r: nat, x: seq<byte>) | Free(p: nat) | Realloc(p: nat, nb: nat, q: nat) | Write(p: nat)
    | Elsewhere | Null(nb: nat)

  /** The address belongs to a header or to a block handed out. */
  ghost predicate Owned(h: Heap, x: int) {
    InHeader(h.list, x) || exists b :: b in h.live && b + 3 <= x < PtrAt(h.m, b)
  }

  /** `k` may follow `h`: what class Allocator promises of each call. */
  ghost predicate Step(h: Heap, e: Event, k: Heap) {
    match e
    case Malloc(nb, r, x) =>
      && 3 <= r && nb <= 0xFEF0 && KeepsLive(h, k)
      && FirstFit(Arranged(h, nb), r - 3, Rounded(nb))
      && Allocated(Arranged(h, nb), k, r - 3, Rounded(nb), nb, x)
    case Free(p) =>
      3 <= p <= |h.m| && p - 3 in h.live && k == Release(h, p - 3)
    case Realloc(p, nb, q) =>
      && 3 <= p && 3 <= q && Resizable(h, p - 3) && Resettled(h, k, p, q, nb) && Inv(k)
      && k.live == (h.live - {p - 3})[q - 3 := nb] && KeepsLive(h.(live := h.live - {p - 3}), k)
    case Write(p) =>
      3 <= p && p - 3 in h.live && k == h.(m := k.m) && SameBut(h.m, k.m, p, PtrAt(h.m, p - 3))
    case Elsewhere =>
      && k == h.(m := k.m, brk := k.brk) && h.brk <= k.brk <= 0x1_0000 && |k.m| == |h.m|
      && forall x :: 0 <= x < |h.m| && Owned(h, x) ==> k.m[x] == h.m[x]
    case Null(nb) => AfterNull(h, k) && Head(h, h.rover)
  }

  /** `k` is what a malloc that returns NULL makes of `h`: everything is merged, and the rover may be a header that no longer
      counts. */
  ghost predicate AfterNull(h: Heap, k: Heap) {
    && Inv(h) && Sound(k) && Coalesced(h, k) && k.rover == h.rover && Looked(k, k.rover)
    && forall b: nat :: b in k.list <==> Head(h, b)
  }

  /** The event gives up or writes the block with header `b`. */
  predicate Touches(e: Event, b: nat) {
    match e
    case Malloc(_, _, _) => false
    case Free(p) => p == b + 3
    case Realloc(p, _, _) => p == b + 3
    case Write(p) => p == b + 3
    case Elsewhere => false
    case Null(_) => false
  }

  ghost predicate Run(hs: seq<Heap>, es: seq<Event>) {
    |hs| == |es| + 1 && forall i :: 0 <= i < |es| ==> Step(hs[i], es[i], hs[i + 1])
  }

  /** The block `b` is live in both, of the same extent, every byte of it the same. */
  ghost predicate SameBlock(h: Heap, k: Heap, b: nat) {
    && b in h.live && b in k.live && k.live[b] == h.live[b] && PtrAt(k.m, b) == PtrAt(h.m, b)
    && |k.m| == |h.m| && forall x :: b + 3 <= x < PtrAt(h.m, b) && x < |h.m| ==> k.m[x] == h.m[x]
  }

  lemma StepInv(h: Heap, e: Event, k: Heap)
    requires Inv(h) && Step(h, e, k)
    ensures Inv(k)
  {
    hide PtrAt, BusyAt, Phase, Ends, Spaced, Links, LiveBlocks, WholeBlocks, Resettled, FirstFit, KeepsLive;
    match e
    case Malloc(nb, r, x) =>
    case Free(p) => ReleaseSound(h, p - 3);
    case Realloc(p, nb, q) =>
    case Write(p) => PayloadWritten(h, k.m, p - 3);
    case Elsewhere => ElsewhereInv(h, k);
    case Null(_) =>
  }

  lemma StepKeeps(h: Heap, e: Event, k: Heap, b: nat)
    requires Inv(h) && Step(h, e, k) && b in h.live && !Touches(e, b)
    ensures SameBlock(h, k, b)
  {
    hide PtrAt, BusyAt, Phase, Ends, Spaced, Links, LiveBlocks, WholeBlocks, Resettled, FirstFit, Allocated;
    match e
    case Malloc(nb, r, x) =>
    case Free(p) => ReleaseKeepsLive(h, p - 3); KeptOne(h.(live := h.live - {p - 3}), k, b);
    case Realloc(p, nb, q) => KeptOne(h.(live := h.live - {p - 3}), k, b);
    case Write(p) => PayloadWritten(h, k.m, p - 3); KeptOne(h.(live := h.live - {p - 3}), k, b);
    case Elsewhere => ElsewhereKeeps(h, k, b);
    case Null(_) => CoalescedKeepsLive(h, k); KeptOne(h, k, b);
  }

  lemma ElsewhereHeaders(h: Heap, k: Heap)
    requires Inv(h) && Step(h, Elsewhere, k)
    ensures SameHeaders(h.m, k.m, h.list, 0x1_0000)
  {
    forall b | b in h.list ensures PtrAt(k.m, b) == PtrAt(h.m, b) && BusyAt(k.m, b) == BusyAt(h.m, b) {
      NextUp(h, b);
      OwnHeader(h, b);
    }
  }

  lemma OwnHeader(h: Heap, b: nat)
    requires b in h.list
    ensures Owned(h, b) && Owned(h, b + 1) && Owned(h, b + 2)
  {
  }

  lemma ElsewhereInv(h: Heap, k: Heap)
    requires Inv(h) && Step(h, Elsewhere, k)
    ensures Inv(k)
  {
    ElsewhereHeaders(h, k);
    hide Owned, PtrAt, BusyAt, Ends, Spaced, Links, LiveBlocks, WholeBlocks, SameHeaders;
    PayloadFrame(h, k.m, 0);
    BrkBound(h);
    BrkMoved(h.(m := k.m), k.brk);
  }

  lemma ElsewhereKeeps(h: Heap, k: Heap, b: nat)
    requires Inv(h) && Step(h, Elsewhere, k) && b in h.live
    ensures SameBlock(h, k, b)
  {
    ElsewhereHeaders(h, k);
    LiveListed(h, b);
    hide PtrAt, BusyAt, Inv;
  }

  lemma KeptOne(h: Heap, k: Heap, b: nat)
    requires KeepsLive(h, k) && b in h.live
    ensures SameBlock(h, k, b)
  {
    hide PtrAt;
  }

  /** Over any run the arena stays sound, and a block nobody gave up or wrote to is where it was, with every byte
      as it was. */
  lemma {:induction false} RunSafety(hs: seq<Heap>, es: seq<Event>, b: nat)
    requires Run(hs, es) && Inv(hs[0])
    ensures forall i :: 0 <= i < |hs| ==> Inv(hs[i])
    ensures b in hs[0].live && (forall i :: 0 <= i < |es| ==> !Touches(es[i], b)) ==> SameBlock(hs[0], hs[|es|], b)
    decreases |es|
  {
    hide Inv, Step, KeepsLive;
    if |es| > 0 {
      var n := |es| - 1;
      RunSafety(hs[..n + 1], es[..n], b);
      assert hs[..n + 1][n] == hs[n];
      StepInv(hs[n], es[n], hs[n + 1]);
      forall i | 0 <= i < |hs| ensures Inv(hs[i]) {
        if i < n + 1 { assert hs[..n + 1][i] == hs[i]; }
      }
      if b in hs[0].live && forall i :: 0 <= i < |es| ==> !Touches(es[i], b) {
        StepKeeps(hs[n], es[n], hs[n + 1], b);
      }
    }
  }

  /** Live blocks are disjoint, large enough, and inside the arena. */
  lemma LiveDisjoint(h: Heap, a: nat, b: nat)
    requires Inv(h) && a in h.live && b in h.live && a < b
    ensures h.base < a && a + 3 + h.live[a] <= PtrAt(h.m, a) <= b && b + 3 + h.live[b] <= PtrAt(h.m, b) <= h.top
  {
    LiveListed(h, a);
    LiveListed(h, b);
    NextUp(h, b);
    NextUp(h, PtrAt(h.m, b));
  }

  /** Bytes, headers included, in the blocks from `a` up that are busy (or idle). */
  ghost function Total(h: Heap, a: nat, busy: bool): nat
    requires Sound(h) && a in h.list
    decreases h.top - a
  {
    NextUp(h, a);
    if a == h.top then 0
    else (if BusyAt(h.m, a) == busy then PtrAt(h.m, a) - a else 0) + Total(h, PtrAt(h.m, a), busy)
  }

  /** Busy and idle bytes make up the arena. */
  lemma {:induction false} TotalsMakeArena(h: Heap, a: nat)
    requires Sound(h) && a in h.list
    ensures Total(h, a, true) + Total(h, a, false) == h.top - a
    decreases h.top - a
  {
    hide PtrAt, BusyAt, Phase, Ends, Spaced, Links, LiveBlocks, WholeBlocks;
    NextUp(h, a);
    if a != h.top { TotalsMakeArena(h, PtrAt(h.m, a)); }
  }

  // ---------------------------------------------------------------- an arena on which realloc loses data

  /** The static headers at 100 and 103, a gap up to 1000, thirty idle bytes, a block of nine and one of 207. */
  ghost predicate Sampled(h: Heap) {
    && |h.m| == 0x1_0000 && h.list == {100, 103, 1000, 1030, 1042, 1252} && h.base == 100 && h.top == 1252
    && h.live == map[1030 := 9, 1042 := 207] && h.rover == 1000 && h.brk == 1255
    && Header(h.m, 100, 103, true) && Header(h.m, 103, 1000, true) && Header(h.m, 1000, 1030, false)
    && Header(h.m, 1030, 1042, true) && Header(h.m, 1042, 1252, true) && Header(h.m, 1252, 100, true)
    && h.m[1035] == 7
  }

  ghost predicate Header(m: seq<byte>, a: nat, next: nat, busy: bool) {
    PtrAt(m, a) == next && BusyAt(m, a) == busy
  }

  lemma SampleInv(h: Heap)
    requires Sampled(h)
    ensures Inv(h) && Resizable(h, 1030)
  {
    hide PtrAt, BusyAt;
  }

  /** A live block of nine bytes at 1033, after an idle block of thirty: asked to grow it to 28 bytes, realloc
      takes 33 bytes from 1000 up, and its split header falls on the data. */
  lemma SampleCollides(h: Heap)
    requires Sampled(h)
    ensures Inv(h) && Resizable(h, 1030) && Collides(h, 1033, 28)
  {
    SampleInv(h);
    SampleFreed(h);
    hide PtrAt, BusyAt, Sampled, Inv, FirstFit, Arranged, Freed, Resizable;
    assert Rounded(28) == 33;
  }

  /** With the block free the arena needs no growing, and the first fit is at 1000. */
  lemma SampleFreed(h: Heap)
    requires Sampled(h)
    ensures |h.m| == 0x1_0000 && Arranged(Freed(h, 1030), 28) == Freed(h, 1030) && FirstFit(Freed(h, 1030), 1000, 33)
    ensures RunEnd(Freed(h, 1030), 1030, 1042)
  {
    SampleInv(h);
    FreedSound(h, 1030);
    FreedHeaders(h, 1030);
    assert Freed(h, 1030) == h.(m := Freed(h, 1030).m, live := Freed(h, 1030).live, rover := 1030);
    SampleFit(h, Freed(h, 1030));
  }

  lemma FreedHeaders(h: Heap, a: nat)
    requires Resizable(h, a)
    ensures a + 3 <= |h.m| && SameHeaders(h.m, Freed(h, a).m, h.list, a)
  {
    FreedSound(h, a);
    OthersKept(h.list, h.m, Freed(h, a).m, a, a);
  }

  lemma SampleFit(h: Heap, f: Heap)
    requires Sampled(h) && f == h.(m := f.m, live := f.live, rover := 1030)
    requires !BusyAt(f.m, 1030) && SameHeaders(h.m, f.m, h.list, 1030)
    ensures Arranged(f, 28) == f && FirstFit(f, 1000, 33) && RunEnd(f, 1030, 1042)
  {
    hide PtrAt, BusyAt;
    assert BusyAt(f.m, 1042) && 1042 in f.list;
    assert Fits(f, 1000, 33);
    forall b: nat | Fits(f, b, 33) ensures b == 1000 { assert b in {100, 103, 1000, 1030, 1042, 1252}; }
    Fitting(f, 1000, 33);
    ArrangedAsIs(f, 28);
  }

  /** The condition for losing data is met there. */
  lemma SampleSpoilt(h: Heap)
    requires Sampled(h)
    ensures |h.m| == 0x1_0000 && Spoilt(h, 1033, 28)
  {
    SampleCollides(h);
    SampleFreed(h);
    assert h.m[1033..1036] != HeaderBytes(1042) by { assert h.m[1033..1036][2] == 7; }
    assert PtrAt(h.m, 1030) == 1042;
    hide Sampled, Collides, HeaderBytes, PtrAt, Freed, Arranged, Inv, Resizable, FirstFit, RunEnd;
    SpoiltIs(h, 1033, 28, 1042);
  }

  /** So that the first bytes do not survive, whatever else comes of the call. */
  lemma ReallocLoses(h: Heap, k: Heap, q: nat)
    requires Sampled(h) && Resettled(h, k, 1033, q, 28)
    ensures !Survives(h, k, 1033, q)
  {
    SampleSpoilt(h);
    SampleInv(h);
    hide Sampled, Spoilt, Resettled, Resizable, Inv, Survives;
    SurvivalExact(h, k, 1033, q, 28);
  }
}
