/** The storage allocator of malloc.c: a circular first-fit list threaded through a
    byte-addressed memory, with three-byte headers (two bytes of link, one of flag).

    `Heap` is the abstract state of the allocator in module Malloc. */
module Arena {
  import opened Bytes

  /** The link field of the header at address `a`. */
  function PtrAt(m: seq<byte>, a: nat): (v: nat)
    ensures v < 0x1_0000
  {
    if a + 3 <= |m| then (m[a] as int) + 256 * (m[a + 1] as int) else 0
  }

  /** The busy bit of the header at address `a`. */
  predicate BusyAt(m: seq<byte>, a: nat) {
    a + 3 <= |m| && m[a + 2] % 2 == 1
  }

  function WithPtr(m: seq<byte>, a: nat, v: nat): seq<byte>
    requires a + 3 <= |m| && v < 0x1_0000
  {
    m[a := v % 256][a + 1 := v / 256]
  }

  function WithBusy(m: seq<byte>, a: nat, b: bool): seq<byte>
    requires a + 3 <= |m|
  {
    m[a + 2 := m[a + 2] / 2 * 2 + (if b then 1 else 0)]
  }

  /** `m`: memory; `list`: the addresses of the headers on the list, `base` the lowest and `top` the highest;
      `live`: the blocks handed out, header address to bytes requested; `rover`: where the next search
      starts; `brk`: the lowest address sbrk has not given away. */
  datatype Heap = Heap(m: seq<byte>, list: set<nat>, base: nat, top: nat,
                       live: map<nat, nat>, rover: nat, brk: nat)

  /** The list lies between its two ends, both busy, the highest linked to the lowest. */
  ghost predicate Ends(h: Heap) {
    && |h.m| == 0x1_0000
    && 0 < h.base < h.top && h.base in h.list && BusyAt(h.m, h.base)
    && h.top in h.list && h.top + 3 <= 0x1_0000 && BusyAt(h.m, h.top) && PtrAt(h.m, h.top) == h.base
    && forall a :: a in h.list ==> h.base <= a <= h.top
  }

  /** Headers do not overlap. */
  ghost predicate Spaced(h: Heap) {
    forall a, b :: a in h.list && b in h.list && a < b ==> a + 3 <= b
  }

  /** Each header links to the next one up. */
  ghost predicate Links(h: Heap) {
    && (forall a {:trigger PtrAt(h.m, a)} :: a in h.list && a != h.top ==>
          PtrAt(h.m, a) in h.list && a < PtrAt(h.m, a))
    && (forall a, b {:trigger PtrAt(h.m, a), b in h.list} :: a in h.list && b in h.list && a < b ==>
          PtrAt(h.m, a) <= b)
  }

  ghost predicate Chain(h: Heap) {
    Ends(h) && Spaced(h) && Links(h)
  }

  /** Blocks handed out are busy, inside the list, and at least as large as was asked. */
  ghost predicate LiveBlocks(h: Heap) {
    forall b :: b in h.live ==>
      && b in h.list && b != h.base && b != h.top
      && BusyAt(h.m, b) && b + 3 + h.live[b] <= PtrAt(h.m, b)
  }

  /** Where an address falls within the grid of whole headers. */
  function Phase(a: nat): nat {
    a % 3
  }

  /** Idle blocks and blocks handed out are whole numbers of headers long; gaps need not be. */
  ghost predicate WholeBlocks(h: Heap) {
    forall a {:trigger PtrAt(h.m, a)} :: a in h.list && a != h.top && (a in h.live || !BusyAt(h.m, a)) ==>
      Phase(PtrAt(h.m, a)) == Phase(a)
  }

  /** Everything every operation keeps, except that the rover is on the list. */
  ghost predicate Sound(h: Heap) {
    Chain(h) && h.top + 3 <= h.brk <= 0x1_0000 && LiveBlocks(h) && WholeBlocks(h)
  }

  ghost predicate Inv(h: Heap) {
    Sound(h) && h.rover in h.list
  }

  /** The idle run starting at `a` has room for `nw` bytes, header included. */
  ghost predicate Fits(h: Heap, a: nat, nw: nat) {
    && a in h.list
    && !BusyAt(h.m, a)
    && forall e :: e in h.list && a < e && BusyAt(h.m, e) ==> a + nw <= e
  }

  /** Distance of `a` from the rover, going upwards and wrapping round. */
  function Rank(h: Heap, a: nat): int {
    if a < h.rover then a - h.rover + 0x1_0000 else a - h.rover
  }

  /** `a` is the first block, in circular order from the rover, with room for `nw` bytes. */
  ghost predicate FirstFit(h: Heap, a: nat, nw: nat) {
    Fits(h, a, nw) && forall b: nat :: Fits(h, b, nw) ==> Rank(h, a) <= Rank(h, b)
  }

  ghost predicate NoFit(h: Heap, nw: nat) {
    forall a: nat :: !Fits(h, a, nw)
  }

  /** Bytes malloc takes for a request of `nb`: whole headers' worth, header included. */
  function Rounded(nb: nat): (nw: nat) {
    (nb + 5) % 0x1_0000 / 3 * 3
  }

  /** Bytes malloc asks of sbrk for a block of `nw`: whole units of 85 headers. */
  function Growth(nw: nat): (t: nat) {
    (nw + 257) % 0x1_0000 / 255 * 255
  }

  lemma RoundedIs(nb: nat)
    ensures Rounded(nb) == (nb + 5) % 0x1_0000 / 3 * 3
  {
  }

  lemma GrowthIs(nw: nat)
    ensures Growth(nw) == (nw + 257) % 0x1_0000 / 255 * 255
  {
  }

  lemma RoundingEnough(nb: nat)
    requires nb <= 0xFEF0
    ensures nb + 3 <= Rounded(nb) <= nb + 5
    ensures Rounded(nb) % 3 == 0
    ensures Rounded(nb) + 3 <= Growth(Rounded(nb)) <= Rounded(nb) + 257 < 0x1_0000
    ensures Growth(Rounded(nb)) % 3 == 0 && Growth(Rounded(nb)) % 255 == 0
  {
    var t := Growth(Rounded(nb));
    assert t == 255 * ((Rounded(nb) + 257) / 255);
    assert t == 3 * (85 * ((Rounded(nb) + 257) / 255));
  }

  lemma PhaseStep(a: nat, nw: nat)
    requires nw % 3 == 0
    ensures Phase(a + nw) == Phase(a)
  {
  }

  lemma PhaseGap(a: nat, b: nat)
    requires Phase(a) == Phase(b) && a < b
    ensures a + 3 <= b
  {
  }

  // ---------------------------------------------------------------- headers

  lemma PtrWritten(m: seq<byte>, a: nat, v: nat)
    requires a + 3 <= |m| && v < 0x1_0000
    ensures PtrAt(WithPtr(m, a, v), a) == v
    ensures BusyAt(WithPtr(m, a, v), a) == BusyAt(m, a)
    ensures forall b: nat :: a + 3 <= b || b + 3 <= a ==>
      PtrAt(WithPtr(m, a, v), b) == PtrAt(m, b) && BusyAt(WithPtr(m, a, v), b) == BusyAt(m, b)
  {
  }

  lemma BusyWritten(m: seq<byte>, a: nat, f: bool)
    requires a + 3 <= |m|
    ensures PtrAt(WithBusy(m, a, f), a) == PtrAt(m, a)
    ensures BusyAt(WithBusy(m, a, f), a) == f
    ensures forall b: nat :: a + 3 <= b || b + 3 <= a ==>
      PtrAt(WithBusy(m, a, f), b) == PtrAt(m, b) && BusyAt(WithBusy(m, a, f), b) == BusyAt(m, b)
  {
  }

  /** The headers of `list` read the same in `m` and `n`, but for the one at `a`. */
  ghost predicate SameHeaders(m: seq<byte>, n: seq<byte>, list: set<nat>, a: nat) {
    && |m| == |n|
    && (forall b {:trigger PtrAt(n, b)} :: b in list && b != a ==> PtrAt(n, b) == PtrAt(m, b))
    && (forall b {:trigger BusyAt(n, b)} :: b in list && b != a ==> BusyAt(n, b) == BusyAt(m, b))
  }

  /** Outside [lo, hi) the two memories agree. */
  ghost predicate SameBut(m: seq<byte>, n: seq<byte>, lo: nat, hi: nat) {
    |m| == |n| && forall x :: 0 <= x < |m| && !(lo <= x < hi) ==> n[x] == m[x]
  }

  ghost predicate InHeader(list: set<nat>, x: int) {
    exists a :: a in list && a <= x < a + 3
  }

  /** Writing three bytes at `s` leaves the headers clear of them alone. */
  lemma OthersKept(list: set<nat>, m: seq<byte>, n: seq<byte>, s: nat, a: nat)
    requires SameBut(m, n, s, s + 3) && |m| == 0x1_0000
    requires forall b :: b in list && b != a ==> b + 3 <= 0x1_0000 && (s + 3 <= b || b + 3 <= s)
    ensures SameHeaders(m, n, list, a)
  {
  }

  lemma NextUp(h: Heap, a: nat)
    requires Sound(h) && a in h.list
    ensures h.base in h.list && h.top in h.list
    ensures |h.m| == 0x1_0000 && h.base <= a <= h.top && a + 3 <= 0x1_0000
    ensures a != h.top ==> PtrAt(h.m, a) in h.list && a + 3 <= PtrAt(h.m, a)
    ensures a == h.top ==> PtrAt(h.m, a) == h.base
    ensures a == h.top || a == h.base ==> BusyAt(h.m, a)
  {
  }

  lemma LiveListed(h: Heap, a: nat)
    requires Sound(h) && a in h.live
    ensures a in h.list && a != h.base && a != h.top && BusyAt(h.m, a) && a + 3 + h.live[a] <= PtrAt(h.m, a)
  {
  }

  lemma InvSound(h: Heap)
    requires Inv(h)
    ensures Sound(h) && h.rover in h.list
  {
  }

  lemma BusySpot(m: seq<byte>, a: nat, f: bool)
    requires a + 3 <= |m|
    ensures SameBut(m, WithBusy(m, a, f), a, a + 3)
  {
  }

  // ---------------------------------------------------------------- coalescing

  /** `k` is `h` after idle neighbours have been merged: no busy block, and no byte outside a header, is touched. */
  ghost predicate Coalesced(h: Heap, k: Heap) {
    && h.live == k.live && h.brk == k.brk && |h.m| == |k.m| && h.base == k.base && h.top == k.top
    && k.list <= h.list
    && (forall b {:trigger BusyAt(k.m, b)} :: b in k.list ==> BusyAt(k.m, b) == BusyAt(h.m, b))
    && (forall b {:trigger b in k.list} {:trigger BusyAt(h.m, b)} :: b in h.list && BusyAt(h.m, b) ==> b in k.list)
    && (forall b {:trigger PtrAt(k.m, b)} {:trigger PtrAt(h.m, b)} :: b in h.list && BusyAt(h.m, b) ==>
          PtrAt(k.m, b) == PtrAt(h.m, b))
    && (forall x :: 0 <= x < |h.m| && !InHeader(h.list, x) ==> k.m[x] == h.m[x])
  }

  /** The idle block at `a` swallows the idle block after it. */
  function Merge(h: Heap, a: nat): Heap
    requires a + 3 <= |h.m|
  {
    var q := PtrAt(h.m, a);
    h.(m := WithPtr(h.m, a, PtrAt(h.m, q)), list := h.list - {q})
  }

  lemma MergeSound(h: Heap, a: nat)
    requires Sound(h) && a in h.list && a != h.top && !BusyAt(h.m, a) && !BusyAt(h.m, PtrAt(h.m, a))
    ensures a + 3 <= |h.m|
    ensures Sound(Merge(h, a)) && Coalesced(h, Merge(h, a))
    ensures SameHeaders(h.m, Merge(h, a).m, h.list, a)
  {
    var q := PtrAt(h.m, a);
    var k := Merge(h, a);
    PtrWritten(h.m, a, PtrAt(h.m, q));
    OthersKept(h.list, h.m, k.m, a, a);
    MergeCoalesces(h, k, a);
  }

  lemma MergeCoalesces(h: Heap, k: Heap, a: nat)
    requires Sound(h) && a in h.list && a != h.top && !BusyAt(h.m, a) && !BusyAt(h.m, PtrAt(h.m, a))
    requires k == h.(m := k.m, list := h.list - {PtrAt(h.m, a)})
    requires SameHeaders(h.m, k.m, h.list, a) && SameBut(h.m, k.m, a, a + 3)
    requires PtrAt(k.m, a) == PtrAt(h.m, PtrAt(h.m, a)) && !BusyAt(k.m, a)
    ensures Sound(k) && Coalesced(h, k)
  {
    hide PtrAt, BusyAt, Phase;
    assert Ends(k) && Spaced(k) && Links(k);
    forall x | 0 <= x < |h.m| && !InHeader(h.list, x) ensures k.m[x] == h.m[x] {
      assert !(a <= x < a + 3);
    }
    assert LiveBlocks(k);
    assert WholeBlocks(k);
  }

  lemma CoalescedReflexive(h: Heap)
    ensures Coalesced(h, h) && KeepsHeads(h, h)
    ensures forall a :: SameHeaders(h.m, h.m, h.list, a)
  {
  }

  lemma CoalescedTransitive(h: Heap, k: Heap, l: Heap)
    requires Coalesced(h, k) && Coalesced(k, l)
    ensures Coalesced(h, l)
  {
    forall x | 0 <= x < |h.m| && !InHeader(h.list, x) ensures l.m[x] == h.m[x] {
      assert !InHeader(k.list, x);
    }
  }

  lemma CoalescedFits(h: Heap, k: Heap, a: nat, nw: nat)
    requires Coalesced(h, k) && a in k.list
    ensures Fits(h, a, nw) <==> Fits(k, a, nw)
  {
  }

  // ---------------------------------------------------------------- searching

  /** The block at `p`, busy or followed by too little idle memory, is passed over: nothing up to the next one fits. */
  lemma PassOver(h: Heap, k: Heap, p: nat, nw: nat)
    requires Sound(h) && Sound(k) && Coalesced(h, k) && p in k.list
    requires BusyAt(k.m, p) || (BusyAt(k.m, PtrAt(k.m, p)) && PtrAt(k.m, p) < p + nw)
    ensures forall b: nat :: Fits(h, b, nw) ==>
      h.base <= b && (b < p || (p != k.top && PtrAt(k.m, p) <= b))
  {
    assert forall b: nat :: Fits(h, b, nw) ==> h.base <= b;
    hide PtrAt, BusyAt, Phase, Links, Ends, Spaced, LiveBlocks, WholeBlocks, Fits;
    NextUp(k, p);
    forall b: nat | Fits(h, b, nw) && p <= b ensures p != k.top && PtrAt(k.m, p) <= b {
      if BusyAt(k.m, p) { PassBusy(h, k, p, nw, b); } else { PassShort(h, k, p, nw, b); }
    }
  }

  lemma PassBusy(h: Heap, k: Heap, p: nat, nw: nat, b: nat)
    requires Sound(h) && Sound(k) && Coalesced(h, k) && p in k.list && BusyAt(k.m, p) && p <= b && Fits(h, b, nw)
    ensures p != k.top && PtrAt(k.m, p) <= b
  {
    hide PtrAt, BusyAt, Phase;
    assert PtrAt(h.m, p) == PtrAt(k.m, p);
  }

  lemma PassShort(h: Heap, k: Heap, p: nat, nw: nat, b: nat)
    requires Sound(h) && Sound(k) && Coalesced(h, k) && p in k.list && !BusyAt(k.m, p) && p <= b && Fits(h, b, nw)
    requires BusyAt(k.m, PtrAt(k.m, p)) && PtrAt(k.m, p) < p + nw
    ensures p != k.top && PtrAt(k.m, p) <= b
  {
    hide PtrAt, BusyAt, Phase;
    assert PtrAt(k.m, p) in h.list && BusyAt(h.m, PtrAt(k.m, p));
  }

  /** An idle block with room, everything before it in circular order passed over, is the first fit. */
  lemma FoundFirst(h: Heap, k: Heap, p: nat, nw: nat, wrapped: bool)
    requires Inv(h) && Sound(k) && Coalesced(h, k) && p in k.list
    requires !BusyAt(k.m, p) && p + nw <= PtrAt(k.m, p)
    requires !wrapped ==> h.rover <= p && forall b: nat :: Fits(h, b, nw) ==> b < h.rover || p <= b
    requires wrapped ==> forall b: nat :: Fits(h, b, nw) ==> p <= b < h.rover
    ensures FirstFit(h, p, nw)
  {
    NextUp(k, p);
    assert Fits(k, p, nw);
    CoalescedFits(h, k, p, nw);
  }

  /** Busy, or first of a run of idle blocks: the blocks that coalescing can never remove. */
  ghost predicate Head(h: Heap, b: nat) {
    b in h.list && (BusyAt(h.m, b) || exists a :: a in h.list && BusyAt(h.m, a) && PtrAt(h.m, a) == b)
  }

  ghost predicate KeepsHeads(h: Heap, k: Heap) {
    forall b :: Head(h, b) ==> b in k.list
  }

  lemma HeadsKept(h: Heap, k: Heap, l: Heap)
    requires Coalesced(h, k) && KeepsHeads(h, k) && KeepsHeads(k, l)
    ensures KeepsHeads(h, l)
  {
    hide PtrAt, BusyAt;
    forall b | Head(h, b) ensures b in l.list {
      assert Head(k, b);
    }
  }

  lemma MergeHeads(h: Heap, a: nat)
    requires Sound(h) && a in h.list && a != h.top && !BusyAt(h.m, a) && !BusyAt(h.m, PtrAt(h.m, a))
    ensures a + 3 <= |h.m| && KeepsHeads(h, Merge(h, a))
  {
    NextUp(h, a);
    hide Phase;
    var q := PtrAt(h.m, a);
    if b :| b in h.list && BusyAt(h.m, b) && PtrAt(h.m, b) == q {
      NextUp(h, b);
      assert false;
    }
  }

  /** Every block but the lowest has one linked to it. */
  lemma Predecessor(h: Heap, a: nat, b: nat) returns (p: nat)
    requires Sound(h) && a in h.list && b in h.list && a < b
    ensures p in h.list && p < b && PtrAt(h.m, p) == b
    decreases b - a
  {
    hide BusyAt, Phase;
    NextUp(h, a);
    if PtrAt(h.m, a) == b { p := a; } else { p := Predecessor(h, PtrAt(h.m, a), b); }
  }

  /** No idle block follows another below `p`. */
  ghost predicate Settled(h: Heap, p: nat) {
    forall a {:trigger PtrAt(h.m, a)} :: a in h.list && a < p && !BusyAt(h.m, a) ==> BusyAt(h.m, PtrAt(h.m, a))
  }

  lemma SettledNext(h: Heap, k: Heap, p: nat)
    requires Sound(h) && Sound(k) && Coalesced(h, k) && SameHeaders(h.m, k.m, k.list, p) && Settled(h, p)
    requires p in k.list && (BusyAt(k.m, p) || BusyAt(k.m, PtrAt(k.m, p)))
    ensures Settled(k, if p == k.top then 0x1_0000 else PtrAt(k.m, p))
  {
    NextUp(k, p);
    hide PtrAt, BusyAt, Phase, LiveBlocks, WholeBlocks;
    forall a {:trigger PtrAt(k.m, a)} | a in k.list && a < p && !BusyAt(k.m, a)
      ensures BusyAt(k.m, PtrAt(k.m, a))
    {
      assert PtrAt(k.m, a) == PtrAt(h.m, a);
      assert PtrAt(h.m, a) in h.list;
    }
  }

  lemma SettledBase(h: Heap)
    requires Sound(h)
    ensures Settled(h, h.base)
  {
  }

  lemma OnlyHeadsLeft(h: Heap, k: Heap, b: nat)
    requires Sound(h) && Sound(k) && Coalesced(h, k) && KeepsHeads(h, k) && Settled(k, 0x1_0000)
    ensures b in k.list <==> Head(h, b)
  {
    if b in k.list && !BusyAt(k.m, b) {
      NextUp(k, b);
      var p := Predecessor(k, k.base, b);
      NextUp(k, p);
      hide PtrAt;
      assert PtrAt(h.m, p) == b;
    }
  }

  // ---------------------------------------------------------------- where the search began

  /** The search has been at `s`: if the header there is idle, it is linked to the busy block that ends its idle run,
      whether or not it is still on the list. */
  ghost predicate Looked(h: Heap, s: nat) {
    if BusyAt(h.m, s) then s in h.list else RunEnd(h, s, PtrAt(h.m, s))
  }

  /** `e` is the first busy block above `a`: where the idle run that holds `a` ends. */
  ghost predicate RunEnd(g: Heap, a: nat, e: nat) {
    e in g.list && a < e && BusyAt(g.m, e) && forall b :: b in g.list && a < b < e ==> !BusyAt(g.m, b)
  }

  lemma Roved(h: Heap, r: nat)
    requires Sound(h) && r in h.list
    ensures Inv(h.(rover := r))
  {
  }

  lemma EndOfRun(h: Heap, s: nat)
    requires Sound(h) && RunEnd(h, s, PtrAt(h.m, s))
    ensures PtrAt(h.m, s) in h.list && PtrAt(h.m, s) + 3 <= 0x1_0000 && BusyAt(h.m, PtrAt(h.m, s)) && s < PtrAt(h.m, s)
  {
    NextUp(h, PtrAt(h.m, s));
  }

  lemma LookedNow(h: Heap, s: nat)
    requires Sound(h) && s in h.list && (BusyAt(h.m, s) || BusyAt(h.m, PtrAt(h.m, s)))
    ensures Looked(h, s)
  {
    hide PtrAt, BusyAt, LiveBlocks, WholeBlocks, Phase;
  }

  /** Merging other blocks does not change that. */
  lemma LookedKept(h: Heap, k: Heap, s: nat, p: nat)
    requires Looked(h, s) && Coalesced(h, k) && SameBut(h.m, k.m, p, p + 3) && (s + 3 <= p || p + 3 <= s)
    ensures Looked(k, s)
  {
    HeaderKept(h.m, k.m, p, s);
    hide PtrAt, BusyAt;
  }

  /** Writing the link of the header at `p` leaves everything else. */
  lemma PtrSpot(m: seq<byte>, n: seq<byte>, p: nat, v: nat)
    requires SameBut(m, n, p, p + 3) && p + 3 <= |n| && v < 0x1_0000
    ensures SameBut(m, WithPtr(n, p, v), p, p + 3)
  {
  }

  lemma HeaderKept(m: seq<byte>, n: seq<byte>, p: nat, s: nat)
    requires SameBut(m, n, p, p + 3) && (s + 3 <= p || p + 3 <= s)
    ensures PtrAt(n, s) == PtrAt(m, s) && BusyAt(n, s) == BusyAt(m, s)
  {
  }

  lemma TwoApart(h: Heap, k: Heap, s: nat, p: nat)
    requires Sound(h) && s in h.list && Coalesced(h, k) && p in k.list && p != s
    ensures s + 3 <= p || p + 3 <= s
  {
    hide PtrAt, BusyAt;
  }

  // ---------------------------------------------------------------- taking a block

  /** Memory with an idle header at `s`, linked to `e`, if there is room for one. */
  function Split(m: seq<byte>, s: nat, e: nat): seq<byte>
    requires s + 3 <= |m| && e < 0x1_0000
  {
    if s < e then WithPtr(m, s, e)[s + 2 := 0] else m
  }

  /** What handing out the first `nw` bytes of the idle block at `a` does to memory. */
  function Carved(m: seq<byte>, a: nat, nw: nat): seq<byte>
    requires |m| == 0x1_0000 && a + nw + 3 <= 0x1_0000
  {
    WithBusy(WithPtr(Split(m, a + nw, PtrAt(m, a)), a, a + nw), a, true)
  }

  /** The idle block at `a` is handed out: its first `nw` bytes, the rest becoming an idle block. */
  function Take(h: Heap, a: nat, nw: nat, nb: nat): Heap
    requires |h.m| == 0x1_0000 && a + nw + 3 <= 0x1_0000
  {
    h.(m := Carved(h.m, a, nw),
       list := h.list + {a + nw}, live := h.live[a := nb], rover := a + nw)
  }

  ghost predicate Takeable(h: Heap, a: nat, nw: nat) {
    && Sound(h) && a in h.list && !BusyAt(h.m, a)
    && 3 <= nw && a + nw <= PtrAt(h.m, a) && nw % 3 == 0
  }

  lemma SplitHeaders(h: Heap, a: nat, nw: nat)
    requires Takeable(h, a, nw)
    ensures a + nw + 3 <= 0x1_0000
    ensures var s, e := a + nw, PtrAt(h.m, a);
      && SameHeaders(h.m, Split(h.m, s, e), h.list, 0x1_0000)
      && (s < e ==> s + 3 <= e && PtrAt(Split(h.m, s, e), s) == e && !BusyAt(Split(h.m, s, e), s))
  {
    var s, e := a + nw, PtrAt(h.m, a);
    PhaseStep(a, nw);
    if s < e {
      PhaseGap(s, e);
      assert forall b :: b in h.list ==> b <= a || e <= b;
      hide PtrAt, BusyAt, Phase;
      OthersKept(h.list, h.m, Split(h.m, s, e), s, 0x1_0000);
    }
  }

  lemma TakeHeaders(h: Heap, a: nat, nw: nat, nb: nat)
    requires Takeable(h, a, nw)
    ensures a + nw + 3 <= 0x1_0000
    ensures a + nw < PtrAt(h.m, a) ==> a + nw + 3 <= PtrAt(h.m, a)
    ensures var k := Take(h, a, nw, nb);
      && SameHeaders(h.m, k.m, h.list, a)
      && PtrAt(k.m, a) == a + nw && BusyAt(k.m, a)
      && (a + nw < PtrAt(h.m, a) ==> PtrAt(k.m, a + nw) == PtrAt(h.m, a) && !BusyAt(k.m, a + nw))
  {
    hide PtrAt, BusyAt, Split, WithBusy, WithPtr, Phase, SameBut;
    SplitHeaders(h, a, nw);
    var s := a + nw;
    var m := Split(h.m, s, PtrAt(h.m, a));
    var n := Headed(m, a, s, true);
    OthersKept(h.list, m, n, a, a);
    if s < PtrAt(h.m, a) { OthersKept({s}, m, n, a, 0x1_0000); }
  }

  lemma TakeSound(h: Heap, a: nat, nw: nat, nb: nat)
    requires Takeable(h, a, nw) && 3 + nb <= nw
    ensures a + nw + 3 <= 0x1_0000 && Inv(Take(h, a, nw, nb))
  {
    hide *;
    TakeTaken(h, a, nw, nb);
    TakeChain(h, Take(h, a, nw, nb), a, nw, nb);
    TakeKeeps(h, Take(h, a, nw, nb), a, nw, nb);
    TakeInv(h, Take(h, a, nw, nb), a, nw, nb);
  }

  lemma TakeTaken(h: Heap, a: nat, nw: nat, nb: nat)
    requires Takeable(h, a, nw)
    ensures |h.m| == 0x1_0000 && a + nw + 3 <= 0x1_0000 && Taken(h, Take(h, a, nw, nb), a, nw, nb)
  {
    hide PtrAt, BusyAt, Carved, SameHeaders;
    TakeHeaders(h, a, nw, nb);
  }

  lemma TakeInv(h: Heap, k: Heap, a: nat, nw: nat, nb: nat)
    requires Takeable(h, a, nw) && Taken(h, k, a, nw, nb) && Chain(k) && LiveBlocks(k) && WholeBlocks(k)
    ensures Inv(k)
  {
    hide PtrAt, BusyAt, Chain, LiveBlocks, WholeBlocks, SameHeaders;
  }

  /** What the proofs below need to know of the heap `k` after a block of `h` is taken. */
  ghost predicate Taken(h: Heap, k: Heap, a: nat, nw: nat, nb: nat) {
    && k == h.(m := k.m, list := h.list + {a + nw}, live := h.live[a := nb], rover := a + nw)
    && SameHeaders(h.m, k.m, h.list, a)
    && PtrAt(k.m, a) == a + nw && BusyAt(k.m, a)
    && (a + nw < PtrAt(h.m, a) ==>
          a + nw + 3 <= PtrAt(h.m, a) && PtrAt(k.m, a + nw) == PtrAt(h.m, a) && !BusyAt(k.m, a + nw))
  }

  lemma TakeKeeps(h: Heap, k: Heap, a: nat, nw: nat, nb: nat)
    requires Takeable(h, a, nw) && 3 + nb <= nw && Taken(h, k, a, nw, nb)
    ensures LiveBlocks(k) && WholeBlocks(k)
  {
    TakeKeepsLive(h, k, a, nw, nb);
    hide PtrAt, BusyAt, Phase, LiveBlocks, Takeable, Taken;
    forall b {:trigger PtrAt(k.m, b)} | b in k.list && b != k.top && (b in k.live || !BusyAt(k.m, b))
      ensures Phase(PtrAt(k.m, b)) == Phase(b)
    {
      TakeKeepsPhase(h, k, a, nw, nb, b);
    }
  }

  lemma TakeKeepsPhase(h: Heap, k: Heap, a: nat, nw: nat, nb: nat, b: nat)
    requires Takeable(h, a, nw) && Taken(h, k, a, nw, nb) && b in k.list && b != k.top && (b in k.live || !BusyAt(k.m, b))
    ensures Phase(PtrAt(k.m, b)) == Phase(b)
  {
    hide PtrAt, BusyAt, Phase, LiveBlocks, Chain;
    PhaseStep(a, nw);
    NextUp(h, a);
    if b != a && !(b == a + nw && a + nw < PtrAt(h.m, a)) { assert PtrAt(k.m, b) == PtrAt(h.m, b); }
  }

  lemma TakeKeepsLive(h: Heap, k: Heap, a: nat, nw: nat, nb: nat)
    requires Takeable(h, a, nw) && 3 + nb <= nw && Taken(h, k, a, nw, nb)
    ensures LiveBlocks(k)
  {
    hide PtrAt, BusyAt, Phase, WholeBlocks;
  }

  lemma TakeChain(h: Heap, k: Heap, a: nat, nw: nat, nb: nat)
    requires Takeable(h, a, nw) && Taken(h, k, a, nw, nb)
    ensures Chain(k)
  {
    hide PtrAt, BusyAt, Phase;
    assert a + nw == PtrAt(h.m, a) ==> a + nw in h.list;
    assert Ends(k);
    assert Spaced(k) by {
      forall b, c | b in k.list && c in k.list && b < c ensures b + 3 <= c {
        if b == a + nw { assert PtrAt(h.m, a) <= c; }
      }
    }
    assert Links(k);
  }

  // ---------------------------------------------------------------- starting

  /** The arena before the first growth: the two static headers, linked to each other. */
  function Boot(m: seq<byte>, base: nat, brk: nat): Heap
    requires 0 < base && base + 6 <= |m| && |m| == 0x1_0000
  {
    var n := WithPtr(WithPtr(m, base, base + 3), base + 3, base);
    Heap(WithBusy(WithBusy(n, base, true), base + 3, true), {base, base + 3}, base, base + 3, map[], base, brk)
  }

  lemma BootHeaders(m: seq<byte>, base: nat)
    requires 0 < base && base + 6 <= |m| && |m| == 0x1_0000
    ensures var n := Boot(m, base, 0).m;
      PtrAt(n, base) == base + 3 && BusyAt(n, base) && PtrAt(n, base + 3) == base && BusyAt(n, base + 3)
  {
    var m1 := WithPtr(m, base, base + 3);
    PtrWritten(m, base, base + 3);
    PtrWritten(m1, base + 3, base);
    BusyWritten(WithPtr(m1, base + 3, base), base, true);
    BusyWritten(WithBusy(WithPtr(m1, base + 3, base), base, true), base + 3, true);
  }

  lemma BootSound(m: seq<byte>, base: nat, brk: nat)
    requires 0 < base && base + 6 <= brk <= 0x1_0000 && |m| == 0x1_0000
    ensures Inv(Boot(m, base, brk))
  {
    BootHeaders(m, base);
    hide PtrAt, BusyAt, WithPtr, WithBusy;
  }

  // ---------------------------------------------------------------- growing

  /** The `t` bytes at `brk` join the arena as one idle block below a new top; what lies between the old
      top and `brk`, if anything, becomes a block that stays busy for ever. */
  function Grow(h: Heap, t: nat): Heap
    requires |h.m| == 0x1_0000 && h.top + 3 <= 0x1_0000 && 6 <= t && h.brk + t <= 0x1_0000 && h.base < 0x1_0000
  {
    var q, e := h.brk, h.brk + t - 3;
    var m1 := WithBusy(WithPtr(h.m, h.top, q), h.top, q != h.top + 3);
    var m2 := WithPtr(WithPtr(m1, q, e), e, h.base);
    h.(m := WithBusy(WithBusy(m2, e, true), q, false),
       list := h.list + {q, e}, top := e, rover := h.base, brk := q + t)
  }

  /** What the proofs need to know of the grown heap `g`. */
  ghost predicate Grown(h: Heap, g: Heap, t: nat) {
    && 6 <= t && t % 3 == 0 && h.brk + t <= 0x1_0000
    && g == h.(m := g.m, list := h.list + {h.brk, g.top}, top := h.brk + t - 3, rover := h.base, brk := h.brk + t)
    && SameHeaders(h.m, g.m, h.list, h.top)
    && PtrAt(g.m, h.top) == h.brk && BusyAt(g.m, h.top) == (h.brk != h.top + 3)
    && PtrAt(g.m, h.brk) == g.top && !BusyAt(g.m, h.brk)
    && PtrAt(g.m, g.top) == h.base && BusyAt(g.m, g.top)
    && forall x :: 0 <= x < |h.m| && !InHeader({h.top, h.brk, g.top}, x) ==> g.m[x] == h.m[x]
  }

  lemma Headed(m: seq<byte>, a: nat, v: nat, f: bool) returns (n: seq<byte>)
    requires a + 3 <= |m| && v < 0x1_0000
    ensures n == WithBusy(WithPtr(m, a, v), a, f)
    ensures PtrAt(n, a) == v && BusyAt(n, a) == f && SameBut(m, n, a, a + 3)
  {
    n := WithBusy(WithPtr(m, a, v), a, f);
    PtrWritten(m, a, v);
    BusyWritten(WithPtr(m, a, v), a, f);
  }

  /** The flag of one header and the link of another may be written in either order. */
  lemma Swapped(m: seq<byte>, q: nat, v: nat, e: nat, w: nat)
    requires q + 3 <= e && e + 3 <= |m| && v < 0x1_0000 && w < 0x1_0000
    ensures WithBusy(WithBusy(WithPtr(WithPtr(m, q, v), e, w), e, true), q, false)
         == WithBusy(WithPtr(WithBusy(WithPtr(m, q, v), q, false), e, w), e, true)
  {
  }

  lemma GrowHeaders(h: Heap, t: nat)
    requires Sound(h) && 6 <= t && t % 3 == 0 && h.brk + t <= 0x1_0000
    ensures Grown(h, Grow(h, t), t)
  {
    hide PtrAt, BusyAt, WithPtr, WithBusy, Phase;
    var q, e := h.brk, h.brk + t - 3;
    var m1 := Headed(h.m, h.top, q, q != h.top + 3);
    var m2 := Headed(m1, q, e, false);
    var m3 := Headed(m2, e, h.base, true);
    Swapped(m1, q, e, e, h.base);
    OthersKept(h.list, h.m, m1, h.top, h.top);
    OthersKept(h.list, m1, m2, q, 0x1_0000);
    OthersKept(h.list, m2, m3, e, 0x1_0000);
    OthersKept({q}, m2, m3, e, 0x1_0000);
    GrowBytes(h.m, m1, m2, m3, h.top, q, e);
  }

  lemma GrowBytes(m: seq<byte>, m1: seq<byte>, m2: seq<byte>, m3: seq<byte>, a: nat, b: nat, c: nat)
    requires SameBut(m, m1, a, a + 3) && SameBut(m1, m2, b, b + 3) && SameBut(m2, m3, c, c + 3)
    ensures forall x :: 0 <= x < |m| && !InHeader({a, b, c}, x) ==> m3[x] == m[x]
  {
    var s := {a, b, c};
    forall x | 0 <= x < |m| && !InHeader(s, x) ensures m3[x] == m[x] {
      assert a in s && b in s && c in s;
    }
  }

  lemma GrowSound(h: Heap, g: Heap, t: nat)
    requires Sound(h) && Grown(h, g, t)
    ensures Inv(g)
  {
    GrowWhole(h, g, t);
    GrowLive(h, g, t);
    hide PtrAt, BusyAt, Phase, WholeBlocks, LiveBlocks;
    assert Ends(g);
    assert Spaced(g);
    assert Links(g);
  }

  lemma GrowLive(h: Heap, g: Heap, t: nat)
    requires Sound(h) && Grown(h, g, t)
    ensures LiveBlocks(g)
  {
    hide PtrAt, BusyAt, Phase, WholeBlocks;
  }

  lemma GrowWhole(h: Heap, g: Heap, t: nat)
    requires Sound(h) && Grown(h, g, t)
    ensures WholeBlocks(g)
  {
    hide PtrAt, BusyAt, Phase;
    PhaseStep(h.brk, t - 3);
    PhaseStep(h.top, 3);
  }

  /** The new memory alone is room enough. */
  lemma GrowFits(h: Heap, g: Heap, t: nat, nw: nat)
    requires Sound(h) && Grown(h, g, t) && nw + 3 <= t
    ensures Fits(g, h.brk, nw)
  {
  }

  /** Coalescing before growing is coalescing after. */
  lemma GrowCoalesced(h: Heap, k: Heap, g: Heap, gk: Heap, t: nat)
    requires Sound(h) && Sound(k) && Coalesced(h, k) && Grown(h, g, t) && Grown(k, gk, t)
    ensures Coalesced(g, gk)
  {
    hide PtrAt, BusyAt, Phase;
    forall x | 0 <= x < |g.m| && !InHeader(g.list, x) ensures gk.m[x] == g.m[x] {
      forall a ensures a in h.list || a in {h.top, h.brk, g.top} ==> !(a <= x < a + 3) {
        assert a in h.list || a in {h.top, h.brk, g.top} ==> a in g.list;
      }
      assert !InHeader(h.list, x);
      assert !InHeader({h.top, h.brk, g.top}, x);
    }
  }

  lemma BrkMoved(h: Heap, brk: nat)
    requires Sound(h) && h.top + 3 <= brk <= 0x1_0000
    ensures Sound(h.(brk := brk))
  {
  }

  lemma BrkBound(h: Heap)
    requires Sound(h)
    ensures h.top + 3 <= h.brk <= 0x1_0000 && 0 < h.base < h.top && h.base in h.list && h.top in h.list
  {
  }

  lemma SameEnds(h: Heap, k: Heap)
    requires Coalesced(h, k)
    ensures h.base == k.base && h.top == k.top && h.brk == k.brk
  {
  }

  /** Where the rover stands matters to none of this. */
  lemma RoverMoved(h: Heap, k: Heap, r: nat)
    requires Sound(k) && Coalesced(h, k)
    ensures Sound(k.(rover := r)) && Coalesced(h, k.(rover := r)) && Coalesced(k, k.(rover := r))
  {
  }

  // ---------------------------------------------------------------- what malloc promises

  /** No room anywhere, and the system will not give more: 1024 bytes are kept below the stack pointer. */
  ghost predicate Refused(h: Heap, nb: nat, sp: nat) {
    NoFit(h, Rounded(nb)) && h.brk + Growth(Rounded(nb)) + 1024 >= sp
  }

  /** The arena the block is taken from: grown if there was no room. */
  ghost function Arranged(h: Heap, nb: nat): Heap {
    var t := Growth(Rounded(nb));
    if NoFit(h, Rounded(nb)) && Sound(h) && 6 <= t && h.brk + t <= 0x1_0000 then Grow(h, t) else h
  }

  /** The arena is grown, and grown once is enough. */
  lemma GrownOnce(h: Heap, k: Heap, nb: nat)
    requires Inv(h) && Sound(k) && Coalesced(h, k) && nb <= 0xFEF0 && NoFit(h, Rounded(nb))
    requires h.brk + Growth(Rounded(nb)) <= 0x1_0000
    ensures 6 <= Growth(Rounded(nb)) && k.top + 3 <= 0x1_0000 && |k.m| == 0x1_0000 && k.brk == h.brk && k.base < k.top
    ensures var g, gk := Arranged(h, nb), Grow(k, Growth(Rounded(nb)));
      Inv(g) && g.rover == h.base && Inv(gk) && Coalesced(g, gk) && !NoFit(g, Rounded(nb)) && KeepsLive(h, g)
  {
    hide PtrAt, BusyAt, WithPtr, WithBusy, Phase, Sound, Fits, Coalesced, KeepsLive, NoFit, Grown;
    var n, t := Rounded(nb), Growth(Rounded(nb));
    RoundingEnough(nb);
    hide Rounded, Growth;
    BrkBound(h);
    BrkBound(k);
    SameEnds(h, k);
    NextUp(h, h.top);
    NextUp(k, k.top);
    var g, gk := Grow(h, t), Grow(k, t);
    assert g == Arranged(h, nb);
    hide Grow;
    GrowHeaders(h, t);
    GrowHeaders(k, t);
    GrowSound(h, g, t);
    GrowSound(k, gk, t);
    GrowCoalesced(h, k, g, gk, t);
    GrowFits(h, g, t, n);
    GrownKeepsLive(h, g, t);
    Fitting(g, h.brk, n);
    GrownRover(h, g, t);
  }

  lemma FirstFits(h: Heap, a: nat, nw: nat)
    requires FirstFit(h, a, nw)
    ensures !NoFit(h, nw)
  {
  }

  lemma ArrangedAsIs(h: Heap, nb: nat)
    requires !NoFit(h, Rounded(nb))
    ensures Arranged(h, nb) == h
  {
  }

  lemma Fitting(h: Heap, a: nat, nw: nat)
    requires Fits(h, a, nw)
    ensures !NoFit(h, nw)
  {
  }

  lemma GrownRover(h: Heap, g: Heap, t: nat)
    requires Grown(h, g, t)
    ensures g.rover == h.base
  {
  }

  /** An idle rover with room is itself the first fit. */
  lemma RoverFits(h: Heap, a: nat, nw: nat)
    requires Inv(h) && Fits(h, h.rover, nw) && FirstFit(h, a, nw)
    ensures a == h.rover
  {
    hide PtrAt, BusyAt, Phase, LiveBlocks, WholeBlocks;
    NextUp(h, h.rover);
    NextUp(h, a);
    assert Rank(h, a) <= Rank(h, h.rover);
  }

  /** What is left of the run a block was taken from is where the rover is. */
  lemma RestFits(g: Heap, k: Heap, a: nat, nw: nat, nb: nat, x: seq<byte>, rest: nat)
    requires Fits(g, a, nw + rest) && rest > 0 && nw > 0 && Allocated(g, k, a, nw, nb, x)
    ensures Fits(k, k.rover, rest)
  {
    hide PtrAt, Phase, Chain, LiveBlocks, WholeBlocks;
    assert !BusyAt(k.m, k.rover);
    forall e | e in k.list && a + nw < e && BusyAt(k.m, e) ensures a + nw + rest <= e {
      assert e in g.list && BusyAt(g.m, e);
    }
  }

  // ---------------------------------------------------------------- freeing

  function Release(h: Heap, a: nat): Heap
    requires a + 3 <= |h.m|
  {
    h.(m := WithBusy(h.m, a, false), live := h.live - {a}, rover := a)
  }

  lemma ReleaseSound(h: Heap, a: nat)
    requires Sound(h) && a in h.live
    ensures a + 3 <= |h.m| && Inv(Release(h, a))
  {
    BusyWritten(h.m, a, false);
    OthersKept(h.list, h.m, WithBusy(h.m, a, false), a, a);
    ReleaseKeeps(h, Release(h, a), a);
  }

  /** The block has room for what it held. */
  lemma ReleasedFits(h: Heap, a: nat, nw: nat)
    requires Sound(h) && a in h.live && a + nw <= PtrAt(h.m, a)
    ensures a + 3 <= |h.m| && Fits(Release(h, a), a, nw) && Release(h, a).rover == a
  {
    LiveListed(h, a);
    NextUp(h, a);
    BusyWritten(h.m, a, false);
    hide PtrAt, BusyAt, Phase, WithBusy, LiveBlocks, WholeBlocks;
  }

  lemma ReleaseKeeps(h: Heap, k: Heap, a: nat)
    requires Sound(h) && a in h.live && k == h.(m := k.m, live := h.live - {a}, rover := a)
    requires SameHeaders(h.m, k.m, h.list, a) && PtrAt(k.m, a) == PtrAt(h.m, a) && !BusyAt(k.m, a)
    ensures Inv(k)
  {
    hide PtrAt, BusyAt, Phase;
    assert Ends(k) && Spaced(k) && Links(k);
    assert LiveBlocks(k);
    assert WholeBlocks(k);
  }

  lemma ReleaseKeepsLive(h: Heap, a: nat)
    requires Sound(h) && a in h.live
    ensures a + 3 <= |h.m| && KeepsLive(h.(live := h.live - {a}), Release(h, a))
  {
    BusyWritten(h.m, a, false);
    OthersKept(h.list, h.m, WithBusy(h.m, a, false), a, a);
    forall b, x {:trigger PtrAt(h.m, b), WithBusy(h.m, a, false)[x]} | b in h.live && b != a && b + 3 <= x < PtrAt(h.m, b) ensures !(a <= x < a + 3) {
      PayloadClear(h, b, x);
    }
  }

  // ---------------------------------------------------------------- contents

  /** Blocks that were live stay so, keep their extent, and keep every byte. */
  ghost predicate KeepsLive(h: Heap, k: Heap) {
    && |k.m| == |h.m|
    && (forall b :: b in h.live ==> b in k.live && k.live[b] == h.live[b] && PtrAt(k.m, b) == PtrAt(h.m, b))
    && (forall b, x :: b in h.live && b + 3 <= x < PtrAt(h.m, b) && x < |h.m| ==> k.m[x] == h.m[x])
  }

  lemma PayloadClear(h: Heap, b: nat, x: int)
    requires Sound(h) && b in h.list && b != h.top && b + 3 <= x < PtrAt(h.m, b)
    ensures !InHeader(h.list, x)
  {
    hide PtrAt, BusyAt, Phase, LiveBlocks, WholeBlocks;
    forall a | a in h.list ensures !(a <= x < a + 3) {
      assert b < a ==> PtrAt(h.m, b) <= a;
      assert a < b ==> a + 3 <= b;
    }
  }

  /** `k` is `g` with `nb` bytes handed out at `a`: exactly one more busy block, no busy block disturbed, and of
      the idle memory only headers written; `x` is what the header written at the split overlaid. */
  ghost predicate Allocated(g: Heap, k: Heap, a: nat, nw: nat, nb: nat, x: seq<byte>) {
    && Inv(k) && a !in g.live && k.live == g.live[a := nb] && k.rover == a + nw
    && k.brk == g.brk && k.base == g.base && k.top == g.top && |k.m| == |g.m|
    && BusyAt(k.m, a) && PtrAt(k.m, a) == a + nw
    && (forall b :: b in g.list && BusyAt(g.m, b) ==> b in k.list && BusyAt(k.m, b))
    && (forall b {:trigger PtrAt(k.m, b)} :: b in g.list && BusyAt(g.m, b) ==> PtrAt(k.m, b) == PtrAt(g.m, b))
    && (forall b :: b in k.list && BusyAt(k.m, b) ==> b == a || (b in g.list && BusyAt(g.m, b)))
    && (forall b :: b in k.list ==> b == a + nw || b in g.list)
    && (forall y :: 0 <= y < |g.m| && !InHeader(g.list, y) && !(a + nw <= y < a + nw + 3) ==> k.m[y] == g.m[y])
    && (a + nw !in g.list ==> a + nw + 3 <= |g.m| && k.m[a + nw + 2] == 0 && BusyAt(k.m, PtrAt(k.m, a + nw)))
    && |x| == 3 && forall j :: 0 <= j < 3 && a + nw + j < |g.m| && !InHeader(g.list, a + nw + j) ==>
         x[j] == g.m[a + nw + j]
  }

  lemma TakeAllocates(g: Heap, h: Heap, a: nat, nw: nat, nb: nat, x: seq<byte>)
    requires Sound(g) && Coalesced(g, h) && Takeable(h, a, nw) && 3 + nb <= nw && |x| == 3
    requires a + nw + 3 <= 0x1_0000
    requires a + nw < PtrAt(h.m, a) ==> x == h.m[a + nw..a + nw + 3]
    requires BusyAt(h.m, PtrAt(h.m, a))
    ensures Allocated(g, Take(h, a, nw, nb), a, nw, nb, x)
  {
    hide PtrAt, BusyAt, Phase, LiveBlocks, WholeBlocks, Spaced, Links, WithPtr, WithBusy, Split;
    NextUp(h, a);
    TakeSound(h, a, nw, nb);
    TakeHeaders(h, a, nw, nb);
    TakeBytes(h, a, nw, nb);
    assert a !in g.live by { TakeNew(g, h, a); }
    TakeFacts(g, h, Take(h, a, nw, nb), a, nw, nb, x);
  }

  lemma TakeNew(g: Heap, h: Heap, a: nat)
    requires Sound(g) && Coalesced(g, h) && a in h.list && !BusyAt(h.m, a)
    ensures a !in g.live
  {
  }

  lemma TakeBytes(h: Heap, a: nat, nw: nat, nb: nat)
    requires Takeable(h, a, nw) && a + nw + 3 <= 0x1_0000
    ensures var k := Take(h, a, nw, nb);
      && (forall y :: 0 <= y < |h.m| && !(a <= y < a + 3) && !(a + nw <= y < a + nw + 3) ==> k.m[y] == h.m[y])
      && (a + nw < PtrAt(h.m, a) ==> k.m[a + nw + 2] == 0)
  {
    hide PtrAt, BusyAt, Phase;
  }

  lemma TakeFacts(g: Heap, h: Heap, k: Heap, a: nat, nw: nat, nb: nat, x: seq<byte>)
    requires Sound(g) && Coalesced(g, h) && Takeable(h, a, nw) && Taken(h, k, a, nw, nb) && Inv(k) && a !in g.live
    requires a + nw + 3 <= 0x1_0000 && |x| == 3
    requires a + nw == PtrAt(h.m, a) ==> a + nw in h.list
    requires forall y :: 0 <= y < |h.m| && !(a <= y < a + 3) && !(a + nw <= y < a + nw + 3) ==> k.m[y] == h.m[y]
    requires a + nw < PtrAt(h.m, a) ==> k.m[a + nw + 2] == 0 && x == h.m[a + nw..a + nw + 3]
    requires PtrAt(h.m, a) in h.list && BusyAt(h.m, PtrAt(h.m, a))
    ensures Allocated(g, k, a, nw, nb, x)
  {
    hide PtrAt, BusyAt, Phase, LiveBlocks, WholeBlocks, Spaced, Links;
    assert a + nw !in g.list ==> a + nw < PtrAt(h.m, a);
    forall y | 0 <= y < |g.m| && !InHeader(g.list, y) && !(a + nw <= y < a + nw + 3) ensures k.m[y] == g.m[y] {
      assert !(a <= y < a + 3);
    }
    forall j | 0 <= j < 3 && !InHeader(g.list, a + nw + j) ensures x[j] == g.m[a + nw + j] {
      assert a + nw in g.list ==> InHeader(g.list, a + nw + j);
    }
  }

  lemma AllocatedInv(g: Heap, k: Heap, a: nat, nw: nat, nb: nat, x: seq<byte>)
    requires Allocated(g, k, a, nw, nb, x)
    ensures Inv(k)
  {
  }

  lemma AllocatedKeepsLive(g: Heap, k: Heap, a: nat, nw: nat, nb: nat, x: seq<byte>)
    requires Sound(g) && Allocated(g, k, a, nw, nb, x)
    ensures KeepsLive(g, k)
  {
    hide PtrAt, BusyAt, Phase, WholeBlocks, Chain;
    forall b, y | b in g.live && b + 3 <= y < PtrAt(g.m, b) && y < |g.m| ensures k.m[y] == g.m[y] {
      PayloadClear(g, b, y);
      assert b in k.live && b != k.top && PtrAt(k.m, b) == PtrAt(g.m, b);
      PayloadClear(k, b, y);
      assert a + nw in k.list;
    }
  }

  lemma GrownKeepsLive(h: Heap, g: Heap, t: nat)
    requires Sound(h) && Grown(h, g, t)
    ensures KeepsLive(h, g)
  {
    hide PtrAt, BusyAt, Phase, WholeBlocks;
    forall b, y | b in h.live && b + 3 <= y < PtrAt(h.m, b) && y < |h.m| ensures g.m[y] == h.m[y] {
      assert PtrAt(h.m, b) <= h.top;
      assert !InHeader({h.top, h.brk, g.top}, y);
    }
  }

  lemma KeepsLiveTransitive(h: Heap, g: Heap, k: Heap)
    requires KeepsLive(h, g) && KeepsLive(g, k)
    ensures KeepsLive(h, k)
  {
    hide PtrAt;
  }

  lemma CoalescedKeepsLive(h: Heap, k: Heap)
    requires Sound(h) && Coalesced(h, k)
    ensures KeepsLive(h, k)
  {
    hide PtrAt, BusyAt, Phase, WholeBlocks, Chain;
    forall b, y | b in h.live && b + 3 <= y < PtrAt(h.m, b) && y < |h.m| ensures k.m[y] == h.m[y] {
      PayloadClear(h, b, y);
    }
  }

  // ---------------------------------------------------------------- resizing

  /** The block at `a` may be resized: it is live, or was freed and is still on the list. */
  ghost predicate Resizable(h: Heap, a: nat) {
    && Sound(h) && a in h.list && a != h.base && a != h.top
    && (a in h.live || (!BusyAt(h.m, a) && h.rover in h.list))
  }

  /** realloc frees the block first, if that was not done already. */
  ghost function Freed(h: Heap, a: nat): Heap
    requires a + 3 <= |h.m|
  {
    if a in h.live then Release(h, a) else h
  }

  lemma FreedSound(h: Heap, a: nat)
    requires Resizable(h, a)
    ensures a + 3 <= |h.m| && Inv(Freed(h, a)) && !BusyAt(Freed(h, a).m, a)
    ensures PtrAt(Freed(h, a).m, a) == PtrAt(h.m, a) && Freed(h, a).list == h.list && Freed(h, a).top == h.top
    ensures Freed(h, a).live == h.live - {a} && KeepsLive(h.(live := h.live - {a}), Freed(h, a))
    ensures forall y :: 0 <= y < |h.m| && !(a <= y < a + 3) ==> Freed(h, a).m[y] == h.m[y]
  {
    hide PtrAt, BusyAt, Phase, WithBusy, Ends, Spaced, Links, WholeBlocks;
    NextUp(h, a);
    if a in h.live {
      ReleaseSound(h, a);
      ReleaseKeepsLive(h, a);
      BusyWritten(h.m, a, false);
      BusySpot(h.m, a, false);
    } else {
      assert h.live - {a} == h.live;
    }
  }

  /** The block the resized data moves to would end exactly where the old data begins, so that the
      header of what is left over falls on the first three bytes of it. */
  ghost predicate Collides(h: Heap, p: nat, nb: nat)
    requires 3 <= p <= |h.m|
  {
    Rounded(nb) <= p && FirstFit(Arranged(Freed(h, p - 3), nb), p - Rounded(nb), Rounded(nb))
  }

  lemma FirstFitUnique(h: Heap, a: nat, b: nat, nw: nat)
    requires Sound(h) && FirstFit(h, a, nw) && FirstFit(h, b, nw)
    ensures a == b
  {
    NextUp(h, a);
    NextUp(h, b);
  }

  /** Idle blocks with nothing busy between them lie on one grid. */
  lemma SamePhase(h: Heap, a: nat, b: nat)
    requires Sound(h) && a in h.list && b in h.list && a <= b
    requires forall c :: c in h.list && a <= c < b ==> !BusyAt(h.m, c)
    ensures Phase(a) == Phase(b)
    decreases b - a
  {
    if a < b {
      NextUp(h, a);
      hide BusyAt, Phase;
      SamePhase(h, PtrAt(h.m, a), b);
    }
  }

  /** Arranging the arena for a request leaves the rest of it alone. */
  lemma ArrangedKeeps(h: Heap, nb: nat)
    requires Inv(h) && nb <= 0xFEF0
    ensures var g := Arranged(h, nb);
      && Inv(g) && h.list <= g.list && h.top <= g.top && |g.m| == |h.m| && g.live == h.live
      && (forall b {:trigger BusyAt(g.m, b)} :: b in h.list && b != h.top ==> BusyAt(g.m, b) == BusyAt(h.m, b))
      && (forall b {:trigger PtrAt(g.m, b)} :: b in h.list && b != h.top ==> PtrAt(g.m, b) == PtrAt(h.m, b))
      && (forall y :: 0 <= y < h.top ==> g.m[y] == h.m[y])
  {
    hide PtrAt, BusyAt, WithPtr, WithBusy, Phase, Fits, NoFit;
    RoundingEnough(nb);
    NextUp(h, h.top);
    hide Rounded, Growth;
    BrkBound(h);
    var t := Growth(Rounded(nb));
    if NoFit(h, Rounded(nb)) && h.brk + t <= 0x1_0000 {
      GrowHeaders(h, t);
      var g := Grow(h, t);
      hide Grow;
      GrowSound(h, g, t);
      assert forall y :: 0 <= y < h.top ==> !InHeader({h.top, h.brk, g.top}, y);
    }
  }

  /** Where the resized block can lie: before the old data, on one grid with it if they meet, or clear above it. */
  lemma ResizedPlace(g: Heap, p: nat, a: nat, nw: nat)
    requires Sound(g) && 3 <= p && p - 3 in g.list && p - 3 != g.top && !BusyAt(g.m, p - 3)
    requires Fits(g, a, nw) && a != p - 3 && nw % 3 == 0
    ensures a + 3 <= p - 3 || PtrAt(g.m, p - 3) <= a
    ensures (PtrAt(g.m, p - 3) - p) % 3 == 0 && p <= PtrAt(g.m, p - 3)
    ensures a < p && p < a + nw + 3 ==> p <= a + nw && (a + nw - p) % 3 == 0
  {
    NextUp(g, p - 3);
    PlaceClear(g, p - 3, a);
    PlaceWhole(g, p);
    if a < p && p < a + nw + 3 {
      SamePhase(g, a, p - 3);
      hide Sound, Fits, PtrAt, BusyAt;
      OneGrid(a, nw, p);
    }
  }

  lemma PlaceClear(g: Heap, b: nat, a: nat)
    requires Sound(g) && b in g.list && b != g.top && a in g.list && a != b
    ensures a + 3 <= b || PtrAt(g.m, b) <= a
  {
    hide PtrAt, BusyAt, Phase, LiveBlocks, WholeBlocks;
  }

  lemma PlaceWhole(g: Heap, p: nat)
    requires Sound(g) && 3 <= p && p - 3 in g.list && p - 3 != g.top && !BusyAt(g.m, p - 3)
    ensures (PtrAt(g.m, p - 3) - p) % 3 == 0 && p <= PtrAt(g.m, p - 3)
  {
    NextUp(g, p - 3);
    assert Phase(PtrAt(g.m, p - 3)) == Phase(p - 3) by { hide PtrAt, BusyAt, LiveBlocks, Chain, Phase; }
    WholeGrid(PtrAt(g.m, p - 3), p);
    hide *;
  }

  lemma WholeGrid(e: nat, p: nat)
    requires 3 <= p && Phase(e) == Phase(p - 3)
    ensures (e - p) % 3 == 0
  {
  }

  lemma OneGrid(a: nat, nw: nat, p: nat)
    requires 3 <= p < a + nw + 3 && Phase(a) == Phase(p - 3) && nw % 3 == 0
    ensures p <= a + nw && (a + nw - p) % 3 == 0
  {
    var k := a / 3 + nw / 3 - (p - 3) / 3;
    assert a + nw + 3 - p == 3 * k;
  }

  /** The old data after the new block has been taken: intact, but for what the split header overlaid. */
  lemma ResizedData(h: Heap, f: Heap, g: Heap, k: Heap, p: nat, a: nat, nw: nat, nb: nat, x: seq<byte>)
    requires Sound(h) && 3 <= p && p - 3 in h.list && p - 3 != h.top && Sound(g) && |f.m| == |g.m| == |h.m|
    requires p - 3 in g.list && p - 3 != g.top && PtrAt(g.m, p - 3) == PtrAt(h.m, p - 3)
    requires forall y :: 0 <= y < |h.m| && !(p - 3 <= y < p) ==> f.m[y] == h.m[y]
    requires PtrAt(h.m, p - 3) <= h.top && forall y :: 0 <= y < h.top ==> g.m[y] == f.m[y]
    requires Allocated(g, k, a, nw, nb, x)
    ensures forall y :: p <= y < PtrAt(h.m, p - 3) ==>
      if a + nw <= y < a + nw + 3 then x[y - (a + nw)] == h.m[y] else k.m[y] == h.m[y]
  {
    hide PtrAt, BusyAt, Phase, Links, Spaced, LiveBlocks, WholeBlocks, Inv;
    forall y | p <= y < PtrAt(h.m, p - 3)
      ensures if a + nw <= y < a + nw + 3 then x[y - (a + nw)] == h.m[y] else k.m[y] == h.m[y]
    {
      PayloadClear(g, p - 3, y);
      if a + nw <= y < a + nw + 3 { assert !InHeader(g.list, a + nw + (y - (a + nw))); }
    }
  }

  /** A caller writing inside a live block disturbs nothing else. */
  lemma PayloadWritten(k: Heap, n: seq<byte>, a: nat)
    requires Inv(k) && a in k.live && SameBut(k.m, n, a + 3, PtrAt(k.m, a))
    ensures Inv(k.(m := n)) && KeepsLive(k.(live := k.live - {a}), k.(m := n)) && PtrAt(n, a) == PtrAt(k.m, a)
    ensures SameHeaders(k.m, n, k.list, 0x1_0000)
  {
    forall b | b in k.list ensures PtrAt(n, b) == PtrAt(k.m, b) && BusyAt(n, b) == BusyAt(k.m, b) {
      NextUp(k, b);
      assert b <= a || PtrAt(k.m, a) <= b;
      assert b < a ==> b + 3 <= a;
    }
    PayloadFrame(k, n, a);
    PayloadOthers(k, n, a);
  }

  lemma PayloadFrame(k: Heap, n: seq<byte>, a: nat)
    requires Inv(k) && SameHeaders(k.m, n, k.list, 0x1_0000)
    ensures Inv(k.(m := n))
  {
    hide PtrAt, BusyAt, Phase;
    var l := k.(m := n);
    assert Ends(l) && Spaced(l) && Links(l);
    assert LiveBlocks(l);
    assert WholeBlocks(l);
  }

  lemma PayloadOthers(k: Heap, n: seq<byte>, a: nat)
    requires Inv(k) && a in k.live && SameBut(k.m, n, a + 3, PtrAt(k.m, a))
    requires SameHeaders(k.m, n, k.list, 0x1_0000)
    ensures KeepsLive(k.(live := k.live - {a}), k.(m := n))
  {
    hide PtrAt, BusyAt, Phase, WholeBlocks, Spaced, Ends;
    forall b, y | b in k.live && b != a && b + 3 <= y < PtrAt(k.m, b) && y < |n| ensures n[y] == k.m[y] {
      if b < a { assert PtrAt(k.m, b) <= a; } else { assert PtrAt(k.m, a) <= b; }
    }
  }

  /** What realloc finds after malloc has put the new block at `a`: the preconditions of the lemmas below. */
  ghost predicate Moved(h: Heap, k: Heap, p: nat, a: nat, nb: nat, x: seq<byte>) {
    && 3 <= p <= 0x1_0000 && p <= |h.m| && Resizable(h, p - 3) && nb <= 0xFEF0
    && FirstFit(Arranged(Freed(h, p - 3), nb), a, Rounded(nb))
    && Allocated(Arranged(Freed(h, p - 3), nb), k, a, Rounded(nb), nb, x)
  }

  lemma MovedArena(h: Heap, p: nat, nb: nat) returns (f: Heap, g: Heap)
    requires 3 <= p <= |h.m| && Resizable(h, p - 3) && nb <= 0xFEF0
    ensures f == Freed(h, p - 3) && g == Arranged(f, nb)
    ensures Sound(f) && Sound(g) && |h.m| == |g.m| == |f.m| == 0x1_0000
    ensures p - 3 in g.list && p - 3 != g.top && !BusyAt(g.m, p - 3) && g.live == h.live - {p - 3}
    ensures PtrAt(g.m, p - 3) == PtrAt(h.m, p - 3) && p <= PtrAt(h.m, p - 3) <= h.top
    ensures forall y :: 0 <= y < |h.m| && !(p - 3 <= y < p) ==> f.m[y] == h.m[y]
    ensures forall y :: 0 <= y < h.top ==> g.m[y] == f.m[y]
  {
    hide PtrAt, BusyAt, Phase, Ends, Spaced, Links, LiveBlocks, WholeBlocks, Rounded, Release, Arranged;
    FreedSound(h, p - 3);
    f := Freed(h, p - 3);
    ArrangedKeeps(f, nb);
    g := Arranged(f, nb);
    NextUp(h, p - 3);
    NextUp(h, PtrAt(h.m, p - 3));
  }

  lemma MovedShape(h: Heap, k: Heap, p: nat, a: nat, nb: nat, x: seq<byte>)
    requires Moved(h, k, p, a, nb, x)
    ensures var s, e := a + Rounded(nb), PtrAt(h.m, p - 3);
      && PtrAt(k.m, a) == s && a + 3 + nb <= s && s + 3 <= 0x1_0000 && (s - (a + 3)) % 3 == 0
      && p <= e && (e - p) % 3 == 0 && |h.m| == 0x1_0000 && e < 0x1_0000
      && (a != p - 3 ==> a + 3 <= p || e <= a)
      && (a + 3 < p && p < s + 3 ==> p <= s && (s - p) % 3 == 0)
  {
    hide PtrAt, BusyAt, Phase, Ends, Spaced, Links, LiveBlocks, WholeBlocks, Rounded, Release, Arranged, Fits, Freed;
    RoundingEnough(nb);
    var n := Rounded(nb);
    var f, g := MovedArena(h, p, nb);
    hide Resizable;
    NextUp(k, a + n);
    MovedRoom(h, g, p, a, n);
  }

  lemma MovedCollides(h: Heap, k: Heap, p: nat, a: nat, nb: nat, x: seq<byte>)
    requires Moved(h, k, p, a, nb, x)
    ensures Collides(h, p, nb) <==> a + Rounded(nb) == p
  {
    hide PtrAt, BusyAt, Sound, Rounded, Release, Arranged, FirstFit, Freed, Allocated;
    var f, g := MovedArena(h, p, nb);
    var n := Rounded(nb);
    if n <= p && FirstFit(g, p - n, n) { FirstFitUnique(g, p - n, a, n); }
  }

  lemma MovedRoom(h: Heap, g: Heap, p: nat, a: nat, n: nat)
    requires Sound(g) && 3 <= p && p - 3 in g.list && p - 3 != g.top && !BusyAt(g.m, p - 3)
    requires PtrAt(g.m, p - 3) == PtrAt(h.m, p - 3) && Fits(g, a, n) && n % 3 == 0
    ensures var s, e := a + n, PtrAt(h.m, p - 3);
      && p <= e && (e - p) % 3 == 0
      && (a != p - 3 ==> a + 3 <= p || e <= a)
      && (a + 3 < p && p < s + 3 ==> p <= s && (s - p) % 3 == 0)
  {
    hide PtrAt, BusyAt, Phase, Ends, Spaced, Links, LiveBlocks, WholeBlocks, Fits;
    if a != p - 3 { ResizedPlace(g, p, a, n); } else { OwnRoom(g, a); }
  }

  lemma OwnRoom(g: Heap, a: nat)
    requires Sound(g) && a in g.list && a != g.top && !BusyAt(g.m, a)
    ensures a + 3 <= PtrAt(g.m, a) && (PtrAt(g.m, a) - (a + 3)) % 3 == 0
  {
    NextUp(g, a);
  }

  lemma MovedContents(h: Heap, k: Heap, p: nat, a: nat, nb: nat, x: seq<byte>)
    requires Moved(h, k, p, a, nb, x)
    ensures Inv(k) && |k.m| == 0x1_0000 && |x| == 3 && a in k.live && p - 3 !in k.live - {a}
    ensures k.live == (h.live - {p - 3})[a := nb]
    ensures forall y :: p <= y < PtrAt(h.m, p - 3) ==>
      var s := a + Rounded(nb);
      if s <= y < s + 3 then x[y - s] == h.m[y] else k.m[y] == h.m[y]
  {
    hide PtrAt, BusyAt, Phase, Ends, Spaced, Links, LiveBlocks, WholeBlocks, Rounded, Release, Arranged, Fits, Freed;
    var f, g := MovedArena(h, p, nb);
    ResizedData(h, f, g, k, p, a, Rounded(nb), nb, x);
  }

  lemma ResizableStarted(h: Heap, a: nat)
    requires Resizable(h, a)
    ensures a + 3 <= PtrAt(h.m, a) && (a in h.live <==> BusyAt(h.m, a))
    ensures exists b :: b in h.list && b != h.base && b != h.top
  {
  }

  /** The bytes of the old block at `p` for which the new block at `q` has a place. */
  ghost function Kept(h: Heap, k: Heap, p: nat, q: nat): int
    requires 3 <= p && 3 <= q
  {
    var was, room := PtrAt(h.m, p - 3) - p, PtrAt(k.m, q - 3) - q;
    if was <= room then was else room
  }

  /** The first bytes of the block resized from `p` to `q` are what they were. */
  ghost predicate Survives(h: Heap, k: Heap, p: nat, q: nat)
    requires 3 <= p && 3 <= q
  {
    |h.m| == |k.m| == 0x1_0000 && q + Kept(h, k, p, q) <= 0x1_0000 && p + Kept(h, k, p, q) <= 0x1_0000
    && forall y :: q <= y < q + Kept(h, k, p, q) ==> k.m[y] == h.m[y - q + p]
  }

  /** The blocks collide, and there is something to lose. */
  ghost predicate Overlaid(h: Heap, p: nat, nb: nat)
    requires 3 <= p <= |h.m|
  {
    Collides(h, p, nb) && nb > 0 && p < PtrAt(h.m, p - 3)
  }

  /** In a collision the first three bytes of the block are the header of what is left over: an idle block up to the
      next busy one. */
  ghost predicate Damaged(h: Heap, k: Heap, p: nat, q: nat, nb: nat)
    requires 3 <= p && 3 <= q && |h.m| == |k.m| == 0x1_0000 && p + 3 <= 0x1_0000
  {
    && q - 3 + Rounded(nb) == PtrAt(k.m, q - 3) == p
    && EndsRun(h, p, nb, PtrAt(k.m, p)) && k.m[p + 2] == 0
    && (forall y :: q <= y < q + 3 && y < p ==> k.m[y] == k.m[y - q + p])
    && (forall y :: q + 3 <= y < q + Kept(h, k, p, q) && y < p && y - q + p < 0x1_0000 ==> k.m[y] == h.m[y - q + p])
  }

  /** `e` is where the idle run that holds the old block ends, the arena being ready for the new one. */
  ghost predicate EndsRun(h: Heap, p: nat, nb: nat, e: nat)
    requires 3 <= p <= |h.m|
  {
    RunEnd(Arranged(Freed(h, p - 3), nb), p - 3, e)
  }

  /** What realloc does to the contents, on every arena. */
  ghost predicate Resettled(h: Heap, k: Heap, p: nat, q: nat, nb: nat) {
    && 3 <= p <= 0x1_0000 && 3 <= q <= 0x1_0000 && |h.m| == |k.m| == 0x1_0000
    && if Overlaid(h, p, nb) then p + 3 <= 0x1_0000 && Damaged(h, k, p, q, nb) else Survives(h, k, p, q)
  }

  function HeaderBytes(e: nat): seq<int> {
    [e % 256, e / 256, 0]
  }

  /** Whether realloc will lose data, from the arena before the call alone: the blocks collide, and the data do not
      happen to begin like the header that will overlay them. */
  ghost predicate Spoilt(h: Heap, p: nat, nb: nat)
    requires 3 <= p <= |h.m|
  {
    Overlaid(h, p, nb) && p + 3 <= |h.m| && exists e: nat :: EndsRun(h, p, nb, e) && h.m[p..p + 3] != HeaderBytes(e)
  }

  lemma RunEndUnique(g: Heap, a: nat, d: nat, e: nat)
    requires RunEnd(g, a, d) && RunEnd(g, a, e)
    ensures d == e
  {
  }

  /** realloc keeps the first min(old, new) bytes if and only if this is not so. */
  lemma SurvivalExact(h: Heap, k: Heap, p: nat, q: nat, nb: nat)
    requires 3 <= p && Resizable(h, p - 3) && Resettled(h, k, p, q, nb) && nb <= 0xFEF0
    ensures Survives(h, k, p, q) <==> !Spoilt(h, p, nb)
  {
    hide *;
    hide Resettled;
    ResettledIs(h, k, p, q, nb);
    if Overlaid(h, p, nb) {
      KeptWhole(h, k, p, q, nb);
      DamagedParts(h, k, p, q, nb);
      FirstThree(h, k, p, q);
      SpoiltIs(h, p, nb, PtrAt(k.m, p));
    } else {
      NotSpoilt(h, p, nb);
    }
  }

  lemma ResettledIs(h: Heap, k: Heap, p: nat, q: nat, nb: nat)
    requires Resettled(h, k, p, q, nb)
    ensures 3 <= p <= 0x1_0000 && 3 <= q <= 0x1_0000 && |h.m| == |k.m| == 0x1_0000
    ensures if Overlaid(h, p, nb) then p + 3 <= 0x1_0000 && Damaged(h, k, p, q, nb) else Survives(h, k, p, q)
  {
    hide Damaged, Survives, Overlaid;
  }

  lemma DamagedParts(h: Heap, k: Heap, p: nat, q: nat, nb: nat)
    requires 3 <= p && 3 <= q && |h.m| == |k.m| == 0x1_0000 && p + 3 <= 0x1_0000 && Damaged(h, k, p, q, nb)
    requires 3 <= Kept(h, k, p, q) && q + Kept(h, k, p, q) <= p && p + Kept(h, k, p, q) <= 0x1_0000
    ensures EndsRun(h, p, nb, PtrAt(k.m, p)) && k.m[p..p + 3] == HeaderBytes(PtrAt(k.m, p))
    ensures forall y :: q <= y < q + 3 ==> k.m[y] == k.m[y - q + p]
    ensures forall y :: q + 3 <= y < q + Kept(h, k, p, q) ==> k.m[y] == h.m[y - q + p]
  {
    hide EndsRun, Rounded, Kept;
  }

  lemma NotSpoilt(h: Heap, p: nat, nb: nat)
    requires 3 <= p <= |h.m| && !Overlaid(h, p, nb)
    ensures !Spoilt(h, p, nb)
  {
    hide Overlaid, EndsRun;
  }

  lemma SpoiltIs(h: Heap, p: nat, nb: nat, e: nat)
    requires 3 <= p && p + 3 <= |h.m| && Overlaid(h, p, nb) && EndsRun(h, p, nb, e)
    ensures Spoilt(h, p, nb) <==> h.m[p..p + 3] != HeaderBytes(e)
  {
    hide Overlaid, EndsRun, HeaderBytes;
    forall d: nat | EndsRun(h, p, nb, d) ensures d == e { EndsOnce(h, p, nb, d, e); }
  }

  lemma EndsOnce(h: Heap, p: nat, nb: nat, d: nat, e: nat)
    requires 3 <= p <= |h.m| && EndsRun(h, p, nb, d) && EndsRun(h, p, nb, e)
    ensures d == e
  {
    hide Arranged, Freed;
    RunEndUnique(Arranged(Freed(h, p - 3), nb), p - 3, d, e);
  }

  lemma KeptWhole(h: Heap, k: Heap, p: nat, q: nat, nb: nat)
    requires 3 <= p && p + 3 <= 0x1_0000 && |h.m| == |k.m| == 0x1_0000 && 3 <= q && Resizable(h, p - 3) && nb <= 0xFEF0
    requires Overlaid(h, p, nb) && Damaged(h, k, p, q, nb)
    ensures 3 <= Kept(h, k, p, q) && q + Kept(h, k, p, q) <= p && p + Kept(h, k, p, q) <= 0x1_0000
  {
    hide PtrAt, BusyAt, Rounded, Collides, Resizable, EndsRun, Phase;
    RoundingEnough(nb);
    OldRoom(h, p);
    WholeRoom(PtrAt(h.m, p - 3), p);
  }

  lemma OldRoom(h: Heap, p: nat)
    requires 3 <= p && Resizable(h, p - 3)
    ensures PtrAt(h.m, p - 3) <= 0x1_0000 && Phase(PtrAt(h.m, p - 3)) == Phase(p - 3)
  {
    hide PtrAt, BusyAt, Chain, LiveBlocks;
    NextUp(h, p - 3);
    NextUp(h, PtrAt(h.m, p - 3));
  }

  lemma WholeRoom(e: nat, p: nat)
    requires p < e && 3 <= p && Phase(e) == Phase(p - 3)
    ensures p + 3 <= e
  {
  }

  /** All that can be wrong is the first three bytes. */
  lemma FirstThree(h: Heap, k: Heap, p: nat, q: nat)
    requires 3 <= p && 3 <= q && |h.m| == |k.m| == 0x1_0000 && p + 3 <= 0x1_0000
    requires 3 <= Kept(h, k, p, q) && q + Kept(h, k, p, q) <= p && p + Kept(h, k, p, q) <= 0x1_0000
    requires forall y :: q <= y < q + 3 ==> k.m[y] == k.m[y - q + p]
    requires forall y :: q + 3 <= y < q + Kept(h, k, p, q) ==> k.m[y] == h.m[y - q + p]
    ensures Survives(h, k, p, q) <==> h.m[p..p + 3] == k.m[p..p + 3]
  {
    var n := Kept(h, k, p, q);
    hide Kept;
    if Survives(h, k, p, q) {
      forall y | p <= y < p + 3 ensures h.m[y] == k.m[y] {
        assert k.m[y - p + q] == h.m[y - p + q - q + p];
      }
    }
    if h.m[p..p + 3] == k.m[p..p + 3] {
      forall y | q <= y < q + 3 ensures k.m[y] == h.m[y - q + p] {
        assert h.m[p..p + 3][y - q] == k.m[p..p + 3][y - q];
      }
    }
  }

  /** Copying upwards and putting back what the split header overlaid (lines 145-150 of the source): `m0` is the
      memory before realloc, `m1` after malloc, `m2` after the copy, `m3` at the end; the old data is [p, e),
      the new block [q, s). */
  ghost predicate CopyDone(m1: seq<byte>, m2: seq<byte>, m3: seq<byte>, x: seq<byte>,
                           p: nat, e: nat, q: nat, s: nat) {
    && |m1| == |m2| == |m3| == 0x1_0000 && |x| == 3 && p <= e <= 0x1_0000 && q <= s && s + 3 <= 0x1_0000
    && var n := if e - p <= s - q then e - p else s - q;
       && SameBut(m1, m2, q, q + n)
       && (forall y :: q <= y < q + n ==> m2[y] == m1[y - q + p])
       && if q < p && p < s then q + s - p + 3 <= s && SameBut(m2, m3, q + s - p, q + s - p + 3)
                                 && m3[q + s - p..q + s - p + 3] == x
          else m3 == m2
  }

  lemma CopyWithin(m1: seq<byte>, m2: seq<byte>, m3: seq<byte>, x: seq<byte>, p: nat, e: nat, q: nat, s: nat)
    requires CopyDone(m1, m2, m3, x, p, e, q, s)
    ensures SameBut(m1, m3, q, s) && |m3| == |m1|
  {
  }

  lemma CopyRestores(m0: seq<byte>, m1: seq<byte>, m2: seq<byte>, m3: seq<byte>, x: seq<byte>,
                     p: nat, e: nat, q: nat, s: nat, y: nat)
    requires CopyDone(m1, m2, m3, x, p, e, q, s) && |m0| == 0x1_0000
    requires forall z :: p <= z < e ==> if s <= z < s + 3 then x[z - s] == m0[z] else m1[z] == m0[z]
    requires q <= p || e <= q
    requires q < p && p < s + 3 ==> p <= s && (s - p) % 3 == 0
    requires q <= y < s && y - q + p < e && q != p && (s == p ==> q + 3 <= y)
    ensures m3[y] == m0[y - q + p]
  {
    var z := y - q + p;
    if s <= z < s + 3 {
      assert m3[y] == m3[q + s - p..q + s - p + 3][y - (q + s - p)];
    } else {
      assert m2[y] == m1[z];
    }
  }

  lemma CopiedBack(h: Heap, k: Heap, p: nat, q: nat, nb: nat, x: seq<byte>, m2: seq<byte>, m3: seq<byte>)
    requires 3 <= q && q != p && Moved(h, k, p, q - 3, nb, x)
    requires CopyDone(k.m, m2, m3, x, p, PtrAt(h.m, p - 3), q, PtrAt(k.m, q - 3))
    ensures SameBut(k.m, m3, q, PtrAt(k.m, q - 3))
    ensures PtrAt(m3, q - 3) == PtrAt(k.m, q - 3) ==> Resettled(h, k.(m := m3), p, q, nb)
  {
    hide Collides, PtrAt, BusyAt, Phase, Inv, Rounded, Resizable, Allocated, FirstFit, Freed, Arranged, SameBut;
    hide CopyDone, EndsRun;
    var s, e := PtrAt(k.m, q - 3), PtrAt(h.m, p - 3);
    MovedShape(h, k, p, q - 3, nb, x);
    MovedContents(h, k, p, q - 3, nb, x);
    MovedCollides(h, k, p, q - 3, nb, x);
    RoundedNone();
    CopyWithin(k.m, m2, m3, x, p, e, q, s);
    if s == p < e {
      MovedHeader(h, k, p, q - 3, nb, x);
      PtrKept(k.m, m3, q, s, p);
    }
    hide Moved;
    forall y | q <= y < s && y - q + p < e && (s == p ==> q + 3 <= y) ensures m3[y] == h.m[y - q + p] {
      CopyRestores(h.m, k.m, m2, m3, x, p, e, q, s, y);
    }
    if s == p < e { CopyLoses(k.m, m2, m3, x, p, e, q); }
  }

  lemma RoundedNone()
    ensures Rounded(0) == 3
  {
  }

  lemma PtrKept(m: seq<byte>, n: seq<byte>, lo: nat, hi: nat, a: nat)
    requires SameBut(m, n, lo, hi) && hi <= a
    ensures PtrAt(n, a) == PtrAt(m, a)
  {
  }

  /** In a collision the first three bytes copied are the header, and it stays where it is. */
  lemma CopyLoses(m1: seq<byte>, m2: seq<byte>, m3: seq<byte>, x: seq<byte>, p: nat, e: nat, q: nat)
    requires CopyDone(m1, m2, m3, x, p, e, q, p) && p + 3 <= e && q + 3 <= p
    ensures m3[p + 2] == m1[p + 2]
    ensures forall y :: q <= y < q + 3 ==> m3[y] == m3[y - q + p]
  {
    assert m3 == m2;
    forall y | q <= y < q + 3 ensures m3[y] == m3[y - q + p] {
      assert m2[y] == m1[y - q + p];
    }
  }

  /** In a collision the header of what is left over lies on the first bytes of the old data. */
  lemma MovedHeader(h: Heap, k: Heap, p: nat, a: nat, nb: nat, x: seq<byte>)
    requires Moved(h, k, p, a, nb, x) && a + Rounded(nb) == p < PtrAt(h.m, p - 3)
    ensures p + 3 <= 0x1_0000 && k.m[p + 2] == 0 && EndsRun(h, p, nb, PtrAt(k.m, p))
  {
    hide PtrAt, BusyAt, Phase, LiveBlocks, WholeBlocks, Rounded, Release, Arranged, Fits, Freed, Links;
    var f, g := MovedArena(h, p, nb);
    PayloadClear(g, p - 3, p);
    assert p !in g.list;
    LeftOver(g, k, p - 3, p);
  }

  lemma LeftOver(g: Heap, k: Heap, b: nat, s: nat)
    requires Sound(g) && Sound(k) && b in g.list && b != g.top && s == b + 3 && s !in g.list && s in k.list && k.top == g.top
    requires BusyAt(k.m, PtrAt(k.m, s)) && s != k.top
    requires forall c :: c in g.list && BusyAt(g.m, c) ==> c in k.list && BusyAt(k.m, c)
    requires forall c :: c in k.list && BusyAt(k.m, c) && c > s ==> c in g.list && BusyAt(g.m, c)
    ensures RunEnd(g, b, PtrAt(k.m, s))
  {
    hide PtrAt, BusyAt, Phase, LiveBlocks, WholeBlocks;
    NextUp(k, s);
    forall c | c in g.list && b < c < PtrAt(k.m, s) ensures !BusyAt(g.m, c) {
      assert b + 3 <= c && c != s;
    }
  }

  /** The block found room where it was: nothing needs copying. */
  lemma StayedPut(h: Heap, k: Heap, p: nat, nb: nat, x: seq<byte>)
    requires 3 <= p && Moved(h, k, p, p - 3, nb, x)
    ensures Resettled(h, k, p, p, nb)
  {
    hide Collides, PtrAt, BusyAt, Phase, Inv, Rounded, Resizable, Allocated, FirstFit, Freed, Arranged;
    MovedShape(h, k, p, p - 3, nb, x);
    MovedContents(h, k, p, p - 3, nb, x);
    MovedCollides(h, k, p, p - 3, nb, x);
  }

  lemma KeepsOthers(h: Heap, k: Heap, l: Heap, b: nat)
    requires KeepsLive(h, k) && KeepsLive(k.(live := k.live - {b}), l) && b !in h.live && l.live == k.live
    ensures KeepsLive(h, l)
  {
    hide PtrAt;
  }

  lemma MovedNew(h: Heap, k: Heap, p: nat, a: nat, nb: nat, x: seq<byte>)
    requires Moved(h, k, p, a, nb, x)
    ensures a !in h.live - {p - 3} && a in k.live
  {
    hide PtrAt, BusyAt, Phase, Ends, Spaced, Links, LiveBlocks, WholeBlocks, Rounded, Release, Arranged, Fits, Freed;
    var f, g := MovedArena(h, p, nb);
  }
}
