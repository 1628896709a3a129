/** A run of a program after which a realloc loses data: the arena of MallocRuns is one that is reached. */
module MallocSample {
  import opened Bytes
  import opened Arena
  import opened MallocRuns

  /** A call of malloc that finds its block at once, or after growing. */
  lemma TakeStep(h: Heap, g: Heap, nb: nat, a: nat, nw: nat) returns (e: Event)
    requires Sound(h) && g == Arranged(h, nb) && Sound(g) && KeepsLive(h, g) && nb <= 0xFEF0 && nw == Rounded(nb)
    requires Takeable(g, a, nw) && BusyAt(g.m, PtrAt(g.m, a)) && FirstFit(g, a, nw) && a + nw + 3 <= 0x1_0000
    ensures Step(h, e, Take(g, a, nw, nb)) && Inv(Take(g, a, nw, nb)) && e.Malloc? && e.r == a + 3
  {
    hide *;
    var x := TakeSelf(g, nb, a, nw);
    var k := Take(g, a, nw, nb);
    AllocatedInv(g, k, a, nw, nb, x);
    AllocatedKeepsLive(g, k, a, nw, nb, x);
    KeepsLiveTransitive(h, g, k);
    e := Event.Malloc(nb, a + 3, x);
    MallocStep(h, k, nb, a, x);
  }

  lemma MallocStep(h: Heap, k: Heap, nb: nat, a: nat, x: seq<byte>)
    requires nb <= 0xFEF0 && KeepsLive(h, k) && FirstFit(Arranged(h, nb), a, Rounded(nb))
    requires Allocated(Arranged(h, nb), k, a, Rounded(nb), nb, x)
    ensures Step(h, Event.Malloc(nb, a + 3, x), k)
  {
    hide Allocated, KeepsLive, FirstFit, Arranged, Rounded;
  }

  lemma TakeSelf(g: Heap, nb: nat, a: nat, nw: nat) returns (x: seq<byte>)
    requires Sound(g) && nb <= 0xFEF0 && nw == Rounded(nb)
    requires Takeable(g, a, nw) && BusyAt(g.m, PtrAt(g.m, a)) && a + nw + 3 <= 0x1_0000
    ensures |g.m| == 0x1_0000 && Allocated(g, Take(g, a, nw, nb), a, nw, nb, x)
  {
    x := g.m[a + nw..a + nw + 3];
    RoundingEnough(nb);
    CoalescedReflexive(g);
    hide Sound, Allocated, Coalesced, Rounded, Take, PtrAt, BusyAt;
    TakeAllocates(g, g, a, nw, nb, x);
  }

  lemma KeepsLiveSelf(h: Heap)
    ensures KeepsLive(h, h)
  {
  }

  ghost function Zeros(): seq<byte> {
    seq(0x1_0000, _ => 0)
  }

  /** After the first growth. */
  ghost predicate Sample1(h: Heap) {
    && |h.m| == 0x1_0000 && h.list == {100, 103, 1000, 1252} && h.base == 100 && h.top == 1252
    && h.live == map[] && h.rover == 100 && h.brk == 1255
    && Header(h.m, 100, 103, true) && Header(h.m, 103, 1000, true) && Header(h.m, 1000, 1252, false)
    && Header(h.m, 1252, 100, true)
  }

  /** 27 bytes, 9 bytes and 207 bytes have been asked for, one after the other. */
  ghost predicate Sample2(h: Heap) {
    && |h.m| == 0x1_0000 && h.list == {100, 103, 1000, 1030, 1252} && h.base == 100 && h.top == 1252
    && h.live == map[1000 := 27] && h.rover == 1030 && h.brk == 1255
    && Header(h.m, 100, 103, true) && Header(h.m, 103, 1000, true) && Header(h.m, 1000, 1030, true)
    && Header(h.m, 1030, 1252, false) && Header(h.m, 1252, 100, true)
  }

  ghost predicate Sample3(h: Heap) {
    && |h.m| == 0x1_0000 && h.list == {100, 103, 1000, 1030, 1042, 1252} && h.base == 100 && h.top == 1252
    && h.live == map[1000 := 27, 1030 := 9] && h.rover == 1042 && h.brk == 1255
    && Header(h.m, 100, 103, true) && Header(h.m, 103, 1000, true) && Header(h.m, 1000, 1030, true)
    && Header(h.m, 1030, 1042, true) && Header(h.m, 1042, 1252, false) && Header(h.m, 1252, 100, true)
  }

  ghost predicate Sample4(h: Heap) {
    && |h.m| == 0x1_0000 && h.list == {100, 103, 1000, 1030, 1042, 1252} && h.base == 100 && h.top == 1252
    && h.live == map[1000 := 27, 1030 := 9, 1042 := 207] && h.rover == 1252 && h.brk == 1255
    && Header(h.m, 100, 103, true) && Header(h.m, 103, 1000, true) && Header(h.m, 1000, 1030, true)
    && Header(h.m, 1030, 1042, true) && Header(h.m, 1042, 1252, true) && Header(h.m, 1252, 100, true)
  }

  /** Before it. */
  ghost predicate Sample0(h: Heap) {
    && |h.m| == 0x1_0000 && h.list == {100, 103} && h.base == 100 && h.top == 103 && h.live == map[] && h.rover == 100
    && Header(h.m, 100, 103, true) && Header(h.m, 103, 100, true)
  }

  lemma Booted() returns (h: Heap)
    ensures h == Boot(Zeros(), 100, 106) && Inv(h) && Sample0(h) && h.brk == 106
  {
    h := Boot(Zeros(), 100, 106);
    BootSound(Zeros(), 100, 106);
    BootHeaders(Zeros(), 100);
    hide PtrAt, BusyAt, Zeros, WithPtr, WithBusy;
    assert h.m == Boot(Zeros(), 100, 0).m;
  }

  /** The break moves to 1000 before the first call. */
  lemma Zeroth(h: Heap) returns (k: Heap)
    requires Sample0(h) && Inv(h) && h.brk == 106
    ensures Sample0(k) && Inv(k) && k.brk == 1000 && Step(h, Elsewhere, k)
  {
    k := h.(brk := 1000);
    hide PtrAt, BusyAt, Owned;
    BrkMoved(h, 1000);
  }

  lemma First(h: Heap) returns (g: Heap)
    requires Sample0(h) && Inv(h) && h.brk == 1000
    ensures Sample1(g) && g == Arranged(h, 27) && KeepsLive(h, g) && Inv(g)
  {
    g := Grow(h, 255);
    GrowHeaders(h, 255);
    hide PtrAt, BusyAt, WithPtr, WithBusy;
    NoRoom(h);
    GrowSound(h, g, 255);
    GrownKeepsLive(h, g, 255);
    GrownParts(h, g);
  }

  lemma NoRoom(h: Heap)
    requires Sample0(h) && Sound(h) && h.brk == 1000
    ensures Arranged(h, 27) == Grow(h, 255)
  {
    hide PtrAt, BusyAt, Sound, Grow;
    assert Rounded(27) == 30 && Growth(30) == 255;
    assert NoFit(h, 30);
  }

  lemma GrownParts(h: Heap, g: Heap)
    requires Sample0(h) && h.brk == 1000 && Grown(h, g, 255)
    ensures Sample1(g)
  {
    hide PtrAt, BusyAt, InHeader;
    assert g.top == 1252;
    assert g.list == {100, 103, 1000, 1252};
  }

  lemma Second(g: Heap, h: Heap) returns (k: Heap, e: Event)
    requires Sample1(g) && Inv(g) && g == Arranged(h, 27) && KeepsLive(h, g) && Sound(h)
    ensures Sample2(k) && Inv(k) && Step(h, e, k)
  {
    hide PtrAt, BusyAt, Arranged, KeepsLive;
    assert Rounded(27) == 30;
    assert Fits(g, 1000, 30);
    forall b: nat | Fits(g, b, 30) ensures b == 1000 { assert b in {100, 103, 1000, 1252}; }
    e := TakeStep(h, g, 27, 1000, 30);
    TakeHeaders(g, 1000, 30, 27);
    k := Take(g, 1000, 30, 27);
  }

  lemma Third(h: Heap) returns (k: Heap, e: Event)
    requires Sample2(h) && Inv(h)
    ensures Sample3(k) && Inv(k) && Step(h, e, k)
  {
    hide PtrAt, BusyAt, KeepsLive;
    assert Rounded(9) == 12;
    assert Fits(h, 1030, 12);
    forall b: nat | Fits(h, b, 12) ensures b == 1030 { assert b in {100, 103, 1000, 1030, 1252}; }
    Fitting(h, 1030, 12);
    ArrangedAsIs(h, 9);
    hide Arranged;
    KeepsLiveSelf(h);
    e := TakeStep(h, h, 9, 1030, 12);
    TakeHeaders(h, 1030, 12, 9);
    k := Take(h, 1030, 12, 9);
  }

  lemma Fourth(h: Heap) returns (k: Heap, e: Event)
    requires Sample3(h) && Inv(h)
    ensures Sample4(k) && Inv(k) && Step(h, e, k)
  {
    hide PtrAt, BusyAt, KeepsLive;
    assert Rounded(207) == 210;
    assert Fits(h, 1042, 210);
    forall b: nat | Fits(h, b, 210) ensures b == 1042 { assert b in {100, 103, 1000, 1030, 1042, 1252}; }
    Fitting(h, 1042, 210);
    ArrangedAsIs(h, 207);
    hide Arranged;
    KeepsLiveSelf(h);
    e := TakeStep(h, h, 207, 1042, 210);
    TakeHeaders(h, 1042, 210, 207);
    k := Take(h, 1042, 210, 207);
  }

  /** The first block has been freed. */
  ghost predicate Sample5(h: Heap) {
    && |h.m| == 0x1_0000 && h.list == {100, 103, 1000, 1030, 1042, 1252} && h.base == 100 && h.top == 1252
    && h.live == map[1030 := 9, 1042 := 207] && h.rover == 1000 && h.brk == 1255
    && Header(h.m, 100, 103, true) && Header(h.m, 103, 1000, true) && Header(h.m, 1000, 1030, false)
    && Header(h.m, 1030, 1042, true) && Header(h.m, 1042, 1252, true) && Header(h.m, 1252, 100, true)
  }

  lemma Fifth(h: Heap) returns (k: Heap)
    requires Sample4(h) && Inv(h)
    ensures Step(h, Event.Free(1003), k) && Inv(k) && Sample5(k)
  {
    k := Release(h, 1000);
    ReleaseSound(h, 1000);
    BusyWritten(h.m, 1000, false);
    hide PtrAt, BusyAt, WithBusy;
  }

  /** The second is written to. */
  lemma Sixth(h: Heap) returns (k: Heap)
    requires Sample5(h)
    ensures Sampled(k) && Step(h, Event.Write(1033), k)
  {
    k := h.(m := h.m[1035 := 7]);
    FarHeaders(h.m, 1035, 7);
    hide PtrAt, BusyAt;
  }

  lemma FarHeaders(m: seq<byte>, x: nat, v: byte)
    requires x < |m|
    ensures forall a: nat :: a + 3 <= x || x < a ==> PtrAt(m[x := v], a) == PtrAt(m, a) && BusyAt(m[x := v], a) == BusyAt(m, a)
  {
  }

  /** A program gets there: the break moves, 27, 9 and 207 bytes are asked for, the first block is freed, the second is
      written to. */
  lemma SampleReached() returns (hs: seq<Heap>, es: seq<Event>)
    ensures Run(hs, es) && hs[0] == Boot(Zeros(), 100, 106) && Inv(hs[0]) && Sampled(hs[|es|])
  {
    hide *;
    var h0 := Booted();
    var h1 := Zeroth(h0);
    var g := First(h1);
    InvSound(h1);
    var h2, e2 := Second(g, h1);
    var h3, e3 := Third(h2);
    var h4, e4 := Fourth(h3);
    var h5 := Fifth(h4);
    var h6 := Sixth(h5);
    hs := [h0, h1, h2, h3, h4, h5, h6];
    es := [Elsewhere, e2, e3, e4, Event.Free(1003), Event.Write(1033)];
    RunIs(hs, es);
  }

  lemma RunIs(hs: seq<Heap>, es: seq<Event>)
    requires |hs| == 7 && |es| == 6 && Step(hs[0], es[0], hs[1]) && Step(hs[1], es[1], hs[2]) && Step(hs[2], es[2], hs[3])
    requires Step(hs[3], es[3], hs[4]) && Step(hs[4], es[4], hs[5]) && Step(hs[5], es[5], hs[6])
    ensures Run(hs, es)
  {
    hide Step;
  }
}
