/** After a malloc that found no room: the rover may be a header that the search has merged away, and then the next call hands
    out memory that is still on the list. */
module MallocNull {
  import opened Bytes
  import opened Arena
  import opened MallocRuns
  import opened MallocSample

  // ---------------------------------------------------------------- in general

  /** The block on the list that an address lies in. */
  lemma {:induction false} BlockOf(k: Heap, from: nat, s: nat) returns (a: nat)
    requires Sound(k) && from in k.list && from < s <= k.top && s !in k.list
    ensures a in k.list && a != k.top && from <= a && a < s < PtrAt(k.m, a)
    decreases s - from
  {
    NextUp(k, from);
    if s < PtrAt(k.m, from) { a := from; } else { a := BlockOf(k, PtrAt(k.m, from), s); }
  }

  /** A rover that has been merged away lies in an idle block that ends where its own header says. */
  lemma Stranded(h: Heap, k: Heap) returns (a: nat)
    requires AfterNull(h, k) && k.rover !in k.list
    ensures !BusyAt(k.m, k.rover) && a in k.list && !BusyAt(k.m, a) && a + 3 <= k.rover
    ensures PtrAt(k.m, a) == PtrAt(k.m, k.rover) && k.rover < PtrAt(k.m, a) && BusyAt(k.m, PtrAt(k.m, a))
  {
    var s := k.rover;
    NextUp(h, s);
    BrkBound(k);
    SameEnds(h, k);
    a := BlockOf(k, k.base, s);
    NextUp(k, a);
    hide PtrAt, BusyAt, LiveBlocks, WholeBlocks, Phase, Head;
    assert a + 3 <= s;
    assert BusyAt(k.m, a) ==> PtrAt(h.m, a) <= s;
  }

  /** And the block that the next call takes there leaves the one on the list as it was: it is handed out again. */
  lemma StillOffered(h: Heap, k: Heap, nw: nat) returns (a: nat)
    requires AfterNull(h, k) && k.rover !in k.list && 3 <= nw && nw % 3 == 0 && k.rover + nw <= PtrAt(k.m, k.rover)
    ensures k.rover + nw + 3 <= 0x1_0000 && |k.m| == 0x1_0000 && a in k.list && a < k.rover
    ensures Sound(k.(m := Carved(k.m, k.rover, nw)))
    ensures Fits(k.(m := Carved(k.m, k.rover, nw)), a, PtrAt(k.m, k.rover) - a)
  {
    hide *;
    a := Stranded(h, k);
    var s, e := k.rover, PtrAt(k.m, k.rover);
    SoundOf(h, k);
    NextUp(k, a);
    NextUp(k, e);
    RunPhase(h, k);
    if s + nw < e {
      PhaseStep(s, nw);
      PhaseGap(s + nw, e);
    }
    CarvedInside(k, a, s, nw);
  }

  lemma SoundOf(h: Heap, k: Heap)
    requires AfterNull(h, k)
    ensures Sound(k) && Sound(h) && k.rover in h.list && k.rover == h.rover
  {
  }

  lemma RunPhase(h: Heap, k: Heap)
    requires AfterNull(h, k) && !BusyAt(k.m, k.rover)
    ensures Phase(k.rover) == Phase(PtrAt(k.m, k.rover))
  {
    hide PtrAt, BusyAt, LiveBlocks, WholeBlocks, Phase, Chain, Head;
    SamePhase(h, k.rover, PtrAt(k.m, k.rover));
  }

  lemma CarvedInside(k: Heap, a: nat, s: nat, nw: nat)
    requires Sound(k) && a in k.list && !BusyAt(k.m, a) && a + 3 <= s && 3 <= nw
    requires PtrAt(k.m, s) == PtrAt(k.m, a) && BusyAt(k.m, PtrAt(k.m, a)) && PtrAt(k.m, a) + 3 <= 0x1_0000
    requires s + nw + 3 <= PtrAt(k.m, a) || s + nw == PtrAt(k.m, a)
    ensures |k.m| == 0x1_0000 && s + nw + 3 <= 0x1_0000
    ensures Sound(k.(m := Carved(k.m, s, nw))) && Fits(k.(m := Carved(k.m, s, nw)), a, PtrAt(k.m, a) - a)
  {
    var e := PtrAt(k.m, a);
    NextUp(k, a);
    CarvedBytes(k.m, s, nw, e);
    SpotHeaders(k, a, Carved(k.m, s, nw), s, e);
    hide PtrAt, BusyAt, Carved;
    RoverMoved(k, k, k.base);
    BrkBound(k);
    var n := Carved(k.m, s, nw);
    assert Inv(k.(rover := k.base)) by { CoalescedReflexive(k); }
    PayloadFrame(k.(rover := k.base), n, 0);
    RoverBack(k.(rover := k.base, m := n), k.rover);
  }

  lemma RoverBack(k: Heap, r: nat)
    requires Sound(k)
    ensures Sound(k.(rover := r))
  {
  }

  lemma CarvedBytes(m: seq<byte>, s: nat, nw: nat, e: nat)
    requires |m| == 0x1_0000 && 3 <= nw && e + 3 <= 0x1_0000 && PtrAt(m, s) == e && (s + nw + 3 <= e || s + nw == e)
    ensures SameBut(m, Carved(m, s, nw), s, e)
  {
  }

  lemma SpotHeaders(k: Heap, a: nat, n: seq<byte>, s: nat, e: nat)
    requires Sound(k) && a in k.list && e == PtrAt(k.m, a) && a != k.top && a + 3 <= s && s <= e && SameBut(k.m, n, s, e)
    ensures SameHeaders(k.m, n, k.list, 0x1_0000)
  {
    forall b | b in k.list ensures PtrAt(n, b) == PtrAt(k.m, b) && BusyAt(n, b) == BusyAt(k.m, b) {
      NextUp(k, b);
      assert b <= a || e <= b;
      assert b <= a ==> b + 3 <= s;
    }
  }

  // ---------------------------------------------------------------- a case of it

  /** Two idle blocks, the second just freed. */
  ghost predicate Two(h: Heap) {
    && |h.m| == 0x1_0000 && h.list == {100, 103, 1000, 1030, 1042, 1252} && h.base == 100 && h.top == 1252
    && h.live == map[1042 := 207] && h.rover == 1030 && h.brk == 1255
    && Header(h.m, 100, 103, true) && Header(h.m, 103, 1000, true) && Header(h.m, 1000, 1030, false)
    && Header(h.m, 1030, 1042, false) && Header(h.m, 1042, 1252, true) && Header(h.m, 1252, 100, true)
  }

  lemma FreeSecond(h: Heap) returns (k: Heap)
    requires Sample5(h) && Inv(h)
    ensures Step(h, Event.Free(1033), k) && Inv(k) && Two(k)
  {
    k := Release(h, 1030);
    ReleaseSound(h, 1030);
    BusyWritten(h.m, 1030, false);
    hide PtrAt, BusyAt, WithBusy;
  }

  /** A program gets there. */
  lemma TwoReached() returns (hs: seq<Heap>, es: seq<Event>)
    ensures Run(hs, es) && hs[0] == Boot(Zeros(), 100, 106) && Inv(hs[0]) && Two(hs[|es|]) && Inv(hs[|es|])
  {
    hide *;
    var h0 := Booted();
    var h1 := Zeroth(h0);
    var g := First(h1);
    InvSound(h1);
    var h2, e2 := Second(g, h1);
    var h3, e3 := Third(h2);
    var h4, e4 := Fourth(h3);
    var h5 := Fifth(h4);
    var h6 := FreeSecond(h5);
    hs := [h0, h1, h2, h3, h4, h5, h6];
    es := [Elsewhere, e2, e3, e4, Event.Free(1003), Event.Free(1033)];
    RunIs(hs, es);
  }

  /** With the stack pointer at 2000 a request for 100 bytes is refused. */
  lemma TwoRefuses(h: Heap)
    requires Two(h)
    ensures Refused(h, 100, 2000)
  {
    hide PtrAt, BusyAt;
    assert Rounded(100) == 105 && Growth(105) == 255;
    forall a: nat ensures !Fits(h, a, 105) {
      assert BusyAt(h.m, 1042) && 1042 in h.list;
    }
  }

  /** What is left of it after that. */
  ghost predicate Merged(k: Heap) {
    && |k.m| == 0x1_0000 && k.list == {100, 103, 1000, 1042, 1252} && k.base == 100 && k.top == 1252
    && Header(k.m, 100, 103, true) && Header(k.m, 103, 1000, true) && Header(k.m, 1000, 1042, false)
    && Header(k.m, 1042, 1252, true) && Header(k.m, 1252, 100, true)
  }

  lemma TwoHeads(h: Heap, k: Heap)
    requires Two(h) && AfterNull(h, k)
    ensures k.rover == 1030 && k.list == {100, 103, 1000, 1042, 1252}
  {
    hide PtrAt, BusyAt, Looked, Inv, Sound;
    assert Head(h, 1000) && !Head(h, 1030);
    assert forall b: nat :: b in k.list <==> b in {100, 103, 1000, 1042, 1252};
  }

  lemma TwoMerged(h: Heap, k: Heap)
    requires Two(h) && AfterNull(h, k)
    ensures k.rover == 1030 && 1030 !in k.list && Merged(k) && Header(k.m, 1030, 1042, false)
  {
    TwoHeads(h, k);
    var a := Stranded(h, k);
    TwoBusy(h, k);
    SoundOf(h, k);
    hide PtrAt, BusyAt, AfterNull, Sound;
    assert a == 1000;
    NextIs(k);
  }

  lemma TwoBusy(h: Heap, k: Heap)
    requires Two(h) && AfterNull(h, k)
    ensures k.base == 100 && k.top == 1252 && |k.m| == 0x1_0000 && Header(k.m, 100, 103, true) && Header(k.m, 103, 1000, true)
    ensures Header(k.m, 1042, 1252, true) && Header(k.m, 1252, 100, true)
  {
    hide PtrAt, BusyAt, Looked, Inv, Sound, Head;
  }

  /** The header at 1000 is linked to the next one left. */
  lemma NextIs(k: Heap)
    requires Sound(k) && k.list == {100, 103, 1000, 1042, 1252} && k.top == 1252
    ensures PtrAt(k.m, 1000) == 1042
  {
    hide PtrAt, BusyAt, LiveBlocks, WholeBlocks, Ends, Spaced;
    var n := PtrAt(k.m, 1000);
    assert 1000 in k.list && 1042 in k.list;
    assert n in k.list && 1000 < n <= 1042;
  }

  /** After that the rover is not on the list. A request for 9 bytes is met at once, with the block at 1030; and the next one,
      for 39, with the block at 1000, which contains it. */
  lemma HandedTwice(h: Heap, k: Heap)
    requires Two(h) && AfterNull(h, k)
    ensures k.rover == 1030 && 1030 !in k.list && |k.m| == 0x1_0000
    ensures Rounded(9) == 12 && !BusyAt(k.m, 1030) && PtrAt(k.m, 1030) == 1042 && BusyAt(k.m, 1042)
    ensures var k1 := k.(m := Carved(k.m, 1030, 12), rover := 1042);
      Inv(k1) && Arranged(k1, 39) == k1 && FirstFit(k1, 1000, Rounded(39)) && 1003 < 1033 && 1033 + 9 <= 1003 + 39
  {
    TwoMerged(h, k);
    SoundOf(h, k);
    hide Two, AfterNull, PtrAt, BusyAt, Carved, Sound;
    CarvedInside(k, 1000, 1030, 12);
    CarvedBytes(k.m, 1030, 12, 1042);
    SpotHeaders(k, 1000, Carved(k.m, 1030, 12), 1030, 1042);
    RoverBack(k.(m := Carved(k.m, 1030, 12)), 1042);
    TwoFit(k, k.(m := Carved(k.m, 1030, 12), rover := 1042));
  }

  lemma TwoFit(k: Heap, l: Heap)
    requires Merged(k) && l == k.(m := l.m, rover := 1042) && SameHeaders(k.m, l.m, k.list, 0x1_0000) && Sound(l)
    ensures Rounded(9) == 12 && Inv(l) && Arranged(l, 39) == l && FirstFit(l, 1000, Rounded(39))
  {
    hide PtrAt, BusyAt, Sound;
    assert Rounded(39) == 42;
    assert Fits(l, 1000, 42);
    forall b: nat | Fits(l, b, 42) ensures b == 1000 { assert b in {100, 103, 1000, 1042, 1252}; }
    Fitting(l, 1000, 42);
    ArrangedAsIs(l, 39);
  }
}
