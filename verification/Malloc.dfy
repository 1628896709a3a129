/** malloc, free and realloc of malloc.c over a byte array, with sbrk as in sbrk.as. */
module Malloc {
  import opened Bytes
  import opened Arena
  import opened MallocRuns

  class Allocator {
    const base: nat                 // address of allocs[0]
    const mem: array<byte>          // the address space
    var allocp: nat                 // search pointer
    var alloct: nat                 // arena top
    var allocx: seq<byte>           // the header-sized piece last overwritten by a split
    var memtop: nat                 // sbrk's break
    ghost var list: set<nat>        // the headers on the list
    ghost var live: map<nat, nat>   // the blocks handed out

    /** Static storage starts out zero; the break starts above it. */
    constructor (base: nat, hbss: nat)
      requires 0 < base && base + 6 <= hbss <= 0x1_0000
      ensures Valid() && |allocx| == 3 && View().live == map[] && View().brk == hbss && fresh(mem)
    {
      this.base := base;
      mem := new byte[0x1_0000](_ => 0);
      allocp, alloct, allocx, memtop := 0, 0, [0, 0, 0], hbss;
      list, live := {}, map[];
      new;
      BootSound(mem[..], base, hbss);
    }

    ghost function At(rover: nat): Heap
      reads this, mem
    {
      Heap(mem[..], list, base, alloct, live, rover, memtop)
    }

    method SetPtr(a: nat, v: nat)
      requires mem.Length == 0x1_0000 && a + 3 <= 0x1_0000 && v < 0x1_0000
      modifies mem
      ensures mem[..] == WithPtr(old(mem[..]), a, v)
    {
      mem[a], mem[a + 1] := v % 256, v / 256;
    }

    method SetBusy(a: nat, b: bool)
      requires mem.Length == 0x1_0000 && a + 3 <= 0x1_0000
      modifies mem
      ensures mem[..] == WithBusy(old(mem[..]), a, b)
    {
      mem[a + 2] := mem[a + 2] / 2 * 2 + (if b then 1 else 0);
    }

    /** `p->ptr` and the busy test, read from the array. */
    method GetPtr(a: nat) returns (v: nat)
      requires mem.Length == 0x1_0000 && a + 3 <= 0x1_0000
      ensures v == PtrAt(mem[..], a)
    {
      v := mem[a] as int + 256 * (mem[a + 1] as int);
    }

    method TestBusy(a: nat) returns (b: bool)
      requires mem.Length == 0x1_0000 && a + 3 <= 0x1_0000
      ensures b == BusyAt(mem[..], a)
    {
      b := mem[a + 2] % 2 == 1;
    }

    /** Merges the idle block `p` with the idle blocks after it. */
    method Absorb(p: nat, ghost r: nat) returns (q: nat)
      requires Sound(At(r)) && p in list && !BusyAt(mem[..], p)
      modifies mem, this`list
      ensures Sound(At(r)) && Coalesced(old(At(r)), At(r)) && KeepsHeads(old(At(r)), At(r))
      ensures SameHeaders(old(mem[..]), mem[..], list, p) && SameBut(old(mem[..]), mem[..], p, p + 3)
      ensures p in list && !BusyAt(mem[..], p) && p < q && q in list && q == PtrAt(mem[..], p) && BusyAt(mem[..], q)
    {
      hide PtrAt, BusyAt, WithPtr, Phase, Ends, Spaced, Links, LiveBlocks, WholeBlocks, Coalesced, KeepsHeads;
      ghost var h := At(r);
      CoalescedReflexive(h);
      NextUp(h, p);
      q := GetPtr(p);
      NextUp(h, q);
      var b := TestBusy(q);
      while !b
        invariant Sound(At(r)) && Coalesced(h, At(r)) && KeepsHeads(h, At(r))
        invariant SameHeaders(h.m, mem[..], list, p) && SameBut(h.m, mem[..], p, p + 3)
        invariant p in list && !BusyAt(mem[..], p) && p < q && q in list
        invariant q == PtrAt(mem[..], p) && b == BusyAt(mem[..], q)
        decreases list
      {
        ghost var k := At(r);
        MergeSound(k, p);
        MergeHeads(k, p);
        NextUp(k, q);
        NextUp(k, p);
        var n := GetPtr(q);
        PtrSpot(h.m, mem[..], p, n);
        SetPtr(p, n);
        list := list - {q};
        assert At(r) == Merge(k, p);
        CoalescedTransitive(h, k, At(r));
        HeadsKept(h, k, At(r));
        NextUp(At(r), p);
        q := GetPtr(p);
        NextUp(At(r), q);
        b := TestBusy(q);
      }
    }

    /** The two laps of the search: round the list from `start`, merging idle blocks on the way, until a block
        with room for `n` bytes turns up or the top has been passed twice. `g` is the arena as it was before
        any merging. */
    method Laps(start: nat, n: nat, ghost g: Heap) returns (found: bool, p: nat, q: nat)
      requires Inv(At(start)) && Inv(g) && g.rover == start && Coalesced(g, At(start)) && 3 <= n < 0x1_0000
      modifies mem, this`list
      ensures Sound(At(start)) && Coalesced(g, At(start)) && KeepsHeads(old(At(start)), At(start))
      ensures found ==> FirstFit(g, p, n)
      ensures found ==> p in list && !BusyAt(mem[..], p) && q == PtrAt(mem[..], p) && p + n <= q && BusyAt(mem[..], q)
      ensures !found ==> NoFit(g, n) && Settled(At(start), 0x1_0000) && Looked(At(start), start)
    {
      hide PtrAt, BusyAt, Phase, Ends, Spaced, Links, LiveBlocks, WholeBlocks, Coalesced, KeepsHeads;
      hide Settled, SameHeaders, FirstFit, Fits, SameBut, Looked, RunEnd;
      ghost var h := At(start);
      CoalescedReflexive(h);
      NextUp(h, start);
      p, q := start, start;
      var laps := 0;
      while true
        invariant 0 <= laps <= 1 && p in list
        invariant Sound(At(start)) && Coalesced(h, At(start)) && KeepsHeads(h, At(start)) && Coalesced(g, At(start))
        invariant (laps == 0 && p == start) || Looked(At(start), start)
        invariant laps == 0 ==> start <= p && forall b: nat :: Fits(g, b, n) ==> b < start || p <= b
        invariant laps == 1 ==> Settled(At(start), p) && forall b: nat :: Fits(g, b, n) ==> p <= b < start
        decreases 1 - laps, 0x1_0000 - p
      {
        ghost var k := At(start);
        NextUp(k, p);
        CoalescedReflexive(k);
        var b := TestBusy(p);
        if !b {
          q := Absorb(p, start);
          CoalescedTransitive(h, k, At(start));
          CoalescedTransitive(g, k, At(start));
          HeadsKept(h, k, At(start));
          if p == start { LookedNow(At(start), p); } else { TwoApart(h, k, start, p); LookedKept(k, At(start), start, p); }
          var s := (p + n) % 0x1_0000;
          if q >= s && s >= p {
            FoundFirst(g, At(start), p, n, laps == 1);
            return true, p, q;
          }
        }
        if b && p == start { LookedNow(At(start), p); }
        NextUp(At(start), p);
        PassOver(g, At(start), p, n);
        if laps == 1 { SettledNext(k, At(start), p); }
        q := p;
        p := GetPtr(p);
        if p <= q {
          // the consistency test of the source (line 74) can never fire
          SameEnds(g, At(start));
          assert q == alloct && p == base;
          SettledBase(At(start));
          laps := laps + 1;
          if laps > 1 {
            return false, p, q;
          }
        }
      }
    }

    // ------------------------------------------------------------ the state between calls

    ghost predicate Located()
      reads this
    {
      mem.Length == 0x1_0000 && 0 < base && base + 6 <= memtop <= 0x1_0000
    }

    /** Before the first call the arena is still unset; the first call to malloc sets it up as here. */
    ghost function View(): Heap
      requires Located()
      reads this, mem
    {
      if PtrAt(mem[..], base) == 0 then Boot(mem[..], base, memtop) else At(allocp)
    }

    /** What holds after every call, even one that found no room. */
    ghost predicate Usable()
      reads this, mem
    {
      Located() && Sound(View())
    }

    ghost predicate Valid()
      reads this, mem
    {
      Usable() && View().rover in View().list
    }

    lemma Started(r: nat)
      requires Located() && Sound(At(r))
      ensures View() == At(allocp) && Usable()
    {
      NextUp(At(r), base);
      BrkMoved(At(r), memtop);
    }

    /** `sbrk`: moves the break up by `n` and returns where it was, unless fewer than 1024 bytes
        would be left below the stack pointer `sp`. */
    method Sbrk(n: nat, sp: nat) returns (r: nat)
      requires n < 0x1_0000 && sp < 0x1_0000
      modifies this`memtop
      ensures if old(memtop) + n + 1024 < sp then r == old(memtop) && memtop == r + n
              else r == 0xFFFF && memtop == old(memtop)
    {
      if memtop + n + 1024 < sp {
        r := memtop;
        memtop := memtop + n;
      } else {
        r := 0xFFFF;
      }
    }

    /** The first-time set-up. */
    method Start()
      requires Valid()
      modifies mem, this`allocp, this`alloct, this`list, this`live
      ensures Located() && At(allocp) == old(View())
    {
      var first := GetPtr(base);
      if first == 0 {
        alloct, allocp := base + 3, base;
        SetPtr(base, base + 3);
        SetPtr(base + 3, base);
        SetBusy(base, true);
        SetBusy(base + 3, true);
        list, live := {base, base + 3}, map[];
      }
    }

    /** The `t` bytes at `q` join the arena. */
    method Extend(q: nat, t: nat)
      requires mem.Length == 0x1_0000 && Sound(At(base).(brk := q))
      requires memtop == q + t <= 0x1_0000 && 6 <= t && t % 3 == 0
      modifies mem, this`list, this`alloct
      ensures At(base) == Grow(old(At(base).(brk := q)), t)
    {
      hide PtrAt, BusyAt, WithPtr, WithBusy, Phase, Sound;
      BrkBound(At(base).(brk := q));
      NextUp(At(base).(brk := q), alloct);
      SetPtr(alloct, q);
      SetBusy(alloct, q != alloct + 3);
      alloct := q + t - 3;
      SetPtr(q, alloct);
      SetPtr(alloct, base);
      SetBusy(alloct, true);
      SetBusy(q, false);
      list := list + {q, alloct};
    }

    /** The first `n` bytes of the idle block `p`, which ends at `q`, are handed out. */
    method Carve(p: nat, q: nat, n: nat, ghost nb: nat)
      requires mem.Length == 0x1_0000 && Takeable(At(allocp), p, n) && q == PtrAt(mem[..], p) && |allocx| == 3
      modifies mem, this`allocp, this`allocx, this`list, this`live
      ensures p + n + 3 <= 0x1_0000 && At(allocp) == Take(old(At(allocp)), p, n, nb) && |allocx| == 3
      ensures p + n < q ==> allocx == old(mem[p + n..p + n + 3])
    {
      hide PtrAt, BusyAt, WithPtr, WithBusy, Phase, Sound;
      TakeHeaders(At(allocp), p, n, nb);
      WriteHeaders(p, q, n);
      list, live := list + {p + n}, live[p := nb];
    }

    /** The writes of lines 101 to 109. */
    method WriteHeaders(p: nat, q: nat, n: nat)
      requires mem.Length == 0x1_0000 && p + n + 3 <= 0x1_0000 && 3 <= n && q == PtrAt(mem[..], p) && |allocx| == 3
      modifies mem, this`allocp, this`allocx
      ensures allocp == p + n && mem[..] == Carved(old(mem[..]), p, n) && |allocx| == 3
      ensures p + n < q ==> allocx == old(mem[p + n..p + n + 3])
    {
      hide PtrAt, BusyAt, WithPtr, WithBusy;
      allocp := p + n;
      if q > allocp {
        allocx := mem[allocp..allocp + 3];
        var next := GetPtr(p);
        SetPtr(allocp, next);
        mem[allocp + 2] := 0;
      }
      SetPtr(p, allocp);
      SetBusy(p, true);
    }

    /** The search of malloc from `start`: the two laps and, if they find nothing, one growth of the arena and a third. */
    method Locate(start: nat, n: nat, sp: nat, ghost nb: nat) returns (found: bool, p: nat, q: nat)
      requires Located() && Inv(At(start)) && nb <= 0xFEF0 && n == Rounded(nb) && sp < 0x1_0000
      modifies mem, this`list, this`alloct, this`memtop
      ensures Located() && Sound(At(start))
      ensures var h := old(At(start)); var g := Arranged(h, nb);
        && found == !Refused(h, nb, sp)
        && (found ==> FirstFit(g, p, n) && Sound(g) && Coalesced(g, At(start)) && KeepsLive(h, g))
        && (!found ==> Coalesced(h, At(start)) && KeepsHeads(h, At(start)) && Settled(At(start), 0x1_0000))
      ensures !found ==> Looked(At(start), start)
      ensures found ==> p in list && !BusyAt(mem[..], p) && q == PtrAt(mem[..], p) && p + n <= q && BusyAt(mem[..], q)
    {
      hide PtrAt, BusyAt, WithPtr, WithBusy, Phase, Sound, Coalesced, KeepsHeads, Settled, Fits, FirstFit;
      hide Rounded, Growth, KeepsLive, Grow, Arranged, NoFit, Looked;
      ghost var h := At(start);
      CoalescedReflexive(h);
      CoalescedKeepsLive(h, h);
      RoundingEnough(nb);
      found, p, q := Laps(start, n, h);
      if found {
        FirstFits(h, p, n);
        ArrangedAsIs(h, nb);
        return;
      }
      ghost var k := At(start);
      SameEnds(h, k);
      BrkBound(h);
      var t := (n + 257) % 0x1_0000 / 255 * 255;
      assert t == Growth(n) by { GrowthIs(n); }
      var brk := Sbrk(0, sp);
      if (brk + t) % 0x1_0000 < brk {
        return;
      }
      brk := Sbrk(t, sp);
      if brk == 0xFFFF {
        return;
      }
      RoverMoved(h, k, base);
      GrownOnce(h, k.(rover := base), nb);
      ghost var g := Arranged(h, nb);
      Extend(brk, t);
      found, p, q := Laps(base, n, g);
      RoverMoved(g, At(base), start);
    }

    // ------------------------------------------------------------ the interface

    /** `nb` bytes, or 0. The block is the first fit in circular order from the rover, in the arena as it is
        or, when that has no room anywhere, as it is after growing once. */
    method Malloc(nb: nat, sp: nat) returns (r: nat)
      requires Valid() && |allocx| == 3 && nb <= 0xFEF0 && sp < 0x1_0000
      modifies mem, this
      ensures Usable() && |allocx| == 3 && KeepsLive(old(View()), View())
      ensures r == 0 <==> Refused(old(View()), nb, sp)
      ensures r != 0 ==> Valid() && Step(old(View()), Event.Malloc(nb, r, allocx), View())
      ensures r == 0 ==> AfterNull(old(View()), View()) && (Valid() <==> Head(old(View()), old(View()).rover))
      ensures r == 0 && Valid() ==> Step(old(View()), Event.Null(nb), View())
    {
      hide PtrAt, BusyAt, WithPtr, WithBusy, Phase, Sound, Coalesced, KeepsHeads, Settled, FirstFit;
      hide Rounded, Head, KeepsLive, Allocated, Take, Arranged, NoFit, Looked;
      Start();
      ghost var h := At(allocp);
      var n := (nb + 5) % 0x1_0000 / 3 * 3;
      assert n == Rounded(nb) by { RoundedIs(nb); }
      RoundingEnough(nb);
      var found, p, q := Locate(allocp, n, sp, nb);
      ghost var k := At(allocp);
      if !found {
        Started(allocp);
        CoalescedKeepsLive(h, k);
        forall b: nat ensures b in k.list <==> Head(h, b) { OnlyHeadsLeft(h, k, b); }
        return 0;
      }
      ghost var g := Arranged(h, nb);
      Carve(p, q, n, nb);
      TakeAllocates(g, k, p, n, nb, allocx);
      AllocatedInv(g, At(allocp), p, n, nb, allocx);
      AllocatedKeepsLive(g, At(allocp), p, n, nb, allocx);
      KeepsLiveTransitive(h, g, At(allocp));
      Started(allocp);
      r := p + 3;
    }

    /** malloc when the rover is an idle header that the search before, which found nothing, has merged away. With room up
        to the end of the idle run the search stops where it begins, as lines 60 to 68 do not ask whether the header is
        on the list: the block is taken out of the middle of one that is. For a larger request the search goes on to the
        end of the run, which is on the list, and all is as if it had begun there. */
    method MallocStranded(nb: nat, sp: nat) returns (r: nat)
      requires mem.Length == 0x1_0000 && |allocx| == 3 && nb <= 0xFEF0 && sp < 0x1_0000 && allocp + 3 <= 0x1_0000
      requires Located() && Sound(At(allocp)) && !BusyAt(mem[..], allocp) && RunEnd(At(allocp), allocp, PtrAt(mem[..], allocp))
      modifies mem, this
      ensures old(allocp + Rounded(nb) <= PtrAt(mem[..], allocp)) ==> (
        && r == old(allocp) + 3 && allocp == old(allocp) + Rounded(nb) && |allocx| == 3
        && old(allocp) + Rounded(nb) + 3 <= 0x1_0000 && mem[..] == Carved(old(mem[..]), old(allocp), Rounded(nb))
        && list == old(list) && live == old(live) && memtop == old(memtop) && alloct == old(alloct))
      ensures old(allocp + Rounded(nb) > PtrAt(mem[..], allocp)) ==> (
        var h := old(At(PtrAt(mem[..], allocp)));
        && Usable() && |allocx| == 3 && KeepsLive(h, View())
        && (r == 0 <==> Refused(h, nb, sp))
        && (r != 0 ==> Valid() && Step(h, Event.Malloc(nb, r, allocx), View()))
        && (r == 0 ==> AfterNull(h, View().(rover := h.rover)) && allocp == old(allocp)))
    {
      hide PtrAt, BusyAt, Carved, Rounded, Sound, RunEnd, Refused, AfterNull, Step, KeepsLive, Inv, Usable, Valid, View;
      RoundingEnough(nb);
      var n := (nb + 5) % 0x1_0000 / 3 * 3;
      assert n == Rounded(nb) by { RoundedIs(nb); }
      EndOfRun(At(allocp), allocp);
      var p := allocp;
      var b := TestBusy(p);
      var q := GetPtr(p);
      var c := TestBusy(q);
      assert !b && c;
      var s := (p + n) % 0x1_0000;
      if q >= s && s >= p {
        WriteHeaders(p, q, n);
        r := p + 3;
      } else {
        Roved(At(allocp), q);
        r := SearchOn(q, n, nb, sp);
      }
    }

    /** The search goes on at a block `start` of the list. */
    method SearchOn(start: nat, n: nat, nb: nat, sp: nat) returns (r: nat)
      requires Located() && Inv(At(start)) && |allocx| == 3 && nb <= 0xFEF0 && n == Rounded(nb) && sp < 0x1_0000
      modifies mem, this
      ensures var h := old(At(start));
        && Usable() && |allocx| == 3 && KeepsLive(h, View())
        && (r == 0 <==> Refused(h, nb, sp))
        && (r != 0 ==> Valid() && Step(h, Event.Malloc(nb, r, allocx), View()))
        && (r == 0 ==> AfterNull(h, View().(rover := start)) && allocp == old(allocp))
    {
      hide PtrAt, BusyAt, WithPtr, WithBusy, Phase, Sound, Coalesced, KeepsHeads, Settled, FirstFit;
      hide Rounded, Head, KeepsLive, Allocated, Take, Arranged, NoFit, Looked;
      ghost var h := At(start);
      RoundingEnough(nb);
      var found, p, q := Locate(start, n, sp, nb);
      ghost var k := At(start);
      RoverMoved(k, k, allocp) by { CoalescedReflexive(k); }
      ghost var l := At(allocp);
      if !found {
        Started(allocp);
        RoverMoved(h, k, allocp);
        CoalescedKeepsLive(h, l);
        forall b: nat ensures b in k.list <==> Head(h, b) { OnlyHeadsLeft(h, k, b); }
        return 0;
      }
      ghost var g := Arranged(h, nb);
      RoverMoved(g, k, allocp);
      Carve(p, q, n, nb);
      TakeAllocates(g, l, p, n, nb, allocx);
      AllocatedInv(g, At(allocp), p, n, nb, allocx);
      AllocatedKeepsLive(g, At(allocp), p, n, nb, allocx);
      KeepsLiveTransitive(h, g, At(allocp));
      Started(allocp);
      r := p + 3;
    }

    /** Gives a block back. */
    method Free(ap: nat)
      requires Usable() && 3 <= ap && ap - 3 in View().live
      modifies mem, this`allocp, this`live
      ensures Valid() && ap <= 0x1_0000 && Step(old(View()), Event.Free(ap), View())
      ensures KeepsLive(old(View().(live := View().live - {ap - 3})), View())
    {
      hide PtrAt, BusyAt, Phase, Sound, WithBusy, Chain, KeepsLive;
      LiveStarted();
      ghost var h := View();
      LiveListed(h, ap - 3);
      NextUp(h, ap - 3);
      ReleaseSound(h, ap - 3);
      ReleaseKeepsLive(h, ap - 3);
      var p := ap - 3;
      allocp := p;
      SetBusy(p, false);
      live := live - {p};
      Started(allocp);
    }

    /** A block given back is what the next request gets, if it is large enough for it. */
    method FreeThenMalloc(ap: nat, nb: nat, sp: nat) returns (r: nat)
      requires Usable() && 3 <= ap && ap - 3 in View().live && |allocx| == 3 && nb <= 0xFEF0 && sp < 0x1_0000
      requires ap - 3 + Rounded(nb) <= PtrAt(mem[..], ap - 3)
      modifies mem, this
      ensures Valid() && r == ap
    {
      hide PtrAt, BusyAt, Phase, Sound, KeepsLive, Allocated, Rounded, FirstFit, Fits, Release;
      ghost var h := View();
      LiveStarted();
      LiveWithin(h, ap - 3);
      ReleasedFits(h, ap - 3, Rounded(nb));
      Free(ap);
      r := RoverTaken(nb, sp);
    }

    lemma LiveWithin(h: Heap, a: nat)
      requires Sound(h) && a in h.live
      ensures a + 3 <= |h.m|
    {
      LiveListed(h, a);
      NextUp(h, a);
    }

    /** A request for which there is room at the rover. */
    method RoverTaken(nb: nat, sp: nat) returns (r: nat)
      requires Valid() && |allocx| == 3 && nb <= 0xFEF0 && sp < 0x1_0000 && Fits(View(), View().rover, Rounded(nb))
      modifies mem, this
      ensures Valid() && r == old(View().rover) + 3 && |allocx| == 3
      ensures Allocated(old(View()), View(), r - 3, Rounded(nb), nb, allocx)
    {
      hide PtrAt, BusyAt, Phase, Sound, KeepsLive, Allocated, Rounded, FirstFit, Fits;
      ghost var h := View();
      RoverRoom(h, nb, sp);
      r := Malloc(nb, sp);
      RoverFits(h, r - 3, Rounded(nb));
    }

    lemma RoverRoom(h: Heap, nb: nat, sp: nat)
      requires Fits(h, h.rover, Rounded(nb))
      ensures !Refused(h, nb, sp) && Arranged(h, nb) == h
    {
      hide Rounded, Fits, Sound, Growth, Grow;
      assert !NoFit(h, Rounded(nb));
    }

    /** Two requests for which there is room together at the rover get neighbouring blocks, the second above the first. */
    method MallocTwice(n1: nat, n2: nat, sp: nat) returns (r1: nat, r2: nat)
      requires Valid() && |allocx| == 3 && n1 <= 0xFEF0 && n2 <= 0xFEF0 && sp < 0x1_0000
      requires Fits(View(), View().rover, Rounded(n1) + Rounded(n2))
      modifies mem, this
      ensures Valid() && r1 == old(View().rover) + 3 && r2 == r1 + Rounded(n1)
    {
      hide PtrAt, BusyAt, Phase, Sound, KeepsLive, Allocated, Rounded, FirstFit, Fits;
      ghost var h := View();
      RoundingEnough(n1);
      RoundingEnough(n2);
      FitsLess(h, h.rover, Rounded(n1), Rounded(n1) + Rounded(n2));
      r1 := RoverTaken(n1, sp);
      RestFits(h, View(), r1 - 3, Rounded(n1), n1, allocx, Rounded(n2));
      assert View().rover == r1 - 3 + Rounded(n1) by { RoverAfter(h, View(), r1 - 3, Rounded(n1), n1, allocx); }
      r2 := RoverTaken(n2, sp);
    }

    lemma RoverAfter(g: Heap, k: Heap, a: nat, nw: nat, nb: nat, x: seq<byte>)
      requires Allocated(g, k, a, nw, nb, x)
      ensures k.rover == a + nw
    {
    }

    lemma FitsLess(h: Heap, a: nat, n: nat, m: nat)
      requires Fits(h, a, m) && n <= m
      ensures Fits(h, a, n)
    {
    }

    lemma LiveStarted()
      requires Usable() && View().live != map[]
      ensures View() == At(allocp)
    {
    }

    /** `bmove`: `ldir`, so bytes move in ascending order. */
    method Bmove(from: nat, to: nat, count: nat)
      requires mem.Length == 0x1_0000 && from + count <= 0x1_0000 && to + count <= 0x1_0000
      requires to <= from || from + count <= to
      modifies mem
      ensures SameBut(old(mem[..]), mem[..], to, to + count)
      ensures forall x :: to <= x < to + count ==> mem[x] == old(mem[x - to + from])
    {
      var i := 0;
      while i < count
        invariant 0 <= i <= count
        invariant forall x :: 0 <= x < 0x1_0000 && !(to <= x < to + i) ==> mem[x] == old(mem[x])
        invariant forall x :: to <= x < to + i ==> mem[x] == old(mem[x - to + from])
      {
        mem[to + i] := mem[from + i];
        i := i + 1;
      }
    }

    lemma WholeHeaders(n: int)
      requires n % 3 == 0
      ensures n / 3 * 3 == n
    {
    }

    /** The copying part of realloc: `ons` headers' worth from `p` to the block at `q`, or as much as fits there,
        and the repair. */
    method Relocate(p: nat, ghost e: nat, ons: nat, q: nat) returns (ghost m2: seq<byte>)
      requires mem.Length == 0x1_0000 && |allocx| == 3 && 3 <= q && p <= e <= 0x1_0000 && e - p == 3 * ons
      requires q <= PtrAt(mem[..], q - 3) && PtrAt(mem[..], q - 3) + 3 <= 0x1_0000
      requires (PtrAt(mem[..], q - 3) - q) % 3 == 0 && (q <= p || e <= q)
      requires q < p && p < PtrAt(mem[..], q - 3) ==> (PtrAt(mem[..], q - 3) - p) % 3 == 0 && q + 3 <= p
      modifies mem
      ensures CopyDone(old(mem[..]), m2, mem[..], allocx, p, e, q, PtrAt(old(mem[..]), q - 3))
    {
      hide PtrAt, SameBut, CopyDone;
      ghost var m1 := mem[..];
      var s := GetPtr(q - 3);
      var ns := (s - q) / 3;
      WholeHeaders(s - q);
      var n := if ons > ns then ns else ons;
      Bmove(p, q, n * 3);
      m2 := mem[..];
      assert n * 3 == if e - p <= s - q then e - p else s - q;
      if q < p && q + ns * 3 > p {
        var d := q + (q + ns * 3 - p) / 3 * 3;
        WholeHeaders(s - p);
        Restore(d);
        CopyRepaired(m1, m2, mem[..], allocx, p, e, q, s);
      } else {
        CopyMade(m1, m2, allocx, p, e, q, s);
      }
    }

    lemma CopyMade(m1: seq<byte>, m2: seq<byte>, x: seq<byte>, p: nat, e: nat, q: nat, s: nat)
      requires |m1| == |m2| == 0x1_0000 && |x| == 3 && p <= e <= 0x1_0000 && q <= s && s + 3 <= 0x1_0000 && !(q < p && p < s)
      requires var n := if e - p <= s - q then e - p else s - q;
        SameBut(m1, m2, q, q + n) && forall y :: q <= y < q + n ==> m2[y] == m1[y - q + p]
      ensures CopyDone(m1, m2, m2, x, p, e, q, s)
    {
      hide SameBut;
    }

    lemma CopyRepaired(m1: seq<byte>, m2: seq<byte>, m3: seq<byte>, x: seq<byte>, p: nat, e: nat, q: nat, s: nat)
      requires |m1| == |m2| == |m3| == 0x1_0000 && |x| == 3 && p <= e <= 0x1_0000 && q <= s && s + 3 <= 0x1_0000 && q < p && p < s
      requires var n := if e - p <= s - q then e - p else s - q;
        SameBut(m1, m2, q, q + n) && forall y :: q <= y < q + n ==> m2[y] == m1[y - q + p]
      requires q + s - p + 3 <= s && SameBut(m2, m3, q + s - p, q + s - p + 3) && m3[q + s - p..q + s - p + 3] == x
      ensures CopyDone(m1, m2, m3, x, p, e, q, s)
    {
      hide SameBut;
    }

    /** The header-sized piece that the split overwrote is put where it belongs. */
    method Restore(d: nat)
      requires mem.Length == 0x1_0000 && |allocx| == 3 && d + 3 <= 0x1_0000
      modifies mem
      ensures SameBut(old(mem[..]), mem[..], d, d + 3) && mem[d..d + 3] == allocx
    {
      mem[d], mem[d + 1], mem[d + 2] := allocx[0], allocx[1], allocx[2];
    }

    /** A block of `nb` bytes with what fits of the old contents, or 0. The contents survive whole unless the new block
        ends exactly where the old data began: the test in line 149 of the source misses that case, and there the header
        of the left-over space stays in the first three bytes. `SurvivalExact` says exactly when. */
    method Realloc(p: nat, nb: nat, sp: nat) returns (q: nat)
      requires Usable() && |allocx| == 3 && 3 <= p <= 0x1_0000 && Resizable(View(), p - 3)
      requires nb <= 0xFEF0 && sp < 0x1_0000
      modifies mem, this
      ensures Usable() && KeepsLive(old(View().(live := View().live - {p - 3})), View())
      ensures q == 0 <==> Refused(Freed(old(View()), p - 3), nb, sp)
      ensures q == 0 ==> AfterNull(Freed(old(View()), p - 3), View())
      ensures q != 0 ==> Valid() && Step(old(View()), Event.Realloc(p, nb, q), View())
    {
      hide PtrAt, BusyAt, Phase, Sound, WithBusy, Chain, KeepsLive, Rounded, FirstFit, Allocated, Arranged, Resettled;
      hide Inv, SameBut, Refused, CopyDone, Collides;
      ghost var h := View();
      var a := p - 3;
      ResizableStarted(h, a);
      FreedSound(h, a);
      var e := GetPtr(a);
      var ons := (e - p) / 3;
      var b := TestBusy(a);
      if b {
        Free(p);
      }
      ghost var f := View();
      assert f == Freed(h, a);
      q := Malloc(nb, sp);
      ghost var k := View();
      KeepsLiveTransitive(h.(live := h.live - {a}), f, k);
      if q == 0 {
        return;
      }
      ghost var x := allocx;
      assert Moved(h, k, p, q - 3, nb, x);
      MovedShape(h, k, p, q - 3, nb, x);
      MovedContents(h, k, p, q - 3, nb, x);
      if q == p {
        StayedPut(h, k, p, nb, x);
        return;
      }
      ghost var m2 := Relocate(p, e, ons, q);
      CopiedBack(h, k, p, q, nb, x, m2, mem[..]);
      PayloadWritten(k, mem[..], q - 3);
      MovedNew(h, k, p, q - 3, nb, x);
      InvSound(k.(m := mem[..]));
      Started(allocp);
      KeepsOthers(h.(live := h.live - {a}), k, View(), q - 3);
    }
  }
}
