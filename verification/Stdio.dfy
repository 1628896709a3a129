/** fgetc.as, fputc.as, filbuf.c, flsbuf.c, fflush.c, fseek.c and fclose.c: buffered streams over disk files, open for
    reading or for writing. To the caller a stream is a file with a cursor; the buffer does not show. */
module Stdio {
  import opened Bytes
  import opened CpmFiles

  // ---------------------------------------------------------------- text and binary

  /** What fgetc delivers from position `p` of the contents `s`, and where it goes on: -1 at the end. In text, carriage
      returns are passed over, and ^Z is the end. */
  function Next(binary: bool, s: seq<byte>, p: nat): (r: (int, nat))
    requires p <= |s|
    ensures p <= r.1 <= |s| && -1 <= r.0 < 256
    decreases |s| - p
  {
    if p == |s| then (-1, p)
    else if binary then (s[p] as int, p + 1)
    else if s[p] == 13 then Next(binary, s, p + 1)
    else if s[p] == 26 then (-1, p)
    else (s[p] as int, p + 1)
  }

  /** One byte further. */
  lemma NextStep(binary: bool, s: seq<byte>, p: nat)
    requires p <= |s|
    ensures p == |s| ==> Next(binary, s, p) == (-1, p)
    ensures p < |s| ==> Next(binary, s, p) == if binary then (s[p] as int, p + 1)
      else if s[p] == 13 then Next(binary, s, p + 1) else if s[p] == 26 then (-1, p) else (s[p] as int, p + 1)
  {
  }

  /** What fputc writes for `c`. */
  function Coded(binary: bool, c: byte): (s: seq<byte>)
    ensures 0 < |s| <= 2
  {
    if !binary && c == 10 then [13, 10] else [c]
  }

  function CodedAll(binary: bool, text: seq<byte>): seq<byte> {
    if text == [] then [] else Coded(binary, text[0]) + CodedAll(binary, text[1..])
  }

  lemma {:induction false} CodedMore(binary: bool, text: seq<byte>, c: byte)
    ensures CodedAll(binary, text + [c]) == CodedAll(binary, text) + Coded(binary, c)
  {
    if text == [] {
      assert [c][1..] == [];
      assert text + [c] == [c];
    } else {
      assert (text + [c])[1..] == text[1..] + [c];
      CodedMore(binary, text[1..], c);
    }
  }

  /** In coded text every line ends in a carriage return and a line feed. */
  lemma {:induction false} LineEnds(text: seq<byte>, i: nat)
    requires i < |CodedAll(false, text)| && CodedAll(false, text)[i] == 10
    ensures i > 0 && CodedAll(false, text)[i - 1] == 13
  {
    var one := Coded(false, text[0]);
    if i >= |one| { LineEnds(text[1..], i - |one|); }
  }

  /** Everything fgetc delivers from position `p` on. */
  function Delivered(binary: bool, s: seq<byte>, p: nat): seq<byte>
    requires p <= |s|
    decreases |s| - p
  {
    var (c, q) := Next(binary, s, p);
    if c == -1 then [] else if q > p then [c] + Delivered(binary, s, q) else []
  }

  /** What of a text survives: what comes before the first ^Z, without carriage returns. */
  function Surviving(text: seq<byte>): seq<byte> {
    if text == [] || text[0] == 26 then []
    else (if text[0] == 13 then [] else [text[0]]) + Surviving(text[1..])
  }

  lemma {:induction false} SurvivesWhole(text: seq<byte>)
    ensures |Surviving(text)| <= |text|
    ensures Surviving(text) == text <==> 13 !in text && 26 !in text
  {
    if text != [] {
      SurvivesWhole(text[1..]);
      assert text == [text[0]] + text[1..];
    }
  }

  /** One character of text read back. */
  lemma OneDelivered(s: seq<byte>, p: nat, c: byte)
    requires p + |Coded(false, c)| <= |s| && s[p..p + |Coded(false, c)|] == Coded(false, c)
    ensures Delivered(false, s, p)
      == if c == 26 then [] else (if c == 13 then [] else [c]) + Delivered(false, s, p + |Coded(false, c)|)
  {
    var q := p + |Coded(false, c)|;
    assert s[p] == Coded(false, c)[0];
    if c == 10 {
      assert s[p + 1] == Coded(false, c)[1];
      assert Next(false, s, p + 1) == (10, p + 2);
    }
    if c == 13 { NextMoves(false, s, q); }
  }

  /** Text comes back, as far as it survives, whatever number of ^Z is after it. */
  lemma {:induction false} TextDelivered(text: seq<byte>, fill: seq<byte>, pre: seq<byte>)
    requires forall i :: 0 <= i < |fill| ==> fill[i] == 26
    ensures Delivered(false, pre + CodedAll(false, text) + fill, |pre|) == Surviving(text)
    decreases text
  {
    var s := pre + CodedAll(false, text) + fill;
    if text == [] {
      FillDelivered(pre, fill);
      assert s == pre + fill;
    } else {
      var c := text[0];
      assert CodedAll(false, text) == Coded(false, c) + CodedAll(false, text[1..]);
      hide Delivered, Coded, CodedAll;
      var pre' := pre + Coded(false, c);
      CodedParts(pre, Coded(false, c), CodedAll(false, text[1..]), fill);
      OneDelivered(s, |pre|, c);
      TextDelivered(text[1..], fill, pre');
    }
  }

  lemma CodedParts(pre: seq<byte>, one: seq<byte>, more: seq<byte>, fill: seq<byte>)
    ensures var s := pre + (one + more) + fill; s == pre + one + more + fill && s[|pre|..|pre| + |one|] == one
  {
    assert pre + (one + more) + fill == pre + one + more + fill;
    assert (pre + one + more + fill)[..|pre| + |one|] == pre + one;
  }

  lemma FillDelivered(pre: seq<byte>, fill: seq<byte>)
    requires forall i :: 0 <= i < |fill| ==> fill[i] == 26
    ensures Delivered(false, pre + fill, |pre|) == []
  {
    assert |fill| > 0 ==> (pre + fill)[|pre|] == fill[0];
  }

  lemma {:induction false} NextMoves(binary: bool, s: seq<byte>, p: nat)
    requires p <= |s|
    ensures Next(binary, s, p).0 != -1 ==> Next(binary, s, p).1 > p
    decreases |s| - p
  {
    if p < |s| { NextMoves(binary, s, p + 1); }
  }

  lemma {:induction false} BinaryDelivered(s: seq<byte>, p: nat)
    requires p <= |s|
    ensures Delivered(true, s, p) == s[p..]
    decreases |s| - p
  {
    if p < |s| {
      BinaryDelivered(s, p + 1);
      assert s[p..] == [s[p]] + s[p + 1..];
    }
  }

  // ---------------------------------------------------------------- streams

  class Stream {
    const fcb: Fcb
    const base: array<byte>
    var ptr: nat                  // as an offset from base
    var cnt: int
    var ioread: bool
    var iowrt: bool
    var ioeof: bool
    var iodirn: bool
    var iowrote: bool
    var iobinary: bool

    /** fopen with "r" or "w", on an open file, with a buffer. */
    constructor (fcb: Fcb, write: bool, binary: bool)
      requires fcb.rwp == 0
      ensures this.fcb == fcb && fresh(base) && iobinary == binary && !ioeof
      ensures write ==> ForWriting() && Image() == fcb.records && Cursor() == 0 && ptr == 0
      ensures !write && Dense(fcb.records, fcb.fsize) ==> ForReading() && Place() == 0 && cnt == 0
    {
      this.fcb := fcb;
      base := new byte[512](_ => 0);
      ptr, cnt, ioread, iowrt, iobinary := 0, 0, !write, write, binary;
      ioeof, iodirn, iowrote := false, false, false;
      new;
      if write {
        cnt, iodirn := 512, true;
      }
      PutNothing(fcb.records, fcb.rwp);
      assert base[..0] == [];
      assert base[0..0] == Slice(fcb.records, fcb.rwp, 0);
    }

    // ------------------------------------------------------------ reading

    /** A stream open for reading: what is left in the buffer is what comes before the file's own position. */
    ghost predicate ForReading()
      reads this, fcb, base
    {
      && base.Length == 512 && ioread && !iowrt && !iodirn
      && 0 <= cnt && ptr + cnt <= 512 && cnt <= fcb.rwp <= fcb.fsize && Dense(fcb.records, fcb.fsize)
      && base[ptr..ptr + cnt] == Slice(fcb.records, fcb.rwp - cnt, cnt)
    }

    /** The caller's position. */
    ghost function Place(): int
      reads this, fcb
    {
      fcb.rwp - cnt
    }

    /** The file's own position after a refill. */
    ghost function Refilled(rwp: nat, fsize: nat): nat {
      if rwp + 512 < fsize then rwp + 512 else fsize
    }

    /** _filbuf. */
    method Filbuf() returns (c: int)
      requires ForReading() && cnt == 0
      modifies this`ptr, this`cnt, this`ioeof, fcb`rwp, base
      ensures ForReading() && (c, Place()) == Next(true, Contents(fcb.records, fcb.fsize), old(Place()))
      ensures ioeof == (old(ioeof) || c == -1) && (c != -1 ==> ptr > 0 && base[ptr - 1] == c)
      ensures fcb.rwp == Refilled(old(fcb.rwp), fcb.fsize)
    {
      hide At, Contents;
      ghost var from := fcb.rwp;
      cnt := 0;
      var n := fcb.Read(base, 512);
      if fcb.rwp < fcb.fsize { NoHole(fcb.records, fcb.fsize, fcb.rwp); }
      if n == 0 {
        ioeof := true;
        assert base[ptr..ptr] == Slice(fcb.records, fcb.rwp, 0);
        return -1;
      }
      ptr, cnt := 1, n - 1;
      c := base[0];
      SliceContents(fcb.records, from, n, fcb.fsize);
      assert base[0] == base[..n][0];
      SliceMore(fcb.records, from, 1, n - 1);
      assert base[1..n] == base[..n][1..];
    }

    /** fgetc. */
    method Fgetc() returns (c: int)
      requires ForReading()
      modifies this`ptr, this`cnt, this`ioeof, fcb`rwp, base
      ensures ForReading()
      ensures old(ioeof) ==> c == -1 && ioeof && Place() == old(Place())
      ensures !old(ioeof) ==>
        (c, Place()) == Next(iobinary, Contents(fcb.records, fcb.fsize), old(Place())) && ioeof == (c == -1)
    {
      if ioeof {
        return -1;
      }
      hide At, Contents, Slice, ForReading, Dense, Next, Refilled;
      Within();
      ghost var s, from := Contents(fcb.records, fcb.fsize), Place();
      while true
        invariant ForReading() && !ioeof && 0 <= from <= Place() <= fcb.fsize && Contents(fcb.records, fcb.fsize) == s
        invariant Next(iobinary, s, from) == Next(iobinary, s, Place())
        decreases fcb.fsize - Place()
      {
        ghost var p := Place();
        Within();
        NextStep(iobinary, s, p);
        c := TakeByte();
        if c == -1 || iobinary {
          return;
        }
        if c == 13 {
          continue;
        }
        if c != 26 {
          return;
        }
        GiveBack(p);
        return -1;
      }
    }

    /** The next byte, from the buffer or else from the file. */
    method TakeByte() returns (c: int)
      requires ForReading() && !ioeof
      modifies this`ptr, this`cnt, this`ioeof, fcb`rwp, base
      ensures ForReading() && ioeof == (c == -1)
      ensures old(Place()) == fcb.fsize ==> c == -1 && Place() == old(Place())
      ensures old(Place()) < fcb.fsize ==> c == Contents(fcb.records, fcb.fsize)[old(Place())] && Place() == old(Place()) + 1
      ensures c != -1 ==> ptr > 0 && base[ptr - 1] == c
      ensures fcb.rwp == if old(cnt) > 0 then old(fcb.rwp) else Refilled(old(fcb.rwp), fcb.fsize)
    {
      hide At, Contents, Slice, ForReading, Dense, Next, Refilled;
      Within();
      if cnt == 0 {
        NextStep(true, Contents(fcb.records, fcb.fsize), Place());
        c := Filbuf();
      } else {
        c := TakeOne();
      }
    }

    lemma Within()
      requires ForReading()
      ensures cnt >= 0 && 0 <= Place() <= fcb.fsize && (cnt > 0 ==> Place() < fcb.fsize)
    {
    }

    /** A byte out of the buffer. */
    method TakeOne() returns (c: byte)
      requires ForReading() && cnt > 0
      modifies this`ptr, this`cnt
      ensures ForReading() && Place() == old(Place()) + 1 && ptr > 0 && base[ptr - 1] == c
      ensures c == Contents(fcb.records, fcb.fsize)[old(Place())]
    {
      hide At, Contents;
      SliceContents(fcb.records, Place(), cnt, fcb.fsize);
      SliceMore(fcb.records, Place(), 1, cnt - 1);
      assert base[ptr + 1..ptr + cnt] == base[ptr..ptr + cnt][1..];
      assert base[ptr] == base[ptr..ptr + cnt][0];
      c := base[ptr];
      ptr, cnt := ptr + 1, cnt - 1;
    }

    /** And back into it, at the end of text. */
    method GiveBack(ghost p: nat)
      requires ForReading() && ptr > 0 && Place() == p + 1 && base[ptr - 1] == Contents(fcb.records, fcb.fsize)[p]
      modifies this`ptr, this`cnt, this`ioeof
      ensures ForReading() && Place() == p && ioeof
    {
      hide At, Contents;
      SliceMore(fcb.records, p, 1, cnt);
      SliceContents(fcb.records, p, 1, fcb.fsize);
      assert base[ptr - 1..ptr + cnt] == [base[ptr - 1]] + base[ptr..ptr + cnt];
      assert Contents(fcb.records, fcb.fsize)[p..p + 1] == [Contents(fcb.records, fcb.fsize)[p]];
      cnt, ptr := cnt + 1, ptr - 1;
      ioeof := true;
    }

    // ------------------------------------------------------------ writing

    /** A stream open for writing: the buffer up to `ptr` is still to be written at the file's own position. */
    ghost predicate ForWriting()
      reads this
    {
      base.Length == 512 && iowrt && !ioread && iodirn && 0 <= cnt <= 512 && ptr == 512 - cnt
    }

    /** The file as the caller sees it, and the caller's position. */
    ghost function Image(): disk
      requires ForWriting()
      reads this, fcb, base
    {
      Put(fcb.records, fcb.rwp, base[..ptr])
    }

    ghost function Cursor(): nat
      reads this, fcb
    {
      fcb.rwp + ptr
    }

    ghost function Size(): nat
      reads this, fcb
    {
      if ptr > 0 && fcb.fsize < fcb.rwp + ptr then fcb.rwp + ptr else fcb.fsize
    }

    /** _flsbuf. */
    method Flsbuf(c: byte) returns (r: int)
      requires ForWriting() && cnt == 0
      modifies this`ptr, this`cnt, fcb, base
      ensures ForWriting() && r == c && ptr == 1
      ensures Image() == Put(old(Image()), old(Cursor()), [c]) && Cursor() == old(Cursor()) + 1
      ensures Size() == if old(Size()) < Cursor() then Cursor() else old(Size())
    {
      hide Put;
      assert base[..512] == base[..ptr];
      var n := fcb.Write(base, 512);
      cnt := 511;
      base[0] := c;
      ptr := 1;
      assert base[..1] == [c];
      r := c;
    }

    /** From label 2 of fputc. */
    method PutByte(c: byte) returns (r: int)
      requires ForWriting()
      modifies this`ptr, this`cnt, fcb, base
      ensures ForWriting() && r == c && ptr > 0
      ensures Image() == Put(old(Image()), old(Cursor()), [c]) && Cursor() == old(Cursor()) + 1
      ensures Size() == if old(Size()) < Cursor() then Cursor() else old(Size())
    {
      hide Put;
      if cnt == 0 {
        r := Flsbuf(c);
      } else {
        PutTwice(fcb.records, fcb.rwp, base[..ptr], [c]);
        assert |base[..ptr]| == ptr;
        cnt := cnt - 1;
        base[ptr] := c;
        ptr := ptr + 1;
        assert base[..ptr] == old(base[..ptr]) + [c];
        r := c;
      }
    }

    /** fputc. */
    method Fputc(c: byte) returns (r: int)
      requires ForWriting()
      modifies this`ptr, this`cnt, this`iodirn, this`iowrote, fcb, base
      ensures ForWriting() && r == c
      ensures Image() == Put(old(Image()), old(Cursor()), Coded(iobinary, c))
      ensures Cursor() == old(Cursor()) + |Coded(iobinary, c)|
      ensures Size() == if old(Size()) < Cursor() then Cursor() else old(Size())
      decreases if c == 10 then 1 else 0
    {
      hide Put;
      cnt, iodirn := if iodirn then cnt else 512, true;
      iowrote := true;
      if !iobinary && c == 10 {
        var cr := Fputc(13);
        PutTwice(old(Image()), old(Cursor()), [13], [c]);
        assert [13] + [c] == Coded(iobinary, c);
      }
      r := PutByte(c);
    }

    /** fflush: the caller sees no difference, and the file is then as the caller sees it. */
    method Fflush() returns (r: int)
      requires ForWriting()
      modifies this`ptr, this`cnt, this`iowrote, fcb
      ensures ForWriting() && r == 0 && ptr == 0
      ensures Image() == old(Image()) == fcb.records && Cursor() == old(Cursor()) && Size() == old(Size()) == fcb.fsize
    {
      hide Put;
      PutNothing(fcb.records, fcb.rwp);
      assert base[..0] == [];
      if !iowrt || !(iodirn || iowrote) || 512 - cnt == 0 {
        assert ptr == 0;
        return 0;
      }
      var n := fcb.Write(base, 512 - cnt);
      PutNothing(fcb.records, fcb.rwp);
      iowrote := false;
      cnt := 512;
      ptr := 0;
      return 0;
    }

    // ------------------------------------------------------------ seeking

    /** ftell. */
    method Ftell() returns (pos: int)
      requires ForReading() || ForWriting()
      modifies this`cnt, fcb`rwp
      ensures cnt == old(cnt) && fcb.rwp == old(fcb.rwp)
      ensures pos == if ioread then Place() else Cursor()
    {
      pos := fcb.Lseek(0, 1);
      cnt := if cnt < 0 then 0 else cnt;
      if iowrt {
        pos := pos + 512;
      }
      pos := pos - cnt;
    }

    method Clreof()
      requires ForReading() || ForWriting()
      modifies this`ioeof
      ensures !ioeof
      ensures old(ForReading()) ==> ForReading()
      ensures old(ForWriting()) ==> ForWriting() && Image() == old(Image())
    {
      ioeof := false;
    }

    lemma OneOrOther()
      ensures ForReading() ==> ioread && !iowrt && !ForWriting()
      ensures ForWriting() ==> iowrt && !ioread && !ForReading()
    {
    }

    /** In a stream open for reading: forwards within the buffer, or else the buffer is dropped. */
    method Shift(target: int, roffs: int) returns (done: bool)
      requires ForReading() && roffs == target - Place()
      modifies this`ptr, this`cnt, this`iodirn, this`iowrote
      ensures ForReading() && (if done then Place() == target && target >= 0 else cnt == 0)
    {
      hide At, Contents, Slice;
      iodirn := false;
      iowrote := false;
      done := roffs >= 0 && roffs <= cnt && !iowrt;
      if done {
        SkipSlice(roffs);
        cnt, ptr := cnt - roffs, ptr + roffs;
      } else {
        SkipSlice(cnt);
        cnt := 0;
        assert base[ptr..ptr] == [];
      }
    }

    /** With nothing in the buffer the file itself is moved. */
    method Go(target: int) returns (r: int)
      requires (ForReading() && cnt == 0 && target <= fcb.fsize) || (ForWriting() && ptr == 0)
      modifies fcb`rwp
      ensures r == if target >= 0 then 0 else -1
      ensures fcb.rwp == if target >= 0 then target else old(fcb.rwp)
      ensures old(ForReading()) ==> ForReading()
      ensures old(ForWriting()) ==> ForWriting() && Image() == old(Image()) && Size() == old(Size())
    {
      hide Put, At, Contents, Slice;
      PutNothing(fcb.records, fcb.rwp);
      EmptySlice(fcb.records, fcb.rwp);
      var p := fcb.Lseek(target, 0);
      PutNothing(fcb.records, fcb.rwp);
      EmptySlice(fcb.records, fcb.rwp);
      assert base[ptr..ptr] == [] == base[..0];
      r := if p == -1 then -1 else 0;
    }

    /** Where fseek is to go: from the start, the caller's position or the end. */
    ghost function Target(offs: int, whence: nat): int
      reads this, fcb
    {
      offs + (if whence == 1 then (if ioread then Place() else Cursor()) else if whence == 2 then (if ioread then fcb.fsize else Size()) else 0)
    }

    /** fseek, into the file when it is open for reading; from the end on binary streams only. A seek to before the start is
        refused; a reader has by then dropped its buffer, and goes on at the file's own position, which is another one
        exactly if something was left in the buffer. */
    method Fseek(offs: int, whence: nat) returns (r: int)
      requires (ForReading() && (whence <= 2 ==> Target(offs, whence) <= fcb.fsize)) || ForWriting()
      requires whence == 2 ==> iobinary
      modifies this`ptr, this`cnt, this`ioeof, this`iodirn, this`iowrote, fcb
      ensures r == if whence <= 2 && old(Target(offs, whence)) >= 0 then 0 else -1
      ensures old(ioread) ==> ForReading() && fcb.records == old(fcb.records) && fcb.fsize == old(fcb.fsize)
      ensures old(ioread) ==>
        Place() == if r == 0 then old(Target(offs, whence)) else if whence > 2 then old(Place()) else old(fcb.rwp)
      ensures old(ioread) && r == -1 && whence <= 2 ==> (Place() == old(Place()) <==> old(cnt) == 0)
      ensures old(iowrt) ==> ForWriting() && Image() == old(Image()) && Size() == old(Size())
      ensures old(iowrt) ==> Cursor() == if r == 0 then old(Target(offs, whence)) else old(Cursor())
      ensures !ioeof
    {
      hide Put, At, Contents, Slice, ForReading, ForWriting, Image;
      OneOrOther();
      var offs' := offs;
      Clreof();
      if iowrt {
        var f := Fflush();
      }
      if whence == 1 {
        var here := Ftell();
        offs' := offs' + here;
      } else if whence == 2 {
        offs' := offs' + fcb.fsize;
      } else if whence > 2 {
        return -1;
      }
      var roffs := Ftell();
      roffs := offs' - roffs;
      if roffs == 0 {
        return 0;
      }
      if ioread {
        var done := Shift(offs', roffs);
        if done {
          return 0;
        }
      }
      r := Go(offs');
    }

    lemma SkipSlice(n: nat)
      requires ForReading() && n <= cnt
      ensures base[ptr + n..ptr + cnt] == Slice(fcb.records, fcb.rwp - (cnt - n), cnt - n)
    {
      hide At, Contents;
      SliceMore(fcb.records, fcb.rwp - cnt, n, cnt - n);
      assert base[ptr + n..ptr + cnt] == base[ptr..ptr + cnt][n..];
    }

    // ------------------------------------------------------------ closing

    /** fclose. The file is as the caller saw it. In mode I the last byte of its name says how many bytes of the last
        record are not used; in mode C it stays 0. */
    method Fclose(exact: bool) returns (r: int, unused: nat)
      requires ForReading() || ForWriting()
      modifies this`ptr, this`cnt, this`iowrote, this`ioread, this`iowrt, fcb
      ensures r == 0 && unused == if exact && old(iowrt) then (128 - fcb.fsize % 128) % 128 else 0
      ensures old(iowrt) ==> fcb.records == old(Image()) && fcb.fsize == old(Size())
      ensures old(ioread) ==> fcb.records == old(fcb.records) && fcb.fsize == old(fcb.fsize)
    {
      hide Put, At, Contents, Slice;
      unused := 0;
      if iowrt {
        r := Fflush();
        Complement(fcb.fsize);
        if exact {
          unused := -(fcb.fsize as int) % 128;
        }
      }
      ioread, iowrt := false, false;
      r := 0;
    }
  }

  lemma Complement(n: nat)
    ensures -(n as int) % 128 == (128 - n % 128) % 128
  {
  }

  lemma EmptySlice(d: disk, p: nat)
    ensures Slice(d, p, 0) == []
  {
  }

  /** Reading only stops short of the end at a hole. */
  lemma NoHole(d: disk, n: nat, p: nat)
    requires Dense(d, n) && p < n
    ensures p / 128 in d
  {
  }

  /** A file of ten bytes, open for reading. */
  method OpenTen() returns (f: Stream)
    ensures fresh(f) && fresh(f.fcb) && fresh(f.base) && f.ForReading() && f.iobinary && !f.ioeof
    ensures f.cnt == 0 && f.fcb.rwp == 0 && f.fcb.fsize == 10
  {
    hide Contents, Slice, Put;
    var fcb := new Fcb(map[0 := seq(128, _ => 65)], 10);
    assert Dense(fcb.records, fcb.fsize);
    f := new Stream(fcb, false, true);
  }

  method ReadOneOfTen() returns (f: Stream)
    ensures fresh(f) && fresh(f.fcb) && fresh(f.base) && f.ForReading() && !f.ForWriting() && f.ioread && f.iobinary
    ensures f.cnt == 9 && f.fcb.rwp == 10 && f.fcb.fsize == 10
  {
    f := OpenTen();
    hide Contents, Next, Put, Slice, At, Dense;
    NextBinary(Contents(f.fcb.records, 10), 0);
    var c := f.TakeByte();
  }

  /** When one byte of it has been read, a seek to before the start is refused, and the position has moved to the end all
      the same. */
  method SeekMoves() returns (before: int, r: int, after: int)
    ensures before == 1 && r == -1 && after == 10
  {
    hide Contents, Next, Put, Slice, At, Dense;
    var f := ReadOneOfTen();
    hide f.ForReading, f.ForWriting, f.Image;
    before := f.Ftell();
    r := f.Fseek(-1, 0);
    after := f.Ftell();
  }

  lemma NextBinary(s: seq<byte>, p: nat)
    requires p <= |s|
    ensures Next(true, s, p) == if p < |s| then (s[p] as int, p + 1) else (-1, p)
  {
  }

  // ---------------------------------------------------------------- a file written and read again

  /** BDOS 35: one more than the number of the last record. */
  ghost predicate IsCount(d: disk, n: nat) {
    (forall r :: r in d ==> r < n) && (n > 0 ==> n - 1 in d)
  }

  method CountRecords(d: disk) returns (n: nat)
    ensures IsCount(d, n)
  {
    n := 0;
    var left := d.Keys;
    while left != {}
      invariant left <= d.Keys && (n > 0 ==> n - 1 in d)
      invariant forall r :: r in d && r !in left ==> r < n
      decreases |left|
    {
      var r :| r in left;
      if r >= n {
        n := r + 1;
      }
      left := left - {r};
    }
  }

  /** _fsize: the size an opened file is taken to have. */
  method Fsize(d: disk, unused: nat) returns (n: nat)
    requires unused < 128 && (d == map[] ==> unused == 0)
    ensures exists k: nat :: IsCount(d, k) && n == 128 * k - unused
  {
    var k := CountRecords(d);
    assert k == 0 ==> d == map[];
    n := 128 * k - unused;
  }

  /** A file made by writing `data` has just the records for it. */
  lemma NewFileCount(data: seq<byte>, k: nat)
    requires IsCount(Put(map[], 0, data), k)
    ensures k == (|data| + 127) / 128
  {
    var d := Put(map[], 0, data);
    PutKeys(map[], 0, data);
    if data == [] {
      PutNothing(map[], 0);
    } else {
      var last := (|data| - 1) / 128;
      InTouched(0, |data|, last);
      assert last in d;
      if k > 0 { InTouched(0, |data|, k - 1); }
    }
  }

  /** Its contents are the data, and ^Z to the end of the last record. */
  lemma NewFileContents(data: seq<byte>, n: nat)
    requires |data| <= n <= (|data| + 127) / 128 * 128
    ensures Dense(Put(map[], 0, data), n)
    ensures Contents(Put(map[], 0, data), n) == data + seq(n - |data|, _ => 26)
  {
    var d := Put(map[], 0, data);
    PutKeys(map[], 0, data);
    forall r: nat | 128 * r < n ensures r in d { InTouched(0, |data|, r); }
    hide Put, Touched;
    forall p | 0 <= p < n ensures Contents(d, n)[p] == (data + seq(n - |data|, _ => 26))[p] {
      AtAfter(map[], 0, data, p);
    }
  }

  /** The text, written with fputc to a new file. */
  method WriteText(f: Stream, text: seq<byte>)
    requires f.ForWriting() && f.Image() == map[] && f.Cursor() == f.Size() == 0
    modifies f, f.fcb, f.base
    ensures f.ForWriting() && f.Image() == Put(map[], 0, CodedAll(f.iobinary, text)) && f.iobinary == old(f.iobinary)
    ensures f.Cursor() == f.Size() == |CodedAll(f.iobinary, text)|
  {
    hide Put;
    ghost var binary := f.iobinary;
    PutNothing(map[], 0);
    var i := 0;
    while i < |text|
      invariant 0 <= i <= |text| && f.ForWriting() && f.iobinary == binary
      invariant f.Image() == Put(map[], 0, CodedAll(binary, text[..i]))
      invariant f.Cursor() == f.Size() == |CodedAll(binary, text[..i])|
    {
      var r := f.Fputc(text[i]);
      assert text[..i + 1] == text[..i] + [text[i]];
      CodedMore(binary, text[..i], text[i]);
      PutTwice(map[], 0, CodedAll(binary, text[..i]), Coded(binary, text[i]));
      i := i + 1;
    }
    assert text[..|text|] == text;
  }

  method WriteAll(text: seq<byte>, binary: bool, exact: bool) returns (records: disk, unused: nat)
    ensures records == Put(map[], 0, CodedAll(binary, text))
    ensures unused == if exact then (128 - |CodedAll(binary, text)| % 128) % 128 else 0
  {
    hide Put;
    var fcb := new Fcb(map[], 0);
    var f := new Stream(fcb, true, binary);
    WriteText(f, text);
    var r;
    r, unused := f.Fclose(exact);
    records := fcb.records;
  }

  /** Everything fgetc gives, to the end. */
  method ReadText(f: Stream) returns (text: seq<byte>)
    requires f.ForReading() && !f.ioeof && f.Place() == 0
    modifies f, f.fcb, f.base
    ensures text == Delivered(old(f.iobinary), Contents(old(f.fcb.records), old(f.fcb.fsize)), 0)
  {
    hide At, Contents, Slice, Next, Delivered;
    ghost var binary, n, s := f.iobinary, f.fcb.fsize, Contents(f.fcb.records, f.fcb.fsize);
    text := [];
    assert [] + Delivered(binary, s, 0) == Delivered(binary, s, 0);
    while true
      invariant f.ForReading() && !f.ioeof && f.iobinary == binary && f.fcb.fsize == n
      invariant Contents(f.fcb.records, n) == s && 0 <= f.Place() <= n
      invariant text + Delivered(binary, s, f.Place()) == Delivered(binary, s, 0)
      decreases n - f.Place()
    {
      ghost var p := f.Place();
      var c := f.Fgetc();
      NextMoves(binary, s, p);
      DeliveredStep(binary, s, p);
      if c == -1 {
        assert text + [] == text;
        return;
      }
      Joined(text, c, Delivered(binary, s, f.Place()));
      text := text + [c];
    }
  }

  lemma Joined(a: seq<byte>, c: byte, b: seq<byte>)
    ensures a + ([c] + b) == a + [c] + b
  {
  }

  lemma DeliveredStep(binary: bool, s: seq<byte>, p: nat)
    requires p <= |s|
    ensures var (c, q) := Next(binary, s, p);
      Delivered(binary, s, p) == if c == -1 then [] else if q > p then [c] + Delivered(binary, s, q) else []
  {
  }

  /** The file is opened and read. */
  method ReadAll(records: disk, unused: nat, binary: bool) returns (text: seq<byte>, ghost n: nat)
    requires unused < 128 && (records == map[] ==> unused == 0)
    requires forall k: nat :: IsCount(records, k) ==> Dense(records, 128 * k)
    ensures exists k: nat :: IsCount(records, k) && n == 128 * k - unused
    ensures text == Delivered(binary, Contents(records, n), 0)
  {
    hide At, Contents, Slice, Next, Delivered;
    var size := Fsize(records, unused);
    n := size;
    assert Dense(records, n);
    var fcb := new Fcb(records, size);
    var f := new Stream(fcb, false, binary);
    text := ReadText(f);
  }

  /** What is written with fputc is read with fgetc. Text is the same again, whether or not the exact size is kept, if
      and only if it has no CR and no ^Z; binary data are when the exact size is kept, and otherwise have ^Z
      after them to the end of the record. */
  method WriteThenRead(text: seq<byte>, binary: bool, exact: bool) returns (back: seq<byte>)
    ensures !binary ==> back == Surviving(text) && (back == text <==> 13 !in text && 26 !in text)
    ensures binary && exact ==> back == text
    ensures binary && !exact ==> back == text + seq((128 - |text| % 128) % 128, _ => 26)
  {
    hide Put, Contents, At, Delivered, IsCount, Dense, Surviving, CodedAll;
    ghost var data := CodedAll(binary, text);
    var records, unused := WriteAll(text, binary, exact);
    forall k: nat | IsCount(records, k) ensures Dense(records, 128 * k) {
      NewFileCount(data, k);
      NewFileContents(data, 128 * k);
    }
    if records == map[] { EmptyData(data); }
    ghost var n;
    back, n := ReadAll(records, unused, binary);
    ghost var k: nat :| IsCount(records, k) && n == 128 * k - unused;
    NewFileCount(data, k);
    NewFileContents(data, n);
    ghost var fill := seq(n - |data|, _ => 26 as byte);
    if !binary {
      SurvivesWhole(text);
      TextDelivered(text, fill, []);
      assert [] + data + fill == data + fill;
    }
    if binary {
      BinaryCoded(text);
      BinaryDelivered(data + fill, 0);
    }
  }

  lemma EmptyData(data: seq<byte>)
    requires Put(map[], 0, data) == map[]
    ensures data == []
  {
    PutKeys(map[], 0, data);
    if data != [] { InTouched(0, |data|, 0); }
  }

  lemma {:induction false} BinaryCoded(text: seq<byte>)
    ensures CodedAll(true, text) == text
  {
    if text != [] {
      BinaryCoded(text[1..]);
    }
  }
}
