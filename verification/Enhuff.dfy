/** The archiver: the output half of encode.c, and enhuff.c, which lays the archive out. `ArchiveBytes` is the
    archive as a value; the class writes it, out of order, to a file it seeks about in. */
module Enhuff {
  import opened Bytes
  import opened HuffTree
  import opened HuffCost
  import opened HuffBuild
  import opened HuffMake
  import opened HuffPack

  // ---------------------------------------------------------------- the archive as a value

  /** The low 16 bits of a number, low byte first; likewise 32 bits. */
  function U2(v: nat): (s: seq<byte>)
    ensures |s| == 2
  {
    [v % 256, v / 256 % 256]
  }

  function U4(v: nat): (s: seq<byte>)
    ensures |s| == 4
  {
    U2(v) + U2(v / 0x1_0000)
  }

  lemma U2Read(v: nat, pre: seq<byte>, post: seq<byte>)
    requires v < 0x1_0000
    ensures U2At(pre + U2(v) + post, |pre|) == v
  {
  }

  lemma U4Read(v: nat, pre: seq<byte>, post: seq<byte>)
    requires v < 0x1_0000_0000
    ensures U4At(pre + U4(v) + post, |pre|) == v
  {
    hide U2, U2At;
    assert pre + U4(v) + post == pre + U2(v) + (U2(v / 0x1_0000) + post);
    assert pre + U4(v) + post == (pre + U2(v)) + U2(v / 0x1_0000) + post;
    LowHalf(v, pre, U2(v / 0x1_0000) + post);
    U2Read(v / 0x1_0000, pre + U2(v), post);
  }

  lemma LowHalf(v: nat, pre: seq<byte>, post: seq<byte>)
    ensures U2At(pre + U2(v) + post, |pre|) == v % 0x1_0000
  {
  }

  ghost predicate CoversAll(t: Tree<byte>, files: seq<Source>) {
    forall i :: 0 <= i < |files| ==> Covers(t, files[i].name + [0]) && Covers(t, files[i].data)
  }

  /** A name, or a file's contents, in the archive. */
  function NameBytes(t: Tree<byte>, f: Source): seq<byte>
    requires Covers(t, f.name + [0])
  {
    Pack(Encode(t, f.name + [0]))
  }

  function DataBytes(t: Tree<byte>, f: Source): seq<byte>
    requires Covers(t, f.data)
  {
    Pack(Encode(t, f.data))
  }

  /** The first n names; the first n contents. */
  function Names(t: Tree<byte>, files: seq<Source>, n: nat): seq<byte>
    requires CoversAll(t, files) && n <= |files|
  {
    if n == 0 then [] else Names(t, files, n - 1) + NameBytes(t, files[n - 1])
  }

  function Datas(t: Tree<byte>, files: seq<Source>, n: nat): seq<byte>
    requires CoversAll(t, files) && n <= |files|
  {
    if n == 0 then [] else Datas(t, files, n - 1) + DataBytes(t, files[n - 1])
  }

  /** The tree: the characters of its leaves, then its shape. */
  function TreeBytes(t: Tree<byte>): (s: seq<byte>)
    ensures s != []
  {
    Leaves(t) + Pack(Serial(t))
  }

  /** Where the directory starts (HSIZE is 10), where name i starts, and where file i starts (FSIZE is 13). */
  function Hpos(t: Tree<byte>): nat {
    10 + |TreeBytes(t)|
  }

  function Npos(t: Tree<byte>, files: seq<Source>, i: nat): nat
    requires CoversAll(t, files) && i <= |files|
  {
    Hpos(t) + 13 * |files| + |Names(t, files, i)|
  }

  function Fpos(t: Tree<byte>, files: seq<Source>, i: nat): nat
    requires CoversAll(t, files) && i <= |files|
  {
    Npos(t, files, |files|) + |Datas(t, files, i)|
  }

  function Head(t: Tree<byte>, files: seq<Source>): (s: seq<byte>)
    ensures |s| == 10
  {
    U2(0x01BD) + U2(|files|) + U2(|Leaves(t)|) + U4(Hpos(t))
  }

  function EntryBytes(npos: nat, nchrs: nat, pos: nat, asc: bool): (s: seq<byte>)
    ensures |s| == 13
  {
    U4(npos) + U4(nchrs) + U4(pos) + [if asc then 1 else 0]
  }

  /** The first n directory entries. */
  function Directory(t: Tree<byte>, files: seq<Source>, n: nat): (s: seq<byte>)
    requires CoversAll(t, files) && n <= |files|
    ensures |s| == 13 * n
  {
    if n == 0 then [] else
      Directory(t, files, n - 1)
      + EntryBytes(Npos(t, files, n - 1), |files[n - 1].data|, Fpos(t, files, n - 1), files[n - 1].asc)
  }

  /** The whole archive: five parts, one after the other. */
  function ArchiveBytes(t: Tree<byte>, files: seq<Source>): seq<byte>
    requires CoversAll(t, files)
  {
    Head(t, files) + TreeBytes(t) + Directory(t, files, |files|)
    + (Names(t, files, |files|) + Datas(t, files, |files|))
  }

  // ---------------------------------------------------------------- writing

  class Output {
    var file: seq<byte>
    var pos: nat
    var pchar: byte
    var pbit: nat
    const hole: byte      // what an unwritten byte between written ones holds

    constructor (hole: byte)
      ensures file == [] && pos == 0 && Clean() && this.hole == hole
    {
      this.hole, file, pos, pchar, pbit := hole, [], 0, 0, 0;
    }

    ghost predicate Clean()
      reads this
    {
      pchar == 0 && pbit == 0
    }

    method Putchar(c: byte)
      modifies this`file, this`pos
      ensures file == Over(old(file), old(pos), [c], hole) && pos == old(pos) + 1
    {
      if pos < |file| {
        file := file[pos := c];
      } else {
        file := file + seq(pos - |file|, _ => hole) + [c];
      }
      pos := pos + 1;
    }

    method Seek(p: nat)
      modifies this`pos
      ensures pos == p
    {
      pos := p;
    }

    // ------------------------------------------------------------ bits

    /** Since the file was `f` and the position `start`, with no bits pending, the bits `run` have been put. */
    ghost predicate Put(f: seq<byte>, start: nat, run: seq<bool>)
      reads this
    {
      var k := |run| / 8;
      && pbit == |run| % 8 && pos == start + k
      && file == Over(f, start, Pack(run[..8 * k]), hole) && pchar == ByteOf(run[8 * k..])
    }

    lemma PutNone()
      requires Clean()
      ensures Put(file, pos, [])
    {
    }

    method PutBit(i: bool, ghost f: seq<byte>, ghost start: nat, ghost run: seq<bool>)
      requires Put(f, start, run)
      modifies this
      ensures Put(f, start, run + [i])
    {
      hide Over, ByteOf, WithBit, Pack;
      assert ByteOf([]) == 0 by { Empty(); }
      ghost var k := |run| / 8;
      ghost var last := run[8 * k..];
      BitPut(run, i);
      if i {
        pchar := WithBit8(pchar, pbit, true);
      }
      pbit := pbit + 1;
      if pbit == 8 {
        Putchar(pchar);
        OverTwice(f, start, Pack(run[..8 * k]), [Byte8(last + [i])], hole);
        pchar := 0;
        pbit := 0;
      }
    }

    /** puthch. */
    method PutHch(h: HChar, ghost f: seq<byte>, ghost start: nat, ghost run: seq<bool>)
      requires Put(f, start, run) && |h.cbits| == 32
      modifies this
      ensures Put(f, start, run + Word(h))
    {
      hide Put;
      var i := 0;
      assert run + Word(h)[..0] == run;
      while i < h.nbits
        invariant 0 <= i <= h.nbits && Put(f, start, run + Word(h)[..i])
      {
        PutBit(Tst(h.cbits, i), f, start, run + Word(h)[..i]);
        assert run + Word(h)[..i] + [Word(h)[i]] == run + Word(h)[..i + 1];
        i := i + 1;
      }
      assert Word(h)[..h.nbits] == Word(h);
    }

    /** align. */
    method Align(ghost f: seq<byte>, ghost start: nat, ghost run: seq<bool>)
      requires Put(f, start, run)
      modifies this
      ensures Clean() && file == Over(f, start, Pack(run), hole) && pos == start + |Pack(run)|
    {
      hide Over, ByteOf, Pack;
      ghost var k := |run| / 8;
      ghost var last := run[8 * k..];
      assert run == run[..8 * k] + last;
      PackParts(run[..8 * k], last);
      assert Pack(run[..8 * k]) + [] == Pack(run[..8 * k]);
      if pbit != 0 {
        Putchar(pchar);
        OverTwice(f, start, Pack(run[..8 * k]), [Byte8(last)], hole);
      }
      pchar, pbit := 0, 0;
    }

    // ------------------------------------------------------------ the tree

    method PutTchrs(t: Tree<byte>)
      modifies this`file, this`pos
      ensures file == Over(old(file), old(pos), Leaves(t), hole) && pos == old(pos) + |Leaves(t)|
      decreases t
    {
      hide Over;
      match t
      case Leaf(c) =>
        Putchar(c);
      case Node(l, r) =>
        PutTchrs(l);
        PutTchrs(r);
        OverTwice(old(file), old(pos), Leaves(l), Leaves(r), hole);
    }

    method WalkTree(t: Tree<byte>, ghost f: seq<byte>, ghost start: nat, ghost run: seq<bool>)
      requires Put(f, start, run)
      modifies this
      ensures Put(f, start, run + Walk(t))
      decreases t
    {
      hide Put;
      match t
      case Leaf(_) =>
        assert run + [] == run;
      case Node(l, r) =>
        PutBit(true, f, start, run);
        WalkTree(l, f, start, run + [true]);
        PutBit(false, f, start, run + [true] + Walk(l));
        WalkTree(r, f, start, run + [true] + Walk(l) + [false]);
        assert run + [true] + Walk(l) + [false] + Walk(r) == run + ([true] + Walk(l) + [false] + Walk(r));
    }

    /** put_tree and align. */
    method PutTree(t: Tree<byte>)
      requires Clean()
      modifies this
      ensures Clean() && file == Over(old(file), old(pos), TreeBytes(t), hole) && pos == old(pos) + |TreeBytes(t)|
    {
      hide Over, Put;
      ghost var f0, p0 := file, pos;
      PutTchrs(t);
      PutNone();
      ghost var f, start := file, pos;
      WalkTree(t, f, start, []);
      assert [] + Walk(t) == Walk(t);
      PutBit(false, f, start, Walk(t));
      WalkSafeguard(t);
      Align(f, start, Serial(t));
      OverTwice(f0, p0, Leaves(t), Pack(Serial(t)), hole);
    }

    // ------------------------------------------------------------ names and contents

    /** The characters of `s`, as puthch writes them. */
    method PutText(clist: array<HChar>, s: seq<byte>, ghost t: Tree<byte>, ghost f: seq<byte>, ghost start: nat, ghost run: seq<bool>)
      requires Sized(clist[..]) && Coded(clist[..], t, []) && Covers(t, s) && Put(f, start, run)
      modifies this
      ensures Put(f, start, run + Encode(t, s))
    {
      hide Put, Code, Word, Encode;
      var i := 0;
      assert run + Encode(t, s[..0]) == run by { EncodeNone(t); }
      while i < |s|
        invariant 0 <= i <= |s| && Put(f, start, run + Encode(t, s[..i]))
      {
        CodeOf(clist[..], t, s[i]);
        EncodeMore(t, s[..i], s[i]);
        assert s[..i + 1] == s[..i] + [s[i]];
        PutHch(clist[s[i]], f, start, run + Encode(t, s[..i]));
        assert run + Encode(t, s[..i]) + Code(t, s[i]) == run + Encode(t, s[..i + 1]);
        i := i + 1;
      }
      assert s[..|s|] == s;
    }

    method PutData(s: Source, clist: array<HChar>, ghost t: Tree<byte>)
      requires Clean() && Sized(clist[..]) && Coded(clist[..], t, []) && Covers(t, s.data)
      modifies this
      ensures Clean() && file == Over(old(file), old(pos), DataBytes(t, s), hole)
      ensures pos == old(pos) + |DataBytes(t, s)|
    {
      hide Put, Over, Encode, Pack, Covers, Sized, Coded;
      var data := s.data;
      PutNone();
      ghost var f, start := file, pos;
      PutText(clist, data, t, f, start, []);
      assert [] + Encode(t, data) == Encode(t, data);
      Align(f, start, Encode(t, data));
    }

    /** A name and its NUL. */
    method PutName(s: Source, clist: array<HChar>, ghost t: Tree<byte>)
      requires Clean() && Sized(clist[..]) && Coded(clist[..], t, []) && Covers(t, s.name + [0])
      modifies this
      ensures Clean() && file == Over(old(file), old(pos), NameBytes(t, s), hole)
      ensures pos == old(pos) + |NameBytes(t, s)|
    {
      hide Put, Over, Encode, Pack, Covers, Sized, Coded;
      var name := s.name;
      NameParts(t, name);
      PutNone();
      ghost var f, start := file, pos;
      PutText(clist, name, t, f, start, []);
      assert [] + Encode(t, name) == Encode(t, name);
      CodeOf(clist[..], t, 0);
      PutHch(clist[0], f, start, Encode(t, name));
      Align(f, start, Encode(t, name + [0]));
    }

    /** putnames, from the position it has sought. */
    method PutNames(files: seq<Source>, clist: array<HChar>, npos: array<nat>, ghost t: Tree<byte>)
      requires Clean() && Sized(clist[..]) && Coded(clist[..], t, []) && CoversAll(t, files) && npos.Length == |files|
      modifies this, npos
      ensures Clean() && file == Over(old(file), old(pos), Names(t, files, |files|), hole)
      ensures pos == old(pos) + |Names(t, files, |files|)|
      ensures forall i :: 0 <= i < |files| ==> npos[i] == old(pos) + |Names(t, files, i)|
    {
      hide Put, Over, Covers, Sized, Coded, NameBytes, DataBytes, Encode, Pack;
      ghost var f0, p0 := file, pos;
      OverNone(file, pos, hole);
      var i := 0;
      while i < |files|
        invariant 0 <= i <= |files| && Clean() && clist[..] == old(clist[..])
        invariant file == Over(f0, p0, Names(t, files, i), hole) && pos == p0 + |Names(t, files, i)|
        invariant forall j :: 0 <= j < i ==> npos[j] == p0 + |Names(t, files, j)|
      {
        npos[i] := pos;
        PutName(files[i], clist, t);
        OverTwice(f0, p0, Names(t, files, i), NameBytes(t, files[i]), hole);
        i := i + 1;
      }
    }

    /** putfiles. */
    method PutFiles(files: seq<Source>, clist: array<HChar>, fpos: array<nat>, ghost t: Tree<byte>)
      requires Clean() && Sized(clist[..]) && Coded(clist[..], t, []) && CoversAll(t, files) && fpos.Length == |files|
      modifies this, fpos
      ensures Clean() && file == Over(old(file), old(pos), Datas(t, files, |files|), hole)
      ensures pos == old(pos) + |Datas(t, files, |files|)|
      ensures forall i :: 0 <= i < |files| ==> fpos[i] == old(pos) + |Datas(t, files, i)|
    {
      hide Put, Over, Covers, Sized, Coded, NameBytes, DataBytes, Encode, Pack;
      ghost var f0, p0 := file, pos;
      OverNone(file, pos, hole);
      var i := 0;
      while i < |files|
        invariant 0 <= i <= |files| && Clean() && clist[..] == old(clist[..])
        invariant file == Over(f0, p0, Datas(t, files, i), hole) && pos == p0 + |Datas(t, files, i)|
        invariant forall j :: 0 <= j < i ==> fpos[j] == p0 + |Datas(t, files, j)|
      {
        fpos[i] := pos;
        PutData(files[i], clist, t);
        OverTwice(f0, p0, Datas(t, files, i), DataBytes(t, files[i]), hole);
        i := i + 1;
      }
    }

    // ------------------------------------------------------------ header and directory

    method Put2(i: nat)
      modifies this`file, this`pos
      ensures file == Over(old(file), old(pos), U2(i), hole) && pos == old(pos) + 2
    {
      hide Over;
      Putchar(i % 256);
      Putchar(i / 256 % 256);
      OverTwice(old(file), old(pos), [i % 256], [i / 256 % 256], hole);
      assert [i % 256] + [i / 256 % 256] == U2(i);
    }

    method Put4(i: nat)
      modifies this`file, this`pos
      ensures file == Over(old(file), old(pos), U4(i), hole) && pos == old(pos) + 4
    {
      hide Over, U2;
      Put2(i);
      Put2(i / 0x1_0000);
      OverTwice(old(file), old(pos), U2(i), U2(i / 0x1_0000), hole);
    }

    method PutEntry(npos: nat, nchrs: nat, fpos: nat, asc: bool)
      modifies this`file, this`pos
      ensures file == Over(old(file), old(pos), EntryBytes(npos, nchrs, fpos, asc), hole) && pos == old(pos) + 13
    {
      hide Over, U4;
      Put4(npos);
      Put4(nchrs);
      OverTwice(old(file), old(pos), U4(npos), U4(nchrs), hole);
      Put4(fpos);
      OverTwice(old(file), old(pos), U4(npos) + U4(nchrs), U4(fpos), hole);
      Putchar(if asc then 1 else 0);
      OverTwice(old(file), old(pos), U4(npos) + U4(nchrs) + U4(fpos), [if asc then 1 else 0], hole);
    }

    /** The first half of puthdr. */
    method PutHead(nfiles: nat, alfsiz: nat, hpos: nat)
      modifies this`file, this`pos
      ensures file == Over(old(file), 0, U2(0x01BD) + U2(nfiles) + U2(alfsiz) + U4(hpos), hole) && pos == 10
    {
      hide Over, U2, U4;
      Seek(0);
      Put2(0x01BD);
      Put2(nfiles);
      OverTwice(old(file), 0, U2(0x01BD), U2(nfiles), hole);
      Put2(alfsiz);
      OverTwice(old(file), 0, U2(0x01BD) + U2(nfiles), U2(alfsiz), hole);
      Put4(hpos);
      OverTwice(old(file), 0, U2(0x01BD) + U2(nfiles) + U2(alfsiz), U4(hpos), hole);
    }

    /** The second half. */
    method PutDirectory(files: seq<Source>, npos: array<nat>, fpos: array<nat>, hpos: nat, ghost t: Tree<byte>)
      requires CoversAll(t, files) && npos.Length == fpos.Length == |files|
      requires forall i :: 0 <= i < |files| ==> npos[i] == Npos(t, files, i) && fpos[i] == Fpos(t, files, i)
      modifies this`file, this`pos
      ensures file == Over(old(file), hpos, Directory(t, files, |files|), hole)
    {
      hide Over, EntryBytes, Npos, Fpos, CoversAll;
      Seek(hpos);
      ghost var f0 := file;
      OverNone(file, pos, hole);
      var i := 0;
      while i < |files|
        invariant 0 <= i <= |files| && npos[..] == old(npos[..]) && fpos[..] == old(fpos[..])
        invariant file == Over(f0, hpos, Directory(t, files, i), hole) && pos == hpos + 13 * i
      {
        PutEntry(npos[i], |files[i].data|, fpos[i], files[i].asc);
        OverTwice(f0, hpos, Directory(t, files, i),
                  EntryBytes(Npos(t, files, i), |files[i].data|, Fpos(t, files, i), files[i].asc), hole);
        i := i + 1;
      }
    }
  }

  lemma EncodeNone(t: Tree<byte>)
    ensures Encode(t, []) == []
  {
  }

  lemma OverNone(f: seq<byte>, p: nat, hole: byte)
    ensures Over(f, p, [], hole) == f
  {
  }

  lemma CodeOf(bits: seq<HChar>, t: Tree<byte>, c: byte)
    requires Sized(bits) && Coded(bits, t, []) && c in Leaves(t)
    ensures |bits| == 256 && |bits[c].cbits| == 32 && Word(bits[c]) == Code(t, c)
  {
    hide Word, Code;
    assert [] + Code(t, c) == Code(t, c);
  }

  lemma NameParts(t: Tree<byte>, name: seq<byte>)
    requires Covers(t, name + [0])
    ensures Covers(t, name) && 0 in Leaves(t)
    ensures Encode(t, name) + Code(t, 0) == Encode(t, name + [0])
  {
    assert (name + [0])[|name|] == 0;
    forall c | c in name ensures c in Leaves(t) { assert c in name + [0]; }
    EncodeMore(t, name, 0);
  }

  lemma Empty()
    ensures ByteOf([]) == 0
  {
  }

  lemma BitPut(run: seq<bool>, i: bool)
    ensures var k := |run| / 8; var last := run[8 * k..];
      && |last| == |run| % 8
      && ByteOf(last + [i]) == (if i then WithBit(ByteOf(last), |last|, true) else ByteOf(last))
      && (if |last| == 7 then
            |run + [i]| / 8 == k + 1 && Pack((run + [i])[..8 * k + 8]) == Pack(run[..8 * k]) + [Byte8(last + [i])]
            && (run + [i])[8 * k + 8..] == []
          else
            |run + [i]| / 8 == k && (run + [i])[..8 * k] == run[..8 * k] && (run + [i])[8 * k..] == last + [i])
  {
    hide ByteOf, WithBit;
    var k := |run| / 8;
    var last := run[8 * k..];
    ByteOfMore(last, i);
    if |last| == 7 {
      assert (run + [i])[..8 * k + 8] == run[..8 * k] + (last + [i]);
      PackParts(run[..8 * k], last + [i]);
    }
  }

  // ---------------------------------------------------------------- the program

  lemma {:induction false} TextCovers(files: seq<Source>, i: nat, c: byte)
    requires i < |files| && (c in files[i].name + [0] || c in files[i].data)
    ensures c in Text(files)
  {
    var n := |files| - 1;
    if i < n {
      assert files[..n][i] == files[i];
      TextCovers(files[..n], i, c);
    } else {
      assert c in TextOf(files[n]);
    }
  }

  lemma AllCovered(t: Tree<byte>, files: seq<Source>)
    requires forall c: byte :: c in Leaves(t) <==> c in Text(files)
    ensures CoversAll(t, files)
  {
    hide Text;
    forall i | 0 <= i < |files| ensures Covers(t, files[i].name + [0]) && Covers(t, files[i].data) {
      forall c | c in files[i].name + [0] ensures c in Leaves(t) { TextCovers(files, i, c); }
      forall c | c in files[i].data ensures c in Leaves(t) { TextCovers(files, i, c); }
    }
  }

  lemma DirectoryNotEmpty(t: Tree<byte>, files: seq<Source>)
    requires CoversAll(t, files) && files != []
    ensures Directory(t, files, |files|) != []
  {
  }

  /** How the tree of an archive comes about: the characters of the text by falling frequency, split with the factor of
      the -f option, or 2 without one. */
  datatype Making = Making(freq: Counts, chars: seq<Chent>, used: nat, shape: Tree<nat>)

  ghost predicate MadeOf(m: Making, files: seq<Source>, flag: int, t: Tree<byte>) {
    && Counted(m.freq, Text(files)) && Ranked(m.chars, m.used, m.freq) && 0 < m.used <= 256 == |m.chars|
    && Built(m.chars, if flag == 0 then 2 else flag, 0, m.used - 1, 0, m.shape) && SameShape(m.shape, t)
  }

  /** main of enhuff.c. `flag` is the number of the -f option, 0 if there was none; the table of files
      has 500 entries, the last of them empty. */
  method Archive(files: seq<Source>, flag: int, hole: byte) returns (archive: seq<byte>, t: Tree<byte>, ghost m: Making)
    requires 0 < |files| < 500
    ensures CoversAll(t, files) && archive == ArchiveBytes(t, files)
    ensures Distinct(Leaves(t)) && |Leaves(t)| <= 256 && forall c: byte :: c in Leaves(t) <==> c in Text(files)
    ensures MadeOf(m, files, flag, t)
    ensures flag == 0 && |Text(files)| < 0x8000_0000 ==> Least(m.freq, t)
    ensures Least(m.freq, t) <==> !Costly(m.chars, if flag == 0 then 2 else flag, m.used, m.freq)
  {
    hide Over, Sized, Coded, CoversAll, Leaves, Text, Costly, Least, Ranked, Counted, Built, Distinct;
    hide Names, Datas, Directory, TreeBytes;
    var factor := if flag == 0 then 2 else flag;
    var clist, alfused, shape;
    ghost var f, cs;
    t, clist, alfused, f, cs, shape := MakeTree(files, factor);
    m := Making(f, cs, alfused, shape);
    AllCovered(t, files);
    var out := new Output(hole);
    out.Seek(10);
    out.PutTree(t);
    var hpos := out.pos;
    var npos, fpos := new nat[|files|], new nat[|files|];
    out.Seek(13 * |files| + hpos);
    out.PutNames(files, clist, npos, t);
    out.PutFiles(files, clist, fpos, t);
    DirectoryNotEmpty(t, files);
    Assembled(Head(t, files), TreeBytes(t), Directory(t, files, |files|),
              Names(t, files, |files|) + Datas(t, files, |files|), hole);
    OverTwice(Over([], 10, TreeBytes(t), hole), hpos + 13 * |files|,
              Names(t, files, |files|), Datas(t, files, |files|), hole);
    out.PutHead(|files|, alfused, hpos);
    out.PutDirectory(files, npos, fpos, hpos, t);
    archive := out.file;
  }

  // ---------------------------------------------------------------- an archive byte by byte

  /** B has a code of one bit; A, and the NUL at the end of names, have two. */
  function SmallTree(): Tree<byte> {
    Node(Leaf(66), Node(Leaf(65), Leaf(0)))
  }

  lemma SmallCodes()
    ensures Leaves(SmallTree()) == [66, 65, 0]
    ensures Code(SmallTree(), 66) == [true] && Code(SmallTree(), 65) == [false, true] && Code(SmallTree(), 0) == [false, false]
    ensures Serial(SmallTree()) == [true, false, true, false, false]
  {
    var r := Node(Leaf(65), Leaf(0));
    assert Leaves(r) == [65, 0];
    assert Code(r, 65) == [true] && Code(r, 0) == [false];
    assert Serial(r) == [true, false, false];
  }

  lemma FourBits(a: bool, b: bool, c: bool, d: bool)
    ensures ByteOf([a, b, c, d]) == (if a then 1 else 0) + (if b then 2 else 0) + (if c then 4 else 0) + (if d then 8 else 0)
    ensures ByteOf([a, b, c, d, false]) == ByteOf([a, b, c, d])
  {
    assert [a, b, c, d][1..] == [b, c, d] && [b, c, d][1..] == [c, d] && [c, d][1..] == [d] && [d][1..] == [];
    assert [a, b, c, d, false][1..] == [b, c, d, false] && [b, c, d, false][1..] == [c, d, false] && [c, d, false][1..] == [d, false];
    assert [d, false][1..] == [false] && [false][1..] == [];
    assert ByteOf([]) == 0 && ByteOf([false]) == 0;
    assert ByteOf([d, false]) == ByteOf([d]);
    assert ByteOf([c, d, false]) == ByteOf([c, d]);
  }

  lemma SmallCovers()
    ensures CoversAll(SmallTree(), [Source([65], [66, 66, 65], true)])
  {
    SmallCodes();
  }

  lemma SmallName()
    ensures Covers(SmallTree(), [65, 0]) && Encode(SmallTree(), [65, 0]) == [false, true, false, false]
  {
    SmallCodes();
    assert [65, 0][1..] == [0] && [0][1..] == [];
    hide Code;
    assert Encode(SmallTree(), []) == [];
    assert Encode(SmallTree(), [0]) == [false, false];
  }

  lemma SmallData()
    ensures Covers(SmallTree(), [66, 66, 65]) && Encode(SmallTree(), [66, 66, 65]) == [true, true, false, true]
  {
    SmallCodes();
    assert [66, 66, 65][1..] == [66, 65] && [66, 65][1..] == [65] && [65][1..] == [];
    hide Code;
    assert Encode(SmallTree(), []) == [];
    assert Encode(SmallTree(), [65]) == [false, true];
    assert Encode(SmallTree(), [66, 65]) == [true, false, true];
  }

  lemma SmallParts()
    ensures var f := Source([65], [66, 66, 65], true);
      && CoversAll(SmallTree(), [f]) && TreeBytes(SmallTree()) == [66, 65, 0, 5]
      && Names(SmallTree(), [f], 1) == [2] && Datas(SmallTree(), [f], 1) == [11]
  {
    var t, f := SmallTree(), Source([65], [66, 66, 65], true);
    SmallCodes();
    SmallCovers();
    SmallName();
    SmallData();
    FourBits(true, false, true, false);
    FourBits(false, true, false, false);
    FourBits(true, true, false, true);
    hide ByteOf, Encode, SmallTree, Serial, CoversAll;
    assert [65] + [0] == [65, 0];
    assert NameBytes(t, f) == [2];
    assert DataBytes(t, f) == [11];
    assert Names(t, [f], 0) == [] && Datas(t, [f], 0) == [];
    assert Names(t, [f], 1) == [] + [2] && Datas(t, [f], 1) == [] + [11];
  }

  /** The archive of a file A with the text BBA: header, tree, directory, name and contents. */
  lemma SmallArchive()
    ensures CoversAll(SmallTree(), [Source([65], [66, 66, 65], true)])
    ensures ArchiveBytes(SmallTree(), [Source([65], [66, 66, 65], true)])
      == [0xBD, 1, 1, 0, 3, 0, 14, 0, 0, 0] + [66, 65, 0, 5] + [27, 0, 0, 0, 3, 0, 0, 0, 28, 0, 0, 0, 1] + [2] + [11]
  {
    var t, f := SmallTree(), Source([65], [66, 66, 65], true);
    SmallCodes();
    SmallParts();
    hide SmallTree, CoversAll, TreeBytes;
    assert Names(t, [f], 0) == [] && Datas(t, [f], 0) == [];
    assert Head(t, [f]) == [0xBD, 1, 1, 0, 3, 0, 14, 0, 0, 0];
    assert Npos(t, [f], 0) == 27 && Npos(t, [f], 1) == 28 && Fpos(t, [f], 0) == 28;
    assert EntryBytes(27, 3, 28, true) == [27, 0, 0, 0, 3, 0, 0, 0, 28, 0, 0, 0, 1];
    assert Directory(t, [f], 0) == [];
    assert Directory(t, [f], 1) == [] + EntryBytes(27, 3, 28, true);
  }
}
