/** The extractor: decode.c and dehuff.c. What it finds in a file is given by the functions `Open`, `NameAt` and
    `ContentAt`; the class finds it by reading byte after byte; and in an archive it finds what was put in. */
module Dehuff {
  import opened Bytes
  import opened HuffTree

  // ---------------------------------------------------------------- what is in a file

  function BitsFrom(file: seq<byte>, p: nat): seq<bool> {
    if p <= |file| then BitsOf(file[p..]) else []
  }

  /** The fields of the header the program goes on to use, and the tree. */
  datatype Header = Header(nfiles: nat, tree: Tree<byte>, hpos: nat)

  /** The number of characters of the tree: a short, so that a large one counts as none. */
  function Alfused(file: seq<byte>): nat
    requires |file| >= 10
  {
    if U2At(file, 4) < 0x8000 then U2At(file, 4) else 0
  }

  /** The table of characters: static, so that what is not read is 0. */
  function Chars(file: seq<byte>, n: nat): (cl: seq<byte>)
    requires 10 + n <= |file| && n <= 256
    ensures |cl| == 256
  {
    file[10..10 + n] + seq(256 - n, _ => 0)
  }

  /** None is the error exit, or a table overrun, which C leaves undefined. */
  function Open(file: seq<byte>): Option<Header> {
    if |file| < 10 || U2At(file, 0) != 0x01BD || 10 + Alfused(file) > |file| || Alfused(file) > 256 then None else
      match Parse(BitsFrom(file, 10 + Alfused(file)), Chars(file, Alfused(file)), 0)
      case None => None
      case Some(p) => Some(Header(U2At(file, 2), p.tree, U4At(file, 6)))
  }

  /** A directory entry, up to its last byte. */
  datatype Entry = Entry(npos: nat, nchrs: nat, fpos: nat)

  function EntryAt(file: seq<byte>, h: Header, i: nat): Option<Entry> {
    var e := h.hpos + 13 * i;
    if e + 12 <= |file| then Some(Entry(U4At(file, e), U4At(file, e + 4), U4At(file, e + 8))) else None
  }

  function AscAt(file: seq<byte>, h: Header, i: nat): bool {
    var e := h.hpos + 13 * i + 12;
    if e < |file| then file[e] != 0 else true
  }

  /** The name of member i; the buffer for it has 100 places. */
  function NameAt(file: seq<byte>, h: Header, i: nat): Option<seq<byte>> {
    match EntryAt(file, h, i)
    case None => None
    case Some(e) => DecodeName(h.tree, BitsFrom(file, e.npos), 100)
  }

  function ContentAt(file: seq<byte>, h: Header, i: nat): Option<seq<byte>> {
    match EntryAt(file, h, i)
    case None => None
    case Some(e) => DecodeN(h.tree, BitsFrom(file, e.fpos), e.nchrs)
  }

  // ---------------------------------------------------------------- reading

  /** A result with what was there before in front of it. */
  function After(pre: seq<byte>, o: Option<seq<byte>>): Option<seq<byte>> {
    match o
    case None => None
    case Some(s) => Some(pre + s)
  }

  class Input {
    const file: seq<byte>
    const cl: array<byte>
    var pos: nat
    var gchar: byte
    var gbit: nat
    var clidx: nat
    var root: Tree<byte>

    constructor (file: seq<byte>)
      ensures this.file == file && pos == 0 && clidx == 0 && Valid() && fresh(cl) && cl[..] == seq(256, _ => 0)
    {
      this.file, pos, gchar, gbit, clidx, root := file, 0, 0, 8, 0, Leaf(0);
      cl := new byte[256](_ => 0);
      new;
      assert cl[..] == seq(256, _ => 0);
    }

    /** `gbit` bits of `gchar`, the byte last read, are used up. */
    ghost predicate Valid()
      reads this
    {
      && cl.Length == 256
      && gbit <= 8 && (gbit < 8 ==> 0 < pos <= |file| && gchar == file[pos - 1])
    }

    /** The bits still to come. */
    ghost function Rest(): seq<bool>
      requires Valid()
      reads this
    {
      if gbit == 8 then BitsFrom(file, pos) else BitsOf(file[pos - 1..])[gbit..]
    }

    /** getchar; -1 at the end of the file. */
    method Getchar() returns (c: int)
      modifies this`pos
      ensures if old(pos) < |file| then c == file[old(pos)] && pos == old(pos) + 1 else c == -1 && pos == old(pos)
    {
      if pos < |file| {
        c := file[pos];
        pos := pos + 1;
      } else {
        c := -1;
      }
    }

    method Seek(p: nat)
      modifies this`pos
      ensures pos == p
    {
      pos := p;
    }

    /** align. */
    method Align()
      requires cl.Length == 256
      modifies this`gbit
      ensures gbit == 8 && Valid() && Rest() == BitsFrom(file, pos)
    {
      gbit := 8;
    }

    method GetBit() returns (ok: bool, b: bool)
      requires Valid()
      modifies this`pos, this`gchar, this`gbit
      ensures Valid() && (ok <==> old(Rest()) != [])
      ensures ok ==> b == old(Rest())[0] && Rest() == old(Rest())[1..]
    {
      hide BitOf;
      ok, b := true, false;
      if gbit == 8 {
        var c := Getchar();
        if c == -1 {
          return false, false;
        }
        gchar := c;
        gbit := 0;
        FirstByte(file, pos - 1);
      }
      NextBit(file[pos - 1..], gbit);
      LaterBits(file, pos, gbit);
      b := BitOf(gchar, gbit);
      gbit := gbit + 1;
    }

    /** get_tree. Taking more than the 256 characters of the table is undefined in C. */
    method GetTree() returns (ok: bool, t: Tree<byte>)
      requires Valid()
      modifies this`pos, this`gchar, this`gbit, this`clidx
      ensures Valid()
      ensures match Parse(old(Rest()), cl[..], old(clidx))
        case None => !ok
        case Some(p) => ok && t == p.tree && Rest() == p.rest && clidx == p.next
      decreases |Rest()|
    {
      t := Leaf(0);
      var b;
      ok, b := GetBit();
      if !ok {
        return;
      }
      if b {
        var l, r;
        ok, l := GetTree();
        if !ok {
          return;
        }
        ok, r := GetTree();
        if !ok {
          return;
        }
        t := Node(l, r);
      } else {
        if clidx >= 256 {
          return false, t;
        }
        t := Leaf(cl[clidx]);
        clidx := clidx + 1;
      }
    }

    /** gethch: down the tree by one bit a step. */
    method GetHch() returns (ok: bool, c: byte)
      requires Valid()
      modifies this`pos, this`gchar, this`gbit
      ensures Valid()
      ensures match Decode1(root, old(Rest()))
        case None => !ok
        case Some(p) => ok && c == p.0 && Rest() == p.1
    {
      var tp := root;
      ghost var bits := Rest();
      while tp.Node?
        invariant Valid() && Decode1(root, bits) == Decode1(tp, Rest())
        decreases tp
      {
        var b;
        ok, b := GetBit();
        if !ok {
          return false, 0;
        }
        tp := if b then tp.left else tp.right;
      }
      ok, c := true, tp.c;
    }

    method Get2() returns (ok: bool, v: nat)
      modifies this`pos
      ensures ok <==> old(pos) + 2 <= |file|
      ensures ok ==> v == U2At(file, old(pos)) && pos == old(pos) + 2
    {
      var a := Getchar();
      var b := Getchar();
      ok, v := b != -1, 0;
      if ok {
        v := a + 256 * b;
      }
    }

    method Get4() returns (ok: bool, v: nat)
      modifies this`pos
      ensures ok <==> old(pos) + 4 <= |file|
      ensures ok ==> v == U4At(file, old(pos)) && pos == old(pos) + 4
    {
      var a := Getchar();
      var b := Getchar();
      var c := Getchar();
      var d := Getchar();
      ok, v := d != -1, 0;
      if ok {
        v := a + 0x100 * b + 0x1_0000 * c + 0x100_0000 * d;
      }
    }

    // ------------------------------------------------------------ dehuff.c

    /** bld_tree. */
    method BldTree(alfused: nat) returns (ok: bool)
      requires cl.Length == 256 && pos == 10 <= |file| && alfused <= 256 && clidx == 0 && cl[..] == seq(256, _ => 0)
      modifies this`pos, this`gchar, this`gbit, this`clidx, this`root, cl
      ensures ok <==> 10 + alfused <= |file| && Parse(BitsFrom(file, 10 + alfused), Chars(file, alfused), 0).Some?
      ensures ok ==> Valid() && root == Parse(BitsFrom(file, 10 + alfused), Chars(file, alfused), 0).value.tree
    {
      hide Parse, BitsOf;
      ghost var eof := false;
      var i := 0;
      while i < alfused
        invariant 0 <= i <= alfused && clidx == 0 && (if eof then pos == |file| < 10 + alfused else pos == 10 + i <= |file|)
        invariant forall j :: i <= j < 256 ==> cl[j] == 0
        invariant !eof ==> forall j :: 0 <= j < i ==> cl[j] == file[10 + j]
      {
        var c := Getchar();
        eof := c == -1;
        cl[i] := if c == -1 then 255 else c;
        i := i + 1;
      }
      Align();
      assert !eof ==> cl[..] == Chars(file, alfused);
      assert eof ==> Rest() == [] && Parse(Rest(), cl[..], 0) == None by { NoBits(cl[..]); }
      var t;
      ok, t := GetTree();
      root := t;
    }

    /** The start of main. */
    method OpenFile() returns (ok: bool, nfiles: nat, hpos: nat)
      requires Valid() && pos == 0 && clidx == 0 && cl[..] == seq(256, _ => 0)
      modifies this`pos, this`gchar, this`gbit, this`clidx, this`root, cl
      ensures ok <==> Open(file).Some?
      ensures ok ==> Valid() && Open(file) == Some(Header(nfiles, root, hpos))
    {
      hide Parse, Chars, BitsFrom;
      var magic, n;
      nfiles, hpos := 0, 0;
      ok, magic := Get2();
      if !ok || magic != 0x01BD {
        return false, nfiles, hpos;
      }
      ok, nfiles := Get2();
      if !ok {
        return;
      }
      ok, n := Get2();
      if !ok {
        return;
      }
      if n >= 0x8000 {
        n := 0;
      }
      ok, hpos := Get4();
      if !ok || n > 256 {
        return false, nfiles, hpos;
      }
      ok := BldTree(n);
    }

    /** The entry of member i. */
    method GetEntry(i: nat, ghost h: Header, hpos: nat) returns (ok: bool, npos: nat, nchrs: nat, fpos: nat, asc: bool)
      requires h.hpos == hpos
      modifies this`pos
      ensures ok <==> EntryAt(file, h, i).Some?
      ensures ok ==> EntryAt(file, h, i) == Some(Entry(npos, nchrs, fpos)) && asc == AscAt(file, h, i)
    {
      npos, nchrs, fpos, asc := 0, 0, 0, false;
      Seek(hpos + i * 13);
      ok, npos := Get4();
      if ok {
        ok, nchrs := Get4();
      }
      if ok {
        ok, fpos := Get4();
      }
      if ok {
        var c := Getchar();
        asc := c != 0;
      }
    }

    /** The loop that fills the name buffer. */
    method ReadName() returns (ok: bool, name: seq<byte>)
      requires Valid()
      modifies this`pos, this`gchar, this`gbit
      ensures Valid()
      ensures match DecodeName(root, old(Rest()), 100)
        case None => !ok
        case Some(s) => ok && name == s
    {
      hide BitsFrom, BitsOf, DecodeName, Decode1;
      var fbuf := new byte[100](_ => 0);
      ghost var bits := Rest();
      var k := 0;
      name := [];
      assert fbuf[..0] == [];
      AfterNone(DecodeName(root, bits, 100));
      while true
        invariant 0 <= k <= 100 && Valid() && fresh(fbuf)
        invariant DecodeName(root, bits, 100) == After(fbuf[..k], DecodeName(root, Rest(), 100 - k))
        decreases 100 - k
      {
        NameStep(root, Rest(), 100 - k);
        if k == 100 {
          return false, name;
        }
        ghost var was := fbuf[..k];
        var c;
        ok, c := GetHch();
        if !ok {
          return;
        }
        if c == 0 {
          name := fbuf[..k];
          assert name + [] == name;
          return;
        }
        AfterMore(was, c, DecodeName(root, Rest(), 100 - k - 1));
        fbuf[k] := c;
        k := k + 1;
        assert fbuf[..k] == was + [c];
      }
    }

    /** The loop that writes a member out. */
    method ReadData(nchrs: nat) returns (ok: bool, data: seq<byte>)
      requires Valid()
      modifies this`pos, this`gchar, this`gbit
      ensures Valid()
      ensures match DecodeN(root, old(Rest()), nchrs)
        case None => !ok
        case Some(s) => ok && data == s
    {
      ghost var bits := Rest();
      var left := nchrs;
      ok, data := true, [];
      AfterNone(DecodeN(root, bits, nchrs));
      while left > 0
        invariant 0 <= left <= nchrs && Valid() && ok
        invariant DecodeN(root, bits, nchrs) == After(data, DecodeN(root, Rest(), left))
      {
        left := left - 1;
        var c;
        ok, c := GetHch();
        if !ok {
          return;
        }
        AfterMore(data, c, DecodeN(root, Rest(), left));
        data := data + [c];
      }
      assert data + [] == data;
    }

    /** extract: the name and the contents of member i. */
    method Extract(i: nat, hpos: nat, ghost h: Header) returns (ok: bool, name: seq<byte>, data: seq<byte>, asc: bool)
      requires Valid() && h.hpos == hpos && h.tree == root
      modifies this`pos, this`gchar, this`gbit
      ensures Valid()
      ensures ok <==> NameAt(file, h, i).Some? && ContentAt(file, h, i).Some?
      ensures ok ==> NameAt(file, h, i) == Some(name) && ContentAt(file, h, i) == Some(data) && asc == AscAt(file, h, i)
    {
      hide DecodeName, DecodeN, BitsFrom;
      name, data := [], [];
      var npos, nchrs, fpos;
      ok, npos, nchrs, fpos, asc := GetEntry(i, h, hpos);
      Align();
      if !ok {
        return;
      }
      Seek(npos);
      Align();
      ok, name := ReadName();
      if !ok {
        return;
      }
      Seek(fpos);
      Align();
      ok, data := ReadData(nchrs);
    }
  }

  /** One character of a name. */
  lemma NameStep(t: Tree<byte>, bits: seq<bool>, room: nat)
    ensures room == 0 ==> DecodeName(t, bits, room) == None
    ensures room > 0 ==> DecodeName(t, bits, room) == match Decode1(t, bits)
      case None => None
      case Some(p) => if p.0 == 0 then Some([]) else After([p.0], DecodeName(t, p.1, room - 1))
  {
  }

  lemma NoBits(cl: seq<byte>)
    ensures Parse([], cl, 0) == None && BitsOf([]) == []
  {
  }

  lemma AfterMore(pre: seq<byte>, c: byte, o: Option<seq<byte>>)
    ensures After(pre, After([c], o)) == After(pre + [c], o)
  {
    if o.Some? { assert pre + ([c] + o.value) == pre + [c] + o.value; }
  }

  lemma AfterNone(o: Option<seq<byte>>)
    ensures After([], o) == o
  {
    if o.Some? { assert [] + o.value == o.value; }
  }

  /** With a byte freshly read, all its bits are still to come. */
  lemma FirstByte(file: seq<byte>, p: nat)
    requires p < |file|
    ensures BitsFrom(file, p) == BitsOf(file[p..])[0..] && BitsFrom(file, p) != []
  {
  }

  lemma NextBit(s: seq<byte>, k: nat)
    requires s != [] && k < 8
    ensures BitsOf(s)[k..][0] == BitOf(s[0], k) && BitsOf(s)[k..] != []
    ensures BitsOf(s)[k..][1..] == BitsOf(s)[k + 1..]
  {
    hide BitOf;
  }

  /** After the eighth bit of a byte come the bits of the next. */
  lemma LaterBits(file: seq<byte>, p: nat, k: nat)
    requires 0 < p <= |file| && k < 8
    ensures k == 7 ==> BitsOf(file[p - 1..])[8..] == BitsFrom(file, p)
  {
    hide BitOf;
    var s := file[p - 1..];
    assert s[1..] == file[p..];
    forall i | 0 <= i < 8 * |s[1..]| ensures BitsOf(s)[8..][i] == BitsOf(s[1..])[i] {
      assert (i + 8) / 8 == i / 8 + 1 && (i + 8) % 8 == i % 8;
    }
  }
}
