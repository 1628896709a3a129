/** Bits packed into bytes, lowest first, and bytes written over a file: the output side of the archiver as
    functions on byte strings. */
module HuffPack {
  import opened Bytes

  // ---------------------------------------------------------------- packing

  /** Up to eight bits as a byte. */
  function ByteOf(bits: seq<bool>): nat {
    if bits == [] then 0 else (if bits[0] then 1 else 0) + 2 * ByteOf(bits[1..])
  }

  lemma {:induction false} ByteOfBound(bits: seq<bool>)
    ensures ByteOf(bits) < Pow2(|bits|)
  {
    if bits != [] { ByteOfBound(bits[1..]); }
  }

  lemma {:induction false} ByteOfBit(bits: seq<bool>, j: nat)
    ensures BitOf(ByteOf(bits), j) == (j < |bits| && bits[j])
  {
    if bits == [] {
      ZeroBits(j);
    } else {
      assert ByteOf(bits) / 2 == ByteOf(bits[1..]);
      if j > 0 { ByteOfBit(bits[1..], j - 1); }
    }
  }

  /** Setting the next bit appends it. */
  lemma {:induction false} ByteOfMore(bits: seq<bool>, b: bool)
    ensures ByteOf(bits + [b]) == if b then WithBit(ByteOf(bits), |bits|, true) else ByteOf(bits)
  {
    if bits == [] {
      assert [b][1..] == [];
      assert bits + [b] == [b];
    } else {
      ByteOfMore(bits[1..], b);
      assert (bits + [b])[1..] == bits[1..] + [b];
      assert ByteOf(bits) / 2 == ByteOf(bits[1..]);
    }
  }

  function Byte8(bits: seq<bool>): byte
    requires |bits| <= 8
  {
    ByteOfBound(bits);
    ByteWide();
    PowGrows(|bits|, 8);
    ByteOf(bits)
  }

  /** The bytes of a bit string, the last filled up with zeros. */
  function Pack(run: seq<bool>): (s: seq<byte>)
    ensures |s| == (|run| + 7) / 8
  {
    if |run| <= 8 then (if run == [] then [] else [Byte8(run)]) else [Byte8(run[..8])] + Pack(run[8..])
  }

  /** The bits are where a reader looks for them. */
  lemma {:induction false} PackBit(run: seq<bool>, i: nat)
    requires i < |run|
    ensures BitOf(Pack(run)[i / 8], i % 8) == run[i]
    decreases |run|
  {
    hide BitOf, ByteOf, Byte8;
    if |run| <= 8 {
      Byte8Bit(run, i);
    } else if i < 8 {
      Byte8Bit(run[..8], i);
    } else {
      PackBit(run[8..], i - 8);
      assert i / 8 == (i - 8) / 8 + 1 && i % 8 == (i - 8) % 8;
    }
  }

  lemma Byte8Bit(bits: seq<bool>, j: nat)
    requires |bits| <= 8 && j < |bits|
    ensures BitOf(Byte8(bits), j) == bits[j]
  {
    ByteOfBit(bits, j);
  }

  /** What comes after the packed bits does not matter to who reads them. */
  lemma PackRead(run: seq<bool>, post: seq<byte>) returns (rest: seq<bool>)
    ensures BitsOf(Pack(run) + post) == run + rest
  {
    var all := BitsOf(Pack(run) + post);
    rest := all[|run|..];
    forall i | 0 <= i < |run| ensures all[i] == run[i] {
      PackBit(run, i);
      assert (Pack(run) + post)[i / 8] == Pack(run)[i / 8];
    }
    assert all[..|run|] == run;
  }

  /** Whole bytes followed by fewer than eight bits. */
  lemma {:induction false} PackParts(a: seq<bool>, b: seq<bool>)
    requires |a| % 8 == 0 && |b| <= 8
    ensures Pack(a + b) == Pack(a) + (if b == [] then [] else [Byte8(b)])
    decreases |a|
  {
    if b == [] {
      assert a + b == a;
    } else if a == [] {
      assert a + b == b;
    } else if |a| == 8 {
      assert (a + b)[..8] == a && (a + b)[8..] == b;
    } else {
      assert (a + b)[..8] == a[..8] && (a + b)[8..] == a[8..] + b;
      PackParts(a[8..], b);
    }
  }

  // ---------------------------------------------------------------- overwriting

  /** `s` written at `p`; a gap before it gets filled with `hole`. */
  function Over(file: seq<byte>, p: nat, s: seq<byte>, hole: byte): seq<byte> {
    if s == [] then file else Padded(file, p, hole)[..p] + s + (if p + |s| < |file| then file[p + |s|..] else [])
  }

  function Padded(file: seq<byte>, p: nat, hole: byte): (r: seq<byte>)
    ensures p <= |r|
  {
    if p <= |file| then file else file + seq(p - |file|, _ => hole)
  }

  function Beyond(file: seq<byte>, n: nat): seq<byte> {
    if n < |file| then file[n..] else []
  }

  lemma OverIs(file: seq<byte>, p: nat, s: seq<byte>, hole: byte)
    requires s != []
    ensures Over(file, p, s, hole) == Padded(file, p, hole)[..p] + s + Beyond(file, p + |s|)
  {
  }

  lemma OverTwice(file: seq<byte>, p: nat, s: seq<byte>, t: seq<byte>, hole: byte)
    ensures Over(Over(file, p, s, hole), p + |s|, t, hole) == Over(file, p, s + t, hole)
  {
    if s == [] {
      assert s + t == t;
    } else if t == [] {
      assert s + t == s;
    } else {
      hide Over, Beyond;
      OverIs(file, p, s, hole);
      OverIs(file, p, s + t, hole);
      InTheMiddle(Padded(file, p, hole)[..p], s, Beyond(file, p + |s|), t, hole);
      BeyondTwice(file, p + |s|, |t|);
    }
  }

  lemma BeyondTwice(s: seq<byte>, m: nat, n: nat)
    ensures Beyond(Beyond(s, m), n) == Beyond(s, m + n)
  {
  }

  lemma InTheMiddle(before: seq<byte>, s: seq<byte>, after: seq<byte>, t: seq<byte>, hole: byte)
    requires t != []
    ensures Over(before + s + after, |before| + |s|, t, hole) == before + (s + t) + Beyond(after, |t|)
  {
    var f := before + s + after;
    OverIs(f, |before| + |s|, t, hole);
    hide Over;
    assert f[..|before| + |s|] == before + s;
    assert Beyond(f, |before| + |s| + |t|) == Beyond(after, |t|);
  }

  /** After a first stretch, one beyond a gap. */
  lemma Gapped(head: nat, body: seq<byte>, gap: nat, tail: seq<byte>, hole: byte)
    requires body != []
    ensures var f1 := Over([], head, body, hole);
      var f2 := Over(f1, head + |body| + gap, tail, hole);
      && |f1| == head + |body| <= |f2|
      && f2[head..head + |body|] == body
      && (tail != [] ==> |f2| == head + |body| + gap + |tail| && f2[head + |body| + gap..] == tail)
      && (tail == [] ==> f2 == f1)
  {
    hide Over;
    FirstStretch(head, body, hole);
    var f1 := Over([], head, body, hole);
    if tail != [] { BeyondGap(f1, gap, tail, hole); } else { NothingOver(f1, head + |body| + gap, hole); }
    assert f1[head..] == body;
  }

  lemma FirstStretch(head: nat, body: seq<byte>, hole: byte)
    requires body != []
    ensures Over([], head, body, hole) == seq(head, _ => hole) + body
  {
  }

  lemma BeyondGap(f: seq<byte>, gap: nat, tail: seq<byte>, hole: byte)
    requires tail != []
    ensures Over(f, |f| + gap, tail, hole) == f + seq(gap, _ => hole) + tail
  {
  }

  lemma NothingOver(f: seq<byte>, p: nat, hole: byte)
    ensures Over(f, p, [], hole) == f
  {
  }

  /** A stretch over the beginning. */
  lemma Headed(file: seq<byte>, head: seq<byte>, hole: byte)
    requires head != [] && |head| <= |file|
    ensures Over(file, 0, head, hole) == head + file[|head|..]
  {
  }

  /** A stretch over the middle, or at the end. */
  lemma Filled(head: seq<byte>, body: seq<byte>, dir: seq<byte>, tail: seq<byte>, file: seq<byte>, hole: byte)
    requires dir != [] && |head + body| <= |file| && file[..|head + body|] == head + body
    requires if tail == [] then file == head + body
             else |file| == |head + body| + |dir| + |tail| && file[|head + body| + |dir|..] == tail
    ensures Over(file, |head + body|, dir, hole) == head + body + dir + tail
  {
  }

  /** Four stretches written out of order come together without gap or overlap. */
  lemma Assembled(head: seq<byte>, body: seq<byte>, dir: seq<byte>, tail: seq<byte>, hole: byte)
    requires head != [] && body != [] && dir != []
    ensures var h, b := |head|, |body|;
      var f1 := Over([], h, body, hole);
      var f2 := Over(f1, h + b + |dir|, tail, hole);
      var f3 := Over(f2, 0, head, hole);
      |f1| == h + b && Over(f3, h + b, dir, hole) == head + body + dir + tail
  {
    hide Over;
    var h, b := |head|, |body|;
    Gapped(h, body, |dir|, tail, hole);
    var f2 := Over(Over([], h, body, hole), h + b + |dir|, tail, hole);
    Headed(f2, head, hole);
    var f3 := Over(f2, 0, head, hole);
    assert f3 == head + f2[h..];
    assert f3[..h + b] == head + f2[h..h + b];
    assert tail != [] ==> f3[h + b + |dir|..] == f2[h + b + |dir|..];
    Filled(head, body, dir, tail, f3, hole);
  }
}
