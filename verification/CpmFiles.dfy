/** read.c, write.c, seek.c, open.c and close.c for disk files: byte access on top of 128-byte records. A file is a map
    from record numbers to records; `Put` is what a write does to it as a whole. */
module CpmFiles {
  import opened Bytes

  type record = s: seq<byte> | |s| == 128 witness seq(128, _ => 0x1A)
  type disk = map<nat, record>

  /** What byte k of record r holds after `data` is written at `pos`: a record that was not there is filled with
      ^Z around what is written to it. */
  function ByteAfter(d: disk, pos: nat, data: seq<byte>, r: nat, k: nat): byte
    requires k < 128
  {
    if pos <= 128 * r + k < pos + |data| then data[128 * r + k - pos]
    else if r in d then d[r][k] else 0x1A
  }

  /** The records touched by a write. */
  function Touched(pos: nat, n: nat): set<nat> {
    if n == 0 then {} else set r: nat | 0 <= r <= (pos + n - 1) / 128 && Reaches(pos, r)
  }

  predicate Reaches(pos: nat, r: nat) {
    pos / 128 <= r
  }

  function Put(d: disk, pos: nat, data: seq<byte>): disk {
    map r | r in d.Keys + Touched(pos, |data|) :: seq(128, k requires 0 <= k < 128 => ByteAfter(d, pos, data, r, k))
  }

  lemma PutByte(d: disk, pos: nat, data: seq<byte>, r: nat, k: nat)
    requires r in Put(d, pos, data) && k < 128
    ensures Put(d, pos, data)[r][k] == ByteAfter(d, pos, data, r, k)
  {
  }

  lemma PutKeys(d: disk, pos: nat, data: seq<byte>)
    ensures Put(d, pos, data).Keys == d.Keys + Touched(pos, |data|)
  {
  }

  lemma PutNothing(d: disk, pos: nat)
    ensures Put(d, pos, []) == d
  {
    assert d.Keys + Touched(pos, 0) == d.Keys;
    forall r | r in d ensures Put(d, pos, [])[r] == d[r] {
      assert Put(d, pos, [])[r] == d[r];
    }
  }

  /** Where a byte within [pos, pos + n) lies. */
  lemma InTouched(pos: nat, n: nat, r: nat)
    requires n > 0
    ensures r in Touched(pos, n) <==> 128 * r + 127 >= pos && 128 * r < pos + n
  {
  }

  lemma TouchedSum(pos: nat, m: nat, n: nat)
    ensures Touched(pos, m) + Touched(pos + m, n) == Touched(pos, m + n)
  {
    var a, b, c := Touched(pos, m), Touched(pos + m, n), Touched(pos, m + n);
    forall r: nat ensures r in a + b <==> r in c {
      if m > 0 { InTouched(pos, m, r); }
      if n > 0 { InTouched(pos + m, n, r); }
      if m + n > 0 { InTouched(pos, m + n, r); }
    }
  }

  lemma ByteTwice(d: disk, pos: nat, a: seq<byte>, b: seq<byte>, r: nat, k: nat)
    requires k < 128
    ensures ByteAfter(Put(d, pos, a), pos + |a|, b, r, k) == ByteAfter(d, pos, a + b, r, k)
  {
    var e, p := Put(d, pos, a), 128 * r + k;
    if pos + |a| <= p < pos + |a| + |b| {
      assert (a + b)[p - pos] == b[p - pos - |a|];
    } else if r in e {
      PutByte(d, pos, a, r, k);
    } else {
      PutKeys(d, pos, a);
      if pos <= p < pos + |a| { InTouched(pos, |a|, r); }
    }
  }

  /** Two writes, the second where the first ended, are one. */
  lemma PutTwice(d: disk, pos: nat, a: seq<byte>, b: seq<byte>)
    ensures Put(Put(d, pos, a), pos + |a|, b) == Put(d, pos, a + b)
  {
    hide Put, Touched, ByteAfter;
    var e, f := Put(Put(d, pos, a), pos + |a|, b), Put(d, pos, a + b);
    PutKeys(d, pos, a);
    PutKeys(Put(d, pos, a), pos + |a|, b);
    PutKeys(d, pos, a + b);
    TouchedSum(pos, |a|, |b|);
    forall r | r in e ensures e[r] == f[r] { RecordTwice(d, pos, a, b, r); }
  }

  lemma RecordTwice(d: disk, pos: nat, a: seq<byte>, b: seq<byte>, r: nat)
    requires r in Put(Put(d, pos, a), pos + |a|, b) && r in Put(d, pos, a + b)
    ensures Put(Put(d, pos, a), pos + |a|, b)[r] == Put(d, pos, a + b)[r]
  {
    hide Put, ByteAfter;
    var e, f := Put(Put(d, pos, a), pos + |a|, b)[r], Put(d, pos, a + b)[r];
    forall k | 0 <= k < 128 ensures e[k] == f[k] {
      PutByte(Put(d, pos, a), pos + |a|, b, r, k);
      PutByte(d, pos, a + b, r, k);
      ByteTwice(d, pos, a, b, r, k);
    }
  }

  // ---------------------------------------------------------------- a file as a string of bytes

  function At(d: disk, p: nat): byte {
    if p / 128 in d then d[p / 128][p % 128] else 0x1A
  }

  /** Every record of the first `n` bytes is there. */
  ghost predicate Dense(d: disk, n: nat) {
    forall r: nat :: 128 * r < n ==> r in d
  }

  /** The first `n` bytes. */
  function Contents(d: disk, n: nat): (s: seq<byte>)
    ensures |s| == n
  {
    seq(n, p requires 0 <= p < n => At(d, p))
  }

  /** `s` with `data` over it from `pos` on, longer if need be. */
  function Overlaid(s: seq<byte>, pos: nat, data: seq<byte>): (r: seq<byte>)
    requires pos <= |s|
  {
    s[..pos] + data + (if pos + |data| < |s| then s[pos + |data|..] else [])
  }

  lemma AtAfter(d: disk, pos: nat, data: seq<byte>, p: nat)
    ensures At(Put(d, pos, data), p) == if pos <= p < pos + |data| then data[p - pos] else At(d, p)
  {
    var r, k := p / 128, p % 128;
    assert p == 128 * r + k;
    PutKeys(d, pos, data);
    if r in Put(d, pos, data) {
      PutByte(d, pos, data, r, k);
    } else if pos <= p < pos + |data| {
      InTouched(pos, |data|, r);
    }
  }

  /** On files without holes a write is the overlaying of a string: its own range changes, and nothing else. */
  lemma PutContents(d: disk, n: nat, pos: nat, data: seq<byte>)
    requires Dense(d, n) && pos <= n
    ensures var n' := if pos + |data| > n then pos + |data| else n;
      Dense(Put(d, pos, data), n') && Contents(Put(d, pos, data), n') == Overlaid(Contents(d, n), pos, data)
  {
    var n' := if pos + |data| > n then pos + |data| else n;
    var e, s := Put(d, pos, data), Overlaid(Contents(d, n), pos, data);
    PutKeys(d, pos, data);
    forall r: nat | 128 * r < n' ensures r in e {
      if 128 * r >= n { InTouched(pos, |data|, r); }
    }
    hide Put, Touched;
    forall p | 0 <= p < n' ensures Contents(e, n')[p] == s[p] { AtAfter(d, pos, data, p); }
  }

  // ---------------------------------------------------------------- the file control block

  class Fcb {
    var records: disk
    var rwp: nat
    var fsize: nat

    constructor (records: disk, fsize: nat)
      ensures this.records == records && this.fsize == fsize && rwp == 0
    {
      this.records, this.fsize, rwp := records, fsize, 0;
    }

    /** BDOS 33: an absent record leaves the buffer as it was. */
    method ReadRandom(r: nat, buffer: array<byte>) returns (failed: bool)
      requires buffer.Length == 128
      modifies buffer
      ensures failed <==> r !in records
      ensures buffer[..] == if r in records then records[r] else old(buffer[..])
    {
      failed := r !in records;
      if !failed {
        var i := 0;
        while i < 128
          invariant 0 <= i <= 128 && records == old(records)
          invariant buffer[..i] == records[r][..i]
        {
          buffer[i] := records[r][i];
          i := i + 1;
        }
      }
    }

    /** BDOS 34. */
    method WriteRandom(r: nat, buffer: array<byte>)
      requires buffer.Length == 128
      modifies this`records
      ensures records == old(records)[r := buffer[..]]
    {
      records := records[r := buffer[..]];
    }

    /** The ^Z fill: one byte, copied up through the buffer. */
    method FillEtx(buffer: array<byte>)
      requires buffer.Length == 128
      modifies buffer
      ensures buffer[..] == seq(128, _ => 0x1A)
    {
      buffer[0] := 0x1A;
      var i := 0;
      while i < 127
        invariant 0 <= i <= 127 && forall j :: 0 <= j <= i ==> buffer[j] == 0x1A
      {
        buffer[i + 1] := buffer[i];
        i := i + 1;
      }
    }

    /** One turn of write: the part of the data that goes to one record. */
    method WritePart(buf: array<byte>, b: nat, size: nat)
      requires 0 < size && b + size <= buf.Length && rwp % 128 + size <= 128
      modifies this
      ensures records == Put(old(records), old(rwp), buf[b..b + size]) && rwp == old(rwp) + size
      ensures fsize == if old(fsize) < rwp then rwp else old(fsize)
    {
      var offs, r := rwp % 128, rwp / 128;
      var buffer := new byte[128](_ => 0);
      ghost var before := records;
      if size != 128 {
        FillEtx(buffer);
        var failed := ReadRandom(r, buffer);
      }
      ghost var had := buffer[..];
      var i := 0;
      while i < size
        invariant 0 <= i <= size && records == before && rwp == old(rwp) && fsize == old(fsize) && fresh(buffer)
        invariant forall k :: 0 <= k < 128 ==> buffer[k] == if offs <= k < offs + i then buf[b + k - offs] else had[k]
        invariant buf[..] == old(buf[..])
      {
        buffer[offs + i] := buf[b + i];
        i := i + 1;
      }
      WriteRandom(r, buffer);
      OneRecord(before, rwp, buf[b..b + size], r, offs, had, buffer[..]);
      rwp := rwp + size;
      if fsize < rwp {
        fsize := rwp;
      }
    }

    /** write. */
    method Write(buf: array<byte>, nbytes: nat) returns (n: nat)
      requires nbytes <= buf.Length && nbytes < 0x8000
      modifies this
      ensures n == nbytes && records == Put(old(records), old(rwp), buf[..nbytes]) && rwp == old(rwp) + nbytes
      ensures fsize == if nbytes > 0 && old(fsize) < rwp then rwp else old(fsize)
    {
      hide Put;
      ghost var before, from := records, rwp;
      PutNothing(records, rwp);
      assert buf[..0] == [];
      var b, left := 0, nbytes;
      while left > 0
        invariant 0 <= left <= nbytes && b == nbytes - left && rwp == from + b && buf[..] == old(buf[..])
        invariant records == Put(before, from, buf[..b])
        invariant fsize == if b > 0 && old(fsize) < rwp then rwp else old(fsize)
      {
        var size := 128 - rwp % 128;
        if size > left {
          size := left;
        }
        WritePart(buf, b, size);
        PutTwice(before, from, buf[..b], buf[b..b + size]);
        assert buf[..b] + buf[b..b + size] == buf[..b + size];
        b, left := b + size, left - size;
      }
      n := nbytes;
    }

    /** One turn of read: what is wanted of one record. */
    method ReadPart(buf: array<byte>, b: nat, size: nat) returns (failed: bool)
      requires 0 < size && b + size <= buf.Length && rwp % 128 + size <= 128
      modifies this`rwp, buf
      ensures failed <==> old(rwp) / 128 !in records
      ensures failed ==> rwp == old(rwp) && buf[..] == old(buf[..])
      ensures !failed ==> rwp == old(rwp) + size && buf[b..b + size] == Slice(records, old(rwp), size)
      ensures buf[..b] == old(buf[..b])
    {
      var offs, r := rwp % 128, rwp / 128;
      var buffer := new byte[128](_ => 0);
      failed := ReadRandom(r, buffer);
      if failed {
        return;
      }
      var i := 0;
      while i < size
        invariant 0 <= i <= size && rwp == old(rwp) && buffer[..] == records[r] && fresh(buffer)
        invariant forall k :: 0 <= k < buf.Length ==> buf[k] == if b <= k < b + i then buffer[offs + k - b] else old(buf[k])
      {
        buf[b + i] := buffer[offs + i];
        i := i + 1;
      }
      SliceInRecord(records, rwp, size, r, offs);
      hide Slice;
      assert buf[b..b + size] == records[r][offs..offs + size];
      assert buf[..b] == old(buf[..b]);
      rwp := rwp + size;
    }

    /** read, from a position that is not beyond the end of the file: as much as there is, up to `nbytes`, or up to the
        first record that is not there. */
    method Read(buf: array<byte>, nbytes: nat) returns (n: nat)
      requires nbytes <= buf.Length && nbytes < 0x8000 && rwp <= fsize
      modifies this`rwp, buf
      ensures n <= nbytes && rwp == old(rwp) + n <= fsize
      ensures buf[..n] == Slice(records, old(rwp), n)
      ensures n == nbytes || rwp == fsize || rwp / 128 !in records
    {
      var want := nbytes;
      if nbytes + rwp > fsize {
        want := fsize - rwp;
      }
      ghost var from := rwp;
      n := 0;
      while n < want
        invariant 0 <= n <= want && rwp == from + n && buf[..n] == Slice(records, from, n)
      {
        var size := 128 - rwp % 128;
        if size > want - n {
          size := want - n;
        }
        ghost var had := buf[..n];
        var failed := ReadPart(buf, n, size);
        if failed {
          assert buf[..n] == had;
          return;
        }
        assert buf[..n + size] == buf[..n] + buf[n..n + size];
        SliceMore(records, from, n, size);
        n := n + size;
      }
    }

    /** lseek. */
    method Lseek(offs: int, whence: nat) returns (r: int)
      modifies this`rwp
      ensures var pos := offs + (if whence == 1 then old(rwp) else if whence == 2 then
          (if old(rwp) > fsize then old(rwp) else fsize) else 0);
        if pos >= 0 then r == pos && rwp == pos else r == -1 && rwp == old(rwp)
    {
      var pos := offs;
      if whence == 1 {
        pos := rwp + offs;
      } else if whence == 2 {
        pos := (if rwp > fsize then rwp else fsize) + offs;
      }
      if pos >= 0 {
        rwp := pos;
        return rwp;
      }
      return -1;
    }
  }

  function Slice(d: disk, p: nat, n: nat): (s: seq<byte>)
    ensures |s| == n
  {
    Contents(d, p + n)[p..]
  }

  lemma SliceMore(d: disk, p: nat, m: nat, n: nat)
    ensures Slice(d, p, m) + Slice(d, p + m, n) == Slice(d, p, m + n)
  {
    hide At;
    assert Contents(d, p + m) == Contents(d, p + m + n)[..p + m];
  }

  lemma SliceInRecord(d: disk, p: nat, n: nat, r: nat, offs: nat)
    requires r in d && p == 128 * r + offs && offs + n <= 128
    ensures Slice(d, p, n) == d[r][offs..offs + n]
  {
    forall i | 0 <= i < n ensures Slice(d, p, n)[i] == d[r][offs + i] {
      var q := p + i;
      assert q / 128 == r && q % 128 == offs + i;
      assert Slice(d, p, n)[i] == Contents(d, p + n)[q];
    }
  }

  /** A write within one record. */
  lemma OneRecord(d: disk, pos: nat, data: seq<byte>, r: nat, offs: nat, had: seq<byte>, now: record)
    requires 0 < |data| && pos == 128 * r + offs && offs + |data| <= 128 && |had| == 128
    requires |data| != 128 ==> had == if r in d then d[r] else seq(128, _ => 0x1A)
    requires forall k :: 0 <= k < 128 ==> now[k] == if offs <= k < offs + |data| then data[k - offs] else had[k]
    ensures d[r := now] == Put(d, pos, data)
  {
    var e := Put(d, pos, data);
    PutKeys(d, pos, data);
    forall q: nat ensures q in Touched(pos, |data|) <==> q == r { InTouched(pos, |data|, q); }
    assert d[r := now].Keys == e.Keys;
    hide Put, Touched;
    forall q | q in e ensures e[q] == d[r := now][q] {
      forall k | 0 <= k < 128 ensures e[q][k] == d[r := now][q][k] {
        PutByte(d, pos, data, q, k);
      }
    }
  }

  lemma SliceContents(d: disk, p: nat, n: nat, m: nat)
    requires p + n <= m
    ensures Slice(d, p, n) == Contents(d, m)[p..p + n]
  {
    hide At;
  }

  // ---------------------------------------------------------------- whole runs of writes

  datatype Writing = Writing(pos: nat, data: seq<byte>)

  /** The file after some writes to a new one. */
  function After(ws: seq<Writing>): disk {
    if ws == [] then map[] else Put(After(ws[..|ws| - 1]), ws[|ws| - 1].pos, ws[|ws| - 1].data)
  }

  /** The byte last written at `p`, ^Z if none was. */
  function LastWritten(ws: seq<Writing>, p: nat): byte {
    if ws == [] then 0x1A
    else
      var w := ws[|ws| - 1];
      if w.pos <= p < w.pos + |w.data| then w.data[p - w.pos] else LastWritten(ws[..|ws| - 1], p)
  }

  /** Every byte of every record there is was written by a caller, or is ^Z. */
  lemma {:induction false} Provenance(ws: seq<Writing>, r: nat, k: nat)
    requires r in After(ws) && k < 128
    ensures After(ws)[r][k] == LastWritten(ws, 128 * r + k)
  {
    if ws != [] {
      var n, p := |ws| - 1, 128 * r + k;
      assert p / 128 == r && p % 128 == k;
      AtAfter(After(ws[..n]), ws[n].pos, ws[n].data, p);
      if r in After(ws[..n]) {
        Provenance(ws[..n], r, k);
      } else {
        NeverWritten(ws[..n], p);
      }
    }
  }

  lemma {:induction false} NeverWritten(ws: seq<Writing>, p: nat)
    requires p / 128 !in After(ws)
    ensures LastWritten(ws, p) == 0x1A
  {
    if ws != [] {
      var n := |ws| - 1;
      var w := ws[n];
      PutKeys(After(ws[..n]), w.pos, w.data);
      if w.pos <= p < w.pos + |w.data| {
        InTouched(w.pos, |w.data|, p / 128);
        assert false;
      }
      NeverWritten(ws[..n], p);
    }
  }
}
