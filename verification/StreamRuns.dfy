/** Whole runs of operations on binary streams: what a caller gets is what an unbuffered file with a cursor gives, whatever
    the order of reads, writes, flushes and seeks. */
module StreamRuns {
  import opened Bytes
  import opened CpmFiles
  import opened Stdio

  /** Where a seek from position `p` goes in a file of `n` bytes. */
  function Goal(n: nat, p: nat, offs: int, whence: nat): int {
    offs + (if whence == 1 then p else if whence == 2 then n else 0)
  }

  // ---------------------------------------------------------------- reading

  datatype Reading = Get | Tell | Seek(offs: int, whence: nat)

  /** One operation on the contents `s` at position `p`: the result, and the position after it. */
  function ReadStep(s: seq<byte>, p: nat, op: Reading): (int, nat) {
    match op
    case Get => if p < |s| then (s[p] as int, p + 1) else (-1, p)
    case Tell => (p, p)
    case Seek(offs, whence) => var t := Goal(|s|, p, offs, whence); (0, if t >= 0 then t else 0)
  }

  function ReadFrom(s: seq<byte>, p: nat, ops: seq<Reading>): seq<int>
    decreases |ops|
  {
    if ops == [] then [] else [ReadStep(s, p, ops[0]).0] + ReadFrom(s, ReadStep(s, p, ops[0]).1, ops[1..])
  }

  /** Seeks are to places in the file. */
  predicate Inside(s: seq<byte>, p: nat, op: Reading) {
    op.Seek? ==> op.whence <= 2 && 0 <= Goal(|s|, p, op.offs, op.whence) <= |s|
  }

  predicate AllInside(s: seq<byte>, p: nat, ops: seq<Reading>)
    decreases |ops|
  {
    ops == [] || (Inside(s, p, ops[0]) && AllInside(s, ReadStep(s, p, ops[0]).1, ops[1..]))
  }

  /** A stream open for reading binary data `s`, with the caller at `p`. */
  ghost predicate Reads(f: Stream, s: seq<byte>, p: int)
    reads f, f.fcb, f.base
  {
    f.ForReading() && f.iobinary && Contents(f.fcb.records, f.fcb.fsize) == s && f.Place() == p && 0 <= p <= |s|
    && (f.ioeof ==> p == |s|)
  }

  method ReadOne(f: Stream, op: Reading, ghost s: seq<byte>, ghost p: nat) returns (c: int)
    requires Reads(f, s, p) && Inside(s, p, op)
    modifies f, f.fcb, f.base
    ensures c == ReadStep(s, p, op).0 && Reads(f, s, ReadStep(s, p, op).1)
  {
    hide Put, At, Contents, Slice, Next;
    NextBinary(s, p);
    match op {
      case Get => c := f.Fgetc(); f.Within();
      case Tell => c := f.Ftell();
      case Seek(offs, whence) => c := f.Fseek(offs, whence);
    }
  }

  /** Any run of fgetc, ftell and fseek gives what the contents and a cursor give. */
  method ReadRun(f: Stream, ops: seq<Reading>, ghost s: seq<byte>, ghost p: nat) returns (out: seq<int>)
    requires Reads(f, s, p) && AllInside(s, p, ops)
    modifies f, f.fcb, f.base
    ensures out == ReadFrom(s, p, ops) && f.ForReading()
  {
    hide ReadStep, Inside, Reads;
    out := [];
    var i := 0;
    ghost var here := p;
    assert ops[0..] == ops;
    while i < |ops|
      invariant 0 <= i <= |ops| && Reads(f, s, here) && AllInside(s, here, ops[i..])
      invariant out + ReadFrom(s, here, ops[i..]) == ReadFrom(s, p, ops)
    {
      ghost var left := ops[i..];
      var c := ReadOne(f, ops[i], s, here);
      here := ReadStep(s, here, ops[i]).1;
      i := i + 1;
      assert left[1..] == ops[i..];
      Moved(out, c, ReadFrom(s, here, ops[i..]));
      out := out + [c];
    }
    Still(f, s, here);
  }

  lemma Moved(out: seq<int>, c: int, more: seq<int>)
    ensures out + ([c] + more) == out + [c] + more
  {
  }

  lemma Still(f: Stream, s: seq<byte>, p: int)
    requires Reads(f, s, p)
    ensures f.ForReading()
  {
  }

  // ---------------------------------------------------------------- writing

  datatype Editing = Store(c: byte) | Flush | Where | Move(offs: int, whence: nat)

  /** A file as one sees it without a buffer: its records, its size and a cursor. */
  datatype View = View(d: disk, n: nat, p: nat)

  function EditStep(v: View, op: Editing): (int, View) {
    match op
    case Store(c) => (c, View(Put(v.d, v.p, [c]), if v.n < v.p + 1 then v.p + 1 else v.n, v.p + 1))
    case Flush => (0, v)
    case Where => (v.p, v)
    case Move(offs, whence) =>
      var t := Goal(v.n, v.p, offs, whence);
      if whence <= 2 && t >= 0 then (0, v.(p := t)) else (-1, v)
  }

  function EditResults(v: View, ops: seq<Editing>): seq<int>
    decreases |ops|
  {
    if ops == [] then [] else [EditStep(v, ops[0]).0] + EditResults(EditStep(v, ops[0]).1, ops[1..])
  }

  function Edited(v: View, ops: seq<Editing>): View
    decreases |ops|
  {
    if ops == [] then v else Edited(EditStep(v, ops[0]).1, ops[1..])
  }

  /** A stream open for writing binary data, that shows this file to its caller. */
  ghost predicate Shows(f: Stream, v: View)
    reads f, f.fcb, f.base
  {
    f.ForWriting() && f.iobinary && f.Image() == v.d && f.Size() == v.n && f.Cursor() == v.p
  }

  method EditOne(f: Stream, op: Editing, ghost v: View) returns (c: int)
    requires Shows(f, v)
    modifies f, f.fcb, f.base
    ensures c == EditStep(v, op).0 && Shows(f, EditStep(v, op).1)
  {
    hide Put, At, Contents, Slice, Next;
    f.OneOrOther();
    match op {
      case Store(b) => c := f.Fputc(b);
      case Flush => c := f.Fflush();
      case Where => c := f.Ftell();
      case Move(offs, whence) => c := f.Fseek(offs, whence);
    }
  }

  /** Any run of fputc, fflush, ftell and fseek gives what records and a cursor give, and fclose leaves those records. */
  method EditRun(f: Stream, ops: seq<Editing>, ghost v: View) returns (out: seq<int>)
    requires Shows(f, v)
    modifies f, f.fcb, f.base
    ensures out == EditResults(v, ops) && f.fcb.records == Edited(v, ops).d && f.fcb.fsize == Edited(v, ops).n
  {
    hide EditStep, Shows;
    out := [];
    var i := 0;
    ghost var now := v;
    assert ops[0..] == ops;
    while i < |ops|
      invariant 0 <= i <= |ops| && Shows(f, now)
      invariant out + EditResults(now, ops[i..]) == EditResults(v, ops) && Edited(now, ops[i..]) == Edited(v, ops)
    {
      ghost var left := ops[i..];
      var c := EditOne(f, ops[i], now);
      now := EditStep(now, ops[i]).1;
      i := i + 1;
      assert left[1..] == ops[i..];
      Moved(out, c, EditResults(now, ops[i..]));
      out := out + [c];
    }
    assert ops[i..] == [];
    Finish(f, now);
  }

  method Finish(f: Stream, ghost v: View)
    requires Shows(f, v)
    modifies f, f.fcb, f.base
    ensures f.fcb.records == v.d && f.fcb.fsize == v.n
  {
    hide Put;
    f.OneOrOther();
    var r, unused := f.Fclose(false);
  }
}
