/** What enhuff packs, dehuff unpacks: every name and every file, for any files that fit the formats. */
module HuffTrip {
  import opened Bytes
  import opened HuffTree
  import opened HuffCost
  import opened HuffBuild
  import opened HuffMake
  import opened HuffPack
  import opened Enhuff
  import opened Dehuff

  /** The archive is small enough for its positions to fit a long, and its table a short. */
  ghost predicate Fits(t: Tree<byte>, files: seq<Source>) {
    && CoversAll(t, files) && |Leaves(t)| <= 256 && |files| < 500
    && |ArchiveBytes(t, files)| < 0x8000_0000
    && forall i :: 0 <= i < |files| ==> |files[i].data| < 0x8000_0000
  }

  // ---------------------------------------------------------------- finding the parts

  lemma {:induction false} NameSplit(t: Tree<byte>, files: seq<Source>, n: nat, i: nat) returns (post: seq<byte>)
    requires CoversAll(t, files) && i < n <= |files|
    ensures Names(t, files, n) == Names(t, files, i) + NameBytes(t, files[i]) + post
    decreases n
  {
    hide NameBytes, Covers;
    if i == n - 1 {
      post := [];
    } else {
      var more := NameSplit(t, files, n - 1, i);
      post := more + NameBytes(t, files[n - 1]);
    }
  }

  lemma {:induction false} DataSplit(t: Tree<byte>, files: seq<Source>, n: nat, i: nat) returns (post: seq<byte>)
    requires CoversAll(t, files) && i < n <= |files|
    ensures Datas(t, files, n) == Datas(t, files, i) + DataBytes(t, files[i]) + post
    decreases n
  {
    hide DataBytes, Covers;
    if i == n - 1 {
      post := [];
    } else {
      var more := DataSplit(t, files, n - 1, i);
      post := more + DataBytes(t, files[n - 1]);
    }
  }

  function EntryOf(t: Tree<byte>, files: seq<Source>, i: nat): (s: seq<byte>)
    requires CoversAll(t, files) && i < |files|
    ensures |s| == 13
  {
    EntryBytes(Npos(t, files, i), |files[i].data|, Fpos(t, files, i), files[i].asc)
  }

  lemma {:induction false} EntrySplit(t: Tree<byte>, files: seq<Source>, n: nat, i: nat) returns (post: seq<byte>)
    requires CoversAll(t, files) && i < n <= |files|
    ensures Directory(t, files, n) == Directory(t, files, i) + EntryOf(t, files, i) + post
    decreases n
  {
    hide EntryBytes, Npos, Fpos, CoversAll;
    if i == n - 1 {
      post := [];
    } else {
      var more := EntrySplit(t, files, n - 1, i);
      post := more + EntryOf(t, files, n - 1);
    }
  }

  /** The parts of the archive before and after a given one. */
  lemma EntryPlace(t: Tree<byte>, files: seq<Source>, i: nat) returns (pre: seq<byte>, post: seq<byte>)
    requires CoversAll(t, files) && i < |files|
    ensures ArchiveBytes(t, files) == pre + EntryOf(t, files, i) + post && |pre| == Hpos(t) + 13 * i
  {
    hide TreeBytes, Directory, EntryOf, Names, Datas, CoversAll;
    var k := |files|;
    var more := EntrySplit(t, files, k, i);
    pre := Head(t, files) + TreeBytes(t) + Directory(t, files, i);
    post := more + (Names(t, files, k) + Datas(t, files, k));
  }

  lemma NamePlace(t: Tree<byte>, files: seq<Source>, i: nat) returns (pre: seq<byte>, post: seq<byte>)
    requires CoversAll(t, files) && i < |files|
    ensures ArchiveBytes(t, files) == pre + NameBytes(t, files[i]) + post && |pre| == Npos(t, files, i)
  {
    hide TreeBytes, Directory, NameBytes, Names, Datas, CoversAll;
    var k := |files|;
    var more := NameSplit(t, files, k, i);
    pre := Head(t, files) + TreeBytes(t) + Directory(t, files, k) + Names(t, files, i);
    post := more + Datas(t, files, k);
  }

  lemma DataPlace(t: Tree<byte>, files: seq<Source>, i: nat) returns (pre: seq<byte>, post: seq<byte>)
    requires CoversAll(t, files) && i < |files|
    ensures ArchiveBytes(t, files) == pre + DataBytes(t, files[i]) + post && |pre| == Fpos(t, files, i)
  {
    hide TreeBytes, Directory, DataBytes, Names, Datas, CoversAll;
    var k := |files|;
    var more := DataSplit(t, files, k, i);
    pre := Head(t, files) + TreeBytes(t) + Directory(t, files, k) + Names(t, files, k) + Datas(t, files, i);
    post := more;
  }

  /** Bits packed into the middle of a file are read back from there. */
  lemma BitsAt(file: seq<byte>, pre: seq<byte>, run: seq<bool>, post: seq<byte>) returns (rest: seq<bool>)
    requires file == pre + Pack(run) + post
    ensures BitsFrom(file, |pre|) == run + rest
  {
    hide BitsOf, Pack;
    assert file[|pre|..] == Pack(run) + post;
    rest := PackRead(run, post);
  }

  // ---------------------------------------------------------------- reading the archive

  lemma HeadRead(t: Tree<byte>, files: seq<Source>, post: seq<byte>)
    requires |files| < 0x1_0000 && |Leaves(t)| < 0x1_0000 && Hpos(t) < 0x1_0000_0000
    ensures var a := Head(t, files) + post;
      U2At(a, 0) == 0x01BD && U2At(a, 2) == |files| && U2At(a, 4) == |Leaves(t)| && U4At(a, 6) == Hpos(t)
  {
    hide U2, U4, U2At, U4At, Hpos, Leaves;
    var a := Head(t, files) + post;
    var m, k, n, h := U2(0x01BD), U2(|files|), U2(|Leaves(t)|), U4(Hpos(t));
    assert a == [] + m + (k + n + h + post);
    U2Read(0x01BD, [], k + n + h + post);
    assert a == m + k + (n + h + post);
    U2Read(|files|, m, n + h + post);
    assert a == (m + k) + n + (h + post);
    U2Read(|Leaves(t)|, m + k, h + post);
    assert a == (m + k + n) + h + post;
    U4Read(Hpos(t), m + k + n, post);
  }

  /** What the archive starts with. */
  lemma Beginning(t: Tree<byte>, files: seq<Source>) returns (post: seq<byte>)
    requires CoversAll(t, files)
    ensures ArchiveBytes(t, files) == Head(t, files) + Leaves(t) + Pack(Serial(t)) + post
  {
    hide Head, Leaves, Pack, Serial, Directory, Names, Datas, CoversAll;
    post := Directory(t, files, |files|) + (Names(t, files, |files|) + Datas(t, files, |files|));
  }

  lemma CharsRead(a: seq<byte>, head: seq<byte>, s: seq<byte>, post: seq<byte>)
    requires a == head + s + post && |head| == 10 && |s| <= 256
    ensures From(Chars(a, |s|), 0, s)
  {
    assert a[10..10 + |s|] == s;
    assert Chars(a, |s|)[..|s|] == s;
  }

  lemma OpenArchive(t: Tree<byte>, files: seq<Source>)
    requires Fits(t, files)
    ensures Open(ArchiveBytes(t, files)) == Some(Header(|files|, t, Hpos(t)))
  {
    hide ArchiveBytes, Leaves, Parse, BitsFrom, Pack, Serial, CoversAll, Head, U2At, U4At, TreeBytes, Chars;
    var a, s := ArchiveBytes(t, files), Leaves(t);
    var post := Beginning(t, files);
    var more := Pack(Serial(t)) + post;
    assert a == Head(t, files) + s + more;
    assert Hpos(t) < 0x8000_0000 by { TreeInside(t, files); }
    HeadRead(t, files, s + more);
    assert a == Head(t, files) + (s + more);
    var rest := BitsAt(a, Head(t, files) + s, Serial(t), post);
    CharsRead(a, Head(t, files), s, more);
    ParseSerial(t, rest, Chars(a, |s|), 0);
  }

  lemma TreeInside(t: Tree<byte>, files: seq<Source>)
    requires Fits(t, files)
    ensures Hpos(t) < 0x8000_0000
  {
    hide Head, TreeBytes, Directory, Names, Datas, CoversAll;
  }

  lemma EntryRead(pre: seq<byte>, npos: nat, nchrs: nat, fpos: nat, asc: bool, post: seq<byte>)
    requires npos < 0x1_0000_0000 && nchrs < 0x1_0000_0000 && fpos < 0x1_0000_0000
    ensures var a := pre + EntryBytes(npos, nchrs, fpos, asc) + post; var p := |pre|;
      && |a| >= p + 13
      && U4At(a, p) == npos && U4At(a, p + 4) == nchrs && U4At(a, p + 8) == fpos && (a[p + 12] != 0 <==> asc)
  {
    hide U4, U4At;
    var a := pre + EntryBytes(npos, nchrs, fpos, asc) + post;
    var x, y, z, w: seq<byte> := U4(npos), U4(nchrs), U4(fpos), [if asc then 1 else 0];
    assert a == pre + x + (y + z + w + post);
    U4Read(npos, pre, y + z + w + post);
    assert a == (pre + x) + y + (z + w + post);
    U4Read(nchrs, pre + x, z + w + post);
    assert a == (pre + x + y) + z + (w + post);
    U4Read(fpos, pre + x + y, w + post);
    assert a == (pre + x + y + z) + w + post;
  }

  /** Member i of the archive is file i: its name, its contents and its mode. */
  lemma MemberRestored(t: Tree<byte>, files: seq<Source>, i: nat)
    requires Fits(t, files) && i < |files| && 0 !in files[i].name && |files[i].name| < 100
    ensures var h := Header(|files|, t, Hpos(t)); var a := ArchiveBytes(t, files);
      && NameAt(a, h, i) == Some(files[i].name)
      && ContentAt(a, h, i) == Some(files[i].data)
      && AscAt(a, h, i) == files[i].asc
  {
    hide ArchiveBytes, Npos, Fpos, NameBytes, DataBytes, EntryBytes, BitsFrom, Encode, Decode1, DecodeN, DecodeName, Pack, Covers, Hpos;
    var h, a := Header(|files|, t, Hpos(t)), ArchiveBytes(t, files);
    PlacesFit(t, files, i);
    var pre, post := EntryPlace(t, files, i);
    EntryRead(pre, Npos(t, files, i), |files[i].data|, Fpos(t, files, i), files[i].asc, post);
    assert EntryAt(a, h, i) == Some(Entry(Npos(t, files, i), |files[i].data|, Fpos(t, files, i)));
    var pre1, rest1 := NameRead(t, files, i);
    DecodeNameEncode(t, files[i].name, rest1, 100);
    var pre2, rest2 := DataRead(t, files, i);
    DecodeEncode(t, files[i].data, rest2);
  }

  lemma NameRead(t: Tree<byte>, files: seq<Source>, i: nat) returns (pre: seq<byte>, rest: seq<bool>)
    requires CoversAll(t, files) && i < |files|
    ensures BitsFrom(ArchiveBytes(t, files), Npos(t, files, i)) == Encode(t, files[i].name + [0]) + rest
  {
    hide ArchiveBytes, Npos, BitsFrom, Encode, Pack, Covers;
    var post;
    pre, post := NamePlace(t, files, i);
    rest := BitsAt(ArchiveBytes(t, files), pre, Encode(t, files[i].name + [0]), post);
  }

  lemma DataRead(t: Tree<byte>, files: seq<Source>, i: nat) returns (pre: seq<byte>, rest: seq<bool>)
    requires CoversAll(t, files) && i < |files|
    ensures BitsFrom(ArchiveBytes(t, files), Fpos(t, files, i)) == Encode(t, files[i].data) + rest
  {
    hide ArchiveBytes, Fpos, BitsFrom, Encode, Pack, Covers;
    var post;
    pre, post := DataPlace(t, files, i);
    rest := BitsAt(ArchiveBytes(t, files), pre, Encode(t, files[i].data), post);
  }

  lemma PlacesFit(t: Tree<byte>, files: seq<Source>, i: nat)
    requires Fits(t, files) && i < |files|
    ensures Npos(t, files, i) < 0x8000_0000 && Fpos(t, files, i) < 0x8000_0000
  {
    hide ArchiveBytes, Npos, Fpos, NameBytes, DataBytes, CoversAll;
    var pre, post := NamePlace(t, files, i);
    var pre', post' := DataPlace(t, files, i);
  }

  // ---------------------------------------------------------------- the two programs

  /** enhuff, then dehuff -x: the same files. */
  method ArchiveThenExtract(files: seq<Source>, flag: int, hole: byte)
    returns (archive: seq<byte>, out: seq<Source>, t: Tree<byte>, ghost m: Making)
    requires 0 < |files| < 500
    requires forall i :: 0 <= i < |files| ==> |files[i].data| < 0x8000_0000
    requires forall i :: 0 <= i < |files| ==> 0 !in files[i].name && |files[i].name| < 100
    ensures |archive| < 0x8000_0000 ==> out == files
    ensures CoversAll(t, files) && archive == ArchiveBytes(t, files) && MadeOf(m, files, flag, t)
    ensures Least(m.freq, t) <==> !Costly(m.chars, if flag == 0 then 2 else flag, m.used, m.freq)
    ensures flag == 0 && |Text(files)| < 0x8000_0000 ==> Least(m.freq, t)
  {
    hide ArchiveBytes, CoversAll, Open, NameAt, ContentAt, AscAt, Hpos, Distinct, Text, Leaves, MadeOf, Least, Costly;
    archive, t, m := Archive(files, flag, hole);
    out := [];
    var in' := new Input(archive);
    var ok, nfiles, hpos := in'.OpenFile();
    ghost var h := Header(nfiles, in'.root, hpos);
    if |archive| < 0x8000_0000 {
      OpenArchive(t, files);
    }
    if !ok {
      return;
    }
    var i := 0;
    while i < nfiles
      invariant in'.Valid() && in'.root == h.tree
      invariant |archive| < 0x8000_0000 ==> 0 <= i <= |files| && out == files[..i]
    {
      if |archive| < 0x8000_0000 {
        MemberRestored(t, files, i);
      }
      var name, data, asc;
      ok, name, data, asc := in'.Extract(i, hpos, h);
      if !ok {
        return;
      }
      out := out + [Source(name, data, asc)];
      i := i + 1;
    }
  }
}
