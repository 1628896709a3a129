/** testaes.c: the byte-oriented AES-256 routines, working in place on arrays, and that they compute the
    functions of AesCipher. */
module Aes256 {
  import opened Gf
  import opened Aes
  import opened AesCipher

  // ---------------------------------------------------------------- logarithms and the S-box

  /** gf_alog: x steps of multiplication by 3. */
  method Antilog(x: nat) returns (atb: bv8)
    requires x < 256
    ensures atb == Alog(x)
  {
    atb := 1;
    var left := x;
    while left > 0
      invariant 0 <= left <= x && atb == Alog(x - left)
    {
      left := left - 1;
      var z := atb;
      atb := atb << 1;
      if z & 0x80 != 0 { atb := atb ^ 0x1b; }
      atb := atb ^ z;
    }
  }

  /** gf_log: counts until the power is found or the 8-bit counter is back at 0. */
  method Logarithm(x: bv8) returns (i: nat)
    ensures i == LogFrom(x, 0)
  {
    var atb: bv8 := 1;
    i := 0;
    while true
      invariant 0 <= i < 256 && atb == Alog(i) && LogFrom(x, 0) == LogFrom(x, i)
      decreases 256 - i
    {
      if atb == x { return; }
      var z := atb;
      atb := atb << 1;
      if z & 0x80 != 0 { atb := atb ^ 0x1b; }
      atb := atb ^ z;
      if i == 255 { return 0; }
      i := i + 1;
    }
  }

  method Inverse(x: bv8) returns (r: bv8)
    ensures r == MulInv(x)
  {
    if x != 0 {
      var l := Logarithm(x);
      r := Antilog(255 - l);
    } else {
      r := 0;
    }
  }

  method Sbox(x: bv8) returns (r: bv8)
    ensures r == SBox(x)
  {
    var y := Inverse(x);
    var sb := y;
    y := (y << 1) | (y >> 7); sb := sb ^ y; y := (y << 1) | (y >> 7); sb := sb ^ y;
    y := (y << 1) | (y >> 7); sb := sb ^ y; y := (y << 1) | (y >> 7); sb := sb ^ y;
    r := sb ^ 0x63;
  }

  method SboxInverse(x: bv8) returns (r: bv8)
    ensures r == InvSBox(x)
  {
    var y := x ^ 0x63;
    y := (y << 1) | (y >> 7);
    var sb := y;
    y := (y << 2) | (y >> 6); sb := sb ^ y; y := (y << 3) | (y >> 5); sb := sb ^ y;
    r := Inverse(sb);
  }

  // ---------------------------------------------------------------- steps on the block

  method SubBytesInPlace(buf: array<bv8>)
    requires buf.Length == 16
    modifies buf
    ensures buf[..] == SubBytes(old(buf[..]))
  {
    hide SBox;
    var i := 16;
    while i > 0
      invariant 0 <= i <= 16
      invariant forall j :: 0 <= j < i ==> buf[j] == old(buf[j])
      invariant forall j :: i <= j < 16 ==> buf[j] == SBox(old(buf[j]))
    {
      i := i - 1;
      buf[i] := Sbox(buf[i]);
    }
  }

  method InvSubBytesInPlace(buf: array<bv8>)
    requires buf.Length == 16
    modifies buf
    ensures buf[..] == InvSubBytes(old(buf[..]))
  {
    hide InvSBox;
    var i := 16;
    while i > 0
      invariant 0 <= i <= 16
      invariant forall j :: 0 <= j < i ==> buf[j] == old(buf[j])
      invariant forall j :: i <= j < 16 ==> buf[j] == InvSBox(old(buf[j]))
    {
      i := i - 1;
      buf[i] := SboxInverse(buf[i]);
    }
  }

  /** `off` is 0 or 16: which half of the key buffer. */
  method AddRoundKeyInPlace(buf: array<bv8>, key: array<bv8>, off: nat)
    requires buf.Length == 16 && key.Length == 32 && buf != key && off <= 16
    modifies buf
    ensures buf[..] == AddRoundKey(old(buf[..]), key[off..off + 16])
  {
    var i := 16;
    while i > 0
      invariant 0 <= i <= 16
      invariant forall j :: 0 <= j < i ==> buf[j] == old(buf[j])
      invariant forall j :: i <= j < 16 ==> buf[j] == Xor(old(buf[j]), key[off + j])
    {
      i := i - 1;
      buf[i] := buf[i] ^ key[off + i];
    }
  }

  /** aes_ar_cpy: the first key addition, copying the key to the working buffer on the way. */
  method AddFirstKey(buf: array<bv8>, key: array<bv8>, cpk: array<bv8>)
    requires buf.Length == 16 && key.Length == 32 && cpk.Length == 32 && buf != key && buf != cpk && key != cpk
    modifies buf, cpk
    ensures buf[..] == AddRoundKey(old(buf[..]), key[0..16]) && cpk[..] == key[..]
  {
    var i := 16;
    while i > 0
      invariant 0 <= i <= 16 && key[..] == old(key[..])
      invariant forall j :: 0 <= j < i ==> buf[j] == old(buf[j])
      invariant forall j :: i <= j < 16 ==> buf[j] == Xor(old(buf[j]), key[j])
      invariant forall j :: i <= j < 16 ==> cpk[j] == key[j]
      invariant forall j :: 16 + i <= j < 32 ==> cpk[j] == key[j]
    {
      i := i - 1;
      cpk[i] := key[i];
      buf[i] := buf[i] ^ cpk[i];
      cpk[16 + i] := key[16 + i];
    }
  }

  /** The four-way exchange in which the source turns a row: each place takes the next one's byte. */
  method Turn(buf: array<bv8>, p: nat, q: nat, r: nat, t: nat)
    requires buf.Length == 16 && p < 16 && q < 16 && r < 16 && t < 16
    requires p != q && p != r && p != t && q != r && q != t && r != t
    modifies buf
    ensures var s := old(buf[..]); buf[..] == s[p := s[q]][q := s[r]][r := s[t]][t := s[p]]
  {
    var i := buf[p];
    buf[p] := buf[q];
    buf[q] := buf[r];
    buf[r] := buf[t];
    buf[t] := i;
  }

  lemma RowsShifted(s: State)
    ensures s[1 := s[5]][5 := s[9]][9 := s[13]][13 := s[1]][10 := s[2]][2 := s[10]]
             [3 := s[15]][15 := s[11]][11 := s[7]][7 := s[3]][14 := s[6]][6 := s[14]] == ShiftRows(s)
  {
  }

  lemma RowsUnshifted(s: State)
    ensures s[1 := s[13]][13 := s[9]][9 := s[5]][5 := s[1]][2 := s[10]][10 := s[2]]
             [3 := s[7]][7 := s[11]][11 := s[15]][15 := s[3]][6 := s[14]][14 := s[6]] == InvShiftRows(s)
  {
  }

  method ShiftRowsInPlace(buf: array<bv8>)
    requires buf.Length == 16
    modifies buf
    ensures buf[..] == ShiftRows(old(buf[..]))
  {
    ghost var s := buf[..];
    Turn(buf, 1, 5, 9, 13);
    var i := buf[10]; buf[10] := buf[2]; buf[2] := i;
    Turn(buf, 3, 15, 11, 7);
    var j := buf[14]; buf[14] := buf[6]; buf[6] := j;
    hide ShiftRows;
    assert buf[..] == s[1 := s[5]][5 := s[9]][9 := s[13]][13 := s[1]][10 := s[2]][2 := s[10]]
                       [3 := s[15]][15 := s[11]][11 := s[7]][7 := s[3]][14 := s[6]][6 := s[14]];
    RowsShifted(s);
  }

  method InvShiftRowsInPlace(buf: array<bv8>)
    requires buf.Length == 16
    modifies buf
    ensures buf[..] == InvShiftRows(old(buf[..]))
  {
    ghost var s := buf[..];
    Turn(buf, 1, 13, 9, 5);
    var i := buf[2]; buf[2] := buf[10]; buf[10] := i;
    Turn(buf, 3, 7, 11, 15);
    var j := buf[6]; buf[6] := buf[14]; buf[14] := j;
    hide InvShiftRows;
    assert buf[..] == s[1 := s[13]][13 := s[9]][9 := s[5]][5 := s[1]][2 := s[10]][10 := s[2]]
                       [3 := s[7]][7 := s[11]][11 := s[15]][15 := s[3]][6 := s[14]][14 := s[6]];
    RowsUnshifted(s);
  }

  method MixColumnInPlace(buf: array<bv8>, i: nat)
    requires buf.Length == 16 && i <= 12
    modifies buf
    ensures buf[i..i + 4] == MixColumn(old(buf[i]), old(buf[i + 1]), old(buf[i + 2]), old(buf[i + 3]))
    ensures forall j :: 0 <= j < i || i + 4 <= j < 16 ==> buf[j] == old(buf[j])
  {
    var a, b, c, d := buf[i], buf[i + 1], buf[i + 2], buf[i + 3];
    hide Xor, Xtime, Sum4, Last, Mix;
    MixCodeIsMix(a, b, c, d);
    MixCodeIsMix(b, c, d, a);
    MixCodeIsMix(c, d, a, b);
    MixCodeIsMix(d, a, b, c);
    Turned(a, b, c, d);
    var e := Sum4(a, b, c, d);
    buf[i] := Last(buf[i], e, Xtime(Xor(a, b)));
    buf[i + 1] := Last(buf[i + 1], e, Xtime(Xor(b, c)));
    buf[i + 2] := Last(buf[i + 2], e, Xtime(Xor(c, d)));
    buf[i + 3] := Last(buf[i + 3], e, Xtime(Xor(d, a)));
  }

  lemma TurnedTerms(a: bv8, b: bv8, c: bv8, d: bv8)
    ensures a ^ b ^ c ^ d == b ^ c ^ d ^ a
  {
  }

  lemma TurnedOnce(a: bv8, b: bv8, c: bv8, d: bv8)
    ensures Sum4(a, b, c, d) == Sum4(b, c, d, a)
  {
    TurnedTerms(a, b, c, d);
  }

  lemma Turned(a: bv8, b: bv8, c: bv8, d: bv8)
    ensures Sum4(a, b, c, d) == Sum4(b, c, d, a) == Sum4(c, d, a, b) == Sum4(d, a, b, c)
  {
    hide Sum4;
    TurnedOnce(a, b, c, d);
    TurnedOnce(b, c, d, a);
    TurnedOnce(c, d, a, b);
  }

  method InvMixColumnInPlace(buf: array<bv8>, i: nat)
    requires buf.Length == 16 && i <= 12
    modifies buf
    ensures buf[i..i + 4] == UnmixColumn(old(buf[i]), old(buf[i + 1]), old(buf[i + 2]), old(buf[i + 3]))
    ensures forall j :: 0 <= j < i || i + 4 <= j < 16 ==> buf[j] == old(buf[j])
  {
    var a, b, c, d := buf[i], buf[i + 1], buf[i + 2], buf[i + 3];
    UnmixedColumn(a, b, c, d);
    hide Xor, Xtime, Sum3, Sum4, Last, UnmixColumn;
    var e := Sum4(a, b, c, d);
    var z := Xtime(e);
    var x := Xor(e, Xtime(Xtime(Sum3(z, a, c))));
    var y := Xor(e, Xtime(Xtime(Sum3(z, b, d))));
    buf[i] := Last(buf[i], x, Xtime(Xor(a, b)));
    buf[i + 1] := Last(buf[i + 1], y, Xtime(Xor(b, c)));
    buf[i + 2] := Last(buf[i + 2], x, Xtime(Xor(c, d)));
    buf[i + 3] := Last(buf[i + 3], y, Xtime(Xor(d, a)));
  }

  lemma UnmixedColumn(a: bv8, b: bv8, c: bv8, d: bv8)
    ensures var e := Sum4(a, b, c, d);
      var x, y := Xor(e, Xtime(Xtime(Sum3(Xtime(e), a, c)))), Xor(e, Xtime(Xtime(Sum3(Xtime(e), b, d))));
      UnmixColumn(a, b, c, d)
      == [Last(a, x, Xtime(Xor(a, b))), Last(b, y, Xtime(Xor(b, c))), Last(c, x, Xtime(Xor(c, d))), Last(d, y, Xtime(Xor(d, a)))]
  {
    hide Xor, Xtime, Sum3, Sum4, Last, Unmix;
    UnmixCodeIsUnmix(a, b, c, d);
    UnmixCodeIsUnmix(b, c, d, a);
    UnmixCodeIsUnmix(c, d, a, b);
    UnmixCodeIsUnmix(d, a, b, c);
    Turned(a, b, c, d);
    Across(Xtime(Sum4(a, b, c, d)), a, c);
    Across(Xtime(Sum4(a, b, c, d)), b, d);
  }

  lemma Across(z: bv8, a: bv8, c: bv8)
    ensures Sum3(z, a, c) == Sum3(z, c, a)
  {
    AcrossTerms(z, a, c);
  }

  lemma AcrossTerms(z: bv8, a: bv8, c: bv8)
    ensures z ^ a ^ c == z ^ c ^ a
  {
  }

  method MixColumnsInPlace(buf: array<bv8>)
    requires buf.Length == 16
    modifies buf
    ensures buf[..] == MixColumns(old(buf[..]))
  {
    hide MixColumn;
    ghost var s := buf[..];
    var i := 0;
    ghost var k := 0;
    while i < 16
      invariant 0 <= k <= 4 && i == 4 * k && buf[..i] == MixedTo(s, k)
      invariant forall j :: i <= j < 16 ==> buf[j] == s[j]
    {
      ghost var done := buf[..i];
      MixColumnInPlace(buf, i);
      assert buf[..i] == done;
      assert buf[..i + 4] == done + buf[i..i + 4];
      i, k := i + 4, k + 1;
    }
    MixedAll(s);
  }

  method InvMixColumnsInPlace(buf: array<bv8>)
    requires buf.Length == 16
    modifies buf
    ensures buf[..] == InvMixColumns(old(buf[..]))
  {
    hide UnmixColumn;
    ghost var s := buf[..];
    var i := 0;
    ghost var k := 0;
    while i < 16
      invariant 0 <= k <= 4 && i == 4 * k && buf[..i] == UnmixedTo(s, k)
      invariant forall j :: i <= j < 16 ==> buf[j] == s[j]
    {
      ghost var done := buf[..i];
      InvMixColumnInPlace(buf, i);
      assert buf[..i] == done;
      assert buf[..i + 4] == done + buf[i..i + 4];
      i, k := i + 4, k + 1;
    }
    UnmixedAll(s);
  }

  /** The first n columns of MixColumns. */
  function MixedTo(s: State, n: nat): (r: seq<bv8>)
    requires n <= 4
    ensures |r| == 4 * n
  {
    if n == 0 then [] else MixedTo(s, n - 1) + MixColumn(s[4 * n - 4], s[4 * n - 3], s[4 * n - 2], s[4 * n - 1])
  }

  lemma MixedAll(s: State)
    ensures MixedTo(s, 4) == MixColumns(s)
  {
    hide MixColumn;
    assert MixedTo(s, 1) == MixColumn(s[0], s[1], s[2], s[3]);
    assert MixedTo(s, 2) == MixColumn(s[0], s[1], s[2], s[3]) + MixColumn(s[4], s[5], s[6], s[7]);
  }

  /** The first n columns of InvMixColumns. */
  function UnmixedTo(s: State, n: nat): (r: seq<bv8>)
    requires n <= 4
    ensures |r| == 4 * n
  {
    if n == 0 then [] else UnmixedTo(s, n - 1) + UnmixColumn(s[4 * n - 4], s[4 * n - 3], s[4 * n - 2], s[4 * n - 1])
  }

  lemma UnmixedAll(s: State)
    ensures UnmixedTo(s, 4) == InvMixColumns(s)
  {
    hide UnmixColumn;
    assert UnmixedTo(s, 1) == UnmixColumn(s[0], s[1], s[2], s[3]);
    assert UnmixedTo(s, 2) == UnmixColumn(s[0], s[1], s[2], s[3]) + UnmixColumn(s[4], s[5], s[6], s[7]);
  }

  /** The end of each round of decryption. */
  method InvRoundInPlace(buf: array<bv8>)
    requires buf.Length == 16
    modifies buf
    ensures buf[..] == InvSubBytes(InvShiftRows(InvMixColumns(old(buf[..]))))
  {
    hide InvSubBytes, InvShiftRows, InvMixColumns;
    InvMixColumnsInPlace(buf);
    InvShiftRowsInPlace(buf);
    InvSubBytesInPlace(buf);
  }

  /** The start of each round of encryption. */
  method RoundInPlace(buf: array<bv8>)
    requires buf.Length == 16
    modifies buf
    ensures buf[..] == MixColumns(ShiftRows(SubBytes(old(buf[..]))))
  {
    hide SubBytes, ShiftRows, MixColumns;
    SubBytesInPlace(buf);
    ShiftRowsInPlace(buf);
    MixColumnsInPlace(buf);
  }

  // ---------------------------------------------------------------- the rolling key buffer

  function WordAt(k: seq<bv8>, j: nat): Word
    requires |k| == 32 && j < 8
  {
    Word(k[4 * j], k[4 * j + 1], k[4 * j + 2], k[4 * j + 3])
  }

  /** The 32 bytes of a buffer as eight words. */
  function Words(k: seq<bv8>): Key
    requires |k| == 32
  {
    seq(8, j requires 0 <= j < 8 => WordAt(k, j))
  }

  /** The buffer `k` with word `j` replaced. */
  ghost predicate OneWord(k: seq<bv8>, after: seq<bv8>, j: nat, w: Word)
    requires |k| == |after| == 32 && j < 8
  {
    && WordAt(after, j) == w
    && forall i :: 0 <= i < 32 && !(4 * j <= i < 4 * j + 4) ==> after[i] == k[i]
  }

  lemma OneWordReplaced(k: seq<bv8>, after: seq<bv8>, j: nat, w: Word)
    requires |k| == |after| == 32 && j < 8 && OneWord(k, after, j, w)
    ensures Words(after) == Words(k)[j := w]
  {
    forall t | 0 <= t < 8 ensures Words(after)[t] == Words(k)[j := w][t] {
      if t != j { assert WordAt(after, t) == WordAt(k, t); }
    }
  }

  /** The body of the loops: word j takes in word j - 1. */
  method TakeIn(k: array<bv8>, j: nat)
    requires k.Length == 32 && 1 <= j < 8
    modifies k
    ensures Words(k[..]) == old(Words(k[..]))[j := XorWord(old(Words(k[..]))[j], old(Words(k[..]))[j - 1])]
  {
    hide Xor;
    ghost var s := k[..];
    ghost var v, w := WordAt(s, j), WordAt(s, j - 1);
    assert Words(s)[j] == v && Words(s)[j - 1] == w;
    hide Words;
    var i := 4 * j;
    k[i], k[i + 1] := Xor(k[i], k[i - 4]), Xor(k[i + 1], k[i - 3]);
    k[i + 2], k[i + 3] := Xor(k[i + 2], k[i - 2]), Xor(k[i + 3], k[i - 1]);
    OneWordReplaced(s, k[..], j, XorWord(v, w));
  }

  /** Word 4 takes in word 3 through the S-box. */
  method TakeInSub(k: array<bv8>)
    requires k.Length == 32
    modifies k
    ensures Words(k[..]) == old(Words(k[..]))[4 := XorWord(old(Words(k[..]))[4], SubWord(old(Words(k[..]))[3]))]
  {
    hide Xor, SBox;
    ghost var s := k[..];
    ghost var v, w := WordAt(s, 4), WordAt(s, 3);
    assert Words(s)[4] == v && Words(s)[3] == w;
    hide Words;
    var b := Sbox(k[12]);
    k[16] := Xor(k[16], b);
    b := Sbox(k[13]);
    k[17] := Xor(k[17], b);
    b := Sbox(k[14]);
    k[18] := Xor(k[18], b);
    b := Sbox(k[15]);
    k[19] := Xor(k[19], b);
    OneWordReplaced(s, k[..], 4, XorWord(v, SubWord(w)));
  }

  /** Word 0 takes in word 7, turned and through the S-box, and the round constant. */
  method TakeInTurned(k: array<bv8>, rc: bv8)
    requires k.Length == 32
    modifies k
    ensures Words(k[..]) == old(Words(k[..]))[0 := XorWord(old(Words(k[..]))[0],
                              XorWord(SubWord(RotWord(old(Words(k[..]))[7])), Word(rc, 0, 0, 0)))]
  {
    hide Xor, SBox;
    ghost var s := k[..];
    ghost var v, w := WordAt(s, 0), WordAt(s, 7);
    assert Words(s)[0] == v && Words(s)[7] == w;
    hide Words;
    var b := Sbox(k[29]);
    k[0] := Xor(k[0], Xor(b, rc));
    b := Sbox(k[30]);
    XorZero(b);
    k[1] := Xor(k[1], b);
    b := Sbox(k[31]);
    XorZero(b);
    k[2] := Xor(k[2], b);
    b := Sbox(k[28]);
    XorZero(b);
    k[3] := Xor(k[3], b);
    OneWordReplaced(s, k[..], 0, XorWord(v, XorWord(SubWord(RotWord(w)), Word(rc, 0, 0, 0))));
  }

  /** One step of the expansion byte by byte: what is added to byte i of the buffer. */
  function AddedTo(a: seq<bv8>, b: seq<bv8>, rc: bv8, i: nat): bv8
    requires |a| == |b| == 32 && i < 32
  {
    if i < 4 then Xor(SBox(a[28 + (i + 1) % 4]), if i == 0 then rc else 0)
    else if 16 <= i < 20 then SBox(b[i - 4])
    else b[i - 4]
  }

  ghost predicate Expanded(a: seq<bv8>, b: seq<bv8>, rc: bv8)
    requires |a| == |b| == 32
  {
    forall i :: 0 <= i < 32 ==> b[i] == Xor(a[i], AddedTo(a, b, rc, i))
  }

  /** A step on words is a step on bytes. */
  lemma WordsExpanded(a: seq<bv8>, b: seq<bv8>, rc: bv8)
    requires |a| == |b| == 32 && Words(b) == NextKey(Words(a), rc)
    ensures Expanded(a, b, rc)
  {
    hide SBox, Xor;
    forall i | 0 <= i < 32 ensures b[i] == Xor(a[i], AddedTo(a, b, rc, i)) { ByteExpanded(a, b, rc, i / 4, i % 4); }
  }

  lemma ByteExpanded(a: seq<bv8>, b: seq<bv8>, rc: bv8, j: nat, i: nat)
    requires |a| == |b| == 32 && Words(b) == NextKey(Words(a), rc) && j < 8 && i < 4
    ensures b[4 * j + i] == Xor(a[4 * j + i], AddedTo(a, b, rc, 4 * j + i))
  {
    hide *;
    ByteAt(a, j, i);
    ByteAt(b, j, i);
    ByteAt(a, 7, (i + 1) % 4);
    if j > 0 { ByteAt(b, j - 1, i); }
    NextBytes(Words(a), rc, j, i);
    NextAt(Words(a), rc, j);
    if j > 0 { NextAt(Words(a), rc, j - 1); }
    AddedCase(a, b, rc, j, i);
  }

  lemma AddedCase(a: seq<bv8>, b: seq<bv8>, rc: bv8, j: nat, i: nat)
    requires |a| == |b| == 32 && j < 8 && i < 4
    ensures AddedTo(a, b, rc, 4 * j + i)
      == if j == 0 then Xor(SBox(a[28 + (i + 1) % 4]), if i == 0 then rc else 0)
         else if j == 4 then SBox(b[4 * (j - 1) + i]) else b[4 * (j - 1) + i]
  {
    hide SBox, Xor;
  }

  lemma NextAt(v: Key, rc: bv8, j: nat)
    requires j < 8
    ensures NextKey(v, rc)[j] == NextWord(v, rc, j)
  {
    hide NextWord;
  }

  lemma ByteAt(a: seq<bv8>, j: nat, i: nat)
    requires |a| == 32 && j < 8 && i < 4
    ensures Bytes(Words(a)[j])[i] == a[4 * j + i]
  {
    assert i == 0 || i == 1 || i == 2 || i == 3;
  }

  /** aes_expandEncKey: one step forward of key and round constant. */
  method ExpandEncKey(k: array<bv8>, rc: bv8) returns (rc': bv8)
    requires k.Length == 32
    modifies k
    ensures Words(k[..]) == NextKey(old(Words(k[..])), rc) && rc' == Xtime(rc)
    ensures Expanded(old(k[..]), k[..], rc)
  {
    hide WordAt, Words, XorWord, SubWord, RotWord, Expanded;
    ghost var was, w := k[..], Words(k[..]);
    TakeInTurned(k, rc);
    rc' := F(rc);
    RoundConstants(rc);
    hide Xtime, F;
    var j := 1;
    while j < 4
      invariant 1 <= j <= 4
      invariant forall t :: 0 <= t < j ==> Words(k[..])[t] == NextWord(w, rc, t)
      invariant forall t :: j <= t < 8 ==> Words(k[..])[t] == w[t]
    {
      TakeIn(k, j);
      j := j + 1;
    }
    TakeInSub(k);
    j := 5;
    while j < 8
      invariant 5 <= j <= 8
      invariant forall t :: 0 <= t < j ==> Words(k[..])[t] == NextWord(w, rc, t)
      invariant forall t :: j <= t < 8 ==> Words(k[..])[t] == w[t]
    {
      TakeIn(k, j);
      j := j + 1;
    }
    WordsExpanded(was, k[..], rc);
  }

  /** aes_expDecKey: one step back. */
  method ExpandDecKey(k: array<bv8>, rc: bv8) returns (rc': bv8)
    requires k.Length == 32
    modifies k
    ensures rc' == Fd(rc) && Words(k[..]) == PrevKey(old(Words(k[..])), rc')
    ensures Expanded(k[..], old(k[..]), rc')
  {
    hide WordAt, Words, XorWord, SubWord, RotWord, Fd, Expanded;
    ghost var was, w := k[..], Words(k[..]);
    rc' := Fd(rc);
    var j := 7;
    while j > 4
      invariant 4 <= j <= 7
      invariant forall t :: j < t < 8 ==> Words(k[..])[t] == PrevWord(w, rc', t)
      invariant forall t :: 0 <= t <= j ==> Words(k[..])[t] == w[t]
    {
      TakeIn(k, j);
      j := j - 1;
    }
    TakeInSub(k);
    j := 3;
    while j > 0
      invariant 0 <= j <= 3
      invariant forall t :: j < t < 8 ==> Words(k[..])[t] == PrevWord(w, rc', t)
      invariant forall t :: 0 <= t <= j ==> Words(k[..])[t] == w[t]
    {
      TakeIn(k, j);
      j := j - 1;
    }
    TakeInTurned(k, rc');
    assert Words(k[..]) == PrevKey(w, rc');
    forall j | 0 <= j < 8 ensures NextWord(PrevKey(w, rc'), rc', j) == w[j] { PrevUndone(w, rc', j); }
    assert NextKey(PrevKey(w, rc'), rc') == w;
    WordsExpanded(k[..], was, rc');
  }

  /** Half of the buffer is the round key. */
  lemma HalfIsRoundKey(k: seq<bv8>, key: Key, n: nat)
    requires |k| == 32 && Words(k) == Rolled(key, n)
    ensures k[0..16] == RoundKey(key, 2 * n) && k[16..32] == RoundKey(key, 2 * n + 1)
  {
    hide W, WordAt, Rolled, Bytes;
    forall j | 0 <= j < 8 ensures WordAt(k, j) == W(key, 8 * n + j) {
      RolledIsSchedule(key, n, j);
      assert Words(k)[j] == WordAt(k, j);
    }
    hide Words;
    HalfBlocks(k);
  }

  lemma WordSlice(k: seq<bv8>, j: nat)
    requires |k| == 32 && j < 8
    ensures k[4 * j..4 * j + 4] == Bytes(WordAt(k, j))
  {
  }

  lemma HalfBlocks(k: seq<bv8>)
    requires |k| == 32
    ensures k[0..16] == Block(WordAt(k, 0), WordAt(k, 1), WordAt(k, 2), WordAt(k, 3))
    ensures k[16..32] == Block(WordAt(k, 4), WordAt(k, 5), WordAt(k, 6), WordAt(k, 7))
  {
    hide WordAt, Bytes;
    WordSlice(k, 0);
    WordSlice(k, 1);
    WordSlice(k, 2);
    WordSlice(k, 3);
    assert k[0..16] == k[0..4] + k[4..8] + k[8..12] + k[12..16];
    WordSlice(k, 4);
    WordSlice(k, 5);
    WordSlice(k, 6);
    WordSlice(k, 7);
    assert k[16..32] == k[16..20] + k[20..24] + k[24..28] + k[28..32];
  }

  // ---------------------------------------------------------------- the interface

  class Context {
    const key: array<bv8>
    const enckey: array<bv8>
    const deckey: array<bv8>

    ghost predicate Valid()
      reads this
    {
      && key.Length == 32 && enckey.Length == 32 && deckey.Length == 32
      && key != enckey && key != deckey && enckey != deckey
    }

    /** The context is set up for `k`: its schedule starts at enckey and ends at deckey. */
    ghost predicate Holds(k: Key)
      reads this, enckey, deckey
    {
      Valid() && Words(enckey[..]) == k && Words(deckey[..]) == Rolled(k, 7)
    }

    constructor ()
      ensures Valid() && fresh(key) && fresh(enckey) && fresh(deckey)
    {
      key, enckey, deckey := new bv8[32], new bv8[32], new bv8[32];
    }

    method Init(k: array<bv8>)
      requires Valid() && k.Length == 32 && k != enckey && k != deckey
      modifies enckey, deckey
      ensures Holds(Words(k[..]))
    {
      hide Words, NextKey;
      var i := 0;
      while i < 32
        invariant 0 <= i <= 32 && k[..] == old(k[..])
        invariant enckey[..i] == k[..i] && deckey[..i] == k[..i]
      {
        deckey[i] := k[i];
        enckey[i] := k[i];
        i := i + 1;
      }
      assert enckey[..] == k[..] && deckey[..] == k[..];
      ghost var w := Words(k[..]);
      var rcon: bv8 := 1;
      i := 7;
      while i > 0
        invariant 0 <= i <= 7 && enckey[..] == k[..] == old(k[..])
        invariant Words(deckey[..]) == Rolled(w, 7 - i) && rcon == Rc(7 - i)
      {
        rcon := ExpandEncKey(deckey, rcon);
        i := i - 1;
      }
    }

    method EncryptEcb(buf: array<bv8>, ghost k: Key)
      requires Holds(k) && buf.Length == 16 && buf != key && buf != enckey && buf != deckey
      modifies key, buf
      ensures Holds(k) && buf[..] == Cipher(k, old(buf[..]))
    {
      hide Words, Rolled, SubBytes, ShiftRows, MixColumns, AddRoundKey, RoundKey;
      ghost var s := buf[..];
      assert Rolled(k, 0) == k by { RolledZero(k); }
      AddFirstKey(buf, enckey, key);
      HalfIsRoundKey(key[..], k, 0);
      var i, rcon := 1, 1 as bv8;
      while i < 14
        invariant 1 <= i <= 14 && Holds(k) && buf[..] == Rounds(k, s, i - 1)
        invariant Words(key[..]) == Rolled(k, (i - 1) / 2) && rcon == Rc((i - 1) / 2)
      {
        HalfIsRoundKey(key[..], k, (i - 1) / 2);
        RoundInPlace(buf);
        if i % 2 == 1 {
          AddRoundKeyInPlace(buf, key, 16);
        } else {
          RolledStep(k, (i - 1) / 2);
          rcon := ExpandEncKey(key, rcon);
          HalfIsRoundKey(key[..], k, i / 2);
          AddRoundKeyInPlace(buf, key, 0);
        }
        i := i + 1;
      }
      SubBytesInPlace(buf);
      ShiftRowsInPlace(buf);
      RolledStep(k, 6);
      rcon := ExpandEncKey(key, rcon);
      HalfIsRoundKey(key[..], k, 7);
      AddRoundKeyInPlace(buf, key, 0);
    }

    /** The key addition of decryption round i, first rolling the buffer back when i is odd. */
    method TakeKeyBack(buf: array<bv8>, i: nat, rcon: bv8, ghost k: Key) returns (rcon': bv8)
      requires Valid() && 0 < i < 14 && buf.Length == 16 && buf != key
      requires Words(key[..]) == Rolled(k, (i + 1) / 2) && rcon == Rc((i + 1) / 2)
      modifies key, buf
      ensures buf[..] == AddRoundKey(old(buf[..]), RoundKey(k, i))
      ensures Words(key[..]) == Rolled(k, i / 2) && rcon' == Rc(i / 2)
    {
      hide Words, Rolled, AddRoundKey, RoundKey, Fd, Rc;
      rcon' := rcon;
      if i % 2 == 1 {
        RolledBack(k, (i + 1) / 2);
        rcon' := ExpandDecKey(key, rcon);
        HalfIsRoundKey(key[..], k, i / 2);
        AddRoundKeyInPlace(buf, key, 16);
      } else {
        HalfIsRoundKey(key[..], k, i / 2);
        AddRoundKeyInPlace(buf, key, 0);
      }
    }

    method DecryptEcb(buf: array<bv8>, ghost k: Key)
      requires Holds(k) && buf.Length == 16 && buf != key && buf != enckey && buf != deckey
      modifies key, buf
      ensures Holds(k) && buf[..] == InvCipher(k, old(buf[..]))
    {
      hide Words, Rolled, InvSubBytes, InvShiftRows, InvMixColumns, AddRoundKey, RoundKey, Fd;
      ghost var s := buf[..];
      AddFirstKey(buf, deckey, key);
      HalfIsRoundKey(key[..], k, 7);
      InvShiftRowsInPlace(buf);
      InvSubBytesInPlace(buf);
      LastRoundConstant();
      var i, rcon := 13, 0x80 as bv8;
      while i > 0
        invariant 0 <= i <= 13 && Holds(k) && buf[..] == Unrounds(k, s, i)
        invariant Words(key[..]) == Rolled(k, (i + 1) / 2) && rcon == Rc((i + 1) / 2)
      {
        rcon := TakeKeyBack(buf, i, rcon, k);
        InvRoundInPlace(buf);
        i := i - 1;
      }
      HalfIsRoundKey(key[..], k, 0);
      AddRoundKeyInPlace(buf, key, 0);
    }
  }

  lemma RolledZero(k: Key)
    ensures Rolled(k, 0) == k
  {
  }

  lemma RolledStep(k: Key, n: nat)
    ensures Rolled(k, n + 1) == NextKey(Rolled(k, n), Rc(n)) && Rc(n + 1) == Xtime(Rc(n))
  {
  }

  /** Rolling back arrives at the buffer and the constant before. */
  lemma RolledBack(k: Key, n: nat)
    requires n > 0
    ensures Fd(Rc(n)) == Rc(n - 1) && PrevKey(Rolled(k, n), Rc(n - 1)) == Rolled(k, n - 1)
  {
    RoundConstants(Rc(n - 1));
    NextUndone(Rolled(k, n - 1), Rc(n - 1));
  }

  /** The program of main: a block encrypted and decrypted under any key is what it was. */
  method EncryptThenDecrypt(k: array<bv8>, buf: array<bv8>)
    requires k.Length == 32 && buf.Length == 16 && k != buf
    modifies buf
    ensures buf[..] == old(buf[..])
  {
    hide Words, Cipher, InvCipher, Rolled;
    var ctx := new Context();
    ctx.Init(k);
    ghost var w := Words(k[..]);
    ctx.EncryptEcb(buf, w);
    ctx.Init(k);
    ctx.DecryptEcb(buf, w);
    DecryptEncrypt(w, old(buf[..]));
  }
}
