/** The cipher, its inverse and the key schedule of AES-256 (sections 5.1, 5.2 and 5.3 of FIPS 197), and the
    laws that make testaes.c right: decryption undoes encryption, and the one 32-byte key buffer it rolls
    forwards and back holds the words of the schedule. */
module AesCipher {
  import opened Gf
  import opened Aes

  type State = s: seq<bv8> | |s| == 16 witness seq(16, _ => 0)
  // ---------------------------------------------------------------- steps on states

  function SubBytes(s: State): State {
    seq(16, i requires 0 <= i < 16 => SBox(s[i]))
  }

  function InvSubBytes(s: State): State {
    seq(16, i requires 0 <= i < 16 => InvSBox(s[i]))
  }

  /** Row r moves r columns to the left: byte r + 4c comes from column c + r. */
  function ShiftRows(s: State): State {
    [s[0], s[5], s[10], s[15], s[4], s[9], s[14], s[3], s[8], s[13], s[2], s[7], s[12], s[1], s[6], s[11]]
  }

  function InvShiftRows(s: State): State {
    [s[0], s[13], s[10], s[7], s[4], s[1], s[14], s[11], s[8], s[5], s[2], s[15], s[12], s[9], s[6], s[3]]
  }

  /** Byte by byte: row r of column c comes from r columns further on, in both directions. */
  lemma RowsShifted(s: State, r: nat, c: nat)
    requires r < 4 && c < 4
    ensures ShiftRows(s)[r + 4 * c] == s[r + 4 * ((c + r) % 4)]
    ensures InvShiftRows(s)[r + 4 * ((c + r) % 4)] == s[r + 4 * c]
  {
    assert r == 0 || r == 1 || r == 2 || r == 3;
    assert c == 0 || c == 1 || c == 2 || c == 3;
  }

  /** The columns are multiplied by the matrix one by one. */
  function MixColumn(a: bv8, b: bv8, c: bv8, d: bv8): (r: seq<bv8>)
    ensures |r| == 4
  {
    [Mix(a, b, c, d), Mix(b, c, d, a), Mix(c, d, a, b), Mix(d, a, b, c)]
  }

  function UnmixColumn(a: bv8, b: bv8, c: bv8, d: bv8): (r: seq<bv8>)
    ensures |r| == 4
  {
    [Unmix(a, b, c, d), Unmix(b, c, d, a), Unmix(c, d, a, b), Unmix(d, a, b, c)]
  }

  function MixColumns(s: State): State {
    MixColumn(s[0], s[1], s[2], s[3]) + MixColumn(s[4], s[5], s[6], s[7])
    + MixColumn(s[8], s[9], s[10], s[11]) + MixColumn(s[12], s[13], s[14], s[15])
  }

  function InvMixColumns(s: State): State {
    UnmixColumn(s[0], s[1], s[2], s[3]) + UnmixColumn(s[4], s[5], s[6], s[7])
    + UnmixColumn(s[8], s[9], s[10], s[11]) + UnmixColumn(s[12], s[13], s[14], s[15])
  }

  function AddRoundKey(s: State, k: State): State {
    seq(16, i requires 0 <= i < 16 => Xor(s[i], k[i]))
  }

  lemma SubBytesUndone(s: State)
    ensures InvSubBytes(SubBytes(s)) == s
  {
    hide SBox, InvSBox;
    forall i | 0 <= i < 16 ensures InvSubBytes(SubBytes(s))[i] == s[i] { SBoxUndone(s[i]); }
  }

  lemma ShiftRowsUndone(s: State)
    ensures InvShiftRows(ShiftRows(s)) == s
  {
  }

  lemma MixColumnUndone(a: bv8, b: bv8, c: bv8, d: bv8)
    ensures var m := MixColumn(a, b, c, d); UnmixColumn(m[0], m[1], m[2], m[3]) == [a, b, c, d]
  {
    hide Mix, Unmix;
    UnmixUndoesMix(a, b, c, d);
    UnmixUndoesMix(b, c, d, a);
    UnmixUndoesMix(c, d, a, b);
    UnmixUndoesMix(d, a, b, c);
  }

  lemma MixColumnsUndone(s: State)
    ensures InvMixColumns(MixColumns(s)) == s
  {
    hide Mix, Unmix, UnmixColumn;
    MixColumnUndone(s[0], s[1], s[2], s[3]);
    MixColumnUndone(s[4], s[5], s[6], s[7]);
    MixColumnUndone(s[8], s[9], s[10], s[11]);
    MixColumnUndone(s[12], s[13], s[14], s[15]);
  }

  lemma AddRoundKeyUndone(s: State, k: State)
    ensures AddRoundKey(AddRoundKey(s, k), k) == s
  {
    hide Xor;
    forall i | 0 <= i < 16 ensures AddRoundKey(AddRoundKey(s, k), k)[i] == s[i] { XorSelf(s[i], k[i]); }
  }

  // ---------------------------------------------------------------- the key schedule (section 5.2)

  datatype Word = Word(b0: bv8, b1: bv8, b2: bv8, b3: bv8)

  /** A 256-bit key as eight words. */
  type Key = s: seq<Word> | |s| == 8 witness seq(8, _ => Word(0, 0, 0, 0))

  function XorWord(v: Word, w: Word): Word {
    Word(Xor(v.b0, w.b0), Xor(v.b1, w.b1), Xor(v.b2, w.b2), Xor(v.b3, w.b3))
  }

  function SubWord(w: Word): Word {
    Word(SBox(w.b0), SBox(w.b1), SBox(w.b2), SBox(w.b3))
  }

  function RotWord(w: Word): Word {
    Word(w.b1, w.b2, w.b3, w.b0)
  }

  /** x to the power n: the round constants. */
  function Rc(n: nat): bv8 {
    if n == 0 then 1 else Xtime(Rc(n - 1))
  }

  /** Word i of the schedule. */
  function W(key: Key, i: nat): Word {
    if i < 8 then key[i]
    else if i % 8 == 0 then XorWord(W(key, i - 8), XorWord(SubWord(RotWord(W(key, i - 1))), Word(Rc(i / 8 - 1), 0, 0, 0)))
    else if i % 8 == 4 then XorWord(W(key, i - 8), SubWord(W(key, i - 1)))
    else XorWord(W(key, i - 8), W(key, i - 1))
  }

  function Bytes(w: Word): (r: seq<bv8>)
    ensures |r| == 4
  {
    [w.b0, w.b1, w.b2, w.b3]
  }

  function Block(a: Word, b: Word, c: Word, d: Word): State {
    Bytes(a) + Bytes(b) + Bytes(c) + Bytes(d)
  }

  /** Round key r: words 4r to 4r + 3. */
  function RoundKey(key: Key, r: nat): State {
    Block(W(key, 4 * r), W(key, 4 * r + 1), W(key, 4 * r + 2), W(key, 4 * r + 3))
  }

  /** The expansion of section 5.2 byte by byte, for byte j of word i: what is added to the byte eight words before. */
  function Added(key: Key, i: nat, j: nat): bv8
    requires 8 <= i && j < 4
  {
    if i % 8 == 0 then Xor(SBox(Bytes(W(key, i - 1))[(j + 1) % 4]), if j == 0 then Rc(i / 8 - 1) else 0)
    else if i % 8 == 4 then SBox(Bytes(W(key, i - 1))[j])
    else Bytes(W(key, i - 1))[j]
  }

  lemma ScheduleBytes(key: Key, i: nat, j: nat)
    requires 8 <= i && j < 4
    ensures Bytes(W(key, i))[j] == Xor(Bytes(W(key, i - 8))[j], Added(key, i, j))
  {
    WordAdded(key, i);
    XorBytes(W(key, i - 8), Addend(W(key, i - 1), i), j);
    AddendBytes(W(key, i - 1), i, j);
    hide *;
    hide Bytes;
    AddedIs(key, i, j);
  }

  /** What is added to a word, `w` being the one before it. */
  function Addend(w: Word, i: nat): Word
    requires 8 <= i
  {
    if i % 8 == 0 then XorWord(SubWord(RotWord(w)), Word(Rc(i / 8 - 1), 0, 0, 0)) else if i % 8 == 4 then SubWord(w) else w
  }

  lemma WordAdded(key: Key, i: nat)
    requires 8 <= i
    ensures W(key, i) == XorWord(W(key, i - 8), Addend(W(key, i - 1), i))
  {
    hide XorWord, SubWord, RotWord, Rc;
  }

  lemma AddendBytes(w: Word, i: nat, j: nat)
    requires 8 <= i && j < 4
    ensures Bytes(Addend(w, i))[j]
      == if i % 8 == 0 then Xor(SBox(Bytes(w)[(j + 1) % 4]), if j == 0 then Rc(i / 8 - 1) else 0)
         else if i % 8 == 4 then SBox(Bytes(w)[j]) else Bytes(w)[j]
  {
    hide Xor, SBox, Rc;
  }

  lemma AddedIs(key: Key, i: nat, j: nat)
    requires 8 <= i && j < 4
    ensures Added(key, i, j)
      == if i % 8 == 0 then Xor(SBox(Bytes(W(key, i - 1))[(j + 1) % 4]), if j == 0 then Rc(i / 8 - 1) else 0)
         else if i % 8 == 4 then SBox(Bytes(W(key, i - 1))[j]) else Bytes(W(key, i - 1))[j]
  {
    hide W, SBox, Xor, Rc, Bytes;
  }

  lemma XorBytes(v: Word, w: Word, i: nat)
    requires i < 4
    ensures Bytes(XorWord(v, w))[i] == Xor(Bytes(v)[i], Bytes(w)[i])
  {
    hide Xor;
  }

  // ---------------------------------------------------------------- the rolling key buffer

  /** Word j of the buffer after one step forward with round constant `rc`. */
  function NextWord(k: Key, rc: bv8, j: nat): Word
    requires j < 8
  {
    if j == 0 then XorWord(k[0], XorWord(SubWord(RotWord(k[7])), Word(rc, 0, 0, 0)))
    else if j == 4 then XorWord(k[4], SubWord(NextWord(k, rc, 3)))
    else XorWord(k[j], NextWord(k, rc, j - 1))
  }

  /** The same byte by byte. */
  lemma NextBytes(k: Key, rc: bv8, j: nat, i: nat)
    requires j < 8 && i < 4
    ensures Bytes(NextWord(k, rc, j))[i]
      == Xor(Bytes(k[j])[i],
             if j == 0 then Xor(SBox(Bytes(k[7])[(i + 1) % 4]), if i == 0 then rc else 0)
             else if j == 4 then SBox(Bytes(NextWord(k, rc, 3))[i])
             else Bytes(NextWord(k, rc, j - 1))[i])
  {
    hide Xor, SBox;
    var v := NextWord(k, rc, j);
    assert v == if j == 0 then XorWord(k[0], XorWord(SubWord(RotWord(k[7])), Word(rc, 0, 0, 0)))
      else if j == 4 then XorWord(k[4], SubWord(NextWord(k, rc, 3)))
      else XorWord(k[j], NextWord(k, rc, j - 1));
  }

  function NextKey(k: Key, rc: bv8): Key {
    seq(8, j requires 0 <= j < 8 => NextWord(k, rc, j))
  }

  /** Word j of the buffer after one step back. */
  function PrevWord(k: Key, rc: bv8, j: nat): Word
    requires j < 8
    decreases if j == 0 then 1 else 0
  {
    if j == 0 then XorWord(k[0], XorWord(SubWord(RotWord(PrevWord(k, rc, 7))), Word(rc, 0, 0, 0)))
    else if j == 4 then XorWord(k[4], SubWord(k[3]))
    else XorWord(k[j], k[j - 1])
  }

  function PrevKey(k: Key, rc: bv8): Key {
    seq(8, j requires 0 <= j < 8 => PrevWord(k, rc, j))
  }

  /** The buffer after n steps forward. */
  function Rolled(key: Key, n: nat): Key {
    if n == 0 then key else NextKey(Rolled(key, n - 1), Rc(n - 1))
  }

  /** The buffer after n steps holds words 8n to 8n + 7 of the schedule. */
  lemma {:induction false} RolledIsSchedule(key: Key, n: nat, j: nat)
    requires j < 8
    ensures Rolled(key, n)[j] == W(key, 8 * n + j)
    decreases n, j
  {
    hide SubWord, RotWord, XorWord;
    if n > 0 {
      RolledIsSchedule(key, n - 1, j);
      if j == 0 {
        RolledIsSchedule(key, n - 1, 7);
      } else {
        RolledIsSchedule(key, n, j - 1);
      }
    }
  }

  lemma XorWordSelf(v: Word, w: Word)
    ensures XorWord(XorWord(v, w), w) == v
  {
    hide Xor;
    XorSelf(v.b0, w.b0);
    XorSelf(v.b1, w.b1);
    XorSelf(v.b2, w.b2);
    XorSelf(v.b3, w.b3);
  }

  /** A step back undoes a step forward. */
  lemma NextUndone(k: Key, rc: bv8)
    ensures PrevKey(NextKey(k, rc), rc) == k
  {
    hide NextWord, PrevWord;
    forall j | 0 <= j < 8 ensures PrevKey(NextKey(k, rc), rc)[j] == k[j] { NextUndoneWord(k, rc, j); }
  }

  lemma NextUndoneWord(k: Key, rc: bv8, j: nat)
    requires j < 8
    ensures PrevWord(NextKey(k, rc), rc, j) == k[j]
    decreases if j == 0 then 1 else 0
  {
    hide SubWord, RotWord, XorWord;
    var n := NextKey(k, rc);
    assert n[j] == NextWord(k, rc, j);
    if j == 0 {
      NextUndoneWord(k, rc, 7);
      XorWordSelf(k[0], XorWord(SubWord(RotWord(k[7])), Word(rc, 0, 0, 0)));
    } else {
      assert n[j - 1] == NextWord(k, rc, j - 1);
      XorWordSelf(k[j], if j == 4 then SubWord(NextWord(k, rc, 3)) else NextWord(k, rc, j - 1));
    }
  }

  /** And a step forward a step back. */
  lemma {:induction false} PrevUndone(k: Key, rc: bv8, j: nat)
    requires j < 8
    ensures NextWord(PrevKey(k, rc), rc, j) == k[j]
  {
    hide SubWord, RotWord, XorWord;
    var p := PrevKey(k, rc);
    assert p[j] == PrevWord(k, rc, j) && p[7] == PrevWord(k, rc, 7);
    if j == 0 {
      XorWordSelf(k[0], XorWord(SubWord(RotWord(p[7])), Word(rc, 0, 0, 0)));
    } else {
      PrevUndone(k, rc, j - 1);
      XorWordSelf(k[j], if j == 4 then SubWord(k[3]) else k[j - 1]);
    }
  }

  /** The macros F and FD of the source, which step the round constant forwards and back. */
  function F(x: bv8): bv8 {
    (x << 1) ^ (if (x >> 7) & 1 == 1 then 0x1b else 0)
  }

  function Fd(x: bv8): bv8 {
    (x >> 1) ^ (if x & 1 != 0 then 0x8d else 0)
  }

  lemma RoundConstants(x: bv8)
    ensures F(x) == Xtime(x) && Fd(F(x)) == x
  {
  }

  lemma LastRoundConstant()
    ensures Rc(7) == 0x80
  {
    assert Rc(1) == 2 && Rc(2) == 4 && Rc(3) == 8 && Rc(4) == 16 && Rc(5) == 32 && Rc(6) == 64;
  }

  // ---------------------------------------------------------------- cipher and inverse (sections 5.1 and 5.3)

  /** The state after the initial key and `r` full rounds. */
  function Rounds(key: Key, s: State, r: nat): State {
    if r == 0 then AddRoundKey(s, RoundKey(key, 0))
    else AddRoundKey(MixColumns(ShiftRows(SubBytes(Rounds(key, s, r - 1)))), RoundKey(key, r))
  }

  function Cipher(key: Key, s: State): State {
    AddRoundKey(ShiftRows(SubBytes(Rounds(key, s, 13))), RoundKey(key, 14))
  }

  /** The state of the inverse cipher when rounds 13 down to r + 1 are undone and round r is about to be. */
  function Unrounds(key: Key, s: State, r: nat): State
    requires r <= 13
    decreases 13 - r
  {
    if r == 13 then InvSubBytes(InvShiftRows(AddRoundKey(s, RoundKey(key, 14))))
    else InvSubBytes(InvShiftRows(InvMixColumns(AddRoundKey(Unrounds(key, s, r + 1), RoundKey(key, r + 1)))))
  }

  function InvCipher(key: Key, s: State): State {
    AddRoundKey(Unrounds(key, s, 0), RoundKey(key, 0))
  }

  lemma {:induction false} UnroundsMeetRounds(key: Key, s: State, r: nat)
    requires r <= 13
    ensures Unrounds(key, Cipher(key, s), r) == Rounds(key, s, r)
    decreases 13 - r
  {
    hide SubBytes, InvSubBytes, ShiftRows, InvShiftRows, MixColumns, InvMixColumns, AddRoundKey, RoundKey;
    var u := Rounds(key, s, r);
    SubBytesUndone(u);
    ShiftRowsUndone(SubBytes(u));
    if r == 13 {
      AddRoundKeyUndone(ShiftRows(SubBytes(u)), RoundKey(key, 14));
    } else {
      UnroundsMeetRounds(key, s, r + 1);
      MixColumnsUndone(ShiftRows(SubBytes(u)));
      AddRoundKeyUndone(MixColumns(ShiftRows(SubBytes(u))), RoundKey(key, r + 1));
    }
  }

  /** Decryption undoes encryption, for every key and block. */
  lemma DecryptEncrypt(key: Key, s: State)
    ensures InvCipher(key, Cipher(key, s)) == s
  {
    hide AddRoundKey, RoundKey;
    UnroundsMeetRounds(key, s, 0);
    AddRoundKeyUndone(s, RoundKey(key, 0));
  }
}
