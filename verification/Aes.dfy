/** The steps of AES-256 as functions on bytes, words and states: sections 4 and 5 of FIPS 197, and that each
    step of testaes.c undoes its partner. A state is 16 bytes, column by column. */
module Aes {
  import opened Gf

  // ---------------------------------------------------------------- the S-box (section 5.1.1)

  /** The least logarithm from `i` on, or 0 after a full turn of the 8-bit counter. */
  function LogFrom(x: bv8, i: nat): (k: nat)
    requires i <= 256
    ensures k < 256
    decreases 256 - i
  {
    if i == 256 then 0 else if Alog(i) == x then i else LogFrom(x, i + 1)
  }

  function MulInv(x: bv8): bv8 {
    if x == 0 then 0 else Alog(255 - LogFrom(x, 0))
  }

  lemma {:induction false} LogFound(x: bv8, i: nat, k: nat)
    requires i <= k < 256 && Alog(k) == x
    ensures LogFrom(x, i) <= k && Alog(LogFrom(x, i)) == x
    decreases k - i
  {
    hide Triple;
    if Alog(i) != x { LogFound(x, i + 1, k); }
  }

  lemma LogWorks(x: bv8)
    requires x != 0
    ensures LogFrom(x, 0) < 255 && Alog(LogFrom(x, 0)) == x
  {
    Generates(x);
    var k :| 0 <= k < 255 && Alog(k) == x;
    LogFound(x, 0, k);
  }

  lemma {:induction false} AlogNonZero(n: nat)
    ensures Alog(n) != 0
  {
    if n > 0 { AlogNonZero(n - 1); }
  }

  /** It is the multiplicative inverse. */
  lemma MulInvWorks(x: bv8)
    requires x != 0
    ensures Mul(x, MulInv(x)) == 1 && MulInv(x) != 0
  {
    LogWorks(x);
    var l := LogFrom(x, 0);
    hide Mul, Triple, LogFrom;
    AlogSum(l, 255 - l);
    Generates(x);
    AlogNonZero(255 - l);
  }

  lemma MulInvTwice(x: bv8)
    ensures MulInv(MulInv(x)) == x
  {
    if x != 0 {
      MulInvWorks(x);
      LogWorks(x);
      LogWorks(MulInv(x));
      var l, k := LogFrom(x, 0), LogFrom(MulInv(x), 0);
      hide Mul, Triple, LogFrom;
      Generates(x);
      // x = 3^l = 3^(l + k + (255 - k)) = (3^l 3^k) 3^(255 - k) = 3^(255 - k)
      AlogSum(l, 255 - l);
      AlogSum(l, k);
      AlogSum(l + k, 255 - k);
      AlogSum(l, 255);
      MulOne(Alog(l));
      AlogSum(0, 255 - k);
    }
  }

  /** Rotations as the source writes them. */
  function Rot(y: bv8): bv8 {
    (y << 1) | (y >> 7)
  }

  function Affine(y: bv8): bv8 {
    var y1 := Rot(y);
    var y2 := Rot(y1);
    var y3 := Rot(y2);
    var y4 := Rot(y3);
    y ^ y1 ^ y2 ^ y3 ^ y4 ^ 0x63
  }

  function InvAffine(x: bv8): bv8 {
    var y := x ^ 0x63;
    var y1 := Rot(y);
    var y3 := (y1 << 2) | (y1 >> 6);
    var y6 := (y3 << 3) | (y3 >> 5);
    y1 ^ y3 ^ y6
  }

  function SBox(x: bv8): bv8 {
    Affine(MulInv(x))
  }

  function InvSBox(x: bv8): bv8 {
    MulInv(InvAffine(x))
  }

  function Bit(b: bv8, i: nat): bv8
    requires i < 8
  {
    (b >> i) & 1
  }

  /** The affine map is that of equation 5.1: bit i is the sum of bits i, i+4, i+5, i+6 and i+7 and of bit i of 63. */
  lemma AffineBitsLower(y: bv8)
    ensures Bit(Affine(y), 0) == Bit(y, 0) ^ Bit(y, 4) ^ Bit(y, 5) ^ Bit(y, 6) ^ Bit(y, 7) ^ Bit(0x63, 0)
    ensures Bit(Affine(y), 1) == Bit(y, 1) ^ Bit(y, 5) ^ Bit(y, 6) ^ Bit(y, 7) ^ Bit(y, 0) ^ Bit(0x63, 1)
    ensures Bit(Affine(y), 2) == Bit(y, 2) ^ Bit(y, 6) ^ Bit(y, 7) ^ Bit(y, 0) ^ Bit(y, 1) ^ Bit(0x63, 2)
    ensures Bit(Affine(y), 3) == Bit(y, 3) ^ Bit(y, 7) ^ Bit(y, 0) ^ Bit(y, 1) ^ Bit(y, 2) ^ Bit(0x63, 3)
  {
  }

  lemma AffineBitsUpper(y: bv8)
    ensures Bit(Affine(y), 4) == Bit(y, 4) ^ Bit(y, 0) ^ Bit(y, 1) ^ Bit(y, 2) ^ Bit(y, 3) ^ Bit(0x63, 4)
    ensures Bit(Affine(y), 5) == Bit(y, 5) ^ Bit(y, 1) ^ Bit(y, 2) ^ Bit(y, 3) ^ Bit(y, 4) ^ Bit(0x63, 5)
    ensures Bit(Affine(y), 6) == Bit(y, 6) ^ Bit(y, 2) ^ Bit(y, 3) ^ Bit(y, 4) ^ Bit(y, 5) ^ Bit(0x63, 6)
    ensures Bit(Affine(y), 7) == Bit(y, 7) ^ Bit(y, 3) ^ Bit(y, 4) ^ Bit(y, 5) ^ Bit(y, 6) ^ Bit(0x63, 7)
  {
  }

  lemma AffineUndone(y: bv8)
    ensures InvAffine(Affine(y)) == y
  {
  }

  lemma SBoxUndone(x: bv8)
    ensures InvSBox(SBox(x)) == x
  {
    hide MulInv, Affine, InvAffine;
    AffineUndone(MulInv(x));
    MulInvTwice(x);
  }

  // ---------------------------------------------------------------- columns (sections 5.1.3 and 5.3.3)

  /** Sums of several terms. Functions of their own, so that proofs need not look inside them. */
  function Sum3(a: bv8, b: bv8, c: bv8): bv8 {
    a ^ b ^ c
  }

  function Sum4(a: bv8, b: bv8, c: bv8, d: bv8): bv8 {
    a ^ b ^ c ^ d
  }

  function Sum5(a: bv8, b: bv8, c: bv8, d: bv8, e: bv8): bv8 {
    a ^ b ^ c ^ d ^ e
  }

  function Last(a: bv8, x: bv8, t: bv8): bv8 {
    a ^ (x ^ t)
  }

  /** One byte of a mixed column: the matrix row 2 3 1 1. */
  function Mix(a: bv8, b: bv8, c: bv8, d: bv8): bv8 {
    Sum4(Mul(2, a), Mul(3, b), c, d)
  }

  /** One byte of an unmixed column: the matrix row e b d 9. */
  function Unmix(a: bv8, b: bv8, c: bv8, d: bv8): bv8 {
    Sum4(Mul(0xe, a), Mul(0xb, b), Mul(0xd, c), Mul(9, d))
  }

  /** The same as the source computes them, with doublings instead of multiplications. */
  function MixCode(a: bv8, b: bv8, c: bv8, d: bv8): bv8 {
    Last(a, Sum4(a, b, c, d), Xtime(Xor(a, b)))
  }

  function UnmixCode(a: bv8, b: bv8, c: bv8, d: bv8): bv8 {
    var e := Sum4(a, b, c, d);
    var z := Xtime(e);
    Last(a, Xor(e, Xtime(Xtime(Sum3(z, a, c)))), Xtime(Xor(a, b)))
  }

  lemma {:induction false} MulBitsZero(b: bv8, n: nat)
    ensures MulBits(0, b, n) == 0
    decreases n
  {
    hide Xtime;
    if n > 0 { MulBitsZero(Xtime(b), n - 1); }
  }

  lemma XorAssoc(a: bv8, b: bv8, c: bv8)
    ensures Xor(a, Xor(b, c)) == Xor(Xor(a, b), c)
  {
  }

  /** The multiples the matrices use, as sums of doublings. */
  lemma MulSmall(b: bv8)
    ensures Mul(2, b) == Xtime(b)
    ensures Mul(3, b) == Xor(b, Xtime(b))
    ensures Mul(9, b) == Xor(b, Xtime(Xtime(Xtime(b))))
    ensures Mul(0xb, b) == Xor(Xor(b, Xtime(b)), Xtime(Xtime(Xtime(b))))
    ensures Mul(0xd, b) == Xor(Xor(b, Xtime(Xtime(b))), Xtime(Xtime(Xtime(b))))
    ensures Mul(0xe, b) == Xor(Xor(Xtime(b), Xtime(Xtime(b))), Xtime(Xtime(Xtime(b))))
  {
    hide Xor, Xtime;
    var p := Xtime(b);
    var q := Xtime(p);
    var r := Xtime(q);
    MulBitsZero(q, 6);
    MulBitsZero(Xtime(r), 4);
    XorZero(p);
    XorZero(q);
    XorZero(r);
    assert MulBits(1, p, 7) == p;
    assert MulBits(1, r, 5) == r;
    assert MulBits(2, q, 6) == r;
    assert MulBits(3, q, 6) == Xor(q, r);
    XorZero(Xor(q, r));
    assert MulBits(4, p, 7) == r;
    assert MulBits(5, p, 7) == Xor(p, r);
    assert MulBits(6, p, 7) == Xor(q, r);
    assert MulBits(7, p, 7) == Xor(p, Xor(q, r));
    XorZero(Xor(p, Xor(q, r)));
    XorAssoc(b, p, r);
    XorAssoc(b, q, r);
    XorAssoc(p, q, r);
  }

  // Rearrangements of sums, for whatever terms. Each is stated on the bare operator first.

  lemma MixedTerms(a: bv8, b: bv8, c: bv8, d: bv8, pa: bv8, pb: bv8)
    ensures a ^ ((a ^ b ^ c ^ d) ^ (pa ^ pb))
         == b ^ c ^ d ^ pa ^ pb
  {
  }

  lemma Mixed(a: bv8, b: bv8, c: bv8, d: bv8, pa: bv8, pb: bv8)
    ensures Last(a, Sum4(a, b, c, d), Xor(pa, pb))
         == Sum5(b, c, d, pa, pb)
  {
    MixedTerms(a, b, c, d, pa, pb);
  }

  lemma MixedRowTerms(b: bv8, c: bv8, d: bv8, pa: bv8, pb: bv8)
    ensures pa ^ (b ^ pb) ^ c ^ d
         == b ^ c ^ d ^ pa ^ pb
  {
  }

  lemma MixedRow(b: bv8, c: bv8, d: bv8, pa: bv8, pb: bv8)
    ensures Sum4(pa, Xor(b, pb), c, d)
         == Sum5(b, c, d, pa, pb)
  {
    MixedRowTerms(b, c, d, pa, pb);
  }

  lemma ColumnSumTerms(a: bv8, b: bv8, c: bv8, d: bv8, pa: bv8, pb: bv8, pc: bv8, pd: bv8)
    ensures (b ^ c ^ d ^ pa ^ pb) ^ (c ^ d ^ a ^ pb ^ pc) ^ (d ^ a ^ b ^ pc ^ pd) ^ (a ^ b ^ c ^ pd ^ pa)
         == a ^ b ^ c ^ d
  {
  }

  lemma ColumnSum(a: bv8, b: bv8, c: bv8, d: bv8, pa: bv8, pb: bv8, pc: bv8, pd: bv8)
    ensures Sum4(Sum5(b, c, d, pa, pb), Sum5(c, d, a, pb, pc), Sum5(d, a, b, pc, pd), Sum5(a, b, c, pd, pa))
         == Sum4(a, b, c, d)
  {
    ColumnSumTerms(a, b, c, d, pa, pb, pc, pd);
  }

  lemma AcrossSumTerms(a: bv8, b: bv8, c: bv8, d: bv8, pa: bv8, pb: bv8, pc: bv8, pd: bv8)
    ensures (pa ^ pb ^ pc ^ pd) ^ (b ^ c ^ d ^ pa ^ pb) ^ (d ^ a ^ b ^ pc ^ pd)
         == a ^ c
  {
  }

  lemma AcrossSum(a: bv8, b: bv8, c: bv8, d: bv8, pa: bv8, pb: bv8, pc: bv8, pd: bv8)
    ensures Sum3(Sum4(pa, pb, pc, pd), Sum5(b, c, d, pa, pb), Sum5(d, a, b, pc, pd))
         == Xor(a, c)
  {
    AcrossSumTerms(a, b, c, d, pa, pb, pc, pd);
  }

  lemma NextSumTerms(a: bv8, b: bv8, c: bv8, d: bv8, pa: bv8, pb: bv8, pc: bv8)
    ensures (b ^ c ^ d ^ pa ^ pb) ^ (c ^ d ^ a ^ pb ^ pc)
         == a ^ b ^ pa ^ pc
  {
  }

  lemma NextSum(a: bv8, b: bv8, c: bv8, d: bv8, pa: bv8, pb: bv8, pc: bv8)
    ensures Xor(Sum5(b, c, d, pa, pb), Sum5(c, d, a, pb, pc))
         == Sum4(a, b, pa, pc)
  {
    NextSumTerms(a, b, c, d, pa, pb, pc);
  }

  lemma RestoredTerms(a: bv8, b: bv8, c: bv8, d: bv8, pa: bv8, pb: bv8, qa: bv8, qc: bv8)
    ensures (b ^ c ^ d ^ pa ^ pb) ^ (((a ^ b ^ c ^ d) ^ (qa ^ qc)) ^ (pa ^ pb ^ qa ^ qc))
         == a
  {
  }

  lemma Restored(a: bv8, b: bv8, c: bv8, d: bv8, pa: bv8, pb: bv8, qa: bv8, qc: bv8)
    ensures Last(Sum5(b, c, d, pa, pb), Xor(Sum4(a, b, c, d), Xor(qa, qc)), Sum4(pa, pb, qa, qc))
         == a
  {
    RestoredTerms(a, b, c, d, pa, pb, qa, qc);
  }

  lemma Split(ua: bv8, ub: bv8, uc: bv8, ud: bv8, ra: bv8, rb: bv8, rc: bv8, rd: bv8)
    ensures Sum4(Xor(ua, ra), Xor(ub, rb), Xor(uc, rc), Xor(ud, rd)) == Xor(Sum4(ua, ub, uc, ud), Sum4(ra, rb, rc, rd))
  {
    hide Xor, Sum4;
    Sum4Nested(Xor(ua, ra), Xor(ub, rb), Xor(uc, rc), Xor(ud, rd));
    Sum4Nested(ua, ub, uc, ud);
    Sum4Nested(ra, rb, rc, rd);
    XorFour(ua, ra, ub, rb);
    XorFour(uc, rc, ud, rd);
    XorFour(Xor(ua, ub), Xor(ra, rb), Xor(uc, ud), Xor(rc, rd));
  }

  lemma UnmixedTerms(a: bv8, b: bv8, c: bv8, d: bv8, pa: bv8, pb: bv8, qa: bv8, qc: bv8, r: bv8)
    ensures a ^ (((a ^ b ^ c ^ d) ^ (r ^ qa ^ qc)) ^ (pa ^ pb)) == ((pa ^ qa) ^ (b ^ pb) ^ (c ^ qc) ^ d) ^ r
  {
  }

  lemma Unmixed(a: bv8, b: bv8, c: bv8, d: bv8, pa: bv8, pb: bv8, qa: bv8, qc: bv8, r: bv8)
    ensures Last(a, Xor(Sum4(a, b, c, d), Sum3(r, qa, qc)), Xor(pa, pb))
         == Xor(Sum4(Xor(pa, qa), Xor(b, pb), Xor(c, qc), d), r)
  {
    UnmixedTerms(a, b, c, d, pa, pb, qa, qc, r);
  }

  lemma XtimeSum4(a: bv8, b: bv8, c: bv8, d: bv8)
    ensures Xtime(Sum4(a, b, c, d)) == Sum4(Xtime(a), Xtime(b), Xtime(c), Xtime(d))
  {
    hide Xtime, Xor;
    Sum4Nested(a, b, c, d);
    Sum4Nested(Xtime(a), Xtime(b), Xtime(c), Xtime(d));
    hide Sum4;
    XtimeSum(Xor(a, b), Xor(c, d));
    XtimeSum(a, b);
    XtimeSum(c, d);
  }

  lemma Sum4Nested(a: bv8, b: bv8, c: bv8, d: bv8)
    ensures Sum4(a, b, c, d) == Xor(Xor(a, b), Xor(c, d))
  {
    XorPairs(a, b, c, d);
    NestedTerms(a, b, c, d);
    hide Xor;
  }

  lemma NestedTerms(a: bv8, b: bv8, c: bv8, d: bv8)
    ensures a ^ b ^ c ^ d == (a ^ b) ^ (c ^ d)
  {
  }

  lemma Sum3Nested(a: bv8, b: bv8, c: bv8)
    ensures Sum3(a, b, c) == Xor(Xor(a, b), c)
  {
  }

  /** The source's mixing is the matrix's. */
  lemma MixCodeIsMix(a: bv8, b: bv8, c: bv8, d: bv8)
    ensures MixCode(a, b, c, d) == Mix(a, b, c, d)
    ensures Mix(a, b, c, d) == Sum5(b, c, d, Xtime(a), Xtime(b))
  {
    hide Xor, Xtime, Mul, Sum4, Sum5, Last;
    XtimeSum(a, b);
    Mixed(a, b, c, d, Xtime(a), Xtime(b));
    MixedRow(b, c, d, Xtime(a), Xtime(b));
    MulSmall(a);
    MulSmall(b);
  }

  /** So is its unmixing. */
  lemma UnmixCodeIsUnmix(a: bv8, b: bv8, c: bv8, d: bv8)
    ensures UnmixCode(a, b, c, d) == Unmix(a, b, c, d)
  {
    hide Xor, Xtime, Mul, Sum3, Sum4, Last;
    XtimeSum(a, b);
    var z := Xtime(Sum4(a, b, c, d));
    var pa, pc := Xtime(a), Xtime(c);
    XtimeSum4(a, b, c, d);
    XtimeSum4(pa, Xtime(b), pc, Xtime(d));
    XtimeSum4(Xtime(pa), Xtime(Xtime(b)), Xtime(pc), Xtime(Xtime(d)));
    XtimeSum3(z, a, c);
    XtimeSum3(Xtime(z), pa, pc);
    var ra, rb, rc, rd := Xtime(Xtime(pa)), Xtime(Xtime(Xtime(b))), Xtime(Xtime(pc)), Xtime(Xtime(Xtime(d)));
    Unmixed(a, b, c, d, pa, Xtime(b), Xtime(pa), Xtime(pc), Sum4(ra, rb, rc, rd));
    Split(Xor(pa, Xtime(pa)), Xor(b, Xtime(b)), Xor(c, Xtime(pc)), d, ra, rb, rc, rd);
    MulSmall(a);
    MulSmall(b);
    MulSmall(c);
    MulSmall(d);
  }

  lemma XtimeSum3(a: bv8, b: bv8, c: bv8)
    ensures Xtime(Sum3(a, b, c)) == Sum3(Xtime(a), Xtime(b), Xtime(c))
  {
    hide Xtime, Xor, Sum3;
    Sum3Nested(a, b, c);
    Sum3Nested(Xtime(a), Xtime(b), Xtime(c));
    XtimeSum(Xor(a, b), c);
    XtimeSum(a, b);
  }

  /** The inverse matrix undoes the matrix, row by row. */
  lemma UnmixUndoesMix(a: bv8, b: bv8, c: bv8, d: bv8)
    ensures Unmix(Mix(a, b, c, d), Mix(b, c, d, a), Mix(c, d, a, b), Mix(d, a, b, c)) == a
  {
    hide Xor, Xtime, Mul, Sum3, Sum4, Sum5, Last, Mix, Unmix;
    var pa, pb, pc, pd := Xtime(a), Xtime(b), Xtime(c), Xtime(d);
    MixCodeIsMix(a, b, c, d);
    MixCodeIsMix(b, c, d, a);
    MixCodeIsMix(c, d, a, b);
    MixCodeIsMix(d, a, b, c);
    UnmixCodeIsUnmix(Mix(a, b, c, d), Mix(b, c, d, a), Mix(c, d, a, b), Mix(d, a, b, c));
    ColumnSum(a, b, c, d, pa, pb, pc, pd);
    XtimeSum4(a, b, c, d);
    AcrossSum(a, b, c, d, pa, pb, pc, pd);
    XtimeSum(a, c);
    XtimeSum(pa, pc);
    NextSum(a, b, c, d, pa, pb, pc);
    XtimeSum4(a, b, pa, pc);
    Restored(a, b, c, d, pa, pb, Xtime(pa), Xtime(pc));
  }
}
