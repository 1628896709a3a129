/** flmul and fldiv of float.as. Products are shifted down as they are formed, so that most low bits are lost early;
    the results are the nearest floats all the same. */
module FloatMulDiv {
  import opened Bytes
  import opened Z80
  import opened Division
  import opened Rounding
  import opened FloatKernels

  // ---------------------------------------------------------------- products of naturals

  function Prod(m: nat, x: nat): nat {
    m * x
  }

  /** What the lowest bit of `a` contributes. */
  function Part(a: nat, w: nat): nat {
    if a % 2 == 1 then w else 0
  }

  lemma ProdPart(m: nat, x: nat, a: nat, w: nat)
    ensures Prod(m, x + Part(a, w)) == Prod(m, x) + Part(a, Prod(m, w))
  {
  }

  lemma ProdDouble(m: nat, w: nat)
    ensures Prod(m, 2 * w) == 2 * Prod(m, w) == Prod(2 * m, w)
  {
  }

  lemma ProdUnits(m: nat)
    ensures Prod(m, 0) == 0 && Prod(m, 1) == m && Prod(m, 64) == 64 * m
  {
  }

  lemma ProdBound(m: nat, x: nat, n: nat)
    requires m < 0x100_0000 && x < n
    ensures Prod(m, x) <= 0x100_0000 * n - 0x100_0000
  {
    NonNegative(0xFF_FFFF - m, x);
    assert 0xFF_FFFF * x == m * x + (0xFF_FFFF - m) * x;
  }

  // ---------------------------------------------------------------- the multiplier, bit by bit

  /** `done` is the part of the multiplier `a0` seen in its lowest bits, below `w`; `a` is the rest. */
  ghost predicate Seen(a0: nat, a: nat, w: nat, done: nat) {
    a0 == done + w * a && done < w
  }

  lemma SeenStart(a: nat)
    ensures Seen(a, a, 1, 0)
  {
  }

  lemma SeenStep(a0: nat, a: nat, w: nat, done: nat)
    requires Seen(a0, a, w, done)
    ensures Seen(a0, a / 2, 2 * w, done + Part(a, w))
  {
    assert w * a == 2 * w * (a / 2) + w * (a % 2);
  }

  lemma SeenBound(a0: nat, a: nat, w: nat, done: nat)
    requires Seen(a0, a, w, done)
    ensures done < w
  {
  }

  lemma SeenAll(a: byte, a': nat, done: nat)
    requires Seen(a, a', 256, done)
    ensures done == a
  {
  }

  /** One step of the first six: the product takes in the multiplicand, which doubles. */
  method AddShift(a': nat, phi: word, plo: word, mhi: word, mlo: word, ghost m: nat, ghost done: nat, ghost w: nat)
    returns (phi': word, plo': word, mhi': word, mlo': word)
    requires m < 0x100_0000 && done < w <= 32 && Long(phi, plo) == Prod(m, done) && Long(mhi, mlo) == Prod(m, w)
    ensures Long(phi', plo') == Prod(m, done + Part(a', w)) && Long(mhi', mlo') == Prod(m, 2 * w)
  {
    hide Long, Prod;
    ProdPart(m, done, a', w);
    ProdDouble(m, w);
    ProdBound(m, done + Part(a', w), 64);
    ProdBound(m, w, 33);
    phi', plo' := phi, plo;
    if a' % 2 == 1 {
      var s := AddLong(phi, plo, mhi, mlo);
      phi', plo' := s.hi, s.lo;
    }
    var t := AddLong(mhi, mlo, mhi, mlo);
    mhi', mlo' := t.hi, t.lo;
  }

  /** mult26: the first eight bits; the multiplicand goes up six places, the product down one. The product comes
      out halved. */
  method Mult26(a: byte, mhi: word, mlo: word) returns (phi: word, plo: word, mhi': word, mlo': word)
    requires Long(mhi, mlo) < 0x100_0000
    ensures Long(mhi', mlo') == 64 * Long(mhi, mlo)
    ensures Long(phi, plo) == Prod(Long(mhi, mlo), a) / 2 && Long(phi, plo) < 0x8000_0000
  {
    ghost var m := Long(mhi, mlo);
    ZeroLong();
    hide Long, Prod, Seen, Part;
    phi, plo, mhi', mlo' := 0, 0, mhi, mlo;
    var b, a' := 6, a;
    ghost var w: nat, done: nat := 1, 0;
    ProdUnits(m);
    SeenStart(a);
    while b > 0
      invariant 0 <= b <= 6 && a' >= 0 && w == (if b == 6 then 1 else if b == 5 then 2 else if b == 4 then 4 else
        if b == 3 then 8 else if b == 2 then 16 else if b == 1 then 32 else 64)
      invariant Seen(a, a', w, done) && Long(phi, plo) == Prod(m, done) && Long(mhi', mlo') == Prod(m, w)
    {
      SeenBound(a, a', w, done);
      SeenStep(a, a', w, done);
      phi, plo, mhi', mlo' := AddShift(a', phi, plo, mhi', mlo', m, done, w);
      done, w := done + Part(a', w), 2 * w;
      a' := a' / 2;
      b := b - 1;
    }
    phi, plo := LastTwo(a, a', done, m, phi, plo, mhi', mlo');
  }

  lemma LastBit(a: byte, a': nat, done: nat, m: nat)
    requires m < 0x100_0000 && Seen(a, a', 128, done)
    ensures a' < 2 && Prod(m, a) == Prod(m, done) + Part(a', 128 * m)
    ensures Prod(m, done) <= 0x7F00_0000
  {
    assert a' < 2;
    ProdPart(m, done, a', 128);
    ProdBound(m, done, 128);
  }

  /** The last two bits of the first byte, with one shift between them. */
  method LastTwo(a: byte, a': nat, ghost done: nat, ghost m: nat, phi: word, plo: word, mhi: word, mlo: word)
    returns (phi': word, plo': word)
    requires m < 0x100_0000 && Seen(a, a', 64, done) && Long(phi, plo) == Prod(m, done) && Long(mhi, mlo) == 64 * m
    ensures Long(phi', plo') == Prod(m, a) / 2 && Long(phi', plo') < 0x8000_0000
  {
    hide Long, Prod, Seen;
    phi', plo' := phi, plo;
    SeenStep(a, a', 64, done);
    ghost var d7 := done + Part(a', 64);
    LastBit(a, a' / 2, d7, m);
    ProdPart(m, done, a', 64);
    ProdUnits(m);
    if a' % 2 == 1 {
      var s := AddLong(phi', plo', mhi, mlo);
      phi', plo' := s.hi, s.lo;
    }
    var r := RrLong(phi', plo', false);
    phi', plo' := r.hi, r.lo;
    if a' / 2 % 2 == 1 {
      var s := AddLong(phi', plo', mhi, mlo);
      phi', plo' := s.hi, s.lo;
    }
  }

  /** One step of mult8. */
  method ShiftAdd(a': nat, phi: word, plo: word, mhi: word, mlo: word) returns (phi': word, plo': word)
    requires Long(phi, plo) < 0x8000_0000 && Long(mhi, mlo) < 0x4000_0000
    ensures Long(phi', plo') == Long(phi, plo) / 2 + Part(a', Long(mhi, mlo)) && Long(phi', plo') < 0x8000_0000
  {
    hide Long;
    var s := RrLong(phi, plo, false);
    phi', plo' := s.hi, s.lo;
    if a' % 2 == 1 {
      s := AddLong(phi', plo', mhi, mlo);
      phi', plo' := s.hi, s.lo;
    }
  }

  lemma KeptStep(p: nat, w: nat, r: nat, p0: nat, x: nat, done: nat, a': nat) returns (r': nat)
    requires Kept(p, w, r, p0 + 2 * Prod(x, done))
    ensures Kept(p / 2 + Part(a', x), 2 * w, r', p0 + 2 * Prod(x, done + Part(a', w)))
  {
    hide Kept, Prod;
    var t := p0 + 2 * Prod(x, done);
    r' := r + p % 2 * w;
    KeptShift(p, w, r, t);
    ProdPart(x, done, a', w);
    if a' % 2 == 1 {
      KeptAdd(p / 2, 2 * w, r', t, x);
      ProdIs(x, w);
    }
  }

  lemma ProdIs(x: nat, w: nat)
    ensures x * (2 * w) == 2 * Prod(x, w)
  {
  }

  lemma KeptStart(p: nat, x: nat)
    ensures Kept(p, 1, 0, p + 2 * Prod(x, 0))
  {
  }

  /** mult8: eight more bits, shifting the product down before each. */
  method Mult8(a: byte, phi: word, plo: word, mhi: word, mlo: word) returns (phi': word, plo': word)
    requires Long(phi, plo) < 0x8000_0000 && Long(mhi, mlo) < 0x4000_0000
    ensures Long(phi', plo') == (Long(phi, plo) + 2 * Prod(Long(mhi, mlo), a)) / 256 && Long(phi', plo') < 0x8000_0000
  {
    hide Long, Kept, Seen, Part, Prod;
    phi', plo' := phi, plo;
    ghost var p0, x := Long(phi, plo), Long(mhi, mlo);
    var b, a' := 8, a;
    ghost var w: nat, done: nat, r: nat := 1, 0, 0;
    SeenStart(a);
    KeptStart(p0, x);
    while b > 0
      invariant 0 <= b <= 8 && a' >= 0 && w == Pow2(8 - b) && Seen(a, a', w, done) && Long(phi', plo') < 0x8000_0000
      invariant Kept(Long(phi', plo'), w, r, p0 + 2 * Prod(x, done))
    {
      SeenStep(a, a', w, done);
      r := KeptStep(Long(phi', plo'), w, r, p0, x, done, a');
      phi', plo' := ShiftAdd(a', phi', plo', mhi, mlo);
      done, w := done + Part(a', w), 2 * w;
      a' := a' / 2;
      b := b - 1;
    }
    ByteWide();
    SeenAll(a, a', done);
    KeptQuotient(Long(phi', plo'), 256, r, p0 + 2 * Prod(x, done));
  }

  lemma ProdBytes(m: nat, a0: byte, a1: byte, a2: byte)
    ensures Prod(m, Three(a2, a1, a0)) == 0x1_0000 * Prod(m, a2) + 0x100 * Prod(m, a1) + Prod(m, a0)
    ensures Prod(64 * m, a1) == 64 * Prod(m, a1) && Prod(64 * m, a2) == 64 * Prod(m, a2)
  {
  }

  lemma Nested(x: nat, y: nat, z: nat)
    ensures ((x / 2 + 128 * y) / 256 + 128 * z) / 256 == (0x1_0000 * z + 0x100 * y + x) / 0x2_0000
  {
    assert x / 2 + 128 * y == (x + 256 * y) / 2;
    assert (x + 256 * y) / 2 / 256 == (x + 256 * y) / 512;
    assert (x + 256 * y) / 512 + 128 * z == (x + 256 * y + 65536 * z) / 512;
  }

  /** The three calls of flmul: the product, 17 places down. */
  method Multiply(left: Float, right: Float) returns (phi: word, plo: word)
    ensures Long(phi, plo) == Prod(Man(left), Man(right)) / 0x2_0000 && Long(phi, plo) < 0x8000_0000
  {
    hide Prod;
    var mhi, mlo: word := left.l, 256 * left.d + left.e;
    assert Long(mhi, mlo) == Man(left);
    phi, plo, mhi, mlo := Mult26(right.e, mhi, mlo);
    phi, plo := Mult8(right.d, phi, plo, mhi, mlo);
    phi, plo := Mult8(right.l, phi, plo, mhi, mlo);
    ProdBytes(Man(left), right.e, right.d, right.l);
    Nested(Prod(Man(left), right.e), Prod(Man(left), right.d), Prod(Man(left), right.l));
  }

  // ---------------------------------------------------------------- down to 24 bits

  /** The common loop: shifts the value right until its top byte, in A, is empty. What comes out is kept in C, and
      nothing is lost: there are at most eight shifts. */
  method ShiftOut(hi: word, lo: word) returns (l: byte, d: byte, e: byte, c: byte, count: nat)
    ensures count <= 8 && 0x100 * Three(l, d, e) + c == Long(hi, lo) * Pow2(8 - count)
    ensures count > 0 ==> 0x100 * Three(l, d, e) + c >= 0x8000_0000
  {
    var a := hi / 256;
    l, d, e, c, count := hi % 256, lo / 256, lo % 256, 0, 0;
    ghost var p := Long(hi, lo);
    assert a * 0x1_0000_0000 + 0x100 * Three(l, d, e) + c == 256 * p == p * Pow2(8) by { ByteWide(); }
    hide Long, Three, Rr, RrThree;
    while a != 0
      invariant 0 <= count <= 8 && a < Pow2(8 - count)
      invariant a * 0x1_0000_0000 + 0x100 * Three(l, d, e) + c == p * Pow2(8 - count)
      invariant count > 0 ==> a * 0x1_0000_0000 + 0x100 * Three(l, d, e) + c >= 0x8000_0000
      decreases a
    {
      assert count < 8 by { if count == 8 { PowNone(); } }
      HalvesEvenly(p, 7 - count);
      var x := Rr(a, false);
      var t := RrThree(l, d, e, x.c);
      var y := Rr(c, t.c);
      a, l, d, e, c := x.b, t.l, t.d, t.e, y.b;
      count := count + 1;
    }
  }

  lemma PowNone()
    ensures Pow2(0) == 1
  {
  }

  lemma HalvesEvenly(p: nat, k: nat)
    ensures p * Pow2(k + 1) == 2 * (p * Pow2(k)) && Pow2(k + 1) == 2 * Pow2(k)
  {
    assert p * (2 * Pow2(k)) == 2 * (p * Pow2(k));
  }

  /** The mantissa and the last bit out make the rounded mantissa. */
  lemma LastBitRounds(m: nat, c: byte, p: nat, s: nat)
    requires 0 < s <= 8 && 0x100 * m + c == p * Pow2(8 - s)
    ensures (if c >= 128 then m + 1 else m) == (p + Pow2(s - 1)) / Pow2(s)
  {
    PowSum(8 - s, s - 1);
    PowSum(8 - s, s);
    assert Pow2(7) == 128 && Pow2(8) == 256 by { ByteWide(); }
    var k, w, q := Pow2(8 - s), Pow2(s), if c >= 128 then m + 1 else m;
    assert w == 2 * Pow2(s - 1);
    assert (p + Pow2(s - 1)) * k == 0x100 * m + c + 128 by { assert (p + Pow2(s - 1)) * k == p * k + Pow2(s - 1) * k; }
    hide Pow2;
    Scaled(p + w / 2, k, w, q, (c + 128) % 256);
  }

  /** A quotient is found from any multiple of dividend and divisor. */
  lemma Scaled(x: nat, k: nat, w: nat, q: nat, r: nat)
    requires k > 0 && w > 0 && x * k == q * (k * w) + r && r < k * w
    ensures x / w == q
  {
    var y, z := x / w, x % w;
    assert x == y * w + z;
    assert x * k == y * (k * w) + z * k;
    NonNegative(w - 1 - z, k);
    assert (w - 1 - z) * k == k * w - k - z * k;
    Euclid(x * k, k * w, q, r);
    Euclid(x * k, k * w, y, z * k);
  }

  // ---------------------------------------------------------------- flmul

  /** The number of places a product of two normal mantissas is too long. */
  function Excess(p: nat): nat {
    if p >= 0x8000_0000_0000 then 24 else 23
  }

  lemma ProductRange(m: nat, n: nat)
    requires 0x80_0000 <= m < 0x100_0000 && 0x80_0000 <= n < 0x100_0000
    ensures 0x4000_0000_0000 <= Prod(m, n) < 0x1_0000_0000_0000
  {
    NonNegative(m - 0x80_0000, n);
    assert m * n == (m - 0x80_0000) * n + 0x80_0000 * n;
    NonNegative(0xFF_FFFF - m, n);
    assert 0xFF_FFFF * n == m * n + (0xFF_FFFF - m) * n;
  }

  /** How far a value goes down to 24 bits. */
  lemma CountIs(p: nat, count: nat, v: nat)
    requires count <= 8 && v == p * Pow2(8 - count) && v < 0x1_0000_0000 && (count > 0 ==> v >= 0x8000_0000)
    ensures 0x1000_0000 <= p < 0x2000_0000 ==> count == 5
    ensures 0x2000_0000 <= p < 0x4000_0000 ==> count == 6
    ensures 0x4000_0000 <= p < 0x8000_0000 ==> count == 7
    ensures p == 0 ==> count == 0
  {
    assert Pow2(0) == 1 && Pow2(1) == 2 && Pow2(2) == 4 && Pow2(3) == 8 && Pow2(4) == 16;
    PowSum(4, 1); PowSum(4, 2); PowSum(4, 3); PowSum(4, 4);
    assert Pow2(5) == 32 && Pow2(6) == 64 && Pow2(7) == 128 && Pow2(8) == 256;
    hide Pow2;
    assert count == 0 || count == 1 || count == 2 || count == 3 || count == 4 || count == 5 || count == 6 || count == 7 || count == 8;
  }

  /** The early shifts lose nothing that matters to the rounded product. */
  lemma EarlyShifts(p: nat, s: nat)
    requires s == Excess(p) - 17
    ensures (p / 0x2_0000 + Pow2(s - 1)) / Pow2(s) == HalfUp(p, Pow2(Excess(p)))
  {
    assert Pow2(5) == 32 && Pow2(6) == 64 && Pow2(7) == 128 by { ByteWide(); }
    Pow23();
    assert Pow2(24) == 0x100_0000;
  }

  /** The exponent, as it comes out of the 8-bit arithmetic. */
  function ExponentSum(left: Float, right: Float, count: nat): byte {
    Wrap8(Wrap8(Wrap8(Wrap8(Exp(left) - 0x41) + count) - 6) + Exp(right))
  }

  lemma ExponentSumIs(left: Float, right: Float, count: nat)
    requires count <= 8
    ensures var x := Exp(left) + Exp(right) + count - 71;
      if 0 <= x <= 127 then ExponentSum(left, right, count) == x else ExponentSum(left, right, count) >= 128
  {
    hide Wrap8, Exp;
    var a := Exp(left) - 0x41;
    Wrap8Add(a, count);
    Wrap8Add(a + count, -6);
    Wrap8Add(a + count - 6, Exp(right));
    Wrap8Is(Exp(left) + Exp(right) + count - 71);
  }

  function Product(left: Float, right: Float): Outcome
    requires Normal(left) && Normal(right)
  {
    var p := Prod(Man(left), Man(right));
    RoundedProduct(left, right);
    Outcome24(Negative(left) != Negative(right), Exp(left) + Exp(right) + Excess(p) - 88, HalfUp(p, Pow2(Excess(p))))
  }

  lemma RoundedProduct(left: Float, right: Float)
    requires Normal(left) && Normal(right)
    ensures var p := Prod(Man(left), Man(right)); Leading24(p, Pow2(Excess(p))) && HalfUp(p, Pow2(Excess(p))) <= 0x100_0000
  {
    hide Prod, HalfUp;
    ProductRange(Man(left), Man(right));
    Pow23();
    HalfUpRange(Prod(Man(left), Man(right)), Pow2(Excess(Prod(Man(left), Man(right)))));
  }

  /** What the shifts leave is the product rounded. */
  lemma ProductRounds(left: Float, right: Float, p: nat, x: nat, count: nat, m: nat, c: byte)
    requires Normal(left) && Normal(right) && p == Prod(Man(left), Man(right)) && x == p / 0x2_0000
    requires count <= 8 && 0x100 * m + c == x * Pow2(8 - count) < 0x1_0000_0000
    requires count > 0 ==> 0x100 * m + c >= 0x8000_0000
    ensures count == Excess(p) - 17 && m >= 0x80_0000
    ensures (if c >= 128 then m + 1 else m) == HalfUp(p, Pow2(Excess(p)))
  {
    hide Prod, HalfUp, Pow2;
    ProductRange(Man(left), Man(right));
    CountIs(x, count, 0x100 * m + c);
    EarlyShifts(p, count);
    LastBitRounds(m, c, x, count);
  }

  lemma NoProduct(m: nat, n: nat, x: nat, count: nat, v: nat)
    requires (m == 0 || n == 0) && x == Prod(m, n) / 0x2_0000 && count <= 8 && v == x * Pow2(8 - count)
    ensures v == 0
  {
    hide Pow2;
    assert m * n == 0;
  }

  lemma TopByte(l: byte, d: byte, e: byte)
    ensures l >= 128 <==> Three(l, d, e) >= 0x80_0000
  {
  }

  /** Sign and exponent are put to the mantissa, and it is rounded. */
  method Conclude(neg: bool, a: byte, l: byte, d: byte, e: byte, c: byte) returns (r: Float)
    requires a < 128
    ensures r == Outcome24(neg, a, if c >= 128 then Three(l, d, e) + 1 else Three(l, d, e)).f
  {
    r := Float((if neg then 128 else 0) + a, l, d, e);
    MakeOf(r);
    RoundUpOutcome(neg, a, Three(l, d, e));
    hide Outcome24, Make, Three;
    if c >= 128 {
      r := Round(r);
    } else {
      PlainOutcome(neg, a, Three(l, d, e));
    }
  }

  lemma PlainOutcome(neg: bool, e: nat, m: nat)
    requires e < 128 && m < 0x100_0000
    ensures Outcome24(neg, e, m) == Outcome(Make(neg, e, m), false)
  {
  }

  lemma Flagged(neg: bool, e: int, q: nat)
    requires q <= 0x100_0000
    ensures Outcome24(neg, e, q).flag <==> e < 0 || e > 127
    ensures Outcome24(neg, e, q).flag ==> Outcome24(neg, e, q).f == ZERO
  {
  }

  /** The product, or zero if an operand has no mantissa. */
  method Flmul(left: Float, right: Float) returns (r: Float, flag: bool)
    ensures Normal(left) && Normal(right) ==> Outcome(r, flag) == Product(left, right)
    ensures Man(left) == 0 || Man(right) == 0 ==> r == ZERO && !flag
  {
    hide Prod, ExponentSum, HalfUp, Outcome24, Make, Three, Excess, Exp;
    var phi, plo := Multiply(left, right);
    ghost var p, x := Prod(Man(left), Man(right)), Long(phi, plo);
    hide Long, Man;
    var l, d, e, c, count := ShiftOut(phi, plo);
    TopByte(l, d, e);
    if Man(left) == 0 || Man(right) == 0 {
      NoProduct(Man(left), Man(right), x, count, x * Pow2(8 - count));
    }
    if Normal(left) && Normal(right) {
      ProductRounds(left, right, p, x, count, Three(l, d, e), c);
      RoundedProduct(left, right);
      Flagged(Negative(left) != Negative(right), Exp(left) + Exp(right) + Excess(p) - 88, HalfUp(p, Pow2(Excess(p))));
    }
    if l < 128 {
      return ZERO, false;
    }
    var a := ExponentSum(left, right, count);
    ExponentSumIs(left, right, count);
    if a >= 128 {
      return ZERO, true;
    }
    flag := false;
    r := Conclude((left.h >= 128) != (right.h >= 128), a, l, d, e, c);
  }

  // ---------------------------------------------------------------- fldiv

  /** After `j` of the subtractions: quotient `q`, remainder `r`, which has been shifted up. */
  ghost predicate Divided(n: nat, d: nat, w: nat, q: nat, r: nat) {
    n * w == 2 * (q * d) + r && r < 2 * d && q < w
  }

  lemma DividedStep(n: nat, d: nat, w: nat, q: nat, r: nat)
    requires Divided(n, d, w, q, r)
    ensures if r >= d then Divided(n, d, 2 * w, 2 * q + 1, 2 * (r - d)) else Divided(n, d, 2 * w, 2 * q, 2 * r)
  {
    assert n * (2 * w) == 2 * (n * w);
    assert (2 * q) * d == 2 * (q * d) && (2 * q + 1) * d == 2 * (q * d) + d;
  }

  lemma DividedBounds(n: nat, d: nat, w: nat, q: nat, r: nat)
    requires Divided(n, d, w, q, r)
    ensures r < 2 * d && q < w
  {
  }

  lemma DividedStart(n: nat, d: nat)
    requires n < 2 * d
    ensures Divided(n, d, 1, 0, n)
  {
    assert n * 1 == n && 0 * d == 0;
  }

  /** A quotient bit: subtract if it goes, shift the bit in and the rest up. */
  method DivideBit(hi: word, lo: word, dhi: word, dlo: word, qhi: word, qlo: word)
    returns (hi': word, lo': word, qhi': word, qlo': word)
    requires Long(hi, lo) < 2 * Long(dhi, dlo) < 0x200_0000 && Long(qhi, qlo) < 0x4000_0000
    ensures var r, d, q := Long(hi, lo), Long(dhi, dlo), Long(qhi, qlo);
      if r >= d then Long(hi', lo') == 2 * (r - d) && Long(qhi', qlo') == 2 * q + 1
      else Long(hi', lo') == 2 * r && Long(qhi', qlo') == 2 * q
  {
    hide Long;
    hi', lo' := hi, lo;
    var t := SubLong(hi, lo, dhi, dlo);
    if !t.c {
      hi', lo' := t.hi, t.lo;
    }
    var u := RlLong(qhi, qlo, !t.c);
    qhi', qlo' := u.hi, u.lo;
    u := AddLong(hi', lo', hi', lo');
    hi', lo' := u.hi, u.lo;
  }

  /** The loop of thirty quotient bits. */
  method DivideLoop(hi: word, lo: word, dhi: word, dlo: word) returns (qhi: word, qlo: word, ghost r: nat)
    requires Long(hi, lo) < 2 * Long(dhi, dlo) < 0x200_0000
    ensures Divided(Long(hi, lo), Long(dhi, dlo), 0x4000_0000, Long(qhi, qlo), r)
  {
    ghost var n, d := Long(hi, lo), Long(dhi, dlo);
    ZeroLong();
    hide Long, Divided, Pow2;
    qhi, qlo := 0, 0;
    var hi', lo', count := hi, lo, 30;
    ghost var w: nat := 1;
    DividedStart(n, d);
    PowZero();
    while count > 0
      invariant 0 <= count <= 30 && w == Pow2(30 - count)
      invariant Divided(n, d, w, Long(qhi, qlo), Long(hi', lo'))
    {
      DividedBounds(n, d, w, Long(qhi, qlo), Long(hi', lo'));
      DividedStep(n, d, w, Long(qhi, qlo), Long(hi', lo'));
      Pow30(30 - count);
      hi', lo', qhi, qlo := DivideBit(hi', lo', dhi, dlo, qhi, qlo);
      w := 2 * w;
      count := count - 1;
    }
    Pow30(29);
    r := Long(hi', lo');
  }

  method Divide(left: Float, right: Float) returns (qhi: word, qlo: word)
    requires Normal(right)
    ensures Long(qhi, qlo) == Man(left) * 0x2000_0000 / Man(right)
  {
    var hi, lo: word, dhi: word, dlo: word := left.l, 256 * left.d + left.e, right.l, 256 * right.d + right.e;
    assert Long(hi, lo) == Man(left) && Long(dhi, dlo) == Man(right) && Man(right) >= 0x80_0000;
    hide Long, Man, Divided;
    ghost var r;
    qhi, qlo, r := DivideLoop(hi, lo, dhi, dlo);
    DividedEnd(Man(left), Man(right), Long(qhi, qlo), r);
  }

  lemma PowZero()
    ensures Pow2(0) == 1
  {
  }

  lemma Pow30(n: int)
    requires 0 <= n < 30
    ensures Pow2(n + 1) == 2 * Pow2(n) && Pow2(n) <= 0x2000_0000 && Pow2(30) == 0x4000_0000
  {
    Pow23();
    assert Pow2(30) == 0x4000_0000;
    PowGrows(n, 29);
  }

  lemma DividedEnd(n: nat, d: nat, q: nat, r: nat)
    requires Divided(n, d, 0x4000_0000, q, r) && d > 0
    ensures q == n * 0x2000_0000 / d
  {
    assert n * 0x4000_0000 == 2 * (n * 0x2000_0000);
    Euclid(n * 0x2000_0000, d, q, r / 2);
  }

  /** A quotient of normal mantissas has 24 places before the point after going up this much. */
  function Lift(n: nat, d: nat): nat {
    if n >= d then 23 else 24
  }

  lemma QuotientRange(n: nat, d: nat)
    requires 0x80_0000 <= n < 0x100_0000 && 0x80_0000 <= d < 0x100_0000
    ensures if n >= d then 0x2000_0000 <= n * 0x2000_0000 / d < 0x4000_0000
            else 0x1000_0000 <= n * 0x2000_0000 / d < 0x2000_0000
    ensures Leading24(n * Pow2(Lift(n, d)), d)
  {
    Pow23();
    assert Pow2(24) == 0x100_0000;
    var x := n * 0x2000_0000;
    var q := x / d;
    assert x == q * d + x % d;
    AtLeast(q, d, x % d, if n >= d then 0x2000_0000 else 0x1000_0000);
    AtMost(q, d, x % d, if n >= d then 0x4000_0000 else 0x2000_0000);
  }

  lemma AtLeast(q: nat, d: nat, r: nat, k: nat)
    requires r < d && q * d + r >= k * d
    ensures q >= k
  {
    assert k * d == q * d + d + (k - 1 - q) * d;
    if q < k { NonNegative(k - 1 - q, d); }
  }

  lemma AtMost(q: nat, d: nat, r: nat, k: nat)
    requires q * d + r < k * d
    ensures q < k
  {
    assert q * d == k * d + (q - k) * d;
    if q >= k { NonNegative(q - k, d); }
  }

  /** Rounding the truncated quotient is rounding the quotient. */
  lemma LateRounding(n: nat, d: nat, s: nat)
    requires d > 0 && s == 29 - Lift(n, d)
    ensures (n * 0x2000_0000 / d + Pow2(s - 1)) / Pow2(s) == HalfUp(n * Pow2(Lift(n, d)), d)
  {
    Pow23();
    assert Pow2(24) == 0x100_0000 && Pow2(4) == 16 && Pow2(5) == 32 && Pow2(6) == 64;
    var x, h: nat := n * 0x2000_0000, Pow2(s - 1);
    var y := n * Pow2(Lift(n, d));
    assert x == 2 * h * y;
    var q := x / d;
    assert x == q * d + x % d;
    var z := (q + h) / (2 * h);
    assert q + h == z * (2 * h) + (q + h) % (2 * h);
    hide Pow2;
    Composed(x, d, h, y, q, z, (q + h) % (2 * h));
  }

  lemma Composed(x: nat, d: nat, h: nat, y: nat, q: nat, z: nat, r: nat)
    requires d > 0 && h > 0 && x == 2 * h * y && x == q * d + x % d && q + h == z * (2 * h) + r && r < 2 * h
    ensures z == HalfUp(y, d)
  {
    // h (2y + d) = x + h d = (q + h) d + x % d = z (2 h d) + r d + x % d
    var e := r * d + x % d;
    assert (q + h) * d == q * d + h * d;
    assert (z * (2 * h) + r) * d == z * (2 * h * d) + r * d;
    NonNegative(2 * h - 1 - r, d);
    assert (2 * h - 1 - r) * d == 2 * h * d - d - r * d;
    assert h * (2 * y + d) == 2 * h * y + h * d;
    assert z * (h * (2 * d)) == z * (2 * h * d);
    Scaled(2 * y + d, h, 2 * d, z, e);
  }

  function Quotient(left: Float, right: Float): Outcome
    requires Normal(left) && Normal(right)
  {
    var n, d := Man(left), Man(right);
    RoundedQuotient(left, right);
    Outcome24(Negative(left) != Negative(right), Exp(left) - Exp(right) + 88 - Lift(n, d), HalfUp(n * Pow2(Lift(n, d)), d))
  }

  lemma RoundedQuotient(left: Float, right: Float)
    requires Normal(left) && Normal(right)
    ensures var n, d := Man(left), Man(right);
      Leading24(n * Pow2(Lift(n, d)), d) && 0x80_0000 <= HalfUp(n * Pow2(Lift(n, d)), d) <= 0x100_0000
  {
    var n, d := Man(left), Man(right);
    hide Pow2, HalfUp;
    QuotientRange(n, d);
    HalfUpRange(n * Pow2(Lift(n, d)), d);
  }

  lemma QuotientRounds(left: Float, right: Float, x: nat, count: nat, m: nat, c: byte)
    requires Normal(left) && Normal(right) && x == Man(left) * 0x2000_0000 / Man(right)
    requires count <= 8 && 0x100 * m + c == x * Pow2(8 - count) < 0x1_0000_0000
    requires count > 0 ==> 0x100 * m + c >= 0x8000_0000
    ensures var n, d := Man(left), Man(right);
      count == 29 - Lift(n, d) && (if c >= 128 then m + 1 else m) == HalfUp(n * Pow2(Lift(n, d)), d)
  {
    hide HalfUp, Pow2;
    QuotientRange(Man(left), Man(right));
    CountIs(x, count, 0x100 * m + c);
    LateRounding(Man(left), Man(right), count);
    LastBitRounds(m, c, x, count);
  }

  function ExponentDifference(left: Float, right: Float, count: nat): byte {
    Wrap8(Wrap8(Wrap8(Exp(left) - Exp(right)) + 59) + count)
  }

  lemma ExponentDifferenceIs(left: Float, right: Float, count: nat)
    requires count <= 8
    ensures var x := Exp(left) - Exp(right) + 59 + count;
      if 0 <= x <= 127 then ExponentDifference(left, right, count) == x
      else ExponentDifference(left, right, count) >= 128
  {
    hide Wrap8, Exp;
    var a := Exp(left) - Exp(right);
    Wrap8Add(a, 59);
    Wrap8Add(a + 59, count);
    Wrap8Is(a + 59 + count);
  }

  lemma NormalOutcome(neg: bool, e: int, q: nat)
    requires 0x80_0000 <= q <= 0x100_0000
    ensures Outcome24(neg, e, q).flag || Normal(Outcome24(neg, e, q).f)
  {
  }

  lemma NoQuotient(m: nat, x: nat, d: nat, v: nat, count: nat)
    requires m == 0 && d > 0 && x == m * 0x2000_0000 / d && count <= 8 && v == x * Pow2(8 - count)
    ensures x == 0 && v == 0
  {
    hide Pow2;
    Euclid(0, d, 0, 0);
  }

  /** The quotient. A zero dividend gives zero, but the exponents are looked at first: the flag goes up when they are
      too far apart. */
  method Fldiv(left: Float, right: Float) returns (r: Float, flag: bool)
    requires Normal(right)
    ensures Normal(left) ==> Outcome(r, flag) == Quotient(left, right)
    ensures Man(left) == 0 ==> r == ZERO && (flag <==> !(0 <= Exp(left) - Exp(right) + 59 <= 127))
  {
    hide ExponentDifference, HalfUp, Outcome24, Make, Three, Lift, Exp, Pow2;
    var qhi, qlo := Divide(left, right);
    ghost var n, d, x := Man(left), Man(right), Long(qhi, qlo);
    assert d > 0 by { TopByte(right.l, right.d, right.e); }
    hide Long, Man;
    var l, m, e, c, count := ShiftOut(qhi, qlo);
    var a := ExponentDifference(left, right, count);
    ExponentDifferenceIs(left, right, count);
    ghost var q := if c >= 128 then Three(l, m, e) + 1 else Three(l, m, e);
    if Normal(left) {
      QuotientRounds(left, right, x, count, Three(l, m, e), c);
      RoundedQuotient(left, right);
      Flagged(Negative(left) != Negative(right), Exp(left) - Exp(right) + 88 - Lift(n, d), q);
      NormalOutcome(Negative(left) != Negative(right), a, q);
    }
    if n == 0 {
      NoQuotient(n, x, d, x * Pow2(8 - count), count);
      CountIs(0, count, 0);
      MakeParts((left.h >= 128) != (right.h >= 128), if a < 128 then a else 0, 0);
    }
    if a >= 128 {
      return ZERO, true;
    }
    r := Conclude((left.h >= 128) != (right.h >= 128), a, l, m, e, c);
    if n == 0 {
      PlainOutcome((left.h >= 128) != (right.h >= 128), a, 0);
    }
    if Normal(r) { NormalAlready(r); }
    r, flag := Fpnorm(r);
  }
}
