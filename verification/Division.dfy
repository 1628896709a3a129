/** idiv.as and ldiv.as: division by shifting the divisor up and then down again, with quotient bits gathered on the
    way down; the signed forms work on absolute values. */
module Division {
  import opened Bytes
  import opened Z80

  /** C's quotient and remainder: truncated towards zero, the remainder with the sign of the dividend. */
  function Quot(a: int, b: int): int
    requires b != 0
  {
    var q := Abs(a) / Abs(b);
    if (a < 0) == (b < 0) then q else -q
  }

  function Rem(a: int, b: int): int
    requires b != 0
  {
    var r := Abs(a) % Abs(b);
    if a < 0 then -r else r
  }

  function Abs(a: int): nat {
    if a < 0 then -a else a
  }

  /** What makes them the right functions: there are no others like them. */
  lemma QuotRem(a: int, b: int)
    requires b != 0
    ensures a == Quot(a, b) * b + Rem(a, b) && Abs(Rem(a, b)) < Abs(b)
    ensures Rem(a, b) != 0 ==> (Rem(a, b) < 0 <==> a < 0)
  {
    var q, r := Abs(a) / Abs(b), Abs(a) % Abs(b);
    assert Abs(a) == q * Abs(b) + r;
    assert Quot(a, b) * b == q * Abs(b) || Quot(a, b) * b == -(q * Abs(b));
  }

  lemma QuotRemUnique(a: int, b: int, q: int, r: int)
    requires b != 0 && a == q * b + r && Abs(r) < Abs(b) && (r != 0 ==> (r < 0 <==> a < 0))
    ensures q == Quot(a, b) && r == Rem(a, b)
  {
    QuotRem(a, b);
    var q', r' := Quot(a, b), Rem(a, b);
    assert (q - q') * b == r' - r;
    Multiple(q - q', b, r' - r);
  }

  lemma NonNegative(a: int, b: int)
    requires a >= 0 && b >= 0
    ensures a * b >= 0
  {
  }

  lemma Multiple(k: int, b: int, d: int)
    requires b != 0 && k * b == d && Abs(d) < Abs(b)
    ensures k == 0
  {
    var c, e := Abs(b), if b < 0 then -d else d;
    assert k * c == e;
    assert k * c == (k - 1) * c + c && k * c == -((-k - 1) * c) - c;
    if k > 0 {
      NonNegative(k - 1, c);
    } else if k < 0 {
      NonNegative(-k - 1, c);
    }
  }

  // ---------------------------------------------------------------- shifting up and down

  /** On the way down: `q` quotient bits so far, remainder `r`, divisor `s` now shifted up `n` places from `d`. */
  ghost predicate Dividing(a: nat, d: nat, s: nat, n: nat, q: nat, r: nat) {
    s == d * Pow2(n) && a == 2 * q * s + r && r < 2 * s
  }

  /** One step: compare, subtract, shift. */
  lemma DivideStep(a: nat, d: nat, s: nat, n: nat, q: nat, r: nat)
    requires Dividing(a, d, s, n, q, r) && n > 0
    ensures s % 2 == 0
    ensures if r >= s then Dividing(a, d, s / 2, n - 1, 2 * q + 1, r - s) else Dividing(a, d, s / 2, n - 1, 2 * q, r)
  {
    var h := d * Pow2(n - 1);
    assert s == 2 * h;
    assert 2 * q * s == 2 * (2 * q) * h;
    assert 2 * (2 * q + 1) * h == 2 * (2 * q) * h + s;
  }

  /** The last step. */
  lemma DivideEnd(a: nat, d: nat, q: nat, r: nat)
    requires Dividing(a, d, d, 0, q, r) && d > 0
    ensures if r >= d then a / d == 2 * q + 1 && a % d == r - d else a / d == 2 * q && a % d == r
  {
    if r >= d {
      assert (2 * q + 1) * d == 2 * q * d + d;
      Euclid(a, d, 2 * q + 1, r - d);
    } else {
      Euclid(a, d, 2 * q, r);
    }
  }

  lemma Euclid(a: nat, d: nat, q: nat, r: nat)
    requires d > 0 && a == q * d + r && r < d
    ensures a / d == q && a % d == r
  {
    assert a == a / d * d + a % d;
    var k := q - a / d;
    assert k * d == a % d - r;
    Multiple(k, d, a % d - r);
  }

  /** The quotient so far fits the register. */
  lemma QuotientFits(a: nat, d: nat, s: nat, n: nat, q: nat, r: nat)
    requires Dividing(a, d, s, n, q, r) && d > 0
    ensures 2 * q <= a
  {
    PowPositive(d, n);
    NonNegative(2 * q, s - 1);
    assert 2 * q * s == 2 * q * (s - 1) + 2 * q;
  }

  lemma PowPositive(d: nat, n: nat)
    requires d > 0
    ensures d * Pow2(n) >= 1
  {
    NonNegative(d - 1, Pow2(n));
    assert d * Pow2(n) == (d - 1) * Pow2(n) + Pow2(n);
  }

  // ---------------------------------------------------------------- 16 bits

  method Negat(hl: word) returns (r: word)
    ensures r == if hl == 0 then 0 else 0x1_0000 - hl
    ensures Signed16(hl) != -0x8000 ==> Signed16(r) == -Signed16(hl)
  {
    r := Sbc(0, hl, false).w;
  }

  method Negif(hl: word) returns (r: word)
    ensures r == Abs(Signed16(hl))
  {
    r := hl;
    if hl >= 0x8000 {
      r := Negat(hl);
    }
  }

  /** From label dv1, with dividend in DE and divisor in HL. */
  method Divide16(de: word, hl: word) returns (quotient: word, remainder: word)
    ensures hl == 0 ==> quotient == 0 && remainder == de
    ensures hl != 0 ==> quotient == de / hl && remainder == de % hl
  {
    if hl == 0 {
      return 0, de;
    }
    var s, b := hl, 1;
    while true
      invariant 1 <= b && s == hl * Pow2(b - 1) && s >= b
      decreases 0x1_0000 - b
    {
      var t := Adc(s, s, false);
      if t.c || de < t.w {
        break;
      }
      s := t.w;
      b := b + 1;
    }
    quotient, remainder := ShiftDown(de, hl, s, b);
  }

  /** From label dv4. */
  method ShiftDown(a: word, ghost d: word, divisor: word, count: nat) returns (quotient: word, remainder: word)
    requires 0 < count && 0 < d && divisor == d * Pow2(count - 1) && a < 2 * divisor
    ensures quotient == a / d && remainder == a % d
  {
    hide Dividing, Pow2;
    var s, b := divisor, count;
    quotient, remainder := 0, a;
    assert Dividing(a, d, s, b - 1, 0, a) by { DivideStart(a, d, s, b - 1); }
    while true
      invariant 0 < b && Dividing(a, d, s, b - 1, quotient, remainder)
      decreases b
    {
      QuotientFits(a, d, s, b - 1, quotient, remainder);
      DivideBounds(a, d, s, b - 1, quotient, remainder);
      if b > 1 {
        DivideStep(a, d, s, b - 1, quotient, remainder);
      } else {
        DivideEnd(a, d, quotient, remainder);
      }
      var less := remainder < s;
      if !less {
        remainder := Sbc(remainder, s, false).w;
      }
      quotient := Adc(quotient, quotient, !less).w;
      s := RrPair(s, false).w;
      b := b - 1;
      if b == 0 {
        return;
      }
    }
  }

  lemma DivideStart(a: nat, d: nat, s: nat, n: nat)
    requires s == d * Pow2(n) && a < 2 * s
    ensures Dividing(a, d, s, n, 0, a)
  {
  }

  lemma DivideBounds(a: nat, d: nat, s: nat, n: nat, q: nat, r: nat)
    requires Dividing(a, d, s, n, q, r)
    ensures n == 0 ==> s == d
  {
  }

  /** ldiv and lmod: unsigned. */
  method Ldiv(hl: word, de: word) returns (quotient: word, remainder: word)
    ensures de != 0 ==> quotient == hl / de && remainder == hl % de
    ensures de == 0 ==> quotient == 0 && remainder == hl
  {
    quotient, remainder := Divide16(hl, de);
  }

  /** adiv and amod: signed. The quotient is modulo the word size, which matters for -32768 / -1 only. */
  method Adiv(hl: word, de: word) returns (quotient: word, remainder: word)
    ensures de != 0 ==>
      && (Signed16(quotient) - Quot(Signed16(hl), Signed16(de))) % 0x1_0000 == 0
      && Signed16(remainder) == Rem(Signed16(hl), Signed16(de))
    ensures de == 0 ==> quotient == 0 && remainder == Abs(Signed16(hl))
  {
    var signs := (hl >= 0x8000) != (de >= 0x8000);
    var dividend := Negif(hl);
    var divisor := Negif(de);
    quotient, remainder := Divide16(dividend, divisor);
    if divisor == 0 {
      return;
    }
    ghost var q, r := quotient, remainder;
    RemSmall(dividend, divisor);
    if signs {
      quotient := Negat(quotient);
    }
    if hl >= 0x8000 {
      remainder := Negat(remainder);
    }
  }

  lemma RemSmall(a: nat, b: nat)
    requires b > 0
    ensures a / b <= a && a % b < b && a % b <= a
  {
    var q := a / b;
    assert a == q * b + a % b;
    NonNegative(q, b - 1);
    assert q * b == q * (b - 1) + q;
    NonNegative(q, b);
  }

  // ---------------------------------------------------------------- 32 bits

  /** negat, for the high and low words of a long. */
  method NegatLong(hi: word, lo: word) returns (hi': word, lo': word)
    ensures Long(hi', lo') == if Long(hi, lo) == 0 then 0 else 0x1_0000_0000 - Long(hi, lo)
    ensures Signed32(Long(hi, lo)) != -0x8000_0000 ==> Signed32(Long(hi', lo')) == -Signed32(Long(hi, lo))
  {
    var r := SubLong(0, 0, hi, lo);
    hi', lo' := r.hi, r.lo;
  }

  method NegifLong(hi: word, lo: word) returns (hi': word, lo': word)
    ensures Long(hi', lo') == Abs(Signed32(Long(hi, lo)))
  {
    hi', lo' := hi, lo;
    if hi >= 0x8000 {
      hi', lo' := NegatLong(hi, lo);
    }
  }

  /** divide: the divisor goes up as long as it does not exceed the dividend or lose its top bit. */
  method Divide32(hi: word, lo: word, dhi: word, dlo: word) returns (qhi: word, qlo: word, rhi: word, rlo: word)
    ensures Long(dhi, dlo) == 0 ==> Long(qhi, qlo) == 0 && rhi == hi && rlo == lo
    ensures Long(dhi, dlo) != 0 ==>
      Long(qhi, qlo) == Long(hi, lo) / Long(dhi, dlo) && Long(rhi, rlo) == Long(hi, lo) % Long(dhi, dlo)
  {
    if dhi == 0 && dlo == 0 {
      return 0, 0, hi, lo;
    }
    ZeroOnly(dhi, dlo);
    hide Long;
    var shi, slo, count := ShiftUpLong(hi, lo, dhi, dlo);
    qhi, qlo, rhi, rlo := ShiftDownLong(hi, lo, Long(dhi, dlo), shi, slo, count);
  }

  lemma ZeroOnly(hi: word, lo: word)
    ensures Long(hi, lo) == 0 <==> hi == 0 && lo == 0
  {
  }

  /** The loop that shifts the divisor up. */
  method ShiftUpLong(hi: word, lo: word, dhi: word, dlo: word) returns (shi: word, slo: word, count: nat)
    requires Long(dhi, dlo) > 0
    ensures 0 < count && Long(shi, slo) == Long(dhi, dlo) * Pow2(count - 1) && Long(hi, lo) < 2 * Long(shi, slo)
  {
    ghost var d := Long(dhi, dlo);
    hide Long, Pow2;
    shi, slo, count := dhi, dlo, 1;
    PowTimes(d, 0);
    while shi < 0x8000
      invariant 1 <= count && Long(shi, slo) == d * Pow2(count - 1) && Long(shi, slo) >= count
      decreases 0x1_0000_0000 - count
    {
      var t := SubLong(hi, lo, shi, slo);
      if t.c {
        break;
      }
      TopClear(shi, slo);
      PowTimes(d, count - 1);
      var u := AddLong(shi, slo, shi, slo);
      shi, slo := u.hi, u.lo;
      count := count + 1;
    }
    NotHalf(shi, slo);
  }

  lemma PowTimes(d: nat, n: nat)
    ensures d * Pow2(0) == d && d * Pow2(n + 1) == 2 * (d * Pow2(n))
  {
    assert Pow2(0) == 1;
    assert d * (2 * Pow2(n)) == 2 * (d * Pow2(n));
  }

  lemma TopClear(hi: word, lo: word)
    requires hi < 0x8000
    ensures Long(hi, lo) < 0x8000_0000
  {
  }

  lemma NotHalf(hi: word, lo: word)
    ensures hi >= 0x8000 ==> Long(hi, lo) >= 0x8000_0000
  {
  }

  lemma ZeroLong()
    ensures Long(0, 0) == 0
  {
  }

  /** One quotient bit: compare, subtract if it goes, shift the bit in and the divisor down. */
  method QuotientBit(rhi: word, rlo: word, shi: word, slo: word, qhi: word, qlo: word)
    returns (rhi': word, rlo': word, shi': word, slo': word, qhi': word, qlo': word)
    requires Long(qhi, qlo) < 0x8000_0000
    ensures Long(shi', slo') == Long(shi, slo) / 2
    ensures var r, s, q := Long(rhi, rlo), Long(shi, slo), Long(qhi, qlo);
      if r >= s then Long(rhi', rlo') == r - s && Long(qhi', qlo') == 2 * q + 1
      else Long(rhi', rlo') == r && Long(qhi', qlo') == 2 * q
  {
    hide Long;
    rhi', rlo' := rhi, rlo;
    var t := SubLong(rhi, rlo, shi, slo);
    if !t.c {
      rhi', rlo' := t.hi, t.lo;
    }
    var u := RlLong(qhi, qlo, !t.c);
    qhi', qlo' := u.hi, u.lo;
    u := RrLong(shi, slo, false);
    shi', slo' := u.hi, u.lo;
  }

  /** From the second label 3. */
  method ShiftDownLong(hi: word, lo: word, ghost d: long, dhi: word, dlo: word, count: nat)
    returns (qhi: word, qlo: word, rhi: word, rlo: word)
    requires 0 < count && 0 < d && Long(dhi, dlo) == d * Pow2(count - 1) && Long(hi, lo) < 2 * Long(dhi, dlo)
    ensures Long(qhi, qlo) == Long(hi, lo) / d && Long(rhi, rlo) == Long(hi, lo) % d
  {
    hide Dividing, Pow2, Long;
    ZeroLong();
    ghost var a := Long(hi, lo);
    var shi, slo, n := dhi, dlo, count;
    qhi, qlo, rhi, rlo := 0, 0, hi, lo;
    DivideStart(a, d, Long(shi, slo), n - 1);
    while true
      invariant 0 < n && Dividing(a, d, Long(shi, slo), n - 1, Long(qhi, qlo), Long(rhi, rlo))
      decreases n
    {
      ghost var q, r, s := Long(qhi, qlo), Long(rhi, rlo), Long(shi, slo);
      QuotientFits(a, d, s, n - 1, q, r);
      DivideBounds(a, d, s, n - 1, q, r);
      if n > 1 {
        DivideStep(a, d, s, n - 1, q, r);
      } else {
        DivideEnd(a, d, q, r);
      }
      rhi, rlo, shi, slo, qhi, qlo := QuotientBit(rhi, rlo, shi, slo, qhi, qlo);
      n := n - 1;
      if n == 0 {
        return;
      }
    }
  }

  /** lldiv and llmod. */
  method Lldiv(hi: word, lo: word, dhi: word, dlo: word) returns (qhi: word, qlo: word, rhi: word, rlo: word)
    ensures Long(dhi, dlo) != 0 ==>
      Long(qhi, qlo) == Long(hi, lo) / Long(dhi, dlo) && Long(rhi, rlo) == Long(hi, lo) % Long(dhi, dlo)
    ensures Long(dhi, dlo) == 0 ==> Long(qhi, qlo) == 0 && Long(rhi, rlo) == Long(hi, lo)
  {
    qhi, qlo, rhi, rlo := Divide32(hi, lo, dhi, dlo);
  }

  /** aldiv and almod: the quotient is modulo the word size, which matters for -2147483648 / -1 only. */
  method Aldiv(hi: word, lo: word, dhi: word, dlo: word) returns (qhi: word, qlo: word, rhi: word, rlo: word)
    ensures Long(dhi, dlo) != 0 ==>
      var a, d := Signed32(Long(hi, lo)), Signed32(Long(dhi, dlo));
      && (Signed32(Long(qhi, qlo)) - Quot(a, d)) % 0x1_0000_0000 == 0
      && Signed32(Long(rhi, rlo)) == Rem(a, d)
    ensures Long(dhi, dlo) == 0 ==> Long(qhi, qlo) == 0 && Signed32(Long(rhi, rlo)) == Signed32(Long(hi, lo))
  {
    var ahi, alo := NegifLong(hi, lo);
    var bhi, blo := NegifLong(dhi, dlo);
    qhi, qlo, rhi, rlo := Divide32(ahi, alo, bhi, blo);
    if Long(bhi, blo) != 0 { RemSmall(Long(ahi, alo), Long(bhi, blo)); }
    TopSign(hi, lo);
    TopSign(dhi, dlo);
    hide Long;
    if (hi >= 0x8000) != (dhi >= 0x8000) {
      qhi, qlo := NegatLong(qhi, qlo);
    }
    if hi >= 0x8000 {
      rhi, rlo := NegatLong(rhi, rlo);
    }
  }

  lemma TopSign(hi: word, lo: word)
    ensures hi >= 0x8000 <==> Signed32(Long(hi, lo)) < 0
    ensures -0x8000_0000 <= Signed32(Long(hi, lo)) < 0x8000_0000
  {
  }
}
