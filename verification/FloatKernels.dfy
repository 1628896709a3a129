/** float.as: rounding and normalizing, on register values, and what the loops of multiplication share. */
module FloatKernels {
  import opened Bytes
  import opened Z80
  import opened Rounding
  import opened Division

  // ---------------------------------------------------------------- round and fpnorm

  /** One more in the last place of the mantissa. */
  function RoundUp(f: Float): Float {
    if Man(f) < 0xFF_FFFF then Make(Negative(f), Exp(f), Man(f) + 1)
    else if Exp(f) < 127 then Make(Negative(f), Exp(f) + 1, 0x80_0000)
    else Make(true, 0, 0x80_0000)
  }

  /** round: on a carry out of the mantissa the exponent, sign masked off, goes up by one; from 127 it gets
      into the sign. */
  method Round(f: Float) returns (r: Float)
    ensures r == RoundUp(f)
  {
    var de := Adc(256 * f.d + f.e, 1, false);
    var hl := Adc(f.l, 0, de.c).w;
    Incremented(f, hl, de.w);
    if hl / 256 % 2 == 0 {
      r := Float(f.h, hl % 256, de.w / 256, de.w % 256);
      PlainRound(f, r);
    } else {
      r := CarryOut(f.h, hl, de.w);
      CarriedRound(f, r);
    }
  }

  /** The mantissa shifted down after a carry, and the exponent increased. */
  method CarryOut(h: byte, hl: word, de: word) returns (r: Float)
    requires hl == 256 && de == 0
    ensures Man(r) == 0x80_0000 && r.h == if h % 128 == 127 then 128 else h + 1
  {
    hide Rr, RrThree, Three, ExponentUp;
    var x := Rr(hl / 256, false);
    var l, d, e := hl % 256, de / 256, de % 256;
    assert Three(l, d, e) == 0 by { ThreeZero(); }
    var t := RrThree(l, d, e, x.c);
    r := Float(ExponentUp(h), t.l, t.d, t.e);
  }

  lemma ThreeZero()
    ensures Three(0, 0, 0) == 0
  {
  }

  function ExponentUp(h: byte): (r: byte)
    ensures r == if h % 128 == 127 then 128 else h + 1
  {
    var a := h % 128 + 1;
    if a == 128 then 128 else h / 128 * 128 + a
  }

  lemma Incremented(f: Float, hl: word, de: word)
    requires 0x1_0000 * hl + de == Man(f) + 1
    ensures hl <= 256 && (hl == 256 <==> Man(f) == 0xFF_FFFF) && (hl == 256 ==> de == 0)
    ensures hl < 256 ==> Three(hl, de / 256, de % 256) == Man(f) + 1
  {
  }

  lemma PlainRound(f: Float, r: Float)
    requires Man(f) < 0xFF_FFFF && r.h == f.h && Man(r) == Man(f) + 1
    ensures r == RoundUp(f)
  {
    hide Man, Make;
    MakeParts(Negative(f), Exp(f), Man(f) + 1);
    Same(r, RoundUp(f));
  }

  lemma CarriedRound(f: Float, r: Float)
    requires Man(f) == 0xFF_FFFF && Man(r) == 0x80_0000
    requires r.h == if Exp(f) == 127 then 128 else f.h + 1
    ensures r == RoundUp(f)
  {
    hide Man, Make;
    if Exp(f) < 127 { MakeParts(Negative(f), Exp(f) + 1, 0x80_0000); }
    MakeParts(true, 0, 0x80_0000);
    Same(r, RoundUp(f));
  }

  lemma RoundUpOutcome(neg: bool, e: nat, m: nat)
    requires e <= 127 && m < 0x100_0000
    ensures RoundUp(Make(neg, e, m)) == Outcome24(neg, e, m + 1).f
  {
    MakeParts(neg, e, m);
  }

  /** The places a mantissa must go up to be normal. */
  function Lead(m: nat): (k: nat)
    requires 0 < m < 0x100_0000
    ensures 0x80_0000 <= m * Pow2(k) < 0x100_0000
    decreases 0x100_0000 - m
  {
    if m >= 0x80_0000 then 0 else
      PowStep(m, Lead(2 * m));
      Lead(2 * m) + 1
  }

  function Normalized(f: Float): Outcome {
    if Man(f) == 0 then Outcome(ZERO, false) else Shifted(Negative(f), Exp(f), Man(f))
  }

  /** The mantissa goes up until it is normal, the exponent down with it. */
  function Shifted(neg: bool, exp: nat, m: nat): Outcome
    requires exp < 128 && 0 < m < 0x100_0000
  {
    if Lead(m) > exp then Outcome(ZERO, true)
    else Outcome(Make(neg, exp - Lead(m), m * Pow2(Lead(m))), false)
  }

  /** Normalizing keeps the value, or flags an underflow. */
  lemma NormalizedValue(f: Float)
    ensures !Normalized(f).flag ==> Value(Normalized(f).f) == Value(f) && Size(Normalized(f).f) == Size(f)
    ensures !Normalized(f).flag && Man(f) > 0 ==> Negative(Normalized(f).f) == Negative(f) && Normal(Normalized(f).f)
    ensures Normalized(f).flag ==> 0 < Man(f) && forall c: Float :: Normal(c) ==> Size(f) < Size(c)
  {
    hide Size, Make, Lead, Man, Exp, Pow2, Negative, Normal;
    var m := Man(f);
    if m == 0 {
      ZeroOf(f);
      ZeroSize();
    } else if Lead(m) <= Exp(f) {
      ShiftedValue(f);
    } else {
      forall c: Float | Normal(c) ensures Size(f) < Size(c) { TooSmall(f, c); }
    }
  }

  lemma ZeroOf(f: Float)
    requires Man(f) == 0
    ensures Size(f) == 0.0
  {
    Nothing(Scale(Exp(f) - 88));
  }

  lemma ZeroSize()
    ensures Size(ZERO) == 0.0
  {
    hide Size;
    ZeroOf(ZERO);
  }

  lemma ShiftedValue(f: Float)
    requires 0 < Man(f) && Lead(Man(f)) <= Exp(f)
    ensures var g := Make(Negative(f), Exp(f) - Lead(Man(f)), Man(f) * Pow2(Lead(Man(f))));
      Size(g) == Size(f) && Negative(g) == Negative(f) && Normal(g)
  {
    var m, k := Man(f), Lead(Man(f));
    hide Times, Scale, Lead, Man;
    MakeParts(Negative(f), Exp(f) - k, m * Pow2(k));
    ScaleSum(k, Exp(f) - k - 88);
    ScaleWhole(k);
    TimesWhole(m, Pow2(k));
    TimesAssoc(m as real, Scale(k), Scale(Exp(f) - k - 88));
  }

  lemma Nothing(u: real)
    ensures Times(0.0, u) == 0.0
  {
  }

  lemma TooSmall(f: Float, c: Float)
    requires Man(f) > 0 && Lead(Man(f)) > Exp(f) && Normal(c)
    ensures Size(f) < Size(c)
  {
    var m, x := Man(f), Exp(f);
    LeadLeast(m, x);
    ScaleSum(x, -88);
    ScaleWhole(x);
    TimesWhole(m, Pow2(x));
    hide Times, Scale, Lead;
    TimesAssoc(m as real, Scale(x), Scale(-88));
    TimesOrder((m * Pow2(x)) as real, 8388608.0, Scale(-88));
    ScaleGrows(-88, Exp(c) - 88);
    TimesOrder(Scale(-88), Scale(Exp(c) - 88), 8388608.0);
    TimesCommutes(8388608.0, Scale(-88));
    TimesCommutes(8388608.0, Scale(Exp(c) - 88));
    TimesOrder(8388608.0, Man(c) as real, Scale(Exp(c) - 88));
  }

  lemma {:induction false} LeadLeast(m: nat, x: nat)
    requires 0 < m < 0x100_0000 && x < Lead(m)
    ensures m * Pow2(x) < 0x80_0000
    decreases x
  {
    if x > 0 {
      LeadLeast(2 * m, x - 1);
      assert m * Pow2(x) == 2 * m * Pow2(x - 1);
    }
  }

  lemma LeadStep(m: nat)
    requires 0 < m < 0x80_0000
    ensures Lead(m) == Lead(2 * m) + 1 && m * Pow2(Lead(m)) == 2 * m * Pow2(Lead(2 * m))
  {
    PowStep(m, Lead(2 * m));
  }

  lemma PowStep(m: nat, k: nat)
    ensures m * Pow2(k + 1) == 2 * m * Pow2(k)
  {
    var p := Pow2(k);
    assert m * (2 * p) == 2 * m * p;
  }

  lemma LeadNone(m: nat)
    requires 0x80_0000 <= m < 0x100_0000
    ensures Lead(m) == 0 && m * Pow2(Lead(m)) == m
  {
  }

  lemma ShiftedStep(neg: bool, exp: nat, m: nat)
    requires exp < 128 && 0 < m < 0x80_0000
    ensures Shifted(neg, exp, m) == if exp == 0 then Outcome(ZERO, true) else Shifted(neg, exp - 1, 2 * m)
  {
    LeadStep(m);
    hide Lead, Make;
  }

  lemma ShiftedNone(neg: bool, exp: nat, m: nat)
    requires exp < 128 && 0x80_0000 <= m < 0x100_0000
    ensures Shifted(neg, exp, m) == Outcome(Make(neg, exp, m), false)
  {
    LeadNone(m);
    hide Lead, Make;
  }

  method Fpnorm(f: Float) returns (r: Float, flag: bool)
    ensures Outcome(r, flag) == Normalized(f)
  {
    if f.l == 0 && f.d == 0 && f.e == 0 {
      return ZERO, false;
    }
    var c: int, l, d, e := f.h % 128, f.l, f.d, f.e;
    hide Shifted, Make;
    while l < 128
      invariant 0 <= c <= Exp(f) <= 127 && Three(l, d, e) > 0
      invariant Shifted(Negative(f), c, Three(l, d, e)) == Normalized(f)
      decreases 0x100_0000 - Three(l, d, e)
    {
      ShiftedStep(Negative(f), c, Three(l, d, e));
      c := c - 1;
      if c < 0 {
        return ZERO, true;
      }
      var t := RlThree(l, d, e, false);
      l, d, e := t.l, t.d, t.e;
    }
    ShiftedNone(Negative(f), c, Three(l, d, e));
    r, flag := Float((if f.h >= 128 then 128 else 0) + c, l, d, e), false;
    MakeOf(r);
  }

  lemma NormalAlready(f: Float)
    requires Normal(f)
    ensures Normalized(f) == Outcome(f, false)
  {
    LeadNone(Man(f));
    MakeOf(f);
    hide Lead;
  }

  // ---------------------------------------------------------------- sums shifted down

  /** `p` is `t` divided by `w`, `r` being what has been shifted out. */
  ghost predicate Kept(p: nat, w: nat, r: nat, t: nat) {
    p * w + r == t && r < w
  }

  lemma KeptShift(p: nat, w: nat, r: nat, t: nat)
    requires Kept(p, w, r, t)
    ensures Kept(p / 2, 2 * w, r + p % 2 * w, t)
  {
    assert p * w == (p / 2) * (2 * w) + p % 2 * w;
    assert p % 2 * w <= w;
  }

  lemma KeptAdd(p: nat, w: nat, r: nat, t: nat, x: nat)
    requires Kept(p, w, r, t)
    ensures Kept(p + x, w, r, t + x * w)
  {
    assert (p + x) * w == p * w + x * w;
  }

  lemma KeptQuotient(p: nat, w: nat, r: nat, t: nat)
    requires Kept(p, w, r, t)
    ensures w > 0 && p == t / w
  {
    Euclid(t, w, p, r);
  }
}
