/** What the results of flmul and fldiv are in real numbers: the nearest floats to the exact product and quotient,
    but for one overflow of flmul that goes unnoticed. */
module FloatLaws {
  import opened Bytes
  import opened Rounding
  import opened FloatMulDiv

  lemma TimesFour(a: real, u: real, b: real, v: real)
    ensures Times(Times(a, u), Times(b, v)) == Times(Times(a, b), Times(u, v))
  {
    hide Times;
    TimesAssoc(Times(a, u), b, v);
    TimesAssoc(a, u, b);
    TimesCommutes(u, b);
    TimesAssoc(a, b, u);
    TimesAssoc(Times(a, b), u, v);
  }

  /** The exact product is the ratio that is rounded, scaled by the exponent of the result. */
  lemma ProductValue(left: Float, right: Float)
    requires Normal(left) && Normal(right)
    ensures var p := Prod(Man(left), Man(right)); var k := Excess(p);
      Times(Size(left), Size(right))
      == Times(Ratio(p, Pow2(k)), Scale(Exp(left) + Exp(right) + k - 176))
  {
    hide Times, Ratio, Scale, Pow2, Man, Exp;
    var p := Prod(Man(left), Man(right));
    var k, x := Excess(p), Exp(left) + Exp(right) - 176;
    TimesFour(Man(left) as real, Scale(Exp(left) - 88), Man(right) as real, Scale(Exp(right) - 88));
    TimesWhole(Man(left), Man(right));
    ScaleSum(Exp(left) - 88, Exp(right) - 88);
    RatioTimes(p, Pow2(k));
    ScaleWhole(k);
    TimesAssoc(Ratio(p, Pow2(k)), Scale(k), Scale(x));
    ScaleSum(k, x);
  }

  /** flmul flags exactly when the exponent of the unrounded product is out of range, and otherwise is right exactly when the
      last rounding does not carry the exponent past 127. */
  lemma ProductNearest(left: Float, right: Float)
    requires Normal(left) && Normal(right)
    ensures var p := Prod(Man(left), Man(right)); var e := Exp(left) + Exp(right) + Excess(p) - 88;
      && (Product(left, right).flag <==> !(0 <= e <= 127))
      && (!Product(left, right).flag ==>
            (Nearest(Product(left, right).f, Times(Value(left), Value(right)))
             <==> !(e == 127 && HalfUp(p, Pow2(Excess(p))) == 0x100_0000)))
    ensures !Product(left, right).flag && Nearest(Product(left, right).f, Times(Value(left), Value(right)))
      ==> (Negative(Product(left, right).f) <==> Negative(left) != Negative(right))
  {
    hide *;
    var p := Prod(Man(left), Man(right));
    var k := Excess(p);
    var neg, e := Negative(left) != Negative(right), Exp(left) + Exp(right) + k - 88;
    ProductIs(left, right);
    ProductValue(left, right);
    SignedProduct(left, right);
    Flagged(neg, e, HalfUp(p, Pow2(k)));
    if 0 <= e <= 127 {
      NearestExact(neg, e, p, Pow2(k));
      if !(e == 127 && HalfUp(p, Pow2(k)) == 0x100_0000) { OutcomeSign(neg, e, p, Pow2(k)); }
    }
  }

  lemma OutcomeSign(neg: bool, e: int, num: nat, den: nat)
    requires 0 <= e <= 127 && Leading24(num, den) && HalfUp(num, den) <= 0x100_0000
    requires !(e == 127 && HalfUp(num, den) == 0x100_0000)
    ensures Negative(Outcome24(neg, e, HalfUp(num, den)).f) == neg
  {
    hide HalfUp;
    HalfUpRange(num, den);
    OutcomeValue(neg, e, HalfUp(num, den));
  }

  /** The signs of a product. */
  lemma SignedProduct(left: Float, right: Float)
    ensures Times(Value(left), Value(right)) == WithSign(Negative(left) != Negative(right), Times(Size(left), Size(right)))
  {
    hide Size;
  }

  lemma ProductIs(left: Float, right: Float)
    requires Normal(left) && Normal(right)
    ensures var p := Prod(Man(left), Man(right)); var q := HalfUp(p, Pow2(Excess(p)));
      && Leading24(p, Pow2(Excess(p))) && q <= 0x100_0000
      && Product(left, right) == Outcome24(Negative(left) != Negative(right), Exp(left) + Exp(right) + Excess(p) - 88, q)
  {
    hide HalfUp, Pow2, Prod, Man, Exp, Outcome24, Leading24, Normal;
    RoundedProduct(left, right);
  }

  /** Two positive numbers of about 2^31 and 2^32 whose product comes out as a tiny negative number, with no flag. */
  lemma ProductOverflows()
    ensures var left, right := Float(96, 128, 0, 1), Float(96, 255, 255, 254);
      Normal(left) && Normal(right) && Product(left, right) == Outcome(Float(128, 128, 0, 0), false)
  {
    var left, right := Float(96, 128, 0, 1), Float(96, 255, 255, 254);
    assert Prod(Man(left), Man(right)) == 0x7FFF_FFFF_FFFE;
    Pow23();
    hide Pow2;
    assert HalfUp(0x7FFF_FFFF_FFFE, 0x80_0000) == 0x100_0000;
  }

  /** A quotient never rounds up to the next power of two. */
  lemma QuotientNoCarry(n: nat, d: nat)
    requires 0x80_0000 <= n < 0x100_0000 && 0x80_0000 <= d < 0x100_0000
    ensures HalfUp(n * Pow2(Lift(n, d)), d) < 0x100_0000
  {
    Pow23();
    assert Pow2(24) == 0x100_0000;
    QuotientRange(n, d);
    var x := n * Pow2(Lift(n, d));
    assert 2 * x + d < 0x100_0000 * (2 * d);
    HalfUpBounds(x, d);
    AtMost(HalfUp(x, d), d, 0, 0x100_0000);
  }

  /** The exact quotient likewise. */
  lemma QuotientValue(left: Float, right: Float)
    requires Normal(left) && Normal(right)
    ensures var n, d := Man(left), Man(right); var j := Lift(n, d);
      d > 0 && Times(Times(Ratio(n * Pow2(j), d), Scale(Exp(left) - Exp(right) - j)), Size(right)) == Size(left)
  {
    TopByte(right.l, right.d, right.e);
    assert Man(right) > 0;
    hide Times, Ratio, Scale, Pow2, Man, Exp, Lift;
    var n, d := Man(left), Man(right);
    var j, x := Lift(n, d), Exp(left) - Exp(right);
    TimesFour(Ratio(n * Pow2(j), d), Scale(x - j), d as real, Scale(Exp(right) - 88));
    RatioTimes(n * Pow2(j), d);
    TimesWhole(n, Pow2(j));
    ScaleWhole(j);
    ScaleSum(x - j, Exp(right) - 88);
    TimesAssoc(n as real, Scale(j), Scale(Exp(left) - 88 - j));
    ScaleSum(j, Exp(left) - 88 - j);
  }

  lemma ValuePositive(f: Float)
    requires Normal(f)
    ensures Size(f) > 0.0
  {
    TopByte(f.l, f.d, f.e);
    hide Times, Scale;
    TimesPositive(Man(f) as real, Scale(Exp(f) - 88));
  }

  /** The signs of a quotient. */
  lemma SignedQuotient(left: Float, right: Float, v: real)
    requires Times(v, Value(right)) == Value(left)
    ensures Times(WithSign(Negative(left) != Negative(right), v), Size(right)) == Size(left)
  {
    hide Size;
  }

  /** fldiv is right whenever it does not flag: `v` is the exact quotient. */
  lemma QuotientNearest(left: Float, right: Float, v: real)
    requires Normal(left) && Normal(right) && !Quotient(left, right).flag
    requires Times(v, Value(right)) == Value(left)
    ensures Nearest(Quotient(left, right).f, v)
    ensures Negative(Quotient(left, right).f) <==> Negative(left) != Negative(right)
  {
    var n, d := Man(left), Man(right);
    var j := Lift(n, d);
    var neg, e := Negative(left) != Negative(right), Exp(left) - Exp(right) + 88 - j;
    TopByte(left.l, left.d, left.e);
    TopByte(right.l, right.d, right.e);
    RoundedQuotient(left, right);
    SignedQuotient(left, right, v);
    hide Times, Ratio, Scale, Pow2, Man, Exp, HalfUp, Nearest, Size, Value, Outcome24, Lift;
    QuotientValue(left, right);
    ValuePositive(right);
    var w := Times(Ratio(n * Pow2(j), d), Scale(e - 88));
    TimesOrder(WithSign(neg, v), w, Size(right));
    assert v == WithSign(neg, w);
    QuotientNoCarry(n, d);
    Flagged(neg, e, HalfUp(n * Pow2(j), d));
    NearestExact(neg, e, n * Pow2(j), d);
    OutcomeSign(neg, e, n * Pow2(j), d);
  }
}
