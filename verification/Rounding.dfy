/** Floating numbers of the library, and rounding to the nearest of them: what flmul, fldiv and altof are to
    deliver. A number is a sign, a 7-bit exponent e and a 24-bit mantissa m, and stands for m * 2^(e-88). */
module Rounding {
  import opened Bytes
  import opened Z80

  /** The registers H, L, D and E: sign and exponent in H, mantissa in the others. */
  datatype Float = Float(h: byte, l: byte, d: byte, e: byte)

  function Man(f: Float): (m: nat)
    ensures m < 0x100_0000
  {
    Three(f.l, f.d, f.e)
  }

  function Exp(f: Float): (e: nat)
    ensures e < 128
  {
    f.h % 128
  }

  predicate Negative(f: Float) {
    f.h >= 128
  }

  predicate Normal(f: Float) {
    f.l >= 128
  }

  const ZERO := Float(0, 0, 0, 0)

  /** The float with these parts. */
  function Make(neg: bool, exp: nat, man: nat): Float
    requires exp < 128 && man < 0x100_0000
  {
    Float((if neg then 128 else 0) + exp, man / 0x1_0000, man / 0x100 % 0x100, man % 0x100)
  }

  lemma MakeParts(neg: bool, exp: nat, man: nat)
    requires exp < 128 && man < 0x100_0000
    ensures var f := Make(neg, exp, man);
      && Man(f) == man && Exp(f) == exp && Negative(f) == neg && (Normal(f) <==> man >= 0x80_0000)
      && f.h == (if neg then 128 else 0) + exp
  {
  }

  lemma MakeOf(f: Float)
    ensures f == Make(Negative(f), Exp(f), Man(f))
  {
    ThreeParts(f.l, f.d, f.e);
    hide Three;
  }

  lemma ThreeParts(l: byte, d: byte, e: byte)
    ensures var m := Three(l, d, e); m / 0x1_0000 == l && m / 0x100 % 0x100 == d && m % 0x100 == e
  {
    var m := Three(l, d, e);
    assert m / 0x100 == 0x100 * l + d;
  }

  /** Two floats with the same parts are the same. */
  lemma Same(f: Float, g: Float)
    requires f.h == g.h && Man(f) == Man(g)
    ensures f == g
  {
    MakeOf(f);
    MakeOf(g);
  }

  // ---------------------------------------------------------------- products of reals

  /** Products and quotients as functions of their own, so that proofs need not look inside them. */
  function Times(a: real, b: real): real {
    a * b
  }

  function Ratio(num: nat, den: nat): real
    requires den > 0
  {
    num as real / den as real
  }

  lemma TimesAssoc(a: real, b: real, c: real)
    ensures Times(a, Times(b, c)) == Times(Times(a, b), c)
  {
  }

  lemma TimesCommutes(a: real, b: real)
    ensures Times(a, b) == Times(b, a)
  {
  }

  lemma TimesDouble(a: real, b: real)
    ensures Times(a, 2.0 * b) == 2.0 * Times(a, b) == Times(2.0 * a, b)
  {
  }

  lemma TimesOne(a: real)
    ensures Times(1.0, a) == a == Times(a, 1.0)
  {
  }

  lemma TimesMinus(a: real, b: real, u: real)
    ensures Times(a - b, u) == Times(a, u) - Times(b, u)
  {
  }

  lemma TimesPositive(a: real, u: real)
    requires u > 0.0
    ensures a > 0.0 ==> Times(a, u) > 0.0
    ensures a < 0.0 ==> Times(a, u) < 0.0
    ensures a == 0.0 ==> Times(a, u) == 0.0
  {
  }

  lemma TimesWhole(a: int, b: int)
    ensures Times(a as real, b as real) == (a * b) as real
  {
  }

  lemma TimesOrder(a: real, b: real, u: real)
    requires u > 0.0
    ensures Times(a, u) <= Times(b, u) <==> a <= b
    ensures Times(a, u) < Times(b, u) <==> a < b
  {
    hide Times;
    TimesMinus(a, b, u);
    TimesPositive(a - b, u);
  }

  lemma RatioTimes(num: nat, den: nat)
    requires den > 0
    ensures Times(Ratio(num, den), den as real) == num as real
  {
  }

  // ---------------------------------------------------------------- values

  /** 2 to the power n, for any n. */
  function Scale(n: int): (r: real)
    ensures r > 0.0
    decreases if n < 0 then -n else n
  {
    if n == 0 then 1.0 else if n > 0 then 2.0 * Scale(n - 1) else Scale(n + 1) / 2.0
  }

  lemma {:induction false} ScaleUp(n: int)
    ensures Scale(n + 1) == 2.0 * Scale(n)
  {
  }

  lemma {:induction false} ScaleSum(m: int, n: int)
    ensures Scale(m + n) == Times(Scale(m), Scale(n))
    decreases if n < 0 then -n else n
  {
    hide Times;
    if n == 0 {
      TimesOne(Scale(m));
    } else if n > 0 {
      ScaleSum(m, n - 1);
      ScaleUp(m + n - 1);
      ScaleUp(n - 1);
      TimesDouble(Scale(m), Scale(n - 1));
    } else {
      ScaleSum(m, n + 1);
      ScaleUp(m + n);
      ScaleUp(n);
      TimesDouble(Scale(m), Scale(n));
    }
  }

  lemma {:induction false} ScaleWhole(n: nat)
    ensures Scale(n) == Pow2(n) as real
  {
    if n > 0 {
      ScaleWhole(n - 1);
      ScaleUp(n - 1);
    }
  }

  /** The magnitude a float stands for. */
  function Size(f: Float): (r: real)
    ensures r >= 0.0
  {
    SizePositive(Man(f), Scale(Exp(f) - 88));
    Times(Man(f) as real, Scale(Exp(f) - 88))
  }

  lemma SizePositive(m: nat, u: real)
    requires u > 0.0
    ensures Times(m as real, u) >= 0.0
  {
  }

  /** What it stands for. */
  function Value(f: Float): real {
    WithSign(Negative(f), Size(f))
  }

  function WithSign(neg: bool, v: real): real {
    if neg then -v else v
  }

  // ---------------------------------------------------------------- half up

  /** num/den rounded to the nearest whole number, halves upwards. */
  function HalfUp(num: nat, den: nat): nat
    requires den > 0
  {
    (2 * num + den) / (2 * den)
  }

  function Far(x: real, y: real): real {
    if x < y then y - x else x - y
  }

  lemma HalfUpBounds(num: nat, den: nat)
    requires den > 0
    ensures 2 * (HalfUp(num, den) * den) <= 2 * num + den < 2 * (HalfUp(num, den) * den) + 2 * den
  {
    var q := HalfUp(num, den);
    assert 2 * num + den == q * (2 * den) + (2 * num + den) % (2 * den);
    assert q * (2 * den) == 2 * (q * den);
  }

  lemma HalfUpWithin(num: nat, den: nat)
    requires den > 0
    ensures var t := Ratio(num, den); var q := HalfUp(num, den) as real;
      q - 0.5 <= t < q + 0.5
  {
    var q, x, t := HalfUp(num, den), den as real, Ratio(num, den);
    hide Times, Ratio;
    RatioTimes(num, den);
    HalfUpBounds(num, den);
    TimesWhole(q, den);
    var qx := (q * den) as real;
    assert 2.0 * qx <= 2.0 * num as real + x < 2.0 * qx + 2.0 * x by { hide HalfUp; }
    TimesMinus(q as real, 0.5, x);
    TimesMinus(q as real, -0.5, x);
    Half(x);
    TimesOrder(q as real - 0.5, t, x);
    TimesOrder(t, q as real + 0.5, x);
  }

  lemma Half(x: real)
    ensures Times(0.5, x) == x / 2.0 && Times(-0.5, x) == -x / 2.0
  {
  }

  /** No whole number is nearer. */
  lemma HalfUpNearest(num: nat, den: nat, n: int)
    requires den > 0
    ensures Far(HalfUp(num, den) as real, Ratio(num, den)) <= Far(n as real, Ratio(num, den))
  {
    HalfUpWithin(num, den);
    var q, t := HalfUp(num, den), Ratio(num, den);
    hide HalfUp, Ratio;
    assert n == q || n as real <= q as real - 1.0 || n as real >= q as real + 1.0;
  }

  // ---------------------------------------------------------------- rounding to a float

  /** A result, and whether the over- and underflow flag was set. */
  datatype Outcome = Outcome(f: Float, flag: bool)

  /** What the library makes of the rounded mantissa `q`, which may have reached 2^24, and the exponent `e`. An
      exponent out of range is flagged. One that gets out of range by the last carry is not: it
      runs into the sign. */
  function Outcome24(neg: bool, e: int, q: nat): Outcome
    requires q <= 0x100_0000
  {
    if e < 0 || e > 127 then Outcome(ZERO, true)
    else if q < 0x100_0000 then Outcome(Make(neg, e, q), false)
    else if e < 127 then Outcome(Make(neg, e + 1, 0x80_0000), false)
    else Outcome(Make(true, 0, 0x80_0000), false)
  }

  /** `f` is as near to `v` as any float. */
  ghost predicate Nearest(f: Float, v: real) {
    forall c: Float :: Far(Value(f), v) <= Far(Value(c), v)
  }

  /** A float of the other sign is further away. */
  lemma SameSign(c: Float, neg: bool, v: real)
    requires v >= 0.0
    ensures Far(Size(c), v) <= Far(Value(c), WithSign(neg, v))
    ensures Negative(c) == neg ==> Far(Size(c), v) == Far(Value(c), WithSign(neg, v))
  {
    hide Size;
  }

  lemma FarScaled(a: real, b: real, u: real)
    requires u > 0.0
    ensures Far(Times(a, u), Times(b, u)) == Times(Far(a, b), u)
  {
    hide Times;
    TimesMinus(a, b, u);
    TimesMinus(b, a, u);
    TimesOrder(a, b, u);
  }

  /** The value of an unflagged result is the rounded mantissa, scaled, unless the carry was lost. */
  lemma OutcomeValue(neg: bool, e: int, q: nat)
    requires 0 <= e <= 127 && 0x80_0000 <= q <= 0x100_0000 && !(e == 127 && q == 0x100_0000)
    ensures Size(Outcome24(neg, e, q).f) == Times(q as real, Scale(e - 88)) && Negative(Outcome24(neg, e, q).f) == neg
  {
    hide Times;
    if q < 0x100_0000 {
      MakeParts(neg, e, q);
    } else {
      MakeParts(neg, e + 1, 0x80_0000);
      ScaleUp(e - 88);
      TimesDouble(8388608.0, Scale(e - 88));
    }
  }

  lemma {:induction false} ScaleGrows(m: int, n: int)
    requires m <= n
    ensures Scale(m) <= Scale(n)
    decreases n - m
  {
    if m < n {
      ScaleGrows(m, n - 1);
      ScaleUp(n - 1);
    }
  }

  /** A float with a smaller exponent is smaller than any 24-bit mantissa with this one. */
  lemma Finer(c: Float, e: int)
    requires Exp(c) < e
    ensures Size(c) <= Times(8388608.0, Scale(e - 88))
  {
    hide Times, Scale, Exp;
    ScaleGrows(Exp(c) - 88, e - 89);
    ScaleUp(e - 89);
    TimesDouble(8388608.0, Scale(e - 89));
    TimesOrder(Man(c) as real, 16777216.0, Scale(Exp(c) - 88));
    TimesOrder(Scale(Exp(c) - 88), Scale(e - 89), 16777216.0);
    TimesCommutes(16777216.0, Scale(Exp(c) - 88));
    TimesCommutes(16777216.0, Scale(e - 89));
  }

  /** A float with this exponent or a larger one is a whole multiple. */
  lemma Coarser(c: Float, e: int) returns (n: nat)
    requires Exp(c) >= e
    ensures Size(c) == Times(n as real, Scale(e - 88))
  {
    var k := Exp(c) - e;
    n := Man(c) * Pow2(k);
    hide Times, Scale;
    ScaleSum(k, e - 88);
    ScaleWhole(k);
    TimesWhole(Man(c), Pow2(k));
    TimesAssoc(Man(c) as real, Scale(k), Scale(e - 88));
  }

  /** num/den has 24 leading bits before the point. */
  ghost predicate Leading24(num: nat, den: nat) {
    den > 0 && 0x80_0000 * den <= num < 0x100_0000 * den
  }

  lemma HalfUpRange(num: nat, den: nat)
    requires Leading24(num, den)
    ensures 0x80_0000 <= HalfUp(num, den) <= 0x100_0000
    ensures 8388608.0 <= Ratio(num, den) < 16777216.0
  {
    hide Times, Ratio, HalfUp;
    HalfUpWithin(num, den);
    RatioTimes(num, den);
    TimesWhole(0x80_0000, den);
    TimesWhole(0x100_0000, den);
    TimesOrder(8388608.0, Ratio(num, den), den as real);
    TimesOrder(Ratio(num, den), 16777216.0, den as real);
  }

  lemma NearestOne(e: int, num: nat, den: nat, c: Float)
    requires Leading24(num, den)
    ensures Far(Times(HalfUp(num, den) as real, Scale(e - 88)), Times(Ratio(num, den), Scale(e - 88)))
      <= Far(Size(c), Times(Ratio(num, den), Scale(e - 88)))
  {
    hide Times, Ratio, HalfUp, Scale, Size;
    HalfUpRange(num, den);
    var q, t, u := HalfUp(num, den) as real, Ratio(num, den), Scale(e - 88);
    FarScaled(q, t, u);
    if Exp(c) >= e {
      var n := Coarser(c, e);
      HalfUpNearest(num, den, n);
      FarScaled(n as real, t, u);
      TimesOrder(Far(q, t), Far(n as real, t), u);
    } else {
      Finer(c, e);
      HalfUpNearest(num, den, 0x80_0000);
      FarScaled(8388608.0, t, u);
      TimesOrder(Far(q, t), Far(8388608.0, t), u);
      TimesOrder(8388608.0, t, u);
    }
  }

  /** Rounding the 24 leading bits of num/den half up gives the nearest float there is, unless the exponent is
      lost in the last carry. */
  lemma NearestExact(neg: bool, e: int, num: nat, den: nat)
    requires 0 <= e <= 127 && Leading24(num, den)
    ensures HalfUp(num, den) <= 0x100_0000
    ensures Nearest(Outcome24(neg, e, HalfUp(num, den)).f, WithSign(neg, Times(Ratio(num, den), Scale(e - 88))))
      <==> !(e == 127 && HalfUp(num, den) == 0x100_0000)
  {
    hide Times, Ratio, HalfUp, Scale, Size, Value, WithSign, Outcome24, Far;
    HalfUpRange(num, den);
    var q, v := HalfUp(num, den), Times(Ratio(num, den), Scale(e - 88));
    var f, sv := Outcome24(neg, e, q).f, WithSign(neg, v);
    TimesPositive(Ratio(num, den), Scale(e - 88));
    if e == 127 && q == 0x100_0000 {
      LostCarry(neg, num, den);
    } else {
      OutcomeValue(neg, e, q);
      SameSign(f, neg, v);
      forall c: Float ensures Far(Value(f), sv) <= Far(Value(c), sv) {
        NearestOne(e, num, den, c);
        SameSign(c, neg, v);
      }
    }
  }

  /** The largest float is nearer than what is left when the carry is lost. */
  lemma LostCarry(neg: bool, num: nat, den: nat)
    requires Leading24(num, den) && HalfUp(num, den) == 0x100_0000
    ensures !Nearest(Outcome24(neg, 127, 0x100_0000).f, WithSign(neg, Times(Ratio(num, den), Scale(39))))
  {
    hide Times, Ratio, HalfUp, Scale;
    HalfUpRange(num, den);
    HalfUpWithin(num, den);
    var t, u := Ratio(num, den), Scale(39);
    var c := Make(neg, 127, 0xFF_FFFF);
    MakeParts(neg, 127, 0xFF_FFFF);
    MakeParts(true, 0, 0x80_0000);
    var f := Outcome24(neg, 127, 0x100_0000).f;
    ScaleTiny();
    TimesOne(u);
    TimesOrder(16777215.0, t, u);
    TimesOrder(t, 16777216.0, u);
    TimesOrder(2.0, 16777215.0, u);
    TimesMinus(16777216.0, 16777215.0, u);
    TimesMinus(16777215.0, 1.0, u);
    TimesOrder(2.0, 16777214.0, u);
    assert Size(c) == Times(16777215.0, u) && Size(f) <= u;
    assert Far(Size(c), Times(t, u)) <= u < Far(Size(f), Times(t, u)) by { TimesMinus(2.0, 1.0, u); }
    TimesPositive(t, u);
    hide Size, Value, WithSign, Far, Make;
    SameSign(c, neg, Times(t, u));
    SameSign(f, neg, Times(t, u));
  }

  lemma ScaleTiny()
    ensures Times(8388608.0, Scale(-88)) <= Scale(39)
  {
    hide Times, Scale;
    ScaleSum(23, -88);
    ScaleWhole(23);
    Pow23();
    ScaleGrows(-65, 39);
  }

  lemma Pow23()
    ensures Pow2(23) == 0x80_0000
  {
    assert Pow2(8) == 256;
    assert Pow2(16) == 0x1_0000;
  }
}
