/** ltof.as and ftol.as: longs to floats and back, rounding to the nearest, and that small longs survive. */
module FloatLong {
  import opened Bytes
  import opened Z80
  import opened Division
  import opened Rounding
  import opened FloatKernels

  // ---------------------------------------------------------------- long to float

  /** The four registers as one number. */
  function Four(h: byte, l: byte, d: byte, e: byte): (v: long)
    ensures v == 0x100_0000 * h + Three(l, d, e)
  {
    0x100_0000 * h + Three(l, d, e)
  }

  /** The places a number is over 24 bits long. */
  function Over(n: nat): (k: nat)
    requires n < 0x1_0000_0000
    ensures n >= 0x100_0000 ==> 0 < k <= 8 && 0x80_0000 * Pow2(k) <= n < 0x100_0000 * Pow2(k)
    ensures n < 0x100_0000 ==> k == 0
  {
    OverPowers();
    if n < 0x100_0000 then 0 else if n < 0x200_0000 then 1 else if n < 0x400_0000 then 2 else if n < 0x800_0000 then 3
    else if n < 0x1000_0000 then 4 else if n < 0x2000_0000 then 5 else if n < 0x4000_0000 then 6
    else if n < 0x8000_0000 then 7 else 8
  }

  lemma OverPowers()
    ensures Pow2(1) == 2 && Pow2(2) == 4 && Pow2(3) == 8 && Pow2(4) == 16 && Pow2(5) == 32 && Pow2(6) == 64
    ensures Pow2(7) == 128 && Pow2(8) == 256
  {
    ByteWide();
    assert Pow2(1) == 2 && Pow2(3) == 8 && Pow2(5) == 32 && Pow2(7) == 128;
  }

  /** The float nearest to `n`. */
  function LongToFloat(n: nat): Float
    requires n < 0x1_0000_0000
  {
    if n < 0x100_0000 then Normalized(Make(false, 88, n)).f
    else
      OverLeading(n);
      Outcome24(false, 88 + Over(n), HalfUp(n, Pow2(Over(n)))).f
  }

  lemma OverLeading(n: nat)
    requires 0x100_0000 <= n < 0x1_0000_0000
    ensures Leading24(n, Pow2(Over(n))) && HalfUp(n, Pow2(Over(n))) <= 0x100_0000
  {
    hide HalfUp;
    HalfUpRange(n, Pow2(Over(n)));
  }

  /** The same for a number with a sign. */
  function SignedToFloat(n: int): Float
    requires -0x1_0000_0000 < n < 0x1_0000_0000
  {
    if n < 0 then Minus(LongToFloat(-n)) else LongToFloat(n)
  }

  function Minus(f: Float): Float {
    Float(f.h % 128 + 128, f.l, f.d, f.e)
  }

  /** It is exact up to 2^24 in magnitude and the nearest there is beyond. */
  lemma LongToFloatNearest(n: int)
    requires -0x1_0000_0000 < n < 0x1_0000_0000
    ensures -0x100_0000 <= n <= 0x100_0000 ==> Value(SignedToFloat(n)) == n as real
    ensures Nearest(SignedToFloat(n), n as real) && (Negative(SignedToFloat(n)) <==> n < 0)
  {
    var f := LongToFloat(Abs(n));
    PositiveResult(Abs(n));
    hide LongToFloat;
    PositiveNearest(Abs(n));
    if n < 0 {
      MinusValue(f);
      MinusNearest(f, Abs(n) as real);
    }
  }

  lemma MinusValue(f: Float)
    requires f.h < 128
    ensures Value(Minus(f)) == -Value(f) && Negative(Minus(f))
  {
    hide Times;
  }

  lemma MinusNearest(f: Float, v: real)
    requires f.h < 128 && Nearest(f, v)
    ensures Nearest(Minus(f), -v)
  {
    MinusValue(f);
    hide Value, Minus;
    forall c: Float ensures Far(Value(Minus(f)), -v) <= Far(Value(c), -v) {
      var d := Opposed(c);
      assert Far(Value(f), v) <= Far(Value(d), v);
    }
  }

  /** The float of the other sign. */
  lemma Opposed(c: Float) returns (d: Float)
    ensures Value(d) == -Value(c)
  {
    hide Times;
    d := if Negative(c) then Float(c.h % 128, c.l, c.d, c.e) else Minus(c);
  }

  lemma PositiveNearest(n: nat)
    requires n < 0x1_0000_0000
    ensures n <= 0x100_0000 ==> Value(LongToFloat(n)) == n as real
    ensures Nearest(LongToFloat(n), n as real) && !Negative(LongToFloat(n))
  {
    PositiveResult(n);
    hide LongToFloat, Size, Nearest;
    if n < 0x100_0000 {
      SmallExact(n);
      ExactNearest(LongToFloat(n), n as real);
    } else {
      BigNearest(n);
      if n == 0x100_0000 { JustOver(); }
    }
  }

  lemma ExactNearest(f: Float, v: real)
    requires Value(f) == v
    ensures Nearest(f, v)
  {
    hide Value;
  }

  lemma BigNearest(n: nat)
    requires 0x100_0000 <= n < 0x1_0000_0000
    ensures Nearest(LongToFloat(n), n as real)
  {
    var k := Over(n);
    OverLeading(n);
    hide Times, Ratio, Scale, HalfUp, Size, Value, Outcome24, Nearest, Pow2, Over;
    NearestExact(false, 88 + k, n, Pow2(k));
    RatioTimes(n, Pow2(k));
    ScaleWhole(k);
  }

  lemma SmallExact(n: nat)
    requires n < 0x100_0000
    ensures Size(LongToFloat(n)) == n as real
  {
    var f := Make(false, 88, n);
    MakeParts(false, 88, n);
    hide Times, Scale, Make, Man, Exp, Normalized;
    NormalizedValue(f);
    Unflagged(f);
    ScaleWhole(0);
    TimesOne(n as real);
  }

  lemma Unflagged(f: Float)
    requires Exp(f) == 88
    ensures !Normalized(f).flag
  {
    if Man(f) > 0 { LeadBound(Man(f)); }
  }

  lemma {:induction false} LeadBound(m: nat)
    requires 0 < m < 0x100_0000
    ensures Lead(m) <= 23
  {
    Pow23();
    if Lead(m) > 23 {
      LeadLeast(m, 23);
    }
  }

  lemma JustOver()
    ensures Size(LongToFloat(0x100_0000)) == 16777216.0
  {
    OverPowers();
    assert Over(0x100_0000) == 1 && HalfUp(0x100_0000, 2) == 0x80_0000;
    hide Times, Scale, HalfUp;
    OutcomeValue(false, 89, 0x80_0000);
    ScaleWhole(1);
    TimesWhole(0x80_0000, 2);
  }

  /** Dividing down and rounding the last place rounds the whole. */
  lemma RoundLate(n: nat, w: nat, x: nat, r: nat)
    requires w > 0 && n == x * w + r && r < w
    ensures (x + 1) / 2 == HalfUp(n, 2 * w)
  {
    var z, b := (x + 1) / 2, (x + 1) % 2;
    assert (x + 1) * w == x * w + w;
    assert (2 * z + b) * w == 2 * (z * w) + b * w;
    assert z * (2 * (2 * w)) == 4 * (z * w);
    assert b * w <= w;
    Euclid(2 * n + 2 * w, 2 * (2 * w), z, 2 * (b * w + r));
  }

  datatype Quad = Quad(h: byte, l: byte, d: byte, e: byte, c: bool)

  /** srl h (or sra h, with the sign coming in), rr l, rr d, rr e. */
  function RrFour(h: byte, l: byte, d: byte, e: byte, c: bool): (r: Quad)
    ensures Four(h, l, d, e) + 0x1_0000_0000 * Bit(c) == 2 * Four(r.h, r.l, r.d, r.e) + Bit(r.c)
  {
    var x := Rr(h, c);
    var t := RrThree(l, d, e, x.c);
    Quad(x.b, t.l, t.d, t.e, t.c)
  }

  /** inc e, and on into d, l and h while they come out zero. */
  method Increment(h: byte, l: byte, d: byte, e: byte) returns (h': byte, l': byte, d': byte, e': byte)
    requires h < 255
    ensures Four(h', l', d', e') == Four(h, l, d, e) + 1
  {
    h', l', d', e' := h, l, d, Inc(e);
    hide Four, Three, Inc;
    FourParts(h, l, d, e);
    if e' == 0 {
      d' := Inc(d);
      if d' == 0 {
        l' := Inc(l);
        if l' == 0 {
          h' := Inc(h);
        }
      }
    }
    FourParts(h', l', d', e');
  }

  function Inc(b: byte): (r: byte)
    ensures r == if b == 255 then 0 else b + 1
  {
    (b + 1) % 256
  }

  lemma FourParts(h: byte, l: byte, d: byte, e: byte)
    ensures Four(h, l, d, e) == 0x100_0000 * h + 0x1_0000 * l + 0x100 * d + e
  {
  }

  /** `x` is `n` shifted down `c` places. */
  ghost predicate Slopped(n: nat, x: nat, c: nat) {
    c <= 7 && x < 0x100_0000 * Pow2(8 - c) && x * Pow2(c) <= n && Kept(x, Pow2(c), n - x * Pow2(c), n)
  }

  lemma SloppedStart(n: nat)
    requires n < 0x1_0000_0000
    ensures Slopped(n, n, 0)
  {
    OverPowers();
  }

  lemma SloppedStep(n: nat, x: nat, c: nat)
    requires Slopped(n, x, c) && x >= 0x200_0000
    ensures Slopped(n, x / 2, c + 1)
  {
    OverPowers();
    assert Pow2(8 - c) == 2 * Pow2(7 - c) && Pow2(c + 1) == 2 * Pow2(c);
    KeptShift(x, Pow2(c), n - x * Pow2(c), n);
    assert x * Pow2(c) == x / 2 * (2 * Pow2(c)) + x % 2 * Pow2(c);
  }

  lemma SloppedEnd(n: nat, x: nat, c: nat)
    requires Slopped(n, x, c) && 0x100_0000 <= x < 0x200_0000 && n < 0x1_0000_0000
    ensures Over(n) == c + 1 && (x + 1) / 2 == HalfUp(n, Pow2(c + 1))
  {
    var w := Pow2(c);
    assert Pow2(c + 1) == 2 * w;
    RoundLate(n, w, x, n - x * w);
    OverIs(n, c, x, w, n - x * w);
  }

  /** From label slop: the number goes down until its 25 leading bits are left. */
  method Slop(h: byte, l: byte, d: byte, e: byte) returns (h': byte, l': byte, d': byte, e': byte, c: nat)
    requires h != 0
    ensures h' == 1 && c == Over(Four(h, l, d, e)) - 1
    ensures (Four(h', l', d', e') + 1) / 2 == HalfUp(Four(h, l, d, e), Pow2(c + 1))
  {
    ghost var n := Four(h, l, d, e);
    hide Four, RrFour, Over, HalfUp, Three, Slopped;
    h', l', d', e', c := h, l, d, e, 0;
    SloppedStart(n);
    while h' != 1
      invariant h' >= 1 && Slopped(n, Four(h', l', d', e'), c)
      decreases h'
    {
      SloppedStep(n, Four(h', l', d', e'), c);
      var q := RrFour(h', l', d', e', false);
      h', l', d', e' := q.h, q.l, q.d, q.e;
      c := c + 1;
    }
    SloppedEnd(n, Four(h', l', d', e'), c);
  }

  lemma OverIs(n: nat, c: nat, x: nat, w: nat, r: nat)
    requires n < 0x1_0000_0000 && w == Pow2(c) && n == x * w + r && r < w && 0x100_0000 <= x < 0x200_0000 && c <= 7
    ensures Over(n) == c + 1
  {
    OverPowers();
    assert Pow2(0) == 1;
    hide Pow2;
    assert c == 0 || c == 1 || c == 2 || c == 3 || c == 4 || c == 5 || c == 6 || c == 7;
  }

  /** The last shift, the rounding and what may follow from it. */
  method Slop2(h: byte, l: byte, d: byte, e: byte, c: nat) returns (r: Float)
    requires h == 1 && c <= 7
    ensures 0x80_0000 <= (Four(h, l, d, e) + 1) / 2 <= 0x100_0000
    ensures r == Outcome24(false, 89 + c, (Four(h, l, d, e) + 1) / 2).f
  {
    hide RrFour, Three;
    ghost var x := Four(h, l, d, e);
    var h', l', d', e' := Increment(h, l, d, e);
    var q := RrFour(h', l', d', e', false);
    var c' := c;
    ghost var z := (x + 1) / 2;
    assert Four(q.h, q.l, q.d, q.e) == z;
    if q.h != 0 {
      assert z == 0x100_0000;
      q := RrFour(q.h, q.l, q.d, q.e, false);
      c' := c' + 1;
    }
    r := Float(c' + 89, q.l, q.d, q.e);
    SlopResult(r, c, z);
    r := FpnormNormal(r);
  }

  lemma SlopResult(r: Float, c: nat, z: nat)
    requires c <= 7 && 0x80_0000 <= z <= 0x100_0000
    requires if z == 0x100_0000 then r.h == c + 90 && Man(r) == 0x80_0000 else r.h == c + 89 && Man(r) == z
    ensures r == Outcome24(false, 89 + c, z).f && Normal(r)
  {
    MakeOf(r);
    MakeParts(false, r.h, Man(r));
    hide Make, Man;
  }

  method FpnormNormal(f: Float) returns (r: Float)
    requires Normal(f)
    ensures r == f
  {
    NormalAlready(f);
    hide Normalized;
    var flag;
    r, flag := Fpnorm(f);
  }

  /** lltof: an unsigned long. */
  method Lltof(h: byte, l: byte, d: byte, e: byte) returns (r: Float)
    ensures r == LongToFloat(Four(h, l, d, e))
  {
    hide Outcome24, HalfUp, Over, Normalized;
    if h == 0 {
      MakeOf(Float(88, l, d, e));
      assert Make(false, 88, Three(l, d, e)) == Float(88, l, d, e);
      hide Make, Four, Three;
      var flag;
      r, flag := Fpnorm(Float(88, l, d, e));
    } else {
      hide Make, Four, Three;
      var h', l', d', e', c := Slop(h, l, d, e);
      r := Slop2(h', l', d', e', c);
    }
  }

  /** altof: a signed long. */
  method Altof(h: byte, l: byte, d: byte, e: byte) returns (r: Float)
    ensures r == SignedToFloat(Signed32(Four(h, l, d, e)))
  {
    hide LongToFloat, Three;
    PositiveResult(Abs(Signed32(Four(h, l, d, e))));
    if h < 128 {
      r := Lltof(h, l, d, e);
      return;
    }
    var hi, lo := 256 * h + l, 256 * d + e;
    assert Long(hi, lo) == Four(h, l, d, e) by { FourParts(h, l, d, e); }
    var n := SubLong(0, 0, hi, lo);
    FourParts(n.hi / 256, n.hi % 256, n.lo / 256, n.lo % 256);
    r := Lltof(n.hi / 256, n.hi % 256, n.lo / 256, n.lo % 256);
    r := Float(r.h % 128 + 128, r.l, r.d, r.e);
  }

  lemma PositiveResult(n: nat)
    requires n < 0x1_0000_0000
    ensures LongToFloat(n).h < 128
  {
    hide HalfUp, Lead, Over;
    if n < 0x100_0000 { MakeParts(false, 88, n); } else { OverLeading(n); }
  }

  // ---------------------------------------------------------------- float to long

  /** The mantissa with its sign, as negmant and the sign extension leave it: a zero with the sign bit set turns
      into minus 2^24. */
  function Signed(f: Float): int {
    if !Negative(f) then Man(f) else if Man(f) == 0 then -0x100_0000 else -(Man(f) as int)
  }

  /** What ftol gives: the value rounded to the nearest whole number, halves up, modulo 2^32. */
  function FloatToLong(f: Float): int {
    var e := Exp(f);
    if e >= 88 then Signed(f) * Pow2(e - 88) else Descend(Signed(f), 88 - e)
  }

  /** `s` divided by 2^k, to the nearest, halves up. */
  function Descend(s: int, k: nat): int
    requires k > 0
  {
    (s + Pow2(k - 1)) / Pow2(k)
  }

  /** negmant: the three bytes subtracted from zero. */
  method Negmant(l: byte, d: byte, e: byte) returns (l': byte, d': byte, e': byte)
    ensures Three(l', d', e') == if Three(l, d, e) == 0 then 0 else 0x100_0000 - Three(l, d, e)
  {
    var x := Sbc(0, 256 * d + e, false);
    l', d', e' := Sbc8(0, l, x.c).b, x.w / 256, x.w % 256;
    assert Three(l', d', e') == 0x1_0000 * l' + x.w;
  }

  /** `x` is `s` divided by `w`, rounded down. */
  ghost predicate Floored(x: int, w: nat, s: int) {
    w > 0 && 0 <= s - x * w < w
  }

  lemma FlooredStep(x: int, w: nat, s: int, x': int, b: bool)
    requires Floored(x, w, s) && x == 2 * x' + Bit(b)
    ensures Floored(x', 2 * w, s)
  {
    assert x * w == x' * (2 * w) + Bit(b) * w;
  }

  lemma FlooredQuotient(x: int, w: nat, s: int)
    requires Floored(x, w, s)
    ensures x == s / w
  {
    assert s == s / w * w + s % w;
    assert (x - s / w) * w == s % w - (s - x * w);
    Multiple(x - s / w, w, s % w - (s - x * w));
  }

  lemma FlooredStart(s: int)
    ensures Floored(s, 1, s)
  {
  }

  /** alrsh: at most 32 arithmetic shifts to the right. */
  method Alrsh(h: byte, l: byte, d: byte, e: byte, b: nat) returns (h': byte, l': byte, d': byte, e': byte)
    ensures Signed32(Four(h', l', d', e')) == Signed32(Four(h, l, d, e)) / Pow2(b)
  {
    ghost var s := Signed32(Four(h, l, d, e));
    hide Four, Three, RrFour, Floored;
    h', l', d', e' := h, l, d, e;
    var n, i := if b < 33 then b else 32, 0;
    FlooredStart(s);
    while i < n
      invariant 0 <= i <= n && Floored(Signed32(Four(h', l', d', e')), Pow2(i), s)
    {
      ghost var x := Signed32(Four(h', l', d', e'));
      var q := RrFour(h', l', d', e', h' >= 128);
      FlooredStep(x, Pow2(i), s, Signed32(Four(q.h, q.l, q.d, q.e)), q.c);
      h', l', d', e' := q.h, q.l, q.d, q.e;
      i := i + 1;
    }
    FlooredQuotient(Signed32(Four(h', l', d', e')), Pow2(n), s);
    if b > 32 { FarRight(s, b); }
  }

  /** Beyond 31 places only the sign is left. */
  lemma FarRight(s: int, b: nat)
    requires -0x8000_0000 <= s < 0x8000_0000 && b >= 32
    ensures s / Pow2(b) == s / Pow2(32)
  {
    Pow32();
    PowGrows(32, b);
    hide Pow2;
    Tiny(s, Pow2(b));
    Tiny(s, Pow2(32));
  }

  lemma Tiny(s: int, w: nat)
    requires -0x8000_0000 <= s < 0x8000_0000 && w >= 0x1_0000_0000
    ensures s / w == if s < 0 then -1 else 0
  {
    FlooredQuotient(if s < 0 then -1 else 0, w, s);
  }

  lemma Pow32()
    ensures Pow2(32) == 0x1_0000_0000
  {
    OverPowers();
    assert Pow2(16) == 0x1_0000;
    assert Pow2(24) == 0x100_0000;
  }

  /** `x` is `t` but for the bits shifted out. */
  ghost predicate Cropped(x: long, t: nat) {
    x == t % 0x1_0000_0000
  }

  lemma CroppedStep(x: long, x': long, c: bool, s: nat, i: nat)
    requires Cropped(x, s * Pow2(i)) && 2 * x == x' + 0x1_0000_0000 * Bit(c)
    ensures Cropped(x', s * Pow2(i + 1))
  {
    var t := s * Pow2(i);
    assert s * (2 * Pow2(i)) == 2 * t;
    assert Pow2(i + 1) == 2 * Pow2(i);
    hide Pow2;
    Euclid(2 * t, 0x1_0000_0000, 2 * (t / 0x1_0000_0000) + Bit(c), x');
  }

  lemma CroppedStart(x: long)
    ensures Cropped(x, x * Pow2(0))
  {
    assert Pow2(0) == 1;
    assert x * 1 == x;
  }

  /** allsh: at most 32 shifts to the left. */
  method Allsh(h: byte, l: byte, d: byte, e: byte, b: nat) returns (h': byte, l': byte, d': byte, e': byte)
    ensures Cropped(Four(h', l', d', e'), Four(h, l, d, e) * Pow2(b))
  {
    ghost var s := Four(h, l, d, e);
    hide Four, Three, Cropped, Pow2;
    h', l', d', e' := h, l, d, e;
    var n, i := if b < 33 then b else 32, 0;
    CroppedStart(s);
    while i < n
      invariant 0 <= i <= n && Cropped(Four(h', l', d', e'), s * Pow2(i))
    {
      ghost var x := Four(h', l', d', e');
      var t := RlThree(l', d', e', false);
      var y := Rl(h', t.c);
      CroppedStep(x, Four(y.b, t.l, t.d, t.e), y.c, s, i);
      h', l', d', e' := y.b, t.l, t.d, t.e;
      i := i + 1;
    }
    if b > 32 { CroppedAll(Four(h', l', d', e'), s, b); }
  }

  lemma CroppedAll(x: long, s: nat, b: nat)
    requires Cropped(x, s * Pow2(32)) && b >= 32
    ensures Cropped(x, s * Pow2(b))
  {
    AllOut(s, 32);
    AllOut(s, b);
  }

  lemma AllOut(s: nat, b: nat)
    requires b >= 32
    ensures s * Pow2(b) % 0x1_0000_0000 == 0
  {
    Pow32();
    PowSum(b - 32, 32);
    hide Pow2;
    var k := s * Pow2(b - 32);
    assert s * Pow2(b) == k * 0x1_0000_0000;
    Euclid(s * Pow2(b), 0x1_0000_0000, k, 0);
  }

  lemma RoundedBy(s: int, w: nat)
    requires w > 0
    ensures (s / w + 1) / 2 == (s + w) / (2 * w)
  {
    var x, y := s / w, (s / w + 1) / 2;
    assert s == x * w + s % w;
    var b := (x + 1) % 2;
    assert (x + 1) * w == x * w + w;
    assert (2 * y + b) * w == y * (2 * w) + b * w;
    assert b * w <= w;
    FlooredQuotient(y, 2 * w, s + w);
  }

  /** Rounding the last place of the shifted number rounds the number. */
  lemma RoundedShift(s: int, n: nat)
    ensures (s / Pow2(n) + 1) / 2 == Descend(s, n + 1)
  {
    RoundedBy(s, Pow2(n));
    assert Pow2(n + 1) == 2 * Pow2(n);
    hide Pow2;
  }

  /** The sum of the number and one, in two words. */
  method AddOne(h: byte, l: byte, d: byte, e: byte) returns (h': byte, l': byte, d': byte, e': byte)
    requires Signed32(Four(h, l, d, e)) < 0x7FFF_FFFF
    ensures Signed32(Four(h', l', d', e')) == Signed32(Four(h, l, d, e)) + 1
  {
    var x := AddLong(256 * h + l, 256 * d + e, 0, 1);
    h', l', d', e' := x.hi / 256, x.hi % 256, x.lo / 256, x.lo % 256;
    FourParts(h, l, d, e);
    FourParts(h', l', d', e');
    hide Four, Three;
  }

  /** The number as ftol first has it in its registers. */
  method SignedMantissa(f: Float) returns (h: byte, l: byte, d: byte, e: byte)
    ensures Signed32(Four(h, l, d, e)) == Signed(f)
  {
    h, l, d, e := 0, f.l, f.d, f.e;
    if f.h >= 128 {
      h := 255;
      l, d, e := Negmant(l, d, e);
    }
  }

  /** Division brings a number nearer to zero, if only to -1. */
  lemma Shrinks(s: int, w: nat)
    requires w > 0
    ensures if s >= 0 then 0 <= s / w <= s else s <= s / w < 0
  {
    var x := s / w;
    assert s == x * w + s % w;
    assert x * w == x * (w - 1) + x && x * w == -((-x - 1) * (w - 1)) + x - (w - 1);
    if x >= 0 { NonNegative(x, w - 1); } else { NonNegative(-x - 1, w - 1); }
  }

  lemma ShiftedLeft(x: long, y: long, k: nat)
    requires Cropped(y, x * Pow2(k))
    ensures (Signed32(y) - Signed32(x) * Pow2(k)) % 0x1_0000_0000 == 0
  {
    var p := Pow2(k);
    var q := x * p / 0x1_0000_0000;
    assert x * p == q * 0x1_0000_0000 + y;
    assert (x - 0x1_0000_0000) * p == x * p - 0x1_0000_0000 * p;
    hide Pow2;
    WholeWords(Signed32(y) - Signed32(x) * p,
               -(q as int) + (if x < 0x8000_0000 then 0 else p) - (if y < 0x8000_0000 then 0 else 1));
  }

  lemma WholeWords(a: int, k: int)
    requires a == k * 0x1_0000_0000
    ensures a % 0x1_0000_0000 == 0
  {
  }

  /** ftol. */
  method Ftol(f: Float) returns (h: byte, l: byte, d: byte, e: byte)
    ensures Exp(f) < 88 ==> Signed32(Four(h, l, d, e)) == FloatToLong(f)
    ensures (Signed32(Four(h, l, d, e)) - FloatToLong(f)) % 0x1_0000_0000 == 0
  {
    hide Four, Three, Signed, Pow2, Cropped, Signed32, Descend;
    h, l, d, e := SignedMantissa(f);
    ghost var x := Four(h, l, d, e);
    var a := (f.h % 128 - 88) % 256;
    if a < 128 {
      h, l, d, e := Allsh(h, l, d, e, a);
      ShiftedLeft(x, Four(h, l, d, e), a);
      return;
    }
    var n := 256 - a - 1;
    Shrinks(Signed(f), Pow2(n));
    SignedRange(f);
    PowersSmall();
    if n != 0 {
      h, l, d, e := Alrsh(h, l, d, e, n);
    }
    h, l, d, e := AddOne(h, l, d, e);
    h, l, d, e := Alrsh(h, l, d, e, 1);
    RoundedShift(Signed(f), n);
  }

  lemma PowersSmall()
    ensures Pow2(0) == 1 && Pow2(1) == 2
  {
  }

  lemma SignedRange(f: Float)
    ensures -0x100_0000 <= Signed(f) < 0x100_0000
  {
  }

  // ---------------------------------------------------------------- what the result is in real numbers

  /** `q` is the whole number nearest to `x`, the upper one of two that are as near. */
  predicate RoundsTo(x: real, q: int) {
    q as real - 0.5 <= x < q as real + 0.5
  }

  /** ftol rounds the value to the nearest whole number, halves up, for every float but the negative zeros with an exponent
      of 64 or more. */
  lemma FloatToLongExact(f: Float)
    ensures RoundsTo(Value(f), FloatToLong(f)) <==> !(Negative(f) && Man(f) == 0 && Exp(f) >= 64)
  {
    hide Size, FloatToLong;
    if Negative(f) && Man(f) == 0 {
      ZeroOf(f);
      if Exp(f) >= 88 { NegativeZeroUp(f); } else { NegativeZeroDown(f); }
    } else if Exp(f) >= 88 {
      ValueUp(f);
    } else {
      ValueDown(f);
    }
  }

  lemma NegativeZeroUp(f: Float)
    requires Negative(f) && Man(f) == 0 && Exp(f) >= 88
    ensures FloatToLong(f) < 0
  {
    Something(0x100_0000, Pow2(Exp(f) - 88));
  }

  lemma NegativeZeroDown(f: Float)
    requires Negative(f) && Man(f) == 0 && Exp(f) < 88
    ensures FloatToLong(f) == 0 <==> Exp(f) < 64
  {
    hide Descend, Pow2, Man, Negative;
    DescendNothing(88 - Exp(f));
  }

  lemma DescendNothing(k: nat)
    requires k > 0
    ensures Descend(-0x100_0000, k) == 0 <==> k > 24
  {
    var w: int := Pow2(k - 1);
    assert Pow2(k) == 2 * w;
    Pow24();
    if k > 24 { PowGrows(24, k - 1); } else { PowGrows(k - 1, 23); }
    hide Pow2;
    if k > 24 {
      FlooredQuotient(0, 2 * w, w - 0x100_0000);
    } else {
      Below(w - 0x100_0000, 2 * w);
    }
  }

  lemma Below(s: int, w: nat)
    requires w > 0 && s < 0
    ensures s / w < 0
  {
    Shrinks(s, w);
  }

  lemma Pow24()
    ensures Pow2(24) == 0x100_0000 && Pow2(23) == 0x80_0000
  {
    Pow23();
    assert Pow2(24) == 2 * Pow2(23);
  }

  lemma ValueUp(f: Float)
    requires Exp(f) >= 88 && !(Negative(f) && Man(f) == 0)
    ensures Value(f) == FloatToLong(f) as real
  {
    var k := Exp(f) - 88;
    ScaleWhole(k);
    TimesWhole(Man(f), Pow2(k));
    SignedParts(f);
    hide Times, Scale, Pow2, Man, Exp, Negative, Signed, Descend;
    Opposite(Man(f), Pow2(k));
  }

  lemma SignedParts(f: Float)
    requires !(Negative(f) && Man(f) == 0)
    ensures Signed(f) == if Negative(f) then -(Man(f) as int) else Man(f)
  {
    hide Man, Negative;
  }

  lemma Opposite(m: int, p: int)
    ensures (-m) * p == -(m * p)
  {
  }

  lemma ValueDown(f: Float)
    requires Exp(f) < 88 && !(Negative(f) && Man(f) == 0)
    ensures RoundsTo(Value(f), FloatToLong(f))
  {
    var k := 88 - Exp(f);
    var w := Pow2(k - 1);
    ScaleSum(-k, k);
    ScaleWhole(k);
    TimesAssoc(Man(f) as real, Scale(-k), Scale(k));
    hide Times, Scale, Man, Exp, Negative;
    TimesOne(Man(f) as real);
    MinusTimes(Size(f), Pow2(k) as real);
    assert Pow2(k) == 2 * w;
    hide Pow2, Size;
    Nearby(Value(f), Signed(f), w);
  }

  lemma MinusTimes(x: real, y: real)
    ensures Times(-x, y) == -Times(x, y)
  {
  }

  lemma Nearby(x: real, s: int, w: nat)
    requires w > 0 && Times(x, (2 * w) as real) == s as real
    ensures RoundsTo(x, (s + w) / (2 * w))
  {
    var q := (s + w) / (2 * w);
    assert s + w == q * (2 * w) + (s + w) % (2 * w);
    TimesWhole(q, 2 * w);
    var u := (2 * w) as real;
    hide Times;
    var p := Times(q as real, u);
    assert p == (q * (2 * w)) as real;
    assert p <= s as real + w as real < p + 2.0 * w as real;
    TimesMinus(q as real, 0.5, u);
    TimesMinus(q as real, -0.5, u);
    Half(u);
    TimesOrder(q as real - 0.5, x, u);
    TimesOrder(x, q as real + 0.5, u);
  }

  // ---------------------------------------------------------------- there and back

  /** A long of up to 24 bits, or 2^24 itself, comes back as it was. */
  lemma LongRoundTrip(n: int)
    requires -0x100_0000 <= n <= 0x100_0000
    ensures FloatToLong(SignedToFloat(n)) == n
  {
    hide LongToFloat, Three, FloatToLong, Man, Exp, Negative;
    PositiveResult(Abs(n));
    var f := LongToFloat(Abs(n));
    var g := SignedToFloat(n);
    SignOn(f);
    if n == 0 {
      NothingBack(f);
    } else {
      SmallParts(Abs(n));
      SmallBack(g, n);
    }
  }

  lemma SignOn(f: Float)
    requires f.h < 128
    ensures var g := Minus(f); Man(g) == Man(f) && Exp(g) == Exp(f) && Negative(g) && !Negative(f)
  {
  }

  lemma NothingBack(f: Float)
    requires f == LongToFloat(0)
    ensures FloatToLong(f) == 0
  {
    hide Pow2, Descend;
    MakeParts(false, 88, 0);
    Multiplied(0, 88 - Exp(f));
  }

  /** The mantissa is the number shifted up as far as the exponent is below 88, or 2^24 shifted down. */
  lemma SmallParts(n: nat)
    requires 0 < n <= 0x100_0000
    ensures var f := LongToFloat(n);
      if n == 0x100_0000 then Man(f) == 0x80_0000 && Exp(f) == 89
      else Exp(f) <= 88 && Man(f) == n * Pow2(88 - Exp(f))
  {
    if n < 0x100_0000 {
      MakeParts(false, 88, n);
      LeadBound(n);
      var k := Lead(n);
      MakeParts(false, 88 - k, n * Pow2(k));
    } else {
      OverPowers();
      assert HalfUp(n, 2) == 0x80_0000;
      MakeParts(false, 89, 0x80_0000);
    }
  }

  lemma SmallBack(g: Float, n: int)
    requires n != 0 && (Negative(g) <==> n < 0) && -0x100_0000 <= n <= 0x100_0000
    requires if Abs(n) == 0x100_0000 then Man(g) == 0x80_0000 && Exp(g) == 89
             else Exp(g) <= 88 && Man(g) == Abs(n) * Pow2(88 - Exp(g))
    ensures FloatToLong(g) == n
  {
    hide Man, Exp, Pow2, Descend;
    PowersSmall();
    if Abs(n) != 0x100_0000 {
      var k := 88 - Exp(g);
      Something(Abs(n), Pow2(k));
      if k > 0 { Multiplied(n, k); }
    }
  }

  lemma Something(n: nat, p: nat)
    requires n > 0 && p > 0
    ensures n * p > 0 && (-(n as int)) * p == -(n * p)
  {
  }

  lemma Multiplied(n: int, k: nat)
    requires k > 0
    ensures Descend(n * Pow2(k), k) == n
    ensures n == 0 ==> Descend(0, k) == 0
  {
    FlooredQuotient(n, Pow2(k), n * Pow2(k) + Pow2(k - 1));
  }
}
