/** Bytes as the C programs see them: numbers below 256, their bits, and little-endian fields. */
module Bytes {

  type byte = x: int | 0 <= x < 256

  datatype Option<+T> = None | Some(value: T)

  function Pow2(n: nat): (p: nat)
    ensures p > 0
  {
    if n == 0 then 1 else 2 * Pow2(n - 1)
  }

  lemma {:induction false} PowGrows(m: nat, n: nat)
    requires m <= n
    ensures Pow2(m) <= Pow2(n)
  {
    if m < n { PowGrows(m, n - 1); }
  }

  lemma {:induction false} PowSum(m: nat, n: nat)
    ensures Pow2(m) * Pow2(n) == Pow2(m + n)
    decreases n
  {
    if n > 0 {
      PowSum(m, n - 1);
      assert Pow2(m) * (2 * Pow2(n - 1)) == 2 * (Pow2(m) * Pow2(n - 1));
    }
  }

  /** Bit `k` of `b`, the lowest being bit 0: `b & (1 << k)` is not zero. */
  predicate BitOf(b: nat, k: nat) {
    if k == 0 then b % 2 == 1 else BitOf(b / 2, k - 1)
  }

  /** `b` with bit `k` made `v`: `b | (1 << k)` or `b & ~(1 << k)`. */
  function WithBit(b: nat, k: nat, v: bool): nat {
    if k == 0 then b / 2 * 2 + (if v then 1 else 0) else 2 * WithBit(b / 2, k - 1, v) + b % 2
  }

  lemma {:induction false} WithBitSets(b: nat, k: nat, v: bool, j: nat)
    ensures BitOf(WithBit(b, k, v), j) == (if j == k then v else BitOf(b, j))
  {
    if k > 0 {
      assert WithBit(b, k, v) / 2 == WithBit(b / 2, k - 1, v);
      if j > 0 { WithBitSets(b / 2, k - 1, v, j - 1); }
    } else {
      assert WithBit(b, k, v) / 2 == b / 2;
    }
  }

  lemma {:induction false} WithBitBound(b: nat, k: nat, v: bool, n: nat)
    requires k < n && b < Pow2(n)
    ensures WithBit(b, k, v) < Pow2(n)
  {
    if k > 0 { WithBitBound(b / 2, k - 1, v, n - 1); }
  }

  lemma ByteWide()
    ensures Pow2(8) == 256
  {
    assert Pow2(4) == 16;
  }

  function WithBit8(b: byte, k: nat, v: bool): byte
    requires k < 8
  {
    ByteWide();
    WithBitBound(b, k, v, 8);
    WithBit(b, k, v)
  }

  lemma {:induction false} ZeroBits(k: nat)
    ensures !BitOf(0, k)
  {
    if k > 0 { ZeroBits(k - 1); }
  }

  /** The bits of a byte string, lowest of each byte first. */
  function BitsOf(s: seq<byte>): (r: seq<bool>)
    ensures |r| == 8 * |s|
  {
    seq(8 * |s|, i requires 0 <= i < 8 * |s| => BitOf(s[i / 8], i % 8))
  }

  /** The 16-bit and 32-bit numbers stored low byte first at `a`. */
  function U2At(s: seq<byte>, a: nat): (v: nat)
    requires a + 2 <= |s|
    ensures v < 0x1_0000
  {
    (s[a] as int) + 256 * (s[a + 1] as int)
  }

  function U4At(s: seq<byte>, a: nat): (v: nat)
    requires a + 4 <= |s|
    ensures v < 0x1_0000_0000
  {
    U2At(s, a) + 0x1_0000 * U2At(s, a + 2)
  }
}
