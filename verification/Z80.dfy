/** The register operations of the arithmetic kernels: values of fixed width with the carry made explicit. Each
    contract says what the operation does to the number the registers hold. */
module Z80 {
  import opened Bytes

  type word = x: int | 0 <= x < 0x1_0000

  datatype Word = Word(w: word, c: bool)
  datatype Byte = Byte(b: byte, c: bool)

  function Bit(c: bool): nat {
    if c then 1 else 0
  }

  /** add hl,rr and adc hl,rr. */
  function Adc(x: word, y: word, c: bool): (r: Word)
    ensures r.w + 0x1_0000 * Bit(r.c) == x + y + Bit(c)
  {
    var s := x + y + Bit(c);
    if s < 0x1_0000 then Word(s, false) else Word(s - 0x1_0000, true)
  }

  /** sbc hl,rr: the carry is the borrow. */
  function Sbc(x: word, y: word, c: bool): (r: Word)
    ensures r.w == x - y - Bit(c) + 0x1_0000 * Bit(r.c)
  {
    var s := x - y - Bit(c);
    if s >= 0 then Word(s, false) else Word(s + 0x1_0000, true)
  }

  /** sbc a,r. */
  function Sbc8(x: byte, y: byte, c: bool): (r: Byte)
    ensures r.b == x - y - Bit(c) + 256 * Bit(r.c)
  {
    var s := x - y - Bit(c);
    if s >= 0 then Byte(s, false) else Byte(s + 256, true)
  }

  /** 8-bit arithmetic: a sum or difference as the accumulator holds it. */
  function Wrap8(x: int): byte {
    x % 256
  }

  lemma Wrap8Add(x: int, y: int)
    ensures Wrap8(Wrap8(x) + y) == Wrap8(x + y)
  {
  }

  /** Within these limits the sign bit tells a sum that is out of range from one that is not. */
  lemma Wrap8Is(x: int)
    requires -128 <= x < 256
    ensures if 0 <= x < 256 then Wrap8(x) == x else Wrap8(x) == x + 256
  {
  }

  /** rr r; srl r when `c` is clear, sra r when it is bit 7. */
  function Rr(b: byte, c: bool): (r: Byte)
    ensures b + 256 * Bit(c) == 2 * r.b + Bit(r.c)
  {
    Byte(b / 2 + 128 * Bit(c), b % 2 == 1)
  }

  /** rl r; sla r when `c` is clear. */
  function Rl(b: byte, c: bool): (r: Byte)
    ensures 2 * b + Bit(c) == r.b + 256 * Bit(r.c)
  {
    Byte((2 * b + Bit(c)) % 256, b >= 128)
  }

  /** A register pair shifted right, high byte first. */
  function RrPair(w: word, c: bool): (r: Word)
    ensures w + 0x1_0000 * Bit(c) == 2 * r.w + Bit(r.c)
  {
    var hi := Rr(w / 256, c);
    var lo := Rr(w % 256, hi.c);
    Word(256 * hi.b + lo.b, lo.c)
  }

  /** A register pair shifted left, low byte first. */
  function RlPair(w: word, c: bool): (r: Word)
    ensures 2 * w + Bit(c) == r.w + 0x1_0000 * Bit(r.c)
  {
    var lo := Rl(w % 256, c);
    var hi := Rl(w / 256, lo.c);
    Word(256 * hi.b + lo.b, hi.c)
  }

  // ---------------------------------------------------------------- 32 bits in two pairs

  type long = x: int | 0 <= x < 0x1_0000_0000

  function Long(hi: word, lo: word): long {
    0x1_0000 * hi + lo
  }

  datatype Pairs = Pairs(hi: word, lo: word, c: bool)

  /** add on the low words, adc on the high ones. */
  function AddLong(hi: word, lo: word, hi': word, lo': word): (r: Pairs)
    ensures Long(r.hi, r.lo) + 0x1_0000_0000 * Bit(r.c) == Long(hi, lo) + Long(hi', lo')
  {
    var a := Adc(lo, lo', false);
    var b := Adc(hi, hi', a.c);
    Pairs(b.w, a.w, b.c)
  }

  function SubLong(hi: word, lo: word, hi': word, lo': word): (r: Pairs)
    ensures Long(r.hi, r.lo) == Long(hi, lo) - Long(hi', lo') + 0x1_0000_0000 * Bit(r.c)
  {
    var a := Sbc(lo, lo', false);
    var b := Sbc(hi, hi', a.c);
    Pairs(b.w, a.w, b.c)
  }

  function RrLong(hi: word, lo: word, c: bool): (r: Pairs)
    ensures Long(hi, lo) + 0x1_0000_0000 * Bit(c) == 2 * Long(r.hi, r.lo) + Bit(r.c)
  {
    var a := RrPair(hi, c);
    var b := RrPair(lo, a.c);
    Pairs(a.w, b.w, b.c)
  }

  function RlLong(hi: word, lo: word, c: bool): (r: Pairs)
    ensures 2 * Long(hi, lo) + Bit(c) == Long(r.hi, r.lo) + 0x1_0000_0000 * Bit(r.c)
  {
    var b := RlPair(lo, c);
    var a := RlPair(hi, b.c);
    Pairs(a.w, b.w, a.c)
  }

  // ---------------------------------------------------------------- 24 bits in three bytes

  function Three(l: byte, d: byte, e: byte): (m: nat)
    ensures m < 0x100_0000
  {
    0x1_0000 * l + 0x100 * d + e
  }

  datatype Triple = Triple(l: byte, d: byte, e: byte, c: bool)

  function RrThree(l: byte, d: byte, e: byte, c: bool): (r: Triple)
    ensures Three(l, d, e) + 0x100_0000 * Bit(c) == 2 * Three(r.l, r.d, r.e) + Bit(r.c)
  {
    var x := Rr(l, c);
    var y := Rr(d, x.c);
    var z := Rr(e, y.c);
    Triple(x.b, y.b, z.b, z.c)
  }

  function RlThree(l: byte, d: byte, e: byte, c: bool): (r: Triple)
    ensures 2 * Three(l, d, e) + Bit(c) == Three(r.l, r.d, r.e) + 0x100_0000 * Bit(r.c)
  {
    var z := Rl(e, c);
    var y := Rl(d, z.c);
    var x := Rl(l, y.c);
    Triple(x.b, y.b, z.b, x.c)
  }

  // ---------------------------------------------------------------- two's complement

  /** What the bits of a 16-bit or 32-bit register mean as a signed number. */
  function Signed16(x: word): int {
    if x < 0x8000 then x else x - 0x1_0000
  }

  function Signed32(x: long): int {
    if x < 0x8000_0000 then x else x - 0x1_0000_0000
  }
}
