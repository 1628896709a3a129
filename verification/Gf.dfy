/** Arithmetic in GF(2^8) as testaes.c does it: no tables, logarithms and antilogarithms to the base 3
    found by counting. The field is that of section 4 of FIPS 197. */
module Gf {

  /** Addition in the field. A function of its own, so that proofs can treat it as no more than that. */
  function Xor(a: bv8, b: bv8): bv8 {
    a ^ b
  }

  /** Multiplication by x, i.e. by 2 (section 4.2.1 of FIPS 197). */
  function Xtime(x: bv8): bv8 {
    if x & 0x80 != 0 then (x << 1) ^ 0x1b else x << 1
  }

  /** Multiplication by 3, as the loops of the source step. */
  function Triple(x: bv8): bv8 {
    Xor(Xtime(x), x)
  }

  /** Multiplication: the sum of the multiples of `b` by the powers of x that the low `n` bits of `a` contain. */
  function MulBits(a: bv8, b: bv8, n: nat): bv8
    decreases n
  {
    if n == 0 then 0 else Xor(if a & 1 != 0 then b else 0, MulBits(a >> 1, Xtime(b), n - 1))
  }

  /** Multiplication in the field (section 4.2). */
  function Mul(a: bv8, b: bv8): bv8 {
    MulBits(a, b, 8)
  }

  // ---------------------------------------------------------------- the laws of addition

  lemma XorZero(a: bv8)
    ensures Xor(0, a) == a && Xor(a, 0) == a
  {
  }

  lemma XorSelf(a: bv8, b: bv8)
    ensures Xor(Xor(a, b), b) == a
  {
  }

  lemma FourTerms(a: bv8, b: bv8, c: bv8, d: bv8)
    ensures (a ^ b) ^ (c ^ d) == (a ^ c) ^ (b ^ d)
  {
  }

  lemma XorPairs(a: bv8, b: bv8, c: bv8, d: bv8)
    ensures Xor(Xor(a, b), Xor(c, d)) == (a ^ b) ^ (c ^ d)
  {
  }

  lemma XorFour(a: bv8, b: bv8, c: bv8, d: bv8)
    ensures Xor(Xor(a, b), Xor(c, d)) == Xor(Xor(a, c), Xor(b, d))
  {
    hide Xor;
    XorPairs(a, b, c, d);
    XorPairs(a, c, b, d);
    FourTerms(a, b, c, d);
  }

  lemma XtimeSum(a: bv8, b: bv8)
    ensures Xtime(Xor(a, b)) == Xor(Xtime(a), Xtime(b))
  {
    if a & 0x80 != 0 {
      if b & 0x80 != 0 { XtimeBoth(a, b); } else { XtimeOne(a, b); }
    } else {
      if b & 0x80 != 0 { XtimeOne(b, a); XorSwap(a, b); XorSwap(Xtime(a), Xtime(b)); } else { XtimeNone(a, b); }
    }
  }

  lemma XorSwap(a: bv8, b: bv8)
    ensures Xor(a, b) == Xor(b, a)
  {
  }

  lemma XtimeNone(a: bv8, b: bv8)
    requires a & 0x80 == 0 && b & 0x80 == 0
    ensures Xtime(Xor(a, b)) == Xor(Xtime(a), Xtime(b))
  {
  }

  lemma XtimeOne(a: bv8, b: bv8)
    requires a & 0x80 != 0 && b & 0x80 == 0
    ensures Xtime(Xor(a, b)) == Xor(Xtime(a), Xtime(b))
  {
  }

  lemma XtimeBoth(a: bv8, b: bv8)
    requires a & 0x80 != 0 && b & 0x80 != 0
    ensures Xtime(Xor(a, b)) == Xor(Xtime(a), Xtime(b))
  {
  }

  // ---------------------------------------------------------------- the laws of multiplication

  lemma {:induction false} MulSum(a: bv8, b: bv8, c: bv8, n: nat)
    ensures MulBits(a, Xor(b, c), n) == Xor(MulBits(a, b, n), MulBits(a, c, n))
    decreases n
  {
    hide Xor, Xtime;
    if n == 0 {
      XorZero(0);
    } else {
      XtimeSum(b, c);
      MulSum(a >> 1, Xtime(b), Xtime(c), n - 1);
      XorZero(0);
      XorFour(if a & 1 != 0 then b else 0, if a & 1 != 0 then c else 0,
              MulBits(a >> 1, Xtime(b), n - 1), MulBits(a >> 1, Xtime(c), n - 1));
    }
  }

  lemma XtimeZero()
    ensures Xtime(0) == 0
  {
  }

  lemma {:induction false} MulXtime(a: bv8, b: bv8, n: nat)
    ensures MulBits(a, Xtime(b), n) == Xtime(MulBits(a, b, n))
    decreases n
  {
    hide Xor, Xtime;
    XtimeZero();
    if n > 0 {
      MulXtime(a >> 1, Xtime(b), n - 1);
      XtimeSum(if a & 1 != 0 then b else 0, MulBits(a >> 1, Xtime(b), n - 1));
    }
  }

  lemma MulTriple(a: bv8, b: bv8)
    ensures Mul(a, Triple(b)) == Triple(Mul(a, b))
  {
    hide Xor, Xtime, MulBits;
    MulSum(a, Xtime(b), b, 8);
    MulXtime(a, b, 8);
  }

  /** One is the unit: the bits of `a` are put back one by one. */
  lemma MulOne(a: bv8)
    ensures Mul(a, 1) == a
  {
    MulOneHigh(a >> 4);
    assert MulBits(a >> 3, 0x08, 5) == Xor(if (a >> 3) & 1 != 0 then 0x08 else 0, (a >> 4) << 4);
    assert MulBits(a >> 2, 0x04, 6) == Xor(if (a >> 2) & 1 != 0 then 0x04 else 0, MulBits(a >> 3, 0x08, 5));
    assert MulBits(a >> 1, 0x02, 7) == Xor(if (a >> 1) & 1 != 0 then 0x02 else 0, MulBits(a >> 2, 0x04, 6));
  }

  lemma MulOneHigh(a: bv8)
    requires a < 0x10
    ensures MulBits(a, 0x10, 4) == a << 4
  {
    assert MulBits(a >> 4, 0x1b, 0) == 0;
    assert MulBits(a >> 3, 0x80, 1) == Xor(if (a >> 3) & 1 != 0 then 0x80 else 0, 0);
    assert MulBits(a >> 2, 0x40, 2) == Xor(if (a >> 2) & 1 != 0 then 0x40 else 0, MulBits(a >> 3, 0x80, 1));
    assert MulBits(a >> 1, 0x20, 3) == Xor(if (a >> 1) & 1 != 0 then 0x20 else 0, MulBits(a >> 2, 0x40, 2));
  }

  // ---------------------------------------------------------------- powers of 3

  /** The n-th power of 3. */
  function Alog(n: nat): bv8 {
    if n == 0 then 1 else Triple(Alog(n - 1))
  }

  lemma {:induction false} AlogSum(m: nat, n: nat)
    ensures Alog(m + n) == Mul(Alog(m), Alog(n))
  {
    hide Mul, Triple;
    if n == 0 {
      MulOne(Alog(m));
    } else {
      AlogSum(m, n - 1);
      MulTriple(Alog(m), Alog(n - 1));
    }
  }

  ghost predicate IsPower(x: bv8) {
    exists k :: 0 <= k < 255 && Alog(k) == x
  }

  lemma Powers0()
    ensures Alog(1) == 0x03 && Alog(2) == 0x05 && Alog(3) == 0x0f && Alog(4) == 0x11 && Alog(5) == 0x33 && Alog(6) == 0x55 && Alog(7) == 0xff && Alog(8) == 0x1a
    ensures Alog(9) == 0x2e && Alog(10) == 0x72 && Alog(11) == 0x96 && Alog(12) == 0xa1 && Alog(13) == 0xf8 && Alog(14) == 0x13 && Alog(15) == 0x35 && Alog(16) == 0x5f
    ensures Alog(17) == 0xe1 && Alog(18) == 0x38 && Alog(19) == 0x48 && Alog(20) == 0xd8 && Alog(21) == 0x73 && Alog(22) == 0x95 && Alog(23) == 0xa4 && Alog(24) == 0xf7
    ensures Alog(25) == 0x02 && Alog(26) == 0x06 && Alog(27) == 0x0a && Alog(28) == 0x1e && Alog(29) == 0x22 && Alog(30) == 0x66 && Alog(31) == 0xaa && Alog(32) == 0xe5
  {
  }

  lemma Powers1()
    requires Alog(32) == 0xe5
    ensures Alog(33) == 0x34 && Alog(34) == 0x5c && Alog(35) == 0xe4 && Alog(36) == 0x37 && Alog(37) == 0x59 && Alog(38) == 0xeb && Alog(39) == 0x26 && Alog(40) == 0x6a
    ensures Alog(41) == 0xbe && Alog(42) == 0xd9 && Alog(43) == 0x70 && Alog(44) == 0x90 && Alog(45) == 0xab && Alog(46) == 0xe6 && Alog(47) == 0x31 && Alog(48) == 0x53
    ensures Alog(49) == 0xf5 && Alog(50) == 0x04 && Alog(51) == 0x0c && Alog(52) == 0x14 && Alog(53) == 0x3c && Alog(54) == 0x44 && Alog(55) == 0xcc && Alog(56) == 0x4f
    ensures Alog(57) == 0xd1 && Alog(58) == 0x68 && Alog(59) == 0xb8 && Alog(60) == 0xd3 && Alog(61) == 0x6e && Alog(62) == 0xb2 && Alog(63) == 0xcd && Alog(64) == 0x4c
  {
  }

  lemma Powers2()
    requires Alog(64) == 0x4c
    ensures Alog(65) == 0xd4 && Alog(66) == 0x67 && Alog(67) == 0xa9 && Alog(68) == 0xe0 && Alog(69) == 0x3b && Alog(70) == 0x4d && Alog(71) == 0xd7 && Alog(72) == 0x62
    ensures Alog(73) == 0xa6 && Alog(74) == 0xf1 && Alog(75) == 0x08 && Alog(76) == 0x18 && Alog(77) == 0x28 && Alog(78) == 0x78 && Alog(79) == 0x88 && Alog(80) == 0x83
    ensures Alog(81) == 0x9e && Alog(82) == 0xb9 && Alog(83) == 0xd0 && Alog(84) == 0x6b && Alog(85) == 0xbd && Alog(86) == 0xdc && Alog(87) == 0x7f && Alog(88) == 0x81
    ensures Alog(89) == 0x98 && Alog(90) == 0xb3 && Alog(91) == 0xce && Alog(92) == 0x49 && Alog(93) == 0xdb && Alog(94) == 0x76 && Alog(95) == 0x9a && Alog(96) == 0xb5
  {
  }

  lemma Powers3()
    requires Alog(96) == 0xb5
    ensures Alog(97) == 0xc4 && Alog(98) == 0x57 && Alog(99) == 0xf9 && Alog(100) == 0x10 && Alog(101) == 0x30 && Alog(102) == 0x50 && Alog(103) == 0xf0 && Alog(104) == 0x0b
    ensures Alog(105) == 0x1d && Alog(106) == 0x27 && Alog(107) == 0x69 && Alog(108) == 0xbb && Alog(109) == 0xd6 && Alog(110) == 0x61 && Alog(111) == 0xa3 && Alog(112) == 0xfe
    ensures Alog(113) == 0x19 && Alog(114) == 0x2b && Alog(115) == 0x7d && Alog(116) == 0x87 && Alog(117) == 0x92 && Alog(118) == 0xad && Alog(119) == 0xec && Alog(120) == 0x2f
    ensures Alog(121) == 0x71 && Alog(122) == 0x93 && Alog(123) == 0xae && Alog(124) == 0xe9 && Alog(125) == 0x20 && Alog(126) == 0x60 && Alog(127) == 0xa0 && Alog(128) == 0xfb
  {
  }

  lemma Powers4()
    requires Alog(128) == 0xfb
    ensures Alog(129) == 0x16 && Alog(130) == 0x3a && Alog(131) == 0x4e && Alog(132) == 0xd2 && Alog(133) == 0x6d && Alog(134) == 0xb7 && Alog(135) == 0xc2 && Alog(136) == 0x5d
    ensures Alog(137) == 0xe7 && Alog(138) == 0x32 && Alog(139) == 0x56 && Alog(140) == 0xfa && Alog(141) == 0x15 && Alog(142) == 0x3f && Alog(143) == 0x41 && Alog(144) == 0xc3
    ensures Alog(145) == 0x5e && Alog(146) == 0xe2 && Alog(147) == 0x3d && Alog(148) == 0x47 && Alog(149) == 0xc9 && Alog(150) == 0x40 && Alog(151) == 0xc0 && Alog(152) == 0x5b
    ensures Alog(153) == 0xed && Alog(154) == 0x2c && Alog(155) == 0x74 && Alog(156) == 0x9c && Alog(157) == 0xbf && Alog(158) == 0xda && Alog(159) == 0x75 && Alog(160) == 0x9f
  {
  }

  lemma Powers5()
    requires Alog(160) == 0x9f
    ensures Alog(161) == 0xba && Alog(162) == 0xd5 && Alog(163) == 0x64 && Alog(164) == 0xac && Alog(165) == 0xef && Alog(166) == 0x2a && Alog(167) == 0x7e && Alog(168) == 0x82
    ensures Alog(169) == 0x9d && Alog(170) == 0xbc && Alog(171) == 0xdf && Alog(172) == 0x7a && Alog(173) == 0x8e && Alog(174) == 0x89 && Alog(175) == 0x80 && Alog(176) == 0x9b
    ensures Alog(177) == 0xb6 && Alog(178) == 0xc1 && Alog(179) == 0x58 && Alog(180) == 0xe8 && Alog(181) == 0x23 && Alog(182) == 0x65 && Alog(183) == 0xaf && Alog(184) == 0xea
    ensures Alog(185) == 0x25 && Alog(186) == 0x6f && Alog(187) == 0xb1 && Alog(188) == 0xc8 && Alog(189) == 0x43 && Alog(190) == 0xc5 && Alog(191) == 0x54 && Alog(192) == 0xfc
  {
  }

  lemma Powers6()
    requires Alog(192) == 0xfc
    ensures Alog(193) == 0x1f && Alog(194) == 0x21 && Alog(195) == 0x63 && Alog(196) == 0xa5 && Alog(197) == 0xf4 && Alog(198) == 0x07 && Alog(199) == 0x09 && Alog(200) == 0x1b
    ensures Alog(201) == 0x2d && Alog(202) == 0x77 && Alog(203) == 0x99 && Alog(204) == 0xb0 && Alog(205) == 0xcb && Alog(206) == 0x46 && Alog(207) == 0xca && Alog(208) == 0x45
    ensures Alog(209) == 0xcf && Alog(210) == 0x4a && Alog(211) == 0xde && Alog(212) == 0x79 && Alog(213) == 0x8b && Alog(214) == 0x86 && Alog(215) == 0x91 && Alog(216) == 0xa8
    ensures Alog(217) == 0xe3 && Alog(218) == 0x3e && Alog(219) == 0x42 && Alog(220) == 0xc6 && Alog(221) == 0x51 && Alog(222) == 0xf3 && Alog(223) == 0x0e && Alog(224) == 0x12
  {
  }

  lemma Powers7()
    requires Alog(224) == 0x12
    ensures Alog(225) == 0x36 && Alog(226) == 0x5a && Alog(227) == 0xee && Alog(228) == 0x29 && Alog(229) == 0x7b && Alog(230) == 0x8d && Alog(231) == 0x8c && Alog(232) == 0x8f
    ensures Alog(233) == 0x8a && Alog(234) == 0x85 && Alog(235) == 0x94 && Alog(236) == 0xa7 && Alog(237) == 0xf2 && Alog(238) == 0x0d && Alog(239) == 0x17 && Alog(240) == 0x39
    ensures Alog(241) == 0x4b && Alog(242) == 0xdd && Alog(243) == 0x7c && Alog(244) == 0x84 && Alog(245) == 0x97 && Alog(246) == 0xa2 && Alog(247) == 0xfd && Alog(248) == 0x1c
    ensures Alog(249) == 0x24 && Alog(250) == 0x6c && Alog(251) == 0xb4 && Alog(252) == 0xc7 && Alog(253) == 0x52 && Alog(254) == 0xf6 && Alog(255) == 0x01
  {
  }

  /** 3 generates: its first 255 powers are all the non-zero bytes, and the next is 1 again. */
  lemma Generates(x: bv8)
    ensures Alog(255) == 1
    ensures x != 0 ==> IsPower(x)
  {
    hide Triple;
    assert Alog(0) == 1;
    Powers0();
    Powers1();
    Powers2();
    Powers3();
    Powers4();
    Powers5();
    Powers6();
    Powers7();
    if x != 0 {
      AllBytes(x);
    }
  }

  lemma AllBytes(x: bv8)
    requires x != 0
    ensures x == 0x01 || x == 0x03 || x == 0x05 || x == 0x0f || x == 0x11 || x == 0x33 || x == 0x55 || x == 0xff || x == 0x1a || x == 0x2e
          || x == 0x72 || x == 0x96 || x == 0xa1 || x == 0xf8 || x == 0x13 || x == 0x35 || x == 0x5f || x == 0xe1 || x == 0x38 || x == 0x48
          || x == 0xd8 || x == 0x73 || x == 0x95 || x == 0xa4 || x == 0xf7 || x == 0x02 || x == 0x06 || x == 0x0a || x == 0x1e || x == 0x22
          || x == 0x66 || x == 0xaa || x == 0xe5 || x == 0x34 || x == 0x5c || x == 0xe4 || x == 0x37 || x == 0x59 || x == 0xeb || x == 0x26
          || x == 0x6a || x == 0xbe || x == 0xd9 || x == 0x70 || x == 0x90 || x == 0xab || x == 0xe6 || x == 0x31 || x == 0x53 || x == 0xf5
          || x == 0x04 || x == 0x0c || x == 0x14 || x == 0x3c || x == 0x44 || x == 0xcc || x == 0x4f || x == 0xd1 || x == 0x68 || x == 0xb8
          || x == 0xd3 || x == 0x6e || x == 0xb2 || x == 0xcd || x == 0x4c || x == 0xd4 || x == 0x67 || x == 0xa9 || x == 0xe0 || x == 0x3b
          || x == 0x4d || x == 0xd7 || x == 0x62 || x == 0xa6 || x == 0xf1 || x == 0x08 || x == 0x18 || x == 0x28 || x == 0x78 || x == 0x88
          || x == 0x83 || x == 0x9e || x == 0xb9 || x == 0xd0 || x == 0x6b || x == 0xbd || x == 0xdc || x == 0x7f || x == 0x81 || x == 0x98
          || x == 0xb3 || x == 0xce || x == 0x49 || x == 0xdb || x == 0x76 || x == 0x9a || x == 0xb5 || x == 0xc4 || x == 0x57 || x == 0xf9
          || x == 0x10 || x == 0x30 || x == 0x50 || x == 0xf0 || x == 0x0b || x == 0x1d || x == 0x27 || x == 0x69 || x == 0xbb || x == 0xd6
          || x == 0x61 || x == 0xa3 || x == 0xfe || x == 0x19 || x == 0x2b || x == 0x7d || x == 0x87 || x == 0x92 || x == 0xad || x == 0xec
          || x == 0x2f || x == 0x71 || x == 0x93 || x == 0xae || x == 0xe9 || x == 0x20 || x == 0x60 || x == 0xa0 || x == 0xfb || x == 0x16
          || x == 0x3a || x == 0x4e || x == 0xd2 || x == 0x6d || x == 0xb7 || x == 0xc2 || x == 0x5d || x == 0xe7 || x == 0x32 || x == 0x56
          || x == 0xfa || x == 0x15 || x == 0x3f || x == 0x41 || x == 0xc3 || x == 0x5e || x == 0xe2 || x == 0x3d || x == 0x47 || x == 0xc9
          || x == 0x40 || x == 0xc0 || x == 0x5b || x == 0xed || x == 0x2c || x == 0x74 || x == 0x9c || x == 0xbf || x == 0xda || x == 0x75
          || x == 0x9f || x == 0xba || x == 0xd5 || x == 0x64 || x == 0xac || x == 0xef || x == 0x2a || x == 0x7e || x == 0x82 || x == 0x9d
          || x == 0xbc || x == 0xdf || x == 0x7a || x == 0x8e || x == 0x89 || x == 0x80 || x == 0x9b || x == 0xb6 || x == 0xc1 || x == 0x58
          || x == 0xe8 || x == 0x23 || x == 0x65 || x == 0xaf || x == 0xea || x == 0x25 || x == 0x6f || x == 0xb1 || x == 0xc8 || x == 0x43
          || x == 0xc5 || x == 0x54 || x == 0xfc || x == 0x1f || x == 0x21 || x == 0x63 || x == 0xa5 || x == 0xf4 || x == 0x07 || x == 0x09
          || x == 0x1b || x == 0x2d || x == 0x77 || x == 0x99 || x == 0xb0 || x == 0xcb || x == 0x46 || x == 0xca || x == 0x45 || x == 0xcf
          || x == 0x4a || x == 0xde || x == 0x79 || x == 0x8b || x == 0x86 || x == 0x91 || x == 0xa8 || x == 0xe3 || x == 0x3e || x == 0x42
          || x == 0xc6 || x == 0x51 || x == 0xf3 || x == 0x0e || x == 0x12 || x == 0x36 || x == 0x5a || x == 0xee || x == 0x29 || x == 0x7b
          || x == 0x8d || x == 0x8c || x == 0x8f || x == 0x8a || x == 0x85 || x == 0x94 || x == 0xa7 || x == 0xf2 || x == 0x0d || x == 0x17
          || x == 0x39 || x == 0x4b || x == 0xdd || x == 0x7c || x == 0x84 || x == 0x97 || x == 0xa2 || x == 0xfd || x == 0x1c || x == 0x24
          || x == 0x6c || x == 0xb4 || x == 0xc7 || x == 0x52 || x == 0xf6
  {
  }
}
