/** The S-box as the table of section 5.1.1 of FIPS 197, and the test vector with which testaes.c ends. */
module AesVector {
  import opened Gf
  import opened Aes
  import opened AesCipher
  import opened Aes256

  // ---------------------------------------------------------------- the S-box

  /** The inverse of a power of 3, whichever of its logarithms is found. */
  lemma InverseAt(n: nat)
    requires n < 255
    ensures MulInv(Alog(n)) == Alog(255 - n)
  {
    AlogNonZero(n);
    LogWorks(Alog(n));
    SameInverse(n, LogFrom(Alog(n), 0));
    hide Alog, LogFrom;
  }

  lemma SameInverse(n: nat, l: nat)
    requires n < 255 && l < 255 && Alog(n) == Alog(l)
    ensures Alog(255 - l) == Alog(255 - n)
  {
    Generates(1);
    hide *;
    // 3^(255 - n) = 3^(255 - n) 3^l 3^(255 - l) = 3^(255 - n) 3^n 3^(255 - l) = 3^(255 - l)
    AlogSum(255 - n, n);
    AlogSum(255 - n, l);
    AlogSum(255 - n + l, 255 - l);
    AlogSum(255 - n, 255);
    AlogSum(255, 255 - l);
    AlogSum(255 - l, 255);
    MulOne(Alog(255 - n));
    MulOne(Alog(255 - l));
  }

  lemma Boxed(n: nat, x: bv8, y: bv8, z: bv8)
    requires n < 255 && Alog(n) == x && Alog(255 - n) == y && Affine(y) == z
    ensures SBox(x) == z
  {
    InverseAt(n);
    hide Triple, Affine;
  }

  lemma Zeroth()
    ensures Alog(0) == 1
  {
  }

  lemma NoneBoxed()
    ensures SBox(0) == 0x63
  {
  }

  lemma Table0()
    ensures SBox(0x00) == 0x63 && SBox(0x01) == 0x7c && SBox(0x02) == 0x77 && SBox(0x03) == 0x7b && SBox(0x04) == 0xf2 && SBox(0x05) == 0x6b && SBox(0x06) == 0x6f && SBox(0x07) == 0xc5
    ensures SBox(0x08) == 0x30 && SBox(0x09) == 0x01 && SBox(0x0a) == 0x67 && SBox(0x0b) == 0x2b && SBox(0x0c) == 0xfe && SBox(0x0d) == 0xd7 && SBox(0x0e) == 0xab && SBox(0x0f) == 0x76
    ensures SBox(0x10) == 0xca && SBox(0x11) == 0x82 && SBox(0x12) == 0xc9 && SBox(0x13) == 0x7d && SBox(0x14) == 0xfa && SBox(0x15) == 0x59 && SBox(0x16) == 0x47 && SBox(0x17) == 0xf0
    ensures SBox(0x18) == 0xad && SBox(0x19) == 0xd4 && SBox(0x1a) == 0xa2 && SBox(0x1b) == 0xaf && SBox(0x1c) == 0x9c && SBox(0x1d) == 0xa4 && SBox(0x1e) == 0x72 && SBox(0x1f) == 0xc0
  {
    hide Alog, SBox;
    Zeroth();
    Powers0(); Powers1(); Powers2(); Powers3(); Powers4(); Powers5(); Powers6(); Powers7();
    NoneBoxed();
    Boxed(0, 0x01, 0x01, 0x7c); Boxed(25, 0x02, 0x8d, 0x77); Boxed(1, 0x03, 0xf6, 0x7b); Boxed(50, 0x04, 0xcb, 0xf2);
    Boxed(2, 0x05, 0x52, 0x6b); Boxed(26, 0x06, 0x7b, 0x6f); Boxed(198, 0x07, 0xd1, 0xc5); Boxed(75, 0x08, 0xe8, 0x30);
    Boxed(199, 0x09, 0x4f, 0x01); Boxed(27, 0x0a, 0x29, 0x67); Boxed(104, 0x0b, 0xc0, 0x2b); Boxed(51, 0x0c, 0xb0, 0xfe);
    Boxed(238, 0x0d, 0xe1, 0xd7); Boxed(223, 0x0e, 0xe5, 0xab); Boxed(3, 0x0f, 0xc7, 0x76); Boxed(100, 0x10, 0x74, 0xca);
    Boxed(4, 0x11, 0xb4, 0x82); Boxed(224, 0x12, 0xaa, 0xc9); Boxed(14, 0x13, 0x4b, 0x7d); Boxed(52, 0x14, 0x99, 0xfa);
    Boxed(141, 0x15, 0x2b, 0x59); Boxed(129, 0x16, 0x60, 0x47); Boxed(239, 0x17, 0x5f, 0xf0); Boxed(76, 0x18, 0x58, 0xad);
    Boxed(113, 0x19, 0x3f, 0xd4); Boxed(8, 0x1a, 0xfd, 0xa2); Boxed(200, 0x1b, 0xcc, 0xaf); Boxed(248, 0x1c, 0xff, 0x9c);
    Boxed(105, 0x1d, 0x40, 0xa4); Boxed(28, 0x1e, 0xee, 0x72); Boxed(193, 0x1f, 0xb2, 0xc0);
  }

  lemma Table1()
    ensures SBox(0x20) == 0xb7 && SBox(0x21) == 0xfd && SBox(0x22) == 0x93 && SBox(0x23) == 0x26 && SBox(0x24) == 0x36 && SBox(0x25) == 0x3f && SBox(0x26) == 0xf7 && SBox(0x27) == 0xcc
    ensures SBox(0x28) == 0x34 && SBox(0x29) == 0xa5 && SBox(0x2a) == 0xe5 && SBox(0x2b) == 0xf1 && SBox(0x2c) == 0x71 && SBox(0x2d) == 0xd8 && SBox(0x2e) == 0x31 && SBox(0x2f) == 0x15
    ensures SBox(0x30) == 0x04 && SBox(0x31) == 0xc7 && SBox(0x32) == 0x23 && SBox(0x33) == 0xc3 && SBox(0x34) == 0x18 && SBox(0x35) == 0x96 && SBox(0x36) == 0x05 && SBox(0x37) == 0x9a
    ensures SBox(0x38) == 0x07 && SBox(0x39) == 0x12 && SBox(0x3a) == 0x80 && SBox(0x3b) == 0xe2 && SBox(0x3c) == 0xeb && SBox(0x3d) == 0x27 && SBox(0x3e) == 0xb2 && SBox(0x3f) == 0x75
  {
    hide Alog, SBox;
    Zeroth();
    Powers0(); Powers1(); Powers2(); Powers3(); Powers4(); Powers5(); Powers6(); Powers7();
    Boxed(125, 0x20, 0x3a, 0xb7); Boxed(194, 0x21, 0x6e, 0xfd); Boxed(29, 0x22, 0x5a, 0x93); Boxed(181, 0x23, 0xf1, 0x26);
    Boxed(249, 0x24, 0x55, 0x36); Boxed(185, 0x25, 0x4d, 0x3f); Boxed(39, 0x26, 0xa8, 0xf7); Boxed(106, 0x27, 0xc9, 0xcc);
    Boxed(77, 0x28, 0xc1, 0x34); Boxed(228, 0x29, 0x0a, 0xa5); Boxed(166, 0x2a, 0x98, 0xe5); Boxed(114, 0x2b, 0x15, 0xf1);
    Boxed(154, 0x2c, 0x30, 0x71); Boxed(201, 0x2d, 0x44, 0xd8); Boxed(9, 0x2e, 0xa2, 0x31); Boxed(120, 0x2f, 0xc2, 0x15);
    Boxed(101, 0x30, 0x2c, 0x04); Boxed(47, 0x31, 0x45, 0xc7); Boxed(138, 0x32, 0x92, 0x23); Boxed(5, 0x33, 0x6c, 0xc3);
    Boxed(33, 0x34, 0xf3, 0x18); Boxed(15, 0x35, 0x39, 0x96); Boxed(225, 0x36, 0x66, 0x05); Boxed(36, 0x37, 0x42, 0x9a);
    Boxed(18, 0x38, 0xf2, 0x07); Boxed(240, 0x39, 0x35, 0x12); Boxed(130, 0x3a, 0x20, 0x80); Boxed(69, 0x3b, 0x6f, 0xe2);
    Boxed(53, 0x3c, 0x77, 0xeb); Boxed(147, 0x3d, 0xbb, 0x27); Boxed(218, 0x3e, 0x59, 0xb2); Boxed(142, 0x3f, 0x19, 0x75);
  }

  lemma Table2()
    ensures SBox(0x40) == 0x09 && SBox(0x41) == 0x83 && SBox(0x42) == 0x2c && SBox(0x43) == 0x1a && SBox(0x44) == 0x1b && SBox(0x45) == 0x6e && SBox(0x46) == 0x5a && SBox(0x47) == 0xa0
    ensures SBox(0x48) == 0x52 && SBox(0x49) == 0x3b && SBox(0x4a) == 0xd6 && SBox(0x4b) == 0xb3 && SBox(0x4c) == 0x29 && SBox(0x4d) == 0xe3 && SBox(0x4e) == 0x2f && SBox(0x4f) == 0x84
    ensures SBox(0x50) == 0x53 && SBox(0x51) == 0xd1 && SBox(0x52) == 0x00 && SBox(0x53) == 0xed && SBox(0x54) == 0x20 && SBox(0x55) == 0xfc && SBox(0x56) == 0xb1 && SBox(0x57) == 0x5b
    ensures SBox(0x58) == 0x6a && SBox(0x59) == 0xcb && SBox(0x5a) == 0xbe && SBox(0x5b) == 0x39 && SBox(0x5c) == 0x4a && SBox(0x5d) == 0x4c && SBox(0x5e) == 0x58 && SBox(0x5f) == 0xcf
  {
    hide Alog, SBox;
    Zeroth();
    Powers0(); Powers1(); Powers2(); Powers3(); Powers4(); Powers5(); Powers6(); Powers7();
    Boxed(150, 0x40, 0x1d, 0x09); Boxed(143, 0x41, 0xfe, 0x83); Boxed(219, 0x42, 0x37, 0x2c); Boxed(189, 0x43, 0x67, 0x1a);
    Boxed(54, 0x44, 0x2d, 0x1b); Boxed(208, 0x45, 0x31, 0x6e); Boxed(206, 0x46, 0xf5, 0x5a); Boxed(148, 0x47, 0x69, 0xa0);
    Boxed(19, 0x48, 0xa7, 0x52); Boxed(92, 0x49, 0x64, 0x3b); Boxed(210, 0x4a, 0xab, 0xd6); Boxed(241, 0x4b, 0x13, 0xb3);
    Boxed(64, 0x4c, 0x54, 0x29); Boxed(70, 0x4d, 0x25, 0xe3); Boxed(131, 0x4e, 0xe9, 0x2f); Boxed(56, 0x4f, 0x09, 0x84);
    Boxed(102, 0x50, 0xed, 0x53); Boxed(221, 0x51, 0x5c, 0xd1); Boxed(253, 0x52, 0x05, 0x00); Boxed(48, 0x53, 0xca, 0xed);
    Boxed(191, 0x54, 0x4c, 0x20); Boxed(6, 0x55, 0x24, 0xfc); Boxed(139, 0x56, 0x87, 0xb1); Boxed(98, 0x57, 0xbf, 0x5b);
    Boxed(179, 0x58, 0x18, 0x6a); Boxed(37, 0x59, 0x3e, 0xcb); Boxed(226, 0x5a, 0x22, 0xbe); Boxed(152, 0x5b, 0xf0, 0x39);
    Boxed(34, 0x5c, 0x51, 0x4a); Boxed(136, 0x5d, 0xec, 0x4c); Boxed(145, 0x5e, 0x61, 0x58); Boxed(16, 0x5f, 0x17, 0xcf);
  }

  lemma Table3()
    ensures SBox(0x60) == 0xd0 && SBox(0x61) == 0xef && SBox(0x62) == 0xaa && SBox(0x63) == 0xfb && SBox(0x64) == 0x43 && SBox(0x65) == 0x4d && SBox(0x66) == 0x33 && SBox(0x67) == 0x85
    ensures SBox(0x68) == 0x45 && SBox(0x69) == 0xf9 && SBox(0x6a) == 0x02 && SBox(0x6b) == 0x7f && SBox(0x6c) == 0x50 && SBox(0x6d) == 0x3c && SBox(0x6e) == 0x9f && SBox(0x6f) == 0xa8
    ensures SBox(0x70) == 0x51 && SBox(0x71) == 0xa3 && SBox(0x72) == 0x40 && SBox(0x73) == 0x8f && SBox(0x74) == 0x92 && SBox(0x75) == 0x9d && SBox(0x76) == 0x38 && SBox(0x77) == 0xf5
    ensures SBox(0x78) == 0xbc && SBox(0x79) == 0xb6 && SBox(0x7a) == 0xda && SBox(0x7b) == 0x21 && SBox(0x7c) == 0x10 && SBox(0x7d) == 0xff && SBox(0x7e) == 0xf3 && SBox(0x7f) == 0xd2
  {
    hide Alog, SBox;
    Zeroth();
    Powers0(); Powers1(); Powers2(); Powers3(); Powers4(); Powers5(); Powers6(); Powers7();
    Boxed(126, 0x60, 0x16, 0xd0); Boxed(110, 0x61, 0x5e, 0xef); Boxed(72, 0x62, 0xaf, 0xaa); Boxed(195, 0x63, 0xd3, 0xfb);
    Boxed(163, 0x64, 0x49, 0x43); Boxed(182, 0x65, 0xa6, 0x4d); Boxed(30, 0x66, 0x36, 0x33); Boxed(66, 0x67, 0x43, 0x85);
    Boxed(58, 0x68, 0xf4, 0x45); Boxed(107, 0x69, 0x47, 0xf9); Boxed(40, 0x6a, 0x91, 0x02); Boxed(84, 0x6b, 0xdf, 0x7f);
    Boxed(250, 0x6c, 0x33, 0x50); Boxed(133, 0x6d, 0x93, 0x3c); Boxed(61, 0x6e, 0x21, 0x9f); Boxed(186, 0x6f, 0x3b, 0xa8);
    Boxed(43, 0x70, 0x79, 0x51); Boxed(121, 0x71, 0xb7, 0xa3); Boxed(10, 0x72, 0x97, 0x40); Boxed(21, 0x73, 0x85, 0x8f);
    Boxed(155, 0x74, 0x10, 0x92); Boxed(159, 0x75, 0xb5, 0x9d); Boxed(94, 0x76, 0xba, 0x38); Boxed(202, 0x77, 0x3c, 0xf5);
    Boxed(78, 0x78, 0xb6, 0xbc); Boxed(212, 0x79, 0x70, 0xb6); Boxed(172, 0x7a, 0xd0, 0xda); Boxed(229, 0x7b, 0x06, 0x21);
    Boxed(243, 0x7c, 0xa1, 0x10); Boxed(115, 0x7d, 0xfa, 0xff); Boxed(167, 0x7e, 0x81, 0xf3); Boxed(87, 0x7f, 0x82, 0xd2);
  }

  lemma Table4()
    ensures SBox(0x80) == 0xcd && SBox(0x81) == 0x0c && SBox(0x82) == 0x13 && SBox(0x83) == 0xec && SBox(0x84) == 0x5f && SBox(0x85) == 0x97 && SBox(0x86) == 0x44 && SBox(0x87) == 0x17
    ensures SBox(0x88) == 0xc4 && SBox(0x89) == 0xa7 && SBox(0x8a) == 0x7e && SBox(0x8b) == 0x3d && SBox(0x8c) == 0x64 && SBox(0x8d) == 0x5d && SBox(0x8e) == 0x19 && SBox(0x8f) == 0x73
    ensures SBox(0x90) == 0x60 && SBox(0x91) == 0x81 && SBox(0x92) == 0x4f && SBox(0x93) == 0xdc && SBox(0x94) == 0x22 && SBox(0x95) == 0x2a && SBox(0x96) == 0x90 && SBox(0x97) == 0x88
    ensures SBox(0x98) == 0x46 && SBox(0x99) == 0xee && SBox(0x9a) == 0xb8 && SBox(0x9b) == 0x14 && SBox(0x9c) == 0xde && SBox(0x9d) == 0x5e && SBox(0x9e) == 0x0b && SBox(0x9f) == 0xdb
  {
    hide Alog, SBox;
    Zeroth();
    Powers0(); Powers1(); Powers2(); Powers3(); Powers4(); Powers5(); Powers6(); Powers7();
    Boxed(175, 0x80, 0x83, 0xcd); Boxed(88, 0x81, 0x7e, 0x0c); Boxed(168, 0x82, 0x7f, 0x13); Boxed(80, 0x83, 0x80, 0xec);
    Boxed(244, 0x84, 0x96, 0x5f); Boxed(234, 0x85, 0x73, 0x97); Boxed(214, 0x86, 0xbe, 0x44); Boxed(116, 0x87, 0x56, 0x17);
    Boxed(79, 0x88, 0x9b, 0xc4); Boxed(174, 0x89, 0x9e, 0xa7); Boxed(233, 0x8a, 0x95, 0x7e); Boxed(213, 0x8b, 0xd9, 0x3d);
    Boxed(231, 0x8c, 0xf7, 0x64); Boxed(230, 0x8d, 0x02, 0x5d); Boxed(173, 0x8e, 0xb9, 0x19); Boxed(232, 0x8f, 0xa4, 0x73);
    Boxed(44, 0x90, 0xde, 0x60); Boxed(215, 0x91, 0x6a, 0x81); Boxed(117, 0x92, 0x32, 0x4f); Boxed(122, 0x93, 0x6d, 0xdc);
    Boxed(235, 0x94, 0xd8, 0x22); Boxed(22, 0x95, 0x8a, 0x2a); Boxed(11, 0x96, 0x84, 0x90); Boxed(245, 0x97, 0x72, 0x88);
    Boxed(89, 0x98, 0x2a, 0x46); Boxed(203, 0x99, 0x14, 0xee); Boxed(95, 0x9a, 0x9f, 0xb8); Boxed(176, 0x9b, 0x88, 0x14);
    Boxed(156, 0x9c, 0xf9, 0xde); Boxed(169, 0x9d, 0xdc, 0x5e); Boxed(81, 0x9e, 0x89, 0x0b); Boxed(160, 0x9f, 0x9a, 0xdb);
  }

  lemma Table5()
    ensures SBox(0xa0) == 0xe0 && SBox(0xa1) == 0x32 && SBox(0xa2) == 0x3a && SBox(0xa3) == 0x0a && SBox(0xa4) == 0x49 && SBox(0xa5) == 0x06 && SBox(0xa6) == 0x24 && SBox(0xa7) == 0x5c
    ensures SBox(0xa8) == 0xc2 && SBox(0xa9) == 0xd3 && SBox(0xaa) == 0xac && SBox(0xab) == 0x62 && SBox(0xac) == 0x91 && SBox(0xad) == 0x95 && SBox(0xae) == 0xe4 && SBox(0xaf) == 0x79
    ensures SBox(0xb0) == 0xe7 && SBox(0xb1) == 0xc8 && SBox(0xb2) == 0x37 && SBox(0xb3) == 0x6d && SBox(0xb4) == 0x8d && SBox(0xb5) == 0xd5 && SBox(0xb6) == 0x4e && SBox(0xb7) == 0xa9
    ensures SBox(0xb8) == 0x6c && SBox(0xb9) == 0x56 && SBox(0xba) == 0xf4 && SBox(0xbb) == 0xea && SBox(0xbc) == 0x65 && SBox(0xbd) == 0x7a && SBox(0xbe) == 0xae && SBox(0xbf) == 0x08
  {
    hide Alog, SBox;
    Zeroth();
    Powers0(); Powers1(); Powers2(); Powers3(); Powers4(); Powers5(); Powers6(); Powers7();
    Boxed(127, 0xa0, 0xfb, 0xe0); Boxed(12, 0xa1, 0x7c, 0x32); Boxed(246, 0xa2, 0x2e, 0x3a); Boxed(111, 0xa3, 0xc3, 0x0a);
    Boxed(23, 0xa4, 0x8f, 0x49); Boxed(196, 0xa5, 0xb8, 0x06); Boxed(73, 0xa6, 0x65, 0x24); Boxed(236, 0xa7, 0x48, 0x5c);
    Boxed(216, 0xa8, 0x26, 0xc2); Boxed(67, 0xa9, 0xc8, 0xd3); Boxed(31, 0xaa, 0x12, 0xac); Boxed(45, 0xab, 0x4a, 0x62);
    Boxed(164, 0xac, 0xce, 0x91); Boxed(118, 0xad, 0xe7, 0x95); Boxed(123, 0xae, 0xd2, 0xe4); Boxed(183, 0xaf, 0x62, 0x79);
    Boxed(204, 0xb0, 0x0c, 0xe7); Boxed(187, 0xb1, 0xe0, 0xc8); Boxed(62, 0xb2, 0x1f, 0x37); Boxed(90, 0xb3, 0xef, 0x6d);
    Boxed(251, 0xb4, 0x11, 0x8d); Boxed(96, 0xb5, 0x75, 0xd5); Boxed(177, 0xb6, 0x78, 0x4e); Boxed(134, 0xb7, 0x71, 0xa9);
    Boxed(59, 0xb8, 0xa5, 0x6c); Boxed(82, 0xb9, 0x8e, 0x56); Boxed(161, 0xba, 0x76, 0xf4); Boxed(108, 0xbb, 0x3d, 0xea);
    Boxed(170, 0xbc, 0xbd, 0x65); Boxed(85, 0xbd, 0xbc, 0x7a); Boxed(41, 0xbe, 0x86, 0xae); Boxed(157, 0xbf, 0x57, 0x08);
  }

  lemma Table6()
    ensures SBox(0xc0) == 0xba && SBox(0xc1) == 0x78 && SBox(0xc2) == 0x25 && SBox(0xc3) == 0x2e && SBox(0xc4) == 0x1c && SBox(0xc5) == 0xa6 && SBox(0xc6) == 0xb4 && SBox(0xc7) == 0xc6
    ensures SBox(0xc8) == 0xe8 && SBox(0xc9) == 0xdd && SBox(0xca) == 0x74 && SBox(0xcb) == 0x1f && SBox(0xcc) == 0x4b && SBox(0xcd) == 0xbd && SBox(0xce) == 0x8b && SBox(0xcf) == 0x8a
    ensures SBox(0xd0) == 0x70 && SBox(0xd1) == 0x3e && SBox(0xd2) == 0xb5 && SBox(0xd3) == 0x66 && SBox(0xd4) == 0x48 && SBox(0xd5) == 0x03 && SBox(0xd6) == 0xf6 && SBox(0xd7) == 0x0e
    ensures SBox(0xd8) == 0x61 && SBox(0xd9) == 0x35 && SBox(0xda) == 0x57 && SBox(0xdb) == 0xb9 && SBox(0xdc) == 0x86 && SBox(0xdd) == 0xc1 && SBox(0xde) == 0x1d && SBox(0xdf) == 0x9e
  {
    hide Alog, SBox;
    Zeroth();
    Powers0(); Powers1(); Powers2(); Powers3(); Powers4(); Powers5(); Powers6(); Powers7();
    Boxed(151, 0xc0, 0x0b, 0xba); Boxed(178, 0xc1, 0x28, 0x78); Boxed(135, 0xc2, 0x2f, 0x25); Boxed(144, 0xc3, 0xa3, 0x2e);
    Boxed(97, 0xc4, 0xda, 0x1c); Boxed(190, 0xc5, 0xd4, 0xa6); Boxed(220, 0xc6, 0xe4, 0xb4); Boxed(252, 0xc7, 0x0f, 0xc6);
    Boxed(188, 0xc8, 0xa9, 0xe8); Boxed(149, 0xc9, 0x27, 0xdd); Boxed(207, 0xca, 0x53, 0x74); Boxed(205, 0xcb, 0x04, 0x1f);
    Boxed(55, 0xcc, 0x1b, 0x4b); Boxed(63, 0xcd, 0xfc, 0xbd); Boxed(91, 0xce, 0xac, 0x8b); Boxed(209, 0xcf, 0xe6, 0x8a);
    Boxed(83, 0xd0, 0x7a, 0x70); Boxed(57, 0xd1, 0x07, 0x3e); Boxed(132, 0xd2, 0xae, 0xb5); Boxed(60, 0xd3, 0x63, 0x66);
    Boxed(65, 0xd4, 0xc5, 0x48); Boxed(162, 0xd5, 0xdb, 0x03); Boxed(109, 0xd6, 0xe2, 0xf6); Boxed(71, 0xd7, 0xea, 0x0e);
    Boxed(20, 0xd8, 0x94, 0x61); Boxed(42, 0xd9, 0x8b, 0x35); Boxed(158, 0xda, 0xc4, 0x57); Boxed(93, 0xdb, 0xd5, 0xb9);
    Boxed(86, 0xdc, 0x9d, 0x86); Boxed(242, 0xdd, 0xf8, 0xc1); Boxed(211, 0xde, 0x90, 0x1d); Boxed(171, 0xdf, 0x6b, 0x9e);
  }

  lemma Table7()
    ensures SBox(0xe0) == 0xe1 && SBox(0xe1) == 0xf8 && SBox(0xe2) == 0x98 && SBox(0xe3) == 0x11 && SBox(0xe4) == 0x69 && SBox(0xe5) == 0xd9 && SBox(0xe6) == 0x8e && SBox(0xe7) == 0x94
    ensures SBox(0xe8) == 0x9b && SBox(0xe9) == 0x1e && SBox(0xea) == 0x87 && SBox(0xeb) == 0xe9 && SBox(0xec) == 0xce && SBox(0xed) == 0x55 && SBox(0xee) == 0x28 && SBox(0xef) == 0xdf
    ensures SBox(0xf0) == 0x8c && SBox(0xf1) == 0xa1 && SBox(0xf2) == 0x89 && SBox(0xf3) == 0x0d && SBox(0xf4) == 0xbf && SBox(0xf5) == 0xe6 && SBox(0xf6) == 0x42 && SBox(0xf7) == 0x68
    ensures SBox(0xf8) == 0x41 && SBox(0xf9) == 0x99 && SBox(0xfa) == 0x2d && SBox(0xfb) == 0x0f && SBox(0xfc) == 0xb0 && SBox(0xfd) == 0x54 && SBox(0xfe) == 0xbb && SBox(0xff) == 0x16
  {
    hide Alog, SBox;
    Zeroth();
    Powers0(); Powers1(); Powers2(); Powers3(); Powers4(); Powers5(); Powers6(); Powers7();
    Boxed(68, 0xe0, 0xb1, 0xe1); Boxed(17, 0xe1, 0x0d, 0xf8); Boxed(146, 0xe2, 0xd6, 0x98); Boxed(217, 0xe3, 0xeb, 0x11);
    Boxed(35, 0xe4, 0xc6, 0x69); Boxed(32, 0xe5, 0x0e, 0xd9); Boxed(46, 0xe6, 0xcf, 0x8e); Boxed(137, 0xe7, 0xad, 0x94);
    Boxed(180, 0xe8, 0x08, 0x9b); Boxed(124, 0xe9, 0x4e, 0x1e); Boxed(184, 0xea, 0xd7, 0x87); Boxed(38, 0xeb, 0xe3, 0xe9);
    Boxed(119, 0xec, 0x5d, 0xce); Boxed(153, 0xed, 0x50, 0x55); Boxed(227, 0xee, 0x1e, 0x28); Boxed(165, 0xef, 0xb3, 0xdf);
    Boxed(103, 0xf0, 0x5b, 0x8c); Boxed(74, 0xf1, 0x23, 0xa1); Boxed(237, 0xf2, 0x38, 0x89); Boxed(222, 0xf3, 0x34, 0x0d);
    Boxed(197, 0xf4, 0x68, 0xbf); Boxed(49, 0xf5, 0x46, 0xe6); Boxed(254, 0xf6, 0x03, 0x42); Boxed(24, 0xf7, 0x8c, 0x68);
    Boxed(13, 0xf8, 0xdd, 0x41); Boxed(99, 0xf9, 0x9c, 0x99); Boxed(140, 0xfa, 0x7d, 0x2d); Boxed(128, 0xfb, 0xa0, 0x0f);
    Boxed(192, 0xfc, 0xcd, 0xb0); Boxed(247, 0xfd, 0x1a, 0x54); Boxed(112, 0xfe, 0x41, 0xbb); Boxed(7, 0xff, 0x1c, 0x16);
  }

  // ---------------------------------------------------------------- the test vector (lines 410 to 422 of testaes.c)

  /** The key is 00 01 .. 1f and the block 00 11 .. ff. */
  function TestKey(): Key {
    [Word(0x00, 0x01, 0x02, 0x03), Word(0x04, 0x05, 0x06, 0x07), Word(0x08, 0x09, 0x0a, 0x0b), Word(0x0c, 0x0d, 0x0e, 0x0f),
     Word(0x10, 0x11, 0x12, 0x13), Word(0x14, 0x15, 0x16, 0x17), Word(0x18, 0x19, 0x1a, 0x1b), Word(0x1c, 0x1d, 0x1e, 0x1f)]
  }

  function TestBlock(): State {
    [0x00, 0x11, 0x22, 0x33, 0x44, 0x55, 0x66, 0x77, 0x88, 0x99, 0xaa, 0xbb, 0xcc, 0xdd, 0xee, 0xff]
  }

  function TestResult(): State {
    [0x8e, 0xa2, 0xb7, 0xca, 0x51, 0x67, 0x45, 0xbf, 0xea, 0xfc, 0x49, 0x90, 0x4b, 0x49, 0x60, 0x89]
  }

  lemma Given()
    ensures W(TestKey(), 0) == Word(0x00, 0x01, 0x02, 0x03) && W(TestKey(), 1) == Word(0x04, 0x05, 0x06, 0x07) && W(TestKey(), 2) == Word(0x08, 0x09, 0x0a, 0x0b) && W(TestKey(), 3) == Word(0x0c, 0x0d, 0x0e, 0x0f)
    ensures W(TestKey(), 4) == Word(0x10, 0x11, 0x12, 0x13) && W(TestKey(), 5) == Word(0x14, 0x15, 0x16, 0x17) && W(TestKey(), 6) == Word(0x18, 0x19, 0x1a, 0x1b) && W(TestKey(), 7) == Word(0x1c, 0x1d, 0x1e, 0x1f)
  {
  }

  lemma Constants()
    ensures Rc(0) == 1 && Rc(1) == 2 && Rc(2) == 4 && Rc(3) == 8 && Rc(4) == 16 && Rc(5) == 32 && Rc(6) == 64
  {
  }

  /** Word i, in sight of the words it is made from. */
  lemma Next(i: nat)
    requires i >= 8
    ensures W(TestKey(), i) == if i % 8 == 0 then XorWord(W(TestKey(), i - 8), XorWord(SubWord(RotWord(W(TestKey(), i - 1))), Word(Rc(i / 8 - 1), 0, 0, 0)))
      else if i % 8 == 4 then XorWord(W(TestKey(), i - 8), SubWord(W(TestKey(), i - 1)))
      else XorWord(W(TestKey(), i - 8), W(TestKey(), i - 1))
  {
    hide XorWord, SubWord, RotWord, TestKey, Rc;
  }

  lemma Words2()
    ensures W(TestKey(), 8) == Word(0xa5, 0x73, 0xc2, 0x9f) && W(TestKey(), 9) == Word(0xa1, 0x76, 0xc4, 0x98)
    ensures W(TestKey(), 10) == Word(0xa9, 0x7f, 0xce, 0x93) && W(TestKey(), 11) == Word(0xa5, 0x72, 0xc0, 0x9c)
  {
    hide W, SBox, Rc, TestKey;
    Constants();
    Given();
    Table0();
    Next(8); Next(9); Next(10); Next(11);
  }

  lemma Words3()
    ensures W(TestKey(), 12) == Word(0x16, 0x51, 0xa8, 0xcd) && W(TestKey(), 13) == Word(0x02, 0x44, 0xbe, 0xda)
    ensures W(TestKey(), 14) == Word(0x1a, 0x5d, 0xa4, 0xc1) && W(TestKey(), 15) == Word(0x06, 0x40, 0xba, 0xde)
  {
    hide W, SBox, Rc, TestKey;
    Constants();
    Given(); Words2();
    Table3(); Table4(); Table5(); Table6();
    Next(12); Next(13); Next(14); Next(15);
  }

  lemma Words4()
    ensures W(TestKey(), 16) == Word(0xae, 0x87, 0xdf, 0xf0) && W(TestKey(), 17) == Word(0x0f, 0xf1, 0x1b, 0x68)
    ensures W(TestKey(), 18) == Word(0xa6, 0x8e, 0xd5, 0xfb) && W(TestKey(), 19) == Word(0x03, 0xfc, 0x15, 0x67)
  {
    hide W, SBox, Rc, TestKey;
    Constants();
    Words2(); Words3();
    Table0(); Table2(); Table5(); Table6();
    Next(16); Next(17); Next(18); Next(19);
  }

  lemma Words5()
    ensures W(TestKey(), 20) == Word(0x6d, 0xe1, 0xf1, 0x48) && W(TestKey(), 21) == Word(0x6f, 0xa5, 0x4f, 0x92)
    ensures W(TestKey(), 22) == Word(0x75, 0xf8, 0xeb, 0x53) && W(TestKey(), 23) == Word(0x73, 0xb8, 0x51, 0x8d)
  {
    hide W, SBox, Rc, TestKey;
    Constants();
    Words3(); Words4();
    Table0(); Table3(); Table7();
    Next(20); Next(21); Next(22); Next(23);
  }

  lemma Words6()
    ensures W(TestKey(), 24) == Word(0xc6, 0x56, 0x82, 0x7f) && W(TestKey(), 25) == Word(0xc9, 0xa7, 0x99, 0x17)
    ensures W(TestKey(), 26) == Word(0x6f, 0x29, 0x4c, 0xec) && W(TestKey(), 27) == Word(0x6c, 0xd5, 0x59, 0x8b)
  {
    hide W, SBox, Rc, TestKey;
    Constants();
    Words4(); Words5();
    Table2(); Table3(); Table4(); Table5();
    Next(24); Next(25); Next(26); Next(27);
  }

  lemma Words7()
    ensures W(TestKey(), 28) == Word(0x3d, 0xe2, 0x3a, 0x75) && W(TestKey(), 29) == Word(0x52, 0x47, 0x75, 0xe7)
    ensures W(TestKey(), 30) == Word(0x27, 0xbf, 0x9e, 0xb4) && W(TestKey(), 31) == Word(0x54, 0x07, 0xcf, 0x39)
  {
    hide W, SBox, Rc, TestKey;
    Constants();
    Words5(); Words6();
    Table2(); Table3(); Table4(); Table6();
    Next(28); Next(29); Next(30); Next(31);
  }

  lemma Words8()
    ensures W(TestKey(), 32) == Word(0x0b, 0xdc, 0x90, 0x5f) && W(TestKey(), 33) == Word(0xc2, 0x7b, 0x09, 0x48)
    ensures W(TestKey(), 34) == Word(0xad, 0x52, 0x45, 0xa4) && W(TestKey(), 35) == Word(0xc1, 0x87, 0x1c, 0x2f)
  {
    hide W, SBox, Rc, TestKey;
    Constants();
    Words6(); Words7();
    Table0(); Table1(); Table2(); Table6();
    Next(32); Next(33); Next(34); Next(35);
  }

  lemma Words9()
    ensures W(TestKey(), 36) == Word(0x45, 0xf5, 0xa6, 0x60) && W(TestKey(), 37) == Word(0x17, 0xb2, 0xd3, 0x87)
    ensures W(TestKey(), 38) == Word(0x30, 0x0d, 0x4d, 0x33) && W(TestKey(), 39) == Word(0x64, 0x0a, 0x82, 0x0a)
  {
    hide W, SBox, Rc, TestKey;
    Constants();
    Words7(); Words8();
    Table0(); Table1(); Table4(); Table6();
    Next(36); Next(37); Next(38); Next(39);
  }

  lemma Words10()
    ensures W(TestKey(), 40) == Word(0x7c, 0xcf, 0xf7, 0x1c) && W(TestKey(), 41) == Word(0xbe, 0xb4, 0xfe, 0x54)
    ensures W(TestKey(), 42) == Word(0x13, 0xe6, 0xbb, 0xf0) && W(TestKey(), 43) == Word(0xd2, 0x61, 0xa7, 0xdf)
  {
    hide W, SBox, Rc, TestKey;
    Constants();
    Words8(); Words9();
    Table0(); Table3(); Table4();
    Next(40); Next(41); Next(42); Next(43);
  }

  lemma Words11()
    ensures W(TestKey(), 44) == Word(0xf0, 0x1a, 0xfa, 0xfe) && W(TestKey(), 45) == Word(0xe7, 0xa8, 0x29, 0x79)
    ensures W(TestKey(), 46) == Word(0xd7, 0xa5, 0x64, 0x4a) && W(TestKey(), 47) == Word(0xb3, 0xaf, 0xe6, 0x40)
  {
    hide W, SBox, Rc, TestKey;
    Constants();
    Words9(); Words10();
    Table3(); Table5(); Table6();
    Next(44); Next(45); Next(46); Next(47);
  }

  lemma Words12()
    ensures W(TestKey(), 48) == Word(0x25, 0x41, 0xfe, 0x71) && W(TestKey(), 49) == Word(0x9b, 0xf5, 0x00, 0x25)
    ensures W(TestKey(), 50) == Word(0x88, 0x13, 0xbb, 0xd5) && W(TestKey(), 51) == Word(0x5a, 0x72, 0x1c, 0x0a)
  {
    hide W, SBox, Rc, TestKey;
    Constants();
    Words10(); Words11();
    Table2(); Table5(); Table7();
    Next(48); Next(49); Next(50); Next(51);
  }

  lemma Words13()
    ensures W(TestKey(), 52) == Word(0x4e, 0x5a, 0x66, 0x99) && W(TestKey(), 53) == Word(0xa9, 0xf2, 0x4f, 0xe0)
    ensures W(TestKey(), 54) == Word(0x7e, 0x57, 0x2b, 0xaa) && W(TestKey(), 55) == Word(0xcd, 0xf8, 0xcd, 0xea)
  {
    hide W, SBox, Rc, TestKey;
    Constants();
    Words11(); Words12();
    Table0(); Table2(); Table3();
    Next(52); Next(53); Next(54); Next(55);
  }

  lemma Words14()
    ensures W(TestKey(), 56) == Word(0x24, 0xfc, 0x79, 0xcc) && W(TestKey(), 57) == Word(0xbf, 0x09, 0x79, 0xe9)
    ensures W(TestKey(), 58) == Word(0x37, 0x1a, 0xc2, 0x3c) && W(TestKey(), 59) == Word(0x6d, 0x68, 0xde, 0x36)
  {
    hide W, SBox, Rc, TestKey;
    Constants();
    Words12(); Words13();
    Table6(); Table7();
    Next(56); Next(57); Next(58); Next(59);
  }

  lemma RoundKeyIs(r: nat)
    ensures RoundKey(TestKey(), r) == Block(W(TestKey(), 4 * r), W(TestKey(), 4 * r + 1), W(TestKey(), 4 * r + 2), W(TestKey(), 4 * r + 3))
  {
    hide W;
  }

  /** A mixed column with its part of the round key. */
  function Mixed(a: bv8, b: bv8, c: bv8, d: bv8, k: Word): Word {
    Word(Xor(Sum5(b, c, d, Xtime(a), Xtime(b)), k.b0), Xor(Sum5(c, d, a, Xtime(b), Xtime(c)), k.b1),
         Xor(Sum5(d, a, b, Xtime(c), Xtime(d)), k.b2), Xor(Sum5(a, b, c, Xtime(d), Xtime(a)), k.b3))
  }

  lemma Column(a: bv8, b: bv8, c: bv8, d: bv8)
    ensures MixColumn(a, b, c, d) == [Sum5(b, c, d, Xtime(a), Xtime(b)), Sum5(c, d, a, Xtime(b), Xtime(c)),
                                      Sum5(d, a, b, Xtime(c), Xtime(d)), Sum5(a, b, c, Xtime(d), Xtime(a))]
  {
    hide Mix, Sum5, Xtime;
    MixCodeIsMix(a, b, c, d);
    MixCodeIsMix(b, c, d, a);
    MixCodeIsMix(c, d, a, b);
    MixCodeIsMix(d, a, b, c);
  }

  lemma Substituted(a: Word, b: Word, c: Word, d: Word)
    ensures SubBytes(Block(a, b, c, d)) == Block(SubWord(a), SubWord(b), SubWord(c), SubWord(d))
  {
    hide Block, Bytes, SBox, SubWord;
    var u := Block(SubWord(a), SubWord(b), SubWord(c), SubWord(d));
    forall i | 0 <= i < 16 ensures SubBytes(Block(a, b, c, d))[i] == u[i] {
      BlockAt(a, b, c, d, i);
      BlockAt(SubWord(a), SubWord(b), SubWord(c), SubWord(d), i);
      SubOne(if i < 4 then a else if i < 8 then b else if i < 12 then c else d, i % 4);
    }
  }

  lemma SubOne(w: Word, i: nat)
    requires i < 4
    ensures Bytes(SubWord(w))[i] == SBox(Bytes(w)[i])
  {
    hide SBox;
  }

  lemma BlockIs(a: Word, b: Word, c: Word, d: Word)
    ensures Block(a, b, c, d)
      == [a.b0, a.b1, a.b2, a.b3, b.b0, b.b1, b.b2, b.b3, c.b0, c.b1, c.b2, c.b3, d.b0, d.b1, d.b2, d.b3]
  {
  }

  lemma Shifted(a: Word, b: Word, c: Word, d: Word)
    ensures ShiftRows(Block(a, b, c, d)) == Block(Word(a.b0, b.b1, c.b2, d.b3), Word(b.b0, c.b1, d.b2, a.b3),
                                                  Word(c.b0, d.b1, a.b2, b.b3), Word(d.b0, a.b1, b.b2, c.b3))
  {
    BlockIs(a, b, c, d);
    BlockIs(Word(a.b0, b.b1, c.b2, d.b3), Word(b.b0, c.b1, d.b2, a.b3), Word(c.b0, d.b1, a.b2, b.b3), Word(d.b0, a.b1, b.b2, c.b3));
    hide Block;
  }

  function ColumnOf(a: Word): Word {
    var m := MixColumn(a.b0, a.b1, a.b2, a.b3);
    Word(m[0], m[1], m[2], m[3])
  }

  lemma Columns(a: Word, b: Word, c: Word, d: Word, p: Word, q: Word, r: Word, s: Word)
    ensures AddRoundKey(MixColumns(Block(a, b, c, d)), Block(p, q, r, s))
      == Block(Mixed(a.b0, a.b1, a.b2, a.b3, p), Mixed(b.b0, b.b1, b.b2, b.b3, q),
               Mixed(c.b0, c.b1, c.b2, c.b3, r), Mixed(d.b0, d.b1, d.b2, d.b3, s))
  {
    BlockMixed(a, b, c, d);
    WordsAdded(ColumnOf(a), ColumnOf(b), ColumnOf(c), ColumnOf(d), p, q, r, s);
    MixedIs(a, p);
    MixedIs(b, q);
    MixedIs(c, r);
    MixedIs(d, s);
    hide *;
  }

  lemma BlockMixed(a: Word, b: Word, c: Word, d: Word)
    ensures MixColumns(Block(a, b, c, d)) == Block(ColumnOf(a), ColumnOf(b), ColumnOf(c), ColumnOf(d))
  {
    var u := Block(a, b, c, d);
    BlockIs(a, b, c, d);
    assert u[0] == a.b0 && u[1] == a.b1 && u[2] == a.b2 && u[3] == a.b3 && u[4] == b.b0 && u[5] == b.b1 && u[6] == b.b2 && u[7] == b.b3;
    assert u[8] == c.b0 && u[9] == c.b1 && u[10] == c.b2 && u[11] == c.b3 && u[12] == d.b0 && u[13] == d.b1 && u[14] == d.b2 && u[15] == d.b3;
    hide *;
    MixedOf(u);
    BlockOf(ColumnOf(a), ColumnOf(b), ColumnOf(c), ColumnOf(d));
    BytesMixed(a);
    BytesMixed(b);
    BytesMixed(c);
    BytesMixed(d);
  }

  lemma MixedOf(s: State)
    ensures MixColumns(s) == MixColumn(s[0], s[1], s[2], s[3]) + MixColumn(s[4], s[5], s[6], s[7])
                             + MixColumn(s[8], s[9], s[10], s[11]) + MixColumn(s[12], s[13], s[14], s[15])
  {
    hide MixColumn;
  }

  lemma BlockOf(a: Word, b: Word, c: Word, d: Word)
    ensures Block(a, b, c, d) == Bytes(a) + Bytes(b) + Bytes(c) + Bytes(d)
  {
    hide Bytes;
  }

  lemma BlockAt(a: Word, b: Word, c: Word, d: Word, i: nat)
    requires i < 16
    ensures Block(a, b, c, d)[i] == Bytes(if i < 4 then a else if i < 8 then b else if i < 12 then c else d)[i % 4]
  {
    hide Bytes;
  }

  lemma BytesMixed(a: Word)
    ensures Bytes(ColumnOf(a)) == MixColumn(a.b0, a.b1, a.b2, a.b3)
  {
    hide MixColumn;
  }

  lemma WordsAdded(a: Word, b: Word, c: Word, d: Word, p: Word, q: Word, r: Word, s: Word)
    ensures AddRoundKey(Block(a, b, c, d), Block(p, q, r, s)) == Block(XorWord(a, p), XorWord(b, q), XorWord(c, r), XorWord(d, s))
  {
    hide Block, Bytes, Xor, XorWord;
    var x := Block(XorWord(a, p), XorWord(b, q), XorWord(c, r), XorWord(d, s));
    forall i | 0 <= i < 16 ensures AddRoundKey(Block(a, b, c, d), Block(p, q, r, s))[i] == x[i] {
      BlockAt(a, b, c, d, i);
      BlockAt(p, q, r, s, i);
      BlockAt(XorWord(a, p), XorWord(b, q), XorWord(c, r), XorWord(d, s), i);
      XorBytes(if i < 4 then a else if i < 8 then b else if i < 12 then c else d,
               if i < 4 then p else if i < 8 then q else if i < 12 then r else s, i % 4);
    }
  }

  lemma MixedIs(a: Word, k: Word)
    ensures Mixed(a.b0, a.b1, a.b2, a.b3, k) == XorWord(ColumnOf(a), k)
  {
    hide Xor, Sum5, Xtime, MixColumn;
    Column(a.b0, a.b1, a.b2, a.b3);
  }

  /** A round, word by word. */
  lemma Round(r: nat, a: Word, b: Word, c: Word, d: Word)
    requires r > 0 && Rounds(TestKey(), TestBlock(), r - 1) == Block(a, b, c, d)
    ensures Rounds(TestKey(), TestBlock(), r)
      == Block(Mixed(SBox(a.b0), SBox(b.b1), SBox(c.b2), SBox(d.b3), W(TestKey(), 4 * r)),
               Mixed(SBox(b.b0), SBox(c.b1), SBox(d.b2), SBox(a.b3), W(TestKey(), 4 * r + 1)),
               Mixed(SBox(c.b0), SBox(d.b1), SBox(a.b2), SBox(b.b3), W(TestKey(), 4 * r + 2)),
               Mixed(SBox(d.b0), SBox(a.b1), SBox(b.b2), SBox(c.b3), W(TestKey(), 4 * r + 3)))
  {
    hide Block, SBox, Mixed, W, MixColumns, ShiftRows, AddRoundKey, SubBytes, TestKey, TestBlock;
    Substituted(a, b, c, d);
    Shifted(SubWord(a), SubWord(b), SubWord(c), SubWord(d));
    var p, q, s, t := SubWord(a), SubWord(b), SubWord(c), SubWord(d);
    Columns(Word(p.b0, q.b1, s.b2, t.b3), Word(q.b0, s.b1, t.b2, p.b3), Word(s.b0, t.b1, p.b2, q.b3), Word(t.b0, p.b1, q.b2, s.b3),
            W(TestKey(), 4 * r), W(TestKey(), 4 * r + 1), W(TestKey(), 4 * r + 2), W(TestKey(), 4 * r + 3));
  }

  lemma Started()
    ensures Rounds(TestKey(), TestBlock(), 0) == AddRoundKey(TestBlock(), RoundKey(TestKey(), 0))
  {
  }

  lemma BlockGiven()
    ensures TestBlock() == Block(Word(0x00, 0x11, 0x22, 0x33), Word(0x44, 0x55, 0x66, 0x77),
                                Word(0x88, 0x99, 0xaa, 0xbb), Word(0xcc, 0xdd, 0xee, 0xff))
  {
  }

  lemma Round0()
    ensures Rounds(TestKey(), TestBlock(), 0)
      == Block(Word(0x00, 0x10, 0x20, 0x30), Word(0x40, 0x50, 0x60, 0x70),
               Word(0x80, 0x90, 0xa0, 0xb0), Word(0xc0, 0xd0, 0xe0, 0xf0))
  {
    hide W, Block, Bytes, AddRoundKey;
    Given();
    RoundKeyIs(0);
    Started();
    BlockGiven();
    WordsAdded(Word(0x00, 0x11, 0x22, 0x33), Word(0x44, 0x55, 0x66, 0x77),
               Word(0x88, 0x99, 0xaa, 0xbb), Word(0xcc, 0xdd, 0xee, 0xff),
               W(TestKey(), 0), W(TestKey(), 1), W(TestKey(), 2), W(TestKey(), 3));
  }

  lemma Round1()
    ensures Rounds(TestKey(), TestBlock(), 1)
      == Block(Word(0x4f, 0x63, 0x76, 0x06), Word(0x43, 0xe0, 0xaa, 0x85),
               Word(0xef, 0xa7, 0x21, 0x32), Word(0x01, 0xa4, 0xe7, 0x05))
  {
    hide SBox, Rounds, W, TestKey, TestBlock, Block;
    Round0(); Given(); Table0(); Table1(); Table2(); Table3(); Table4(); Table5(); Table6(); Table7();
    Round(1, Word(0x00, 0x10, 0x20, 0x30), Word(0x40, 0x50, 0x60, 0x70),
          Word(0x80, 0x90, 0xa0, 0xb0), Word(0xc0, 0xd0, 0xe0, 0xf0));
  }

  lemma Round2()
    ensures Rounds(TestKey(), TestBlock(), 2)
      == Block(Word(0x18, 0x59, 0xfb, 0xc2), Word(0x8a, 0x1c, 0x00, 0xa0),
               Word(0x78, 0xed, 0x8a, 0xad), Word(0xc4, 0x2f, 0x61, 0x09))
  {
    hide SBox, Rounds, W, TestKey, TestBlock, Block;
    Round1(); Words2(); Table0(); Table1(); Table2(); Table3(); Table4(); Table5(); Table7();
    Round(2, Word(0x4f, 0x63, 0x76, 0x06), Word(0x43, 0xe0, 0xaa, 0x85),
          Word(0xef, 0xa7, 0x21, 0x32), Word(0x01, 0xa4, 0xe7, 0x05));
  }

  lemma Round3()
    ensures Rounds(TestKey(), TestBlock(), 3)
      == Block(Word(0x97, 0x5c, 0x66, 0xc1), Word(0xcb, 0x9f, 0x3f, 0xa8),
               Word(0xa9, 0x3a, 0x28, 0xdf), Word(0x8e, 0xe1, 0x0f, 0x63))
  {
    hide SBox, Rounds, W, TestKey, TestBlock, Block;
    Round2(); Words3(); Table0(); Table1(); Table2(); Table3(); Table4(); Table5(); Table6(); Table7();
    Round(3, Word(0x18, 0x59, 0xfb, 0xc2), Word(0x8a, 0x1c, 0x00, 0xa0),
          Word(0x78, 0xed, 0x8a, 0xad), Word(0xc4, 0x2f, 0x61, 0x09));
  }

  lemma Round4()
    ensures Rounds(TestKey(), TestBlock(), 4)
      == Block(Word(0x1c, 0x05, 0xf2, 0x71), Word(0xa4, 0x17, 0xe0, 0x4f),
               Word(0xf9, 0x21, 0xc5, 0xc1), Word(0x04, 0x70, 0x15, 0x54))
  {
    hide SBox, Rounds, W, TestKey, TestBlock, Block;
    Round3(); Words4(); Table0(); Table1(); Table2(); Table3(); Table4(); Table5(); Table6(); Table7();
    Round(4, Word(0x97, 0x5c, 0x66, 0xc1), Word(0xcb, 0x9f, 0x3f, 0xa8),
          Word(0xa9, 0x3a, 0x28, 0xdf), Word(0x8e, 0xe1, 0x0f, 0x63));
  }

  lemma Round5()
    ensures Rounds(TestKey(), TestBlock(), 5)
      == Block(Word(0xc3, 0x57, 0xaa, 0xe1), Word(0x1b, 0x45, 0xb7, 0xb0),
               Word(0xa2, 0xc7, 0xbd, 0x28), Word(0xa8, 0xdc, 0x99, 0xfa))
  {
    hide SBox, Rounds, W, TestKey, TestBlock, Block;
    Round4(); Words5(); Table0(); Table1(); Table2(); Table3(); Table5(); Table6(); Table7();
    Round(5, Word(0x1c, 0x05, 0xf2, 0x71), Word(0xa4, 0x17, 0xe0, 0x4f),
          Word(0xf9, 0x21, 0xc5, 0xc1), Word(0x04, 0x70, 0x15, 0x54));
  }

  lemma Round6()
    ensures Rounds(TestKey(), TestBlock(), 6)
      == Block(Word(0x7f, 0x07, 0x41, 0x43), Word(0xcb, 0x4e, 0x24, 0x3e),
               Word(0xc1, 0x0c, 0x81, 0x5d), Word(0x83, 0x75, 0xd5, 0x4c))
  {
    hide SBox, Rounds, W, TestKey, TestBlock, Block;
    Round5(); Words6(); Table0(); Table1(); Table2(); Table4(); Table5(); Table6(); Table7();
    Round(6, Word(0xc3, 0x57, 0xaa, 0xe1), Word(0x1b, 0x45, 0xb7, 0xb0),
          Word(0xa2, 0xc7, 0xbd, 0x28), Word(0xa8, 0xdc, 0x99, 0xfa));
  }

  lemma Round7()
    ensures Rounds(TestKey(), TestBlock(), 7)
      == Block(Word(0xd6, 0x53, 0xa4, 0x69), Word(0x6c, 0xa0, 0xbc, 0x0f),
               Word(0x5a, 0xca, 0xab, 0x5d), Word(0xb9, 0x6c, 0x5e, 0x7d))
  {
    hide SBox, Rounds, W, TestKey, TestBlock, Block;
    Round6(); Words7(); Table0(); Table1(); Table2(); Table3(); Table4(); Table6();
    Round(7, Word(0x7f, 0x07, 0x41, 0x43), Word(0xcb, 0x4e, 0x24, 0x3e),
          Word(0xc1, 0x0c, 0x81, 0x5d), Word(0x83, 0x75, 0xd5, 0x4c));
  }

  lemma Round8()
    ensures Rounds(TestKey(), TestBlock(), 8)
      == Block(Word(0x5a, 0xa8, 0x58, 0x39), Word(0x5f, 0xd2, 0x8d, 0x7d),
               Word(0x05, 0xe1, 0xa3, 0x88), Word(0x68, 0xf3, 0xb9, 0xc5))
  {
    hide SBox, Rounds, W, TestKey, TestBlock, Block;
    Round7(); Words8(); Table0(); Table2(); Table3(); Table5(); Table6();
    Round(8, Word(0xd6, 0x53, 0xa4, 0x69), Word(0x6c, 0xa0, 0xbc, 0x0f),
          Word(0x5a, 0xca, 0xab, 0x5d), Word(0xb9, 0x6c, 0x5e, 0x7d));
  }

  lemma Round9()
    ensures Rounds(TestKey(), TestBlock(), 9)
      == Block(Word(0x4a, 0x82, 0x48, 0x51), Word(0xc5, 0x7e, 0x7e, 0x47),
               Word(0x64, 0x3d, 0xe5, 0x0c), Word(0x2a, 0xf3, 0xe8, 0xc9))
  {
    hide SBox, Rounds, W, TestKey, TestBlock, Block;
    Round8(); Words9(); Table0(); Table1(); Table2(); Table3(); Table4(); Table5(); Table6(); Table7();
    Round(9, Word(0x5a, 0xa8, 0x58, 0x39), Word(0x5f, 0xd2, 0x8d, 0x7d),
          Word(0x05, 0xe1, 0xa3, 0x88), Word(0x68, 0xf3, 0xb9, 0xc5));
  }

  lemma Round10()
    ensures Rounds(TestKey(), TestBlock(), 10)
      == Block(Word(0xc1, 0x49, 0x07, 0xf6), Word(0xca, 0x3b, 0x3a, 0xa0),
               Word(0x70, 0xe9, 0xaa, 0x31), Word(0x3b, 0x52, 0xb5, 0xec))
  {
    hide SBox, Rounds, W, TestKey, TestBlock, Block;
    Round9(); Words10(); Table0(); Table1(); Table2(); Table3(); Table4(); Table6(); Table7();
    Round(10, Word(0x4a, 0x82, 0x48, 0x51), Word(0xc5, 0x7e, 0x7e, 0x47),
          Word(0x64, 0x3d, 0xe5, 0x0c), Word(0x2a, 0xf3, 0xe8, 0xc9));
  }

  lemma Round11()
    ensures Rounds(TestKey(), TestBlock(), 11)
      == Block(Word(0x5f, 0x9c, 0x6a, 0xbf), Word(0xba, 0xc6, 0x34, 0xaa),
               Word(0x50, 0x40, 0x9f, 0xa7), Word(0x66, 0x67, 0x76, 0x53))
  {
    hide SBox, Rounds, W, TestKey, TestBlock, Block;
    Round10(); Words11(); Table0(); Table1(); Table2(); Table3(); Table5(); Table6(); Table7();
    Round(11, Word(0xc1, 0x49, 0x07, 0xf6), Word(0xca, 0x3b, 0x3a, 0xa0),
          Word(0x70, 0xe9, 0xaa, 0x31), Word(0x3b, 0x52, 0xb5, 0xec));
  }

  lemma Round12()
    ensures Rounds(TestKey(), TestBlock(), 12)
      == Block(Word(0x51, 0x66, 0x04, 0x95), Word(0x43, 0x53, 0x95, 0x03),
               Word(0x14, 0xfb, 0x86, 0xe4), Word(0x01, 0x92, 0x25, 0x21))
  {
    hide SBox, Rounds, W, TestKey, TestBlock, Block;
    Round11(); Words12(); Table1(); Table2(); Table3(); Table4(); Table5(); Table6();
    Round(12, Word(0x5f, 0x9c, 0x6a, 0xbf), Word(0xba, 0xc6, 0x34, 0xaa),
          Word(0x50, 0x40, 0x9f, 0xa7), Word(0x66, 0x67, 0x76, 0x53));
  }

  lemma Round13()
    ensures Rounds(TestKey(), TestBlock(), 13)
      == Block(Word(0x62, 0x7b, 0xce, 0xb9), Word(0x99, 0x9d, 0x5a, 0xaa),
               Word(0xc9, 0x45, 0xec, 0xf4), Word(0x23, 0xf5, 0x6d, 0xa5))
  {
    hide SBox, Rounds, W, TestKey, TestBlock, Block;
    Round12(); Words13(); Table0(); Table1(); Table2(); Table3(); Table4(); Table7();
    Round(13, Word(0x51, 0x66, 0x04, 0x95), Word(0x43, 0x53, 0x95, 0x03),
          Word(0x14, 0xfb, 0x86, 0xe4), Word(0x01, 0x92, 0x25, 0x21));
  }

  lemma ResultGiven()
    ensures TestResult() == Block(Word(0x8e, 0xa2, 0xb7, 0xca), Word(0x51, 0x67, 0x45, 0xbf),
                                 Word(0xea, 0xfc, 0x49, 0x90), Word(0x4b, 0x49, 0x60, 0x89))
  {
  }

  /** The cipher gives what the program says it must. */
  lemma TestVector()
    ensures Cipher(TestKey(), TestBlock()) == TestResult() && InvCipher(TestKey(), TestResult()) == TestBlock()
  {
    LastRound();
    ResultGiven();
    hide *;
    DecryptEncrypt(TestKey(), TestBlock());
  }

  lemma LastRound()
    ensures Cipher(TestKey(), TestBlock()) == Block(Word(0x8e, 0xa2, 0xb7, 0xca), Word(0x51, 0x67, 0x45, 0xbf),
                                                  Word(0xea, 0xfc, 0x49, 0x90), Word(0x4b, 0x49, 0x60, 0x89))
  {
    hide SBox, Rounds, W, TestKey, TestBlock, Block, SubBytes, ShiftRows, AddRoundKey;
    Round13(); Words14(); RoundKeyIs(14); Table1(); Table2(); Table3(); Table4(); Table5(); Table6(); Table7();
    var a, b := Word(0x62, 0x7b, 0xce, 0xb9), Word(0x99, 0x9d, 0x5a, 0xaa);
    var c, d := Word(0xc9, 0x45, 0xec, 0xf4), Word(0x23, 0xf5, 0x6d, 0xa5);
    Substituted(a, b, c, d);
    Shifted(SubWord(a), SubWord(b), SubWord(c), SubWord(d));
    var p, q, s, t := SubWord(a), SubWord(b), SubWord(c), SubWord(d);
    WordsAdded(Word(p.b0, q.b1, s.b2, t.b3), Word(q.b0, s.b1, t.b2, p.b3), Word(s.b0, t.b1, p.b2, q.b3), Word(t.b0, p.b1, q.b2, s.b3),
               W(TestKey(), 56), W(TestKey(), 57), W(TestKey(), 58), W(TestKey(), 59));
  }

  // ---------------------------------------------------------------- the program

  lemma KeyWords(k: seq<bv8>)
    requires |k| == 32 && forall j :: 0 <= j < 32 ==> k[j] == j as bv8
    ensures Words(k) == TestKey()
  {
    forall j | 0 <= j < 8 ensures Words(k)[j] == TestKey()[j] { KeyWord(k, j); }
  }

  lemma KeyWord(k: seq<bv8>, j: nat)
    requires |k| == 32 && (forall i :: 0 <= i < 32 ==> k[i] == i as bv8) && j < 8
    ensures WordAt(k, j) == TestKey()[j]
  {
    assert j == 0 || j == 1 || j == 2 || j == 3 || j == 4 || j == 5 || j == 6 || j == 7;
  }

  lemma BlockBytes(s: State)
    requires forall j :: 0 <= j < 16 ==> s[j] == (17 * j) as bv8
    ensures s == TestBlock()
  {
  }

  /** main: what it shows as enc is what it shows as tst, and what it shows as dec is the text. */
  method Shown() returns (enc: seq<bv8>, dec: seq<bv8>)
    ensures enc == TestResult() && dec == TestBlock()
  {
    hide Words, TestKey, TestBlock, TestResult, Cipher, InvCipher, Rolled;
    var buf, key := new bv8[16], new bv8[32];
    var i := 0;
    while i < 16
      invariant 0 <= i <= 16 && forall j :: 0 <= j < i ==> buf[j] == (17 * j) as bv8
    {
      buf[i] := (i * 16 + i) as bv8;
      i := i + 1;
    }
    i := 0;
    while i < 32
      invariant 0 <= i <= 32 && forall j :: 0 <= j < i ==> key[j] == j as bv8
      invariant forall j :: 0 <= j < 16 ==> buf[j] == (17 * j) as bv8
    {
      key[i] := i as bv8;
      i := i + 1;
    }
    KeyWords(key[..]);
    BlockBytes(buf[..]);
    TestVector();
    var ctx := new Context();
    ctx.Init(key);
    ctx.EncryptEcb(buf, TestKey());
    enc := buf[..];
    ctx.Init(key);
    ctx.DecryptEcb(buf, TestKey());
    dec := buf[..];
  }
}
