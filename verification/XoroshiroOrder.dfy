/**
 No state of xoroshiro128+ but zero comes back before 2^128 - 1 steps: for each prime
 factor q of that number, products of powers of x lead to two powers that differ by a
 multiple of (2^128 - 1) / q and whose sum has an inverse.
 */
module XoroshiroOrder {
  import opened PowersOfTwo
  import opened Xoroshiro
  import opened XoroshiroPolynomials
  import opened XoroshiroTables
  import opened XoroshiroJump
  import opened XoroshiroProducts
  import opened PeriodPrimes

  lemma PowerAt(k: nat, p: Poly, e: nat)
    requires k <= 128 && PowerOfX(k) == p && TwoTo(k) == e
    ensures IsPower(p, e)
  {
    hide IsPower, PowerOfX;
    PowerOfXIsPower(k);
    TwoToIsPow2(k);
  }

  lemma {:induction false} Repeats(s: State, n: nat, m: nat, b: nat)
    requires Iterate(s, n) == s
    ensures Iterate(s, b + m * n) == Iterate(s, b)
    decreases m
  {
    hide Iterate;
    if m > 0 {
      Repeats(s, n, m - 1, b);
      OneTimeMore(m, n);
      IterateAdd(s, n, b + (m - 1) * n);
    }
  }

  lemma OneTimeMore(m: nat, n: nat)
    requires m > 0
    ensures (m - 1) * n >= 0 && m * n == n + (m - 1) * n
  {
  }

  // ----- Products of powers of x -----

  lemma Powers0()
    ensures IsPower(Poly(0x2, 0), 0x1)
    ensures IsPower(Poly(0xbeac0467eba5facb, 0xd86b048b86aa9922), 0x10000000000000000)
    ensures IsPower(Poly(0x6d5c8d1a4b1a701e, 0x1a5037803d7c09bb), 0x100000000)
    ensures IsPower(Poly(0x18f7c399ccebda8d, 0xf2deac28bef3bb07), 0x1000000000000000000000000)
  {
    hide IsPower;
    PowerAt(0, Poly(0x2, 0), 0x1);
    PowerAt(64, Poly(0xbeac0467eba5facb, 0xd86b048b86aa9922), 0x10000000000000000);
    PowerAt(32, Poly(0x6d5c8d1a4b1a701e, 0x1a5037803d7c09bb), 0x100000000);
    PowerAt(96, Poly(0x18f7c399ccebda8d, 0xf2deac28bef3bb07), 0x1000000000000000000000000);
  }

  lemma Powers1()
    ensures IsPower(Poly(0x1e7aadfc624d3a05, 0x2dcb073daf1ce660), 0x10000)
    ensures IsPower(Poly(0x4dc4a0e7b85be058, 0x86b536afc98841e9), 0x100000000000000000000)
    ensures IsPower(Poly(0x36f191bfb7ba6a97, 0x5a01777ce2fb65b1), 0x1000000000000)
    ensures IsPower(Poly(0x96e65369bb8ec1e, 0x7933af6e440aaa3a), 0x10000000000000000000000000000)
  {
    hide IsPower;
    PowerAt(16, Poly(0x1e7aadfc624d3a05, 0x2dcb073daf1ce660), 0x10000);
    PowerAt(80, Poly(0x4dc4a0e7b85be058, 0x86b536afc98841e9), 0x100000000000000000000);
    PowerAt(48, Poly(0x36f191bfb7ba6a97, 0x5a01777ce2fb65b1), 0x1000000000000);
    PowerAt(112, Poly(0x96e65369bb8ec1e, 0x7933af6e440aaa3a), 0x10000000000000000000000000000);
  }

  lemma Powers2()
    ensures IsPower(Poly(0x75f70097b46a43fe, 0xc51c85a7cccbd849), 0x8000000000)
    ensures IsPower(Poly(0x437c6d3bf3d8b36a, 0xabab8fdf00def644), 0x80000000000000000000000000)
    ensures IsPower(Poly(0xfc49c2b3247583fa, 0x3960df843c7150cf), 0x20000000000)
    ensures IsPower(Poly(0x853e42a6f80a4fbf, 0x14b0973dde3a777a), 0x200000000000000000000000000)
  {
    hide IsPower;
    PowerAt(39, Poly(0x75f70097b46a43fe, 0xc51c85a7cccbd849), 0x8000000000);
    PowerAt(103, Poly(0x437c6d3bf3d8b36a, 0xabab8fdf00def644), 0x80000000000000000000000000);
    PowerAt(41, Poly(0xfc49c2b3247583fa, 0x3960df843c7150cf), 0x20000000000);
    PowerAt(105, Poly(0x853e42a6f80a4fbf, 0x14b0973dde3a777a), 0x200000000000000000000000000);
  }

  lemma Powers3()
    ensures IsPower(Poly(0x5fd66762f0e1c001, 0x653ced7f29f88a), 0x80)
    ensures IsPower(Poly(0x36a241684293dc91, 0x9820a93b2334688e), 0x800000000000000000)
    ensures IsPower(Poly(0x6802dbe099ee01bb, 0x827846355bfbbb3b), 0x200)
    ensures IsPower(Poly(0xe0b8e64c67cda36c, 0x604885cf1a502dc1), 0x2000000000000000000)
  {
    hide IsPower;
    PowerAt(7, Poly(0x5fd66762f0e1c001, 0x653ced7f29f88a), 0x80);
    PowerAt(71, Poly(0x36a241684293dc91, 0x9820a93b2334688e), 0x800000000000000000);
    PowerAt(9, Poly(0x6802dbe099ee01bb, 0x827846355bfbbb3b), 0x200);
    PowerAt(73, Poly(0xe0b8e64c67cda36c, 0x604885cf1a502dc1), 0x2000000000000000000);
  }

  lemma Powers4()
    ensures IsPower(Poly(0x104f8616cc0c79b, 0xff59f6e4033b35f2), 0x200000000)
    ensures IsPower(Poly(0x3ca1ed1e42dce333, 0xe12a47d641175b6e), 0x2000000000000000000000000)
    ensures IsPower(Poly(0xec61e7c8474be010, 0xc3b06177b3e723db), 0x200000000000)
    ensures IsPower(Poly(0x4202f7289201be8c, 0x48265b8ed33a8cf), 0x2000000000000000000000000000)
  {
    hide IsPower;
    PowerAt(33, Poly(0x104f8616cc0c79b, 0xff59f6e4033b35f2), 0x200000000);
    PowerAt(97, Poly(0x3ca1ed1e42dce333, 0xe12a47d641175b6e), 0x2000000000000000000000000);
    PowerAt(45, Poly(0xec61e7c8474be010, 0xc3b06177b3e723db), 0x200000000000);
    PowerAt(109, Poly(0x4202f7289201be8c, 0x48265b8ed33a8cf), 0x2000000000000000000000000000);
  }

  lemma Powers5()
    ensures IsPower(Poly(0x4aff86c90aa5de02, 0x58e6899fca65a30b), 0x800000000000000)
    ensures IsPower(Poly(0xc30430d0a96426d6, 0xebbce74caf217827), 0x8000000000000000000000000000000)
    ensures IsPower(Poly(0x10000, 0), 0x10)
    ensures IsPower(Poly(0x49551ed863b5af2, 0x46d4be289a272b8e), 0x100000000000000000)
  {
    hide IsPower;
    PowerAt(59, Poly(0x4aff86c90aa5de02, 0x58e6899fca65a30b), 0x800000000000000);
    PowerAt(123, Poly(0xc30430d0a96426d6, 0xebbce74caf217827), 0x8000000000000000000000000000000);
    PowerAt(4, Poly(0x10000, 0), 0x10);
    PowerAt(68, Poly(0x49551ed863b5af2, 0x46d4be289a272b8e), 0x100000000000000000);
  }

  lemma Powers6()
    ensures IsPower(Poly(0x9b4ede39c85dd32c, 0x2aef7f2e0d57c9e6), 0x100000)
    ensures IsPower(Poly(0x6cd504d521a829db, 0xdffda9e17564bafb), 0x1000000000000000000000)
    ensures IsPower(Poly(0x269edc3c5357cd6f, 0x9b12f0a3c4fcb527), 0x400000)
    ensures IsPower(Poly(0x515f0b2922ce1695, 0xc3a44c299a0921df), 0x4000000000000000000000)
  {
    hide IsPower;
    PowerAt(20, Poly(0x9b4ede39c85dd32c, 0x2aef7f2e0d57c9e6), 0x100000);
    PowerAt(84, Poly(0x6cd504d521a829db, 0xdffda9e17564bafb), 0x1000000000000000000000);
    PowerAt(22, Poly(0x269edc3c5357cd6f, 0x9b12f0a3c4fcb527), 0x400000);
    PowerAt(86, Poly(0x515f0b2922ce1695, 0xc3a44c299a0921df), 0x4000000000000000000000);
  }

  lemma Powers7()
    ensures IsPower(Poly(0xa4db7f6e11fbeab8, 0xd96deee66219f0f1), 0x40000000)
    ensures IsPower(Poly(0x86dac360270567bd, 0xeb4a55ce38f4fa08), 0x400000000000000000000000)
    ensures IsPower(Poly(0x4, 0), 0x2)
    ensures IsPower(Poly(0x9c74e1ec81b738e3, 0x5c1e8b64735a759a), 0x20000000000000000)
  {
    hide IsPower;
    PowerAt(30, Poly(0xa4db7f6e11fbeab8, 0xd96deee66219f0f1), 0x40000000);
    PowerAt(94, Poly(0x86dac360270567bd, 0xeb4a55ce38f4fa08), 0x400000000000000000000000);
    PowerAt(1, Poly(0x4, 0), 0x2);
    PowerAt(65, Poly(0x9c74e1ec81b738e3, 0x5c1e8b64735a759a), 0x20000000000000000);
  }

  lemma Powers8()
    ensures IsPower(Poly(0xd2f80f7bad266228, 0xf3ad7057d1027c0f), 0x2000)
    ensures IsPower(Poly(0x753ca9f03d0813ac, 0xf3fef2e1c669d3fa), 0x20000000000000000000)
    ensures IsPower(Poly(0xdd27992bb060c074, 0x83ecc0767932fa49), 0x8000000)
    ensures IsPower(Poly(0xf902e5a31c4553e, 0xa6d29a735f20608f), 0x80000000000000000000000)
  {
    hide IsPower;
    PowerAt(13, Poly(0xd2f80f7bad266228, 0xf3ad7057d1027c0f), 0x2000);
    PowerAt(77, Poly(0x753ca9f03d0813ac, 0xf3fef2e1c669d3fa), 0x20000000000000000000);
    PowerAt(27, Poly(0xdd27992bb060c074, 0x83ecc0767932fa49), 0x8000000);
    PowerAt(91, Poly(0xf902e5a31c4553e, 0xa6d29a735f20608f), 0x80000000000000000000000);
  }

  lemma Powers9()
    ensures IsPower(Poly(0xa3302a3bfc133b7d, 0x4e4266602cc6d7), 0x1000000000)
    ensures IsPower(Poly(0x3fd897ec6afd0b22, 0xb9c2d59735aa7e26), 0x10000000000000000000000000)
    ensures IsPower(Poly(0xf9fad157f50b0174, 0x6f7e1ce5e1b6100e), 0x10000000000000)
    ensures IsPower(Poly(0x2b00b3edf2a3a12, 0xb57afc7537e0220a), 0x100000000000000000000000000000)
  {
    hide IsPower;
    PowerAt(36, Poly(0xa3302a3bfc133b7d, 0x4e4266602cc6d7), 0x1000000000);
    PowerAt(100, Poly(0x3fd897ec6afd0b22, 0xb9c2d59735aa7e26), 0x10000000000000000000000000);
    PowerAt(52, Poly(0xf9fad157f50b0174, 0x6f7e1ce5e1b6100e), 0x10000000000000);
    PowerAt(116, Poly(0x2b00b3edf2a3a12, 0xb57afc7537e0220a), 0x100000000000000000000000000000);
  }

  lemma Powers10()
    ensures IsPower(Poly(0xe36a86f91a3ffd07, 0xbbfe69d53c420322), 0x40000000000000)
    ensures IsPower(Poly(0x5991fcbb72206592, 0x91160f2eb06014a6), 0x400000000000000000000000000000)
    ensures IsPower(Poly(0xc78fe2a8ab69f8f8, 0x8019f0cf875b640e), 0x4000000000000000)
    ensures IsPower(Poly(0x79440bda7ffc59c3, 0x46efdc341e668c73), 0x40000000000000000000000000000000)
  {
    hide IsPower;
    PowerAt(54, Poly(0xe36a86f91a3ffd07, 0xbbfe69d53c420322), 0x40000000000000);
    PowerAt(118, Poly(0x5991fcbb72206592, 0x91160f2eb06014a6), 0x400000000000000000000000000000);
    PowerAt(62, Poly(0xc78fe2a8ab69f8f8, 0x8019f0cf875b640e), 0x4000000000000000);
    PowerAt(126, Poly(0x79440bda7ffc59c3, 0x46efdc341e668c73), 0x40000000000000000000000000000000);
  }

  lemma Powers11()
    ensures IsPower(Poly(0x5692248c8bfbe5cb, 0xf0092b585aec7455), 0x400000000000000000)
    ensures IsPower(Poly(0x2d6140605c2290a6, 0xdb1bf3b8b700c5f7), 0x10000000000000000000000000000000)
    ensures IsPower(Poly(0, 0x1), 0x40)
    ensures IsPower(Poly(0x8388faa8a921d602, 0x65b91aee3fc75b6), 0x1000000000000000)
  {
    hide IsPower;
    PowerAt(70, Poly(0x5692248c8bfbe5cb, 0xf0092b585aec7455), 0x400000000000000000);
    PowerAt(124, Poly(0x2d6140605c2290a6, 0xdb1bf3b8b700c5f7), 0x10000000000000000000000000000000);
    PowerAt(6, Poly(0, 0x1), 0x40);
    PowerAt(60, Poly(0x8388faa8a921d602, 0x65b91aee3fc75b6), 0x1000000000000000);
  }

  lemma Powers12()
    ensures IsPower(Poly(0xafb35eab3476bee5, 0x293416bf4c9d5cdd), 0x10000000000000000000000)
    ensures IsPower(Poly(0x15fed830f0963680, 0xbafc62fc0290c4ed), 0x4000000000000000000000000)
    ensures IsPower(Poly(0x40d75973e18e8408, 0x77d2c7d1914fee7d), 0x100000000000000000000000000)
    ensures IsPower(Poly(0xaa8aa10a0550fa3, 0x1b12c77bb59d4066), 0x4000000000000000000000000000)
  {
    hide IsPower;
    PowerAt(88, Poly(0xafb35eab3476bee5, 0x293416bf4c9d5cdd), 0x10000000000000000000000);
    PowerAt(98, Poly(0x15fed830f0963680, 0xbafc62fc0290c4ed), 0x4000000000000000000000000);
    PowerAt(104, Poly(0x40d75973e18e8408, 0x77d2c7d1914fee7d), 0x100000000000000000000000000);
    PowerAt(110, Poly(0xaa8aa10a0550fa3, 0x1b12c77bb59d4066), 0x4000000000000000000000000000);
  }

  lemma Powers13()
    ensures IsPower(Poly(0x321163bec4990ad2, 0xb3bbe81dc0abe24b), 0x8000)
    ensures IsPower(Poly(0x4a4e597376e296ed, 0x54cca5231f8a4649), 0x80000)
    ensures IsPower(Poly(0x563b590e7bb99129, 0x1ea7ed43fe3f13ed), 0x1000000)
    ensures IsPower(Poly(0xb00bac11efcd637b, 0x5c3ad1bcee779faa), 0x400000000)
  {
    hide IsPower;
    PowerAt(15, Poly(0x321163bec4990ad2, 0xb3bbe81dc0abe24b), 0x8000);
    PowerAt(19, Poly(0x4a4e597376e296ed, 0x54cca5231f8a4649), 0x80000);
    PowerAt(24, Poly(0x563b590e7bb99129, 0x1ea7ed43fe3f13ed), 0x1000000);
    PowerAt(34, Poly(0xb00bac11efcd637b, 0x5c3ad1bcee779faa), 0x400000000);
  }

  lemma Powers14()
    ensures IsPower(Poly(0xf4ac44d90fdfc787, 0x6d6c7d713df634b2), 0x10000000000)
    ensures IsPower(Poly(0x33c3edf674e47add, 0xa1f6add220642472), 0x400000000000)
    ensures IsPower(Poly(0x9f7dfea760163a85, 0xa924dceba7eca3a1), 0x80000000000000000000)
    ensures IsPower(Poly(0x819d0c8851468602, 0x2a5450f370c26c00), 0x800000000000000000000)
  {
    hide IsPower;
    PowerAt(40, Poly(0xf4ac44d90fdfc787, 0x6d6c7d713df634b2), 0x10000000000);
    PowerAt(46, Poly(0x33c3edf674e47add, 0xa1f6add220642472), 0x400000000000);
    PowerAt(79, Poly(0x9f7dfea760163a85, 0xa924dceba7eca3a1), 0x80000000000000000000);
    PowerAt(83, Poly(0x819d0c8851468602, 0x2a5450f370c26c00), 0x800000000000000000000);
  }

  lemma Products0()
    ensures IsPower(Poly(0x228e6fad27aa3597, 0xb0b335fa727ccacf), 0x10000000000000001)
  {
    hide IsPower;
    Powers0();
    Multiplied(0x2, 0, 0x1,
      0xbeac0467eba5facb, 0xd86b048b86aa9922, 0x10000000000000000,
      0x1, 0, 0x228e6fad27aa3597, 0xb0b335fa727ccacf);
  }

  lemma Products1()
    ensures IsPower(Poly(0x5a7cee0a10fe9d6f, 0x44ec83470b10d403), 0x1000000000000000100000000)
    ensures IsPower(Poly(0x3650e32a7b373c5, 0x735fc0a9f6a2fc5d), 0x1000000010000000100000001)
    ensures IsPower(Poly(0xe1282888721f3fd6, 0xd96e7bfa561b7ed), 0x100000000000000010000)
  {
    hide IsPower;
    Powers0();
    Powers1();
    Products0();
    Multiplied(0x6d5c8d1a4b1a701e, 0x1a5037803d7c09bb, 0x100000000,
      0x18f7c399ccebda8d, 0xf2deac28bef3bb07, 0x1000000000000000000000000,
      0x152dfb722246cef9, 0x96e703ef5dde47c, 0x5a7cee0a10fe9d6f, 0x44ec83470b10d403);
    Multiplied(0x228e6fad27aa3597, 0xb0b335fa727ccacf, 0x10000000000000001,
      0x5a7cee0a10fe9d6f, 0x44ec83470b10d403, 0x1000000000000000100000000,
      0x44d1bda6fa3203b8, 0x2e859fc3a3ff20fb, 0x3650e32a7b373c5, 0x735fc0a9f6a2fc5d);
    Multiplied(0x1e7aadfc624d3a05, 0x2dcb073daf1ce660, 0x10000,
      0x4dc4a0e7b85be058, 0x86b536afc98841e9, 0x100000000000000000000,
      0xd3789525077d2eee, 0x161f2da8abc648b8, 0xe1282888721f3fd6, 0xd96e7bfa561b7ed);
  }

  lemma Products2()
    ensures IsPower(Poly(0xb4cee663809e1b12, 0xce3553baa3630cce), 0x10000000100000001000000010000)
    ensures IsPower(Poly(0xbfcf44af13674cbe, 0x93e25ba23b00d143), 0x10001000100010001000100010001)
  {
    hide IsPower;
    Powers1();
    Products1();
    Multiplied(0x36f191bfb7ba6a97, 0x5a01777ce2fb65b1, 0x1000000000000,
      0x96e65369bb8ec1e, 0x7933af6e440aaa3a, 0x10000000000000000000000000000,
      0x4f3a38462be9288f, 0x1ae1d2d75ddedc24, 0xaea0455f42a0ae35, 0xc33d4e20ebabe9da);
    Multiplied(0xe1282888721f3fd6, 0xd96e7bfa561b7ed, 0x100000000000000010000,
      0xaea0455f42a0ae35, 0xc33d4e20ebabe9da, 0x10000000000000001000000000000,
      0x663f6bd2eb583c, 0x5b8844a779f67d9, 0xb4cee663809e1b12, 0xce3553baa3630cce);
    Multiplied(0x3650e32a7b373c5, 0x735fc0a9f6a2fc5d, 0x1000000010000000100000001,
      0xb4cee663809e1b12, 0xce3553baa3630cce, 0x10000000100000001000000010000,
      0xd48b0c4f49a9a064, 0x27cc60ca0261cbbe, 0xbfcf44af13674cbe, 0x93e25ba23b00d143);
  }

  lemma Products3()
    ensures IsPower(Poly(0x94a015a78e285d4, 0xd40a73f157cf4f97), 0x80008000800080008000800080008)
  {
    hide IsPower;
    Products2();
    Squared(0xbfcf44af13674cbe, 0x93e25ba23b00d143, 0x10001000100010001000100010001, 0x1221804534787ef7,
      0x376cbc5028729864);
    Squared(0x1221804534787ef7, 0x376cbc5028729864, 0x20002000200020002000200020002, 0x9b905557808fc3fc,
      0x60386938e236c0b2);
    Squared(0x9b905557808fc3fc, 0x60386938e236c0b2, 0x40004000400040004000400040004, 0x94a015a78e285d4,
      0xd40a73f157cf4f97);
  }

  lemma Products4()
    ensures IsPower(Poly(0x41ba89f6155f10dd, 0xdbecfac063c64c98), 0x400040004000400040004000400040)
  {
    hide IsPower;
    Products3();
    Squared(0x94a015a78e285d4, 0xd40a73f157cf4f97, 0x80008000800080008000800080008, 0xca30ff47aa0239b1,
      0xcb11a4f0ad27a5aa);
    Squared(0xca30ff47aa0239b1, 0xcb11a4f0ad27a5aa, 0x100010001000100010001000100010, 0x10098b05eefb2996,
      0x1d6b3e34af7a121a);
    Squared(0x10098b05eefb2996, 0x1d6b3e34af7a121a, 0x200020002000200020002000200020, 0x41ba89f6155f10dd,
      0xdbecfac063c64c98);
  }

  lemma Products5()
    ensures IsPower(Poly(0xfd6e1546988788c4, 0xc6ad491bdae8ad4a), 0x1000100010001000100010001000100)
    ensures IsPower(Poly(0xc34aaed3de299568, 0x294e6d4e1a2384c0), 0x1010101010101010101010101010101)
  {
    hide IsPower;
    Products2();
    Products4();
    Squared(0x41ba89f6155f10dd, 0xdbecfac063c64c98, 0x400040004000400040004000400040, 0x1f5ab287afba7dcd,
      0xbbcc83835034dcae);
    Squared(0x1f5ab287afba7dcd, 0xbbcc83835034dcae, 0x800080008000800080008000800080, 0xfd6e1546988788c4,
      0xc6ad491bdae8ad4a);
    Multiplied(0xbfcf44af13674cbe, 0x93e25ba23b00d143, 0x10001000100010001000100010001,
      0xfd6e1546988788c4, 0xc6ad491bdae8ad4a, 0x1000100010001000100010001000100,
      0xf99348989e9d2710, 0x6e2b88dc53a650d0, 0xc34aaed3de299568, 0x294e6d4e1a2384c0);
  }

  lemma Products6()
    ensures IsPower(Poly(0x3a0620ee74a75845, 0xdae7614b6cef194d), 0x8080808080808080808080808080808)
  {
    hide IsPower;
    Products5();
    Squared(0xc34aaed3de299568, 0x294e6d4e1a2384c0, 0x1010101010101010101010101010101, 0x31a2548993c3f0d2,
      0x42e0eb41238c1b84);
    Squared(0x31a2548993c3f0d2, 0x42e0eb41238c1b84, 0x2020202020202020202020202020202, 0xb51a4dc8a6ac5003,
      0xd1e31baed11a0f50);
    Squared(0xb51a4dc8a6ac5003, 0xd1e31baed11a0f50, 0x4040404040404040404040404040404, 0x3a0620ee74a75845,
      0xdae7614b6cef194d);
  }

  lemma Products7()
    ensures IsPower(Poly(0x548f64e289ccf412, 0x3f5480e5b95d6eff), 0x10101010101010101010101010101010)
    ensures IsPower(Poly(0x34f1b2f2f3650111, 0xade264592ad1f799), 0x11111111111111111111111111111111)
    ensures IsPower(Poly(0x97c5ca3157e5617a, 0x161aedaba37eea3f), 0x22222222222222222222222222222222)
  {
    hide IsPower;
    Products5();
    Products6();
    Squared(0x3a0620ee74a75845, 0xdae7614b6cef194d, 0x8080808080808080808080808080808, 0x548f64e289ccf412,
      0x3f5480e5b95d6eff);
    Multiplied(0xc34aaed3de299568, 0x294e6d4e1a2384c0, 0x1010101010101010101010101010101,
      0x548f64e289ccf412, 0x3f5480e5b95d6eff, 0x10101010101010101010101010101010,
      0x504f63c4eb5e9d41, 0x62097f5dbb74cf3, 0x34f1b2f2f3650111, 0xade264592ad1f799);
    Squared(0x34f1b2f2f3650111, 0xade264592ad1f799, 0x11111111111111111111111111111111, 0x97c5ca3157e5617a,
      0x161aedaba37eea3f);
  }

  lemma Products8()
    ensures IsPower(Poly(0x673bbdfd15f89bd0, 0x526e8bee42977eca), 0x44444444444444444444444444444444)
    ensures IsPower(Poly(0x53ca0f0fe69d9ac1, 0xff8cefb768468953), 0x55555555555555555555555555555555)
    ensures IsPower(Poly(0x53ca0f0fe69d9ac0, 0xff8cefb768468953), 0xaaaaaaaaaaaaaaaaaaaaaaaaaaaaaaaa)
  {
    hide IsPower;
    Products7();
    Squared(0x97c5ca3157e5617a, 0x161aedaba37eea3f, 0x22222222222222222222222222222222, 0x673bbdfd15f89bd0,
      0x526e8bee42977eca);
    Multiplied(0x34f1b2f2f3650111, 0xade264592ad1f799, 0x11111111111111111111111111111111,
      0x673bbdfd15f89bd0, 0x526e8bee42977eca, 0x44444444444444444444444444444444,
      0x302851ba711aac11, 0x20c9e13137ae227a, 0x53ca0f0fe69d9ac1, 0xff8cefb768468953);
    Squared(0x53ca0f0fe69d9ac1, 0xff8cefb768468953, 0x55555555555555555555555555555555, 0x53ca0f0fe69d9ac0,
      0xff8cefb768468953);
  }

  lemma Products9()
    ensures IsPower(Poly(0x7daaea46ebbc9a82, 0x42b0ec5bd8427dea), 0x200000000000000020000000000)
    ensures IsPower(Poly(0x98761af8f8941116, 0x4e3c2f92bfa10e04), 0x81000000000000008100000000)
  {
    hide IsPower;
    Powers2();
    Products1();
    Multiplied(0x75f70097b46a43fe, 0xc51c85a7cccbd849, 0x8000000000,
      0x437c6d3bf3d8b36a, 0xabab8fdf00def644, 0x80000000000000000000000000,
      0xd8eee1a3e8ebbfb6, 0x7d2651d7412d47f8, 0xecf056ed2a9e05fa, 0x12ee7ca216ab5a90);
    Multiplied(0xfc49c2b3247583fa, 0x3960df843c7150cf, 0x20000000000,
      0x853e42a6f80a4fbf, 0x14b0973dde3a777a, 0x200000000000000000000000000,
      0xf61683f679140554, 0x36b22552435775c, 0x7daaea46ebbc9a82, 0x42b0ec5bd8427dea);
    Multiplied(0x5a7cee0a10fe9d6f, 0x44ec83470b10d403, 0x1000000000000000100000000,
      0xecf056ed2a9e05fa, 0x12ee7ca216ab5a90, 0x80000000000000008000000000,
      0x3a1435c5ba6484e0, 0x4fed5b7b080de07, 0x98761af8f8941116, 0x4e3c2f92bfa10e04);
  }

  lemma Products10()
    ensures IsPower(Poly(0xbe790e2f036e1d38, 0x5bc40717420c125f), 0x281000000000000028100000000)
    ensures IsPower(Poly(0xe0832689efbbb96c, 0x492a6b4ee48d5e71), 0x800000000000000080)
    ensures IsPower(Poly(0x8f88b438c9caf095, 0xd4ddac81642c1eef), 0x2000000000000000200)
  {
    hide IsPower;
    Powers3();
    Products9();
    Multiplied(0x98761af8f8941116, 0x4e3c2f92bfa10e04, 0x81000000000000008100000000,
      0x7daaea46ebbc9a82, 0x42b0ec5bd8427dea, 0x200000000000000020000000000,
      0x9bf8367b4ad4814, 0x133f83bed4352c14, 0xbe790e2f036e1d38, 0x5bc40717420c125f);
    Multiplied(0x5fd66762f0e1c001, 0x653ced7f29f88a, 0x80,
      0x36a241684293dc91, 0x9820a93b2334688e, 0x800000000000000000,
      0x2b297283662965fd, 0x37e32dd04391c7, 0xe0832689efbbb96c, 0x492a6b4ee48d5e71);
    Multiplied(0x6802dbe099ee01bb, 0x827846355bfbbb3b, 0x200,
      0xe0b8e64c67cda36c, 0x604885cf1a502dc1, 0x2000000000000000000,
      0xc167e97cc6c44f01, 0x30ff002df1803276, 0x8f88b438c9caf095, 0xd4ddac81642c1eef);
  }

  lemma Products11()
    ensures IsPower(Poly(0xb556e7d30fb64238, 0x8d3a58c5cd209e5), 0x2810000000000000281)
    ensures IsPower(Poly(0xa5d29d3a1a16e11f, 0x6d10222207c80949), 0x2000000000000000200000000)
  {
    hide IsPower;
    Powers4();
    Products0();
    Products10();
    Multiplied(0x228e6fad27aa3597, 0xb0b335fa727ccacf, 0x10000000000000001,
      0xe0832689efbbb96c, 0x492a6b4ee48d5e71, 0x800000000000000080,
      0xa0b39a9d5200843a, 0x2904c1c006502459, 0xec938cbad67396fe, 0xb682966d99594439);
    Multiplied(0xec938cbad67396fe, 0xb682966d99594439, 0x810000000000000081,
      0x8f88b438c9caf095, 0xd4ddac81642c1eef, 0x2000000000000000200,
      0xee4cdc2ba383bfde, 0x7f38769b1348066b, 0xb556e7d30fb64238, 0x8d3a58c5cd209e5);
    Multiplied(0x104f8616cc0c79b, 0xff59f6e4033b35f2, 0x200000000,
      0x3ca1ed1e42dce333, 0xe12a47d641175b6e, 0x2000000000000000000000000,
      0x434ce8f4c19c2e62, 0x5f6a2b64cc58cbfd, 0xa5d29d3a1a16e11f, 0x6d10222207c80949);
  }

  lemma Products12()
    ensures IsPower(Poly(0xad559c82be10aad5, 0x973c29bc01d07eae), 0x2000000000000000200000000000)
    ensures IsPower(Poly(0xb48809967437a688, 0x4dcf458e5f205683), 0x8000000000000000800000000000000)
  {
    hide IsPower;
    Powers4();
    Powers5();
    Multiplied(0xec61e7c8474be010, 0xc3b06177b3e723db, 0x200000000000,
      0x4202f7289201be8c, 0x48265b8ed33a8cf, 0x2000000000000000000000000000,
      0xc3243bf317310215, 0x36e0d292de81297, 0xad559c82be10aad5, 0x973c29bc01d07eae);
    Multiplied(0x4aff86c90aa5de02, 0x58e6899fca65a30b, 0x800000000000000,
      0xc30430d0a96426d6, 0xebbce74caf217827, 0x8000000000000000000000000000000,
      0x2f0cd984d31d4f24, 0x335319777226cefa, 0xb48809967437a688, 0x4dcf458e5f205683);
  }

  lemma Products13()
    ensures IsPower(Poly(0xa226bb79626b46cc, 0x86f5f3d1fad5ef63), 0x100000000000000010)
  {
    hide IsPower;
    Powers5();
    Multiplied(0x10000, 0, 0x10,
      0x49551ed863b5af2, 0x46d4be289a272b8e, 0x100000000000000000,
      0x46cc, 0, 0xa226bb79626b46cc, 0x86f5f3d1fad5ef63);
  }

  lemma Products14()
    ensures IsPower(Poly(0x463b7ae6f7891eeb, 0xac5eb50caf761e0a), 0x1000000000000000100000)
    ensures IsPower(Poly(0xe81f5b1b4704e68d, 0x3c6ece23383ca94e), 0x4000000000000000400000)
    ensures IsPower(Poly(0xdbf87ad2adbf861a, 0xce4f30c48760ab5), 0x400000000000000040000000)
  {
    hide IsPower;
    Powers6();
    Powers7();
    Multiplied(0x9b4ede39c85dd32c, 0x2aef7f2e0d57c9e6, 0x100000,
      0x6cd504d521a829db, 0xdffda9e17564bafb, 0x1000000000000000000000,
      0x2d9be99be441113f, 0x1cfc556a64e7bdfe, 0x463b7ae6f7891eeb, 0xac5eb50caf761e0a);
    Multiplied(0x269edc3c5357cd6f, 0x9b12f0a3c4fcb527, 0x400000,
      0x515f0b2922ce1695, 0xc3a44c299a0921df, 0x4000000000000000000000,
      0x1779104d84076d2e, 0x6aaa6295530af299, 0xe81f5b1b4704e68d, 0x3c6ece23383ca94e);
    Multiplied(0xa4db7f6e11fbeab8, 0xd96deee66219f0f1, 0x40000000,
      0x86dac360270567bd, 0xeb4a55ce38f4fa08, 0x400000000000000000000000,
      0x6e7d314254f59b02, 0x4649f922440bc70d, 0xdbf87ad2adbf861a, 0xce4f30c48760ab5);
  }

  lemma Products15()
    ensures IsPower(Poly(0xfa559e9182d21686, 0xe59e74dce536e3d8), 0x8002003000000000800200300000000)
  {
    hide IsPower;
    Products1();
    Products11();
    Products12();
    Multiplied(0x5a7cee0a10fe9d6f, 0x44ec83470b10d403, 0x1000000000000000100000000,
      0xa5d29d3a1a16e11f, 0x6d10222207c80949, 0x2000000000000000200000000,
      0xaa0a9c8421522bc9, 0x1ad7500f65d21ac7, 0x679a6b077bc7cb4c, 0x2e2a5f73f53a51df);
    Multiplied(0x679a6b077bc7cb4c, 0x2e2a5f73f53a51df, 0x3000000000000000300000000,
      0xad559c82be10aad5, 0x973c29bc01d07eae, 0x2000000000000000200000000000,
      0x32ca442dd70ee626, 0x153c1d008a54c9f0, 0xd30ae3832e82399a, 0x3596e39cbe1b9bdd);
    Multiplied(0xd30ae3832e82399a, 0x3596e39cbe1b9bdd, 0x2003000000000000200300000000,
      0xb48809967437a688, 0x4dcf458e5f205683, 0x8000000000000000800000000000000,
      0xe8b6ea97b6fa8b56, 0xc3ef023d21462b2, 0xfa559e9182d21686, 0xe59e74dce536e3d8);
  }

  lemma Products16()
    ensures IsPower(Poly(0x93dde831c6056ca8, 0xe1828b5e0d2b0d9d), 0x8002003005000100800200300500010)
  {
    hide IsPower;
    Products13();
    Products14();
    Products15();
    Multiplied(0xfa559e9182d21686, 0xe59e74dce536e3d8, 0x8002003000000000800200300000000,
      0xa226bb79626b46cc, 0x86f5f3d1fad5ef63, 0x100000000000000010,
      0xa6e53d87860d39e1, 0x70db834ada5b425d, 0xf58a51c832fe6149, 0x8801f41c61e6fb42);
    Multiplied(0xf58a51c832fe6149, 0x8801f41c61e6fb42, 0x8002003000000100800200300000010,
      0x463b7ae6f7891eeb, 0xac5eb50caf761e0a, 0x1000000000000000100000,
      0xbc325ce28c9500e3, 0x5352cff5cf1977bd, 0xe2da64df06525890, 0xd819955edfd1452b);
    Multiplied(0xe2da64df06525890, 0xd819955edfd1452b, 0x8002003001000100800200300100010,
      0xe81f5b1b4704e68d, 0x3c6ece23383ca94e, 0x4000000000000000400000,
      0xcd9c7b0ad877baf8, 0x130db4a5d6cc37ad, 0x93dde831c6056ca8, 0xe1828b5e0d2b0d9d);
  }

  lemma Products17()
    ensures IsPower(Poly(0xca8a85e1225a28dd, 0x1ff27b8d2b4483d), 0x8002003405000100800200340500010)
  {
    hide IsPower;
    Products14();
    Products16();
    Multiplied(0x93dde831c6056ca8, 0xe1828b5e0d2b0d9d, 0x8002003005000100800200300500010,
      0xdbf87ad2adbf861a, 0xce4f30c48760ab5, 0x400000000000000040000000,
      0x24e7da4c78126e4d, 0x4dce98c3237a683, 0xca8a85e1225a28dd, 0x1ff27b8d2b4483d);
  }

  lemma Products18()
    ensures IsPower(Poly(0x2e05e0d0f63d238d, 0x701f117cb2402ee0), 0x20000000000000002)
  {
    hide IsPower;
    Powers7();
    Multiplied(0x4, 0, 0x2,
      0x9c74e1ec81b738e3, 0x5c1e8b64735a759a, 0x20000000000000000,
      0x1, 0, 0x2e05e0d0f63d238d, 0x701f117cb2402ee0);
  }

  lemma Products19()
    ensures IsPower(Poly(0x725e7743e1b53fad, 0xbd3fe13fe320396e), 0x20000000000000002000)
    ensures IsPower(Poly(0xf26d513965a21323, 0xf84e77c088b0eadd), 0x80000000000000008000000)
    ensures IsPower(Poly(0x7bfd277bccb16c51, 0x5239455392581dda), 0x10000000000000001000000000)
  {
    hide IsPower;
    Powers8();
    Powers9();
    Multiplied(0xd2f80f7bad266228, 0xf3ad7057d1027c0f, 0x2000,
      0x753ca9f03d0813ac, 0xf3fef2e1c669d3fa, 0x20000000000000000000,
      0xc0a24558697ecf4d, 0x55291ba2b764c0f3, 0x725e7743e1b53fad, 0xbd3fe13fe320396e);
    Multiplied(0xdd27992bb060c074, 0x83ecc0767932fa49, 0x8000000,
      0xf902e5a31c4553e, 0xa6d29a735f20608f, 0x80000000000000000000000,
      0x1c2727c7d1813c7b, 0x52f41c213ad5ad8d, 0xf26d513965a21323, 0xf84e77c088b0eadd);
    Multiplied(0xa3302a3bfc133b7d, 0x4e4266602cc6d7, 0x1000000000,
      0x3fd897ec6afd0b22, 0xb9c2d59735aa7e26, 0x10000000000000000000000000,
      0x9be917a72b1b5a0b, 0x280a994f31a5db, 0x7bfd277bccb16c51, 0x5239455392581dda);
  }

  lemma Products20()
    ensures IsPower(Poly(0xe1e30793f1db9e1d, 0xf451462aa1c73572), 0x100000000000000010000000000000)
    ensures IsPower(Poly(0xbad7b93e6d5c4af4, 0x748291c8607590a6), 0x400000000000000040000000000000)
    ensures IsPower(Poly(0xa2735a5d95e488da, 0xea3ac20a43da582e), 0x40000000000000004000000000000000)
  {
    hide IsPower;
    Powers9();
    Powers10();
    Multiplied(0xf9fad157f50b0174, 0x6f7e1ce5e1b6100e, 0x10000000000000,
      0x2b00b3edf2a3a12, 0xb57afc7537e0220a, 0x100000000000000000000000000000,
      0xc9b98aeffd67c3b5, 0x3d6ed681071edfd5, 0xe1e30793f1db9e1d, 0xf451462aa1c73572);
    Multiplied(0xe36a86f91a3ffd07, 0xbbfe69d53c420322, 0x40000000000000,
      0x5991fcbb72206592, 0x91160f2eb06014a6, 0x400000000000000000000000000000,
      0x99eb90519fe7580a, 0x56ed6ad7b8e6ff39, 0xbad7b93e6d5c4af4, 0x748291c8607590a6);
    Multiplied(0xc78fe2a8ab69f8f8, 0x8019f0cf875b640e, 0x4000000000000000,
      0x79440bda7ffc59c3, 0x46efdc341e668c73, 0x40000000000000000000000000000000,
      0x4db1408060fdfbd2, 0x237dd6afdf91918d, 0xa2735a5d95e488da, 0xea3ac20a43da582e);
  }

  lemma Products21()
    ensures IsPower(Poly(0x26c9922d18b30743, 0x5f32e174fe5fdc4f), 0x80020030000000008002003)
  {
    hide IsPower;
    Products0();
    Products18();
    Products19();
    Multiplied(0x228e6fad27aa3597, 0xb0b335fa727ccacf, 0x10000000000000001,
      0x2e05e0d0f63d238d, 0x701f117cb2402ee0, 0x20000000000000002,
      0xf4b58b485eca7086, 0x31369450b4dbc636, 0x11b8578937282d75, 0x1079fbd5c9c41918);
    Multiplied(0x11b8578937282d75, 0x1079fbd5c9c41918, 0x30000000000000003,
      0x725e7743e1b53fad, 0xbd3fe13fe320396e, 0x20000000000000002000,
      0x5ec3e4b64efe759e, 0xbe6584dcef36c6a, 0x60ace08f545301b7, 0x2ecb5a10d0f2906d);
    Multiplied(0x60ace08f545301b7, 0x2ecb5a10d0f2906d, 0x20030000000000002003,
      0xf26d513965a21323, 0xf84e77c088b0eadd, 0x80000000000000008000000,
      0x29fe1b6b93281a7a, 0x1a9b56deedf422cf, 0x26c9922d18b30743, 0x5f32e174fe5fdc4f);
  }

  lemma Products22()
    ensures IsPower(Poly(0xb58bad6ade69512f, 0xd1bb235ed153d007), 0x500010080020030050001008002003)
  {
    hide IsPower;
    Products19();
    Products20();
    Products21();
    Multiplied(0x26c9922d18b30743, 0x5f32e174fe5fdc4f, 0x80020030000000008002003,
      0x7bfd277bccb16c51, 0x5239455392581dda, 0x10000000000000001000000000,
      0x7ca1c073ae575e7, 0x128bfe2e7aedac00, 0x4ed059ba6ae62254, 0xcf702ee949a6b324);
    Multiplied(0x4ed059ba6ae62254, 0xcf702ee949a6b324, 0x10080020030000001008002003,
      0xe1e30793f1db9e1d, 0xf451462aa1c73572, 0x100000000000000010000000000000,
      0xe0918265641a6122, 0x42669f9c8ae9b212, 0xfad26387e4c065c6, 0x5be4161910a33ec6);
    Multiplied(0xfad26387e4c065c6, 0x5be4161910a33ec6, 0x100010080020030010001008002003,
      0xbad7b93e6d5c4af4, 0x748291c8607590a6, 0x400000000000000040000000000000,
      0x6f7efd71acaccc17, 0x197c3589cded7d81, 0xb58bad6ade69512f, 0xd1bb235ed153d007);
  }

  lemma Products23()
    ensures IsPower(Poly(0xa3ce2c0dbcf5bd06, 0x6193850389603920), 0x40500010080020034050001008002003)
    ensures IsPower(Poly(0xe8ea4af6a572f7dd, 0x18ffd98758d0f036), 0x430000000000000000)
  {
    hide IsPower;
    Powers0();
    Powers7();
    Powers11();
    Products20();
    Products22();
    Multiplied(0xb58bad6ade69512f, 0xd1bb235ed153d007, 0x500010080020030050001008002003,
      0xa2735a5d95e488da, 0xea3ac20a43da582e, 0x40000000000000004000000000000000,
      0xdcf3a18621faa090, 0x41a3d99e9f1ed19d, 0xa3ce2c0dbcf5bd06, 0x6193850389603920);
    Multiplied(0xbeac0467eba5facb, 0xd86b048b86aa9922, 0x10000000000000000,
      0x9c74e1ec81b738e3, 0x5c1e8b64735a759a, 0x20000000000000000,
      0x74fd0c6aeff794d3, 0x3e3ff1876179db52, 0x6626f5ac0089ddae, 0xa2310691a9494077);
    Multiplied(0x6626f5ac0089ddae, 0xa2310691a9494077, 0x30000000000000000,
      0x5692248c8bfbe5cb, 0xf0092b585aec7455, 0x400000000000000000,
      0x126bac8ecb18d6df, 0x67e0a521a6373a20, 0xe8ea4af6a572f7dd, 0x18ffd98758d0f036);
  }

  lemma Products24()
    ensures IsPower(Poly(0xcba471058100d797, 0xbfb9a8a319ffa8ac), 0x10000000000000430010000000000000)
  {
    hide IsPower;
    Powers9();
    Powers11();
    Products23();
    Multiplied(0xe8ea4af6a572f7dd, 0x18ffd98758d0f036, 0x430000000000000000,
      0x2d6140605c2290a6, 0xdb1bf3b8b700c5f7, 0x10000000000000000000000000000000,
      0xad3109c8a78082a5, 0xb23fae0ddd015a4, 0xf1c6dbd95f3c374b, 0x8bd9b355416758a5);
    Multiplied(0xf1c6dbd95f3c374b, 0x8bd9b355416758a5, 0x10000000000000430000000000000000,
      0xf9fad157f50b0174, 0x6f7e1ce5e1b6100e, 0x10000000000000,
      0x6b5136674e7e4eab, 0x3457bde1db7b12a9, 0xcba471058100d797, 0xbfb9a8a319ffa8ac);
  }

  lemma Products25()
    ensures IsPower(Poly(0x8, 0), 0x3)
  {
    hide IsPower;
    Powers0();
    Powers7();
    Multiplied(0x2, 0, 0x1,
      0x4, 0, 0x2,
      0, 0, 0x8, 0);
  }

  lemma Products26()
    ensures IsPower(Poly(0, 0x8), 0x43)
  {
    hide IsPower;
    Powers11();
    Products25();
    Multiplied(0x8, 0, 0x3,
      0, 0x1, 0x40,
      0, 0, 0, 0x8);
  }

  lemma Products27()
    ensures IsPower(Poly(0xf5011512f50dd4cd, 0x788ed703d9411f72), 0x1000000000000043)
  {
    hide IsPower;
    Powers11();
    Products26();
    Multiplied(0, 0x8, 0x43,
      0x8388faa8a921d602, 0x65b91aee3fc75b6, 0x1000000000000000,
      0x32d69fb752f514cd, 0, 0xf5011512f50dd4cd, 0x788ed703d9411f72);
  }

  lemma Products28()
    ensures IsPower(Poly(0xc598eaea80e0fcb1, 0xdf0c4579f9638739), 0x100000000000001000000000000043)
    ensures IsPower(Poly(0xf13985e9e25dd6dc, 0xa77bca3292f418df), 0x20110000000000000000)
  {
    hide IsPower;
    Powers0();
    Powers5();
    Powers8();
    Powers9();
    Products27();
    Multiplied(0xf5011512f50dd4cd, 0x788ed703d9411f72, 0x1000000000000043,
      0x2b00b3edf2a3a12, 0xb57afc7537e0220a, 0x100000000000000000000000000000,
      0xd3a827be4976dbfb, 0x355a57c22a2e7af2, 0xc598eaea80e0fcb1, 0xdf0c4579f9638739);
    Multiplied(0xbeac0467eba5facb, 0xd86b048b86aa9922, 0x10000000000000000,
      0x49551ed863b5af2, 0x46d4be289a272b8e, 0x100000000000000000,
      0x462bf78e978632d9, 0x349458328462e2d0, 0x3e646b58b0a59bdf, 0x217a5dfb26fd03cf);
    Multiplied(0x3e646b58b0a59bdf, 0x217a5dfb26fd03cf, 0x110000000000000000,
      0x753ca9f03d0813ac, 0xf3fef2e1c669d3fa, 0x20000000000000000000,
      0xb7ad9fe95fda6238, 0x1ea3ca0559bcf874, 0xf13985e9e25dd6dc, 0xa77bca3292f418df);
  }

  lemma Products29()
    ensures IsPower(Poly(0xeb75d5fd79518e35, 0xed0b60ae23bdf279), 0x104010020110000000000000000)
  {
    hide IsPower;
    Powers12();
    Products28();
    Multiplied(0xf13985e9e25dd6dc, 0xa77bca3292f418df, 0x20110000000000000000,
      0xafb35eab3476bee5, 0x293416bf4c9d5cdd, 0x10000000000000000000000,
      0x8e77ddfed6a2325c, 0x1169f06fac6d7fea, 0x1349594a33d9d570, 0x8718b24d8a358c0e);
    Multiplied(0x1349594a33d9d570, 0x8718b24d8a358c0e, 0x10020110000000000000000,
      0x15fed830f0963680, 0xbafc62fc0290c4ed, 0x4000000000000000000000000,
      0xf0bbada4fcb151ee, 0x5e498d0e06a810c4, 0x713bdacdcf5f49ee, 0xc9b6e7a1a48685ea);
    Multiplied(0x713bdacdcf5f49ee, 0xc9b6e7a1a48685ea, 0x4010020110000000000000000,
      0x40d75973e18e8408, 0x77d2c7d1914fee7d, 0x100000000000000000000000000,
      0xe688e09d98b9b945, 0x25ea937a23769350, 0xeb75d5fd79518e35, 0xed0b60ae23bdf279);
  }

  lemma Products30()
    ensures IsPower(Poly(0x7cdb5c21cbf40a71, 0x95cb909fffea6744), 0x4104010020110000000000008200)
  {
    hide IsPower;
    Powers3();
    Powers12();
    Powers13();
    Products29();
    Multiplied(0xeb75d5fd79518e35, 0xed0b60ae23bdf279, 0x104010020110000000000000000,
      0xaa8aa10a0550fa3, 0x1b12c77bb59d4066, 0x4000000000000000000000000000,
      0x2efed3848c916de4, 0x883ae8ede077bf1, 0x9978bc483250009b, 0x8187b8d6f51ed1d2);
    Multiplied(0x9978bc483250009b, 0x8187b8d6f51ed1d2, 0x4104010020110000000000000000,
      0x6802dbe099ee01bb, 0x827846355bfbbb3b, 0x200,
      0x30fd4edaa52b67b4, 0x41e5b9807736658d, 0x1a61614d76faae91, 0xc854e4a03981617);
    Multiplied(0x1a61614d76faae91, 0xc854e4a03981617, 0x4104010020110000000000000200,
      0x321163bec4990ad2, 0xb3bbe81dc0abe24b, 0x8000,
      0x1adab1f23e35b883, 0x709827a6ad173ed, 0x7cdb5c21cbf40a71, 0x95cb909fffea6744);
  }

  lemma Products31()
    ensures IsPower(Poly(0x1ca4faf710d316e4, 0x8dceadcc3716b0b7), 0x4104010020110000000000498200)
  {
    hide IsPower;
    Powers1();
    Powers6();
    Powers13();
    Products30();
    Multiplied(0x7cdb5c21cbf40a71, 0x95cb909fffea6744, 0x4104010020110000000000008200,
      0x1e7aadfc624d3a05, 0x2dcb073daf1ce660, 0x10000,
      0x2df21dca4918fd70, 0x14b8b3db5211332a, 0x77d44168bc7b84c5, 0x4ba2b05dc036b96b);
    Multiplied(0x77d44168bc7b84c5, 0x4ba2b05dc036b96b, 0x4104010020110000000000018200,
      0x4a4e597376e296ed, 0x54cca5231f8a4649, 0x80000,
      0x41a0f07240cdd788, 0x174f195117823451, 0xbcc0ea4fd3a7e311, 0x68c6e30f53a7978b);
    Multiplied(0xbcc0ea4fd3a7e311, 0x68c6e30f53a7978b, 0x4104010020110000000000098200,
      0x269edc3c5357cd6f, 0x9b12f0a3c4fcb527, 0x400000,
      0xcf37a9802fb5c7b, 0x311c8e27fc8bd26d, 0x1ca4faf710d316e4, 0x8dceadcc3716b0b7);
  }

  lemma Products32()
    ensures IsPower(Poly(0xac214c42dda3a9c0, 0xb9fa26a81d8cdfbc), 0x4104010020111000000000498200)
  {
    hide IsPower;
    Powers11();
    Products31();
    Multiplied(0x1ca4faf710d316e4, 0x8dceadcc3716b0b7, 0x4104010020110000000000498200,
      0x8388faa8a921d602, 0x65b91aee3fc75b6, 0x1000000000000000,
      0x695f832015bc9c08, 0x30211e4da2bf3e4, 0xac214c42dda3a9c0, 0xb9fa26a81d8cdfbc);
  }

  lemma Products33()
    ensures IsPower(Poly(0x20000, 0), 0x11)
  {
    hide IsPower;
    Powers0();
    Powers5();
    Multiplied(0x2, 0, 0x1,
      0x10000, 0, 0x10,
      0, 0, 0x20000, 0);
  }

  lemma Products34()
    ensures IsPower(Poly(0x6027367170e22719, 0x943b05ba14f10a20), 0x2011)
  {
    hide IsPower;
    Powers8();
    Products33();
    Multiplied(0x20000, 0, 0x11,
      0xd2f80f7bad266228, 0xf3ad7057d1027c0f, 0x2000,
      0x1e719, 0, 0x6027367170e22719, 0x943b05ba14f10a20);
  }

  lemma Products35()
    ensures IsPower(Poly(0x7691e7f58bea4ef6, 0x2b16afd75c144020), 0x10401002011)
  {
    hide IsPower;
    Powers13();
    Powers14();
    Products34();
    Multiplied(0x6027367170e22719, 0x943b05ba14f10a20, 0x2011,
      0x563b590e7bb99129, 0x1ea7ed43fe3f13ed, 0x1000000,
      0x2e891fc37d401c34, 0xec3a3d0c572baaf, 0x640add05136fe9c5, 0x2f954cf92df3b427);
    Multiplied(0x640add05136fe9c5, 0x2f954cf92df3b427, 0x1002011,
      0xb00bac11efcd637b, 0x5c3ad1bcee779faa, 0x400000000,
      0xbef1000ad3073925, 0x8dbc9fb804b66eb, 0xff9ffa626ee5f7f2, 0x42bec6b545d5996c);
    Multiplied(0xff9ffa626ee5f7f2, 0x42bec6b545d5996c, 0x401002011,
      0xf4ac44d90fdfc787, 0x6d6c7d713df634b2, 0x10000000000,
      0x3bb8a38ceb322e28, 0x1bbbcccd8698c963, 0x7691e7f58bea4ef6, 0x2b16afd75c144020);
  }

  lemma Products36()
    ensures IsPower(Poly(0x1ed4ffb47e2c3c4a, 0xe7b5dcc380b41a35), 0x82000000410401002011)
  {
    hide IsPower;
    Powers3();
    Powers14();
    Products35();
    Multiplied(0x7691e7f58bea4ef6, 0x2b16afd75c144020, 0x10401002011,
      0x33c3edf674e47add, 0xa1f6add220642472, 0x400000000000,
      0x69c26add33c1b55, 0x10dc9e66520e889f, 0xb3b123548f898c2b, 0x6047658f3f432181);
    Multiplied(0xb3b123548f898c2b, 0x6047658f3f432181, 0x410401002011,
      0xe0b8e64c67cda36c, 0x604885cf1a502dc1, 0x2000000000000000000,
      0xe9dcc512c9e0e2f6, 0x1405d139d899b7a0, 0xbc94168c553321a2, 0x811ee475bfb71b3f);
    Multiplied(0xbc94168c553321a2, 0x811ee475bfb71b3f, 0x2000000410401002011,
      0x9f7dfea760163a85, 0xa924dceba7eca3a1, 0x80000000000000000000,
      0x384d3b772a077e60, 0x542989a8a12c5dba, 0x1ed4ffb47e2c3c4a, 0xe7b5dcc380b41a35);
  }

  lemma Products37()
    ensures IsPower(Poly(0x18d27c3f31138c69, 0xca64d99adf538703), 0x4982000000410401002011)
  {
    hide IsPower;
    Powers1();
    Powers6();
    Powers14();
    Products36();
    Multiplied(0x1ed4ffb47e2c3c4a, 0xe7b5dcc380b41a35, 0x82000000410401002011,
      0x4dc4a0e7b85be058, 0x86b536afc98841e9, 0x100000000000000000000,
      0x197b880c9c205c1e, 0x71fa90d1c9151096, 0x319def61ccb286e, 0x116752789b4e6a7);
    Multiplied(0x319def61ccb286e, 0x116752789b4e6a7, 0x182000000410401002011,
      0x819d0c8851468602, 0x2a5450f370c26c00, 0x800000000000000000000,
      0xd4f071c01775b2bd, 0x280e9c72ffb5c4, 0xa0ae07b0f5ed4661, 0x7e188c880099d038);
    Multiplied(0xa0ae07b0f5ed4661, 0x7e188c880099d038, 0x982000000410401002011,
      0x515f0b2922ce1695, 0xc3a44c299a0921df, 0x4000000000000000000000,
      0x6bd8ba3a0894d31c, 0x2035caf4ad8b0f18, 0x18d27c3f31138c69, 0xca64d99adf538703);
  }

  lemma Products38()
    ensures IsPower(Poly(0x64f925d33835a4fc, 0xfbfd22b5d0d740f8), 0x10000000004982000000410401002011)
  {
    hide IsPower;
    Powers11();
    Products37();
    Multiplied(0x18d27c3f31138c69, 0xca64d99adf538703, 0x4982000000410401002011,
      0x2d6140605c2290a6, 0xdb1bf3b8b700c5f7, 0x10000000000000000000000000000000,
      0x982fea3ac71ea42a, 0x5c16d2fa93121600, 0x64f925d33835a4fc, 0xfbfd22b5d0d740f8);
  }

  lemma Moves3(s: State, n: nat)
    requires 3 * n == PERIOD && Iterate(s, n) == s
    ensures s == ZERO
  {
    hide IsPower, Iterate;
    Products8();
    assert n == 0x55555555555555555555555555555555;
    Repeats(s, n, 1, 0x55555555555555555555555555555555);
    assert 0xaaaaaaaaaaaaaaaaaaaaaaaaaaaaaaaa == 0x55555555555555555555555555555555 + 1 * n;
    PowersDifferByOne(0x53ca0f0fe69d9ac0, 0xff8cefb768468953, 0xaaaaaaaaaaaaaaaaaaaaaaaaaaaaaaaa,
      0x53ca0f0fe69d9ac1, 0xff8cefb768468953, 0x55555555555555555555555555555555, s);
  }

  lemma Moves5(s: State, n: nat)
    requires 5 * n == PERIOD && Iterate(s, n) == s
    ensures s == ZERO
  {
    hide IsPower, Iterate;
    Products7();
    Products8();
    assert n == 0x33333333333333333333333333333333;
    Repeats(s, n, 1, 0x11111111111111111111111111111111);
    assert 0x44444444444444444444444444444444 == 0x11111111111111111111111111111111 + 1 * n;
    PowersDiffer(0x673bbdfd15f89bd0, 0x526e8bee42977eca, 0x44444444444444444444444444444444,
      0x34f1b2f2f3650111, 0xade264592ad1f799, 0x11111111111111111111111111111111,
      0x53ca0f0fe69d9ac0, 0xff8cefb768468953, 0x4f0f4628d2280ac1, 0x554bb79a7b40df63, s);
  }

  lemma Moves17(s: State, n: nat)
    requires 17 * n == PERIOD && Iterate(s, n) == s
    ensures s == ZERO
  {
    hide IsPower, Iterate;
    Products5();
    Products7();
    assert n == 0xf0f0f0f0f0f0f0f0f0f0f0f0f0f0f0f;
    Repeats(s, n, 1, 0x1010101010101010101010101010101);
    assert 0x10101010101010101010101010101010 == 0x1010101010101010101010101010101 + 1 * n;
    PowersDiffer(0x548f64e289ccf412, 0x3f5480e5b95d6eff, 0x10101010101010101010101010101010,
      0xc34aaed3de299568, 0x294e6d4e1a2384c0, 0x1010101010101010101010101010101,
      0xa33478c3a480606b, 0xbbf889f289af1da6, 0x3946bf3f8b16599f, 0x82bc940668893a5, s);
  }

  lemma Moves257(s: State, n: nat)
    requires 257 * n == PERIOD && Iterate(s, n) == s
    ensures s == ZERO
  {
    hide IsPower, Iterate;
    Products2();
    Products5();
    assert n == 0xff00ff00ff00ff00ff00ff00ff00ff;
    Repeats(s, n, 1, 0x10001000100010001000100010001);
    assert 0x1000100010001000100010001000100 == 0x10001000100010001000100010001 + 1 * n;
    PowersDiffer(0xfd6e1546988788c4, 0xc6ad491bdae8ad4a, 0x1000100010001000100010001000100,
      0xbfcf44af13674cbe, 0x93e25ba23b00d143, 0x10001000100010001000100010001,
      0x2168d960ff79f11, 0x2fdae04ad8460bb1, 0x4dcff2b0458ed5db, 0x9929a44026d7bd3, s);
  }

  lemma Moves641(s: State, n: nat)
    requires 641 * n == PERIOD && Iterate(s, n) == s
    ensures s == ZERO
  {
    hide IsPower, Iterate;
    Products17();
    Products23();
    assert n == 0x663d80ff99c27f00663d80ff99c27f;
    Repeats(s, n, 141, 0x8002003405000100800200340500010);
    assert 0x40500010080020034050001008002003 == 0x8002003405000100800200340500010 + 141 * n;
    PowersDiffer(0xa3ce2c0dbcf5bd06, 0x6193850389603920, 0x40500010080020034050001008002003,
      0xca8a85e1225a28dd, 0x1ff27b8d2b4483d, 0x8002003405000100800200340500010,
      0xba0aa1fea0315e42, 0x41c73704fde609df, 0x2e7901e65ff96f77, 0x1857275a74703116, s);
  }

  lemma Moves65537(s: State, n: nat)
    requires 65537 * n == PERIOD && Iterate(s, n) == s
    ensures s == ZERO
  {
    hide IsPower, Iterate;
    Products1();
    Products2();
    assert n == 0xffff0000ffff0000ffff0000ffff;
    Repeats(s, n, 1, 0x1000000010000000100000001);
    assert 0x10000000100000001000000010000 == 0x1000000010000000100000001 + 1 * n;
    PowersDiffer(0xb4cee663809e1b12, 0xce3553baa3630cce, 0x10000000100000001000000010000,
      0x3650e32a7b373c5, 0x735fc0a9f6a2fc5d, 0x1000000010000000100000001,
      0x2f294d5d082efc95, 0xcca8b89a953f2fe, 0x99c9e89f1d25997a, 0x76af7e7ab663ab3, s);
  }

  lemma Moves274177(s: State, n: nat)
    requires 274177 * n == PERIOD && Iterate(s, n) == s
    ensures s == ZERO
  {
    hide IsPower, Iterate;
    Products32();
    Products38();
    assert n == 0x3d30f19cd100ffffc2cf0e632eff;
    Repeats(s, n, 17135, 0x4104010020111000000000498200);
    assert 0x10000000004982000000410401002011 == 0x4104010020111000000000498200 + 17135 * n;
    PowersDiffer(0x64f925d33835a4fc, 0xfbfd22b5d0d740f8, 0x10000000004982000000410401002011,
      0xac214c42dda3a9c0, 0xb9fa26a81d8cdfbc, 0x4104010020111000000000498200,
      0xe3deba54460b0d7f, 0x87b3c82e4cf52408, 0x4b017907bb3e9d15, 0x20ec83f4b9e1a804, s);
  }

  lemma Moves6700417(s: State, n: nat)
    requires 6700417 * n == PERIOD && Iterate(s, n) == s
    ensures s == ZERO
  {
    hide IsPower, Iterate;
    Products10();
    Products11();
    assert n == 0x280fffffd7f00000280fffffd7f;
    Repeats(s, n, 1, 0x2810000000000000281);
    assert 0x281000000000000028100000000 == 0x2810000000000000281 + 1 * n;
    PowersDiffer(0xbe790e2f036e1d38, 0x5bc40717420c125f, 0x281000000000000028100000000,
      0xb556e7d30fb64238, 0x8d3a58c5cd209e5, 0x2810000000000000281,
      0xe7de485a6ee0e856, 0x92de85556cb96c31, 0xcb01ae0d177a3201, 0x2c29b471a5d38c84, s);
  }

  lemma Moves67280421310721(s: State, n: nat)
    requires 67280421310721 * n == PERIOD && Iterate(s, n) == s
    ensures s == ZERO
  {
    hide IsPower, Iterate;
    Products24();
    Products28();
    assert n == 0x42f00fffffffffffbd0ff;
    Repeats(s, n, 4188600447811, 0x100000000000001000000000000043);
    assert 0x10000000000000430010000000000000 == 0x100000000000001000000000000043 + 4188600447811 * n;
    PowersDiffer(0xcba471058100d797, 0xbfb9a8a319ffa8ac, 0x10000000000000430010000000000000,
      0xc598eaea80e0fcb1, 0xdf0c4579f9638739, 0x100000000000001000000000000043,
      0x633551eff3405e38, 0x61b0a5f63bfed0b9, 0x5a30490575034b91, 0x1466da1d9723553d, s);
  }
}
