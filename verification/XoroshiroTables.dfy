/**
 The certificate for what is proved about xoroshiro128+: every other power of x, the
 states that follow State(1, 0), the polynomials that lead from it to ten single
 bits, and the powers of x that repeated squaring meets. Nothing rests on how these
 literals were found: the lemmas here check how they hang together.
 */
module XoroshiroTables {
  import opened Xoroshiro
  import opened XoroshiroPolynomials
  import opened XoroshiroRows

  // ----- Every other power of x -----

  function PowersLow0(w: bv64): bv64 {
    Eight(w, 0x1, 0x4, 0x10, 0x40, 0x100, 0x400, 0x1000, 0x4000)
  }

  function PowersHigh0(w: bv64): bv64 {
    Eight(w, 0, 0, 0, 0, 0, 0, 0, 0)
  }

  function PowersLow1(w: bv64): bv64 {
    Eight(w, 0x10000, 0x40000, 0x100000, 0x400000, 0x1000000, 0x4000000, 0x10000000, 0x40000000)
  }

  function PowersHigh1(w: bv64): bv64 {
    Eight(w, 0, 0, 0, 0, 0, 0, 0, 0)
  }

  function PowersLow2(w: bv64): bv64 {
    Eight(w, 0x100000000, 0x400000000, 0x1000000000, 0x4000000000, 0x10000000000,
      0x40000000000, 0x100000000000, 0x400000000000)
  }

  function PowersHigh2(w: bv64): bv64 {
    Eight(w, 0, 0, 0, 0, 0, 0, 0, 0)
  }

  function PowersLow3(w: bv64): bv64 {
    Eight(w, 0x1000000000000, 0x4000000000000, 0x10000000000000, 0x40000000000000, 0x100000000000000,
      0x400000000000000, 0x1000000000000000, 0x4000000000000000)
  }

  function PowersHigh3(w: bv64): bv64 {
    Eight(w, 0, 0, 0, 0, 0, 0, 0, 0)
  }

  function PowersLow4(w: bv64): bv64 {
    Eight(w, 0, 0, 0, 0, 0, 0, 0, 0)
  }

  function PowersHigh4(w: bv64): bv64 {
    Eight(w, 0x1, 0x4, 0x10, 0x40, 0x100, 0x400, 0x1000, 0x4000)
  }

  function PowersLow5(w: bv64): bv64 {
    Eight(w, 0, 0, 0, 0, 0, 0, 0, 0)
  }

  function PowersHigh5(w: bv64): bv64 {
    Eight(w, 0x10000, 0x40000, 0x100000, 0x400000, 0x1000000, 0x4000000, 0x10000000, 0x40000000)
  }

  function PowersLow6(w: bv64): bv64 {
    Eight(w, 0, 0, 0, 0, 0, 0, 0, 0)
  }

  function PowersHigh6(w: bv64): bv64 {
    Eight(w, 0x100000000, 0x400000000, 0x1000000000, 0x4000000000, 0x10000000000,
      0x40000000000, 0x100000000000, 0x400000000000)
  }

  function PowersLow7(w: bv64): bv64 {
    Eight(w, 0, 0, 0, 0, 0, 0, 0, 0)
  }

  function PowersHigh7(w: bv64): bv64 {
    Eight(w, 0x1000000000000, 0x4000000000000, 0x10000000000000, 0x40000000000000, 0x100000000000000,
      0x400000000000000, 0x1000000000000000, 0x4000000000000000)
  }

  function PowersLow8(w: bv64): bv64 {
    Eight(w, 0x5fd66762f0e1c001, 0x7f599d8bc3870004, 0xfd66762f0e1c0010, 0xf599d8bc38700040, 0xd66762f0e1c00100,
      0x64beca177e1c401, 0xa6837c403e449006, 0xc5db966209f38019)
  }

  function PowersHigh8(w: bv64): bv64 {
    Eight(w, 0x653ced7f29f88a, 0x194f3b5fca7e229, 0x653ced7f29f88a5, 0x194f3b5fca7e2297, 0x653ced7f29f88a5f,
      0x94968911d8cbd1f5, 0x52905d9d9d7cb6c0, 0x4a244a9b0adb2388)
  }

  function PowersLow9(w: bv64): bv64 {
    Eight(w, 0x48b83eead72fc065, 0x22e0fbab5cbf0194, 0x342f2068933f8652, 0x6f104f67ad3d994a, 0xbc413d9eb4f66528,
      0x117e5fddc2fbd4a3, 0xa583d6d01acd128f, 0x29a395858af7ca3e)
  }

  function PowersHigh9(w: bv64): bv64 {
    Eight(w, 0x28f41681544576a9, 0xa3d05a055115daa5, 0x8f8b11cfba049b80, 0x3ee63ee416419f14, 0xfb98fb9059067c51,
      0xeeccab76e563f8d8, 0xbb9de8ec14f5eafe, 0xeebdda6aad845aee)
  }

  function PowersLow10(w: bv64): bv64 {
    Eight(w, 0x46f4ffb13afd68fb, 0xa47f30010a3623ee, 0x718669a339facfbb, 0x79b568490628beee, 0x59796fe1f9617bba,
      0x3a33d8e515642ee9, 0x5763ad51b4533ba6, 0x5d8eb546d14cee98)
  }

  function PowersHigh10(w: bv64): bv64 {
    Eight(w, 0xba582c9d376b6226, 0xe9aacbae23fe798d, 0xa6046b8f0e83efa8, 0x98dbd7e6c45c4fb5, 0x63a52641ef22cfc1,
      0x8ef1a5eac3a2c78f, 0x3b0cee71f0d8ef28, 0xec33b9c7c363bca1)
  }

  function PowersLow11(w: bv64): bv64 {
    Eight(w, 0x96407cbc5411fa63, 0xe6ad3c34b184698e, 0x7ace5975d733e63b, 0xeb3965d75ccf98ec, 0xace5975d733e63b0,
      0xec403a173c184ec1, 0xeed68f3e0080fb05, 0x4f6f23de3c06c16)
  }

  function PowersHigh11(w: bv64): bv64 {
    Eight(w, 0xb061a2288cf4fb1b, 0xc14cf178cd801d7a, 0x59c80d4b77a7c75, 0x16720352dde9f1d5, 0x59c80d4b77a7c757,
      0x674509c0a1b6e5d4, 0x9d711beff9f26fd9, 0x750e1665199a4e73)
  }

  function PowersLow12(w: bv64): bv64 {
    Eight(w, 0x4c0daf957fe07059, 0xd04c17f2eea38167, 0x1ee638a94a6fc59d, 0x244e85c7d95ed675, 0x913a171f657b59d4,
      0x1b3e3b1f650ca751, 0x8c8245da8510dd47, 0x3209176a1443751c)
  }

  function PowersHigh12(w: bv64): bv64 {
    Eight(w, 0xd45d65791940c146, 0x51dad0d3e4790c87, 0x470e7fa2eecdca95, 0x1c5cc266c41ed2de, 0x7173099b107b4b78,
      0xc5a91a813ec4d568, 0x160b2f337a695c3e, 0x582cbccde9a570fa)
  }

  function PowersLow13(w: bv64): bv64 {
    Eight(w, 0x97f23acaa1ec1471, 0x1e8c48775191c5, 0xbfd6ffe43c85c716, 0xff5bff90f2171c58, 0xfd6ffe43c85c7160,
      0x15c550a830538583, 0x571542a0c14e160c, 0x5c550a8305385830)
  }

  function PowersHigh13(w: bv64): bv64 {
    Eight(w, 0x60d7cfdad9bc3b62, 0x833a038619d91500, 0xc2277c29937a514, 0x3089df0a64de9452, 0xc2277c29937a514b,
      0x832b591cc934cb1, 0x20cad647324d32c4, 0x832b591cc934cb11)
  }

  function PowersLow14(w: bv64): bv64 {
    Eight(w, 0xcef8e4c9f522e0c2, 0x3be39327d48b8308, 0xef8e4c9f522e0c20, 0x5e439bda599a7083, 0x790e6f696669c20c,
      0xbbefdac76946c831, 0x5013a5d844d8a0c6, 0x1f98f003e3834319)
  }

  function PowersHigh14(w: bv64): bv64 {
    Eight(w, 0xc671da9da80dd51, 0x319c76a76a037547, 0xc671da9da80dd51c, 0x19682f41214d5ded, 0x65a0bd04853577b5,
      0x96e7c8ff6bfc265f, 0x5b555a2751a3686a, 0x6d30547039a45923)
  }

  function PowersLow15(w: bv64): bv64 {
    Eight(w, 0x21b5a76d7eeccc65, 0x397a53701a70b196, 0x593e46778e0865b, 0x4999f6ff1363d96d, 0x2667dbfc4d8f65b4,
      0x2633a134d7fe16d2, 0xc718e3b1af199b49, 0xfc192761ad442d27)
  }

  function PowersHigh15(w: bv64): bv64 {
    Eight(w, 0xb4a46d2d99b89c06, 0xd25bcd6c98b1810c, 0x49c07085e3bc0dae, 0x2764fefaf1d9ce32, 0x9d93fbebc76738c9,
      0x76859675e3cf1230, 0xda73653af015b04a, 0x6962d1dc412cc8b5)
  }

  function Powers0(w: bv64): Poly { Poly(PowersLow0(w), PowersHigh0(w)) }
  function Powers1(w: bv64): Poly { Poly(PowersLow1(w), PowersHigh1(w)) }
  function Powers2(w: bv64): Poly { Poly(PowersLow2(w), PowersHigh2(w)) }
  function Powers3(w: bv64): Poly { Poly(PowersLow3(w), PowersHigh3(w)) }
  function Powers4(w: bv64): Poly { Poly(PowersLow4(w), PowersHigh4(w)) }
  function Powers5(w: bv64): Poly { Poly(PowersLow5(w), PowersHigh5(w)) }
  function Powers6(w: bv64): Poly { Poly(PowersLow6(w), PowersHigh6(w)) }
  function Powers7(w: bv64): Poly { Poly(PowersLow7(w), PowersHigh7(w)) }
  function Powers8(w: bv64): Poly { Poly(PowersLow8(w), PowersHigh8(w)) }
  function Powers9(w: bv64): Poly { Poly(PowersLow9(w), PowersHigh9(w)) }
  function Powers10(w: bv64): Poly { Poly(PowersLow10(w), PowersHigh10(w)) }
  function Powers11(w: bv64): Poly { Poly(PowersLow11(w), PowersHigh11(w)) }
  function Powers12(w: bv64): Poly { Poly(PowersLow12(w), PowersHigh12(w)) }
  function Powers13(w: bv64): Poly { Poly(PowersLow13(w), PowersHigh13(w)) }
  function Powers14(w: bv64): Poly { Poly(PowersLow14(w), PowersHigh14(w)) }
  function Powers15(w: bv64): Poly { Poly(PowersLow15(w), PowersHigh15(w)) }

  function Powers0To3(k: nat, w: bv64): Poly {
    if k == 0 then Powers0(w) else if k == 1 then Powers1(w) else if k == 2 then Powers2(w) else Powers3(w)
  }

  function Powers4To7(k: nat, w: bv64): Poly {
    if k == 4 then Powers4(w) else if k == 5 then Powers5(w) else if k == 6 then Powers6(w) else Powers7(w)
  }

  function Powers8To11(k: nat, w: bv64): Poly {
    if k == 8 then Powers8(w) else if k == 9 then Powers9(w) else if k == 10 then Powers10(w) else Powers11(w)
  }

  function Powers12To15(k: nat, w: bv64): Poly {
    if k == 12 then Powers12(w) else if k == 13 then Powers13(w) else if k == 14 then Powers14(w) else Powers15(w)
  }

  /** Row k of the powers: bit j of w selects the power 16 * k + 2 * j. */
  function PowersRow(k: nat, w: bv64): Poly {
    if k < 4 then Powers0To3(k, w) else if k < 8 then Powers4To7(k, w)
    else if k < 12 then Powers8To11(k, w) else Powers12To15(k, w)
  }

  /** Two more factors x. */
  predicate Follows(p: Poly, q: Poly) {
    TimesX(TimesX(p)) == q
  }

  lemma PowersFollow0()
    ensures Follows(Powers0(0x1), Powers0(0x2)) && Follows(Powers0(0x2), Powers0(0x4))
    ensures Follows(Powers0(0x4), Powers0(0x8)) && Follows(Powers0(0x8), Powers0(0x10))
    ensures Follows(Powers0(0x10), Powers0(0x20)) && Follows(Powers0(0x20), Powers0(0x40))
    ensures Follows(Powers0(0x40), Powers0(0x80)) && Follows(Powers0(0x80), Powers1(0x1))
  {
  }

  lemma PowersFollow1()
    ensures Follows(Powers1(0x1), Powers1(0x2)) && Follows(Powers1(0x2), Powers1(0x4))
    ensures Follows(Powers1(0x4), Powers1(0x8)) && Follows(Powers1(0x8), Powers1(0x10))
    ensures Follows(Powers1(0x10), Powers1(0x20)) && Follows(Powers1(0x20), Powers1(0x40))
    ensures Follows(Powers1(0x40), Powers1(0x80)) && Follows(Powers1(0x80), Powers2(0x1))
  {
  }

  lemma PowersFollow2()
    ensures Follows(Powers2(0x1), Powers2(0x2)) && Follows(Powers2(0x2), Powers2(0x4))
    ensures Follows(Powers2(0x4), Powers2(0x8)) && Follows(Powers2(0x8), Powers2(0x10))
    ensures Follows(Powers2(0x10), Powers2(0x20)) && Follows(Powers2(0x20), Powers2(0x40))
    ensures Follows(Powers2(0x40), Powers2(0x80)) && Follows(Powers2(0x80), Powers3(0x1))
  {
  }

  lemma PowersFollow3()
    ensures Follows(Powers3(0x1), Powers3(0x2)) && Follows(Powers3(0x2), Powers3(0x4))
    ensures Follows(Powers3(0x4), Powers3(0x8)) && Follows(Powers3(0x8), Powers3(0x10))
    ensures Follows(Powers3(0x10), Powers3(0x20)) && Follows(Powers3(0x20), Powers3(0x40))
    ensures Follows(Powers3(0x40), Powers3(0x80)) && Follows(Powers3(0x80), Powers4(0x1))
  {
  }

  lemma PowersFollow4()
    ensures Follows(Powers4(0x1), Powers4(0x2)) && Follows(Powers4(0x2), Powers4(0x4))
    ensures Follows(Powers4(0x4), Powers4(0x8)) && Follows(Powers4(0x8), Powers4(0x10))
    ensures Follows(Powers4(0x10), Powers4(0x20)) && Follows(Powers4(0x20), Powers4(0x40))
    ensures Follows(Powers4(0x40), Powers4(0x80)) && Follows(Powers4(0x80), Powers5(0x1))
  {
  }

  lemma PowersFollow5()
    ensures Follows(Powers5(0x1), Powers5(0x2)) && Follows(Powers5(0x2), Powers5(0x4))
    ensures Follows(Powers5(0x4), Powers5(0x8)) && Follows(Powers5(0x8), Powers5(0x10))
    ensures Follows(Powers5(0x10), Powers5(0x20)) && Follows(Powers5(0x20), Powers5(0x40))
    ensures Follows(Powers5(0x40), Powers5(0x80)) && Follows(Powers5(0x80), Powers6(0x1))
  {
  }

  lemma PowersFollow6()
    ensures Follows(Powers6(0x1), Powers6(0x2)) && Follows(Powers6(0x2), Powers6(0x4))
    ensures Follows(Powers6(0x4), Powers6(0x8)) && Follows(Powers6(0x8), Powers6(0x10))
    ensures Follows(Powers6(0x10), Powers6(0x20)) && Follows(Powers6(0x20), Powers6(0x40))
    ensures Follows(Powers6(0x40), Powers6(0x80)) && Follows(Powers6(0x80), Powers7(0x1))
  {
  }

  lemma PowersFollow7()
    ensures Follows(Powers7(0x1), Powers7(0x2)) && Follows(Powers7(0x2), Powers7(0x4))
    ensures Follows(Powers7(0x4), Powers7(0x8)) && Follows(Powers7(0x8), Powers7(0x10))
    ensures Follows(Powers7(0x10), Powers7(0x20)) && Follows(Powers7(0x20), Powers7(0x40))
    ensures Follows(Powers7(0x40), Powers7(0x80)) && Follows(Powers7(0x80), Powers8(0x1))
  {
  }

  lemma PowersFollow8()
    ensures Follows(Powers8(0x1), Powers8(0x2)) && Follows(Powers8(0x2), Powers8(0x4))
    ensures Follows(Powers8(0x4), Powers8(0x8)) && Follows(Powers8(0x8), Powers8(0x10))
    ensures Follows(Powers8(0x10), Powers8(0x20)) && Follows(Powers8(0x20), Powers8(0x40))
    ensures Follows(Powers8(0x40), Powers8(0x80)) && Follows(Powers8(0x80), Powers9(0x1))
  {
  }

  lemma PowersFollow9()
    ensures Follows(Powers9(0x1), Powers9(0x2)) && Follows(Powers9(0x2), Powers9(0x4))
    ensures Follows(Powers9(0x4), Powers9(0x8)) && Follows(Powers9(0x8), Powers9(0x10))
    ensures Follows(Powers9(0x10), Powers9(0x20)) && Follows(Powers9(0x20), Powers9(0x40))
    ensures Follows(Powers9(0x40), Powers9(0x80)) && Follows(Powers9(0x80), Powers10(0x1))
  {
  }

  lemma PowersFollow10()
    ensures Follows(Powers10(0x1), Powers10(0x2)) && Follows(Powers10(0x2), Powers10(0x4))
    ensures Follows(Powers10(0x4), Powers10(0x8)) && Follows(Powers10(0x8), Powers10(0x10))
    ensures Follows(Powers10(0x10), Powers10(0x20)) && Follows(Powers10(0x20), Powers10(0x40))
    ensures Follows(Powers10(0x40), Powers10(0x80)) && Follows(Powers10(0x80), Powers11(0x1))
  {
  }

  lemma PowersFollow11()
    ensures Follows(Powers11(0x1), Powers11(0x2)) && Follows(Powers11(0x2), Powers11(0x4))
    ensures Follows(Powers11(0x4), Powers11(0x8)) && Follows(Powers11(0x8), Powers11(0x10))
    ensures Follows(Powers11(0x10), Powers11(0x20)) && Follows(Powers11(0x20), Powers11(0x40))
    ensures Follows(Powers11(0x40), Powers11(0x80)) && Follows(Powers11(0x80), Powers12(0x1))
  {
  }

  lemma PowersFollow12()
    ensures Follows(Powers12(0x1), Powers12(0x2)) && Follows(Powers12(0x2), Powers12(0x4))
    ensures Follows(Powers12(0x4), Powers12(0x8)) && Follows(Powers12(0x8), Powers12(0x10))
    ensures Follows(Powers12(0x10), Powers12(0x20)) && Follows(Powers12(0x20), Powers12(0x40))
    ensures Follows(Powers12(0x40), Powers12(0x80)) && Follows(Powers12(0x80), Powers13(0x1))
  {
  }

  lemma PowersFollow13()
    ensures Follows(Powers13(0x1), Powers13(0x2)) && Follows(Powers13(0x2), Powers13(0x4))
    ensures Follows(Powers13(0x4), Powers13(0x8)) && Follows(Powers13(0x8), Powers13(0x10))
    ensures Follows(Powers13(0x10), Powers13(0x20)) && Follows(Powers13(0x20), Powers13(0x40))
    ensures Follows(Powers13(0x40), Powers13(0x80)) && Follows(Powers13(0x80), Powers14(0x1))
  {
  }

  lemma PowersFollow14()
    ensures Follows(Powers14(0x1), Powers14(0x2)) && Follows(Powers14(0x2), Powers14(0x4))
    ensures Follows(Powers14(0x4), Powers14(0x8)) && Follows(Powers14(0x8), Powers14(0x10))
    ensures Follows(Powers14(0x10), Powers14(0x20)) && Follows(Powers14(0x20), Powers14(0x40))
    ensures Follows(Powers14(0x40), Powers14(0x80)) && Follows(Powers14(0x80), Powers15(0x1))
  {
  }

  lemma PowersFollow15()
    ensures Follows(Powers15(0x1), Powers15(0x2)) && Follows(Powers15(0x2), Powers15(0x4))
    ensures Follows(Powers15(0x4), Powers15(0x8)) && Follows(Powers15(0x8), Powers15(0x10))
    ensures Follows(Powers15(0x10), Powers15(0x20)) && Follows(Powers15(0x20), Powers15(0x40))
    ensures Follows(Powers15(0x40), Powers15(0x80))
  {
  }

  // ----- The states after State(1, 0) -----

  function StatesLow0(w: bv64): bv64 {
    Eight(w, 0x1, 0x80000000004001, 0x4401010000021, 0x80442010404121, 0x58c120310046100,
      0x81c8000259094031, 0x111c55701485c420, 0x4edcd11b404c87e6)
  }

  function StatesHigh0(w: bv64): bv64 {
    Eight(w, 0, 0x1000000000, 0x4001008000100, 0x8000121000040001, 0x444120808056301,
      0x801020101c8000b1, 0x589408001d820124, 0x907c50449885d700)
  }

  function StatesLow1(w: bv64): bv64 {
    Eight(w, 0xdd019050150f6a5, 0x9619c5b2510e4b23, 0x4e526d8f531cfa88, 0x3251c4f353817751, 0xa97bc4b61092023c,
      0xd5bc84b0d53ba813, 0x1e44bdf0d9d67932, 0xb3fb2c9ac5100b33)
  }

  function StatesHigh1(w: bv64): bv64 {
    Eight(w, 0x8c950e6dea0815fd, 0xb58e35881451768e, 0x55f3dad2397f03a4, 0xa63f92c1ba1b75d6, 0x99a0287946e5632e,
      0x677611230dbeccf5, 0x88564e6b2ca9593d, 0x57f200f9612f39bf)
  }

  function StatesLow2(w: bv64): bv64 {
    Eight(w, 0x36c838fa25feba89, 0xf5ad6d73075243ee, 0xfd8165ca3d4ae989, 0x2c9bad0acd8d28b8, 0x12f541a184931a2c,
      0x4bcbdbe17cea8fbe, 0xa09bff23f3915873, 0x5473db5fcf95ddb7)
  }

  function StatesHigh2(w: bv64): bv64 {
    Eight(w, 0x43f328ce4092c63a, 0x56c7cb3753b10346, 0x4e340a8a36aa6445, 0xbe08dccb3b56f400, 0x6dbdcb8929371c1f,
      0xda406337f488a28a, 0x8622d34918bb8d68, 0xb2ad51b26b92c6ae)
  }

  function StatesLow3(w: bv64): bv64 {
    Eight(w, 0x9fcfda01cd2691f7, 0xbe9664412fe3ec65, 0xe50de8afa1f56469, 0xbdff160bd215f716, 0xaf71522d3ae068a5,
      0x59b8dd2e74ae9c89, 0x9620dcbf240f7c3, 0x3c3d6949f6a43889)
  }

  function StatesHigh3(w: bv64): bv64 {
    Eight(w, 0x4071b19e6de8aeda, 0xce3f2ddfbe6b9fa, 0x405559fb275969cd, 0x6ac0da4a558b1548, 0x79ee25ed73fcc418,
      0x91cacbdd69f77c04, 0xd59e08dc87216f31, 0x56198f2dcfc05177)
  }

  function StatesLow4(w: bv64): bv64 {
    Eight(w, 0x1723f68987e0bbe2, 0x2a3531ffd6056dfc, 0xb434016bc17b79b8, 0x813298b108e47a78, 0xcb10fba198761089,
      0xbe3a073eb99e6420, 0xba8e7d4512326545, 0x51e9877d84fc27d2)
  }

  function StatesHigh4(w: bv64): bv64 {
    Eight(w, 0x96469fe6a24e6643, 0x5aedda18165696f2, 0x53fb0e70d8ebe7c, 0xcf5c7c4b10bb18cc, 0x85f62b44e6ee4fa1,
      0xe985f284ee6d0e57, 0x7f36a7757bff5ba5, 0x9cd3ee0c5b8da306)
  }

  function StatesLow5(w: bv64): bv64 {
    Eight(w, 0xbe4eea6e0086fac7, 0x8341349fff56aea7, 0x18c8932e12e1f7dd, 0x3687e6b488cd490, 0xacabb2d9964d2aaa,
      0x2bdce4edfa8cc130, 0xee8c8a9b5496aaa3, 0xbb60911cda024a08)
  }

  function StatesHigh5(w: bv64): bv64 {
    Eight(w, 0xf7184d4cd3a6971d, 0x3206dda4956a722d, 0xa3cdc8ab147e93b6, 0x69f646bbb055b850, 0x8d96cc06a9e38d0f,
      0xfaea7a5213d7edf3, 0x95b2cc3d1369ebfe, 0x7ff415d7b3e46a64)
  }

  function StatesLow6(w: bv64): bv64 {
    Eight(w, 0xe1fbeefa6f902149, 0xa1649c77409065ef, 0xabd2df8d3b0deebf, 0x493d237446195043, 0x28092bd2c6a629f4,
      0x50bba5ae3f63399f, 0x167f0bbe8ce16934, 0xf17477ce949f4816)
  }

  function StatesHigh6(w: bv64): bv64 {
    Eight(w, 0x9e6206cc49484cb6, 0x6d86dff7f99e8362, 0x90ee68dcce24380b, 0x529d6b43b3cb751f, 0x5d2255c1ba04837f,
      0xca2aa8b752b7e137, 0xdd4d8a89a910d196, 0x5f1b8a2cb3281372)
  }

  function StatesLow7(w: bv64): bv64 {
    Eight(w, 0x5a6fce34162414c0, 0xdf28f3af186858e8, 0xb1988b8729822b2b, 0xe643378e3fadf2ee, 0x9f4013d9bdb61bb7,
      0xeae6a0a354b60374, 0x7e3682dd97516b04, 0x330dca24e764f084)
  }

  function StatesHigh7(w: bv64): bv64 {
    Eight(w, 0x7b75b64ae6ffde22, 0xdbcae2211a787ef, 0x9cfdf07d2945d8d0, 0xc7f3fb2d657bfa0, 0x9fa4d4eea3c083ce,
      0xe76987900e4c7371, 0xafa70050d8f27335, 0xfa31831d191828d4)
  }

  function StatesLow8(w: bv64): bv64 {
    Eight(w, 0x996bb043da1b6a28, 0xe7b952e0965f3402, 0xc950ca31144acf6c, 0xda7c13a3d2ab37c, 0x19e6d67bb0ddb34e,
      0xd746975d9fd6153e, 0xcd1c9bb4b0f00e80, 0x486901904e7be403)
  }

  function StatesHigh8(w: bv64): bv64 {
    Eight(w, 0xe7cd850c93c4939f, 0x9dff9b77ea6354f4, 0xc3c60f67a46c9977, 0x26561b0a96c556b, 0x446e6170fc2a08a9,
      0xcf7bbe75d88b70b4, 0x75d658a183d29284, 0x3229c04b8cac3153)
  }

  function StatesLow9(w: bv64): bv64 {
    Eight(w, 0x4b9205eeffa4e8a2, 0xe3f0cf019190a76a, 0xbb7995915d2a1ac, 0x6a43fdeafd556683, 0xc97769ca95e966f8,
      0x661c906ca5391f19, 0xc989c95b732f5477, 0xd7e460d058276fe6)
  }

  function StatesHigh9(w: bv64): bv64 {
    Eight(w, 0x2d7d5507a40c1dbc, 0xba8f51e66ef50e95, 0xf65a9ff597f9ee7f, 0x22b4fd3fded06ac8, 0x3850c4b48f700d52,
      0xa996baaf127ad7e1, 0x743c8f8cf8a2ac3b, 0xb8df84cbdb546d78)
  }

  function StatesLow10(w: bv64): bv64 {
    Eight(w, 0x6556f6f72bf89129, 0x7110027b17f76cd9, 0xdb1e0f09ab606672, 0xf0be36d4c4120a2, 0x2f9d364fd4a9745d,
      0x6c6f513947ff47f1, 0x41c772aa2529116b, 0xb0637492a3751d2b)
  }

  function StatesHigh10(w: bv64): bv64 {
    Eight(w, 0x373029e6f3be41b8, 0x846d0915266df11d, 0x19a9dc4f57d0b6e3, 0xcb0d091c2b7d346f, 0x73c14cdc406ea716,
      0x4c7d34b5c5c7a939, 0x238eec82012658c8, 0x40f49a362499e282)
  }

  function StatesLow11(w: bv64): bv64 {
    Eight(w, 0x9ee6fee5f1570527, 0x32f8c90ff10a84ed, 0x49033f73c4b2c600, 0xb25dba733574a07c, 0x2bf60ab80362afa0,
      0xd6ced354ae7966b4, 0x1ffeaf433031c118, 0x9e4cfd9cb8b34f61)
  }

  function StatesHigh11(w: bv64): bv64 {
    Eight(w, 0x7ecffa9f097eea48, 0x829ef6fe029047af, 0x39ac342b0663ff1f, 0x2d1391f70af0b58c, 0xf8415f09f4e2b843,
      0x78017e3d3b755b1f, 0x50c3dabaecfad699, 0xccb17814f3d75f9d)
  }

  function StatesLow12(w: bv64): bv64 {
    Eight(w, 0x8350b12f8107495b, 0xf76abd05fd68527b, 0xcf5dbeb4c1b948f8, 0xe8e8877ae3871b36, 0xcc3e1361d0c9e2ed,
      0xe583cd2f6c3ca3ba, 0x6f4eb8fe5392b9e, 0xdbe7e3c9d04eae6f)
  }

  function StatesHigh12(w: bv64): bv64 {
    Eight(w, 0xb6410fc52fd85884, 0xedf11df3511beeaa, 0xc73bcd11a9ba0f6a, 0x8034792086673a56, 0x5e0216068dcfe5a6,
      0xd06074b923c05675, 0xffcf5cf35e3b9964, 0xb02b2faf93bb77cb)
  }

  function StatesLow13(w: bv64): bv64 {
    Eight(w, 0x6f38af6ad174fef3, 0x6499b215d6f542e8, 0x45f043905e46ea8f, 0x586d52a330eafff7, 0x7b355e512275dd32,
      0x8b44905b743ecfa0, 0xb5eb289dcdfc7873, 0x42728d30c7eecd1c)
  }

  function StatesHigh13(w: bv64): bv64 {
    Eight(w, 0x3f5d9a46bcccc664, 0xdb838975065352c6, 0xa6102ebf1a3b60d, 0xfe55c824f91417ba, 0x9fee84da6389a87c,
      0x1fc754ee4dbda8b4, 0x98367149483c4b53, 0x5c033202ddd59d48)
  }

  function StatesLow14(w: bv64): bv64 {
    Eight(w, 0xff9c00fa564da732, 0x843827ee5979b2c0, 0xa8a99c32169b95a2, 0x5819f96644075d1, 0x5e551f24ff5aad5b,
      0xf2bb1916ab0e227d, 0x9d1fa98c5987f612, 0x531444335c40cfae)
  }

  function StatesHigh14(w: bv64): bv64 {
    Eight(w, 0xa3b50541e71bf321, 0x15654135c2905bbb, 0xbe9e97b915d66db9, 0x34df81b16370b8b0, 0x730cd61315e1e270,
      0xabb4f2b2d59c937e, 0xe92b103590feba47, 0x9794c557434b9b9c)
  }

  function StatesLow15(w: bv64): bv64 {
    Eight(w, 0x33f00c84d3a9f455, 0xba369146a14d36ee, 0x5b770e044550aafc, 0x86db6205af6c4200, 0x8af7ea9032567365,
      0xca8924384dde6d0c, 0x59944f6a4e7e6fc2, 0x8ee8213f9fb966e6)
  }

  function StatesHigh15(w: bv64): bv64 {
    Eight(w, 0xf0b5432c48081641, 0xba1e214c3454fa89, 0x519cc670028b00a9, 0x7dbaa550aebc8744, 0x1d0c544fb61c7550,
      0x44a063597fbbedf8, 0x26580f48e2947613, 0xcea19d17fcc4022a)
  }

  function States0(w: bv64): Poly { Poly(StatesLow0(w), StatesHigh0(w)) }
  function States1(w: bv64): Poly { Poly(StatesLow1(w), StatesHigh1(w)) }
  function States2(w: bv64): Poly { Poly(StatesLow2(w), StatesHigh2(w)) }
  function States3(w: bv64): Poly { Poly(StatesLow3(w), StatesHigh3(w)) }
  function States4(w: bv64): Poly { Poly(StatesLow4(w), StatesHigh4(w)) }
  function States5(w: bv64): Poly { Poly(StatesLow5(w), StatesHigh5(w)) }
  function States6(w: bv64): Poly { Poly(StatesLow6(w), StatesHigh6(w)) }
  function States7(w: bv64): Poly { Poly(StatesLow7(w), StatesHigh7(w)) }
  function States8(w: bv64): Poly { Poly(StatesLow8(w), StatesHigh8(w)) }
  function States9(w: bv64): Poly { Poly(StatesLow9(w), StatesHigh9(w)) }
  function States10(w: bv64): Poly { Poly(StatesLow10(w), StatesHigh10(w)) }
  function States11(w: bv64): Poly { Poly(StatesLow11(w), StatesHigh11(w)) }
  function States12(w: bv64): Poly { Poly(StatesLow12(w), StatesHigh12(w)) }
  function States13(w: bv64): Poly { Poly(StatesLow13(w), StatesHigh13(w)) }
  function States14(w: bv64): Poly { Poly(StatesLow14(w), StatesHigh14(w)) }
  function States15(w: bv64): Poly { Poly(StatesLow15(w), StatesHigh15(w)) }

  function States0To3(k: nat, w: bv64): Poly {
    if k == 0 then States0(w) else if k == 1 then States1(w) else if k == 2 then States2(w) else States3(w)
  }

  function States4To7(k: nat, w: bv64): Poly {
    if k == 4 then States4(w) else if k == 5 then States5(w) else if k == 6 then States6(w) else States7(w)
  }

  function States8To11(k: nat, w: bv64): Poly {
    if k == 8 then States8(w) else if k == 9 then States9(w) else if k == 10 then States10(w) else States11(w)
  }

  function States12To15(k: nat, w: bv64): Poly {
    if k == 12 then States12(w) else if k == 13 then States13(w) else if k == 14 then States14(w) else States15(w)
  }

  /** Row k of the states: bit j of w selects the one after 8 * k + j steps. */
  function StatesRow(k: nat, w: bv64): Poly {
    if k < 4 then States0To3(k, w) else if k < 8 then States4To7(k, w)
    else if k < 12 then States8To11(k, w) else States12To15(k, w)
  }

  /** One more step. */
  predicate Steps(p: Poly, q: Poly) {
    Next(AsState(p)) == AsState(q)
  }

  lemma StatesFollow0()
    ensures Steps(States0(0x1), States0(0x2)) && Steps(States0(0x2), States0(0x4))
    ensures Steps(States0(0x4), States0(0x8)) && Steps(States0(0x8), States0(0x10))
    ensures Steps(States0(0x10), States0(0x20)) && Steps(States0(0x20), States0(0x40))
    ensures Steps(States0(0x40), States0(0x80)) && Steps(States0(0x80), States1(0x1))
  {
  }

  lemma StatesFollow1()
    ensures Steps(States1(0x1), States1(0x2)) && Steps(States1(0x2), States1(0x4))
    ensures Steps(States1(0x4), States1(0x8)) && Steps(States1(0x8), States1(0x10))
    ensures Steps(States1(0x10), States1(0x20)) && Steps(States1(0x20), States1(0x40))
    ensures Steps(States1(0x40), States1(0x80)) && Steps(States1(0x80), States2(0x1))
  {
  }

  lemma StatesFollow2()
    ensures Steps(States2(0x1), States2(0x2)) && Steps(States2(0x2), States2(0x4))
    ensures Steps(States2(0x4), States2(0x8)) && Steps(States2(0x8), States2(0x10))
    ensures Steps(States2(0x10), States2(0x20)) && Steps(States2(0x20), States2(0x40))
    ensures Steps(States2(0x40), States2(0x80)) && Steps(States2(0x80), States3(0x1))
  {
  }

  lemma StatesFollow3()
    ensures Steps(States3(0x1), States3(0x2)) && Steps(States3(0x2), States3(0x4))
    ensures Steps(States3(0x4), States3(0x8)) && Steps(States3(0x8), States3(0x10))
    ensures Steps(States3(0x10), States3(0x20)) && Steps(States3(0x20), States3(0x40))
    ensures Steps(States3(0x40), States3(0x80)) && Steps(States3(0x80), States4(0x1))
  {
  }

  lemma StatesFollow4()
    ensures Steps(States4(0x1), States4(0x2)) && Steps(States4(0x2), States4(0x4))
    ensures Steps(States4(0x4), States4(0x8)) && Steps(States4(0x8), States4(0x10))
    ensures Steps(States4(0x10), States4(0x20)) && Steps(States4(0x20), States4(0x40))
    ensures Steps(States4(0x40), States4(0x80)) && Steps(States4(0x80), States5(0x1))
  {
  }

  lemma StatesFollow5()
    ensures Steps(States5(0x1), States5(0x2)) && Steps(States5(0x2), States5(0x4))
    ensures Steps(States5(0x4), States5(0x8)) && Steps(States5(0x8), States5(0x10))
    ensures Steps(States5(0x10), States5(0x20)) && Steps(States5(0x20), States5(0x40))
    ensures Steps(States5(0x40), States5(0x80)) && Steps(States5(0x80), States6(0x1))
  {
  }

  lemma StatesFollow6()
    ensures Steps(States6(0x1), States6(0x2)) && Steps(States6(0x2), States6(0x4))
    ensures Steps(States6(0x4), States6(0x8)) && Steps(States6(0x8), States6(0x10))
    ensures Steps(States6(0x10), States6(0x20)) && Steps(States6(0x20), States6(0x40))
    ensures Steps(States6(0x40), States6(0x80)) && Steps(States6(0x80), States7(0x1))
  {
  }

  lemma StatesFollow7()
    ensures Steps(States7(0x1), States7(0x2)) && Steps(States7(0x2), States7(0x4))
    ensures Steps(States7(0x4), States7(0x8)) && Steps(States7(0x8), States7(0x10))
    ensures Steps(States7(0x10), States7(0x20)) && Steps(States7(0x20), States7(0x40))
    ensures Steps(States7(0x40), States7(0x80)) && Steps(States7(0x80), States8(0x1))
  {
  }

  lemma StatesFollow8()
    ensures Steps(States8(0x1), States8(0x2)) && Steps(States8(0x2), States8(0x4))
    ensures Steps(States8(0x4), States8(0x8)) && Steps(States8(0x8), States8(0x10))
    ensures Steps(States8(0x10), States8(0x20)) && Steps(States8(0x20), States8(0x40))
    ensures Steps(States8(0x40), States8(0x80)) && Steps(States8(0x80), States9(0x1))
  {
  }

  lemma StatesFollow9()
    ensures Steps(States9(0x1), States9(0x2)) && Steps(States9(0x2), States9(0x4))
    ensures Steps(States9(0x4), States9(0x8)) && Steps(States9(0x8), States9(0x10))
    ensures Steps(States9(0x10), States9(0x20)) && Steps(States9(0x20), States9(0x40))
    ensures Steps(States9(0x40), States9(0x80)) && Steps(States9(0x80), States10(0x1))
  {
  }

  lemma StatesFollow10()
    ensures Steps(States10(0x1), States10(0x2)) && Steps(States10(0x2), States10(0x4))
    ensures Steps(States10(0x4), States10(0x8)) && Steps(States10(0x8), States10(0x10))
    ensures Steps(States10(0x10), States10(0x20)) && Steps(States10(0x20), States10(0x40))
    ensures Steps(States10(0x40), States10(0x80)) && Steps(States10(0x80), States11(0x1))
  {
  }

  lemma StatesFollow11()
    ensures Steps(States11(0x1), States11(0x2)) && Steps(States11(0x2), States11(0x4))
    ensures Steps(States11(0x4), States11(0x8)) && Steps(States11(0x8), States11(0x10))
    ensures Steps(States11(0x10), States11(0x20)) && Steps(States11(0x20), States11(0x40))
    ensures Steps(States11(0x40), States11(0x80)) && Steps(States11(0x80), States12(0x1))
  {
  }

  lemma StatesFollow12()
    ensures Steps(States12(0x1), States12(0x2)) && Steps(States12(0x2), States12(0x4))
    ensures Steps(States12(0x4), States12(0x8)) && Steps(States12(0x8), States12(0x10))
    ensures Steps(States12(0x10), States12(0x20)) && Steps(States12(0x20), States12(0x40))
    ensures Steps(States12(0x40), States12(0x80)) && Steps(States12(0x80), States13(0x1))
  {
  }

  lemma StatesFollow13()
    ensures Steps(States13(0x1), States13(0x2)) && Steps(States13(0x2), States13(0x4))
    ensures Steps(States13(0x4), States13(0x8)) && Steps(States13(0x8), States13(0x10))
    ensures Steps(States13(0x10), States13(0x20)) && Steps(States13(0x20), States13(0x40))
    ensures Steps(States13(0x40), States13(0x80)) && Steps(States13(0x80), States14(0x1))
  {
  }

  lemma StatesFollow14()
    ensures Steps(States14(0x1), States14(0x2)) && Steps(States14(0x2), States14(0x4))
    ensures Steps(States14(0x4), States14(0x8)) && Steps(States14(0x8), States14(0x10))
    ensures Steps(States14(0x10), States14(0x20)) && Steps(States14(0x20), States14(0x40))
    ensures Steps(States14(0x40), States14(0x80)) && Steps(States14(0x80), States15(0x1))
  {
  }

  lemma StatesFollow15()
    ensures Steps(States15(0x1), States15(0x2)) && Steps(States15(0x2), States15(0x4))
    ensures Steps(States15(0x4), States15(0x8)) && Steps(States15(0x8), States15(0x10))
    ensures Steps(States15(0x10), States15(0x20)) && Steps(States15(0x20), States15(0x40))
    ensures Steps(States15(0x40), States15(0x80))
  {
  }

  // ----- Polynomials that lead from State(1, 0) to single bits -----

  /** The sum of the states that the lower coefficients w select. */
  function CombinedLow(w: bv64): Poly {
    Poly(
      Sum8(StatesLow0(w), StatesLow1(w >> 8), StatesLow2(w >> 16), StatesLow3(w >> 24),
      StatesLow4(w >> 32), StatesLow5(w >> 40), StatesLow6(w >> 48), StatesLow7(w >> 56)),
      Sum8(StatesHigh0(w), StatesHigh1(w >> 8), StatesHigh2(w >> 16), StatesHigh3(w >> 24),
      StatesHigh4(w >> 32), StatesHigh5(w >> 40), StatesHigh6(w >> 48), StatesHigh7(w >> 56)))
  }

  /** The sum of the states that the upper coefficients w select. */
  function CombinedHigh(w: bv64): Poly {
    Poly(
      Sum8(StatesLow8(w), StatesLow9(w >> 8), StatesLow10(w >> 16), StatesLow11(w >> 24),
      StatesLow12(w >> 32), StatesLow13(w >> 40), StatesLow14(w >> 48), StatesLow15(w >> 56)),
      Sum8(StatesHigh8(w), StatesHigh9(w >> 8), StatesHigh10(w >> 16), StatesHigh11(w >> 24),
      StatesHigh12(w >> 32), StatesHigh13(w >> 40), StatesHigh14(w >> 48), StatesHigh15(w >> 56)))
  }

  function Combined(lo: bv64, hi: bv64): State {
    AsState(Plus(CombinedLow(lo), CombinedHigh(hi)))
  }

  lemma CombinedX128()
    ensures Combined(0x5fd66762f0e1c001, 0x653ced7f29f88a) == Next(AsState(States15(0x80)))
  {
  }

  lemma LeadsToBit4()
    ensures Combined(0x27274b37d7f5fb2e, 0x90fc55044c0c3741) == State(0x10, 0)
  {
  }

  lemma LeadsToBit13()
    ensures Combined(0x55917b7f33476dff, 0xe480f5b9fbdc9a50) == State(0x2000, 0)
  {
  }

  lemma LeadsToBit18()
    ensures Combined(0xc5fa6e0d9e359925, 0xc47f492bbf72b5e5) == State(0x40000, 0)
  {
  }

  lemma LeadsToBit27()
    ensures Combined(0x408cfda25b8013a8, 0xc045479df871241c) == State(0x8000000, 0)
  {
  }

  lemma LeadsToBit36()
    ensures Combined(0xfcb25dcb051277e4, 0x99a054a25a10f122) == State(0x1000000000, 0)
  {
  }

  lemma LeadsToBit41()
    ensures Combined(0x9665de0f3bd4e133, 0x9bd27a3f38f7ce9c) == State(0x20000000000, 0)
  {
  }

  lemma LeadsToBit45()
    ensures Combined(0x3ce1ad9dfe487384, 0xcb439ffcc348e9b1) == State(0x200000000000, 0)
  {
  }

  lemma LeadsToBit50()
    ensures Combined(0xdeeac6205bad07fc, 0x115e78f20e8a47c) == State(0x4000000000000, 0)
  {
  }

  lemma LeadsToBit54()
    ensures Combined(0xa29f89e87b76b11f, 0x843e4fba54ae70b0) == State(0x40000000000000, 0)
  {
  }

  lemma LeadsToBit59()
    ensures Combined(0x224fd4ce44c96963, 0x4cb3e1a122eb2d47) == State(0x800000000000000, 0)
  {
  }

  // ----- Repeated squaring -----

  /** The sum of the even powers that the lower coefficients w select. */
  function SquareLow(w: bv64): Poly {
    Poly(
      Sum8(PowersLow0(w), PowersLow1(w >> 8), PowersLow2(w >> 16), PowersLow3(w >> 24),
      PowersLow4(w >> 32), PowersLow5(w >> 40), PowersLow6(w >> 48), PowersLow7(w >> 56)),
      Sum8(PowersHigh0(w), PowersHigh1(w >> 8), PowersHigh2(w >> 16), PowersHigh3(w >> 24),
      PowersHigh4(w >> 32), PowersHigh5(w >> 40), PowersHigh6(w >> 48), PowersHigh7(w >> 56)))
  }

  /** The sum of the even powers that the upper coefficients w select. */
  function SquareHigh(w: bv64): Poly {
    Poly(
      Sum8(PowersLow8(w), PowersLow9(w >> 8), PowersLow10(w >> 16), PowersLow11(w >> 24),
      PowersLow12(w >> 32), PowersLow13(w >> 40), PowersLow14(w >> 48), PowersLow15(w >> 56)),
      Sum8(PowersHigh8(w), PowersHigh9(w >> 8), PowersHigh10(w >> 16), PowersHigh11(w >> 24),
      PowersHigh12(w >> 32), PowersHigh13(w >> 40), PowersHigh14(w >> 48), PowersHigh15(w >> 56)))
  }

  function Square(lo: bv64, hi: bv64): Poly {
    Plus(SquareLow(lo), SquareHigh(hi))
  }

  lemma Squares0()
    ensures Square(0x2, 0) == Poly(0x4, 0)
    ensures Square(0x4, 0) == Poly(0x10, 0)
    ensures Square(0x10, 0) == Poly(0x100, 0)
    ensures Square(0x100, 0) == Poly(0x10000, 0)
  {
  }

  lemma Squares4()
    ensures Square(0x10000, 0) == Poly(0x100000000, 0)
    ensures Square(0x100000000, 0) == Poly(0, 0x1)
    ensures Square(0, 0x1) == Poly(0x5fd66762f0e1c001, 0x653ced7f29f88a)
    ensures Square(0x5fd66762f0e1c001, 0x653ced7f29f88a) == Poly(0xafb2fae445f1749d, 0xa5ee7b9c7b9ada5d)
  {
  }

  lemma Squares8()
    ensures Square(0xafb2fae445f1749d, 0xa5ee7b9c7b9ada5d) == Poly(0x6802dbe099ee01bb, 0x827846355bfbbb3b)
    ensures Square(0x6802dbe099ee01bb, 0x827846355bfbbb3b) == Poly(0xd731c5eb2847c87a, 0x63c37d001a6750c5)
    ensures Square(0xd731c5eb2847c87a, 0x63c37d001a6750c5) == Poly(0xa8f25f75cdf4ec73, 0xb65b85bdcaf7d3e4)
    ensures Square(0xa8f25f75cdf4ec73, 0xb65b85bdcaf7d3e4) == Poly(0x773b99d154f5a4a1, 0x94df13fe9a4a3dcf)
  {
  }

  lemma Squares12()
    ensures Square(0x773b99d154f5a4a1, 0x94df13fe9a4a3dcf) == Poly(0xd2f80f7bad266228, 0xf3ad7057d1027c0f)
    ensures Square(0xd2f80f7bad266228, 0xf3ad7057d1027c0f) == Poly(0x9320401c0770a84a, 0xe14e6f6a0668f1a0)
    ensures Square(0x9320401c0770a84a, 0xe14e6f6a0668f1a0) == Poly(0x321163bec4990ad2, 0xb3bbe81dc0abe24b)
    ensures Square(0x321163bec4990ad2, 0xb3bbe81dc0abe24b) == Poly(0x1e7aadfc624d3a05, 0x2dcb073daf1ce660)
  {
  }

  lemma Squares16()
    ensures Square(0x1e7aadfc624d3a05, 0x2dcb073daf1ce660) == Poly(0x1c7f4743bdc5b041, 0x177e09afd576d141)
    ensures Square(0x1c7f4743bdc5b041, 0x177e09afd576d141) == Poly(0x4bd6f4c6e57da45f, 0xaf607d0edf04c704)
    ensures Square(0x4bd6f4c6e57da45f, 0xaf607d0edf04c704) == Poly(0x4a4e597376e296ed, 0x54cca5231f8a4649)
    ensures Square(0x4a4e597376e296ed, 0x54cca5231f8a4649) == Poly(0x9b4ede39c85dd32c, 0x2aef7f2e0d57c9e6)
  {
  }

  lemma Squares20()
    ensures Square(0x9b4ede39c85dd32c, 0x2aef7f2e0d57c9e6) == Poly(0xf9220a21ae13d2a7, 0xbc203d8418274bcd)
    ensures Square(0xf9220a21ae13d2a7, 0xbc203d8418274bcd) == Poly(0x269edc3c5357cd6f, 0x9b12f0a3c4fcb527)
    ensures Square(0x269edc3c5357cd6f, 0x9b12f0a3c4fcb527) == Poly(0x5c8f6252d9389976, 0xb2414b0892b97e22)
    ensures Square(0x5c8f6252d9389976, 0xb2414b0892b97e22) == Poly(0x563b590e7bb99129, 0x1ea7ed43fe3f13ed)
  {
  }

  lemma Squares24()
    ensures Square(0x563b590e7bb99129, 0x1ea7ed43fe3f13ed) == Poly(0x91878f44c78831d0, 0x33c81488b599b097)
    ensures Square(0x91878f44c78831d0, 0x33c81488b599b097) == Poly(0xd41a2bed2e66fd67, 0xe9a8a19463e84de7)
    ensures Square(0xd41a2bed2e66fd67, 0xe9a8a19463e84de7) == Poly(0xdd27992bb060c074, 0x83ecc0767932fa49)
    ensures Square(0xdd27992bb060c074, 0x83ecc0767932fa49) == Poly(0x530f7bd9f9875868, 0xa15af04a352f9856)
  {
  }

  lemma Squares28()
    ensures Square(0x530f7bd9f9875868, 0xa15af04a352f9856) == Poly(0xd801e126378c0d5, 0xed3aa528e7507093)
    ensures Square(0xd801e126378c0d5, 0xed3aa528e7507093) == Poly(0xa4db7f6e11fbeab8, 0xd96deee66219f0f1)
    ensures Square(0xa4db7f6e11fbeab8, 0xd96deee66219f0f1) == Poly(0x9a35d628478cb000, 0xbdd7533083ebc48b)
    ensures Square(0x9a35d628478cb000, 0xbdd7533083ebc48b) == Poly(0x6d5c8d1a4b1a701e, 0x1a5037803d7c09bb)
  {
  }

  lemma Squares32()
    ensures Square(0x6d5c8d1a4b1a701e, 0x1a5037803d7c09bb) == Poly(0x104f8616cc0c79b, 0xff59f6e4033b35f2)
    ensures Square(0x104f8616cc0c79b, 0xff59f6e4033b35f2) == Poly(0xb00bac11efcd637b, 0x5c3ad1bcee779faa)
    ensures Square(0xb00bac11efcd637b, 0x5c3ad1bcee779faa) == Poly(0x86d20b1c8fdcef17, 0x9671ccaa016bad26)
    ensures Square(0x86d20b1c8fdcef17, 0x9671ccaa016bad26) == Poly(0xa3302a3bfc133b7d, 0x4e4266602cc6d7)
  {
  }

  lemma Squares36()
    ensures Square(0xa3302a3bfc133b7d, 0x4e4266602cc6d7) == Poly(0x43df8f6dcef4971c, 0xde181a481f3e69a2)
    ensures Square(0x43df8f6dcef4971c, 0xde181a481f3e69a2) == Poly(0x188cc0b18a942b17, 0x183cf0cf4c69f4d1)
    ensures Square(0x188cc0b18a942b17, 0x183cf0cf4c69f4d1) == Poly(0x75f70097b46a43fe, 0xc51c85a7cccbd849)
    ensures Square(0x75f70097b46a43fe, 0xc51c85a7cccbd849) == Poly(0xf4ac44d90fdfc787, 0x6d6c7d713df634b2)
  {
  }

  lemma Squares40()
    ensures Square(0xf4ac44d90fdfc787, 0x6d6c7d713df634b2) == Poly(0xfc49c2b3247583fa, 0x3960df843c7150cf)
    ensures Square(0xfc49c2b3247583fa, 0x3960df843c7150cf) == Poly(0x7b504f1beabb78bf, 0x46a9d0b942ffe73d)
    ensures Square(0x7b504f1beabb78bf, 0x46a9d0b942ffe73d) == Poly(0x72508f2e6dd18616, 0xa5af906ee0217305)
    ensures Square(0x72508f2e6dd18616, 0xa5af906ee0217305) == Poly(0x6c6d3e7725fc1873, 0xeedcbf45b601c4a1)
  {
  }

  lemma Squares44()
    ensures Square(0x6c6d3e7725fc1873, 0xeedcbf45b601c4a1) == Poly(0xec61e7c8474be010, 0xc3b06177b3e723db)
    ensures Square(0xec61e7c8474be010, 0xc3b06177b3e723db) == Poly(0x33c3edf674e47add, 0xa1f6add220642472)
    ensures Square(0x33c3edf674e47add, 0xa1f6add220642472) == Poly(0xaab4e02e1ae31a8, 0x923735153e367b10)
    ensures Square(0xaab4e02e1ae31a8, 0x923735153e367b10) == Poly(0x36f191bfb7ba6a97, 0x5a01777ce2fb65b1)
  {
  }

  lemma Squares48()
    ensures Square(0x36f191bfb7ba6a97, 0x5a01777ce2fb65b1) == Poly(0x21c5d6c2edfc677e, 0xb1ce875557d288ee)
    ensures Square(0x21c5d6c2edfc677e, 0xb1ce875557d288ee) == Poly(0x9ccd91215a6b57f6, 0xdd37d17e9c46a040)
    ensures Square(0x9ccd91215a6b57f6, 0xdd37d17e9c46a040) == Poly(0x1176648688e6c233, 0xd3caf896d961b2c)
    ensures Square(0x1176648688e6c233, 0xd3caf896d961b2c) == Poly(0xf9fad157f50b0174, 0x6f7e1ce5e1b6100e)
  {
  }

  lemma Squares52()
    ensures Square(0xf9fad157f50b0174, 0x6f7e1ce5e1b6100e) == Poly(0x2659e3be0feeead, 0xc5a8a255ab7c1258)
    ensures Square(0x2659e3be0feeead, 0xc5a8a255ab7c1258) == Poly(0xe36a86f91a3ffd07, 0xbbfe69d53c420322)
    ensures Square(0xe36a86f91a3ffd07, 0xbbfe69d53c420322) == Poly(0xcd3c431b44d87d74, 0x890f6920c9d3e25c)
    ensures Square(0xcd3c431b44d87d74, 0x890f6920c9d3e25c) == Poly(0x1057e07b98d0827c, 0x6c960ca585e81749)
  {
  }

  lemma Squares56()
    ensures Square(0x1057e07b98d0827c, 0x6c960ca585e81749) == Poly(0x2a229e94964032bc, 0xbb39d0e32e0d50c7)
    ensures Square(0x2a229e94964032bc, 0xbb39d0e32e0d50c7) == Poly(0x320ab2e28d60300, 0x205f8076a9621b15)
    ensures Square(0x320ab2e28d60300, 0x205f8076a9621b15) == Poly(0x4aff86c90aa5de02, 0x58e6899fca65a30b)
    ensures Square(0x4aff86c90aa5de02, 0x58e6899fca65a30b) == Poly(0x8388faa8a921d602, 0x65b91aee3fc75b6)
  {
  }

  lemma Squares60()
    ensures Square(0x8388faa8a921d602, 0x65b91aee3fc75b6) == Poly(0xfb0c2d93ffcf2091, 0x3872eccc97677a95)
    ensures Square(0xfb0c2d93ffcf2091, 0x3872eccc97677a95) == Poly(0xc78fe2a8ab69f8f8, 0x8019f0cf875b640e)
    ensures Square(0xc78fe2a8ab69f8f8, 0x8019f0cf875b640e) == Poly(0xc6e486df89d83675, 0xe6b3aa7a241507b0)
    ensures Square(0xc6e486df89d83675, 0xe6b3aa7a241507b0) == Poly(0xbeac0467eba5facb, 0xd86b048b86aa9922)
  {
  }

  lemma Squares64()
    ensures Square(0xbeac0467eba5facb, 0xd86b048b86aa9922) == Poly(0x9c74e1ec81b738e3, 0x5c1e8b64735a759a)
    ensures Square(0x9c74e1ec81b738e3, 0x5c1e8b64735a759a) == Poly(0x43f5a2866ee94ad5, 0xe2ae739d156bf073)
    ensures Square(0x43f5a2866ee94ad5, 0xe2ae739d156bf073) == Poly(0x22ba0d03e2847ffe, 0xcda4db601d9b351e)
    ensures Square(0x22ba0d03e2847ffe, 0xcda4db601d9b351e) == Poly(0x49551ed863b5af2, 0x46d4be289a272b8e)
  {
  }

  lemma Squares68()
    ensures Square(0x49551ed863b5af2, 0x46d4be289a272b8e) == Poly(0x30083b6ced91bd9, 0x744b46e3c81ef816)
    ensures Square(0x30083b6ced91bd9, 0x744b46e3c81ef816) == Poly(0x5692248c8bfbe5cb, 0xf0092b585aec7455)
    ensures Square(0x5692248c8bfbe5cb, 0xf0092b585aec7455) == Poly(0x36a241684293dc91, 0x9820a93b2334688e)
    ensures Square(0x36a241684293dc91, 0x9820a93b2334688e) == Poly(0xcccfd85960258c75, 0xd40343d148b9a73c)
  {
  }

  lemma Squares72()
    ensures Square(0xcccfd85960258c75, 0xd40343d148b9a73c) == Poly(0xe0b8e64c67cda36c, 0x604885cf1a502dc1)
    ensures Square(0xe0b8e64c67cda36c, 0x604885cf1a502dc1) == Poly(0x6613bb41517815a, 0x7c3c379b7760c7b2)
    ensures Square(0x6613bb41517815a, 0x7c3c379b7760c7b2) == Poly(0x532e5fbe399401e2, 0x6ff097b789ab954b)
    ensures Square(0x532e5fbe399401e2, 0x6ff097b789ab954b) == Poly(0x9183cae7615f4401, 0x72b44d34161f8f66)
  {
  }

  lemma Squares76()
    ensures Square(0x9183cae7615f4401, 0x72b44d34161f8f66) == Poly(0x753ca9f03d0813ac, 0xf3fef2e1c669d3fa)
    ensures Square(0x753ca9f03d0813ac, 0xf3fef2e1c669d3fa) == Poly(0x6c1c2228a741cc65, 0xdadbdf0b53e0655c)
    ensures Square(0x6c1c2228a741cc65, 0xdadbdf0b53e0655c) == Poly(0x9f7dfea760163a85, 0xa924dceba7eca3a1)
    ensures Square(0x9f7dfea760163a85, 0xa924dceba7eca3a1) == Poly(0x4dc4a0e7b85be058, 0x86b536afc98841e9)
  {
  }

  lemma Squares80()
    ensures Square(0x4dc4a0e7b85be058, 0x86b536afc98841e9) == Poly(0x300670f3694d5f98, 0x8c716c5d088c17f7)
    ensures Square(0x300670f3694d5f98, 0x8c716c5d088c17f7) == Poly(0xa337622cd896e62a, 0x8f828a095c97c1d5)
    ensures Square(0xa337622cd896e62a, 0x8f828a095c97c1d5) == Poly(0x819d0c8851468602, 0x2a5450f370c26c00)
    ensures Square(0x819d0c8851468602, 0x2a5450f370c26c00) == Poly(0x6cd504d521a829db, 0xdffda9e17564bafb)
  {
  }

  lemma Squares84()
    ensures Square(0x6cd504d521a829db, 0xdffda9e17564bafb) == Poly(0x865929dd0cf099f8, 0x32c6c72eece48af3)
    ensures Square(0x865929dd0cf099f8, 0x32c6c72eece48af3) == Poly(0x515f0b2922ce1695, 0xc3a44c299a0921df)
    ensures Square(0x515f0b2922ce1695, 0xc3a44c299a0921df) == Poly(0x569943bff4992ce6, 0x94a6efd05f6b6749)
    ensures Square(0x569943bff4992ce6, 0x94a6efd05f6b6749) == Poly(0xafb35eab3476bee5, 0x293416bf4c9d5cdd)
  {
  }

  lemma Squares88()
    ensures Square(0xafb35eab3476bee5, 0x293416bf4c9d5cdd) == Poly(0xafd9fd0d1157af85, 0xfd2dd84585efd63e)
    ensures Square(0xafd9fd0d1157af85, 0xfd2dd84585efd63e) == Poly(0xf716a9b88762474e, 0xce0d2f61c04c6d6b)
    ensures Square(0xf716a9b88762474e, 0xce0d2f61c04c6d6b) == Poly(0xf902e5a31c4553e, 0xa6d29a735f20608f)
    ensures Square(0xf902e5a31c4553e, 0xa6d29a735f20608f) == Poly(0xea5069db9cf80080, 0x1a8a5ec7f21fe5c0)
  {
  }

  lemma Squares92()
    ensures Square(0xea5069db9cf80080, 0x1a8a5ec7f21fe5c0) == Poly(0xc65194821a5c84ee, 0xb5ef80e7e2fe61ef)
    ensures Square(0xc65194821a5c84ee, 0xb5ef80e7e2fe61ef) == Poly(0x86dac360270567bd, 0xeb4a55ce38f4fa08)
    ensures Square(0x86dac360270567bd, 0xeb4a55ce38f4fa08) == Poly(0x813808988bf6970e, 0xd9047a7c66a1c40)
    ensures Square(0x813808988bf6970e, 0xd9047a7c66a1c40) == Poly(0x18f7c399ccebda8d, 0xf2deac28bef3bb07)
  {
  }

  lemma Squares96()
    ensures Square(0x18f7c399ccebda8d, 0xf2deac28bef3bb07) == Poly(0x3ca1ed1e42dce333, 0xe12a47d641175b6e)
    ensures Square(0x3ca1ed1e42dce333, 0xe12a47d641175b6e) == Poly(0x15fed830f0963680, 0xbafc62fc0290c4ed)
    ensures Square(0x15fed830f0963680, 0xbafc62fc0290c4ed) == Poly(0xc18f994000dc1287, 0x61261345c895d245)
    ensures Square(0xc18f994000dc1287, 0x61261345c895d245) == Poly(0x3fd897ec6afd0b22, 0xb9c2d59735aa7e26)
  {
  }

  lemma Squares100()
    ensures Square(0x3fd897ec6afd0b22, 0xb9c2d59735aa7e26) == Poly(0xe899f639a24dce0f, 0x421b6d54059949dc)
    ensures Square(0xe899f639a24dce0f, 0x421b6d54059949dc) == Poly(0x1612889dd81ee3f1, 0x9e5ac4eb43a87030)
    ensures Square(0x1612889dd81ee3f1, 0x9e5ac4eb43a87030) == Poly(0x437c6d3bf3d8b36a, 0xabab8fdf00def644)
    ensures Square(0x437c6d3bf3d8b36a, 0xabab8fdf00def644) == Poly(0x40d75973e18e8408, 0x77d2c7d1914fee7d)
  {
  }

  lemma Squares104()
    ensures Square(0x40d75973e18e8408, 0x77d2c7d1914fee7d) == Poly(0x853e42a6f80a4fbf, 0x14b0973dde3a777a)
    ensures Square(0x853e42a6f80a4fbf, 0x14b0973dde3a777a) == Poly(0xfbd71a376f8c8315, 0x719403394b2e13f5)
    ensures Square(0xfbd71a376f8c8315, 0x719403394b2e13f5) == Poly(0x2abfd3ef556648f3, 0xbd6dd0aa93c15322)
    ensures Square(0x2abfd3ef556648f3, 0xbd6dd0aa93c15322) == Poly(0xa15f259010ce855f, 0x9d96316a0e9076d6)
  {
  }

  lemma Squares108()
    ensures Square(0xa15f259010ce855f, 0x9d96316a0e9076d6) == Poly(0x4202f7289201be8c, 0x48265b8ed33a8cf)
    ensures Square(0x4202f7289201be8c, 0x48265b8ed33a8cf) == Poly(0xaa8aa10a0550fa3, 0x1b12c77bb59d4066)
    ensures Square(0xaa8aa10a0550fa3, 0x1b12c77bb59d4066) == Poly(0x89b692a9f7c65b13, 0x70676bf12995fa13)
    ensures Square(0x89b692a9f7c65b13, 0x70676bf12995fa13) == Poly(0x96e65369bb8ec1e, 0x7933af6e440aaa3a)
  {
  }

  lemma Squares112()
    ensures Square(0x96e65369bb8ec1e, 0x7933af6e440aaa3a) == Poly(0x5c654c9e9d0e3d6c, 0x7c877f6425d86876)
    ensures Square(0x5c654c9e9d0e3d6c, 0x7c877f6425d86876) == Poly(0x2b0c83a8753ac4a2, 0x48adb2900ab7f418)
    ensures Square(0x2b0c83a8753ac4a2, 0x48adb2900ab7f418) == Poly(0xc193679716ec2098, 0xa283286b8f81431f)
    ensures Square(0xc193679716ec2098, 0xa283286b8f81431f) == Poly(0x2b00b3edf2a3a12, 0xb57afc7537e0220a)
  {
  }

  lemma Squares116()
    ensures Square(0x2b00b3edf2a3a12, 0xb57afc7537e0220a) == Poly(0x4a608f32d8d0cd9f, 0xdd1a46c3436ab55c)
    ensures Square(0x4a608f32d8d0cd9f, 0xdd1a46c3436ab55c) == Poly(0x5991fcbb72206592, 0x91160f2eb06014a6)
    ensures Square(0x5991fcbb72206592, 0x91160f2eb06014a6) == Poly(0x85d56e06f3da10ac, 0x802649e503a11b26)
    ensures Square(0x85d56e06f3da10ac, 0x802649e503a11b26) == Poly(0x62a5681423a34864, 0x548cef58c31a2a77)
  {
  }

  lemma Squares120()
    ensures Square(0x62a5681423a34864, 0x548cef58c31a2a77) == Poly(0x571859f2e2f2af84, 0xfb582241c2f5c600)
    ensures Square(0x571859f2e2f2af84, 0xfb582241c2f5c600) == Poly(0x54ba6e9aea3c0c50, 0x1035a40d6ee3496d)
    ensures Square(0x54ba6e9aea3c0c50, 0x1035a40d6ee3496d) == Poly(0xc30430d0a96426d6, 0xebbce74caf217827)
    ensures Square(0xc30430d0a96426d6, 0xebbce74caf217827) == Poly(0x2d6140605c2290a6, 0xdb1bf3b8b700c5f7)
  {
  }

  lemma Squares124()
    ensures Square(0x2d6140605c2290a6, 0xdb1bf3b8b700c5f7) == Poly(0xb7298798965f3fae, 0x73199db79cb40400)
    ensures Square(0xb7298798965f3fae, 0x73199db79cb40400) == Poly(0x79440bda7ffc59c3, 0x46efdc341e668c73)
    ensures Square(0x79440bda7ffc59c3, 0x46efdc341e668c73) == Poly(0x3bfcc5534423dadb, 0x3452305ec44ed7bc)
    ensures Square(0x3bfcc5534423dadb, 0x3452305ec44ed7bc) == Poly(0x2, 0)
  {
  }

  function PowersOfX0(k: nat): Poly {
    if k == 0 then Poly(0x2, 0)
    else if k == 1 then Poly(0x4, 0)
    else if k == 2 then Poly(0x10, 0)
    else if k == 3 then Poly(0x100, 0)
    else if k == 4 then Poly(0x10000, 0)
    else if k == 5 then Poly(0x100000000, 0)
    else if k == 6 then Poly(0, 0x1)
    else if k == 7 then Poly(0x5fd66762f0e1c001, 0x653ced7f29f88a)
    else if k == 8 then Poly(0xafb2fae445f1749d, 0xa5ee7b9c7b9ada5d)
    else if k == 9 then Poly(0x6802dbe099ee01bb, 0x827846355bfbbb3b)
    else if k == 10 then Poly(0xd731c5eb2847c87a, 0x63c37d001a6750c5)
    else if k == 11 then Poly(0xa8f25f75cdf4ec73, 0xb65b85bdcaf7d3e4)
    else if k == 12 then Poly(0x773b99d154f5a4a1, 0x94df13fe9a4a3dcf)
    else if k == 13 then Poly(0xd2f80f7bad266228, 0xf3ad7057d1027c0f)
    else if k == 14 then Poly(0x9320401c0770a84a, 0xe14e6f6a0668f1a0)
    else Poly(0x321163bec4990ad2, 0xb3bbe81dc0abe24b)
  }

  function PowersOfX16(k: nat): Poly {
    if k == 16 then Poly(0x1e7aadfc624d3a05, 0x2dcb073daf1ce660)
    else if k == 17 then Poly(0x1c7f4743bdc5b041, 0x177e09afd576d141)
    else if k == 18 then Poly(0x4bd6f4c6e57da45f, 0xaf607d0edf04c704)
    else if k == 19 then Poly(0x4a4e597376e296ed, 0x54cca5231f8a4649)
    else if k == 20 then Poly(0x9b4ede39c85dd32c, 0x2aef7f2e0d57c9e6)
    else if k == 21 then Poly(0xf9220a21ae13d2a7, 0xbc203d8418274bcd)
    else if k == 22 then Poly(0x269edc3c5357cd6f, 0x9b12f0a3c4fcb527)
    else if k == 23 then Poly(0x5c8f6252d9389976, 0xb2414b0892b97e22)
    else if k == 24 then Poly(0x563b590e7bb99129, 0x1ea7ed43fe3f13ed)
    else if k == 25 then Poly(0x91878f44c78831d0, 0x33c81488b599b097)
    else if k == 26 then Poly(0xd41a2bed2e66fd67, 0xe9a8a19463e84de7)
    else if k == 27 then Poly(0xdd27992bb060c074, 0x83ecc0767932fa49)
    else if k == 28 then Poly(0x530f7bd9f9875868, 0xa15af04a352f9856)
    else if k == 29 then Poly(0xd801e126378c0d5, 0xed3aa528e7507093)
    else if k == 30 then Poly(0xa4db7f6e11fbeab8, 0xd96deee66219f0f1)
    else Poly(0x9a35d628478cb000, 0xbdd7533083ebc48b)
  }

  function PowersOfX32(k: nat): Poly {
    if k == 32 then Poly(0x6d5c8d1a4b1a701e, 0x1a5037803d7c09bb)
    else if k == 33 then Poly(0x104f8616cc0c79b, 0xff59f6e4033b35f2)
    else if k == 34 then Poly(0xb00bac11efcd637b, 0x5c3ad1bcee779faa)
    else if k == 35 then Poly(0x86d20b1c8fdcef17, 0x9671ccaa016bad26)
    else if k == 36 then Poly(0xa3302a3bfc133b7d, 0x4e4266602cc6d7)
    else if k == 37 then Poly(0x43df8f6dcef4971c, 0xde181a481f3e69a2)
    else if k == 38 then Poly(0x188cc0b18a942b17, 0x183cf0cf4c69f4d1)
    else if k == 39 then Poly(0x75f70097b46a43fe, 0xc51c85a7cccbd849)
    else if k == 40 then Poly(0xf4ac44d90fdfc787, 0x6d6c7d713df634b2)
    else if k == 41 then Poly(0xfc49c2b3247583fa, 0x3960df843c7150cf)
    else if k == 42 then Poly(0x7b504f1beabb78bf, 0x46a9d0b942ffe73d)
    else if k == 43 then Poly(0x72508f2e6dd18616, 0xa5af906ee0217305)
    else if k == 44 then Poly(0x6c6d3e7725fc1873, 0xeedcbf45b601c4a1)
    else if k == 45 then Poly(0xec61e7c8474be010, 0xc3b06177b3e723db)
    else if k == 46 then Poly(0x33c3edf674e47add, 0xa1f6add220642472)
    else Poly(0xaab4e02e1ae31a8, 0x923735153e367b10)
  }

  function PowersOfX48(k: nat): Poly {
    if k == 48 then Poly(0x36f191bfb7ba6a97, 0x5a01777ce2fb65b1)
    else if k == 49 then Poly(0x21c5d6c2edfc677e, 0xb1ce875557d288ee)
    else if k == 50 then Poly(0x9ccd91215a6b57f6, 0xdd37d17e9c46a040)
    else if k == 51 then Poly(0x1176648688e6c233, 0xd3caf896d961b2c)
    else if k == 52 then Poly(0xf9fad157f50b0174, 0x6f7e1ce5e1b6100e)
    else if k == 53 then Poly(0x2659e3be0feeead, 0xc5a8a255ab7c1258)
    else if k == 54 then Poly(0xe36a86f91a3ffd07, 0xbbfe69d53c420322)
    else if k == 55 then Poly(0xcd3c431b44d87d74, 0x890f6920c9d3e25c)
    else if k == 56 then Poly(0x1057e07b98d0827c, 0x6c960ca585e81749)
    else if k == 57 then Poly(0x2a229e94964032bc, 0xbb39d0e32e0d50c7)
    else if k == 58 then Poly(0x320ab2e28d60300, 0x205f8076a9621b15)
    else if k == 59 then Poly(0x4aff86c90aa5de02, 0x58e6899fca65a30b)
    else if k == 60 then Poly(0x8388faa8a921d602, 0x65b91aee3fc75b6)
    else if k == 61 then Poly(0xfb0c2d93ffcf2091, 0x3872eccc97677a95)
    else if k == 62 then Poly(0xc78fe2a8ab69f8f8, 0x8019f0cf875b640e)
    else Poly(0xc6e486df89d83675, 0xe6b3aa7a241507b0)
  }

  function PowersOfX64(k: nat): Poly {
    if k == 64 then Poly(0xbeac0467eba5facb, 0xd86b048b86aa9922)
    else if k == 65 then Poly(0x9c74e1ec81b738e3, 0x5c1e8b64735a759a)
    else if k == 66 then Poly(0x43f5a2866ee94ad5, 0xe2ae739d156bf073)
    else if k == 67 then Poly(0x22ba0d03e2847ffe, 0xcda4db601d9b351e)
    else if k == 68 then Poly(0x49551ed863b5af2, 0x46d4be289a272b8e)
    else if k == 69 then Poly(0x30083b6ced91bd9, 0x744b46e3c81ef816)
    else if k == 70 then Poly(0x5692248c8bfbe5cb, 0xf0092b585aec7455)
    else if k == 71 then Poly(0x36a241684293dc91, 0x9820a93b2334688e)
    else if k == 72 then Poly(0xcccfd85960258c75, 0xd40343d148b9a73c)
    else if k == 73 then Poly(0xe0b8e64c67cda36c, 0x604885cf1a502dc1)
    else if k == 74 then Poly(0x6613bb41517815a, 0x7c3c379b7760c7b2)
    else if k == 75 then Poly(0x532e5fbe399401e2, 0x6ff097b789ab954b)
    else if k == 76 then Poly(0x9183cae7615f4401, 0x72b44d34161f8f66)
    else if k == 77 then Poly(0x753ca9f03d0813ac, 0xf3fef2e1c669d3fa)
    else if k == 78 then Poly(0x6c1c2228a741cc65, 0xdadbdf0b53e0655c)
    else Poly(0x9f7dfea760163a85, 0xa924dceba7eca3a1)
  }

  function PowersOfX80(k: nat): Poly {
    if k == 80 then Poly(0x4dc4a0e7b85be058, 0x86b536afc98841e9)
    else if k == 81 then Poly(0x300670f3694d5f98, 0x8c716c5d088c17f7)
    else if k == 82 then Poly(0xa337622cd896e62a, 0x8f828a095c97c1d5)
    else if k == 83 then Poly(0x819d0c8851468602, 0x2a5450f370c26c00)
    else if k == 84 then Poly(0x6cd504d521a829db, 0xdffda9e17564bafb)
    else if k == 85 then Poly(0x865929dd0cf099f8, 0x32c6c72eece48af3)
    else if k == 86 then Poly(0x515f0b2922ce1695, 0xc3a44c299a0921df)
    else if k == 87 then Poly(0x569943bff4992ce6, 0x94a6efd05f6b6749)
    else if k == 88 then Poly(0xafb35eab3476bee5, 0x293416bf4c9d5cdd)
    else if k == 89 then Poly(0xafd9fd0d1157af85, 0xfd2dd84585efd63e)
    else if k == 90 then Poly(0xf716a9b88762474e, 0xce0d2f61c04c6d6b)
    else if k == 91 then Poly(0xf902e5a31c4553e, 0xa6d29a735f20608f)
    else if k == 92 then Poly(0xea5069db9cf80080, 0x1a8a5ec7f21fe5c0)
    else if k == 93 then Poly(0xc65194821a5c84ee, 0xb5ef80e7e2fe61ef)
    else if k == 94 then Poly(0x86dac360270567bd, 0xeb4a55ce38f4fa08)
    else Poly(0x813808988bf6970e, 0xd9047a7c66a1c40)
  }

  function PowersOfX96(k: nat): Poly {
    if k == 96 then Poly(0x18f7c399ccebda8d, 0xf2deac28bef3bb07)
    else if k == 97 then Poly(0x3ca1ed1e42dce333, 0xe12a47d641175b6e)
    else if k == 98 then Poly(0x15fed830f0963680, 0xbafc62fc0290c4ed)
    else if k == 99 then Poly(0xc18f994000dc1287, 0x61261345c895d245)
    else if k == 100 then Poly(0x3fd897ec6afd0b22, 0xb9c2d59735aa7e26)
    else if k == 101 then Poly(0xe899f639a24dce0f, 0x421b6d54059949dc)
    else if k == 102 then Poly(0x1612889dd81ee3f1, 0x9e5ac4eb43a87030)
    else if k == 103 then Poly(0x437c6d3bf3d8b36a, 0xabab8fdf00def644)
    else if k == 104 then Poly(0x40d75973e18e8408, 0x77d2c7d1914fee7d)
    else if k == 105 then Poly(0x853e42a6f80a4fbf, 0x14b0973dde3a777a)
    else if k == 106 then Poly(0xfbd71a376f8c8315, 0x719403394b2e13f5)
    else if k == 107 then Poly(0x2abfd3ef556648f3, 0xbd6dd0aa93c15322)
    else if k == 108 then Poly(0xa15f259010ce855f, 0x9d96316a0e9076d6)
    else if k == 109 then Poly(0x4202f7289201be8c, 0x48265b8ed33a8cf)
    else if k == 110 then Poly(0xaa8aa10a0550fa3, 0x1b12c77bb59d4066)
    else Poly(0x89b692a9f7c65b13, 0x70676bf12995fa13)
  }

  function PowersOfX112(k: nat): Poly {
    if k == 112 then Poly(0x96e65369bb8ec1e, 0x7933af6e440aaa3a)
    else if k == 113 then Poly(0x5c654c9e9d0e3d6c, 0x7c877f6425d86876)
    else if k == 114 then Poly(0x2b0c83a8753ac4a2, 0x48adb2900ab7f418)
    else if k == 115 then Poly(0xc193679716ec2098, 0xa283286b8f81431f)
    else if k == 116 then Poly(0x2b00b3edf2a3a12, 0xb57afc7537e0220a)
    else if k == 117 then Poly(0x4a608f32d8d0cd9f, 0xdd1a46c3436ab55c)
    else if k == 118 then Poly(0x5991fcbb72206592, 0x91160f2eb06014a6)
    else if k == 119 then Poly(0x85d56e06f3da10ac, 0x802649e503a11b26)
    else if k == 120 then Poly(0x62a5681423a34864, 0x548cef58c31a2a77)
    else if k == 121 then Poly(0x571859f2e2f2af84, 0xfb582241c2f5c600)
    else if k == 122 then Poly(0x54ba6e9aea3c0c50, 0x1035a40d6ee3496d)
    else if k == 123 then Poly(0xc30430d0a96426d6, 0xebbce74caf217827)
    else if k == 124 then Poly(0x2d6140605c2290a6, 0xdb1bf3b8b700c5f7)
    else if k == 125 then Poly(0xb7298798965f3fae, 0x73199db79cb40400)
    else if k == 126 then Poly(0x79440bda7ffc59c3, 0x46efdc341e668c73)
    else Poly(0x3bfcc5534423dadb, 0x3452305ec44ed7bc)
  }

  /** x^(2^k), modulo the characteristic polynomial, for k up to 128. */
  function PowerOfX(k: nat): Poly {
    if k < 16 then PowersOfX0(k)
    else if k < 32 then PowersOfX16(k)
    else if k < 48 then PowersOfX32(k)
    else if k < 64 then PowersOfX48(k)
    else if k < 80 then PowersOfX64(k)
    else if k < 96 then PowersOfX80(k)
    else if k < 112 then PowersOfX96(k)
    else if k < 128 then PowersOfX112(k)
    else Poly(0x2, 0)
  }

  lemma Squares0To16(k: nat)
    requires 0 <= k < 16
    ensures Square(PowerOfX(k).lo, PowerOfX(k).hi) == PowerOfX(k + 1)
  {
    hide Square;
    if k < 4 { Squares0(); }
    else if k < 8 { Squares4(); }
    else if k < 12 { Squares8(); }
    else { Squares12(); }
  }

  lemma Squares16To32(k: nat)
    requires 16 <= k < 32
    ensures Square(PowerOfX(k).lo, PowerOfX(k).hi) == PowerOfX(k + 1)
  {
    hide Square;
    if k < 20 { Squares16(); }
    else if k < 24 { Squares20(); }
    else if k < 28 { Squares24(); }
    else { Squares28(); }
  }

  lemma Squares32To48(k: nat)
    requires 32 <= k < 48
    ensures Square(PowerOfX(k).lo, PowerOfX(k).hi) == PowerOfX(k + 1)
  {
    hide Square;
    if k < 36 { Squares32(); }
    else if k < 40 { Squares36(); }
    else if k < 44 { Squares40(); }
    else { Squares44(); }
  }

  lemma Squares48To64(k: nat)
    requires 48 <= k < 64
    ensures Square(PowerOfX(k).lo, PowerOfX(k).hi) == PowerOfX(k + 1)
  {
    hide Square;
    if k < 52 { Squares48(); }
    else if k < 56 { Squares52(); }
    else if k < 60 { Squares56(); }
    else { Squares60(); }
  }

  lemma Squares64To80(k: nat)
    requires 64 <= k < 80
    ensures Square(PowerOfX(k).lo, PowerOfX(k).hi) == PowerOfX(k + 1)
  {
    hide Square;
    if k < 68 { Squares64(); }
    else if k < 72 { Squares68(); }
    else if k < 76 { Squares72(); }
    else { Squares76(); }
  }

  lemma Squares80To96(k: nat)
    requires 80 <= k < 96
    ensures Square(PowerOfX(k).lo, PowerOfX(k).hi) == PowerOfX(k + 1)
  {
    hide Square;
    if k < 84 { Squares80(); }
    else if k < 88 { Squares84(); }
    else if k < 92 { Squares88(); }
    else { Squares92(); }
  }

  lemma Squares96To112(k: nat)
    requires 96 <= k < 112
    ensures Square(PowerOfX(k).lo, PowerOfX(k).hi) == PowerOfX(k + 1)
  {
    hide Square;
    if k < 100 { Squares96(); }
    else if k < 104 { Squares100(); }
    else if k < 108 { Squares104(); }
    else { Squares108(); }
  }

  lemma Squares112To128(k: nat)
    requires 112 <= k < 128
    ensures Square(PowerOfX(k).lo, PowerOfX(k).hi) == PowerOfX(k + 1)
  {
    hide Square;
    if k < 116 { Squares112(); }
    else if k < 120 { Squares116(); }
    else if k < 124 { Squares120(); }
    else { Squares124(); }
  }

  lemma SquareFollows(k: nat)
    requires k < 128
    ensures Square(PowerOfX(k).lo, PowerOfX(k).hi) == PowerOfX(k + 1)
  {
    hide Square, PowerOfX;
    if k < 16 { Squares0To16(k); }
    else if k < 32 { Squares16To32(k); }
    else if k < 48 { Squares32To48(k); }
    else if k < 64 { Squares48To64(k); }
    else if k < 80 { Squares64To80(k); }
    else if k < 96 { Squares80To96(k); }
    else if k < 112 { Squares96To112(k); }
    else { Squares112To128(k); }
  }
}
