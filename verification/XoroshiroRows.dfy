/**
 Sums that a prover can evaluate at literals: the entries that the bits of a byte
 select, and what they mean.
 */
module XoroshiroRows {
  import opened Xoroshiro
  import opened XoroshiroPolynomials

  // ----- Sums of words -----

  function Sum3(e0: bv64, e1: bv64, e2: bv64): bv64 {
    e0 ^ (e1 ^ e2)
  }

  function Sum4(e0: bv64, e1: bv64, e2: bv64, e3: bv64): bv64 {
    e0 ^ (e1 ^ (e2 ^ e3))
  }

  function Sum5(e0: bv64, e1: bv64, e2: bv64, e3: bv64, e4: bv64): bv64 {
    e0 ^ (e1 ^ (e2 ^ (e3 ^ e4)))
  }

  function Sum6(e0: bv64, e1: bv64, e2: bv64, e3: bv64, e4: bv64, e5: bv64): bv64 {
    e0 ^ (e1 ^ (e2 ^ (e3 ^ (e4 ^ e5))))
  }

  function Sum7(e0: bv64, e1: bv64, e2: bv64, e3: bv64, e4: bv64, e5: bv64, e6: bv64): bv64 {
    e0 ^ (e1 ^ (e2 ^ (e3 ^ (e4 ^ (e5 ^ e6)))))
  }

  function Sum8(e0: bv64, e1: bv64, e2: bv64, e3: bv64, e4: bv64, e5: bv64, e6: bv64, e7: bv64): bv64 {
    e0 ^ (e1 ^ (e2 ^ (e3 ^ (e4 ^ (e5 ^ (e6 ^ e7))))))
  }

  lemma Sum3Splits(e0: bv64, e1: bv64, e2: bv64)
    ensures Sum3(e0, e1, e2) == Xor(e0, Xor(e1, e2))
  {
    assert Xor(e0, e1 ^ e2) == e0 ^ (e1 ^ e2);
  }

  lemma Sum4Splits(e0: bv64, e1: bv64, e2: bv64, e3: bv64)
    ensures Sum4(e0, e1, e2, e3) == Xor(e0, Sum3(e1, e2, e3))
  {
    assert Xor(e0, e1 ^ (e2 ^ e3)) == e0 ^ (e1 ^ (e2 ^ e3));
  }

  lemma Sum5Splits(e0: bv64, e1: bv64, e2: bv64, e3: bv64, e4: bv64)
    ensures Sum5(e0, e1, e2, e3, e4) == Xor(e0, Sum4(e1, e2, e3, e4))
  {
    assert Xor(e0, e1 ^ (e2 ^ (e3 ^ e4))) == e0 ^ (e1 ^ (e2 ^ (e3 ^ e4)));
  }

  lemma Sum6Splits(e0: bv64, e1: bv64, e2: bv64, e3: bv64, e4: bv64, e5: bv64)
    ensures Sum6(e0, e1, e2, e3, e4, e5) == Xor(e0, Sum5(e1, e2, e3, e4, e5))
  {
    assert Xor(e0, e1 ^ (e2 ^ (e3 ^ (e4 ^ e5)))) == e0 ^ (e1 ^ (e2 ^ (e3 ^ (e4 ^ e5))));
  }

  lemma Sum7Splits(e0: bv64, e1: bv64, e2: bv64, e3: bv64, e4: bv64, e5: bv64, e6: bv64)
    ensures Sum7(e0, e1, e2, e3, e4, e5, e6) == Xor(e0, Sum6(e1, e2, e3, e4, e5, e6))
  {
    assert Xor(e0, e1 ^ (e2 ^ (e3 ^ (e4 ^ (e5 ^ e6))))) == e0 ^ (e1 ^ (e2 ^ (e3 ^ (e4 ^ (e5 ^ e6)))));
  }

  lemma Sum8Splits(e0: bv64, e1: bv64, e2: bv64, e3: bv64, e4: bv64, e5: bv64, e6: bv64, e7: bv64)
    ensures Sum8(e0, e1, e2, e3, e4, e5, e6, e7) == Xor(e0, Sum7(e1, e2, e3, e4, e5, e6, e7))
  {
    assert Xor(e0, e1 ^ (e2 ^ (e3 ^ (e4 ^ (e5 ^ (e6 ^ e7)))))) == e0 ^ (e1 ^ (e2 ^ (e3 ^ (e4 ^ (e5 ^ (e6 ^ e7))))));
  }

  lemma Sum8IsXors(e0: bv64, e1: bv64, e2: bv64, e3: bv64, e4: bv64, e5: bv64, e6: bv64, e7: bv64)
    ensures Sum8(e0, e1, e2, e3, e4, e5, e6, e7) == Xor(e0, Xor(e1, Xor(e2, Xor(e3, Xor(e4, Xor(e5, Xor(e6, e7)))))))
  {
    Sum8Splits(e0, e1, e2, e3, e4, e5, e6, e7);
    Sum7Splits(e1, e2, e3, e4, e5, e6, e7);
    Sum6Splits(e2, e3, e4, e5, e6, e7);
    Sum5Splits(e3, e4, e5, e6, e7);
    Sum4Splits(e4, e5, e6, e7);
    Sum3Splits(e5, e6, e7);
    hide Xor, Sum3, Sum4, Sum5, Sum6, Sum7, Sum8;
  }

  // ----- Sums of selected words -----

  /** The sum of the entries that the eight lowest bits of w select. */
  function Eight(w: bv64, e0: bv64, e1: bv64, e2: bv64, e3: bv64, e4: bv64, e5: bv64, e6: bv64, e7: bv64): bv64 {
    (if w & 0x1 != 0 then e0 else 0) ^ ((if w & 0x2 != 0 then e1 else 0) ^
    ((if w & 0x4 != 0 then e2 else 0) ^ ((if w & 0x8 != 0 then e3 else 0) ^
    ((if w & 0x10 != 0 then e4 else 0) ^ ((if w & 0x20 != 0 then e5 else 0) ^
    ((if w & 0x40 != 0 then e6 else 0) ^ (if w & 0x80 != 0 then e7 else 0)))))))
  }

  lemma BitTests(w: bv64)
    ensures Low(w) == (w & 0x1 != 0)
    ensures Low(Half(w)) == (w & 0x2 != 0)
    ensures Low(Half(Half(w))) == (w & 0x4 != 0)
    ensures Low(Half(Half(Half(w)))) == (w & 0x8 != 0)
    ensures Low(Half(Half(Half(Half(w))))) == (w & 0x10 != 0)
    ensures Low(Half(Half(Half(Half(Half(w)))))) == (w & 0x20 != 0)
    ensures Low(Half(Half(Half(Half(Half(Half(w))))))) == (w & 0x40 != 0)
    ensures Low(Half(Half(Half(Half(Half(Half(Half(w)))))))) == (w & 0x80 != 0)
  {
  }

  function Pick(b: bool, x: bv64): bv64 {
    if b then x else 0
  }

  lemma EightIsSum(w: bv64, e0: bv64, e1: bv64, e2: bv64, e3: bv64, e4: bv64, e5: bv64, e6: bv64, e7: bv64)
    ensures Eight(w, e0, e1, e2, e3, e4, e5, e6, e7) ==
      Sum8(if w & 0x1 != 0 then e0 else 0, if w & 0x2 != 0 then e1 else 0,
           if w & 0x4 != 0 then e2 else 0, if w & 0x8 != 0 then e3 else 0,
           if w & 0x10 != 0 then e4 else 0, if w & 0x20 != 0 then e5 else 0,
           if w & 0x40 != 0 then e6 else 0, if w & 0x80 != 0 then e7 else 0)
  {
  }

  /** A selection bit by bit. */
  function Picked(w: bv64, e0: bv64, e1: bv64, e2: bv64, e3: bv64, e4: bv64, e5: bv64, e6: bv64, e7: bv64): bv64 {
    Xor(Pick(Low(w), e0),
    Xor(Pick(Low(Half(w)), e1),
    Xor(Pick(Low(Half(Half(w))), e2),
    Xor(Pick(Low(Half(Half(Half(w)))), e3),
    Xor(Pick(Low(Half(Half(Half(Half(w))))), e4),
    Xor(Pick(Low(Half(Half(Half(Half(Half(w)))))), e5),
    Xor(Pick(Low(Half(Half(Half(Half(Half(Half(w))))))), e6),
    Pick(Low(Half(Half(Half(Half(Half(Half(Half(w)))))))), e7))))))))
  }

  lemma EightIsPicked(w: bv64, e0: bv64, e1: bv64, e2: bv64, e3: bv64, e4: bv64, e5: bv64, e6: bv64, e7: bv64)
    ensures Eight(w, e0, e1, e2, e3, e4, e5, e6, e7) == Picked(w, e0, e1, e2, e3, e4, e5, e6, e7)
  {
    hide Low, Half, Xor, Sum8, Eight;
    BitTests(w);
    EightIsSum(w, e0, e1, e2, e3, e4, e5, e6, e7);
    Sum8IsXors(Pick(w & 0x1 != 0, e0),
      Pick(w & 0x2 != 0, e1),
      Pick(w & 0x4 != 0, e2),
      Pick(w & 0x8 != 0, e3),
      Pick(w & 0x10 != 0, e4),
      Pick(w & 0x20 != 0, e5),
      Pick(w & 0x40 != 0, e6),
      Pick(w & 0x80 != 0, e7));
  }

  lemma SingleBit0(e0: bv64, e1: bv64, e2: bv64, e3: bv64, e4: bv64, e5: bv64, e6: bv64, e7: bv64)
    ensures Eight(0x1, e0, e1, e2, e3, e4, e5, e6, e7) == e0
  {
  }

  lemma SingleBit1(e0: bv64, e1: bv64, e2: bv64, e3: bv64, e4: bv64, e5: bv64, e6: bv64, e7: bv64)
    ensures Eight(0x2, e0, e1, e2, e3, e4, e5, e6, e7) == e1
  {
  }

  lemma SingleBit2(e0: bv64, e1: bv64, e2: bv64, e3: bv64, e4: bv64, e5: bv64, e6: bv64, e7: bv64)
    ensures Eight(0x4, e0, e1, e2, e3, e4, e5, e6, e7) == e2
  {
  }

  lemma SingleBit3(e0: bv64, e1: bv64, e2: bv64, e3: bv64, e4: bv64, e5: bv64, e6: bv64, e7: bv64)
    ensures Eight(0x8, e0, e1, e2, e3, e4, e5, e6, e7) == e3
  {
  }

  lemma SingleBit4(e0: bv64, e1: bv64, e2: bv64, e3: bv64, e4: bv64, e5: bv64, e6: bv64, e7: bv64)
    ensures Eight(0x10, e0, e1, e2, e3, e4, e5, e6, e7) == e4
  {
  }

  lemma SingleBit5(e0: bv64, e1: bv64, e2: bv64, e3: bv64, e4: bv64, e5: bv64, e6: bv64, e7: bv64)
    ensures Eight(0x20, e0, e1, e2, e3, e4, e5, e6, e7) == e5
  {
  }

  lemma SingleBit6(e0: bv64, e1: bv64, e2: bv64, e3: bv64, e4: bv64, e5: bv64, e6: bv64, e7: bv64)
    ensures Eight(0x40, e0, e1, e2, e3, e4, e5, e6, e7) == e6
  {
  }

  lemma SingleBit7(e0: bv64, e1: bv64, e2: bv64, e3: bv64, e4: bv64, e5: bv64, e6: bv64, e7: bv64)
    ensures Eight(0x80, e0, e1, e2, e3, e4, e5, e6, e7) == e7
  {
  }

  /** The entries by themselves are what single bits select. */
  lemma SingleBits(e0: bv64, e1: bv64, e2: bv64, e3: bv64, e4: bv64, e5: bv64, e6: bv64, e7: bv64)
    ensures Eight(0x1, e0, e1, e2, e3, e4, e5, e6, e7) == e0
    ensures Eight(0x2, e0, e1, e2, e3, e4, e5, e6, e7) == e1
    ensures Eight(0x4, e0, e1, e2, e3, e4, e5, e6, e7) == e2
    ensures Eight(0x8, e0, e1, e2, e3, e4, e5, e6, e7) == e3
    ensures Eight(0x10, e0, e1, e2, e3, e4, e5, e6, e7) == e4
    ensures Eight(0x20, e0, e1, e2, e3, e4, e5, e6, e7) == e5
    ensures Eight(0x40, e0, e1, e2, e3, e4, e5, e6, e7) == e6
    ensures Eight(0x80, e0, e1, e2, e3, e4, e5, e6, e7) == e7
  {
    hide Eight;
    SingleBit0(e0, e1, e2, e3, e4, e5, e6, e7);
    SingleBit1(e0, e1, e2, e3, e4, e5, e6, e7);
    SingleBit2(e0, e1, e2, e3, e4, e5, e6, e7);
    SingleBit3(e0, e1, e2, e3, e4, e5, e6, e7);
    SingleBit4(e0, e1, e2, e3, e4, e5, e6, e7);
    SingleBit5(e0, e1, e2, e3, e4, e5, e6, e7);
    SingleBit6(e0, e1, e2, e3, e4, e5, e6, e7);
    SingleBit7(e0, e1, e2, e3, e4, e5, e6, e7);
  }

  lemma AllSelections(w: bv64)
    ensures forall e0: bv64, e1: bv64, e2: bv64, e3: bv64, e4: bv64, e5: bv64, e6: bv64, e7: bv64 ::
      Eight(w, e0, e1, e2, e3, e4, e5, e6, e7) == Picked(w,
        Eight(0x1, e0, e1, e2, e3, e4, e5, e6, e7),
        Eight(0x2, e0, e1, e2, e3, e4, e5, e6, e7),
        Eight(0x4, e0, e1, e2, e3, e4, e5, e6, e7),
        Eight(0x8, e0, e1, e2, e3, e4, e5, e6, e7),
        Eight(0x10, e0, e1, e2, e3, e4, e5, e6, e7),
        Eight(0x20, e0, e1, e2, e3, e4, e5, e6, e7),
        Eight(0x40, e0, e1, e2, e3, e4, e5, e6, e7),
        Eight(0x80, e0, e1, e2, e3, e4, e5, e6, e7))
  {
    hide Eight, Picked;
    forall e0: bv64, e1: bv64, e2: bv64, e3: bv64, e4: bv64, e5: bv64, e6: bv64, e7: bv64
      ensures Eight(w, e0, e1, e2, e3, e4, e5, e6, e7) == Picked(w,
        Eight(0x1, e0, e1, e2, e3, e4, e5, e6, e7),
        Eight(0x2, e0, e1, e2, e3, e4, e5, e6, e7),
        Eight(0x4, e0, e1, e2, e3, e4, e5, e6, e7),
        Eight(0x8, e0, e1, e2, e3, e4, e5, e6, e7),
        Eight(0x10, e0, e1, e2, e3, e4, e5, e6, e7),
        Eight(0x20, e0, e1, e2, e3, e4, e5, e6, e7),
        Eight(0x40, e0, e1, e2, e3, e4, e5, e6, e7),
        Eight(0x80, e0, e1, e2, e3, e4, e5, e6, e7))
    {
      EightIsPicked(w, e0, e1, e2, e3, e4, e5, e6, e7);
      SingleBits(e0, e1, e2, e3, e4, e5, e6, e7);
    }
  }

  // ----- Sums of selected polynomials -----

  function Chosen(b: bool, p: Poly): Poly {
    if b then p else NOTHING
  }

  lemma ChooseFirst(w: bv64, e: seq<Poly>)
    requires e != []
    ensures Choose(w, e) == Plus(Chosen(Low(w), e[0]), Choose(Half(w), e[1..]))
  {
    hide Plus, Low, Half;
  }

  lemma ChooseFour(w: bv64, e: seq<Poly>)
    requires |e| >= 4
    ensures Choose(w, e) ==
      Plus(Chosen(Low(w), e[0]), Plus(Chosen(Low(Half(w)), e[1]), Plus(Chosen(Low(Half(Half(w))), e[2]),
      Plus(Chosen(Low(Half(Half(Half(w)))), e[3]), Choose(Half(Half(Half(Half(w)))), e[4..])))))
  {
    hide Plus, Low, Half, Choose, Chosen;
    ChooseFirst(w, e);
    ChooseFirst(Half(w), e[1..]);
    ChooseFirst(Half(Half(w)), e[1..][1..]);
    ChooseFirst(Half(Half(Half(w))), e[1..][1..][1..]);
    assert e[1..][1..][1..][1..] == e[4..];
  }

  lemma ChooseEight(w: bv64, e: seq<Poly>)
    requires |e| == 8
    ensures Choose(w, e) ==
      Plus(Chosen(Low(w), e[0]),
      Plus(Chosen(Low(Half(w)), e[1]),
      Plus(Chosen(Low(Half(Half(w))), e[2]),
      Plus(Chosen(Low(Half(Half(Half(w)))), e[3]),
      Plus(Chosen(Low(Half(Half(Half(Half(w))))), e[4]),
      Plus(Chosen(Low(Half(Half(Half(Half(Half(w)))))), e[5]),
      Plus(Chosen(Low(Half(Half(Half(Half(Half(Half(w))))))), e[6]),
      Plus(Chosen(Low(Half(Half(Half(Half(Half(Half(Half(w)))))))), e[7]), NOTHING))))))))
  {
    hide Plus, Low, Half, Chosen;
    ChooseFour(w, e);
    ChooseFour(Half(Half(Half(Half(w)))), e[4..]);
    assert e[4..][4..] == [];
  }

  lemma ChosenIsPick(b: bool, x: bv64, y: bv64)
    ensures Chosen(b, Poly(x, y)) == Poly(Pick(b, x), Pick(b, y))
  {
  }

  lemma PickedSplits(w: bv64, e0: bv64, e1: bv64, e2: bv64, e3: bv64, e4: bv64, e5: bv64, e6: bv64, e7: bv64)
    ensures Picked(w, e0, e1, e2, e3, e4, e5, e6, e7) ==
      Xor(Pick(Low(w), e0),
      Xor(Pick(Low(Half(w)), e1),
      Xor(Pick(Low(Half(Half(w))), e2),
      Xor(Pick(Low(Half(Half(Half(w)))), e3),
      Xor(Pick(Low(Half(Half(Half(Half(w))))), e4),
      Xor(Pick(Low(Half(Half(Half(Half(Half(w)))))), e5),
      Xor(Pick(Low(Half(Half(Half(Half(Half(Half(w))))))), e6),
      Pick(Low(Half(Half(Half(Half(Half(Half(Half(w)))))))), e7))))))))
  {
    hide Xor, Low, Half, Pick;
  }

  lemma ChooseWords(w: bv64, e0: bv64, e1: bv64, e2: bv64, e3: bv64, e4: bv64, e5: bv64, e6: bv64, e7: bv64,
                    f0: bv64, f1: bv64, f2: bv64, f3: bv64, f4: bv64, f5: bv64, f6: bv64, f7: bv64)
    ensures Choose(w, [Poly(e0, f0), Poly(e1, f1), Poly(e2, f2), Poly(e3, f3),
      Poly(e4, f4), Poly(e5, f5), Poly(e6, f6), Poly(e7, f7)]) ==
      Poly(Picked(w, e0, e1, e2, e3, e4, e5, e6, e7), Picked(w, f0, f1, f2, f3, f4, f5, f6, f7))
  {
    hide Xor, Low, Half, Choose, Chosen, Pick, Picked;
    PickedSplits(w, e0, e1, e2, e3, e4, e5, e6, e7);
    PickedSplits(w, f0, f1, f2, f3, f4, f5, f6, f7);
    ChosenIsPick(Low(w), e0, f0);
    ChosenIsPick(Low(Half(w)), e1, f1);
    ChosenIsPick(Low(Half(Half(w))), e2, f2);
    ChosenIsPick(Low(Half(Half(Half(w)))), e3, f3);
    ChosenIsPick(Low(Half(Half(Half(Half(w))))), e4, f4);
    ChosenIsPick(Low(Half(Half(Half(Half(Half(w)))))), e5, f5);
    ChosenIsPick(Low(Half(Half(Half(Half(Half(Half(w))))))), e6, f6);
    ChosenIsPick(Low(Half(Half(Half(Half(Half(Half(Half(w)))))))), e7, f7);
    XorBasics(Pick(Low(Half(Half(Half(Half(Half(Half(Half(w)))))))), e7), 0);
    XorBasics(Pick(Low(Half(Half(Half(Half(Half(Half(Half(w)))))))), f7), 0);
    ChooseEight(w, [Poly(e0, f0), Poly(e1, f1), Poly(e2, f2), Poly(e3, f3),
      Poly(e4, f4), Poly(e5, f5), Poly(e6, f6), Poly(e7, f7)]);
  }

  /** Choosing polynomials is picking words. */
  lemma ChooseIsPicked(w: bv64, e: seq<Poly>)
    requires |e| == 8
    ensures Choose(w, e) == Poly(
      Picked(w, e[0].lo, e[1].lo, e[2].lo, e[3].lo, e[4].lo, e[5].lo, e[6].lo, e[7].lo),
      Picked(w, e[0].hi, e[1].hi, e[2].hi, e[3].hi, e[4].hi, e[5].hi, e[6].hi, e[7].hi))
  {
    hide Choose, Picked;
    assert e == [e[0], e[1], e[2], e[3], e[4], e[5], e[6], e[7]];
    ChooseWords(w, e[0].lo, e[1].lo, e[2].lo, e[3].lo, e[4].lo, e[5].lo, e[6].lo, e[7].lo,
                e[0].hi, e[1].hi, e[2].hi, e[3].hi, e[4].hi, e[5].hi, e[6].hi, e[7].hi);
  }

  /** Sums of eight polynomials, word by word. */
  lemma SumOfPolys(p: seq<Poly>)
    requires |p| == 8
    ensures Poly(Sum8(p[0].lo, p[1].lo, p[2].lo, p[3].lo, p[4].lo, p[5].lo, p[6].lo, p[7].lo),
                 Sum8(p[0].hi, p[1].hi, p[2].hi, p[3].hi, p[4].hi, p[5].hi, p[6].hi, p[7].hi)) ==
      Plus(p[0], Plus(p[1], Plus(p[2], Plus(p[3], Plus(p[4], Plus(p[5], Plus(p[6], p[7])))))))
  {
    hide Xor, Sum8;
    Sum8IsXors(p[0].lo, p[1].lo, p[2].lo, p[3].lo, p[4].lo, p[5].lo, p[6].lo, p[7].lo);
    Sum8IsXors(p[0].hi, p[1].hi, p[2].hi, p[3].hi, p[4].hi, p[5].hi, p[6].hi, p[7].hi);
  }

  lemma Shifts(w: bv64)
    ensures w >> 8 == Shr8(w) && w >> 16 == Shr8(w >> 8) && w >> 24 == Shr8(w >> 16) && w >> 32 == Shr8(w >> 24)
    ensures w >> 40 == Shr8(w >> 32) && w >> 48 == Shr8(w >> 40) && w >> 56 == Shr8(w >> 48)
  {
    Shift2(w);
    Shift3(w);
    Shift4(w);
    Shift5(w);
    Shift6(w);
    Shift7(w);
    assert w >> 8 == Shr8(w);
    hide Shr8;
  }

  lemma Shift2(w: bv64)
    ensures w >> 16 == Shr8(w >> 8)
  {
  }

  lemma Shift3(w: bv64)
    ensures w >> 24 == Shr8(w >> 16)
  {
  }

  lemma Shift4(w: bv64)
    ensures w >> 32 == Shr8(w >> 24)
  {
  }

  lemma Shift5(w: bv64)
    ensures w >> 40 == Shr8(w >> 32)
  {
  }

  lemma Shift6(w: bv64)
    ensures w >> 48 == Shr8(w >> 40)
  {
  }

  lemma Shift7(w: bv64)
    ensures w >> 56 == Shr8(w >> 48)
  {
  }
}
