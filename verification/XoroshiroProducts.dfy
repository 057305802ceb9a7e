/**
 Products of polynomials modulo the characteristic polynomial of xoroshiro128+: a
 certificate that a prover can check at literals, and what it proves.
 */
module XoroshiroProducts {
  import opened Xoroshiro
  import opened XoroshiroPolynomials
  import opened XoroshiroRows
  import opened XoroshiroTables
  import opened XoroshiroCharacteristic
  import opened XoroshiroJump

  // ----- A byte times two words -----

  function ByteTimesLow(a: bv64, lo: bv64): bv64 {
    Eight(a, lo, lo << 1, lo << 2, lo << 3, lo << 4, lo << 5, lo << 6, lo << 7)
  }

  function ByteTimesHigh(a: bv64, lo: bv64, hi: bv64): bv64 {
    Eight(a, hi, (hi << 1) | (lo >> 63), (hi << 2) | (lo >> 62), (hi << 3) | (lo >> 61),
          (hi << 4) | (lo >> 60), (hi << 5) | (lo >> 59), (hi << 6) | (lo >> 58), (hi << 7) | (lo >> 57))
  }

  /** The lowest byte of a times p. */
  function ByteTimes(a: bv64, p: Poly): Poly {
    Poly(ByteTimesLow(a, p.lo), ByteTimesHigh(a, p.lo, p.hi))
  }

  /** The words of p * x^j, for j up to 8. */
  function UpLow(lo: bv64, j: nat): bv64 {
    if j == 0 then lo
    else if j == 1 then lo << 1
    else if j == 2 then lo << 2
    else if j == 3 then lo << 3
    else if j == 4 then lo << 4
    else if j == 5 then lo << 5
    else if j == 6 then lo << 6
    else if j == 7 then lo << 7
    else lo << 8
  }

  function UpHigh(lo: bv64, hi: bv64, j: nat): bv64 {
    if j == 0 then hi
    else if j == 1 then (hi << 1) | (lo >> 63)
    else if j == 2 then (hi << 2) | (lo >> 62)
    else if j == 3 then (hi << 3) | (lo >> 61)
    else if j == 4 then (hi << 4) | (lo >> 60)
    else if j == 5 then (hi << 5) | (lo >> 59)
    else if j == 6 then (hi << 6) | (lo >> 58)
    else if j == 7 then (hi << 7) | (lo >> 57)
    else (hi << 8) | (lo >> 56)
  }

  lemma UpLowWords(lo: bv64)
    ensures UpLow(lo, 0) == lo
    ensures UpLow(lo, 1) == lo << 1
    ensures UpLow(lo, 2) == lo << 2
    ensures UpLow(lo, 3) == lo << 3
    ensures UpLow(lo, 4) == lo << 4
    ensures UpLow(lo, 5) == lo << 5
    ensures UpLow(lo, 6) == lo << 6
    ensures UpLow(lo, 7) == lo << 7
  {
  }

  lemma UpHighWords(lo: bv64, hi: bv64)
    ensures UpHigh(lo, hi, 0) == hi
    ensures UpHigh(lo, hi, 1) == (hi << 1) | (lo >> 63)
    ensures UpHigh(lo, hi, 2) == (hi << 2) | (lo >> 62)
    ensures UpHigh(lo, hi, 3) == (hi << 3) | (lo >> 61)
    ensures UpHigh(lo, hi, 4) == (hi << 4) | (lo >> 60)
    ensures UpHigh(lo, hi, 5) == (hi << 5) | (lo >> 59)
    ensures UpHigh(lo, hi, 6) == (hi << 6) | (lo >> 58)
    ensures UpHigh(lo, hi, 7) == (hi << 7) | (lo >> 57)
  {
  }

  function Up(p: Poly, j: nat): Poly {
    Poly(UpLow(p.lo, j), UpHigh(p.lo, p.hi, j))
  }

  predicate ByteFree(hi: bv64) {
    hi >> 56 == 0
  }

  /** The highest bit, moved to the lowest place. */
  function TopBit(w: bv64): bv64 {
    if w & 0x8000_0000_0000_0000 != 0 then 1 else 0
  }

  lemma CarryIn(h: bv64, l: bv64)
    ensures Xor(Double(h), Carry(l)) == (h << 1) ^ TopBit(l)
  {
    assert Carry(l) == TopBit(l);
    assert Xor(h << 1, TopBit(l)) == (h << 1) ^ TopBit(l);
  }

  lemma TopFree0(lo: bv64, hi: bv64)
    requires ByteFree(hi)
    ensures !Top(UpHigh(lo, hi, 0))
  {
  }

  lemma LowUp0(lo: bv64)
    ensures UpLow(lo, 1) == Double(UpLow(lo, 0))
  {
  }

  lemma HighWordUp0(lo: bv64, hi: bv64)
    ensures ((hi) << 1) ^ TopBit(lo) == (hi << 1) | (lo >> 63)
  {
  }

  lemma HighUp0(lo: bv64, hi: bv64)
    ensures UpHigh(lo, hi, 1) == Xor(Double(UpHigh(lo, hi, 0)), Carry(UpLow(lo, 0)))
  {
    hide Xor, Double, Carry, TopBit;
    CarryIn(hi, lo);
    HighWordUp0(lo, hi);
  }

  lemma TopFree1(lo: bv64, hi: bv64)
    requires ByteFree(hi)
    ensures !Top(UpHigh(lo, hi, 1))
  {
  }

  lemma LowUp1(lo: bv64)
    ensures UpLow(lo, 2) == Double(UpLow(lo, 1))
  {
  }

  lemma HighWordUp1(lo: bv64, hi: bv64)
    ensures (((hi << 1) | (lo >> 63)) << 1) ^ TopBit(lo << 1) == (hi << 2) | (lo >> 62)
  {
  }

  lemma HighUp1(lo: bv64, hi: bv64)
    ensures UpHigh(lo, hi, 2) == Xor(Double(UpHigh(lo, hi, 1)), Carry(UpLow(lo, 1)))
  {
    hide Xor, Double, Carry, TopBit;
    CarryIn((hi << 1) | (lo >> 63), lo << 1);
    HighWordUp1(lo, hi);
  }

  lemma TopFree2(lo: bv64, hi: bv64)
    requires ByteFree(hi)
    ensures !Top(UpHigh(lo, hi, 2))
  {
  }

  lemma LowUp2(lo: bv64)
    ensures UpLow(lo, 3) == Double(UpLow(lo, 2))
  {
  }

  lemma HighWordUp2(lo: bv64, hi: bv64)
    ensures (((hi << 2) | (lo >> 62)) << 1) ^ TopBit(lo << 2) == (hi << 3) | (lo >> 61)
  {
  }

  lemma HighUp2(lo: bv64, hi: bv64)
    ensures UpHigh(lo, hi, 3) == Xor(Double(UpHigh(lo, hi, 2)), Carry(UpLow(lo, 2)))
  {
    hide Xor, Double, Carry, TopBit;
    CarryIn((hi << 2) | (lo >> 62), lo << 2);
    HighWordUp2(lo, hi);
  }

  lemma TopFree3(lo: bv64, hi: bv64)
    requires ByteFree(hi)
    ensures !Top(UpHigh(lo, hi, 3))
  {
  }

  lemma LowUp3(lo: bv64)
    ensures UpLow(lo, 4) == Double(UpLow(lo, 3))
  {
  }

  lemma HighWordUp3(lo: bv64, hi: bv64)
    ensures (((hi << 3) | (lo >> 61)) << 1) ^ TopBit(lo << 3) == (hi << 4) | (lo >> 60)
  {
  }

  lemma HighUp3(lo: bv64, hi: bv64)
    ensures UpHigh(lo, hi, 4) == Xor(Double(UpHigh(lo, hi, 3)), Carry(UpLow(lo, 3)))
  {
    hide Xor, Double, Carry, TopBit;
    CarryIn((hi << 3) | (lo >> 61), lo << 3);
    HighWordUp3(lo, hi);
  }

  lemma TopFree4(lo: bv64, hi: bv64)
    requires ByteFree(hi)
    ensures !Top(UpHigh(lo, hi, 4))
  {
  }

  lemma LowUp4(lo: bv64)
    ensures UpLow(lo, 5) == Double(UpLow(lo, 4))
  {
  }

  lemma HighWordUp4(lo: bv64, hi: bv64)
    ensures (((hi << 4) | (lo >> 60)) << 1) ^ TopBit(lo << 4) == (hi << 5) | (lo >> 59)
  {
  }

  lemma HighUp4(lo: bv64, hi: bv64)
    ensures UpHigh(lo, hi, 5) == Xor(Double(UpHigh(lo, hi, 4)), Carry(UpLow(lo, 4)))
  {
    hide Xor, Double, Carry, TopBit;
    CarryIn((hi << 4) | (lo >> 60), lo << 4);
    HighWordUp4(lo, hi);
  }

  lemma TopFree5(lo: bv64, hi: bv64)
    requires ByteFree(hi)
    ensures !Top(UpHigh(lo, hi, 5))
  {
  }

  lemma LowUp5(lo: bv64)
    ensures UpLow(lo, 6) == Double(UpLow(lo, 5))
  {
  }

  lemma HighWordUp5(lo: bv64, hi: bv64)
    ensures (((hi << 5) | (lo >> 59)) << 1) ^ TopBit(lo << 5) == (hi << 6) | (lo >> 58)
  {
  }

  lemma HighUp5(lo: bv64, hi: bv64)
    ensures UpHigh(lo, hi, 6) == Xor(Double(UpHigh(lo, hi, 5)), Carry(UpLow(lo, 5)))
  {
    hide Xor, Double, Carry, TopBit;
    CarryIn((hi << 5) | (lo >> 59), lo << 5);
    HighWordUp5(lo, hi);
  }

  lemma TopFree6(lo: bv64, hi: bv64)
    requires ByteFree(hi)
    ensures !Top(UpHigh(lo, hi, 6))
  {
  }

  lemma LowUp6(lo: bv64)
    ensures UpLow(lo, 7) == Double(UpLow(lo, 6))
  {
  }

  lemma HighWordUp6(lo: bv64, hi: bv64)
    ensures (((hi << 6) | (lo >> 58)) << 1) ^ TopBit(lo << 6) == (hi << 7) | (lo >> 57)
  {
  }

  lemma HighUp6(lo: bv64, hi: bv64)
    ensures UpHigh(lo, hi, 7) == Xor(Double(UpHigh(lo, hi, 6)), Carry(UpLow(lo, 6)))
  {
    hide Xor, Double, Carry, TopBit;
    CarryIn((hi << 6) | (lo >> 58), lo << 6);
    HighWordUp6(lo, hi);
  }

  lemma TopFree7(lo: bv64, hi: bv64)
    requires ByteFree(hi)
    ensures !Top(UpHigh(lo, hi, 7))
  {
  }

  lemma LowUp7(lo: bv64)
    ensures UpLow(lo, 8) == Double(UpLow(lo, 7))
  {
  }

  lemma HighWordUp7(lo: bv64, hi: bv64)
    ensures (((hi << 7) | (lo >> 57)) << 1) ^ TopBit(lo << 7) == (hi << 8) | (lo >> 56)
  {
  }

  lemma HighUp7(lo: bv64, hi: bv64)
    ensures UpHigh(lo, hi, 8) == Xor(Double(UpHigh(lo, hi, 7)), Carry(UpLow(lo, 7)))
  {
    hide Xor, Double, Carry, TopBit;
    CarryIn((hi << 7) | (lo >> 57), lo << 7);
    HighWordUp7(lo, hi);
  }

  lemma UpIsShifted(p: Poly, j: nat)
    requires j < 8 && ByteFree(p.hi)
    ensures !Top(Up(p, j).hi) && Up(p, j + 1) == Shifted(Up(p, j))
  {
    hide ByteFree, Top, Double, Carry, Xor, UpLow, UpHigh;
    if j == 0 { TopFree0(p.lo, p.hi); LowUp0(p.lo); HighUp0(p.lo, p.hi); }
    else if j == 1 { TopFree1(p.lo, p.hi); LowUp1(p.lo); HighUp1(p.lo, p.hi); }
    else if j == 2 { TopFree2(p.lo, p.hi); LowUp2(p.lo); HighUp2(p.lo, p.hi); }
    else if j == 3 { TopFree3(p.lo, p.hi); LowUp3(p.lo); HighUp3(p.lo, p.hi); }
    else if j == 4 { TopFree4(p.lo, p.hi); LowUp4(p.lo); HighUp4(p.lo, p.hi); }
    else if j == 5 { TopFree5(p.lo, p.hi); LowUp5(p.lo); HighUp5(p.lo, p.hi); }
    else if j == 6 { TopFree6(p.lo, p.hi); LowUp6(p.lo); HighUp6(p.lo, p.hi); }
    else { TopFree7(p.lo, p.hi); LowUp7(p.lo); HighUp7(p.lo, p.hi); }
  }

  lemma ShiftedSteps(p: Poly, s: State)
    requires !Top(p.hi)
    ensures Value(Shifted(p), s) == Next(Value(p, s))
  {
    hide Value, Shifted, Top, Next, Add, Iterate;
    ShiftedValue(p, s);
    AddLaws(Value(Shifted(p), s), ZERO, ZERO);
  }

  lemma UpByNothing(p: Poly)
    ensures Up(p, 0) == p
  {
  }

  lemma {:induction false} UpValue(p: Poly, j: nat, s: State)
    requires j <= 8 && ByteFree(p.hi)
    ensures Value(Up(p, j), s) == Iterate(Value(p, s), j)
  {
    hide Value, Shifted, Top, Next, Iterate, ByteFree, Up;
    if j == 0 {
      UpByNothing(p);
      NoSteps(Value(p, s));
    } else {
      UpValue(p, j - 1, s);
      UpIsShifted(p, j - 1);
      ShiftedSteps(Up(p, j - 1), s);
      OneStepMore(Value(p, s), j - 1);
    }
  }

  /** Entries that stand for successive steps choose a polynomial in the step. */
  lemma {:induction false} ChooseRun(w: bv64, entries: seq<Poly>, u: State, s: State)
    requires forall j :: 0 <= j < |entries| ==> Value(entries[j], s) == Iterate(u, j)
    ensures Value(Choose(w, entries), s) == Eval(w, |entries|, u)
    decreases |entries|
  {
    hide Value, Plus, Add, Low, Half, Next;
    ValueOfNothing(s);
    if entries != [] {
      forall j | 0 <= j < |entries| - 1 ensures Value(entries[1..][j], s) == Iterate(Next(u), j) {
        StepFirst(u, j);
      }
      ChooseRun(Half(w), entries[1..], Next(u), s);
      ValuePlus(if Low(w) then entries[0] else NOTHING, Choose(Half(w), entries[1..]), s);
      assert Value(entries[0], s) == Iterate(u, 0);
    }
  }

  function Ups(p: Poly): (e: seq<Poly>)
    ensures |e| == 8 && forall j :: 0 <= j < 8 ==> e[j] == Up(p, j)
  {
    [Up(p, 0), Up(p, 1), Up(p, 2), Up(p, 3), Up(p, 4), Up(p, 5), Up(p, 6), Up(p, 7)]
  }

  lemma LowIsPicked(a: bv64, lo: bv64)
    ensures ByteTimesLow(a, lo) ==
      Picked(a, UpLow(lo, 0), UpLow(lo, 1), UpLow(lo, 2), UpLow(lo, 3),
        UpLow(lo, 4), UpLow(lo, 5), UpLow(lo, 6), UpLow(lo, 7))
  {
    hide Eight, Picked, UpLow;
    UpLowWords(lo);
    EightIsPicked(a, UpLow(lo, 0), UpLow(lo, 1), UpLow(lo, 2), UpLow(lo, 3),
        UpLow(lo, 4), UpLow(lo, 5), UpLow(lo, 6), UpLow(lo, 7));
  }

  lemma HighIsPicked(a: bv64, lo: bv64, hi: bv64)
    ensures ByteTimesHigh(a, lo, hi) ==
      Picked(a, UpHigh(lo, hi, 0), UpHigh(lo, hi, 1), UpHigh(lo, hi, 2), UpHigh(lo, hi, 3),
        UpHigh(lo, hi, 4), UpHigh(lo, hi, 5), UpHigh(lo, hi, 6), UpHigh(lo, hi, 7))
  {
    hide Eight, Picked, UpHigh;
    UpHighWords(lo, hi);
    EightIsPicked(a, UpHigh(lo, hi, 0), UpHigh(lo, hi, 1), UpHigh(lo, hi, 2), UpHigh(lo, hi, 3),
        UpHigh(lo, hi, 4), UpHigh(lo, hi, 5), UpHigh(lo, hi, 6), UpHigh(lo, hi, 7));
  }

  lemma ByteTimesIsChoose(a: bv64, p: Poly)
    ensures ByteTimes(a, p) == Choose(a, Ups(p))
  {
    hide ByteTimesLow, ByteTimesHigh, Picked, Choose, UpLow, UpHigh;
    LowIsPicked(a, p.lo);
    HighIsPicked(a, p.lo, p.hi);
    ChooseIsPicked(a, Ups(p));
  }

  lemma ByteTimesValue(a: bv64, p: Poly, s: State)
    requires ByteFree(p.hi)
    ensures Value(ByteTimes(a, p), s) == Eval(a, 8, Value(p, s))
  {
    hide Value, Eval, Iterate, ByteTimes, Up, Choose, ByteFree;
    ByteTimesIsChoose(a, p);
    forall j | 0 <= j < 8 ensures Value(Ups(p)[j], s) == Iterate(Value(p, s), j) {
      UpValue(p, j, s);
    }
    ChooseRun(a, Ups(p), Value(p, s), s);
  }

  // ----- A word times a word -----

  function TimesLow(a: bv64, b: bv64): bv64 {
    Sum8(ByteTimesLow(a, b),
         ByteTimesLow(a >> 8, b << 8),
         ByteTimesLow(a >> 16, b << 16),
         ByteTimesLow(a >> 24, b << 24),
         ByteTimesLow(a >> 32, b << 32),
         ByteTimesLow(a >> 40, b << 40),
         ByteTimesLow(a >> 48, b << 48),
         ByteTimesLow(a >> 56, b << 56))
  }

  function TimesHigh(a: bv64, b: bv64): bv64 {
    Sum8(ByteTimesHigh(a, b, 0),
         ByteTimesHigh(a >> 8, b << 8, b >> 56),
         ByteTimesHigh(a >> 16, b << 16, b >> 48),
         ByteTimesHigh(a >> 24, b << 24, b >> 40),
         ByteTimesHigh(a >> 32, b << 32, b >> 32),
         ByteTimesHigh(a >> 40, b << 40, b >> 24),
         ByteTimesHigh(a >> 48, b << 48, b >> 16),
         ByteTimesHigh(a >> 56, b << 56, b >> 8))
  }

  function Times(a: bv64, b: bv64): Poly {
    Poly(TimesLow(a, b), TimesHigh(a, b))
  }

  /** b times x^(8 * k). */
  function BytesUp(b: bv64, k: nat): Poly {
    if k == 0 then Poly(b, 0)
    else if k == 1 then Poly(b << 8, b >> 56)
    else if k == 2 then Poly(b << 16, b >> 48)
    else if k == 3 then Poly(b << 24, b >> 40)
    else if k == 4 then Poly(b << 32, b >> 32)
    else if k == 5 then Poly(b << 40, b >> 24)
    else if k == 6 then Poly(b << 48, b >> 16)
    else Poly(b << 56, b >> 8)
  }

  lemma WordUp0(b: bv64)
    ensures Up(Poly(b, 0), 8) == Poly(b << 8, b >> 56)
  {
  }

  lemma WordUp1(b: bv64)
    ensures Up(Poly(b << 8, b >> 56), 8) == Poly(b << 16, b >> 48)
  {
  }

  lemma WordUp2(b: bv64)
    ensures Up(Poly(b << 16, b >> 48), 8) == Poly(b << 24, b >> 40)
  {
  }

  lemma WordUp3(b: bv64)
    ensures Up(Poly(b << 24, b >> 40), 8) == Poly(b << 32, b >> 32)
  {
  }

  lemma WordUp4(b: bv64)
    ensures Up(Poly(b << 32, b >> 32), 8) == Poly(b << 40, b >> 24)
  {
  }

  lemma WordUp5(b: bv64)
    ensures Up(Poly(b << 40, b >> 24), 8) == Poly(b << 48, b >> 16)
  {
  }

  lemma WordUp6(b: bv64)
    ensures Up(Poly(b << 48, b >> 16), 8) == Poly(b << 56, b >> 8)
  {
  }

  lemma BytesUpFollow(b: bv64, k: nat)
    requires k < 7
    ensures Up(BytesUp(b, k), 8) == BytesUp(b, k + 1)
  {
    hide Up;
    if k == 0 { WordUp0(b); }
    else if k == 1 { WordUp1(b); }
    else if k == 2 { WordUp2(b); }
    else if k == 3 { WordUp3(b); }
    else if k == 4 { WordUp4(b); }
    else if k == 5 { WordUp5(b); }
    else { WordUp6(b); }
  }

  lemma BytesUpFree(b: bv64, k: nat)
    requires k < 8
    ensures ByteFree(BytesUp(b, k).hi)
  {
    if k == 0 {} else if k < 4 {} else {}
  }

  lemma WordValue(b: bv64, s: State)
    ensures Value(BytesUp(b, 0), s) == Eval(b, 64, s)
  {
    hide Iterate, Add;
    EvalZero(64, Iterate(s, 64));
    AddLaws(Eval(b, 64, s), ZERO, ZERO);
    hide Eval;
  }

  /** b stands for the way from s to u. */
  ghost predicate Leads(b: bv64, s: State, u: State) {
    forall k: nat :: k < 8 ==> Value(BytesUp(b, k), s) == Iterate(u, 8 * k)
  }

  lemma {:induction false} BytesUpValue(b: bv64, k: nat, s: State)
    requires k < 8
    ensures Value(BytesUp(b, k), s) == Iterate(Value(BytesUp(b, 0), s), 8 * k)
  {
    hide Value, Iterate, BytesUp, Up, ByteFree;
    var u := Value(BytesUp(b, 0), s);
    if k == 0 {
      NoSteps(u);
    } else {
      BytesUpValue(b, k - 1, s);
      BytesUpFollow(b, k - 1);
      BytesUpFree(b, k - 1);
      UpValue(BytesUp(b, k - 1), 8, s);
      IterateAdd(u, 8 * (k - 1), 8);
    }
  }

  lemma WordLeads(b: bv64, s: State)
    ensures Leads(b, s, Eval(b, 64, s))
  {
    hide Value, Iterate, BytesUp, Eval;
    WordValue(b, s);
    forall k: nat | k < 8 ensures Value(BytesUp(b, k), s) == Iterate(Eval(b, 64, s), 8 * k) {
      BytesUpValue(b, k, s);
    }
  }

  /** The n lowest bytes of a times BytesUp(b, k). */
  function TimesSum(a: bv64, b: bv64, k: nat, n: nat): Poly
    decreases n
  {
    if n <= 1 then ByteTimes(a, BytesUp(b, k))
    else Plus(ByteTimes(a, BytesUp(b, k)), TimesSum(Shr8(a), b, k + 1, n - 1))
  }

  lemma {:induction false} TimesSumValue(a: bv64, b: bv64, k: nat, n: nat, s: State, u: State)
    requires 0 < n && k + n <= 8 && Leads(b, s, u)
    ensures Value(TimesSum(a, b, k, n), s) == Eval(a, 8 * n, Iterate(u, 8 * k))
    decreases n
  {
    hide Value, Eval, ByteTimes, BytesUp, Shr8, Plus, Add, Iterate, ByteFree;
    BytesUpFree(b, k);
    ByteTimesValue(a, BytesUp(b, k), s);
    assert Value(BytesUp(b, k), s) == Iterate(u, 8 * k);
    if n > 1 {
      TimesSumValue(Shr8(a), b, k + 1, n - 1, s, u);
      ValuePlus(ByteTimes(a, BytesUp(b, k)), TimesSum(Shr8(a), b, k + 1, n - 1), s);
      EvalByte(a, 8 * (n - 1), Iterate(u, 8 * k));
      IterateAdd(u, 8 * k, 8);
    }
  }

  lemma TimesIsSum(a: bv64, b: bv64)
    ensures Times(a, b) == TimesSum(a, b, 0, 8)
  {
    hide Shr8, Plus, Sum8, ByteTimesLow, ByteTimesHigh;
    Shifts(a);
    SumOfPolys([ByteTimes(a, BytesUp(b, 0)),
                ByteTimes(a >> 8, BytesUp(b, 1)),
                ByteTimes(a >> 16, BytesUp(b, 2)),
                ByteTimes(a >> 24, BytesUp(b, 3)),
                ByteTimes(a >> 32, BytesUp(b, 4)),
                ByteTimes(a >> 40, BytesUp(b, 5)),
                ByteTimes(a >> 48, BytesUp(b, 6)),
                ByteTimes(a >> 56, BytesUp(b, 7))]);
  }

  lemma TimesValue(a: bv64, b: bv64, s: State)
    ensures Value(Times(a, b), s) == Eval(a, 64, Eval(b, 64, s))
  {
    hide Value, Eval, Times, TimesSum, Iterate, Leads;
    var u := Eval(b, 64, s);
    WordLeads(b, s);
    TimesIsSum(a, b);
    TimesSumValue(a, b, 0, 8, s, u);
    NoSteps(u);
  }

  // ----- Products -----

  /** The lower and the upper half of the product of two polynomials given by their words. */
  function LowHalf(p0: bv64, p1: bv64, q0: bv64, q1: bv64): Poly {
    Poly(TimesLow(p0, q0), Sum3(TimesHigh(p0, q0), TimesLow(p0, q1), TimesLow(p1, q0)))
  }

  function HighHalf(p0: bv64, p1: bv64, q0: bv64, q1: bv64): Poly {
    Poly(Sum3(TimesHigh(p0, q1), TimesHigh(p1, q0), TimesLow(p1, q1)), TimesHigh(p1, q1))
  }

  /** Four words stand for two polynomials, the second 128 places up. */
  function LongValue(low: Poly, high: Poly, s: State): State {
    Add(Value(low, s), Value(high, Iterate(s, 128)))
  }

  /** a0 + (b0 + a1 + a2) + (b1 + b2 + a3) + b3. */
  lemma EightTerms(a0: State, b0: State, a1: State, b1: State, a2: State, b2: State, a3: State, b3: State)
    ensures Add(Add(a0, Add(b0, Add(a1, a2))), Add(Add(b1, Add(b2, a3)), b3)) ==
      Add(Add(Add(a0, b0), Add(a1, b1)), Add(Add(a2, b2), Add(a3, b3)))
  {
    hide Add;
    AddLaws(a0, b0, Add(a1, a2));
    AddLaws(b1, Add(b2, a3), b3);
    AddLaws(b2, a3, b3);
    AddSwapsMiddle(Add(a0, b0), Add(a1, a2), b1, Add(b2, Add(a3, b3)));
    AddLaws(Add(a0, b0), b1, Add(Add(a1, a2), Add(b2, Add(a3, b3))));
    AddSwapsMiddle(a1, a2, b2, Add(a3, b3));
    AddLaws(a1, b2, Add(a2, Add(a3, b3)));
    TenTerms(Add(a0, b0), a1, b1, a2, b2, Add(a3, b3));
  }

  /** (x + b1) + ((a1 + a2) + (b2 + y)) == (x + (a1 + b1)) + ((a2 + b2) + y). */
  lemma TenTerms(x: State, a1: State, b1: State, a2: State, b2: State, y: State)
    ensures Add(Add(x, b1), Add(Add(a1, a2), Add(b2, y))) == Add(Add(x, Add(a1, b1)), Add(Add(a2, b2), y))
  {
    hide Add;
    AddLaws(a2, b2, y);
    AddLaws(a1, a2, Add(b2, y));
    AddLaws(x, b1, Add(a1, Add(a2, Add(b2, y))));
    AddLaws(b1, a1, Add(a2, Add(b2, y)));
    AddLaws(x, Add(a1, b1), Add(a2, Add(b2, y)));
    AddLaws(a1, b1, ZERO);
  }

  lemma EvalSum3(a: bv64, b: bv64, c: bv64, s: State)
    ensures Eval(Sum3(a, b, c), 64, s) == Add(Eval(a, 64, s), Add(Eval(b, 64, s), Eval(c, 64, s)))
  {
    hide Xor, Sum3, Eval, Add;
    Sum3Splits(a, b, c);
    EvalXor(a, Xor(b, c), 64, s);
    EvalXor(b, c, 64, s);
  }

  lemma TimesParts(a: bv64, b: bv64, s: State)
    ensures Eval(a, 64, Eval(b, 64, s)) == Add(Eval(TimesLow(a, b), 64, s), Eval(TimesHigh(a, b), 64, Iterate(s, 64)))
  {
    hide TimesLow, TimesHigh, Eval, Iterate, Add;
    TimesValue(a, b, s);
  }

  lemma HalvesValue(p: Poly, q: Poly, s: State)
    ensures LongValue(LowHalf(p.lo, p.hi, q.lo, q.hi), HighHalf(p.lo, p.hi, q.lo, q.hi), s) == Value(p, Value(q, s))
  {
    hide TimesLow, TimesHigh, Eval, Iterate, Add, Sum3;
    var t, u, v := Iterate(s, 64), Iterate(s, 128), Iterate(s, 192);
    IterateAdd(s, 64, 64);
    IterateAdd(s, 128, 64);
    TimesParts(p.lo, q.lo, s);
    TimesParts(p.lo, q.hi, t);
    TimesParts(p.hi, q.lo, t);
    TimesParts(p.hi, q.hi, u);
    EvalSum3(TimesHigh(p.lo, q.lo), TimesLow(p.lo, q.hi), TimesLow(p.hi, q.lo), t);
    EvalSum3(TimesHigh(p.lo, q.hi), TimesHigh(p.hi, q.lo), TimesLow(p.hi, q.hi), u);
    EightTerms(Eval(TimesLow(p.lo, q.lo), 64, s), Eval(TimesHigh(p.lo, q.lo), 64, t),
               Eval(TimesLow(p.lo, q.hi), 64, t), Eval(TimesHigh(p.lo, q.hi), 64, u),
               Eval(TimesLow(p.hi, q.lo), 64, t), Eval(TimesHigh(p.hi, q.lo), 64, u),
               Eval(TimesLow(p.hi, q.hi), 64, u), Eval(TimesHigh(p.hi, q.hi), 64, v));
    ValueOfValue(p, q, s);
  }

  /** Value(p, Value(q, s)) from its four parts. */
  lemma ValueOfValue(p: Poly, q: Poly, s: State)
    ensures var t := Iterate(s, 64);
      Value(p, Value(q, s)) ==
        Add(Add(Eval(p.lo, 64, Eval(q.lo, 64, s)), Eval(p.lo, 64, Eval(q.hi, 64, t))),
            Add(Eval(p.hi, 64, Eval(q.lo, 64, t)), Eval(p.hi, 64, Eval(q.hi, 64, Iterate(s, 128)))))
  {
    hide Eval, Iterate, Add;
    var t := Iterate(s, 64);
    var l, h := Eval(q.lo, 64, s), Eval(q.hi, 64, t);
    IterateAdd(s, 64, 64);
    EvalLinear(p.lo, 64, l, h);
    IterateLinear(l, h, 64);
    EvalCommutesWithIterate(q.lo, 64, s, 64);
    EvalCommutesWithIterate(q.hi, 64, t, 64);
    EvalLinear(p.hi, 64, Iterate(l, 64), Iterate(h, 64));
  }

  /** The certificate: p * q plus h times the characteristic polynomial is r. */
  predicate IsProduct(p0: bv64, p1: bv64, q0: bv64, q1: bv64, h0: bv64, h1: bv64, r0: bv64, r1: bv64) {
    && Plus(LowHalf(p0, p1, q0, q1), LowHalf(h0, h1, 0x5fd66762f0e1c001, 0x653ced7f29f88a)) == Poly(r0, r1)
    && Plus(HighHalf(p0, p1, q0, q1), HighHalf(h0, h1, 0x5fd66762f0e1c001, 0x653ced7f29f88a)) == Poly(h0, h1)
  }

  lemma LongValuePlus(a: Poly, b: Poly, c: Poly, d: Poly, s: State)
    ensures LongValue(Plus(a, c), Plus(b, d), s) == Add(LongValue(a, b, s), LongValue(c, d, s))
  {
    hide Value, Plus, Add, Iterate;
    ValuePlus(a, c, s);
    ValuePlus(b, d, Iterate(s, 128));
    AddSwapsMiddle(Value(a, s), Value(c, s), Value(b, Iterate(s, 128)), Value(d, Iterate(s, 128)));
  }

  /** x + z == y + z only if x == y. */
  lemma CancelTerm(x: State, y: State, z: State)
    requires Add(x, z) == Add(y, z)
    ensures x == y
  {
    hide Add;
    AddLaws(x, z, z);
    AddLaws(y, z, z);
    AddLaws(z, ZERO, ZERO);
    AddLaws(x, ZERO, ZERO);
    AddLaws(y, ZERO, ZERO);
  }

  lemma ProductValue(p: Poly, q: Poly, h: Poly, r: Poly, s: State)
    requires IsProduct(p.lo, p.hi, q.lo, q.hi, h.lo, h.hi, r.lo, r.hi)
    ensures Value(r, s) == Value(p, Value(q, s))
  {
    HalvesValue(p, q, s);
    HalvesValue(h, X128, s);
    AllKilled(s);
    LongValuePlus(LowHalf(p.lo, p.hi, q.lo, q.hi), HighHalf(p.lo, p.hi, q.lo, q.hi),
                  LowHalf(h.lo, h.hi, X128.lo, X128.hi), HighHalf(h.lo, h.hi, X128.lo, X128.hi), s);
    hide Value, Add, Plus, LowHalf, HighHalf, Iterate;
    CancelTerm(Value(r, s), Value(p, Value(q, s)), Value(h, Iterate(s, 128)));
  }

  /** A product stands for the steps of both factors. */
  lemma Multiply(p: Poly, a: nat, q: Poly, b: nat, h: Poly, r: Poly)
    requires IsPower(p, a) && IsPower(q, b)
    requires IsProduct(p.lo, p.hi, q.lo, q.hi, h.lo, h.hi, r.lo, r.hi)
    ensures IsPower(r, a + b)
  {
    hide IsProduct, Value, Iterate;
    forall s: State ensures Value(r, s) == Iterate(s, a + b) {
      ProductValue(p, q, h, r, s);
      IterateAdd(s, b, a);
    }
  }

  /** The same, word by word. */
  lemma Multiplied(p0: bv64, p1: bv64, a: nat, q0: bv64, q1: bv64, b: nat, h0: bv64, h1: bv64, r0: bv64, r1: bv64)
    requires IsPower(Poly(p0, p1), a) && IsPower(Poly(q0, q1), b) && IsProduct(p0, p1, q0, q1, h0, h1, r0, r1)
    ensures IsPower(Poly(r0, r1), a + b)
  {
    hide IsPower, IsProduct;
    Multiply(Poly(p0, p1), a, Poly(q0, q1), b, Poly(h0, h1), Poly(r0, r1));
  }

  lemma Squared(p0: bv64, p1: bv64, a: nat, r0: bv64, r1: bv64)
    requires IsPower(Poly(p0, p1), a) && Square(p0, p1) == Poly(r0, r1)
    ensures IsPower(Poly(r0, r1), 2 * a)
  {
    hide IsPower, Square;
    SquareOfPower(Poly(p0, p1), a);
  }

  /** Two powers whose sum is 1 differ at every state but zero. */
  lemma PowersDifferByOne(p0: bv64, p1: bv64, a: nat, q0: bv64, q1: bv64, b: nat, s: State)
    requires IsPower(Poly(p0, p1), a) && IsPower(Poly(q0, q1), b)
    requires p0 ^ q0 == 1 && p1 ^ q1 == 0
    requires Iterate(s, a) == Iterate(s, b)
    ensures s == ZERO
  {
    hide Value, Iterate, Add;
    var p, q := Poly(p0, p1), Poly(q0, q1);
    assert Plus(p, q) == Poly(1, 0);
    hide Plus;
    OneValue(s);
    ValuePlus(p, q, s);
    AddLaws(Iterate(s, a), ZERO, ZERO);
  }

  /** So do two powers whose sum has an inverse d. */
  lemma PowersDiffer(p0: bv64, p1: bv64, a: nat, q0: bv64, q1: bv64, b: nat, d0: bv64, d1: bv64,
                     h0: bv64, h1: bv64, s: State)
    requires IsPower(Poly(p0, p1), a) && IsPower(Poly(q0, q1), b)
    requires IsProduct(d0, d1, p0 ^ q0, p1 ^ q1, h0, h1, 1, 0)
    requires Iterate(s, a) == Iterate(s, b)
    ensures s == ZERO
  {
    hide IsProduct, Value, Iterate, Add;
    var p, q, d := Poly(p0, p1), Poly(q0, q1), Poly(d0, d1);
    assert Plus(p, q) == Poly(p0 ^ q0, p1 ^ q1);
    hide Plus, Xor;
    ProductValue(d, Plus(p, q), Poly(h0, h1), Poly(1, 0), s);
    OneValue(s);
    ValuePlus(p, q, s);
    AddLaws(Iterate(s, a), ZERO, ZERO);
    ValueOfZero(d);
  }

  lemma ValueOfZero(p: Poly)
    ensures Value(p, ZERO) == ZERO
  {
    hide Next, Add;
    ZeroStays(64);
    EvalOfZero(p.lo, 64);
    EvalOfZero(p.hi, 64);
    AddLaws(ZERO, ZERO, ZERO);
    hide Eval, Iterate;
  }
}
