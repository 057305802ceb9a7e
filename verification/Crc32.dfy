/**
 The CRC-32 of section 8 of RFC 1952, defined one bit at a time, and the algebra
 that makes its table-driven forms possible: linearity, invertibility, and the
 absorption of a whole word in one step.
 */
module Crc32 {

  const POLY: bv32 := 0xedb88320

  type byte = bv8

  // ----- Register operations. They have names so that a proof can hide their bits. -----

  function Xor(a: bv32, b: bv32): bv32 {
    a ^ b
  }

  function Half(c: bv32): bv32 {
    c >> 1
  }

  function Double(c: bv32): bv32 {
    c << 1
  }

  predicate Odd(c: bv32) {
    c & 1 == 1
  }

  function Not(c: bv32): bv32 {
    c ^ 0xffff_ffff
  }

  function Bit(b: bool): bv32 {
    if b then 1 else 0
  }

  lemma XorAssociates(a: bv32, b: bv32, c: bv32)
    ensures Xor(Xor(a, b), c) == Xor(a, Xor(b, c))
  {
  }

  lemma XorUndoes(a: bv32, b: bv32)
    ensures Xor(a, Xor(a, b)) == b
  {
  }

  lemma XorLaws(a: bv32, b: bv32, c: bv32)
    ensures Xor(a, b) == Xor(b, a) && Xor(Xor(a, b), c) == Xor(a, Xor(b, c))
    ensures Xor(a, Xor(a, b)) == b && Xor(a, 0) == a && Xor(0, a) == a
  {
    XorAssociates(a, b, c);
    XorUndoes(a, b);
  }

  lemma XorCancels(a: bv32, b: bv32, c: bv32)
    requires Xor(a, b) == Xor(a, c)
    ensures b == c
  {
  }

  lemma NotNot(a: bv32)
    ensures Not(Not(a)) == a && Not(a) == !a
  {
  }

  lemma HalfOfXor(a: bv32, b: bv32)
    ensures Half(Xor(a, b)) == Xor(Half(a), Half(b))
    ensures Odd(Xor(a, b)) <==> (Odd(a) != Odd(b))
  {
  }

  // ----- The shift register -----

  /** Multiply the register by x modulo the polynomial. */
  function BitStep(c: bv32): bv32 {
    if Odd(c) then Xor(POLY, Half(c)) else Half(c)
  }

  function Steps(c: bv32, n: nat): bv32
    decreases n
  {
    if n == 0 then c else Steps(BitStep(c), n - 1)
  }

  function FeedBit(c: bv32, bit: bool): bv32 {
    BitStep(Xor(c, Bit(bit)))
  }

  function FeedBits(c: bv32, bits: seq<bool>): bv32
    decreases |bits|
  {
    if |bits| == 0 then c else FeedBits(FeedBit(c, bits[0]), bits[1..])
  }

  /** The bits of a byte in the order in which they enter the register. */
  function BitsOf(b: byte): (bits: seq<bool>)
    ensures |bits| == 8
  {
    [b & 1 != 0, b & 2 != 0, b & 4 != 0, b & 8 != 0, b & 16 != 0, b & 32 != 0, b & 64 != 0, b & 128 != 0]
  }

  function BitsOfBytes(s: seq<byte>): (bits: seq<bool>)
    ensures |bits| == 8 * |s|
  {
    if |s| == 0 then [] else BitsOf(s[0]) + BitsOfBytes(s[1..])
  }

  /** The checksum by definition: a bit-serial division between two complements. */
  function Crc(crc: bv32, s: seq<byte>): bv32 {
    Not(FeedBits(Not(crc), BitsOfBytes(s)))
  }

  // ----- The register is linear and loses nothing -----

  lemma BitStepLinear(a: bv32, b: bv32)
    ensures BitStep(Xor(a, b)) == Xor(BitStep(a), BitStep(b))
  {
    hide Xor, Half, Odd;
    HalfOfXor(a, b);
    var x, y := Half(a), Half(b);
    XorLaws(POLY, x, y);
    XorLaws(POLY, x, Xor(POLY, y));
    XorLaws(x, POLY, y);
    XorLaws(POLY, Xor(x, y), 0);
  }

  lemma BitStepInjective(a: bv32, b: bv32)
    requires BitStep(a) == BitStep(b)
    ensures a == b
  {
  }

  lemma {:induction false} StepsLinear(a: bv32, b: bv32, n: nat)
    ensures Steps(Xor(a, b), n) == Xor(Steps(a, n), Steps(b, n))
    decreases n
  {
    hide BitStep, Xor;
    if n > 0 {
      BitStepLinear(a, b);
      StepsLinear(BitStep(a), BitStep(b), n - 1);
    }
  }

  lemma {:induction false} StepsInjective(a: bv32, b: bv32, n: nat)
    requires Steps(a, n) == Steps(b, n)
    ensures a == b
    decreases n
  {
    hide BitStep;
    if n > 0 {
      StepsInjective(BitStep(a), BitStep(b), n - 1);
      BitStepInjective(a, b);
    }
  }

  lemma {:induction false} StepsAdd(a: bv32, m: nat, n: nat)
    ensures Steps(a, m + n) == Steps(Steps(a, m), n)
    decreases m
  {
    hide BitStep;
    if m > 0 { StepsAdd(BitStep(a), m - 1, n); }
  }

  lemma {:induction false} FeedBitsInjective(a: bv32, b: bv32, bits: seq<bool>)
    requires FeedBits(a, bits) == FeedBits(b, bits)
    ensures a == b
    decreases |bits|
  {
    hide BitStep, Xor;
    if |bits| > 0 {
      var d := Bit(bits[0]);
      FeedBitsInjective(FeedBit(a, bits[0]), FeedBit(b, bits[0]), bits[1..]);
      BitStepInjective(Xor(a, d), Xor(b, d));
      XorLaws(a, d, d);
      XorLaws(b, d, d);
      XorCancels(d, a, b);
    }
  }

  lemma {:induction false} FeedBitsAppend(c: bv32, s: seq<bool>, t: seq<bool>)
    ensures FeedBits(c, s + t) == FeedBits(FeedBits(c, s), t)
    decreases |s|
  {
    hide FeedBit;
    if |s| == 0 {
      assert s + t == t;
    } else {
      FeedBitsAppend(FeedBit(c, s[0]), s[1..], t);
      assert (s + t)[1..] == s[1..] + t;
    }
  }

  // ----- A word of at most 32 bits enters in one step -----

  /** The word whose low bits, from the lowest, are `bits`. */
  function Word(bits: seq<bool>): bv32
    decreases |bits|
  {
    if |bits| == 0 then 0 else Xor(Double(Word(bits[1..])), Bit(bits[0]))
  }

  /** The lowest n bits. */
  function Mask(n: nat): bv32 {
    if n == 0 then 0 else Xor(Double(Mask(n - 1)), 1)
  }

  /** w has no bit outside the mask m. */
  predicate Within(w: bv32, m: bv32) {
    w & !m == 0
  }

  predicate TopBitClear(m: bv32) {
    m & 0x8000_0000 == 0
  }

  lemma {:induction false} MaskLeavesTopBit(n: nat)
    requires n <= 31
    ensures TopBitClear(Mask(n))
    decreases 31 - n
  {
    hide Xor, Double, TopBitClear, Within;
    if n == 31 {
      MaskOf31();
    } else {
      MaskLeavesTopBit(n + 1);
      MaskGrows(n);
      TopBitOfSubset(Mask(n), Mask(n + 1));
    }
  }

  lemma MaskOf31()
    ensures TopBitClear(Mask(31))
  {
    assert Mask(5) == 0x1f;
    MaskAdd5(5); MaskAdd5(10); MaskAdd5(15); MaskAdd5(20); MaskAdd5(25);
    MaskNext(30);
  }

  lemma MaskNext(n: nat)
    ensures Mask(n + 1) == Xor(Double(Mask(n)), 1)
  {
  }

  lemma MaskAdd5(n: nat)
    ensures Mask(n + 5) == FiveOnes(Mask(n))
  {
    hide Mask, Xor, Double, FiveOnes;
    MaskNext(n); MaskNext(n + 1); MaskNext(n + 2); MaskNext(n + 3); MaskNext(n + 4);
    FiveShifts(Mask(n));
  }

  function FiveOnes(m: bv32): bv32 {
    (m << 5) ^ 0x1f
  }

  lemma FiveShifts(m: bv32)
    ensures Xor(Double(Xor(Double(Xor(Double(Xor(Double(Xor(Double(m), 1)), 1)), 1)), 1)), 1) == FiveOnes(m)
  {
  }

  lemma {:induction false} MaskGrows(n: nat)
    ensures Within(Mask(n), Mask(n + 1))
  {
    hide Xor, Double, Within;
    if n > 0 {
      MaskGrows(n - 1);
      MaskNext(n);
      ShiftWithin(Mask(n - 1), Mask(n));
    } else {
      NothingWithin(Mask(1));
    }
  }

  lemma NothingWithin(m: bv32)
    ensures Within(0, m)
  {
  }

  lemma TopBitOfSubset(w: bv32, m: bv32)
    requires Within(w, m) && TopBitClear(m)
    ensures TopBitClear(w)
  {
  }

  lemma ShiftWithin(w: bv32, m: bv32)
    requires Within(w, m)
    ensures Within(Double(w), Xor(Double(m), 1)) && Within(Xor(Double(w), 1), Xor(Double(m), 1))
  {
  }

  lemma StepUndoesDouble(w: bv32)
    requires TopBitClear(w)
    ensures BitStep(Double(w)) == w && !Odd(Double(w))
  {
  }

  lemma {:induction false} WordWithinMask(bits: seq<bool>)
    ensures Within(Word(bits), Mask(|bits|))
    decreases |bits|
  {
    hide Xor, Double, Within;
    if |bits| > 0 {
      WordWithinMask(bits[1..]);
      ShiftWithin(Word(bits[1..]), Mask(|bits| - 1));
      XorLaws(Double(Word(bits[1..])), 0, 0);
    } else {
      NothingWithin(Mask(0));
    }
  }

  lemma StepUndoesWord(bits: seq<bool>)
    requires |bits| <= 31
    ensures BitStep(Double(Word(bits))) == Word(bits) && !Odd(Double(Word(bits)))
  {
    hide Xor, Double, Within, TopBitClear;
    WordWithinMask(bits);
    MaskLeavesTopBit(|bits|);
    TopBitOfSubset(Word(bits), Mask(|bits|));
    StepUndoesDouble(Word(bits));
  }

  /** Up to 32 bits can be added to the register at once, before stepping. */
  lemma {:induction false} FeedBitsIsSteps(c: bv32, bits: seq<bool>)
    requires |bits| <= 32
    ensures FeedBits(c, bits) == Steps(Xor(c, Word(bits)), |bits|)
    decreases |bits|
  {
    hide Xor, Double, Odd, BitStep;
    if |bits| == 0 {
      XorLaws(c, 0, 0);
    } else {
      var rest, d := bits[1..], Bit(bits[0]);
      FeedBitsIsSteps(FeedBit(c, bits[0]), rest);
      StepUndoesWord(rest);
      BitStepLinear(Xor(c, d), Double(Word(rest)));
      XorLaws(c, d, Double(Word(rest)));
      XorLaws(d, Double(Word(rest)), 0);
    }
  }

  /** Within 32 bits, different bits make different words. */
  lemma {:induction false} WordInjective(s: seq<bool>, t: seq<bool>)
    requires |s| == |t| <= 32 && Word(s) == Word(t)
    ensures s == t
    decreases |s|
  {
    hide Xor, Double, Odd, BitStep;
    if |s| > 0 {
      var a, b := Double(Word(s[1..])), Double(Word(t[1..]));
      StepUndoesWord(s[1..]);
      StepUndoesWord(t[1..]);
      HalfOfXor(a, Bit(s[0]));
      HalfOfXor(b, Bit(t[0]));
      OddBits();
      XorLaws(a, Bit(s[0]), 0);
      XorLaws(b, Bit(t[0]), 0);
      XorCancels(Bit(s[0]), a, b);
      WordInjective(s[1..], t[1..]);
      assert s == [s[0]] + s[1..] && t == [t[0]] + t[1..];
    }
  }

  lemma OddBits()
    ensures Odd(1) && !Odd(0)
  {
  }

  /** No two different windows of at most 32 bits leave the same register. */
  lemma ShortWindowInjective(c: bv32, s: seq<bool>, t: seq<bool>)
    requires |s| == |t| <= 32 && FeedBits(c, s) == FeedBits(c, t)
    ensures s == t
  {
    hide Xor, BitStep;
    FeedBitsIsSteps(c, s);
    FeedBitsIsSteps(c, t);
    StepsInjective(Xor(c, Word(s)), Xor(c, Word(t)), |s|);
    XorCancels(c, Word(s), Word(t));
    WordInjective(s, t);
  }
}
