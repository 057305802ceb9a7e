/**
 The shift register against its mathematical meaning: remainders of polynomials
 over GF(2), by long division. A polynomial is the sequence of its coefficients,
 the highest power first.
 */
module CrcPolynomial {
  import opened Crc32
  import opened CrcTables

  /** The exponents of the generator polynomial of section 8 of RFC 1952. */
  const EXPONENTS: set<int> := {0, 1, 2, 4, 5, 7, 8, 10, 11, 12, 16, 22, 23, 26, 32}

  function P(): (p: seq<bool>)
    ensures |p| == 33 && forall i :: 0 <= i < 33 ==> p[i] == ((32 - i) in EXPONENTS)
  {
    seq(33, i => (32 - i) in EXPONENTS)
  }

  function Zeros(n: nat): (z: seq<bool>)
    ensures |z| == n && forall i :: 0 <= i < n ==> !z[i]
  {
    seq(n, i => false)
  }

  function Sum(a: seq<bool>, b: seq<bool>): (s: seq<bool>)
    requires |a| == |b|
    ensures |s| == |a| && forall i :: 0 <= i < |a| ==> s[i] == (a[i] != b[i])
  {
    seq(|a|, i requires 0 <= i < |a| => a[i] != b[i])
  }

  // ----- Long division -----

  /** One step: the leading term, if there is one, is cancelled by a multiple of P. */
  function Cancelled(a: seq<bool>): (r: seq<bool>)
    requires |a| > 32
    ensures |r| == |a| - 1
  {
    if a[0] then Sum(a, P() + Zeros(|a| - 33))[1..] else a[1..]
  }

  function Remainder(a: seq<bool>): (r: seq<bool>)
    requires |a| >= 32
    ensures |r| == 32
    decreases |a|
  {
    if |a| == 32 then a else Remainder(Cancelled(a))
  }

  function Quotient(a: seq<bool>): (q: seq<bool>)
    requires |a| >= 32
    ensures |q| == |a| - 32
    decreases |a|
  {
    if |a| == 32 then [] else [a[0]] + Quotient(Cancelled(a))
  }

  /** The product of q and P, term by term. */
  function Product(q: seq<bool>): (a: seq<bool>)
    ensures |a| == |q| + 32
  {
    if q == [] then Zeros(32)
    else Sum((if q[0] then P() else Zeros(33)) + Zeros(|q| - 1), [false] + Product(q[1..]))
  }

  /** q * P + r, for a remainder r of degree less than 32. */
  function Combined(q: seq<bool>, r: seq<bool>): (a: seq<bool>)
    requires |r| == 32
    ensures |a| == |q| + 32
  {
    Sum(Product(q), Zeros(|q|) + r)
  }

  lemma CombinedStep(q: seq<bool>, r: seq<bool>)
    requires |r| == 32 && q != []
    ensures Combined(q, r)[0] == q[0]
    ensures Cancelled(Combined(q, r)) == Combined(q[1..], r)
  {
    var a, rest := Combined(q, r), Combined(q[1..], r);
    var lead := (if q[0] then P() else Zeros(33)) + Zeros(|q| - 1);
    assert a[0] == q[0];
    forall j | 0 <= j < |rest| ensures Cancelled(a)[j] == rest[j] {
      assert (Zeros(|q|) + r)[j + 1] == (Zeros(|q| - 1) + r)[j];
      assert ([false] + Product(q[1..]))[j + 1] == Product(q[1..])[j];
      assert (P() + Zeros(|a| - 33))[j + 1] == (q[0] && lead[j + 1]) || !q[0];
    }
  }

  /** Division with remainder: there is exactly one way to write a polynomial as
      q * P + r, and long division finds it. */
  lemma {:induction false} DivisionIsUnique(q: seq<bool>, r: seq<bool>)
    requires |r| == 32
    ensures Quotient(Combined(q, r)) == q && Remainder(Combined(q, r)) == r
  {
    if q == [] {
      assert Combined(q, r) == r;
    } else {
      CombinedStep(q, r);
      DivisionIsUnique(q[1..], r);
    }
  }

  lemma {:induction false} DivisionHolds(a: seq<bool>)
    requires |a| >= 32
    ensures a == Combined(Quotient(a), Remainder(a))
    decreases |a|
  {
    var q, r := Quotient(a), Remainder(a);
    if |a| == 32 {
      assert Combined(q, r) == r;
    } else {
      DivisionHolds(Cancelled(a));
      CombinedStep(q, r);
      assert q[1..] == Quotient(Cancelled(a));
      CancelledInjective(a, Combined(q, r));
    }
  }

  lemma CancelledInjective(a: seq<bool>, b: seq<bool>)
    requires |a| == |b| > 32 && a[0] == b[0] && Cancelled(a) == Cancelled(b)
    ensures a == b
  {
    forall j | 1 <= j < |a| ensures a[j] == b[j] {
      assert Cancelled(a)[j - 1] == Cancelled(b)[j - 1];
    }
  }

  // ----- The register as a polynomial -----

  /** The coefficients in a register: its lowest bit belongs to the highest power. */
  function Coefficients(c: bv32, n: nat): (a: seq<bool>)
    ensures |a| == n
    decreases n
  {
    if n == 0 then [] else [Odd(c)] + Coefficients(Half(c), n - 1)
  }

  function Halved(c: bv32, n: nat): bv32
    decreases n
  {
    if n == 0 then c else Halved(Half(c), n - 1)
  }

  lemma {:induction false} CoefficientsAppend(c: bv32, m: nat, n: nat)
    ensures Coefficients(c, m + n) == Coefficients(c, m) + Coefficients(Halved(c, m), n)
    decreases m
  {
    hide Half, Odd;
    if m > 0 { CoefficientsAppend(Half(c), m - 1, n); }
  }

  lemma {:induction false} HalvedAdd(c: bv32, m: nat, n: nat)
    ensures Halved(c, m + n) == Halved(Halved(c, m), n)
    decreases m
  {
    hide Half;
    if m > 0 { HalvedAdd(Half(c), m - 1, n); }
  }

  lemma EightHalves(c: bv32)
    ensures Halved(c, 8) == DropByte(c)
  {
    EightHalfSteps(c);
    hide Half, DropByte;
    assert Halved(c, 8) == Halved(Half(Half(c)), 6);
    assert Halved(Half(Half(c)), 6) == Halved(Half(Half(Half(Half(c)))), 4);
  }

  lemma EightHalfSteps(c: bv32)
    ensures Half(Half(Half(Half(Half(Half(Half(Half(c)))))))) == DropByte(c)
  {
  }

  lemma NothingLeft(c: bv32)
    ensures Halved(c, 32) == 0
  {
    FourBytesGone(c);
    hide Half, DropByte;
    var c1, c2, c3 := DropByte(c), DropByte(DropByte(c)), DropByte(DropByte(DropByte(c)));
    EightHalves(c);
    EightHalves(c1);
    EightHalves(c2);
    EightHalves(c3);
    HalvedAdd(c, 8, 24);
    HalvedAdd(c1, 8, 16);
    HalvedAdd(c2, 8, 8);
  }

  lemma FourBytesGone(c: bv32)
    ensures DropByte(DropByte(DropByte(DropByte(c)))) == 0
  {
  }

  lemma HalfShifts(c: bv32)
    ensures Coefficients(Half(c), 32) == Coefficients(c, 32)[1..] + [false]
  {
    hide Half, Odd, Halved, Coefficients;
    CoefficientsAppend(c, 32, 1);
    NothingLeft(c);
    LastBit();
    FirstCoefficient(c, 33);
    var a := Coefficients(c, 32);
    assert [Odd(c)] + Coefficients(Half(c), 32) == a + [false];
    assert (a + [false])[1..] == a[1..] + [false];
  }

  lemma FirstCoefficient(c: bv32, n: nat)
    requires n > 0
    ensures Coefficients(c, n) == [Odd(c)] + Coefficients(Half(c), n - 1)
  {
    hide Half, Odd;
  }

  lemma LastBit()
    ensures Coefficients(0, 1) == [false]
  {
  }

  lemma {:induction false} CoefficientsOfXor(a: bv32, b: bv32, n: nat)
    ensures Coefficients(Xor(a, b), n) == Sum(Coefficients(a, n), Coefficients(b, n))
    decreases n
  {
    HalfOfXor(a, b);
    hide Half, Odd, Xor;
    if n > 0 { CoefficientsOfXor(Half(a), Half(b), n - 1); }
  }

  lemma CoefficientsOfPoly()
    ensures Coefficients(POLY, 32) == P()[1..]
  {
    PolyInBytes();
    hide Half, Odd, DropByte, Halved, Coefficients, PolyByte, P;
    forall i | 0 <= i < 32 ensures Coefficients(POLY, 32)[i] == ((31 - i) in EXPONENTS) {
      if i < 8 { assert Coefficients(POLY, 32)[i] == PolyByte(0)[i]; }
      else if i < 16 { assert Coefficients(POLY, 32)[i] == PolyByte(1)[i - 8]; }
      else if i < 24 { assert Coefficients(POLY, 32)[i] == PolyByte(2)[i - 16]; }
      else { assert Coefficients(POLY, 32)[i] == PolyByte(3)[i - 24]; }
    }
  }

  lemma PolyInBytes()
    ensures Coefficients(POLY, 32) == PolyByte(0) + (PolyByte(1) + (PolyByte(2) + PolyByte(3)))
  {
    PolyBytes();
    FourBytesOf(POLY);
    hide Coefficients, DropByte, PolyByte;
  }

  lemma FourBytesOf(c: bv32)
    ensures Coefficients(c, 32) ==
      Coefficients(c, 8) + (Coefficients(DropByte(c), 8) +
        (Coefficients(DropByte(DropByte(c)), 8) + Coefficients(DropByte(DropByte(DropByte(c))), 8)))
  {
    hide Half, Odd, DropByte, Coefficients;
    CoefficientsAppend(c, 8, 24);
    CoefficientsAppend(DropByte(c), 8, 16);
    CoefficientsAppend(DropByte(DropByte(c)), 8, 8);
    EightHalves(c);
    EightHalves(DropByte(c));
    EightHalves(DropByte(DropByte(c)));
    hide Halved;
  }

  /** The bytes of the pattern, from the lowest bit of the lowest byte. */
  function PolyByte(k: nat): (bits: seq<bool>)
    requires k < 4
    ensures |bits| == 8
    ensures forall i :: 0 <= i < 8 ==> bits[i] == ((31 - 8 * k - i) in EXPONENTS)
  {
    if k == 0 then [false, false, false, false, false, true, false, false]
    else if k == 1 then [true, true, false, false, false, false, false, true]
    else if k == 2 then [false, false, false, true, true, true, false, true]
    else [true, false, true, true, false, true, true, true]
  }

  lemma PolyBytes()
    ensures Coefficients(POLY, 8) == PolyByte(0)
    ensures Coefficients(DropByte(POLY), 8) == PolyByte(1)
    ensures Coefficients(DropByte(DropByte(POLY)), 8) == PolyByte(2)
    ensures Coefficients(DropByte(DropByte(DropByte(POLY))), 8) == PolyByte(3)
  {
    ByteCoefficients(POLY);
    ByteCoefficients(DropByte(POLY));
    ByteCoefficients(DropByte(DropByte(POLY)));
    ByteCoefficients(DropByte(DropByte(DropByte(POLY))));
  }

  lemma ByteCoefficients(c: bv32)
    ensures Coefficients(c, 8) ==
      [Odd(c), Odd(Half(c)), Odd(Half(Half(c))), Odd(Half(Half(Half(c)))), Odd(Half(Half(Half(Half(c))))),
       Odd(Half(Half(Half(Half(Half(c)))))), Odd(Half(Half(Half(Half(Half(Half(c))))))),
       Odd(Half(Half(Half(Half(Half(Half(Half(c))))))))]
  {
    hide Half, Odd;
    var d := Half(Half(Half(Half(c))));
    CoefficientsAppend(c, 4, 4);
    assert Halved(c, 4) == Halved(Half(Half(c)), 2) == d;
    FourCoefficients(c);
    FourCoefficients(d);
  }

  lemma FourCoefficients(c: bv32)
    ensures Coefficients(c, 4) == [Odd(c), Odd(Half(c)), Odd(Half(Half(c))), Odd(Half(Half(Half(c))))]
  {
    hide Half, Odd;
    assert Coefficients(c, 4) == [Odd(c)] + ([Odd(Half(c))] + Coefficients(Half(Half(c)), 2));
    assert Coefficients(Half(Half(c)), 2) == [Odd(Half(Half(c)))] + ([Odd(Half(Half(Half(c))))] + []);
  }

  // ----- The register holds the remainder -----

  /** What a bit-serial division divides: the message followed by 32 zeros, with the
      initial register added to its first 32 coefficients. */
  function Dividend(c: bv32, bits: seq<bool>): (a: seq<bool>)
    ensures |a| == |bits| + 32
  {
    Sum(bits + Zeros(32), Coefficients(c, 32) + Zeros(|bits|))
  }

  lemma DividendAt(c: bv32, bits: seq<bool>, j: nat)
    requires j < |bits| + 32
    ensures Dividend(c, bits)[j] == ((j < |bits| && bits[j]) != (j < 32 && Coefficients(c, 32)[j]))
  {
    hide Coefficients;
  }

  lemma CancelledAt(a: seq<bool>, j: nat)
    requires j + 1 < |a| && |a| > 32
    ensures Cancelled(a)[j] == (a[j + 1] != (a[0] && j < 32 && P()[j + 1]))
  {
  }

  lemma FeedBitCancels(c: bv32, bits: seq<bool>)
    requires bits != []
    ensures Cancelled(Dividend(c, bits)) == Dividend(FeedBit(c, bits[0]), bits[1..])
  {
    var a, c' := Dividend(c, bits), FeedBit(c, bits[0]);
    var b := Dividend(c', bits[1..]);
    hide Odd, FeedBit, Coefficients, Dividend, Cancelled, P;
    DividendAt(c, bits, 0);
    FedAt(c, bits[0], 0);
    forall j | 0 <= j < |b| ensures Cancelled(a)[j] == b[j] {
      CancelledAt(a, j);
      DividendAt(c, bits, j + 1);
      DividendAt(c', bits[1..], j);
      if j < 32 { FedAt(c, bits[0], j); }
    }
  }

  lemma FedAt(c: bv32, bit: bool, j: nat)
    requires j < 32
    ensures Coefficients(c, 32)[0] == Odd(c)
    ensures Coefficients(FeedBit(c, bit), 32)[j]
         == ((j < 31 && Coefficients(c, 32)[j + 1]) != (bit != Odd(c) && P()[j + 1]))
  {
    FeedBitCoefficients(c, bit);
    CoefficientsOfPoly();
    hide Odd, FeedBit, Coefficients, P;
  }

  /** A step moves the coefficients up, and adds P if the leading ones differ. */
  lemma FeedBitCoefficients(c: bv32, bit: bool)
    ensures Coefficients(c, 32)[0] == Odd(c)
    ensures var moved := Coefficients(c, 32)[1..] + [false];
      Coefficients(FeedBit(c, bit), 32) == if bit != Odd(c) then Sum(Coefficients(POLY, 32), moved) else moved
  {
    hide FeedBit, Xor, Half, Odd;
    HalfShifts(c);
    FeedBitCode(c, bit);
    CoefficientsOfXor(POLY, Half(c), 32);
  }

  lemma FeedBitCode(c: bv32, bit: bool)
    ensures FeedBit(c, bit) == if bit != Odd(c) then Xor(POLY, Half(c)) else Half(c)
  {
    FlipLowest(c);
    XorLaws(c, 0, 0);
    hide Odd, Half, Xor;
  }

  lemma FlipLowest(c: bv32)
    ensures Odd(Xor(c, 1)) == !Odd(c) && Half(Xor(c, 1)) == Half(c)
  {
  }

  /** After any bits, the register is the remainder of the division by P. */
  lemma {:induction false} RegisterIsRemainder(c: bv32, bits: seq<bool>)
    ensures Coefficients(FeedBits(c, bits), 32) == Remainder(Dividend(c, bits))
    decreases |bits|
  {
    hide Coefficients, FeedBit;
    if bits == [] {
      NothingFed(c);
    } else {
      FeedBitCancels(c, bits);
      RegisterIsRemainder(FeedBit(c, bits[0]), bits[1..]);
    }
  }

  lemma NothingFed(c: bv32)
    ensures Dividend(c, []) == Coefficients(c, 32)
  {
    hide Coefficients;
  }

  /** The checksum, before its final complement, is the remainder of the message times
      x^32, with the complemented initial value added to its leading coefficients. */
  lemma CrcIsRemainder(crc: bv32, s: seq<byte>)
    ensures Coefficients(Not(Crc(crc, s)), 32) == Remainder(Dividend(Not(crc), BitsOfBytes(s)))
  {
    NotNot(FeedBits(Not(crc), BitsOfBytes(s)));
    RegisterIsRemainder(Not(crc), BitsOfBytes(s));
  }
}
