/**
 Which changes the checksum of a block does not notice: the multiples of the
 generator polynomial, the shortest of which have 33 bits.
 */
module BurstLimit {
  import opened Crc32
  import opened CrcTables
  import opened CrcPolynomial
  import opened FileBlock

  // ----- The register is linear in what it is fed -----

  lemma BitOfDifference(a: bool, b: bool)
    ensures Bit(a != b) == Xor(Bit(a), Bit(b))
  {
  }

  lemma FeedBitXor(c: bv32, d: bv32, a: bool, b: bool)
    ensures FeedBit(Xor(c, d), a != b) == Xor(FeedBit(c, a), FeedBit(d, b))
  {
    BitOfDifference(a, b);
    hide Xor, BitStep, Bit;
    var u, v := Bit(a), Bit(b);
    XorAssociates(c, d, Xor(u, v));
    XorAssociates(d, u, v);
    XorLaws(d, u, v);
    XorAssociates(u, d, v);
    XorAssociates(c, u, Xor(d, v));
    BitStepLinear(Xor(c, u), Xor(d, v));
  }

  lemma {:induction false} FeedBitsXor(c: bv32, d: bv32, s: seq<bool>, t: seq<bool>)
    requires |s| == |t|
    ensures FeedBits(Xor(c, d), Sum(s, t)) == Xor(FeedBits(c, s), FeedBits(d, t))
    decreases |s|
  {
    hide Xor, FeedBit;
    if s != [] {
      FeedBitXor(c, d, s[0], t[0]);
      FeedBitsXor(FeedBit(c, s[0]), FeedBit(d, t[0]), s[1..], t[1..]);
      assert Sum(s, t)[1..] == Sum(s[1..], t[1..]);
    }
  }

  // ----- What is not noticed -----

  lemma EqualIfNoDifference(a: bv32, b: bv32)
    ensures Xor(a, b) == 0 <==> a == b
  {
  }

  lemma NoInitialDifference(c: bv32)
    ensures Xor(c, c) == 0
  {
  }

  lemma NoCoefficients(c: bv32)
    ensures Coefficients(c, 32) == Zeros(32) <==> c == 0
  {
    ZeroCoefficients(32);
    if Coefficients(c, 32) == Zeros(32) {
      OnlyZero(c, 32);
      NothingLeft(c);
      ShiftedOut(c);
    }
    hide Coefficients;
  }

  lemma {:induction false} ZeroCoefficients(n: nat)
    ensures Coefficients(0, n) == Zeros(n)
  {
    ZeroBits();
    hide Odd, Half;
    if n > 0 {
      ZeroCoefficients(n - 1);
      assert Zeros(n) == [false] + Zeros(n - 1);
    }
  }

  lemma ZeroBits()
    ensures !Odd(0) && Half(0) == 0
  {
  }

  /** A word whose n lowest bits are clear is made of the others. */
  lemma {:induction false} OnlyZero(c: bv32, n: nat)
    requires Coefficients(c, n) == Zeros(n)
    ensures Doubled(Halved(c, n), n) == c
    decreases n
  {
    hide Odd, Half, Double;
    if n > 0 {
      assert Coefficients(c, n)[0] == Odd(c) && Coefficients(c, n)[1..] == Coefficients(Half(c), n - 1);
      assert Zeros(n)[1..] == Zeros(n - 1);
      OnlyZero(Half(c), n - 1);
      DoubleOfHalf(c);
    }
  }

  function Double(c: bv32): bv32 {
    c << 1
  }

  function Doubled(c: bv32, n: nat): bv32 {
    if n == 0 then c else Double(Doubled(c, n - 1))
  }

  lemma DoubleOfHalf(c: bv32)
    ensures !Odd(c) ==> Double(Half(c)) == c
  {
  }

  lemma {:induction false} DoubledZero(n: nat)
    ensures Doubled(0, n) == 0
  {
    DoubleZero();
    hide Double;
    if n > 0 { DoubledZero(n - 1); }
  }

  lemma DoubleZero()
    ensures Double(0) == 0
  {
  }

  lemma ShiftedOut(c: bv32)
    requires Doubled(Halved(c, 32), 32) == c && Halved(c, 32) == 0
    ensures c == 0
  {
    DoubledZero(32);
    hide Doubled, Halved;
  }

  /** The difference of two payloads. */
  function Difference(s: seq<byte>, t: seq<byte>): seq<bool>
    requires |s| == |t|
  {
    Sum(BitsOfBytes(s), BitsOfBytes(t))
  }

  /** Two payloads of the same length have the same checksum if and only if their
      difference, as a polynomial, is a multiple of the generator polynomial. */
  lemma UnnoticedExactly(crc: bv32, s: seq<byte>, t: seq<byte>)
    requires |s| == |t|
    ensures Crc(crc, s) == Crc(crc, t) <==> Remainder(Difference(s, t) + Zeros(32)) == Zeros(32)
  {
    var x, y, c := BitsOfBytes(s), BitsOfBytes(t), Not(crc);
    var d := Difference(s, t);
    FeedBitsXor(c, c, x, y);
    NoInitialDifference(c);
    EqualIfNoDifference(FeedBits(c, x), FeedBits(c, y));
    NotNot(FeedBits(c, x));
    NotNot(FeedBits(c, y));
    RegisterIsRemainder(0, d);
    NoCoefficients(FeedBits(0, d));
    ZeroCoefficients(32);
    assert Dividend(0, d) == d + Zeros(32);
    hide Xor, Not, FeedBits, BitsOfBytes, Coefficients, Remainder, Zeros;
  }

  // ----- The shortest of them -----

  /** A register that is fed its own bits only shifts. */
  lemma {:induction false} FeedsItself(c: bv32, n: nat)
    ensures FeedBits(c, Coefficients(c, n)) == Halved(c, n)
    decreases n
  {
    hide FeedBit, Odd, Half, Xor;
    if n > 0 {
      FeedBitCode(c, Odd(c));
      FeedsItself(Half(c), n - 1);
      assert Coefficients(c, n)[1..] == Coefficients(Half(c), n - 1);
    }
  }

  lemma FirstFed()
    ensures FeedBit(0, true) == POLY
  {
  }

  lemma PolynomialLeavesNothing()
    ensures FeedBits(0, P()) == 0
  {
    CoefficientsOfPoly();
    FeedsItself(POLY, 32);
    NothingLeft(POLY);
    FirstFed();
    hide Coefficients, Halved, FeedBit;
    assert P()[0];
  }

  /** y is x with the 33 coefficients of the generator polynomial added at a place. */
  ghost predicate DifferByP(x: seq<bool>, y: seq<bool>, from: nat) {
    && from + 33 <= |x| == |y|
    && x[..from] == y[..from] && y[from..from + 33] == Sum(x[from..from + 33], P()) && x[from + 33..] == y[from + 33..]
  }

  /** Such a change goes unnoticed, at whatever bit of whatever payload, so 32 bits is
      the longest burst that is always noticed. */
  lemma LongerBurstUnnoticed(crc: bv32, s: seq<byte>, t: seq<byte>, from: nat)
    requires DifferByP(BitsOfBytes(s), BitsOfBytes(t), from)
    ensures s != t && Crc(crc, s) == Crc(crc, t)
  {
    var x, y, c := BitsOfBytes(s), BitsOfBytes(t), Not(crc);
    var to := from + 33;
    assert x == x[..from] + x[from..to] + x[to..] && y == y[..from] + y[from..to] + y[to..];
    FeedBitsAppend(c, x[..from] + x[from..to], x[to..]);
    FeedBitsAppend(c, y[..from] + y[from..to], y[to..]);
    FeedBitsAppend(c, x[..from], x[from..to]);
    FeedBitsAppend(c, y[..from], y[from..to]);
    var d := FeedBits(c, x[..from]);
    FeedBitsXor(d, 0, x[from..to], P());
    PolynomialLeavesNothing();
    XorWithNothing(d);
    XorWithNothing(FeedBits(d, x[from..to]));
    assert y[from..to][0] != x[from..to][0] by { assert P()[0]; }
    hide FeedBits, Not, Xor;
  }

  lemma XorWithNothing(c: bv32)
    ensures Xor(c, 0) == c
  {
  }

  /** The changed block still validates. */
  lemma LongerBurstValidates(s: seq<byte>, t: seq<byte>, offset: bv64, little: bool, from: nat)
    requires |s| == |t| >= TRAILER && Validates(s, offset, little)
    requires var n := |s| - TRAILER;
      s[n..] == t[n..] && DifferByP(BitsOfBytes(s[..n]), BitsOfBytes(t[..n]), from)
    ensures s != t && Validates(t, offset, little)
  {
    hide Crc, BitsOfBytes, Decode32, Decode64, DifferByP;
    var n := |s| - TRAILER;
    LongerBurstUnnoticed(0, s[..n], t[..n], from);
    assert s[n..n + 4] == s[n..][..4] == t[n..][..4] == t[n..n + 4];
    assert s[n + 4..] == s[n..][4..] == t[n..][4..] == t[n + 4..];
  }

  /** There are such payloads: five bytes are enough. */
  lemma FiveBytes()
    ensures DifferByP(BitsOfBytes([0, 0, 0, 0, 0]), BitsOfBytes([0x41, 0x06, 0x71, 0xdb, 0x01]), 0)
  {
    var x, y := BitsOfBytes([0, 0, 0, 0, 0]), BitsOfBytes([0x41, 0x06, 0x71, 0xdb, 0x01]);
    FiveBytesOf(0, 0, 0, 0, 0);
    FiveBytesOf(0x41, 0x06, 0x71, 0xdb, 0x01);
    PatternBytes();
    hide BitsOfBytes, BitsOf;
    assert forall i :: 0 <= i < 40 ==> !x[i];
    assert forall i :: 0 <= i < 33 ==> y[i] == P()[i];
  }

  lemma FiveBytesOf(a: byte, b: byte, c: byte, d: byte, e: byte)
    ensures BitsOfBytes([a, b, c, d, e]) == BitsOf(a) + (BitsOf(b) + (BitsOf(c) + (BitsOf(d) + BitsOf(e))))
  {
    FirstByte([a, b, c, d, e]);
    FirstByte([a, b, c, d, e][1..]);
    FirstByte([a, b, c, d, e][2..]);
    FirstByte([a, b, c, d, e][3..]);
    FirstByte([a, b, c, d, e][4..]);
    var s := [a, b, c, d, e];
    assert s[1..][1..] == s[2..] && s[2..][1..] == s[3..] && s[3..][1..] == s[4..] && s[4..][1..] == [];
    assert BitsOfBytes([]) == [];
    hide BitsOfBytes, BitsOf;
    assert BitsOf(e) + [] == BitsOf(e);
  }

  lemma FirstByte(s: seq<byte>)
    requires s != []
    ensures BitsOfBytes(s) == BitsOf(s[0]) + BitsOfBytes(s[1..])
  {
  }

  lemma PatternBytes()
    ensures forall i :: 0 <= i < 8 ==> !BitsOf(0)[i]
    ensures forall i :: 0 <= i < 8 ==> BitsOf(0x41)[i] == P()[i]
    ensures forall i :: 0 <= i < 8 ==> BitsOf(0x06)[i] == P()[8 + i]
    ensures forall i :: 0 <= i < 8 ==> BitsOf(0x71)[i] == P()[16 + i]
    ensures forall i :: 0 <= i < 8 ==> BitsOf(0xdb)[i] == P()[24 + i]
    ensures BitsOf(0x01)[0] && P()[32] && forall i :: 1 <= i < 8 ==> !BitsOf(0x01)[i]
  {
    assert BitsOf(0x01) == [true, false, false, false, false, false, false, false];
  }
}
