/**
 The portable byte-wise form of CRC-32 keeps its register in a 64-bit
 `unsigned long`. It agrees with the 32-bit forms exactly when the initial value
 fits in 32 bits.
 */
module CrcBytewise {
  import opened Crc32
  import opened CrcTables

  function Low32(crc: bv64): bv32 {
    (crc & 0xffff_ffff) as bv32
  }

  function High32(crc: bv64): bv32 {
    (crc >> 32) as bv32
  }

  function Wide(c: bv32): bv64 {
    c as bv64
  }

  /** A 64-bit register from its two halves. */
  function Join(hi: bv32, lo: bv32): bv64 {
    ((hi as bv64) << 32) | (lo as bv64)
  }

  function WideIndex(c: bv64, b: byte): bv32 {
    ByteIndex(Low32(c), b)
  }

  function ByteIndex(c: bv32, b: byte): bv32 {
    LowByte(c ^ (b as bv32))
  }

  /** One byte through the 64-bit register. */
  function WideStep(c: bv64, b: byte): bv64 {
    AddDropped(Table(0, WideIndex(c, b)), c)
  }

  function AddDropped(t: bv32, c: bv64): bv64 {
    AddWide(t, c >> 8)
  }

  function AddWide(t: bv32, c: bv64): bv64 {
    Wide(t) ^ c
  }

  function FeedWide(c: bv64, s: seq<byte>): bv64
    decreases |s|
  {
    if |s| == 0 then c else FeedWide(WideStep(c, s[0]), s[1..])
  }

  function FlipLow(c: bv64): bv64 {
    c ^ 0xffff_ffff
  }

  function Bytewise(crc: bv64, s: seq<byte>): bv64 {
    FlipLow(FeedWide(FlipLow(crc), s))
  }

  lemma FeedWideAppend(c: bv64, s: seq<byte>, b: byte)
    ensures FeedWide(c, s + [b]) == WideStep(FeedWide(c, s), b)
    decreases |s|
  {
    hide WideStep;
    if |s| == 0 {
      assert s + [b] == [b];
      assert FeedWide(c, [b]) == FeedWide(WideStep(c, b), []);
    } else {
      FeedWideAppend(WideStep(c, s[0]), s[1..], b);
      assert (s + [b])[1..] == s[1..] + [b];
    }
  }

  lemma {:induction false} FeedWideSplit(c: bv64, s: seq<byte>, n: nat)
    requires n <= |s|
    ensures FeedWide(c, s) == FeedWide(FeedWide(c, s[..n]), s[n..])
    decreases n
  {
    hide WideStep;
    if n > 0 {
      FeedWideSplit(WideStep(c, s[0]), s[1..], n - 1);
      assert s[..n][1..] == s[1..][..n - 1] && s[n..] == s[1..][n - 1..];
    }
  }

  /** The next n bytes from pos on. */
  lemma FeedWideAt(c: bv64, s: seq<byte>, pos: nat, n: nat)
    requires pos + n <= |s|
    ensures FeedWide(c, s[pos..]) == FeedWide(FeedWide(c, s[pos..pos + n]), s[pos + n..])
  {
    hide FeedWide;
    FeedWideSplit(c, s[pos..], n);
    assert s[pos..][..n] == s[pos..pos + n] && s[pos..][n..] == s[pos + n..];
  }

  lemma FeedWideShort(c: bv64, b: byte)
    ensures FeedWide(c, []) == c && FeedWide(c, [b]) == WideStep(c, b)
  {
    hide WideStep;
  }

  lemma Halves(c: bv64)
    ensures Join(High32(c), Low32(c)) == c
  {
  }

  lemma JoinInjective(a: bv32, b: bv32, c: bv32, d: bv32)
    requires Join(a, b) == Join(c, d)
    ensures a == c && b == d
  {
  }

  lemma LowOfJoin(hi: bv32, lo: bv32)
    ensures Low32(Join(hi, lo)) == lo && Wide(lo) == Join(0, lo)
    ensures FlipLow(Join(hi, lo)) == Join(hi, Not(lo))
  {
  }

  /** The byte that the high half hands down to the low half. */
  function HandDown(hi: bv32): bv32 {
    hi << 24
  }

  lemma WordsDrop(hi: bv32, lo: bv32)
    ensures (((hi as bv64) << 32) | (lo as bv64)) >> 8
            == (((hi >> 8) as bv64) << 32) | (((lo >> 8) ^ (hi << 24)) as bv64)
  {
  }

  lemma DroppedHalves(hi: bv32, lo: bv32)
    ensures DropByte(hi) == hi >> 8 && Xor(DropByte(lo), HandDown(hi)) == (lo >> 8) ^ (hi << 24)
  {
  }

  lemma JoinDrops(hi: bv32, lo: bv32)
    ensures Join(hi, lo) >> 8 == Join(DropByte(hi), Xor(DropByte(lo), HandDown(hi)))
  {
    hide DropByte, Xor, HandDown;
    DroppedHalves(hi, lo);
    WordsDrop(hi, lo);
  }

  lemma WordsAdd(hi: bv32, lo: bv32, t: bv32)
    ensures (t as bv64) ^ (((hi as bv64) << 32) | (lo as bv64)) == ((hi as bv64) << 32) | ((t ^ lo) as bv64)
  {
  }

  lemma JoinAdds(hi: bv32, lo: bv32, t: bv32)
    ensures AddWide(t, Join(hi, lo)) == Join(hi, Xor(t, lo))
  {
    WordsAdd(hi, lo, t);
  }

  lemma JoinStep(hi: bv32, lo: bv32, t: bv32)
    ensures AddDropped(t, Join(hi, lo)) == Join(DropByte(hi), Xor(Xor(t, DropByte(lo)), HandDown(hi)))
  {
    hide Join, AddWide, Xor, DropByte, HandDown;
    JoinDrops(hi, lo);
    JoinAdds(DropByte(hi), Xor(DropByte(lo), HandDown(hi)), t);
    XorAssociates(t, DropByte(lo), HandDown(hi));
  }

  lemma WideStepOfJoin(hi: bv32, lo: bv32, b: byte)
    ensures WideStep(Join(hi, lo), b) == Join(DropByte(hi), Xor(ByteStep(lo, b), HandDown(hi)))
  {
    hide Join, Low32, Wide, Xor, DropByte, HandDown, Table, ByteIndex, AddDropped, ByteStep, FlipLow, Not;
    LowOfJoin(hi, lo);
    ByteStepByLookup(lo, b);
    JoinStep(hi, lo, Table(0, WideIndex(Join(hi, lo), b)));
  }

  lemma ByteStepByLookup(lo: bv32, b: byte)
    ensures ByteStep(lo, b) == Xor(Table(0, ByteIndex(lo, b)), DropByte(lo))
  {
    hide Table;
    ByteLookup(lo ^ (b as bv32));
    DropSame(lo, b);
  }

  lemma DropSame(lo: bv32, b: byte)
    ensures DropByte(lo ^ (b as bv32)) == DropByte(lo)
  {
  }

  // ----- The difference that an oversized initial value makes -----

  /** How far the two halves are from a register whose high half was zero. */
  datatype Drift = Drift(hi: bv32, lo: bv32)

  function DriftStep(d: Drift): Drift {
    Drift(DropByte(d.hi), Xor(Steps(d.lo, 8), HandDown(d.hi)))
  }

  function DriftSteps(d: Drift, n: nat): Drift {
    if n == 0 then d else DriftStep(DriftSteps(d, n - 1))
  }

  lemma {:induction false} FeedWideDrifts(hi: bv32, lo: bv32, s: seq<byte>)
    ensures FeedWide(Join(hi, lo), s) ==
            var d := DriftSteps(Drift(hi, 0), |s|); Join(d.hi, Xor(FeedBytes(lo, s), d.lo))
    decreases |s|
  {
    hide Join, Xor, DropByte, HandDown, Steps, ByteStep, WideStep;
    if |s| == 0 {
      XorLaws(lo, 0, 0);
    } else {
      var r, b := s[..|s| - 1], s[|s| - 1];
      assert s == r + [b];
      FeedWideDrifts(hi, lo, r);
      FeedWideAppend(Join(hi, lo), r, b);
      FeedBytesAppend(lo, r, [b]);
      var d, c := DriftSteps(Drift(hi, 0), |r|), FeedBytes(lo, r);
      assert FeedBytes(c, [b]) == FeedBytes(ByteStep(c, b), []);
      WideStepOfJoin(d.hi, Xor(c, d.lo), b);
      ByteStepLinear(c, d.lo, b);
      XorLaws(ByteStep(c, b), Steps(d.lo, 8), HandDown(d.hi));
    }
  }

  lemma ByteStepLinear(c: bv32, d: bv32, b: byte)
    ensures ByteStep(Xor(c, d), b) == Xor(ByteStep(c, b), Steps(d, 8))
  {
    hide Xor, Steps;
    var w := b as bv32;
    XorLaws(c, d, w);
    XorLaws(d, w, 0);
    XorLaws(c, w, d);
    StepsLinear(Xor(c, w), d, 8);
  }

  function ShiftedHigh(h: bv32, n: nat): Drift
    requires n <= 4
  {
    if n == 0 then Drift(h, 0) else if n == 1 then Drift(h >> 8, h << 24)
    else if n == 2 then Drift(h >> 16, h << 16) else if n == 3 then Drift(h >> 24, h << 8)
    else Drift(0, h)
  }

  /** The high half first moves down, byte by byte, untouched. */
  lemma {:induction false} HighMovesDown(h: bv32, n: nat)
    requires n <= 4
    ensures DriftSteps(Drift(h, 0), n) == ShiftedHigh(h, n)
  {
    hide Steps;
    if n > 0 {
      HighMovesDown(h, n - 1);
      NoFeedback(h, n - 1);
      EightShifts(ShiftedHigh(h, n - 1).lo);
      OneDown(h, n - 1);
    }
  }

  lemma NoFeedback(h: bv32, n: nat)
    requires n < 4
    ensures LowByte(ShiftedHigh(h, n).lo) == 0
  {
  }

  lemma OneDown(h: bv32, n: nat)
    requires n < 4
    ensures var d := ShiftedHigh(h, n);
            ShiftedHigh(h, n + 1) == Drift(DropByte(d.hi), Xor(DropByte(d.lo), HandDown(d.hi)))
  {
    hide Xor, DropByte, HandDown;
    match n {
      case 0 => FirstDown(h);
      case 1 => SecondDown(h);
      case 2 => ThirdDown(h);
      case _ => FourthDown(h);
    }
  }

  lemma FirstDown(h: bv32)
    ensures DropByte(h) == h >> 8 && Xor(DropByte(0), HandDown(h)) == h << 24
  {
  }

  lemma SecondDown(h: bv32)
    ensures DropByte(h >> 8) == h >> 16 && Xor(DropByte(h << 24), HandDown(h >> 8)) == h << 16
  {
  }

  lemma ThirdDown(h: bv32)
    ensures DropByte(h >> 16) == h >> 24 && Xor(DropByte(h << 16), HandDown(h >> 16)) == h << 8
  {
  }

  lemma FourthDown(h: bv32)
    ensures DropByte(h >> 24) == 0 && Xor(DropByte(h << 8), HandDown(h >> 24)) == h
  {
  }

  lemma ShiftedHighNonzero(h: bv32, n: nat)
    requires h != 0 && n <= 4
    ensures ShiftedHigh(h, n) != Drift(0, 0)
  {
  }

  lemma {:induction false} DriftNeverVanishes(h: bv32, n: nat)
    requires h != 0
    ensures DriftSteps(Drift(h, 0), n) != Drift(0, 0)
    ensures n >= 4 ==> DriftSteps(Drift(h, 0), n).hi == 0
  {
    hide Steps, Xor, DropByte, HandDown;
    if n <= 4 {
      HighMovesDown(h, n);
      ShiftedHighNonzero(h, n);
    } else {
      DriftNeverVanishes(h, n - 1);
      var d := DriftSteps(Drift(h, 0), n - 1);
      ZeroHandsDownNothing();
      ZeroSteps();
      XorLaws(Steps(d.lo, 8), 0, 0);
      if Steps(d.lo, 8) == 0 { StepsInjective(d.lo, 0, 8); }
    }
  }

  lemma ZeroHandsDownNothing()
    ensures DropByte(0) == 0 && HandDown(0) == 0
  {
  }

  lemma ZeroSteps()
    ensures Steps(0, 8) == 0
  {
    EightShifts(0);
  }

  lemma {:induction false} NoDrift(n: nat)
    ensures DriftSteps(Drift(0, 0), n) == Drift(0, 0)
  {
    hide Steps, Xor, DropByte, HandDown;
    if n > 0 {
      NoDrift(n - 1);
      ZeroHandsDownNothing();
      ZeroSteps();
      XorLaws(0, 0, 0);
    }
  }

  /** The 64-bit byte-wise form computes the checksum if and only if the value it
      continues from fits in 32 bits. */
  lemma BytewiseAgrees(crc: bv64, s: seq<byte>)
    ensures Bytewise(crc, s) == Wide(Crc(Low32(crc), s)) <==> High32(crc) == 0
  {
    hide Join, Low32, High32, Wide, FlipLow, Xor, Not, DriftSteps, FeedWide, FeedBytes, Crc;
    var hi, lo := High32(crc), Low32(crc);
    Halves(crc);
    LowOfJoin(hi, lo);
    FeedWideDrifts(hi, Not(lo), s);
    CrcIsBytewise(lo, s);
    var d, f := DriftSteps(Drift(hi, 0), |s|), FeedBytes(Not(lo), s);
    LowOfJoin(d.hi, Xor(f, d.lo));
    LowOfJoin(0, Not(f));
    XorLaws(f, 0, 0);
    if hi == 0 {
      NoDrift(|s|);
    } else {
      DriftNeverVanishes(hi, |s|);
      if Join(d.hi, Not(Xor(f, d.lo))) == Join(0, Not(f)) {
        JoinInjective(d.hi, Not(Xor(f, d.lo)), 0, Not(f));
        NotNot(Xor(f, d.lo));
        NotNot(f);
        XorCancels(f, d.lo, 0);
      }
    }
  }
}
