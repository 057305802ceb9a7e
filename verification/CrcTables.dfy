/**
 The byte- and word-at-a-time forms of CRC-32: the lookup tables, the two
 byte orders, and the proofs that each form is the bit-serial register.
 */
module CrcTables {
  import opened Crc32

  // ----- One byte at a time -----

  function ByteStep(c: bv32, b: byte): bv32 {
    Steps(Xor(c, b as bv32), 8)
  }

  function FeedBytes(c: bv32, s: seq<byte>): bv32
    decreases |s|
  {
    if |s| == 0 then c else FeedBytes(ByteStep(c, s[0]), s[1..])
  }

  /** The word made of a byte below 24 further bits. */
  function Below(b: byte, w: bv32): bv32 {
    (w << 8) ^ (b as bv32)
  }

  lemma WordOfByte(b: byte, rest: seq<bool>)
    ensures Word(BitsOf(b) + rest) == Below(b, Word(rest))
  {
    var s := BitsOf(b) + rest;
    assert s[8..] == rest;
    WordDrop(s, 7); WordDrop(s, 6); WordDrop(s, 5); WordDrop(s, 4);
    WordDrop(s, 3); WordDrop(s, 2); WordDrop(s, 1); WordDrop(s, 0);
    EightBits(b, Word(rest));
    assert s[0..] == s;
  }

  lemma WordDrop(s: seq<bool>, i: nat)
    requires i < |s|
    ensures Word(s[i..]) == Xor(Double(Word(s[i + 1..])), Bit(s[i]))
  {
    assert s[i..][1..] == s[i + 1..];
  }

  function PushBit(w: bv32, bit: bool): bv32 {
    Xor(Double(w), Bit(bit))
  }

  lemma EightBits(b: byte, w: bv32)
    ensures var s := BitsOf(b);
            PushBit(PushBit(PushBit(PushBit(PushBit(PushBit(PushBit(PushBit(w, s[7]), s[6]), s[5]), s[4]), s[3]), s[2]),
                s[1]), s[0])
            == Below(b, w)
  {
  }

  lemma ByteIsBits(c: bv32, b: byte)
    ensures FeedBits(c, BitsOf(b)) == ByteStep(c, b)
  {
    hide Xor, Below, BitsOf, FeedBits, Steps;
    FeedBitsIsSteps(c, BitsOf(b));
    WordOfByte(b, []);
    assert BitsOf(b) + [] == BitsOf(b);
    BelowNothing(b);
  }

  lemma BelowNothing(b: byte)
    ensures Below(b, 0) == b as bv32
  {
  }

  /** The byte-wise register is the bit-serial one. */
  lemma {:induction false} FeedBytesIsFeedBits(c: bv32, s: seq<byte>)
    ensures FeedBytes(c, s) == FeedBits(c, BitsOfBytes(s))
    decreases |s|
  {
    hide ByteStep, BitsOf, FeedBit;
    if |s| > 0 {
      ByteIsBits(c, s[0]);
      FeedBytesIsFeedBits(ByteStep(c, s[0]), s[1..]);
      FeedBitsAppend(c, BitsOf(s[0]), BitsOfBytes(s[1..]));
    }
  }

  lemma {:induction false} FeedBytesAppend(c: bv32, s: seq<byte>, t: seq<byte>)
    ensures FeedBytes(c, s + t) == FeedBytes(FeedBytes(c, s), t)
    decreases |s|
  {
    hide ByteStep;
    if |s| == 0 {
      assert s + t == t;
    } else {
      FeedBytesAppend(ByteStep(c, s[0]), s[1..], t);
      assert (s + t)[1..] == s[1..] + t;
    }
  }

  lemma CrcIsBytewise(crc: bv32, s: seq<byte>)
    ensures Crc(crc, s) == Not(FeedBytes(Not(crc), s))
  {
    hide FeedBytes, FeedBits, Not;
    FeedBytesIsFeedBits(Not(crc), s);
  }

  /** A checksum can be continued: the checksum of a split buffer does not
      depend on where it is split. */
  lemma CrcContinues(crc: bv32, s: seq<byte>, t: seq<byte>)
    ensures Crc(Crc(crc, s), t) == Crc(crc, s + t)
  {
    hide FeedBytes, Crc, Not;
    CrcIsBytewise(crc, s);
    CrcIsBytewise(Crc(crc, s), t);
    CrcIsBytewise(crc, s + t);
    FeedBytesAppend(Not(crc), s, t);
    NotNot(FeedBytes(Not(crc), s));
  }

  /** The checksum of the digits 1 to 9, by which implementations are compared. */
  lemma CheckValue()
    ensures Crc(0, [0x31, 0x32, 0x33, 0x34, 0x35, 0x36, 0x37, 0x38, 0x39]) == 0xcbf43926
  {
    var s: seq<byte> := [0x31, 0x32, 0x33, 0x34, 0x35, 0x36, 0x37, 0x38, 0x39];
    CrcIsBytewise(0, s);
    NineSteps();
    hide ByteStep, Crc;
    var c := Not(0);
    assert FeedBytes(c, s) == FeedBytes(ByteStep(c, s[0]), s[1..]);
    assert s[1..][0] == 0x32 && s[1..][1..] == s[2..];
    assert s[2..][0] == 0x33 && s[2..][1..] == s[3..];
    assert s[3..][0] == 0x34 && s[3..][1..] == s[4..];
    assert s[4..][0] == 0x35 && s[4..][1..] == s[5..];
    assert s[5..][0] == 0x36 && s[5..][1..] == s[6..];
    assert s[6..][0] == 0x37 && s[6..][1..] == s[7..];
    assert s[7..][0] == 0x38 && s[7..][1..] == s[8..];
    assert s[8..][0] == 0x39 && s[8..][1..] == s[9..];
    assert FeedBytes(0x340bc6d9, s[9..]) == 0x340bc6d9;
    assert FeedBytes(0x651f2550, s[8..]) == 0x340bc6d9;
    assert FeedBytes(0xaffc9660, s[7..]) == 0x340bc6d9;
    assert FeedBytes(0xf68d2c9e, s[6..]) == 0x340bc6d9;
    assert FeedBytes(0x340ac5e3, s[5..]) == 0x340bc6d9;
    assert FeedBytes(0x641c1f5c, s[4..]) == 0x340bc6d9;
    assert FeedBytes(0x77b79c2d, s[3..]) == 0x340bc6d9;
    assert FeedBytes(0xb0acbb32, s[2..]) == 0x340bc6d9;
    assert FeedBytes(0x7c231048, s[1..]) == 0x340bc6d9;
    assert FeedBytes(0xffffffff, s[0..]) == 0x340bc6d9;
    assert s[0..] == s;
  }

  lemma NineSteps()
    ensures ByteStep(0xffffffff, 0x31) == 0x7c231048
    ensures ByteStep(0x7c231048, 0x32) == 0xb0acbb32
    ensures ByteStep(0xb0acbb32, 0x33) == 0x77b79c2d
    ensures ByteStep(0x77b79c2d, 0x34) == 0x641c1f5c
    ensures ByteStep(0x641c1f5c, 0x35) == 0x340ac5e3
    ensures ByteStep(0x340ac5e3, 0x36) == 0xf68d2c9e
    ensures ByteStep(0xf68d2c9e, 0x37) == 0xaffc9660
    ensures ByteStep(0xaffc9660, 0x38) == 0x651f2550
    ensures ByteStep(0x651f2550, 0x39) == 0x340bc6d9
  {
  }

  // ----- Tables -----

  function LowByte(c: bv32): bv32 {
    c & 0xff
  }

  function DropByte(c: bv32): bv32 {
    c >> 8
  }

  /** Entry x of table k: the register x after k + 1 zero bytes. */
  function Table(k: nat, x: bv32): bv32 {
    Steps(x, 8 * (k + 1))
  }

  lemma EightShifts(c: bv32)
    requires LowByte(c) == 0
    ensures Steps(c, 8) == DropByte(c)
  {
    EightBitSteps(c);
    EightSteps(c);
  }

  lemma EightBitSteps(c: bv32)
    requires LowByte(c) == 0
    ensures BitStep(BitStep(BitStep(BitStep(BitStep(BitStep(BitStep(BitStep(c)))))))) == DropByte(c)
  {
  }

  lemma EightSteps(c: bv32)
    ensures Steps(c, 8) == BitStep(BitStep(BitStep(BitStep(BitStep(BitStep(BitStep(BitStep(c))))))))
  {
    hide BitStep;
    assert Steps(c, 8) == Steps(BitStep(BitStep(c)), 6);
    assert Steps(BitStep(BitStep(c)), 6) == Steps(BitStep(BitStep(BitStep(BitStep(c)))), 4);
  }

  lemma SplitLowByte(c: bv32)
    ensures c == Xor(LowByte(c), c & 0xffff_ff00)
    ensures LowByte(c & 0xffff_ff00) == 0 && DropByte(c & 0xffff_ff00) == DropByte(c)
  {
  }

  /** The lookup that replaces eight bit steps. */
  lemma ByteLookup(c: bv32)
    ensures Steps(c, 8) == Xor(Table(0, LowByte(c)), DropByte(c))
  {
    hide Xor, LowByte, DropByte;
    SplitLowByte(c);
    StepsLinear(LowByte(c), c & 0xffff_ff00, 8);
    EightShifts(c & 0xffff_ff00);
  }

  /** One byte of a word goes through the table of its distance to the end. */
  lemma Slice(x: bv32, n: nat)
    ensures Steps(x, 8 * (n + 1)) == Xor(Table(n, LowByte(x)), Steps(DropByte(x), 8 * n))
  {
    hide Xor, LowByte, DropByte, BitStep;
    ByteLookup(x);
    StepsAdd(x, 8, 8 * n);
    StepsLinear(Table(0, LowByte(x)), DropByte(x), 8 * n);
    StepsAdd(LowByte(x), 8, 8 * n);
  }

  /** Byte k of a word, from the lowest. */
  function ByteAt(x: bv32, k: nat): bv32
    requires k < 4
  {
    if k == 0 then x & 0xff else if k == 1 then (x >> 8) & 0xff
    else if k == 2 then (x >> 16) & 0xff else x >> 24
  }

  lemma ByteAtIsSmall(x: bv32, k: nat)
    requires k < 4
    ensures ByteAt(x, k) <= 0xff
  {
  }

  /** Four lookups replace 32 bit steps. */
  lemma WordLookup(x: bv32)
    ensures Steps(x, 32) == Xor(Xor(Xor(Table(3, ByteAt(x, 0)), Table(2, ByteAt(x, 1))), Table(1, ByteAt(x, 2))),
                                Table(0, ByteAt(x, 3)))
  {
    hide Xor, LowByte, DropByte, ByteAt, BitStep, Steps, Table;
    var y, z := DropByte(x), DropByte(DropByte(x));
    Slice(x, 3);
    Slice(y, 2);
    Slice(z, 1);
    DropBytes(x);
    LastByte(DropByte(z));
    var a, b, c, d := Table(3, ByteAt(x, 0)), Table(2, ByteAt(x, 1)), Table(1, ByteAt(x, 2)), Table(0, ByteAt(x, 3));
    XorAssociates(a, b, Xor(c, d));
    XorAssociates(Xor(a, b), c, d);
  }

  lemma LastByte(x: bv32)
    ensures Table(0, x) == Steps(x, 8)
  {
  }

  lemma DropBytes(x: bv32)
    ensures ByteAt(x, 0) == LowByte(x) && ByteAt(x, 1) == LowByte(DropByte(x))
    ensures ByteAt(x, 2) == LowByte(DropByte(DropByte(x))) && ByteAt(x, 3) == DropByte(DropByte(DropByte(x)))
  {
  }

  /** Four bytes as a little-endian word. */
  function LeWord(s: seq<byte>): bv32
    requires |s| == 4
  {
    (s[0] as bv32) | ((s[1] as bv32) << 8) | ((s[2] as bv32) << 16) | ((s[3] as bv32) << 24)
  }

  /** Four bytes as a big-endian word. */
  function BeWord(s: seq<byte>): bv32
    requires |s| == 4
  {
    (s[3] as bv32) | ((s[2] as bv32) << 8) | ((s[1] as bv32) << 16) | ((s[0] as bv32) << 24)
  }

  lemma FourBytes(a: byte, b: byte, c: byte, d: byte)
    ensures Below(a, Below(b, Below(c, Below(d, 0)))) == LeWord([a, b, c, d])
  {
  }

  lemma BitsOfFour(s: seq<byte>)
    requires |s| == 4
    ensures BitsOfBytes(s) == BitsOf(s[0]) + (BitsOf(s[1]) + (BitsOf(s[2]) + (BitsOf(s[3]) + [])))
  {
    hide BitsOf;
    var s1, s2, s3 := s[1..], s[2..], s[3..];
    assert s1[1..] == s2 && s2[1..] == s3 && s3[1..] == [];
    assert BitsOfBytes(s3) == BitsOf(s[3]) + [];
    assert BitsOfBytes(s2) == BitsOf(s[2]) + BitsOfBytes(s3);
    assert BitsOfBytes(s1) == BitsOf(s[1]) + BitsOfBytes(s2);
  }

  /** Four bytes enter the register as one word. */
  lemma FeedWord(c: bv32, s: seq<byte>)
    requires |s| == 4
    ensures FeedBytes(c, s) == Steps(Xor(c, LeWord(s)), 32)
  {
    hide Xor, LeWord, Below, BitsOf, FeedBits, Steps;
    var b0, b1, b2, b3 := BitsOf(s[0]), BitsOf(s[1]), BitsOf(s[2]), BitsOf(s[3]);
    FeedBytesIsFeedBits(c, s);
    BitsOfFour(s);
    FeedBitsIsSteps(c, BitsOfBytes(s));
    WordOfByte(s[0], b1 + (b2 + (b3 + [])));
    WordOfByte(s[1], b2 + (b3 + []));
    WordOfByte(s[2], b3 + []);
    WordOfByte(s[3], []);
    FourBytes(s[0], s[1], s[2], s[3]);
    assert s == [s[0], s[1], s[2], s[3]];
  }

  // ----- Byte reversal -----

  /** The macro that generates the byte-reversed tables. */
  function Rev(w: bv32): bv32 {
    (w >> 24) + ((w >> 8) & 0xff00) + ((w & 0xff00) << 8) + ((w & 0xff) << 24)
  }

  /** A word with its four bytes in the opposite order. */
  function Reverse(w: bv32): bv32 {
    (w >> 24) | ((w >> 8) & 0xff00) | ((w & 0xff00) << 8) | (w << 24)
  }

  lemma RevIsReverse(w: bv32)
    ensures Rev(w) == Reverse(w)
  {
  }

  lemma ReverseTwice(w: bv32)
    ensures Reverse(Reverse(w)) == w
  {
  }

  lemma ReverseOfXor(a: bv32, b: bv32)
    ensures Reverse(Xor(a, b)) == Xor(Reverse(a), Reverse(b))
  {
  }

  lemma ReverseOfNot(a: bv32)
    ensures Reverse(a ^ 0xffff_ffff) == Reverse(a) ^ 0xffff_ffff
  {
  }

  lemma ReverseOfWord(s: seq<byte>)
    requires |s| == 4
    ensures Reverse(LeWord(s)) == BeWord(s)
  {
  }

  lemma ReverseOfDrop(x: bv32)
    ensures Reverse(x >> 8) == Reverse(x) << 8
  {
  }

  lemma ReverseMovesBytes(x: bv32, k: nat)
    requires k < 4
    ensures ByteAt(Reverse(x), k) == ByteAt(x, 3 - k)
  {
  }
}
