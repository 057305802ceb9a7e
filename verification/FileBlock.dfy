/**
 The self-checking block of the file I/O benchmark: random payload, checksum of
 the payload, offset of the block. What validation accepts, and which changes it
 is guaranteed to notice.
 */
module FileBlock {
  import opened Crc32
  import opened CrcTables
  import opened CrcBytewise
  import opened CrcEngine

  const FILE_CHECKSUM_LENGTH: nat := 4
  const FILE_OFFSET_LENGTH: nat := 8
  const TRAILER: nat := FILE_CHECKSUM_LENGTH + FILE_OFFSET_LENGTH

  // ----- Integers in memory -----

  function Encode32(w: bv32, little: bool): (s: seq<byte>)
    ensures |s| == 4
  {
    var b0, b1, b2, b3 := ByteOf(w, 0), ByteOf(w, 1), ByteOf(w, 2), ByteOf(w, 3);
    if little then [b0, b1, b2, b3] else [b3, b2, b1, b0]
  }

  function ByteOf(w: bv32, k: nat): byte
    requires k < 4
  {
    ByteAtIsSmall(w, k);
    ByteAt(w, k) as byte
  }

  function Decode32(s: seq<byte>, little: bool): bv32
    requires |s| == 4
  {
    if little then LeWord(s) else BeWord(s)
  }

  function Encode64(w: bv64, little: bool): (s: seq<byte>)
    ensures |s| == 8
  {
    var hi, lo := Encode32(High32(w), little), Encode32(Low32(w), little);
    if little then lo + hi else hi + lo
  }

  function Decode64(s: seq<byte>, little: bool): bv64
    requires |s| == 8
  {
    if little then Join(Decode32(s[4..], true), Decode32(s[..4], true))
    else Join(Decode32(s[..4], false), Decode32(s[4..], false))
  }

  lemma Decode32Encode32(w: bv32, little: bool)
    ensures Decode32(Encode32(w, little), little) == w
  {
  }

  lemma Encode32Decode32(s: seq<byte>, little: bool)
    requires |s| == 4
    ensures Encode32(Decode32(s, little), little) == s
  {
    BytesOfWord(s[0], s[1], s[2], s[3]);
    BytesOfWord(s[3], s[2], s[1], s[0]);
    assert s == [s[0], s[1], s[2], s[3]];
  }

  lemma BytesOfWord(a: byte, b: byte, c: byte, d: byte)
    ensures var w := LeWord([a, b, c, d]);
            ByteOf(w, 0) == a && ByteOf(w, 1) == b && ByteOf(w, 2) == c && ByteOf(w, 3) == d
  {
  }

  lemma Decode64Encode64(w: bv64, little: bool)
    ensures Decode64(Encode64(w, little), little) == w
  {
    hide Decode32, Encode32, High32, Low32, Join;
    Decode32Encode32(High32(w), little);
    Decode32Encode32(Low32(w), little);
    Halves(w);
    var hi, lo := Encode32(High32(w), little), Encode32(Low32(w), little);
    assert (lo + hi)[..4] == lo && (lo + hi)[4..] == hi;
    assert (hi + lo)[..4] == hi && (hi + lo)[4..] == lo;
  }

  lemma Encode64Decode64(s: seq<byte>, little: bool)
    requires |s| == 8
    ensures Encode64(Decode64(s, little), little) == s
  {
    hide Decode32, Encode32, High32, Low32, Join;
    Encode32Decode32(s[..4], little);
    Encode32Decode32(s[4..], little);
    HalvesOfJoin(Decode32(s[4..], little), Decode32(s[..4], little));
    HalvesOfJoin(Decode32(s[..4], little), Decode32(s[4..], little));
    assert s == s[..4] + s[4..];
  }

  lemma HalvesOfJoin(hi: bv32, lo: bv32)
    ensures High32(Join(hi, lo)) == hi && Low32(Join(hi, lo)) == lo
  {
  }

  /** Byte k of a word, counting from the lowest. */
  function Byte64(w: bv64, k: nat): bv64
    requires k < 8
  {
    if k == 0 then w & 0xff else if k == 1 then (w >> 8) & 0xff
    else if k == 2 then (w >> 16) & 0xff else if k == 3 then (w >> 24) & 0xff
    else if k == 4 then (w >> 32) & 0xff else if k == 5 then (w >> 40) & 0xff
    else if k == 6 then (w >> 48) & 0xff else w >> 56
  }

  function Byte32(w: bv32, k: nat): bv64
    requires k < 4
  {
    ByteAt(w, k) as bv64
  }

  lemma LowBytes(w: bv64)
    ensures Byte32(Low32(w), 0) == Byte64(w, 0) && Byte32(Low32(w), 1) == Byte64(w, 1)
    ensures Byte32(Low32(w), 2) == Byte64(w, 2) && Byte32(Low32(w), 3) == Byte64(w, 3)
  {
  }

  lemma HighBytes(w: bv64)
    ensures Byte32(High32(w), 0) == Byte64(w, 4) && Byte32(High32(w), 1) == Byte64(w, 5)
    ensures Byte32(High32(w), 2) == Byte64(w, 6) && Byte32(High32(w), 3) == Byte64(w, 7)
  {
  }

  lemma ByteOfIsByte32(w: bv32, k: nat)
    requires k < 4
    ensures ByteOf(w, k) as bv64 == Byte32(w, k)
  {
    ByteAtIsSmall(w, k);
    SmallIsByte(ByteAt(w, k));
    hide ByteAt;
  }

  lemma SmallIsByte(x: bv32)
    requires x < 256
    ensures (x as byte) as bv64 == x as bv64
  {
  }

  lemma Encode32Bytes(w: bv32, little: bool, k: nat)
    requires k < 4
    ensures Encode32(w, little)[k] as bv64 == Byte32(w, if little then k else 3 - k)
  {
    hide ByteOf, Byte32;
    var j := if little then k else 3 - k;
    ByteOfIsByte32(w, j);
    assert Encode32(w, little)[k] == ByteOf(w, j) by {
      if j == 0 {} else if j == 1 {} else if j == 2 {}
    }
    hide Encode32;
  }

  lemma Encode64At(w: bv64, little: bool, k: nat)
    requires k < 8
    ensures Encode64(w, little)[k] ==
      Encode32(if little == (k < 4) then Low32(w) else High32(w), little)[if k < 4 then k else k - 4]
  {
    hide Encode32, Low32, High32;
  }

  lemma ByteOfHalf(w: bv64, p: nat)
    requires p < 8
    ensures Byte64(w, p) == if p < 4 then Byte32(Low32(w), p) else Byte32(High32(w), p - 4)
  {
    LowBytes(w);
    HighBytes(w);
    hide Byte32, Byte64, Low32, High32;
    if p == 0 {} else if p == 1 {} else if p == 2 {} else if p == 3 {}
    else if p == 4 {} else if p == 5 {} else if p == 6 {}
  }

  /** In memory, the lowest byte comes first or last. */
  lemma Encode64Bytes(w: bv64, little: bool, k: nat)
    requires k < 8
    ensures Encode64(w, little)[k] as bv64 == Byte64(w, if little then k else 7 - k)
  {
    hide Encode64, Encode32, Byte32, Byte64, Low32, High32;
    Encode64At(w, little, k);
    ByteOfHalf(w, if little then k else 7 - k);
    if little == (k < 4) {
      Encode32Bytes(Low32(w), little, if k < 4 then k else k - 4);
    } else {
      Encode32Bytes(High32(w), little, if k < 4 then k else k - 4);
    }
  }

  // ----- Blocks -----

  /** The bytes of a block with the given payload. */
  function Block(payload: seq<byte>, offset: bv64, little: bool): (s: seq<byte>)
    ensures |s| == |payload| + TRAILER
  {
    payload + Encode32(Crc(0, payload), little) + Encode64(offset, little)
  }

  /** What byte k of a block is: one of the payload, of its checksum, or of the offset. */
  lemma BlockLayout(payload: seq<byte>, offset: bv64, little: bool, k: nat)
    requires k < |payload| + TRAILER
    ensures var s, n := Block(payload, offset, little), |payload|;
      if k < n then s[k] == payload[k]
      else if k < n + FILE_CHECKSUM_LENGTH then
        s[k] as bv64 == Byte32(Crc(0, payload), if little then k - n else n + 3 - k)
      else s[k] as bv64 == Byte64(offset, if little then k - n - 4 else n + 11 - k)
  {
    var n, crc := |payload|, Crc(0, payload);
    hide Encode32, Encode64, Byte32, Byte64, Crc;
    if n <= k < n + 4 { Encode32Bytes(crc, little, k - n); }
    if n + 4 <= k { Encode64Bytes(offset, little, k - n - 4); }
  }

  /** The validation of a block of len bytes, as it is coded. */
  predicate Validates(s: seq<byte>, offset: bv64, little: bool)
    requires |s| >= TRAILER
  {
    var n := |s| - TRAILER;
    && Crc(0, s[..n]) == Decode32(s[n..n + 4], little)
    && offset == Decode64(s[n + 4..], little)
  }

  /** Validation accepts exactly the block that the payload and offset determine. */
  lemma ValidatesIffBlock(s: seq<byte>, offset: bv64, little: bool)
    requires |s| >= TRAILER
    ensures Validates(s, offset, little) <==> s == Block(s[..|s| - TRAILER], offset, little)
  {
    hide Crc, Encode32, Decode32, Encode64, Decode64;
    var n := |s| - TRAILER;
    var p, c, o := s[..n], s[n..n + 4], s[n + 4..];
    assert s == p + c + o;
    Encode32Decode32(c, little);
    Encode64Decode64(o, little);
    Decode32Encode32(Crc(0, p), little);
    Decode64Encode64(offset, little);
    var b := Block(p, offset, little);
    assert b[n..n + 4] == Encode32(Crc(0, p), little) && b[n + 4..] == Encode64(offset, little);
  }

  /** What has been filled validates, at its own offset and at no other. */
  lemma BlockValidatesAtItsOffset(payload: seq<byte>, offset: bv64, other: bv64, little: bool)
    ensures Validates(Block(payload, offset, little), other, little) <==> other == offset
  {
    hide Crc, Encode32, Encode64, Decode32, Decode64;
    var n := |payload|;
    var s, t := Block(payload, offset, little), Block(payload, other, little);
    assert s[..n] == payload;
    ValidatesIffBlock(s, other, little);
    assert s[n + 4..] == Encode64(offset, little) && t[n + 4..] == Encode64(other, little);
    Decode64Encode64(offset, little);
    Decode64Encode64(other, little);
  }

  // ----- Which changes are noticed -----

  /** Messages that differ, but only within a window of at most 32 bits. */
  ghost predicate ShortBurst(s: seq<bool>, t: seq<bool>) {
    s != t && exists from: nat, to: nat :: BurstWithin(s, t, from, to)
  }

  ghost predicate BurstWithin(s: seq<bool>, t: seq<bool>, from: nat, to: nat) {
    && from <= to <= |s| == |t| && to - from <= 32
    && s[..from] == t[..from] && s[to..] == t[to..]
  }

  lemma BurstChangesRegister(c: bv32, s: seq<bool>, t: seq<bool>)
    requires ShortBurst(s, t)
    ensures FeedBits(c, s) != FeedBits(c, t)
  {
    hide FeedBits;
    var from: nat, to: nat :| BurstWithin(s, t, from, to);
    var before, after := s[..from], s[to..];
    assert s == before + s[from..to] + after && t == before + t[from..to] + after;
    var d := FeedBits(c, before);
    FeedBitsAppend(c, before + s[from..to], after);
    FeedBitsAppend(c, before + t[from..to], after);
    FeedBitsAppend(c, before, s[from..to]);
    FeedBitsAppend(c, before, t[from..to]);
    if FeedBits(c, s) == FeedBits(c, t) {
      FeedBitsInjective(FeedBits(d, s[from..to]), FeedBits(d, t[from..to]), after);
      ShortWindowInjective(d, s[from..to], t[from..to]);
    }
  }

  lemma BurstChangesCrc(crc: bv32, s: seq<byte>, t: seq<byte>)
    requires ShortBurst(BitsOfBytes(s), BitsOfBytes(t))
    ensures Crc(crc, s) != Crc(crc, t)
  {
    hide FeedBits, Not, BitsOfBytes;
    BurstChangesRegister(Not(crc), BitsOfBytes(s), BitsOfBytes(t));
    NotNot(FeedBits(Not(crc), BitsOfBytes(s)));
    NotNot(FeedBits(Not(crc), BitsOfBytes(t)));
  }

  /** If a block validates, every other byte string of its length that keeps the
      payload, or that keeps the trailer and changes the payload by a burst of at
      most 32 bits, fails validation at the same offset. */
  lemma CorruptionIsNoticed(s: seq<byte>, t: seq<byte>, offset: bv64, little: bool)
    requires |s| == |t| >= TRAILER && s != t && Validates(s, offset, little)
    requires var n := |s| - TRAILER;
             || s[..n] == t[..n]
             || (s[n..] == t[n..] && ShortBurst(BitsOfBytes(s[..n]), BitsOfBytes(t[..n])))
    ensures !Validates(t, offset, little)
  {
    hide Crc, BitsOfBytes, Decode32, Decode64, Block;
    var n := |s| - TRAILER;
    if s[..n] == t[..n] {
      ValidatesIffBlock(s, offset, little);
      ValidatesIffBlock(t, offset, little);
    } else {
      BurstChangesCrc(0, s[..n], t[..n]);
      assert s[n..n + 4] == s[n..][..4] == t[n..][..4] == t[n..n + 4];
    }
  }

  lemma {:induction false} BitsOfBytesAppend(s: seq<byte>, t: seq<byte>)
    ensures BitsOfBytes(s + t) == BitsOfBytes(s) + BitsOfBytes(t)
  {
    hide BitsOf;
    if |s| == 0 {
      assert s + t == t;
    } else {
      BitsOfBytesAppend(s[1..], t);
      assert (s + t)[1..] == s[1..] + t;
      assert BitsOfBytes(s + t) == BitsOf(s[0]) + (BitsOfBytes(s[1..]) + BitsOfBytes(t));
    }
  }

  lemma BitsOfInjective(a: byte, b: byte)
    requires BitsOf(a) == BitsOf(b)
    ensures a == b
  {
    assert forall k :: 0 <= k < 8 ==> BitsOf(a)[k] == BitsOf(b)[k];
    var x := BitsOf(a);
    assert x[0] == (b & 1 != 0) && x[1] == (b & 2 != 0) && x[2] == (b & 4 != 0) && x[3] == (b & 8 != 0);
    assert x[4] == (b & 16 != 0) && x[5] == (b & 32 != 0) && x[6] == (b & 64 != 0) && x[7] == (b & 128 != 0);
  }

  lemma {:induction false} BitsOfBytesInjective(s: seq<byte>, t: seq<byte>)
    requires |s| == |t| && BitsOfBytes(s) == BitsOfBytes(t)
    ensures s == t
  {
    hide BitsOf;
    if |s| > 0 {
      var x, y := BitsOfBytes(s), BitsOfBytes(t);
      assert x[..8] == BitsOf(s[0]) && x[8..] == BitsOfBytes(s[1..]);
      assert y[..8] == BitsOf(t[0]) && y[8..] == BitsOfBytes(t[1..]);
      BitsOfInjective(s[0], t[0]);
      BitsOfBytesInjective(s[1..], t[1..]);
      assert s == [s[0]] + s[1..] && t == [t[0]] + t[1..];
    }
  }

  /** In particular, a change confined to four consecutive bytes is a short burst. */
  lemma FourBytesAreShort(a: seq<byte>, u: seq<byte>, v: seq<byte>, z: seq<byte>)
    requires |u| == |v| <= 4 && u != v
    ensures ShortBurst(BitsOfBytes(a + u + z), BitsOfBytes(a + v + z))
  {
    hide BitsOfBytes;
    BitsOfBytesAppend(a + u, z);
    BitsOfBytesAppend(a, u);
    BitsOfBytesAppend(a + v, z);
    BitsOfBytesAppend(a, v);
    if BitsOfBytes(u) == BitsOfBytes(v) { BitsOfBytesInjective(u, v); }
    SplicedBurst(BitsOfBytes(a), BitsOfBytes(u), BitsOfBytes(v), BitsOfBytes(z));
  }

  lemma SplicedBurst(x: seq<bool>, p: seq<bool>, q: seq<bool>, y: seq<bool>)
    requires |p| == |q| <= 32 && p != q
    ensures ShortBurst(x + p + y, x + q + y)
  {
    var s, t := x + p + y, x + q + y;
    assert s[|x|..|x| + |p|] == p && t[|x|..|x| + |p|] == q;
    assert s[..|x|] == x == t[..|x|];
    assert s[|x| + |p|..] == y == t[|x| + |p|..];
    assert BurstWithin(s, t, |x|, |x| + |p|);
  }

  // ----- Filling and validating a buffer in place -----

  method FillBuffer(table: CrcTable, buf: array<byte>, len: nat, offset: bv64, random: seq<byte>, addr: nat,
      little: bool)
    requires table.Ready() && TRAILER <= len <= buf.Length && |random| == len - TRAILER
    modifies buf
    ensures buf[..len] == Block(random, offset, little) && buf[len..] == old(buf[len..])
  {
    hide Crc, Encode32, Encode64, Low32, Wide;
    var i := 0;
    while i < len - TRAILER
      invariant i <= len - TRAILER && buf[..i] == random[..i] && buf[len..] == old(buf[len..])
    {
      buf[i] := random[i];
      i := i + 1;
    }
    assert buf[..i] == random;
    var crc := table.Crc32(0, true, buf[..i], addr, true, little);
    LowOfWide(Crc(Low32(0), random));
    PutTrailer(buf, i, Encode32(Low32(crc), little), Encode64(offset, little));
  }

  /** Stores the checksum and the offset behind the payload. */
  method PutTrailer(buf: array<byte>, pos: nat, sum: seq<byte>, off: seq<byte>)
    requires |sum| == FILE_CHECKSUM_LENGTH && |off| == FILE_OFFSET_LENGTH && pos + TRAILER <= buf.Length
    modifies buf
    ensures buf[..pos + TRAILER] == old(buf[..pos]) + sum + off
    ensures buf[pos + TRAILER..] == old(buf[pos + TRAILER..])
  {
    Store(buf, pos, sum);
    ghost var s := buf[..];
    assert s[..pos + 4] == old(buf[..pos]) + sum && s[pos + TRAILER..] == old(buf[pos + TRAILER..]);
    Store(buf, pos + FILE_CHECKSUM_LENGTH, off);
    assert buf[..pos + TRAILER] == s[..pos + 4] + off;
  }

  lemma LowOfWide(c: bv32)
    ensures Low32(Wide(c)) == c && Low32(0) == 0
  {
  }

  /** Write the bytes s at position pos. */
  method Store(buf: array<byte>, pos: nat, s: seq<byte>)
    requires pos + |s| <= buf.Length
    modifies buf
    ensures buf[..] == old(buf[..pos]) + s + old(buf[pos + |s|..])
  {
    for k := 0 to |s|
      invariant buf[..pos + k] == old(buf[..pos]) + s[..k] && buf[pos + k..] == old(buf[pos + k..])
    {
      buf[pos + k] := s[k];
    }
  }

  /** 0 if the block is intact, 1 otherwise. */
  method ValidateBuffer(table: CrcTable, buf: array<byte>, len: nat, offset: bv64, addr: nat, little: bool)
    returns (rc: int)
    requires table.Ready() && TRAILER <= len <= buf.Length
    ensures rc == if Validates(buf[..len], offset, little) then 0 else 1
  {
    hide Crc, Decode32, Decode64, Low32, Wide;
    var cs_offset := len - TRAILER;
    ghost var s := buf[..len];
    var crc := table.Crc32(0, true, buf[..cs_offset], addr, true, little);
    LowOfWide(Crc(Low32(0), buf[..cs_offset]));
    var checksum := Low32(crc);
    assert s[..cs_offset] == buf[..cs_offset] && s[cs_offset..cs_offset + 4] == buf[cs_offset..cs_offset + 4];
    assert s[cs_offset + 4..] == buf[cs_offset + 4..len];
    if checksum != Decode32(buf[cs_offset..cs_offset + FILE_CHECKSUM_LENGTH], little) {
      return 1;
    }
    if offset != Decode64(buf[cs_offset + FILE_CHECKSUM_LENGTH..len], little) {
      return 1;
    }
    return 0;
  }
}
