/**
 CRC-32 as it is computed: the tables filled in place, and the little-endian and
 big-endian loops over bytes, words, and eight-word blocks.
 */
module CrcEngine {
  import opened Crc32
  import opened CrcTables
  import opened CrcBytewise

  // ----- The polynomial, assembled from the exponents of its terms -----

  const TERMS: seq<bv6> := [0, 1, 2, 4, 5, 7, 8, 10, 11, 12, 16, 22, 23, 26]

  /** The pattern made of the first n terms. */
  function Pattern(n: nat): bv32
    requires n <= |TERMS|
  {
    if n == 0 then 0 else Pattern(n - 1) | TermBit(TERMS[n - 1])
  }

  function TermBit(e: bv6): bv32 {
    if e <= 31 then 1 << (31 - e) else 0
  }

  lemma PatternIsPoly()
    ensures Pattern(14) == POLY
  {
    assert Pattern(4) == 0xe8000000;
    assert Pattern(8) == 0xeda00000;
    assert Pattern(12) == 0xedb88200;
  }

  // ----- Table contents -----

  function IndexWord(n: nat): bv32
    requires n < 256
  {
    n as bv32
  }

  lemma IndexOf(x: bv32)
    requires x <= 0xff
    ensures 0 <= x as int < 256 && IndexWord(x as int) == x
  {
    WordThroughInt(x);
  }

  lemma WordThroughInt(x: bv32)
    ensures (x as int) as bv32 == x
  {
  }

  lemma LowByteIsSmall(x: bv32)
    ensures LowByte(x) <= 0xff && x >> 24 <= 0xff
  {
  }

  lemma ByteIndexIsSmall(c: bv32, b: byte)
    ensures ByteIndex(c, b) <= 0xff
  {
  }

  lemma BitStepCode(c: bv32)
    ensures BitStep(c) == if c & 1 == 1 then POLY ^ (c >> 1) else c >> 1
  {
  }

  lemma NextTable(k: nat, x: bv32)
    requires k > 0
    ensures Table(k, x) == Table(0, LowByte(Table(k - 1, x))) ^ (Table(k - 1, x) >> 8)
  {
    StepsAdd(x, 8 * k, 8);
    ByteLookup(Table(k - 1, x));
  }

  // ----- Feeding a prefix -----

  lemma FeedNothing(c: bv32, s: seq<byte>)
    ensures FeedBytes(c, s[..0]) == c
  {
  }

  lemma FeedMore(c: bv32, s: seq<byte>, pos: nat, n: nat)
    requires pos + n <= |s|
    ensures FeedBytes(c, s[..pos + n]) == FeedBytes(FeedBytes(c, s[..pos]), s[pos..pos + n])
  {
    hide FeedBytes;
    FeedBytesAppend(c, s[..pos], s[pos..pos + n]);
    assert s[..pos + n] == s[..pos] + s[pos..pos + n];
  }

  lemma FeedOne(c: bv32, s: seq<byte>, pos: nat)
    requires pos < |s|
    ensures FeedBytes(c, s[..pos + 1]) == ByteStep(FeedBytes(c, s[..pos]), s[pos])
  {
    hide ByteStep;
    FeedMore(c, s, pos, 1);
    var d := FeedBytes(c, s[..pos]);
    assert s[pos..pos + 1] == [s[pos]];
    assert FeedBytes(d, [s[pos]]) == FeedBytes(ByteStep(d, s[pos]), []);
  }

  lemma ByteStepLookup(c: bv32, b: byte)
    ensures ByteStep(c, b) == Xor(Table(0, LowByte(c ^ (b as bv32))), c >> 8)
  {
    ByteLookup(c ^ (b as bv32));
    DropIgnoresByte(c, b);
  }

  lemma DropIgnoresByte(c: bv32, b: byte)
    ensures (c ^ (b as bv32)) >> 8 == c >> 8
  {
  }

  // ----- The reversed register -----

  lemma ReverseNot(a: bv32)
    ensures Reverse(Not(a)) == Not(Reverse(a))
  {
    ReverseOfNot(a);
  }

  /** The index that the big-endian register and a byte make. */
  function BigIndex(c: bv32, b: byte): bv32 {
    (c >> 24) ^ (b as bv32)
  }

  function LittleIndex(c: bv32, b: byte): bv32 {
    LowByte(c ^ (b as bv32))
  }

  function RaiseByte(c: bv32): bv32 {
    c << 8
  }

  lemma BigByteIndex(c: bv32, b: byte)
    ensures BigIndex(c, b) == LittleIndex(Reverse(c), b) && BigIndex(c, b) <= 0xff
  {
  }

  lemma BigByteResult(l: bv32, b: byte)
    ensures Reverse(Xor(Reverse(Table(0, LittleIndex(l, b))), RaiseByte(Reverse(l)))) == ByteStep(l, b)
  {
    hide Reverse, Xor, Table, ByteStep, LowByte;
    var t := Table(0, LittleIndex(l, b));
    ByteStepLookup(l, b);
    ReverseOfDrop(l);
    ReverseOfXor(t, l >> 8);
    ReverseTwice(Xor(t, l >> 8));
  }

  lemma BigStart(x: bv32)
    ensures Reverse(Not(Rev(x))) == Not(x)
  {
    hide Reverse, Rev, Not;
    RevIsReverse(x);
    ReverseNot(Reverse(x));
    ReverseTwice(x);
  }

  lemma BigEnd(c: bv32)
    ensures Rev(Not(c)) == Not(Reverse(c))
  {
    hide Reverse, Rev, Not;
    RevIsReverse(Not(c));
    ReverseNot(c);
  }

  lemma BigWordIndex(c: bv32, s: seq<byte>)
    requires |s| == 4
    ensures Reverse(Xor(c, BeWord(s))) == Xor(Reverse(c), LeWord(s))
  {
    hide Reverse, Xor, BeWord, LeWord;
    ReverseOfXor(c, BeWord(s));
    ReverseOfWord(s);
    ReverseTwice(LeWord(s));
  }

  lemma BigWordResult(c: bv32, s: seq<byte>)
    requires |s| == 4
    ensures var y := Xor(c, BeWord(s));
            Reverse(Xor(Xor(Xor(Reverse(Table(0, ByteAt(y, 0))), Reverse(Table(1, ByteAt(y, 1)))),
                            Reverse(Table(2, ByteAt(y, 2)))), Reverse(Table(3, ByteAt(y, 3)))))
            == FeedBytes(Reverse(c), s)
  {
    hide Table, Steps, LeWord, BeWord, FeedBytes, ByteAt, Reverse, Xor;
    var y := Xor(c, BeWord(s));
    var x := Reverse(y);
    BigWordIndex(c, s);
    FeedWord(Reverse(c), s);
    WordLookup(x);
    ReverseMovesBytes(y, 0); ReverseMovesBytes(y, 1); ReverseMovesBytes(y, 2); ReverseMovesBytes(y, 3);
    FourReversed(Table(3, ByteAt(x, 0)), Table(2, ByteAt(x, 1)), Table(1, ByteAt(x, 2)), Table(0, ByteAt(x, 3)));
  }

  lemma FourReversed(a: bv32, b: bv32, c: bv32, d: bv32)
    ensures Reverse(Xor(Xor(Xor(Reverse(d), Reverse(c)), Reverse(b)), Reverse(a))) == Xor(Xor(Xor(a, b), c), d)
  {
    hide Reverse, Xor;
    ReverseOfXor(d, c);
    ReverseOfXor(Xor(d, c), b);
    ReverseOfXor(Xor(Xor(d, c), b), a);
    var w := Xor(Xor(Xor(d, c), b), a);
    ReverseTwice(w);
    FourInAnyOrder(a, b, c, d);
  }

  lemma FourInAnyOrder(a: bv32, b: bv32, c: bv32, d: bv32)
    ensures Xor(Xor(Xor(d, c), b), a) == Xor(Xor(Xor(a, b), c), d)
  {
    hide Xor;
    XorLaws(Xor(Xor(d, c), b), a, 0);
    XorLaws(Xor(d, c), b, 0);
    XorLaws(d, c, 0);
    XorAssociates(a, b, Xor(c, d));
    XorAssociates(Xor(a, b), c, d);
  }

  class CrcTable {
    const crc_table: array2<bv32>

    /** Rows 0..3 hold the byte tables, rows 4..7 their byte reversals. */
    ghost predicate Ready()
      reads this, crc_table
    {
      && crc_table.Length0 == 8 && crc_table.Length1 == 256
      && (forall k, n :: 0 <= k < 4 && 0 <= n < 256 ==> crc_table[k, n] == Table(k, IndexWord(n)))
      && (forall k, n :: 4 <= k < 8 && 0 <= n < 256 ==> crc_table[k, n] == Reverse(Table(k - 4, IndexWord(n))))
    }

    constructor ()
      ensures Ready() && fresh(crc_table)
    {
      crc_table := new bv32[8, 256];
      new;
      var poly := MakePoly();
      FillFirst(poly);
      FillOthers();
    }

    static method MakePoly() returns (poly: bv32)
      ensures poly == POLY
    {
      poly := 0;
      for n := 0 to |TERMS|
        invariant poly == Pattern(n)
      {
        poly := poly | (1 << (31 - TERMS[n]));
      }
      PatternIsPoly();
    }

    /** Entry n of the byte table, one bit at a time. */
    static method ByteEntry(n: nat, poly: bv32) returns (c: bv32)
      requires n < 256 && poly == POLY
      ensures c == Table(0, IndexWord(n))
    {
      hide BitStep, IndexWord;
      c := IndexWord(n);
      for k := 0 to 8
        invariant c == Steps(IndexWord(n), k)
      {
        StepsAdd(IndexWord(n), k, 1);
        BitStepCode(c);
        c := if c & 1 == 1 then poly ^ (c >> 1) else c >> 1;
      }
    }

    method FillFirst(poly: bv32)
      requires crc_table.Length0 == 8 && crc_table.Length1 == 256 && poly == POLY
      modifies crc_table
      ensures forall n :: 0 <= n < 256 ==> crc_table[0, n] == Table(0, IndexWord(n))
    {
      hide Table, IndexWord;
      for n := 0 to 256
        invariant forall m :: 0 <= m < n ==> crc_table[0, m] == Table(0, IndexWord(m))
      {
        var c := ByteEntry(n, poly);
        crc_table[0, n] := c;
      }
    }

    /** The entries of column n below the byte table, each one zero byte further. */
    method FillColumn(n: nat)
      requires crc_table.Length0 == 8 && crc_table.Length1 == 256 && n < 256
      requires forall m :: 0 <= m < 256 ==> crc_table[0, m] == Table(0, IndexWord(m))
      modifies crc_table
      ensures forall k :: 0 <= k < 4 ==> crc_table[k, n] == Table(k, IndexWord(n))
      ensures forall k :: 4 <= k < 8 ==> crc_table[k, n] == Reverse(Table(k - 4, IndexWord(n)))
      ensures forall k, m :: 0 <= k < 8 && 0 <= m < 256 && (k == 0 || m != n) ==>
          crc_table[k, m] == old(crc_table[k, m])
    {
      hide Table, Reverse, Rev, IndexWord, LowByte;
      var c := crc_table[0, n];
      RevIsReverse(c);
      crc_table[4, n] := Rev(c);
      for k := 1 to 4
        invariant c == Table(k - 1, IndexWord(n))
        invariant forall j :: 0 <= j < k ==> crc_table[j, n] == Table(j, IndexWord(n))
        invariant forall j :: 4 <= j < k + 4 ==> crc_table[j, n] == Reverse(Table(j - 4, IndexWord(n)))
        invariant forall j, m :: 0 <= j < 8 && 0 <= m < 256 && (j == 0 || m != n) ==>
            crc_table[j, m] == old(crc_table[j, m])
      {
        NextTable(k, IndexWord(n));
        LowByteIsSmall(c);
        IndexOf(LowByte(c));
        c := crc_table[0, LowByte(c) as int] ^ (c >> 8);
        RevIsReverse(c);
        FillPair(k, n, c);
      }
    }

    /** An entry and its byte reversal. */
    method FillPair(k: nat, n: nat, c: bv32)
      requires crc_table.Length0 == 8 && crc_table.Length1 == 256 && k < 4 && n < 256
      modifies crc_table
      ensures crc_table[k, n] == c && crc_table[k + 4, n] == Rev(c)
      ensures forall j, m :: 0 <= j < 8 && 0 <= m < 256 && ((j != k && j != k + 4) || m != n) ==>
        crc_table[j, m] == old(crc_table[j, m])
    {
      hide Rev;
      crc_table[k, n] := c;
      crc_table[k + 4, n] := Rev(c);
    }

    method FillOthers()
      requires crc_table.Length0 == 8 && crc_table.Length1 == 256
      requires forall n :: 0 <= n < 256 ==> crc_table[0, n] == Table(0, IndexWord(n))
      modifies crc_table
      ensures Ready()
    {
      hide Table, Reverse, IndexWord;
      for n := 0 to 256
        invariant forall m :: 0 <= m < 256 ==> crc_table[0, m] == Table(0, IndexWord(m))
        invariant forall k, m :: 0 <= k < 4 && 0 <= m < n ==> crc_table[k, m] == Table(k, IndexWord(m))
        invariant forall k, m :: 4 <= k < 8 && 0 <= m < n ==> crc_table[k, m] == Reverse(Table(k - 4, IndexWord(m)))
      {
        FillColumn(n);
      }
    }

    /** Read a little-endian table. */
    function Lookup(k: nat, x: bv32): (r: bv32)
      requires crc_table.Length0 == 8 && crc_table.Length1 == 256 && k < 8 && x <= 0xff
      reads this, crc_table
    {
      IndexOf(x);
      crc_table[k, x as int]
    }

    lemma Looked(k: nat, x: bv32)
      requires Ready() && k < 4 && x <= 0xff
      ensures Lookup(k, x) == Table(k, x) && Lookup(k + 4, x) == Reverse(Table(k, x))
    {
      IndexOf(x);
    }

    // ----- Little-endian -----

    /** One byte through the register. */
    method LittleByte(c: bv32, b: byte) returns (r: bv32)
      requires Ready()
      ensures r == ByteStep(c, b)
    {
      hide Table, Lookup, Steps;
      ByteStepLookup(c, b);
      LowByteIsSmall(c ^ (b as bv32));
      Looked(0, LowByte(c ^ (b as bv32)));
      r := Lookup(0, LowByte(c ^ (b as bv32))) ^ (c >> 8);
    }

    /** Four bytes through the register, as one little-endian word. */
    method LittleWord(c: bv32, s: seq<byte>) returns (r: bv32)
      requires Ready() && |s| == 4
      ensures r == FeedBytes(c, s)
    {
      hide Table, Lookup, Steps, LeWord, FeedBytes, ByteAt, Xor;
      FeedWord(c, s);
      var x := Xor(c, LeWord(s));
      WordLookup(x);
      ByteAtIsSmall(x, 0); ByteAtIsSmall(x, 1); ByteAtIsSmall(x, 2); ByteAtIsSmall(x, 3);
      Looked(3, ByteAt(x, 0)); Looked(2, ByteAt(x, 1)); Looked(1, ByteAt(x, 2)); Looked(0, ByteAt(x, 3));
      r := Xor(Xor(Xor(Lookup(3, ByteAt(x, 0)), Lookup(2, ByteAt(x, 1))), Lookup(1, ByteAt(x, 2))),
        Lookup(0, ByteAt(x, 3)));
    }

    /** Eight words in a row. */
    method LittleBlock(c: bv32, s: seq<byte>) returns (r: bv32)
      requires Ready() && |s| == 32
      ensures r == FeedBytes(c, s)
    {
      hide FeedBytes;
      r := c;
      FeedNothing(c, s);
      for i := 0 to 8
        invariant r == FeedBytes(c, s[..4 * i])
      {
        FeedMore(c, s, 4 * i, 4);
        r := LittleWord(r, s[4 * i..4 * i + 4]);
      }
      assert s[..32] == s;
    }

    /** The checksum of a buffer that starts at address addr. */
    method Crc32Little(crc: bv64, buf: seq<byte>, addr: nat) returns (r: bv64)
      requires Ready()
      ensures r == Wide(Crc(Low32(crc), buf))
    {
      hide FeedBytes, ByteStep, Crc, Ready, Not;
      var c := Not(Low32(crc));
      ghost var c0 := c;
      var pos: nat, len: nat := 0, |buf|;
      FeedNothing(c0, buf);
      while len > 0 && (addr + pos) % 4 != 0
        invariant pos + len == |buf| && c == FeedBytes(c0, buf[..pos])
      {
        FeedOne(c0, buf, pos);
        c := LittleByte(c, buf[pos]);
        pos, len := pos + 1, len - 1;
      }
      while len >= 32
        invariant pos + len == |buf| && c == FeedBytes(c0, buf[..pos])
      {
        FeedMore(c0, buf, pos, 32);
        c := LittleBlock(c, buf[pos..pos + 32]);
        pos, len := pos + 32, len - 32;
      }
      while len >= 4
        invariant pos + len == |buf| && c == FeedBytes(c0, buf[..pos])
      {
        FeedMore(c0, buf, pos, 4);
        c := LittleWord(c, buf[pos..pos + 4]);
        pos, len := pos + 4, len - 4;
      }
      while len > 0
        invariant pos + len == |buf| && c == FeedBytes(c0, buf[..pos])
      {
        FeedOne(c0, buf, pos);
        c := LittleByte(c, buf[pos]);
        pos, len := pos + 1, len - 1;
      }
      assert buf[..pos] == buf;
      CrcIsBytewise(Low32(crc), buf);
      r := Wide(Not(c));
    }

    // ----- Big-endian: the register holds its bytes in reverse -----

    method BigByte(c: bv32, b: byte) returns (r: bv32)
      requires Ready()
      ensures Reverse(r) == ByteStep(Reverse(c), b)
    {
      hide Table, Lookup, Steps, ByteStep, Reverse, BigIndex, LittleIndex, RaiseByte, Xor;
      BigByteIndex(c, b);
      Looked(0, BigIndex(c, b));
      r := Xor(Lookup(4, BigIndex(c, b)), RaiseByte(c));
      ReverseTwice(c);
      BigByteResult(Reverse(c), b);
    }

    method BigWord(c: bv32, s: seq<byte>) returns (r: bv32)
      requires Ready() && |s| == 4
      ensures Reverse(r) == FeedBytes(Reverse(c), s)
    {
      hide Table, Lookup, Steps, LeWord, BeWord, FeedBytes, ByteAt, Reverse, Xor;
      var y := Xor(c, BeWord(s));
      ByteAtIsSmall(y, 0); ByteAtIsSmall(y, 1); ByteAtIsSmall(y, 2); ByteAtIsSmall(y, 3);
      Looked(0, ByteAt(y, 0)); Looked(1, ByteAt(y, 1)); Looked(2, ByteAt(y, 2)); Looked(3, ByteAt(y, 3));
      r := Xor(Xor(Xor(Lookup(4, ByteAt(y, 0)), Lookup(5, ByteAt(y, 1))), Lookup(6, ByteAt(y, 2))),
        Lookup(7, ByteAt(y, 3)));
      BigWordResult(c, s);
    }

    method BigBlock(c: bv32, s: seq<byte>) returns (r: bv32)
      requires Ready() && |s| == 32
      ensures Reverse(r) == FeedBytes(Reverse(c), s)
    {
      hide FeedBytes, Reverse;
      r := c;
      FeedNothing(Reverse(c), s);
      for i := 0 to 8
        invariant Reverse(r) == FeedBytes(Reverse(c), s[..4 * i])
      {
        FeedMore(Reverse(c), s, 4 * i, 4);
        r := BigWord(r, s[4 * i..4 * i + 4]);
      }
      assert s[..32] == s;
    }

    /** The loops of the big-endian form, on the reversed register. */
    method BigRegister(start: bv32, buf: seq<byte>, addr: nat) returns (c: bv32)
      requires Ready()
      ensures Reverse(c) == FeedBytes(Reverse(start), buf)
    {
      hide FeedBytes, ByteStep, Ready, Reverse;
      c := start;
      ghost var c0 := Reverse(start);
      var pos: nat, len: nat := 0, |buf|;
      FeedNothing(c0, buf);
      while len > 0 && (addr + pos) % 4 != 0
        invariant pos + len == |buf| && Reverse(c) == FeedBytes(c0, buf[..pos])
      {
        FeedOne(c0, buf, pos);
        c := BigByte(c, buf[pos]);
        pos, len := pos + 1, len - 1;
      }
      while len >= 32
        invariant pos + len == |buf| && Reverse(c) == FeedBytes(c0, buf[..pos])
      {
        FeedMore(c0, buf, pos, 32);
        c := BigBlock(c, buf[pos..pos + 32]);
        pos, len := pos + 32, len - 32;
      }
      while len >= 4
        invariant pos + len == |buf| && Reverse(c) == FeedBytes(c0, buf[..pos])
      {
        FeedMore(c0, buf, pos, 4);
        c := BigWord(c, buf[pos..pos + 4]);
        pos, len := pos + 4, len - 4;
      }
      while len > 0
        invariant pos + len == |buf| && Reverse(c) == FeedBytes(c0, buf[..pos])
      {
        FeedOne(c0, buf, pos);
        c := BigByte(c, buf[pos]);
        pos, len := pos + 1, len - 1;
      }
      assert buf[..pos] == buf;
    }

    method Crc32Big(crc: bv64, buf: seq<byte>, addr: nat) returns (r: bv64)
      requires Ready()
      ensures r == Wide(Crc(Low32(crc), buf))
    {
      hide FeedBytes, Crc, Ready, Reverse, Rev, Not, Low32, Wide;
      var x := Low32(crc);
      BigStart(x);
      var c := BigRegister(Not(Rev(x)), buf, addr);
      CrcIsBytewise(x, buf);
      BigEnd(c);
      r := Wide(Rev(Not(c)));
    }

    // ----- The portable form, and the entry point -----

    method WideByte(crc: bv64, b: byte) returns (r: bv64)
      requires Ready()
      ensures r == WideStep(crc, b)
    {
      hide Table, Lookup, Low32, AddDropped, ByteIndex;
      ByteIndexIsSmall(Low32(crc), b);
      Looked(0, WideIndex(crc, b));
      r := AddDropped(Lookup(0, WideIndex(crc, b)), crc);
    }

    method WideBlock(crc: bv64, s: seq<byte>) returns (r: bv64)
      requires Ready() && |s| == 8
      ensures r == FeedWide(crc, s)
    {
      hide WideStep;
      r := crc;
      for i := 0 to 8
        invariant FeedWide(crc, s) == FeedWide(r, s[i..])
      {
        r := WideByte(r, s[i]);
        assert s[i..][1..] == s[i + 1..];
      }
    }

    method Crc32Bytewise(start: bv64, buf: seq<byte>) returns (crc: bv64)
      requires Ready()
      ensures crc == Bytewise(start, buf)
    {
      hide WideStep, FlipLow, FeedWide, Ready;
      crc := FlipLow(start);
      var pos: nat, len: nat := 0, |buf|;
      assert buf[0..] == buf;
      while len >= 8
        invariant pos + len == |buf| && FeedWide(FlipLow(start), buf) == FeedWide(crc, buf[pos..])
      {
        FeedWideAt(crc, buf, pos, 8);
        crc := WideBlock(crc, buf[pos..pos + 8]);
        pos, len := pos + 8, len - 8;
      }
      while len > 0
        invariant pos + len == |buf| && FeedWide(FlipLow(start), buf) == FeedWide(crc, buf[pos..])
      {
        FeedWideAt(crc, buf, pos, 1);
        FeedWideShort(crc, buf[pos]);
        assert buf[pos..pos + 1] == [buf[pos]];
        crc := WideByte(crc, buf[pos]);
        pos, len := pos + 1, len - 1;
      }
      FeedWideShort(crc, 0);
      assert buf[pos..] == [];
      crc := FlipLow(crc);
    }

    /** `present` is false for a null buffer; `byFour` and `littleEndian` describe the machine. */
    method Crc32(crc: bv64, present: bool, buf: seq<byte>, addr: nat, byFour: bool, littleEndian: bool)
      returns (r: bv64)
      requires Ready()
      ensures !present ==> r == 0
      ensures present && byFour ==> r == Wide(Crc(Low32(crc), buf))
      ensures present && !byFour ==> (r == Wide(Crc(Low32(crc), buf)) <==> High32(crc) == 0)
    {
      hide Crc, Bytewise, Low32, High32, Wide;
      if !present {
        r := 0;
      } else if byFour {
        if littleEndian {
          r := Crc32Little(crc, buf, addr);
        } else {
          r := Crc32Big(crc, buf, addr);
        }
      } else {
        BytewiseAgrees(crc, buf);
        r := Crc32Bytewise(crc, buf);
      }
    }
  }
}
