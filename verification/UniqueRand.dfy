/**
 The unique random sequence generator: quadratic residues modulo a prime turned
 into a permutation of the 32-bit integers, a seeded composition of two such
 permutations, and the generator as threads run it concurrently.
 */
module UniqueRand {
  import opened FiniteSets
  import opened NumberTheory
  import opened PowersOfTwo
  import opened PrimeModulus
  import opened Words32

  const SEQUENCE_MASK: u32 := 0x5bf03635

  // ----- The permutation -----

  function Permute(x: u32): u32 {
    if x >= PRIME then x
    else
      var residue := (x * x) % PRIME;
      if x <= PRIME / 2 then residue else PRIME - residue
  }

  lemma SameSquare(x: int, y: int)
    requires 0 <= x <= PRIME / 2 && 0 <= y <= PRIME / 2
    requires Cong(x * x, y * y, PRIME)
    ensures x == y
  {
    ModulusIsPrime();
    assert x * x - y * y == (x - y) * (x + y);
    EuclidsLemma(PRIME, x - y, x + y);
    assert x - y != 0 ==> !Divides(PRIME, x - y);
    assert x + y != 0 ==> !Divides(PRIME, x + y);
  }

  /** Below the modulus the permutation is the square in the lower half and the
      negated square of the mirrored value in the upper half; it stays below. */
  lemma PermuteIsSignedSquare(x: u32)
    requires x < PRIME
    ensures Permute(x) < PRIME
    ensures x <= PRIME / 2 ==> Cong(Permute(x), x * x, PRIME)
    ensures x > PRIME / 2 ==> Cong(Permute(x), -((PRIME - x) * (PRIME - x)), PRIME)
  {
    var r := (x * x) % PRIME;
    CongRemainder(x * x, PRIME);
    if x > PRIME / 2 {
      if r == 0 {
        DividesIffNoRemainder(PRIME, x * x);
        ModulusIsPrime();
        EuclidsLemma(PRIME, x, x);
      }
      MirroredSquare(x, r);
    }
  }

  lemma MirroredSquare(x: int, r: int)
    requires Cong(r, x * x, PRIME)
    ensures Cong(PRIME - r, -((PRIME - x) * (PRIME - x)), PRIME)
  {
    DividesMultiple(PRIME, 1 + PRIME - 2 * x);
    DividesCombination(PRIME, r - x * x, PRIME * (1 + PRIME - 2 * x), -1, 1);
    assert (PRIME - x) * (PRIME - x) == PRIME * PRIME - 2 * PRIME * x + x * x;
  }

  /** y is x squared modulo the prime, with the sign turned in the upper half; numbers
      from the prime on stand for themselves. */
  ghost predicate IsSignedSquare(x: u32, y: u32) {
    if x >= 4294967291 then y == x
    else y < 4294967291 && Cong(y, if x <= 2147483645 then x * x else -(x * x), 4294967291)
  }

  /** There is exactly one such y, and it is the permuted x. */
  lemma PermuteExactly(x: u32, y: u32)
    ensures Permute(x) == y <==> IsSignedSquare(x, y)
  {
    if x < PRIME {
      var z := Permute(x);
      PermuteIsSignedSquare(x);
      if x > PRIME / 2 { NegatedMirror(x, z); }
      var s := if x <= PRIME / 2 then x * x else -(x * x);
      hide Permute, Cong;
      if y < PRIME && Cong(y, s, PRIME) { OneRemainder(y, z, s); }
    }
  }

  lemma OneRemainder(y: u32, z: u32, s: int)
    requires y < PRIME && z < PRIME && Cong(y, s, PRIME) && Cong(z, s, PRIME)
    ensures y == z
  {
    CongSym(z, s, PRIME);
    CongTrans(y, s, z, PRIME);
    CongIffSameRemainder(y, z, PRIME);
    hide Cong;
  }

  lemma NegatedMirror(x: int, z: int)
    requires Cong(z, -((PRIME - x) * (PRIME - x)), PRIME)
    ensures Cong(z, -(x * x), PRIME)
  {
    DividesMultiple(PRIME, 2 * x - PRIME);
    DividesCombination(PRIME, z + (PRIME - x) * (PRIME - x), PRIME * (2 * x - PRIME), 1, 1);
    assert (PRIME - x) * (PRIME - x) == PRIME * PRIME - 2 * PRIME * x + x * x;
  }

  lemma PermuteInjective(x: u32, y: u32)
    requires Permute(x) == Permute(y)
    ensures x == y
  {
    if x < PRIME { PermuteIsSignedSquare(x); }
    if y < PRIME { PermuteIsSignedSquare(y); }
    if x < PRIME && y < PRIME {
      var h := PRIME / 2;
      if x <= h && y <= h {
        SameImage(x * x, y * y, Permute(x));
        SameSquare(x, y);
      } else if x > h && y > h {
        SameImage(-((PRIME - x) * (PRIME - x)), -((PRIME - y) * (PRIME - y)), Permute(x));
        CongSym(-((PRIME - x) * (PRIME - x)), -((PRIME - y) * (PRIME - y)), PRIME);
        SameSquare(PRIME - x, PRIME - y);
      } else if x <= h {
        HalvesDisjoint(x, PRIME - y, Permute(x));
      } else {
        HalvesDisjoint(y, PRIME - x, Permute(x));
      }
    }
  }

  lemma SameImage(a: int, b: int, z: int)
    requires Cong(z, a, PRIME) && Cong(z, b, PRIME)
    ensures Cong(a, b, PRIME)
  {
    CongSym(z, a, PRIME);
    CongTrans(a, z, b, PRIME);
  }

  /** No square meets a negated nonzero square, because PRIME % 4 == 3. */
  lemma HalvesDisjoint(x: int, y: int, z: int)
    requires 0 <= x <= PRIME / 2 && 0 < y <= PRIME / 2
    ensures !(Cong(z, x * x, PRIME) && Cong(z, -(y * y), PRIME))
  {
    if Cong(z, x * x, PRIME) && Cong(z, -(y * y), PRIME) {
      SameImage(x * x, -(y * y), z);
      ModulusIsPrime();
      MinusOneIsNotASquare(PRIME, x, y);
    }
  }

  // ----- Exclusive or of 32-bit values -----

  /** The exclusive or of the lowest `bits` bits of a and b. */
  function Xor(a: nat, b: nat, bits: nat): (r: nat)
  {
    if bits == 0 then 0 else (a % 2 + b % 2) % 2 + 2 * Xor(a / 2, b / 2, bits - 1)
  }

  lemma {:induction false} XorFits(a: nat, b: nat, bits: nat)
    ensures Xor(a, b, bits) < Pow2(bits)
  {
    if bits > 0 { XorFits(a / 2, b / 2, bits - 1); }
  }

  lemma {:induction false} XorTwice(a: nat, b: nat, bits: nat)
    requires a < Pow2(bits)
    ensures Xor(Xor(a, b, bits), b, bits) == a
  {
    if bits > 0 {
      XorTwice(a / 2, b / 2, bits - 1);
      XorBit(a % 2, b % 2);
      SplitBits((a % 2 + b % 2) % 2, Xor(a / 2, b / 2, bits - 1));
    }
  }

  lemma XorBit(a: nat, b: nat)
    requires a < 2 && b < 2
    ensures ((a + b) % 2 + b) % 2 == a
  {
  }

  lemma SplitBits(low: nat, high: nat)
    requires low < 2
    ensures (low + 2 * high) % 2 == low && (low + 2 * high) / 2 == high
  {
  }

  /** Bit k of a number. */
  predicate BitSet(a: nat, k: nat)
    decreases k
  {
    if k == 0 then a % 2 == 1 else BitSet(a / 2, k - 1)
  }

  /** Each bit is the exclusive or of the two bits in its place. */
  lemma {:induction false} XorAt(a: nat, b: nat, bits: nat, k: nat)
    requires k < bits
    ensures BitSet(Xor(a, b, bits), k) == (BitSet(a, k) != BitSet(b, k))
    decreases k
  {
    SplitBits((a % 2 + b % 2) % 2, Xor(a / 2, b / 2, bits - 1));
    if k > 0 { XorAt(a / 2, b / 2, bits - 1, k - 1); }
  }

  /** A number is determined by its bits. */
  lemma {:induction false} SameBits(a: nat, b: nat, bits: nat)
    requires a < Pow2(bits) && b < Pow2(bits)
    requires forall k: nat :: k < bits ==> BitSet(a, k) == BitSet(b, k)
    ensures a == b
  {
    if bits > 0 {
      forall k: nat | k < bits - 1 ensures BitSet(a / 2, k) == BitSet(b / 2, k) {
        assert BitSet(a, k + 1) == BitSet(b, k + 1);
      }
      SameBits(a / 2, b / 2, bits - 1);
      assert BitSet(a, 0) == BitSet(b, 0);
    }
  }

  lemma Pow2Of32()
    ensures Pow2(32) == TWO_32
  {
    SmallPowers();
    hide Pow2;
  }

  function Xor32(a: u32, b: u32): u32 {
    Pow2Of32();
    XorFits(a, b, 32);
    Xor(a, b, 32)
  }

  lemma XorInjective(a: u32, b: u32, mask: u32)
    requires Xor32(a, mask) == Xor32(b, mask)
    ensures a == b
  {
    Pow2Of32();
    XorTwice(a, mask, 32);
    XorTwice(b, mask, 32);
  }

  function Add32(a: u32, b: u32): u32 {
    (a + b) % TWO_32
  }

  // ----- One output -----

  /** The value that a ticket is turned into. */
  function Output(ticket: u32, offset: u32): u32 {
    Permute(Xor32(Add32(Permute(ticket), offset), SEQUENCE_MASK))
  }

  /** w is z plus the offset, modulo 2^32, with the bits of the mask flipped. */
  ghost predicate IsMasked(z: u32, offset: u32, w: u32) {
    forall k: nat :: k < 32 ==> BitSet(w, k) == (BitSet((z + offset) % 0x1_0000_0000, k) != BitSet(0x5bf03635, k))
  }

  /** The value that belongs to a ticket: signed square, offset and mask, signed square. */
  ghost predicate IsUniqueValue(ticket: u32, offset: u32, value: u32) {
    exists z: u32, w: u32 :: IsSignedSquare(ticket, z) && IsMasked(z, offset, w) && IsSignedSquare(w, value)
  }

  lemma MaskedExactly(z: u32, offset: u32, w: u32)
    ensures Xor32(Add32(z, offset), SEQUENCE_MASK) == w <==> IsMasked(z, offset, w)
  {
    var x := Xor32(Add32(z, offset), SEQUENCE_MASK);
    forall k: nat | k < 32
      ensures BitSet(x, k) == (BitSet((z + offset) % 0x1_0000_0000, k) != BitSet(0x5bf03635, k))
    {
      XorAt(Add32(z, offset), SEQUENCE_MASK, 32, k);
    }
    if IsMasked(z, offset, w) {
      hide Pow2;
      Pow2Of32();
      SameBits(x, w, 32);
    }
  }

  /** There is exactly one such value, and it is the output. */
  lemma OutputExactly(ticket: u32, offset: u32, value: u32)
    ensures Output(ticket, offset) == value <==> IsUniqueValue(ticket, offset, value)
  {
    hide Permute, Xor32, IsSignedSquare, IsMasked;
    var z := Permute(ticket);
    var w := Xor32(Add32(z, offset), SEQUENCE_MASK);
    PermuteExactly(ticket, z);
    MaskedExactly(z, offset, w);
    PermuteExactly(w, Permute(w));
    if IsUniqueValue(ticket, offset, value) {
      var z', w' :| IsSignedSquare(ticket, z') && IsMasked(z', offset, w') && IsSignedSquare(w', value);
      PermuteExactly(ticket, z');
      MaskedExactly(z', offset, w');
      PermuteExactly(w', value);
    }
  }

  lemma OutputInjective(s: u32, t: u32, offset: u32)
    requires Output(s, offset) == Output(t, offset)
    ensures s == t
  {
    hide Permute, Xor32;
    var a, b := Add32(Permute(s), offset), Add32(Permute(t), offset);
    PermuteInjective(Xor32(a, SEQUENCE_MASK), Xor32(b, SEQUENCE_MASK));
    XorInjective(a, b, SEQUENCE_MASK);
    PermuteInjective(s, t);
  }

  ghost function ImageBelow(f: int -> int, n: nat): set<int> {
    if n == 0 then {} else ImageBelow(f, n - 1) + {f(n - 1)}
  }

  lemma {:induction false} InImageBelow(f: int -> int, n: nat, v: int)
    ensures v in ImageBelow(f, n) <==> exists i :: 0 <= i < n && f(i) == v
  {
    if n > 0 {
      InImageBelow(f, n - 1, v);
      if v in ImageBelow(f, n - 1) {
        var i :| 0 <= i < n - 1 && f(i) == v;
        assert 0 <= i < n;
      }
    }
  }

  ghost predicate PermutesBelow(f: int -> int, n: nat) {
    && (forall i :: 0 <= i < n ==> 0 <= f(i) < n)
    && (forall i, j :: 0 <= i < j < n ==> f(i) != f(j))
  }

  lemma {:induction false} ImageBelowSize(f: int -> int, n: nat, k: nat)
    requires PermutesBelow(f, n) && k <= n
    ensures |ImageBelow(f, k)| == k
  {
    if k > 0 {
      ImageBelowSize(f, n, k - 1);
      InImageBelow(f, k - 1, f(k - 1));
    }
  }

  lemma {:induction false} ImageStaysBelow(f: int -> int, n: nat, k: nat)
    requires PermutesBelow(f, n) && k <= n
    ensures ImageBelow(f, k) <= Below(n)
  {
    if k > 0 { ImageStaysBelow(f, n, k - 1); }
  }

  lemma InjectiveIsSurjective(f: int -> int, n: nat, v: int)
    requires PermutesBelow(f, n) && 0 <= v < n
    ensures exists i :: 0 <= i < n && f(i) == v
  {
    ImageBelowSize(f, n, n);
    ImageStaysBelow(f, n, n);
    hide Below, ImageBelow;
    SubsetOfSameSize(ImageBelow(f, n), Below(n));
    InImageBelow(f, n, v);
  }

  /** Every 32-bit value is the output of exactly one ticket (one, by `OutputInjective`). */
  lemma OutputSurjective(v: u32, offset: u32) returns (t: u32)
    ensures Output(t, offset) == v
  {
    var f := (i: int) => if 0 <= i < TWO_32 then Output(i, offset) else i;
    forall i, j | 0 <= i < j < TWO_32 ensures f(i) != f(j) {
      hide Output;
      if f(i) == f(j) { OutputInjective(i, j, offset); }
    }
    InjectiveIsSurjective(f, TWO_32, v);
    var i :| 0 <= i < TWO_32 && f(i) == v;
    t := i;
  }

  // ----- The generator as a concurrent system -----

  /** What a thread is doing: outside the generator, or between its atomic
      fetch-and-add and its return. `serial` numbers the fetches. */
  datatype Caller = Idle | Holding(ticket: u32, serial: nat)

  /** `fetched` counts the atomic fetches, and `returned` records the value of every
      finished call under the serial number of its fetch. */
  datatype System = System(
    index: u32, offset: u32, callers: seq<Caller>, fetched: nat, returned: map<nat, u32>)
  {
    ghost predicate Holds(t: int) {
      0 <= t < |callers| && callers[t].Holding?
    }
  }

  function SeededIndex(seed: u32): u32 {
    Permute(Add32(Permute(seed), 0x682f0161))
  }

  function SeededOffset(seed: u32): u32 {
    Permute(Add32(Permute(seed), 0x46790905))
  }

  /** A counter that starts at a seed: signed square, constant added, signed square. */
  ghost predicate IsSeeded(seed: u32, constant: u32, y: u32) {
    exists z: u32 :: IsSignedSquare(seed, z) && IsSignedSquare((z + constant) % 0x1_0000_0000, y)
  }

  lemma SeededExactly(seed: u32, y: u32)
    ensures SeededIndex(seed) == y <==> IsSeeded(seed, 0x682f0161, y)
    ensures SeededOffset(seed) == y <==> IsSeeded(seed, 0x46790905, y)
  {
    hide Permute, IsSignedSquare;
    PermuteExactly(seed, Permute(seed));
    PermuteExactly(Add32(Permute(seed), 0x682f0161), y);
    PermuteExactly(Add32(Permute(seed), 0x46790905), y);
    forall z: u32 ensures IsSignedSquare(seed, z) <==> z == Permute(seed) { PermuteExactly(seed, z); }
  }

  ghost predicate Init(s: System, index: u32, offset: u32) {
    && s.index == SeededIndex(index) && s.offset == SeededOffset(offset)
    && (forall t :: !s.Holds(t))
    && s.fetched == 0 && s.returned == map[]
  }

  /** Thread t atomically takes the next ticket. */
  ghost predicate Fetch(s: System, s': System, t: nat) {
    && t < |s.callers| && s.callers[t] == Idle
    && s' == s.(index := Add32(s.index, 1), fetched := s.fetched + 1,
                callers := s.callers[t := Holding(s.index, s.fetched)])
  }

  /** Thread t computes its value from its ticket and returns it. */
  ghost predicate Return(s: System, s': System, t: nat) {
    && s.Holds(t)
    && s' == s.(callers := s.callers[t := Idle],
                returned := s.returned[s.callers[t].serial := Output(s.callers[t].ticket, s.offset)])
  }

  ghost predicate Next(s: System, s': System) {
    exists t: nat :: Fetch(s, s', t) || Return(s, s', t)
  }

  /** A run from a seeded start, under any interleaving of any number of threads. */
  ghost predicate Run(run: seq<System>, index: u32, offset: u32) {
    && |run| > 0 && Init(run[0], index, offset)
    && forall i :: 0 < i < |run| ==> Next(run[i - 1], run[i])
  }

  ghost predicate Reachable(s: System, index: u32, offset: u32) {
    exists run :: Run(run, index, offset) && run[|run| - 1] == s
  }

  function TicketOf(first: u32, serial: nat): u32 {
    (first + serial) % TWO_32
  }

  /** Every fetched serial number is either held by one thread or answered. */
  ghost predicate Accounted(s: System) {
    && (forall k :: k in s.returned ==> k < s.fetched)
    && (forall t :: s.Holds(t) ==> s.callers[t].serial < s.fetched && s.callers[t].serial !in s.returned)
    && (forall t, u :: s.Holds(t) && s.Holds(u) && t != u ==> s.callers[t].serial != s.callers[u].serial)
    && (forall k: nat :: k < s.fetched ==> k in s.returned || HeldBySome(s, k))
  }

  ghost predicate HeldBySome(s: System, k: nat) {
    exists t :: s.Holds(t) && s.callers[t].serial == k
  }

  /** Tickets and answers follow from serial numbers alone. */
  ghost predicate Determined(s: System, first: u32) {
    && s.index == TicketOf(first, s.fetched)
    && (forall k :: k in s.returned ==> s.returned[k] == Output(TicketOf(first, k), s.offset))
    && (forall t :: s.Holds(t) ==> s.callers[t].ticket == TicketOf(first, s.callers[t].serial))
  }

  lemma AccountedStep(s: System, s': System)
    requires Accounted(s) && Next(s, s')
    ensures Accounted(s')
  {
    hide Output;
    var t: nat :| Fetch(s, s', t) || Return(s, s', t);
    forall k: nat | k < s'.fetched ensures k in s'.returned || HeldBySome(s', k) {
      if k == s.fetched {
        assert s'.Holds(t);
      } else if k !in s.returned {
        var u :| s.Holds(u) && s.callers[u].serial == k;
        assert u != t ==> s'.Holds(u);
      }
    }
    forall u, v | s'.Holds(u) && s'.Holds(v) && u != v ensures s'.callers[u].serial != s'.callers[v].serial {
      assert u == t || s.Holds(u);
      assert v == t || s.Holds(v);
    }
    forall u | s'.Holds(u) ensures s'.callers[u].serial < s'.fetched && s'.callers[u].serial !in s'.returned {
      assert u == t || s.Holds(u);
    }
  }

  lemma DeterminedStep(s: System, s': System, first: u32)
    requires Determined(s, first) && Next(s, s')
    ensures Determined(s', first)
    ensures s'.offset == s.offset
  {
    hide Output;
    var t: nat :| Fetch(s, s', t) || Return(s, s', t);
    forall u | s'.Holds(u) ensures s'.callers[u].ticket == TicketOf(first, s'.callers[u].serial) {
      assert u == t || s.Holds(u);
    }
  }

  lemma {:induction false} InvariantOverRuns(run: seq<System>, index: u32, offset: u32) returns (s: System)
    requires Run(run, index, offset)
    ensures s == run[|run| - 1]
    ensures Accounted(s) && Determined(s, SeededIndex(index))
    ensures s.offset == SeededOffset(offset)
  {
    hide Output, SeededIndex, SeededOffset;
    s := run[|run| - 1];
    if |run| > 1 {
      var prefix := run[..|run| - 1];
      assert forall i :: 0 < i < |prefix| ==> Next(prefix[i - 1], prefix[i]);
      var r := InvariantOverRuns(prefix, index, offset);
      assert Next(r, s);
      AccountedStep(r, s);
      DeterminedStep(r, s, SeededIndex(index));
    }
  }

  lemma TicketsAgree(first: u32, i: nat, j: nat)
    ensures TicketOf(first, i) == TicketOf(first, j) <==> (i - j) % TWO_32 == 0
  {
    var q := (first + i) / TWO_32 - (first + j) / TWO_32;
    assert i - j == TWO_32 * q + (TicketOf(first, i) - TicketOf(first, j));
  }

  lemma SerialOf(first: u32, from: nat, t: u32) returns (k: nat)
    ensures from <= k < from + TWO_32 && TicketOf(first, k) == t
  {
    k := from + (t - first - from) % TWO_32;
  }

  /** Whatever the seeds and the interleaving, two calls return the same value
      exactly when the distance between their fetches is a multiple of 2^32. So
      any 2^32 consecutive calls return pairwise distinct values. */
  lemma UniqueOutputs(s: System, index: u32, offset: u32, i: nat, j: nat)
    requires Reachable(s, index, offset)
    requires i in s.returned && j in s.returned
    ensures s.returned[i] == s.returned[j] <==> (i - j) % TWO_32 == 0
  {
    hide Output, SeededIndex, SeededOffset;
    var run :| Run(run, index, offset) && run[|run| - 1] == s;
    var _ := InvariantOverRuns(run, index, offset);
    var a, b := TicketOf(SeededIndex(index), i), TicketOf(SeededIndex(index), j);
    TicketsAgree(SeededIndex(index), i, j);
    if Output(a, s.offset) == Output(b, s.offset) { OutputInjective(a, b, s.offset); }
  }

  /** A call that returned gave the value of its ticket, which the seeds and the serial
      number of its fetch determine; and once all threads are outside the generator, no
      fetch is missing its value. */
  lemma EveryFetchReturns(s: System, index: u32, offset: u32, k: nat) returns (first: u32, start: u32)
    requires Reachable(s, index, offset)
    ensures IsSeeded(index, 0x682f0161, first) && IsSeeded(offset, 0x46790905, start)
    ensures k in s.returned ==> k < s.fetched && IsUniqueValue((first + k) % 0x1_0000_0000, start, s.returned[k])
    ensures (forall t :: !s.Holds(t)) && k < s.fetched ==> k in s.returned
  {
    hide Output, SeededIndex, SeededOffset, IsUniqueValue, IsSeeded;
    var run :| Run(run, index, offset) && run[|run| - 1] == s;
    var _ := InvariantOverRuns(run, index, offset);
    first, start := SeededIndex(index), SeededOffset(offset);
    SeededExactly(index, first);
    SeededExactly(offset, start);
    if k in s.returned { OutputExactly(TicketOf(first, k), start, s.returned[k]); }
  }

  /** Every 32-bit value is returned by one call in every window of 2^32 consecutive fetches. */
  lemma WindowCoversEverything(s: System, index: u32, offset: u32, from: nat, v: u32) returns (k: nat)
    requires Reachable(s, index, offset)
    requires forall k: nat :: from <= k < from + TWO_32 ==> k in s.returned
    ensures from <= k < from + TWO_32 && s.returned[k] == v
  {
    hide Output, SeededIndex, SeededOffset;
    var run :| Run(run, index, offset) && run[|run| - 1] == s;
    var _ := InvariantOverRuns(run, index, offset);
    var t := OutputSurjective(v, s.offset);
    var first := SeededIndex(index);
    k := SerialOf(first, from, t);
  }

  // ----- The generator's static state, updated in place -----

  class UniqueGenerator {
    var rand_unique_index: u32
    var rand_unique_offset: u32

    constructor (index: u32, offset: u32)
      ensures rand_unique_index == SeededIndex(index) && rand_unique_offset == SeededOffset(offset)
      ensures IsSeeded(index, 0x682f0161, rand_unique_index) && IsSeeded(offset, 0x46790905, rand_unique_offset)
    {
      hide Permute, IsSeeded;
      rand_unique_index := Permute(Add32(Permute(index), 0x682f0161));
      rand_unique_offset := Permute(Add32(Permute(offset), 0x46790905));
      new;
      SeededExactly(index, rand_unique_index);
      SeededExactly(offset, rand_unique_offset);
    }

    method FetchAndAdd(delta: u32) returns (previous: u32)
      modifies this`rand_unique_index
      ensures previous == old(rand_unique_index) && rand_unique_index == Add32(previous, delta)
    {
      previous := rand_unique_index;
      rand_unique_index := Add32(previous, delta);
    }

    method Unique() returns (value: u32)
      modifies this`rand_unique_index
      ensures value == Output(old(rand_unique_index), rand_unique_offset)
      ensures IsUniqueValue(old(rand_unique_index), rand_unique_offset, value)
      ensures rand_unique_index == Add32(old(rand_unique_index), 1)
    {
      var index := FetchAndAdd(1);
      var sum := Add32(Permute(index), rand_unique_offset);
      value := Permute(Xor32(sum, SEQUENCE_MASK));
      OutputExactly(index, rand_unique_offset, value);
      hide Permute, Xor32, IsUniqueValue;
    }
  }
}
