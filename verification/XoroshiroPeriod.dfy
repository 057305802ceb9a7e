/**
 The period of xoroshiro128+ is 2^128 - 1, from every state but zero, and what that
 means for the streams that jumps lead to.
 */
module XoroshiroPeriod {
  import opened NumberTheory
  import opened PowersOfTwo
  import opened PeriodPrimes
  import opened Xoroshiro
  import opened XoroshiroPolynomials
  import opened XoroshiroTables
  import opened XoroshiroCharacteristic
  import opened XoroshiroJump
  import opened XoroshiroOrder

  // ----- 2^128 - 1 steps come back -----

  lemma PeriodIsPow2()
    ensures PERIOD + 1 == Pow2(128) && PERIOD + 1 == Pow2(64) * Pow2(64)
  {
    hide Pow2;
    SmallPowers();
    Pow2Add(64, 64);
  }

  lemma LastPowerOfX()
    ensures PowerOfX(128) == Poly(0x2, 0)
  {
  }

  lemma PeriodReturns(s: State)
    ensures Iterate(s, PERIOD) == s
  {
    hide Next, Prev, Pow2, Iterate, Value, PowerOfX;
    PeriodIsPow2();
    PowerOfXIsPower(128);
    LastPowerOfX();
    XValue(s);
    OneStepMore(s, PERIOD);
    PrevUndoesNext(s);
    PrevUndoesNext(Iterate(s, PERIOD));
  }

  // ----- Nothing less does -----

  const FACTORS: set<int> := {3, 5, 17, 257, 641, 65537, 274177, 6700417, 67280421310721}

  lemma PrimeFactor(p: int, q: int, rest: int)
    requires IsPrime(p) && IsPrime(q) && Divides(p, q * rest)
    ensures p == q || Divides(p, rest)
  {
    EuclidsLemma(p, q, rest);
    if Divides(p, q) { DivisorOfPrime(q, p); }
  }

  lemma FirstFactors(p: int)
    requires IsPrime(p) && Divides(p, PERIOD)
    ensures p in {3, 5, 17, 257, 65537} || Divides(p, 641 * 6700417 * 274177 * 67280421310721)
  {
    TwoThreeFive();
    Prime17();
    Prime257();
    Prime65537();
    hide Divides, IsPrime;
    var n := 641 * 6700417 * 274177 * 67280421310721;
    PrimeFactor(p, 3, 5 * 17 * 257 * 65537 * n);
    if p != 3 { PrimeFactor(p, 5, 17 * 257 * 65537 * n); }
    if p != 3 && p != 5 { PrimeFactor(p, 17, 257 * 65537 * n); }
    if p != 3 && p != 5 && p != 17 { PrimeFactor(p, 257, 65537 * n); }
    if p != 3 && p != 5 && p != 17 && p != 257 { PrimeFactor(p, 65537, n); }
  }

  lemma PrimeOfPeriod(p: int)
    requires IsPrime(p) && Divides(p, PERIOD)
    ensures p in FACTORS
  {
    FirstFactors(p);
    Prime641();
    Prime6700417();
    Prime274177();
    Prime67280421310721();
    if p !in {3, 5, 17, 257, 65537} {
      PrimeFactor(p, 641, 6700417 * 274177 * 67280421310721);
      if p != 641 { PrimeFactor(p, 6700417, 274177 * 67280421310721); }
      if p != 641 && p != 6700417 { PrimeFactor(p, 274177, 67280421310721); }
      if p != 641 && p != 6700417 && p != 274177 { DivisorOfPrime(67280421310721, p); }
    }
    hide Divides, IsPrime;
  }

  lemma NotMoved(s: State, p: int, n: nat)
    requires p in FACTORS && p * n == PERIOD && Iterate(s, n) == s
    ensures s == ZERO
  {
    hide Iterate;
    if p == 3 { Moves3(s, n); }
    else if p == 5 { Moves5(s, n); }
    else if p == 17 { Moves17(s, n); }
    else if p == 257 { Moves257(s, n); }
    else if p == 641 { Moves641(s, n); }
    else if p == 65537 { Moves65537(s, n); }
    else if p == 274177 { Moves274177(s, n); }
    else if p == 6700417 { Moves6700417(s, n); }
    else { Moves67280421310721(s, n); }
  }

  /** A number of steps that comes back and divides the period is the period. */
  lemma DivisorIsPeriod(s: State, g: nat)
    requires s != ZERO && g > 0 && Divides(g, PERIOD) && Iterate(s, g) == s
    ensures g == PERIOD
  {
    hide Iterate, FACTORS;
    if g != PERIOD {
      DividesNothingLargerThan(g, PERIOD);
      var h := Quotient(g, PERIOD);
      CofactorAboveOne(g, h, PERIOD);
      var p := LeastDivisor(h, 2);
      var k := Quotient(p, h);
      DividesMultiple(h, g);
      DividesTrans(p, h, PERIOD);
      PrimeOfPeriod(p);
      Regroup(g, p, k);
      Repeats(s, g, k, 0);
      NoSteps(s);
      NotMoved(s, p, k * g);
    }
  }

  lemma DividesNothingLargerThan(g: int, n: int)
    requires g > 0 && n > 0 && Divides(g, n)
    ensures g <= n
  {
    if g > n { DividesNothingLarger(g, n); }
  }

  lemma Regroup(g: int, p: int, k: int)
    requires g > 0 && p > 0 && g * (p * k) > 0
    ensures k > 0 && k * g > 0 && p * (k * g) == g * (p * k)
  {
    assert k <= 0 ==> p * k <= 0;
    assert p * k <= 0 ==> g * (p * k) <= 0;
  }

  /** The period is 2^128 - 1: a state other than zero comes back after k steps if and
      only if k is a multiple of it. */
  lemma FullPeriod(s: State, k: nat)
    requires s != ZERO
    ensures Iterate(s, k) == s <==> k % PERIOD == 0
  {
    hide Iterate;
    PeriodReturns(s);
    NoSteps(s);
    DividesIffNoRemainder(PERIOD, k);
    if k % PERIOD == 0 {
      Repeats(s, PERIOD, k / PERIOD, 0);
    } else if Iterate(s, k) == s {
      var g, u, v := GcdExponent(k, PERIOD);
      Repeats(s, k, u, 0);
      Repeats(s, PERIOD, v, g);
      Exchange(k, u, g, v);
      DivisorIsPeriod(s, g);
    }
  }

  lemma Exchange(k: nat, u: nat, g: nat, v: nat)
    requires k * u == g + PERIOD * v
    ensures u * k == g + v * PERIOD
  {
  }

  /** Two numbers of steps lead to the same state if and only if they differ by a
      multiple of the period. */
  lemma SameStateExactly(s: State, i: nat, j: nat)
    requires s != ZERO && j <= i
    ensures Iterate(s, i) == Iterate(s, j) <==> (i - j) % PERIOD == 0
  {
    hide Iterate;
    NeverZero(s, j);
    IterateAdd(s, j, i - j);
    FullPeriod(Iterate(s, j), i - j);
  }

  // ----- Streams -----

  /** The first n streams, each cut off after its first `size` states, have no state in common. */
  ghost predicate Disjoint(s: State, n: nat, size: nat) {
    forall i: nat, j: nat, k: nat, l: nat :: i < j < n && k < size && l < size ==>
      Iterate(JumpTimes(s, i), k) != Iterate(JumpTimes(s, j), l)
  }

  /** How far state l of stream j lies behind state k of stream i. */
  function Distance(i: nat, k: nat, j: nat, l: nat): int {
    (j - i) * Pow2(64) + l - k
  }

  lemma MeetExactly(s: State, i: nat, k: nat, j: nat, l: nat)
    requires s != ZERO && Distance(i, k, j, l) >= 0
    ensures Iterate(JumpTimes(s, i), k) == Iterate(JumpTimes(s, j), l) <==> Distance(i, k, j, l) % PERIOD == 0
  {
    hide Iterate, JumpTimes, Pow2;
    StreamsShareOneSequence(s, i, k);
    StreamsShareOneSequence(s, j, l);
    var w := Pow2(64);
    PlacesApart(i, k, j, l, w);
    SameStateExactly(s, j * w + l, i * w + k);
  }

  lemma PlacesApart(i: nat, k: nat, j: nat, l: nat, w: nat)
    ensures j * w + l - (i * w + k) == (j - i) * w + l - k
  {
  }

  lemma DistanceBounds(n: nat, size: nat, i: nat, k: nat, j: nat, l: nat)
    requires i < j < n && k < size && l < size && size <= Pow2(64)
    ensures 0 < Distance(i, k, j, l) < (n - 1) * Pow2(64) + size
  {
    hide Pow2;
    MultipleBounds(j - i, n - 1, Pow2(64));
  }

  lemma MultipleBounds(a: int, b: int, w: int)
    requires 1 <= a <= b && w > 0
    ensures w <= a * w <= b * w
  {
  }

  lemma NoMultipleBelow(d: int)
    requires 0 < d < PERIOD
    ensures d % PERIOD != 0
  {
  }

  lemma DisjointIf(s: State, n: nat, size: nat)
    requires s != ZERO && size <= Pow2(64) && (n - 1) * Pow2(64) + size <= PERIOD
    ensures Disjoint(s, n, size)
  {
    hide Iterate, JumpTimes, Pow2, Distance;
    forall i: nat, j: nat, k: nat, l: nat | i < j < n && k < size && l < size
      ensures Iterate(JumpTimes(s, i), k) != Iterate(JumpTimes(s, j), l)
    {
      DistanceBounds(n, size, i, k, j, l);
      NoMultipleBelow(Distance(i, k, j, l));
      MeetExactly(s, i, k, j, l);
    }
  }

  /** 2^64 has an inverse modulo the period: itself. */
  lemma JumpsAreUnits(d: int)
    requires (d * Pow2(64)) % PERIOD == 0
    ensures d % PERIOD == 0
  {
    hide Pow2, Divides;
    PeriodIsPow2();
    var w := Pow2(64);
    DividesIffNoRemainder(PERIOD, d * w);
    DividesIffNoRemainder(PERIOD, d);
    DividesMultiple(PERIOD, d);
    DividesCombination(PERIOD, d * w, PERIOD * d, w, -1);
    assert (d * w) * w == d * (w * w) == d * (PERIOD + 1) == PERIOD * d + d;
  }

  lemma FirstStatesDisjointIf(s: State, n: nat)
    requires s != ZERO && n <= PERIOD
    ensures Disjoint(s, n, 1)
  {
    hide Iterate, JumpTimes, Pow2;
    forall i: nat, j: nat, k: nat, l: nat | i < j < n && k < 1 && l < 1
      ensures Iterate(JumpTimes(s, i), k) != Iterate(JumpTimes(s, j), l)
    {
      NoMultipleBelow(j - i);
      var w := Pow2(64);
      assert Distance(i, k, j, l) == (j - i) * w >= 0;
      if Distance(i, k, j, l) % PERIOD == 0 { JumpsAreUnits(j - i); }
      MeetExactly(s, i, k, j, l);
    }
  }

  lemma PeriodItself()
    ensures PERIOD % PERIOD == 0
  {
  }

  /** Streams that meet exactly one period apart. */
  lemma Overlap(s: State, n: nat, size: nat, j: nat, k: nat, l: nat)
    requires s != ZERO && 0 < j < n && k < size && l < size && j * Pow2(64) + l - k == PERIOD
    ensures !Disjoint(s, n, size)
  {
    hide Iterate, JumpTimes, Pow2;
    PeriodItself();
    MeetExactly(s, 0, k, j, l);
    assert Iterate(JumpTimes(s, 0), k) == Iterate(JumpTimes(s, j), l);
  }

  lemma DisjointOnlyIf(s: State, n: nat, size: nat)
    requires s != ZERO && 2 <= size <= Pow2(64) && (n - 1) * Pow2(64) + size > PERIOD
    ensures !Disjoint(s, n, size)
  {
    hide Pow2, Disjoint;
    PeriodIsPow2();
    var w := Pow2(64);
    if n > w {
      Overlap(s, n, size, w, 1, 0);
    } else {
      OnlyTheLast(n, size, w);
      Overlap(s, n, size, w - 1, 0, w - 1);
    }
  }

  lemma OnlyTheLast(n: nat, size: nat, w: nat)
    requires 2 <= size <= w && n <= w && (n - 1) * w + size > w * w - 1
    ensures n == w && size == w && (w - 1) * w + (w - 1) == w * w - 1
  {
    assert n <= w - 1 ==> (n - 1) * w <= (w - 2) * w == w * w - 2 * w;
    assert (w - 1) * w == w * w - w;
  }

  lemma FirstStatesMeet(s: State, n: nat)
    requires s != ZERO && n > PERIOD
    ensures !Disjoint(s, n, 1)
  {
    hide Iterate, JumpTimes, Pow2;
    var w := Pow2(64);
    DividesMultiple(PERIOD, w);
    DividesIffNoRemainder(PERIOD, PERIOD * w);
    assert Distance(0, 0, PERIOD, 0) == PERIOD * w;
    MeetExactly(s, 0, 0, PERIOD, 0);
    assert Iterate(JumpTimes(s, 0), 0) == Iterate(JumpTimes(s, PERIOD), 0);
  }

  /** The first n streams of up to 2^64 states are disjoint if and only if they fit in one
      period. (Single states, spread over it by the jumps, fit as often as there are states.) */
  lemma DisjointExactly(s: State, n: nat, size: nat)
    requires s != ZERO && 0 < size <= Pow2(64)
    ensures Disjoint(s, n, size) <==> if size == 1 then n <= PERIOD else (n - 1) * Pow2(64) + size <= PERIOD
  {
    hide Disjoint, Pow2;
    if size == 1 {
      if n <= PERIOD { FirstStatesDisjointIf(s, n); } else { FirstStatesMeet(s, n); }
    } else {
      if (n - 1) * Pow2(64) + size <= PERIOD { DisjointIf(s, n, size); } else { DisjointOnlyIf(s, n, size); }
    }
  }

  /** So 2^64 streams of 2^64 states do overlap, but 2^64 - 1 of them, or 2^64 streams of
      one state less, do not. */
  lemma PromisedStreams(s: State)
    requires s != ZERO
    ensures !Disjoint(s, Pow2(64), Pow2(64))
    ensures Disjoint(s, Pow2(64) - 1, Pow2(64)) && Disjoint(s, Pow2(64), Pow2(64) - 1)
  {
    hide Disjoint, Pow2;
    SmallPowers();
    PeriodIsPow2();
    var w := Pow2(64);
    assert w > 2 && (w - 1) * w == w * w - w && (w - 2) * w == w * w - 2 * w;
    DisjointExactly(s, w, w);
    DisjointExactly(s, w - 1, w);
    DisjointExactly(s, w, w - 1);
  }
}
