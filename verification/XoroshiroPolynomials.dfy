/**
 Polynomials over GF(2) of degree below 128, evaluated at the state step of
 xoroshiro128+: sums, products by x and squares, all modulo a polynomial that
 the step is a root of.
 */
module XoroshiroPolynomials {
  import opened Xoroshiro

  /** The coefficients, from the lowest bit of lo to the highest of hi. */
  datatype Poly = Poly(lo: bv64, hi: bv64)

  const NOTHING: Poly := Poly(0, 0)

  /** x^128 modulo the characteristic polynomial of the step. */
  const X128: Poly := Poly(0x5fd66762f0e1c001, 0x00653ced7f29f88a)

  function Value(p: Poly, s: State): State {
    Add(Eval(p.lo, 64, s), Eval(p.hi, 64, Iterate(s, 64)))
  }

  function Plus(p: Poly, q: Poly): Poly {
    Poly(Xor(p.lo, q.lo), Xor(p.hi, q.hi))
  }

  /** The characteristic polynomial vanishes at s. */
  ghost predicate Killed(s: State) {
    Value(X128, s) == Iterate(s, 128)
  }

  /** p stands for k steps. */
  ghost predicate IsPower(p: Poly, k: nat) {
    forall s: State :: Value(p, s) == Iterate(s, k)
  }

  // ----- Words: sums, zero and one -----

  lemma LowOfXor(w: bv64, v: bv64)
    ensures Low(Xor(w, v)) == (Low(w) != Low(v))
    ensures Half(Xor(w, v)) == Xor(Half(w), Half(v))
  {
  }

  lemma {:induction false} EvalXor(w: bv64, v: bv64, n: nat, s: State)
    ensures Eval(Xor(w, v), n, s) == Add(Eval(w, n, s), Eval(v, n, s))
    decreases n
  {
    hide Xor, Next, Add, Low, Half;
    AddLaws(s, ZERO, ZERO);
    AddLaws(ZERO, ZERO, ZERO);
    if n > 0 {
      LowOfXor(w, v);
      EvalXor(Half(w), Half(v), n - 1, Next(s));
      var a, b := if Low(w) then s else ZERO, if Low(v) then s else ZERO;
      AddSwapsMiddle(a, b, Eval(Half(w), n - 1, Next(s)), Eval(Half(v), n - 1, Next(s)));
    }
  }

  lemma ZeroHalves()
    ensures !Low(0) && Half(0) == 0
  {
  }

  lemma {:induction false} EvalZero(n: nat, s: State)
    ensures Eval(0, n, s) == ZERO
    decreases n
  {
    hide Next, Add, Low, Half;
    ZeroHalves();
    AddLaws(ZERO, ZERO, ZERO);
    if n > 0 { EvalZero(n - 1, Next(s)); }
  }

  lemma OneHalves()
    ensures Low(1) && Half(1) == 0
  {
  }

  lemma EvalOne(n: nat, s: State)
    requires n > 0
    ensures Eval(1, n, s) == s
  {
    hide Next, Add, Low, Half;
    OneHalves();
    EvalZero(n - 1, Next(s));
    AddLaws(s, ZERO, ZERO);
  }

  // ----- Products by x -----

  const TOP: bv64 := 0x8000_0000_0000_0000

  predicate Top(w: bv64) {
    w & 0x8000_0000_0000_0000 != 0
  }

  function Double(w: bv64): bv64 {
    w << 1
  }

  function Shr8(w: bv64): bv64 {
    w >> 8
  }

  /** The highest bit, moved to the lowest place. */
  function Carry(w: bv64): bv64 {
    if Top(w) then 1 else 0
  }

  predicate LowBitsClear(w: bv64, n: nat)
    decreases n
  {
    n == 0 || (!Low(w) && LowBitsClear(Half(w), n - 1))
  }

  lemma {:induction false} EvalOfClear(w: bv64, n: nat, s: State)
    requires LowBitsClear(w, n)
    ensures Eval(w, n, s) == ZERO
    decreases n
  {
    hide Next, Add, Low, Half;
    AddLaws(ZERO, ZERO, ZERO);
    if n > 0 { EvalOfClear(Half(w), n - 1, Next(s)); }
  }

  lemma HalvesToShr8(w: bv64)
    ensures Half(Half(Half(Half(Half(Half(Half(Half(w)))))))) == Shr8(w)
  {
  }

  /** The eight lowest bits, the way recursions meet them. */
  predicate ByteClear(w: bv64) {
    && !Low(w) && !Low(Half(w)) && !Low(Half(Half(w))) && !Low(Half(Half(Half(w))))
    && !Low(Half(Half(Half(Half(w))))) && !Low(Half(Half(Half(Half(Half(w))))))
    && !Low(Half(Half(Half(Half(Half(Half(w)))))))
    && !Low(Half(Half(Half(Half(Half(Half(Half(w))))))))
  }

  lemma ClearByte(w: bv64, n: nat)
    requires ByteClear(w) && LowBitsClear(Shr8(w), n)
    ensures LowBitsClear(w, n + 8)
  {
    HalvesToShr8(w);
    hide Half, Low, Shr8;
    var h2 := Half(Half(w));
    var h4 := Half(Half(h2));
    var h6 := Half(Half(h4));
    assert LowBitsClear(h6, n + 2);
    assert LowBitsClear(h4, n + 4);
    assert LowBitsClear(h2, n + 6);
  }

  lemma TopBytes()
    ensures Shr8(TOP) == 0x80_0000_0000_0000 && Shr8(0x80_0000_0000_0000) == 0x8000_0000_0000
    ensures Shr8(0x8000_0000_0000) == 0x80_0000_0000 && Shr8(0x80_0000_0000) == 0x8000_0000
    ensures Shr8(0x8000_0000) == 0x80_0000 && Shr8(0x80_0000) == 0x8000
  {
  }

  lemma HighBytesClear()
    ensures ByteClear(TOP) && ByteClear(0x80_0000_0000_0000)
    ensures ByteClear(0x8000_0000_0000) && ByteClear(0x80_0000_0000)
  {
  }

  lemma LowBytesClear()
    ensures ByteClear(0x8000_0000) && ByteClear(0x80_0000) && ByteClear(0x8000)
  {
  }

  lemma LastByte()
    ensures Shr8(0x8000) == 0x80 && LowBitsClear(0x80, 7)
  {
  }

  lemma TopIsClear()
    ensures LowBitsClear(TOP, 63)
  {
    TopBytes();
    HighBytesClear();
    LowBytesClear();
    LastByte();
    hide ByteClear, Shr8, LowBitsClear;
    ClearByte(0x8000, 7);
    ClearByte(0x80_0000, 15);
    ClearByte(0x8000_0000, 23);
    ClearByte(0x80_0000_0000, 31);
    ClearByte(0x8000_0000_0000, 39);
    ClearByte(0x80_0000_0000_0000, 47);
    ClearByte(TOP, 55);
  }

  lemma BitAtShr8(w: bv64, n: nat)
    ensures BitAt(w, n + 8) == BitAt(Shr8(w), n)
  {
    HalvesToShr8(w);
    hide Half, Low, Shr8;
    var h2 := Half(Half(w));
    var h4 := Half(Half(h2));
    var h6 := Half(Half(h4));
    assert BitAt(w, n + 8) == BitAt(h2, n + 6) == BitAt(h4, n + 4) == BitAt(h6, n + 2);
    assert BitAt(h6, n + 2) == BitAt(Half(Half(h6)), n);
  }

  lemma LastBitIsTop(w: bv64)
    ensures BitAt(Shr8(Shr8(Shr8(Shr8(Shr8(Shr8(Shr8(w))))))), 7) == Top(w)
  {
  }

  lemma TopBit(w: bv64)
    ensures BitAt(w, 63) == Top(w)
  {
    LastBitIsTop(w);
    hide Shr8, Top, BitAt;
    var w1 := Shr8(w);
    var w2 := Shr8(w1);
    var w3 := Shr8(w2);
    var w4 := Shr8(w3);
    var w5 := Shr8(w4);
    var w6 := Shr8(w5);
    BitAtShr8(w, 55);
    BitAtShr8(w1, 47);
    BitAtShr8(w2, 39);
    BitAtShr8(w3, 31);
    BitAtShr8(w4, 23);
    BitAtShr8(w5, 15);
    BitAtShr8(w6, 7);
  }

  lemma DoubleHalves(w: bv64)
    ensures !Low(Double(w)) && Half(Double(w)) == Xor(w, if Top(w) then TOP else 0)
  {
    DoubleIsEven(w);
    if Top(w) { DoubleLosesTop(w); } else { DoubleKeepsAll(w); }
    XorLaws(w, 0);
    hide Low, Double, Half, Top, Xor;
  }

  lemma DoubleIsEven(w: bv64)
    ensures !Low(Double(w))
  {
  }

  lemma DoubleLosesTop(w: bv64)
    requires Top(w)
    ensures Half(Double(w)) == Xor(w, TOP)
  {
  }

  lemma DoubleKeepsAll(w: bv64)
    requires !Top(w)
    ensures Half(Double(w)) == w
  {
  }

  /** Moving the coefficients up is a step, except for the one that is lost. */
  lemma EvalDouble(w: bv64, s: State)
    ensures Add(Eval(Double(w), 64, s), if Top(w) then Iterate(s, 64) else ZERO) == Next(Eval(w, 64, s))
  {
    hide Next, Add, Low, Half, Xor, Double, Top, BitAt, Iterate;
    DoubleHalves(w);
    TopIsClear();
    TopBit(w);
    var t, lost := Next(s), if Top(w) then TOP else 0;
    EvalXor(w, lost, 63, t);
    EvalOfClear(TOP, 63, t);
    EvalZero(63, t);
    AddLaws(Eval(w, 63, t), ZERO, ZERO);
    EvalAppend(w, 63, t);
    EvalCommutesWithNext(w, 64, s);
    StepFirst(s, 63);
    EvalFirst(Double(w), 64, s);
  }

  lemma EvalFirst(w: bv64, n: nat, s: State)
    requires n > 0 && !Low(w)
    ensures Eval(w, n, s) == Eval(Half(w), n - 1, Next(s))
  {
    hide Next, Add, Low, Half;
    AddLaws(Eval(Half(w), n - 1, Next(s)), ZERO, ZERO);
  }

  lemma StepFirst(s: State, n: nat)
    ensures Iterate(Next(s), n) == Iterate(s, n + 1)
  {
    hide Next;
    IterateAdd(s, 1, n);
    assert Iterate(s, 0) == s && Iterate(s, 1) == Next(s);
  }

  lemma EvalCarry(w: bv64, s: State)
    ensures Eval(Carry(w), 64, s) == if Top(w) then s else ZERO
  {
    hide Top;
    EvalOne(64, s);
    EvalZero(64, s);
    hide Eval;
  }

  lemma ValuePlus(p: Poly, q: Poly, s: State)
    ensures Value(Plus(p, q), s) == Add(Value(p, s), Value(q, s))
  {
    hide Xor, Add, Eval, Iterate;
    var t := Iterate(s, 64);
    EvalXor(p.lo, q.lo, 64, s);
    EvalXor(p.hi, q.hi, 64, t);
    AddSwapsMiddle(Eval(p.lo, 64, s), Eval(q.lo, 64, s), Eval(p.hi, 64, t), Eval(q.hi, 64, t));
  }

  lemma ValueLinear(p: Poly, s: State, t: State)
    ensures Value(p, Add(s, t)) == Add(Value(p, s), Value(p, t))
  {
    hide Add, Eval, Iterate;
    IterateLinear(s, t, 64);
    EvalLinear(p.lo, 64, s, t);
    EvalLinear(p.hi, 64, Iterate(s, 64), Iterate(t, 64));
    AddSwapsMiddle(Eval(p.lo, 64, s), Eval(p.lo, 64, t), Eval(p.hi, 64, Iterate(s, 64)),
      Eval(p.hi, 64, Iterate(t, 64)));
  }

  lemma ValueCommutesWithIterate(p: Poly, s: State, k: nat)
    ensures Value(p, Iterate(s, k)) == Iterate(Value(p, s), k)
  {
    hide Add, Eval, Iterate;
    IterateAdd(s, k, 64);
    IterateAdd(s, 64, k);
    EvalCommutesWithIterate(p.lo, 64, s, k);
    EvalCommutesWithIterate(p.hi, 64, Iterate(s, 64), k);
    IterateLinear(Eval(p.lo, 64, s), Eval(p.hi, 64, Iterate(s, 64)), k);
  }

  /** The coefficients moved up by one place; the highest is lost. */
  function Shifted(p: Poly): Poly {
    Poly(Double(p.lo), Xor(Double(p.hi), Carry(p.lo)))
  }

  function TimesX(p: Poly): Poly {
    if Top(p.hi) then Plus(Shifted(p), X128) else Shifted(p)
  }

  lemma ShiftedValue(p: Poly, s: State)
    ensures Add(Value(Shifted(p), s), if Top(p.hi) then Iterate(s, 128) else ZERO) == Next(Value(p, s))
  {
    hide Xor, Add, Eval, Iterate, Next, Top, Double, Carry;
    var t := Iterate(s, 64);
    IterateAdd(s, 64, 64);
    EvalDouble(p.lo, s);
    EvalDouble(p.hi, t);
    EvalXor(Double(p.hi), Carry(p.lo), 64, t);
    EvalCarry(p.lo, t);
    NextLinear(Eval(p.lo, 64, s), Eval(p.hi, 64, t));
    var a, b, c, d := Eval(Double(p.lo), 64, s), Eval(Double(p.hi), 64, t),
        if Top(p.lo) then t else ZERO, if Top(p.hi) then Iterate(s, 128) else ZERO;
    AddLaws(b, c, ZERO);
    AddLaws(a, c, b);
    AddLaws(Add(a, c), b, d);
  }

  /** A product by x is one more step. */
  lemma TimesXValue(p: Poly, s: State)
    requires Killed(s)
    ensures Value(TimesX(p), s) == Next(Value(p, s))
  {
    ShiftedValue(p, s);
    ValuePlus(Shifted(p), X128, s);
    AddLaws(Value(Shifted(p), s), ZERO, ZERO);
    hide Value, Plus, Shifted, Iterate, Next, Top, Add;
  }

  // ----- Squares -----

  lemma {:induction false} EvalEval(w: bv64, m: nat, v: bv64, n: nat, s: State)
    ensures Eval(w, m, Eval(v, n, s)) == Eval(v, n, Eval(w, m, s))
    decreases n
  {
    hide Next, Add, Low, Half;
    EvalOfZero(w, m);
    if n > 0 {
      EvalEval(w, m, Half(v), n - 1, Next(s));
      EvalLinear(w, m, if Low(v) then s else ZERO, Eval(Half(v), n - 1, Next(s)));
      EvalCommutesWithNext(w, m, s);
    }
  }

  lemma {:induction false} EvalOfZero(w: bv64, n: nat)
    ensures Eval(w, n, ZERO) == ZERO
    decreases n
  {
    hide Next, Add, Low, Half;
    ZeroIsIsolated(ZERO);
    AddLaws(ZERO, ZERO, ZERO);
    if n > 0 { EvalOfZero(Half(w), n - 1); }
  }

  /** The polynomial with the coefficients of w at twice their places. */
  function Eval2(w: bv64, n: nat, s: State): State
    decreases n
  {
    if n == 0 then ZERO
    else Add(if Low(w) then s else ZERO, Eval2(Half(w), n - 1, Next(Next(s))))
  }

  /** Squaring doubles the places: the mixed products cancel. */
  lemma {:induction false} SquareOfWord(w: bv64, n: nat, s: State)
    ensures Eval(w, n, Eval(w, n, s)) == Eval2(w, n, s)
    decreases n
  {
    hide Next, Add, Low, Half;
    if n > 0 {
      var h, t := Half(w), Next(s);
      var a, b := if Low(w) then s else ZERO, Eval(h, n - 1, t);
      SquareOfWord(h, n - 1, Next(t));
      EvalCommutesWithNext(h, n - 1, t);
      NextLinear(a, b);
      ZeroIsIsolated(ZERO);
      EvalLinear(h, n - 1, Next(a), Next(b));
      EvalOfZero(h, n - 1);
      AddLaws(ZERO, ZERO, ZERO);
      var c, d := if Low(w) then b else ZERO, Eval2(h, n - 1, Next(t));
      assert Eval(h, n - 1, Next(Add(a, b))) == Add(c, d);
      assert Eval(w, n, Add(a, b)) == Add(Add(a, c), Add(c, d));
      MixedCancel(a, c, d);
    }
  }

  /** (a + c) + (c + d) == a + d. */
  lemma MixedCancel(a: State, c: State, d: State)
    ensures Add(Add(a, c), Add(c, d)) == Add(a, d)
  {
    hide Add;
    AddLaws(a, c, Add(c, d));
    AddLaws(c, c, d);
    AddLaws(d, ZERO, ZERO);
  }

  lemma SquareOfPoly(p: Poly, s: State)
    ensures Value(p, Value(p, s)) == Add(Eval2(p.lo, 64, s), Eval2(p.hi, 64, Iterate(s, 128)))
  {
    hide Add, Eval, Eval2, Iterate, Next;
    var t := Iterate(s, 64);
    var l, h := Eval(p.lo, 64, s), Eval(p.hi, 64, t);
    IterateAdd(s, 64, 64);
    IterateLinear(l, h, 64);
    EvalLinear(p.lo, 64, l, h);
    EvalLinear(p.hi, 64, Iterate(l, 64), Iterate(h, 64));
    EvalCommutesWithIterate(p.lo, 64, s, 64);
    EvalCommutesWithIterate(p.hi, 64, t, 64);
    EvalEval(p.hi, 64, p.lo, 64, t);
    SquareOfWord(p.lo, 64, s);
    SquareOfWord(p.hi, 64, Iterate(s, 128));
    var mixed := Eval(p.lo, 64, h);
    assert Eval(p.hi, 64, Iterate(l, 64)) == mixed;
    assert Eval(p.hi, 64, Iterate(h, 64)) == Eval2(p.hi, 64, Iterate(s, 128));
    assert Value(p, Value(p, s)) == Add(Add(Eval2(p.lo, 64, s), mixed), Add(mixed, Eval2(p.hi, 64, Iterate(s, 128))));
    MixedCancel(Eval2(p.lo, 64, s), mixed, Eval2(p.hi, 64, Iterate(s, 128)));
  }

  // ----- Words byte by byte -----

  function Halves(w: bv64, m: nat): bv64
    decreases m
  {
    if m == 0 then w else Halves(Half(w), m - 1)
  }

  lemma EightHalves(w: bv64)
    ensures Halves(w, 8) == Shr8(w)
  {
    HalvesToShr8(w);
    hide Half, Shr8;
    var h2 := Half(Half(w));
    var h4 := Half(Half(h2));
    var h6 := Half(Half(h4));
    assert Halves(w, 8) == Halves(h2, 6) == Halves(h4, 4) == Halves(h6, 2);
  }

  lemma {:induction false} Eval2Add(w: bv64, m: nat, n: nat, s: State)
    ensures Eval2(w, m + n, s) == Add(Eval2(w, m, s), Eval2(Halves(w, m), n, Iterate(s, 2 * m)))
    decreases m
  {
    hide Next, Add, Low, Half;
    if m == 0 {
      AddLaws(Eval2(w, n, s), ZERO, ZERO);
    } else {
      Eval2Add(Half(w), m - 1, n, Next(Next(s)));
      StepFirst(Next(s), 2 * m - 2);
      StepFirst(s, 2 * m - 1);
      AddLaws(if Low(w) then s else ZERO, Eval2(Half(w), m - 1, Next(Next(s))),
              Eval2(Halves(w, m), n, Iterate(s, 2 * m)));
    }
  }

  lemma Eval2Byte(w: bv64, n: nat, s: State)
    ensures Eval2(w, n + 8, s) == Add(Eval2(w, 8, s), Eval2(Shr8(w), n, Iterate(s, 16)))
  {
    hide Next, Add, Low, Half, Shr8, Eval2;
    EightHalves(w);
    Eval2Add(w, 8, n, s);
  }

  lemma {:induction false} EvalAdd(w: bv64, m: nat, n: nat, s: State)
    ensures Eval(w, m + n, s) == Add(Eval(w, m, s), Eval(Halves(w, m), n, Iterate(s, m)))
    decreases m
  {
    hide Next, Add, Low, Half;
    if m == 0 {
      AddLaws(Eval(w, n, s), ZERO, ZERO);
    } else {
      EvalAdd(Half(w), m - 1, n, Next(s));
      StepFirst(s, m - 1);
      AddLaws(if Low(w) then s else ZERO, Eval(Half(w), m - 1, Next(s)), Eval(Halves(w, m), n, Iterate(s, m)));
    }
  }

  lemma EvalByte(w: bv64, n: nat, s: State)
    ensures Eval(w, n + 8, s) == Add(Eval(w, 8, s), Eval(Shr8(w), n, Iterate(s, 8)))
  {
    hide Next, Add, Low, Half, Shr8, Eval;
    EightHalves(w);
    EvalAdd(w, 8, n, s);
  }

  // ----- Table lookups -----

  /** The sum of the entries that the bits of w select, from the lowest. */
  function Choose(w: bv64, entries: seq<Poly>): Poly
    decreases |entries|
  {
    if entries == [] then NOTHING
    else Plus(if Low(w) then entries[0] else NOTHING, Choose(Half(w), entries[1..]))
  }

  function AsState(p: Poly): State {
    State(p.lo, p.hi)
  }

  lemma ValueOfNothing(s: State)
    ensures Value(NOTHING, s) == ZERO
  {
    hide Eval, Iterate, Add;
    EvalZero(64, s);
    EvalZero(64, Iterate(s, 64));
    AddLaws(ZERO, ZERO, ZERO);
  }

  /** Entries that stand for every other power choose a polynomial with the selected
      bits at twice their places. */
  lemma {:induction false} ChooseValue(w: bv64, entries: seq<Poly>, base: nat, s: State)
    requires forall j :: 0 <= j < |entries| ==> Value(entries[j], s) == Iterate(s, base + 2 * j)
    ensures Value(Choose(w, entries), s) == Eval2(w, |entries|, Iterate(s, base))
    decreases |entries|
  {
    hide Value, Plus, Add, Low, Half, Next;
    ValueOfNothing(s);
    if entries != [] {
      var first := if Low(w) then entries[0] else NOTHING;
      assert forall j :: 0 <= j < |entries| - 1 ==> entries[1..][j] == entries[j + 1];
      ChooseValue(Half(w), entries[1..], base + 2, s);
      ValuePlus(first, Choose(Half(w), entries[1..]), s);
      TwoStepsMore(s, base);
      assert Value(entries[0], s) == Iterate(s, base + 2 * 0);
    }
  }

  /** The same for a table of successive states. */
  lemma {:induction false} ChooseStates(w: bv64, entries: seq<Poly>, s: State)
    requires forall j :: 0 <= j < |entries| ==> AsState(entries[j]) == Iterate(s, j)
    ensures AsState(Choose(w, entries)) == Eval(w, |entries|, s)
    decreases |entries|
  {
    hide Low, Half, Next, Xor;
    if entries != [] {
      forall j | 0 <= j < |entries| - 1 ensures AsState(entries[1..][j]) == Iterate(Next(s), j) {
        StepFirst(s, j);
      }
      ChooseStates(Half(w), entries[1..], Next(s));
      assert AsState(entries[0]) == Iterate(s, 0);
    }
  }

  // ----- Where the characteristic polynomial vanishes -----

  lemma KilledAdd(s: State, t: State)
    requires Killed(s) && Killed(t)
    ensures Killed(Add(s, t))
  {
    hide Value, Iterate, Add;
    ValueLinear(X128, s, t);
    IterateLinear(s, t, 128);
  }

  lemma KilledZero()
    ensures Killed(ZERO)
  {
    hide Next, Add;
    ZeroStays(128);
    ZeroStays(64);
    EvalOfZero(X128.lo, 64);
    EvalOfZero(X128.hi, 64);
    AddLaws(ZERO, ZERO, ZERO);
    hide Eval, Iterate;
  }

  /** If it vanishes at a state, then at everything that is made from that state. */
  lemma KilledValue(p: Poly, s: State)
    requires Killed(s)
    ensures Killed(Value(p, s))
  {
    hide Iterate, Add, Eval;
    ValueValue(X128, p, s);
    ValueCommutesWithIterate(p, s, 128);
    hide Value;
  }

  lemma ValueValue(p: Poly, q: Poly, s: State)
    ensures Value(p, Value(q, s)) == Value(q, Value(p, s))
  {
    hide Iterate, Add, Eval;
    var t := Iterate(s, 64);
    var l, h := Eval(q.lo, 64, s), Eval(q.hi, 64, t);
    ValueLinear(p, l, h);
    EvalOfValue(p, q.lo, s);
    EvalOfValue(p, q.hi, t);
    ValueCommutesWithIterate(p, s, 64);
  }

  lemma EvalOfValue(p: Poly, w: bv64, s: State)
    ensures Value(p, Eval(w, 64, s)) == Eval(w, 64, Value(p, s))
  {
    hide Iterate, Add, Eval;
    var t := Iterate(s, 64);
    EvalLinear(w, 64, Eval(p.lo, 64, s), Eval(p.hi, 64, t));
    EvalEval(p.lo, 64, w, 64, s);
    EvalEval(p.hi, 64, w, 64, t);
    EvalCommutesWithIterate(w, 64, s, 64);
  }

  lemma KilledNext(s: State)
    requires Killed(s)
    ensures Killed(Next(s))
  {
    hide Value;
    OneStep(s);
    ValueCommutesWithIterate(X128, s, 1);
    OneStep(Value(X128, s));
    IterateAdd(s, 1, 128);
    IterateAdd(s, 128, 1);
    OneStep(Iterate(s, 128));
    hide Iterate;
  }

  lemma KilledPrev(s: State)
    requires Killed(Next(s))
    ensures Killed(s)
  {
    hide Value;
    OneStep(s);
    ValueCommutesWithIterate(X128, s, 1);
    OneStep(Value(X128, s));
    IterateAdd(s, 1, 128);
    IterateAdd(s, 128, 1);
    OneStep(Iterate(s, 128));
    PrevUndoesNext(Value(X128, s));
    PrevUndoesNext(Iterate(s, 128));
    hide Iterate, Next, Prev;
  }

  lemma OneStep(s: State)
    ensures Iterate(s, 1) == Next(s)
  {
    assert Iterate(s, 0) == s;
  }
}
