/**
 The step of xoroshiro128+ is a root of its characteristic polynomial, at every state.
 */
module XoroshiroCharacteristic {
  import opened Xoroshiro
  import opened XoroshiroPolynomials
  import opened XoroshiroRows
  import opened XoroshiroTables

  // ----- The rows of the tables -----

  /** The entries of row k of the powers. */
  function PowersEntries(k: nat): (e: seq<Poly>)
    ensures |e| == 8
  {
    [PowersRow(k, 0x1), PowersRow(k, 0x2), PowersRow(k, 0x4), PowersRow(k, 0x8),
     PowersRow(k, 0x10), PowersRow(k, 0x20), PowersRow(k, 0x40), PowersRow(k, 0x80)]
  }

  /** The entries of row k of the states. */
  function StatesEntries(k: nat): (e: seq<Poly>)
    ensures |e| == 8
  {
    [StatesRow(k, 0x1), StatesRow(k, 0x2), StatesRow(k, 0x4), StatesRow(k, 0x8),
     StatesRow(k, 0x10), StatesRow(k, 0x20), StatesRow(k, 0x40), StatesRow(k, 0x80)]
  }

  lemma PowersFollow(k: nat)
    requires k < 16
    ensures Follows(PowersRow(k, 0x1), PowersRow(k, 0x2)) && Follows(PowersRow(k, 0x2), PowersRow(k, 0x4))
    ensures Follows(PowersRow(k, 0x4), PowersRow(k, 0x8)) && Follows(PowersRow(k, 0x8), PowersRow(k, 0x10))
    ensures Follows(PowersRow(k, 0x10), PowersRow(k, 0x20)) && Follows(PowersRow(k, 0x20), PowersRow(k, 0x40))
    ensures Follows(PowersRow(k, 0x40), PowersRow(k, 0x80))
    ensures k < 15 ==> Follows(PowersRow(k, 0x80), PowersRow(k + 1, 0x1))
  {
    hide Follows, Powers0, Powers1, Powers2, Powers3, Powers4, Powers5, Powers6, Powers7, Powers8, Powers9, Powers10,
      Powers11, Powers12, Powers13, Powers14, Powers15;
    if k == 0 { PowersFollow0(); }
    else if k == 1 { PowersFollow1(); }
    else if k == 2 { PowersFollow2(); }
    else if k == 3 { PowersFollow3(); }
    else if k == 4 { PowersFollow4(); }
    else if k == 5 { PowersFollow5(); }
    else if k == 6 { PowersFollow6(); }
    else if k == 7 { PowersFollow7(); }
    else if k == 8 { PowersFollow8(); }
    else if k == 9 { PowersFollow9(); }
    else if k == 10 { PowersFollow10(); }
    else if k == 11 { PowersFollow11(); }
    else if k == 12 { PowersFollow12(); }
    else if k == 13 { PowersFollow13(); }
    else if k == 14 { PowersFollow14(); }
    else { PowersFollow15(); }
  }

  lemma PowersFollowAt(k: nat, j: nat)
    requires k < 16 && j < 7
    ensures Follows(PowersEntries(k)[j], PowersEntries(k)[j + 1])
  {
    hide Follows, PowersRow;
    PowersFollow(k);
    if j == 0 {} else if j == 1 {} else if j == 2 {} else if j == 3 {} else if j == 4 {} else if j == 5 {} else {}
  }

  lemma PowersFollowRow(k: nat)
    requires k < 15
    ensures Follows(PowersEntries(k)[7], PowersEntries(k + 1)[0])
  {
    hide Follows, PowersRow;
    PowersFollow(k);
  }

  lemma StatesFollow(k: nat)
    requires k < 16
    ensures Steps(StatesRow(k, 0x1), StatesRow(k, 0x2)) && Steps(StatesRow(k, 0x2), StatesRow(k, 0x4))
    ensures Steps(StatesRow(k, 0x4), StatesRow(k, 0x8)) && Steps(StatesRow(k, 0x8), StatesRow(k, 0x10))
    ensures Steps(StatesRow(k, 0x10), StatesRow(k, 0x20)) && Steps(StatesRow(k, 0x20), StatesRow(k, 0x40))
    ensures Steps(StatesRow(k, 0x40), StatesRow(k, 0x80))
    ensures k < 15 ==> Steps(StatesRow(k, 0x80), StatesRow(k + 1, 0x1))
  {
    hide Steps, States0, States1, States2, States3, States4, States5, States6, States7, States8, States9, States10,
      States11, States12, States13, States14, States15;
    if k == 0 { StatesFollow0(); }
    else if k == 1 { StatesFollow1(); }
    else if k == 2 { StatesFollow2(); }
    else if k == 3 { StatesFollow3(); }
    else if k == 4 { StatesFollow4(); }
    else if k == 5 { StatesFollow5(); }
    else if k == 6 { StatesFollow6(); }
    else if k == 7 { StatesFollow7(); }
    else if k == 8 { StatesFollow8(); }
    else if k == 9 { StatesFollow9(); }
    else if k == 10 { StatesFollow10(); }
    else if k == 11 { StatesFollow11(); }
    else if k == 12 { StatesFollow12(); }
    else if k == 13 { StatesFollow13(); }
    else if k == 14 { StatesFollow14(); }
    else { StatesFollow15(); }
  }

  lemma StatesFollowAt(k: nat, j: nat)
    requires k < 16 && j < 7
    ensures Steps(StatesEntries(k)[j], StatesEntries(k)[j + 1])
  {
    hide Steps, StatesRow;
    StatesFollow(k);
    if j == 0 {} else if j == 1 {} else if j == 2 {} else if j == 3 {} else if j == 4 {} else if j == 5 {} else {}
  }

  lemma StatesFollowRow(k: nat)
    requires k < 15
    ensures Steps(StatesEntries(k)[7], StatesEntries(k + 1)[0])
  {
    hide Steps, StatesRow;
    StatesFollow(k);
  }

  // ----- What the tables stand for -----

  lemma PowersChosen0(k: nat, w: bv64)
    requires k < 4
    ensures PowersRow(k, w) == Choose(w, PowersEntries(k))
  {
    hide Choose, Eight, Picked;
    hide Powers4To7, Powers8To11, Powers12To15;
    AllSelections(w);
    if k == 0 {} else if k == 1 {} else if k == 2 {} else {}
    ChooseIsPicked(w, PowersEntries(k));
  }

  lemma PowersChosen1(k: nat, w: bv64)
    requires 4 <= k < 8
    ensures PowersRow(k, w) == Choose(w, PowersEntries(k))
  {
    hide Choose, Eight, Picked;
    hide Powers0To3, Powers8To11, Powers12To15;
    AllSelections(w);
    if k == 4 {} else if k == 5 {} else if k == 6 {} else {}
    ChooseIsPicked(w, PowersEntries(k));
  }

  lemma PowersChosen2(k: nat, w: bv64)
    requires 8 <= k < 12
    ensures PowersRow(k, w) == Choose(w, PowersEntries(k))
  {
    hide Choose, Eight, Picked;
    hide Powers0To3, Powers4To7, Powers12To15;
    AllSelections(w);
    if k == 8 {} else if k == 9 {} else if k == 10 {} else {}
    ChooseIsPicked(w, PowersEntries(k));
  }

  lemma PowersChosen3(k: nat, w: bv64)
    requires k >= 12
    ensures PowersRow(k, w) == Choose(w, PowersEntries(k))
  {
    hide Choose, Eight, Picked;
    hide Powers0To3, Powers4To7, Powers8To11;
    AllSelections(w);
    if k == 12 {} else if k == 13 {} else if k == 14 {} else {}
    ChooseIsPicked(w, PowersEntries(k));
  }

  lemma PowersChosen(k: nat, w: bv64)
    ensures PowersRow(k, w) == Choose(w, PowersEntries(k))
  {
    hide PowersRow, PowersEntries, Choose;
    if k < 4 { PowersChosen0(k, w); }
    else if k < 8 { PowersChosen1(k, w); }
    else if k < 12 { PowersChosen2(k, w); }
    else { PowersChosen3(k, w); }
  }

  lemma StatesChosen0(k: nat, w: bv64)
    requires k < 4
    ensures StatesRow(k, w) == Choose(w, StatesEntries(k))
  {
    hide Choose, Eight, Picked;
    hide States4To7, States8To11, States12To15;
    AllSelections(w);
    if k == 0 {} else if k == 1 {} else if k == 2 {} else {}
    ChooseIsPicked(w, StatesEntries(k));
  }

  lemma StatesChosen1(k: nat, w: bv64)
    requires 4 <= k < 8
    ensures StatesRow(k, w) == Choose(w, StatesEntries(k))
  {
    hide Choose, Eight, Picked;
    hide States0To3, States8To11, States12To15;
    AllSelections(w);
    if k == 4 {} else if k == 5 {} else if k == 6 {} else {}
    ChooseIsPicked(w, StatesEntries(k));
  }

  lemma StatesChosen2(k: nat, w: bv64)
    requires 8 <= k < 12
    ensures StatesRow(k, w) == Choose(w, StatesEntries(k))
  {
    hide Choose, Eight, Picked;
    hide States0To3, States4To7, States12To15;
    AllSelections(w);
    if k == 8 {} else if k == 9 {} else if k == 10 {} else {}
    ChooseIsPicked(w, StatesEntries(k));
  }

  lemma StatesChosen3(k: nat, w: bv64)
    requires k >= 12
    ensures StatesRow(k, w) == Choose(w, StatesEntries(k))
  {
    hide Choose, Eight, Picked;
    hide States0To3, States4To7, States8To11;
    AllSelections(w);
    if k == 12 {} else if k == 13 {} else if k == 14 {} else {}
    ChooseIsPicked(w, StatesEntries(k));
  }

  lemma StatesChosen(k: nat, w: bv64)
    ensures StatesRow(k, w) == Choose(w, StatesEntries(k))
  {
    hide StatesRow, StatesEntries, Choose;
    if k < 4 { StatesChosen0(k, w); }
    else if k < 8 { StatesChosen1(k, w); }
    else if k < 12 { StatesChosen2(k, w); }
    else { StatesChosen3(k, w); }
  }

  lemma TwoMore(p: Poly, q: Poly, s: State, n: nat)
    requires Killed(s) && Follows(p, q) && Value(p, s) == Iterate(s, n)
    ensures Value(q, s) == Iterate(s, n + 2)
  {
    hide TimesX, Value, Next, Killed;
    TimesXValue(p, s);
    TimesXValue(TimesX(p), s);
    TwoStepsMore(s, n);
  }

  lemma PowersZero()
    ensures PowersEntries(0)[0] == Poly(1, 0)
  {
  }

  lemma OneValue(s: State)
    ensures Value(Poly(1, 0), s) == s
  {
    hide Add, Eval;
    EvalOne(64, s);
    EvalZero(64, Iterate(s, 64));
    AddLaws(s, ZERO, ZERO);
    hide Iterate;
  }

  lemma NoSteps(s: State)
    ensures Iterate(s, 0) == s
  {
  }

  /** Entry j of row k of the powers stands for 16 * k + 2 * j steps. */
  lemma {:induction false} PowersAt(k: nat, j: nat, s: State)
    requires k < 16 && j < 8 && Killed(s)
    ensures Value(PowersEntries(k)[j], s) == Iterate(s, 16 * k + 2 * j)
    decreases k, j
  {
    hide Killed, Follows, PowersEntries, Value, Iterate;
    if j > 0 {
      PowersAt(k, j - 1, s);
      PowersFollowAt(k, j - 1);
      TwoMore(PowersEntries(k)[j - 1], PowersEntries(k)[j], s, 16 * k + 2 * (j - 1));
    } else if k > 0 {
      PowersAt(k - 1, 7, s);
      PowersFollowRow(k - 1);
      TwoMore(PowersEntries(k - 1)[7], PowersEntries(k)[0], s, 16 * (k - 1) + 14);
    } else {
      PowersZero();
      OneValue(s);
      NoSteps(s);
    }
  }

  lemma PowersRowValue(k: nat, w: bv64, s: State)
    requires k < 16 && Killed(s)
    ensures Value(PowersRow(k, w), s) == Eval2(w, 8, Iterate(s, 16 * k))
  {
    hide Killed, Value, Eval2, Iterate, Choose, PowersRow, PowersEntries;
    forall j | 0 <= j < 8 ensures Value(PowersEntries(k)[j], s) == Iterate(s, 16 * k + 2 * j) {
      PowersAt(k, j, s);
    }
    PowersChosen(k, w);
    ChooseValue(w, PowersEntries(k), 16 * k, s);
  }

  const START: State := State(1, 0)

  lemma StatesZero()
    ensures AsState(StatesEntries(0)[0]) == START
  {
  }

  lemma OneMoreStep(p: Poly, q: Poly, s: State, n: nat)
    requires Steps(p, q) && AsState(p) == Iterate(s, n)
    ensures AsState(q) == Iterate(s, n + 1)
  {
    hide Next;
  }

  /** Entry j of row k of the states comes 8 * k + j steps after START. */
  lemma {:induction false} StatesAt(k: nat, j: nat)
    requires k < 16 && j < 8
    ensures AsState(StatesEntries(k)[j]) == Iterate(START, 8 * k + j)
    decreases k, j
  {
    hide Steps, StatesEntries, Iterate;
    if j > 0 {
      StatesAt(k, j - 1);
      StatesFollowAt(k, j - 1);
      OneMoreStep(StatesEntries(k)[j - 1], StatesEntries(k)[j], START, 8 * k + (j - 1));
    } else if k > 0 {
      StatesAt(k - 1, 7);
      StatesFollowRow(k - 1);
      OneMoreStep(StatesEntries(k - 1)[7], StatesEntries(k)[0], START, 8 * (k - 1) + 7);
    } else {
      StatesZero();
      NoSteps(START);
    }
  }

  lemma StatesRowValue(k: nat, w: bv64)
    requires k < 16
    ensures AsState(StatesRow(k, w)) == Eval(w, 8, Iterate(START, 8 * k))
  {
    hide Eval, Iterate, Choose, StatesRow, StatesEntries, AsState;
    forall j | 0 <= j < 8 ensures AsState(StatesEntries(k)[j]) == Iterate(Iterate(START, 8 * k), j) {
      StatesAt(k, j);
      IterateAdd(START, 8 * k, j);
    }
    StatesChosen(k, w);
    ChooseStates(w, StatesEntries(k), Iterate(START, 8 * k));
  }

  // ----- Sums of rows -----

  function PowersSum(k: nat, n: nat, w: bv64): Poly
    decreases n
  {
    if n <= 1 then PowersRow(k, w) else Plus(PowersRow(k, w), PowersSum(k + 1, n - 1, Shr8(w)))
  }

  lemma {:induction false} PowersSumValue(k: nat, n: nat, w: bv64, s: State)
    requires 0 < n && k + n <= 16 && Killed(s)
    ensures Value(PowersSum(k, n, w), s) == Eval2(w, 8 * n, Iterate(s, 16 * k))
    decreases n
  {
    hide Killed, Value, Eval2, PowersRow, Shr8, Plus, Add, Iterate;
    PowersRowValue(k, w, s);
    if n > 1 {
      PowersSumValue(k + 1, n - 1, Shr8(w), s);
      ValuePlus(PowersRow(k, w), PowersSum(k + 1, n - 1, Shr8(w)), s);
      Eval2Byte(w, 8 * (n - 1), Iterate(s, 16 * k));
      IterateAdd(s, 16 * k, 16);
    }
  }

  function StatesSum(k: nat, n: nat, w: bv64): Poly
    decreases n
  {
    if n <= 1 then StatesRow(k, w) else Plus(StatesRow(k, w), StatesSum(k + 1, n - 1, Shr8(w)))
  }

  lemma PlusIsAdd(p: Poly, q: Poly)
    ensures AsState(Plus(p, q)) == Add(AsState(p), AsState(q))
  {
    hide Xor;
  }

  lemma {:induction false} StatesSumValue(k: nat, n: nat, w: bv64)
    requires 0 < n && k + n <= 16
    ensures AsState(StatesSum(k, n, w)) == Eval(w, 8 * n, Iterate(START, 8 * k))
    decreases n
  {
    hide Eval, StatesRow, Shr8, Plus, Add, Iterate, AsState;
    StatesRowValue(k, w);
    if n > 1 {
      StatesSumValue(k + 1, n - 1, Shr8(w));
      PlusIsAdd(StatesRow(k, w), StatesSum(k + 1, n - 1, Shr8(w)));
      EvalByte(w, 8 * (n - 1), Iterate(START, 8 * k));
      IterateAdd(START, 8 * k, 8);
    }
  }

  lemma SquareLowIsSum(w: bv64)
    ensures SquareLow(w) == PowersSum(0, 8, w)
  {
    hide Shr8, Plus, Sum8, Eight;
    Shifts(w);
    SumOfPolys([PowersRow(0, w), PowersRow(1, w >> 8), PowersRow(2, w >> 16), PowersRow(3, w >> 24),
                PowersRow(4, w >> 32), PowersRow(5, w >> 40), PowersRow(6, w >> 48), PowersRow(7, w >> 56)]);
  }

  lemma SquareHighIsSum(w: bv64)
    ensures SquareHigh(w) == PowersSum(8, 8, w)
  {
    hide Shr8, Plus, Sum8, Eight;
    Shifts(w);
    SumOfPolys([PowersRow(8, w), PowersRow(9, w >> 8), PowersRow(10, w >> 16), PowersRow(11, w >> 24),
                PowersRow(12, w >> 32), PowersRow(13, w >> 40), PowersRow(14, w >> 48), PowersRow(15, w >> 56)]);
  }

  lemma CombinedLowIsSum(w: bv64)
    ensures CombinedLow(w) == StatesSum(0, 8, w)
  {
    hide Shr8, Plus, Sum8, Eight;
    Shifts(w);
    SumOfPolys([StatesRow(0, w), StatesRow(1, w >> 8), StatesRow(2, w >> 16), StatesRow(3, w >> 24),
                StatesRow(4, w >> 32), StatesRow(5, w >> 40), StatesRow(6, w >> 48), StatesRow(7, w >> 56)]);
  }

  lemma CombinedHighIsSum(w: bv64)
    ensures CombinedHigh(w) == StatesSum(8, 8, w)
  {
    hide Shr8, Plus, Sum8, Eight;
    Shifts(w);
    SumOfPolys([StatesRow(8, w), StatesRow(9, w >> 8), StatesRow(10, w >> 16), StatesRow(11, w >> 24),
                StatesRow(12, w >> 32), StatesRow(13, w >> 40), StatesRow(14, w >> 48), StatesRow(15, w >> 56)]);
  }

  /** The table of squares squares, wherever the characteristic polynomial vanishes. */
  lemma SquareValue(p: Poly, s: State)
    requires Killed(s)
    ensures Value(Square(p.lo, p.hi), s) == Value(p, Value(p, s))
  {
    hide Value, Eval2, Killed, SquareLow, SquareHigh, Plus, Add, PowersSum;
    SquareLowIsSum(p.lo);
    SquareHighIsSum(p.hi);
    PowersSumValue(0, 8, p.lo, s);
    PowersSumValue(8, 8, p.hi, s);
    ValuePlus(SquareLow(p.lo), SquareHigh(p.hi), s);
    SquareOfPoly(p, s);
    assert Iterate(s, 0) == s;
    hide Iterate;
  }

  lemma CombinedValue(p: Poly)
    ensures Combined(p.lo, p.hi) == Value(p, START)
  {
    hide Eval, CombinedLow, CombinedHigh, Add, Plus, StatesSum, AsState;
    PlusIsAdd(CombinedLow(p.lo), CombinedHigh(p.hi));
    CombinedLowIsSum(p.lo);
    CombinedHighIsSum(p.hi);
    StatesSumValue(0, 8, p.lo);
    StatesSumValue(8, 8, p.hi);
    assert Iterate(START, 0) == START;
    hide Iterate;
  }

  // ----- The characteristic polynomial vanishes everywhere -----

  lemma LastEntry()
    ensures StatesEntries(15)[7] == States15(0x80)
  {
    hide States15;
  }

  lemma StepAfter127()
    ensures Iterate(START, 128) == Next(Iterate(START, 127))
  {
    hide Next;
  }

  lemma StartKilled()
    ensures Killed(START)
  {
    CombinedValue(X128);
    CombinedX128();
    StatesAt(15, 7);
    LastEntry();
    hide Value, Iterate, Combined, Next, States15, StatesEntries;
    assert Iterate(START, 8 * 15 + 7) == AsState(States15(0x80));
    StepAfter127();
  }

  predicate Within(w: bv64, m: bv64) {
    w & !m == 0
  }

  /** It vanishes at State(w, 0) for every w that has bits only in m. */
  ghost predicate KilledWithin(m: bv64) {
    forall w: bv64 :: Within(w, m) ==> Killed(State(w, 0))
  }

  lemma WithinBit(w: bv64, b: bv64)
    requires Within(w, b) && b & (b - 1) == 0
    ensures w == 0 || w == b
  {
  }

  lemma SeedBit(p: Poly, b: bv64)
    requires Combined(p.lo, p.hi) == State(b, 0) && b & (b - 1) == 0
    ensures KilledWithin(b)
  {
    hide Within, Killed, Combined, Value, Iterate;
    StartKilled();
    KilledValue(p, START);
    CombinedValue(p);
    KilledZero();
    forall w: bv64 | Within(w, b) ensures Killed(State(w, 0)) {
      WithinBit(w, b);
    }
  }

  lemma WithinUnion(w: bv64, m: bv64, n: bv64)
    requires Within(w, m | n)
    ensures Within(w & m, m) && Within(w & !m, n) && w == Xor(w & m, w & !m)
  {
  }

  lemma KilledSum(a: bv64, b: bv64)
    requires Killed(State(a, 0)) && Killed(State(b, 0))
    ensures Killed(State(Xor(a, b), 0))
  {
    KilledAdd(State(a, 0), State(b, 0));
    XorBasics(0, 0);
    hide Killed, Xor;
  }

  lemma KilledUnion(m: bv64, n: bv64)
    requires KilledWithin(m) && KilledWithin(n)
    ensures KilledWithin(m | n)
  {
    forall w: bv64 | Within(w, m | n) ensures Killed(State(w, 0)) {
      WithinUnion(w, m, n);
      KilledSum(w & m, w & !m);
    }
    hide Within, Killed, Xor;
  }

  function Rotl27(x: bv64): bv64 { Rotl(x, 27) }

  function Rotl36(x: bv64): bv64 { Rotl(x, 36) }

  function Rotl55(x: bv64): bv64 { Rotl(x, 55) }

  lemma Rotl55Of36(w: bv64)
    ensures Rotl(Rotl(w, 36), 55) == Rotl27(w)
  {
  }

  function Mixed(w: bv64): bv64 {
    Xor(Xor(Rotl55(w), w), Xor(Shift14(w), Rotl36(w)))
  }

  lemma XorCommon(x: bv64, y: bv64, t: bv64, u: bv64)
    ensures Xor(Xor(Xor(x, t), u), Xor(Xor(y, t), u)) == Xor(x, y)
  {
    hide Xor;
    XorSwapsMiddle(Xor(x, t), u, Xor(y, t), u);
    XorSwapsMiddle(x, t, y, t);
    XorLaws(u, u);
    XorLaws(t, t);
    XorLaws(Xor(x, y), 0);
  }

  lemma FirstStep(w: bv64)
    ensures Next(State(w, 0)) == State(Xor(Xor(Rotl55(w), w), Shift14(w)), Rotl36(w))
  {
    hide Xor, Rotl, Shift14;
    XorLaws(w, 0);
  }

  lemma MixedAfterFirst(w: bv64)
    ensures var a, b := Xor(Xor(Rotl55(w), w), Shift14(w)), Rotl36(w); Xor(b, a) == Mixed(w) && Xor(Mixed(w), a) == b
  {
    hide Xor, Rotl55, Rotl36, Shift14;
    var x, b := Xor(Rotl55(w), w), Rotl36(w);
    var a := Xor(x, Shift14(w));
    XorAssociates(x, Shift14(w), b);
    XorLaws(a, b);
    XorLaws(b, a);
  }

  /** How a word of the state is tied to four others that come from it. */
  lemma Relation(w: bv64)
    ensures State(Rotl27(w), 0) == Add(Next(State(Mixed(w), 0)), Next(Next(State(w, 0))))
  {
    Rotl55Of36(w);
    FirstStep(w);
    MixedAfterFirst(w);
    var a, b, t := Xor(Xor(Rotl55(w), w), Shift14(w)), Rotl36(w), Mixed(w);
    FirstStep(t);
    RotlOfXor55(t, a);
    XorCommon(Rotl55(t), Rotl55(a), t, Shift14(t));
    XorLaws(Rotl36(t), Rotl36(t));
    hide Xor, Rotl, Shift14, Mixed;
  }

  /** State(Mixed(w), 0) from its four parts. */
  lemma KilledMixed(w: bv64)
    requires Killed(State(Rotl55(w), 0)) && Killed(State(w, 0))
    requires Killed(State(Shift14(w), 0)) && Killed(State(Rotl36(w), 0))
    ensures Killed(State(Mixed(w), 0))
  {
    hide Killed, Xor, Rotl55, Rotl36, Shift14;
    KilledSum(Rotl55(w), w);
    KilledSum(Shift14(w), Rotl36(w));
    KilledSum(Xor(Rotl55(w), w), Xor(Shift14(w), Rotl36(w)));
  }

  lemma KilledRotl27(w: bv64)
    requires Killed(State(Rotl55(w), 0)) && Killed(State(w, 0))
    requires Killed(State(Shift14(w), 0)) && Killed(State(Rotl36(w), 0))
    ensures Killed(State(Rotl27(w), 0))
  {
    hide Killed, Xor, Rotl55, Rotl36, Rotl27, Shift14, Next, Mixed, Add;
    KilledMixed(w);
    KilledNext(State(Mixed(w), 0));
    KilledNext(State(w, 0));
    KilledNext(Next(State(w, 0)));
    Relation(w);
    KilledAdd(Next(State(Mixed(w), 0)), Next(Next(State(w, 0))));
  }

  lemma KilledRotl36(w: bv64)
    requires Killed(State(Rotl55(w), 0)) && Killed(State(w, 0))
    requires Killed(State(Shift14(w), 0)) && Killed(State(Rotl27(w), 0))
    ensures Killed(State(Rotl36(w), 0))
  {
    hide Killed, Xor, Rotl55, Rotl36, Rotl27, Shift14, Next, Add, Mixed;
    KilledNext(State(w, 0));
    var u := Next(Next(State(w, 0)));
    KilledNext(Next(State(w, 0)));
    Relation(w);
    KilledAdd(State(Rotl27(w), 0), u);
    AddLaws(Next(State(Mixed(w), 0)), u, u);
    AddLaws(Next(State(Mixed(w), 0)), ZERO, ZERO);
    AddLaws(u, u, u);
    KilledPrev(State(Mixed(w), 0));
    MixedAfterFirst(w);
    KilledSum(Rotl55(w), w);
    KilledSum(Xor(Rotl55(w), w), Shift14(w));
    KilledSum(Mixed(w), Xor(Xor(Rotl55(w), w), Shift14(w)));
  }

  lemma WithinShift14(x: bv64, j: bv64, m: bv64)
    requires Within(x, j) && Within(Shift14(j), m)
    ensures Within(Shift14(x), m)
  {
  }

  lemma WithinRotl27(x: bv64, j: bv64, m: bv64)
    requires Within(x, j) && Within(Rotl27(j), m)
    ensures Within(Rotl27(x), m)
  {
  }

  lemma WithinRotl36(x: bv64, j: bv64, m: bv64)
    requires Within(x, j) && Within(Rotl36(j), m)
    ensures Within(Rotl36(x), m)
  {
  }

  lemma WithinRotl55(x: bv64, j: bv64, m: bv64)
    requires Within(x, j) && Within(Rotl55(j), m)
    ensures Within(Rotl55(x), m)
  {
  }

  lemma WithinBoth(x: bv64, j: bv64, m: bv64)
    requires Within(x, j) && Within(j, m)
    ensures Within(x, m)
  {
  }

  lemma BackBy27(w: bv64, j: bv64)
    requires Within(w, Rotl27(j))
    ensures Within(Rotl(w, 37), j) && Rotl27(Rotl(w, 37)) == w
  {
  }

  lemma BackBy36(w: bv64, j: bv64)
    requires Within(w, Rotl36(j))
    ensures Within(Rotl(w, 28), j) && Rotl36(Rotl(w, 28)) == w
  {
  }

  /** If the bits j and three words that come from them lie in m, a fourth can join m. */
  lemma Reach27(m: bv64, j: bv64)
    requires KilledWithin(m)
    requires Within(j, m) && Within(Shift14(j), m) && Within(Rotl36(j), m) && Within(Rotl55(j), m)
    ensures KilledWithin(m | Rotl27(j))
  {
    forall w: bv64 | Within(w, Rotl27(j)) ensures Killed(State(w, 0)) {
      BackBy27(w, j);
      var x := Rotl(w, 37);
      WithinBoth(x, j, m);
      WithinShift14(x, j, m);
      WithinRotl36(x, j, m);
      WithinRotl55(x, j, m);
      KilledRotl27(x);
    }
    KilledUnion(m, Rotl27(j));
    hide Within, Killed, Rotl, Rotl27, Rotl36, Rotl55, Shift14;
  }

  lemma Reach36(m: bv64, j: bv64)
    requires KilledWithin(m)
    requires Within(j, m) && Within(Shift14(j), m) && Within(Rotl27(j), m) && Within(Rotl55(j), m)
    ensures KilledWithin(m | Rotl36(j))
  {
    forall w: bv64 | Within(w, Rotl36(j)) ensures Killed(State(w, 0)) {
      BackBy36(w, j);
      var x := Rotl(w, 28);
      WithinBoth(x, j, m);
      WithinShift14(x, j, m);
      WithinRotl27(x, j, m);
      WithinRotl55(x, j, m);
      KilledRotl36(x);
    }
    KilledUnion(m, Rotl36(j));
    hide Within, Killed, Rotl, Rotl27, Rotl36, Rotl55, Shift14;
  }

  lemma SeedBits()
    ensures KilledWithin(0x844221008042010)
  {
    hide Combined, KilledWithin;
    LeadsToBit4();
    SeedBit(Poly(0x27274b37d7f5fb2e, 0x90fc55044c0c3741), 0x10);
    LeadsToBit13();
    SeedBit(Poly(0x55917b7f33476dff, 0xe480f5b9fbdc9a50), 0x2000);
    KilledUnion(0x10, 0x2000);
    LeadsToBit18();
    SeedBit(Poly(0xc5fa6e0d9e359925, 0xc47f492bbf72b5e5), 0x40000);
    KilledUnion(0x2010, 0x40000);
    LeadsToBit27();
    SeedBit(Poly(0x408cfda25b8013a8, 0xc045479df871241c), 0x8000000);
    KilledUnion(0x42010, 0x8000000);
    LeadsToBit36();
    SeedBit(Poly(0xfcb25dcb051277e4, 0x99a054a25a10f122), 0x1000000000);
    KilledUnion(0x8042010, 0x1000000000);
    LeadsToBit41();
    SeedBit(Poly(0x9665de0f3bd4e133, 0x9bd27a3f38f7ce9c), 0x20000000000);
    KilledUnion(0x1008042010, 0x20000000000);
    LeadsToBit45();
    SeedBit(Poly(0x3ce1ad9dfe487384, 0xcb439ffcc348e9b1), 0x200000000000);
    KilledUnion(0x21008042010, 0x200000000000);
    LeadsToBit50();
    SeedBit(Poly(0xdeeac6205bad07fc, 0x115e78f20e8a47c), 0x4000000000000);
    KilledUnion(0x221008042010, 0x4000000000000);
    LeadsToBit54();
    SeedBit(Poly(0xa29f89e87b76b11f, 0x843e4fba54ae70b0), 0x40000000000000);
    KilledUnion(0x4221008042010, 0x40000000000000);
    LeadsToBit59();
    SeedBit(Poly(0x224fd4ce44c96963, 0x4cb3e1a122eb2d47), 0x800000000000000);
    KilledUnion(0x44221008042010, 0x800000000000000);
  }

  /** From the ten bits the two rules reach all 64. */
  lemma AllBits()
    ensures KilledWithin(0xffff_ffff_ffff_ffff)
  {
    hide KilledWithin;
    SeedBits();
    Reach36(0x844221008042010, 0x4000008000000);
    Reach36(0x8844221008442010, 0x800001000000000);
    Reach36(0x8844221088442110, 0x200000000010);
    Reach36(0x8844231088462110, 0x40000000002000);
    Reach36(0x884623108c462110, 0x8000000000400000);
    Reach36(0x8c4623188c462110, 0x80000100);
    Reach36(0x8c4633188c462118, 0x10000020000);
    Reach36(0x8c6633188c463118, 0x2000004000000);
    Reach36(0xcc6633188c663118, 0x400000800000000);
    Reach36(0xcc663318cc663198, 0x100000000008);
    Reach36(0xcc663398cc673198, 0x20000000001000);
    Reach36(0xcc673398ce673198, 0x4000000000200000);
    Reach36(0xce67339cce673198, 0x40000080);
    Reach36(0xce673b9cce67319c, 0x8000010000);
    Reach36(0xce773b9cce67399c, 0x1000002000000);
    Reach36(0xee773b9cce77399c, 0x200000400000000);
    Reach36(0xee773b9cee7739dc, 0x80000000004);
    Reach36(0xee773bdcee77b9dc, 0x10000000000800);
    Reach36(0xee77bbdcef77b9dc, 0x2000000000100000);
    Reach36(0xef77bbdeef77b9dc, 0x20000040);
    Reach36(0xef77bfdeef77b9de, 0x4000008000);
    Reach36(0xef7fbfdeef77bdde, 0x800001000000);
    Reach36(0xff7fbfdeef7fbdde, 0x100000200000000);
    Reach27(0xff7fbfdeff7fbdfe, 0x20);
    Reach36(0xff7fbfdfff7fbdfe, 0x40000000002);
    Reach27(0xff7fbfffff7ffdfe, 0x1000000000000000);
    Reach36(0xff7fbffffffffdfe, 0x400);
    Reach27(0xff7ffffffffffdfe, 0x400000000000);
    Reach36(0xff7ffffffffffffe, 0x80000);
    Reach27(0xfffffffffffffffe, 0x2000000000);
  }

  lemma EverythingWithin(w: bv64)
    ensures Within(w, 0xffff_ffff_ffff_ffff)
  {
  }

  lemma EqualWords(w: bv64)
    ensures Next(State(w, w)) == State(Rotl55(w), 0)
  {
    ZeroMovesNowhere();
    hide Xor, Rotl, Shift14;
    XorLaws(w, w);
    XorLaws(Rotl(w, 55), 0);
  }

  lemma ZeroMovesNowhere()
    ensures Rotl(0, 36) == 0 && Shift14(0) == 0
  {
  }

  /** The step is a root of its characteristic polynomial. */
  lemma AllKilled(s: State)
    ensures Killed(s)
  {
    AllBits();
    var a, b := s.s0, s.s1;
    EverythingWithin(Rotl55(b));
    EverythingWithin(Xor(a, b));
    EqualWords(b);
    hide Within, Rotl55, Next, Killed;
    KilledPrev(State(b, b));
    KilledAdd(State(Xor(a, b), 0), State(b, b));
    XorLaws(a, b);
    XorLaws(b, 0);
    hide Xor;
  }
}
