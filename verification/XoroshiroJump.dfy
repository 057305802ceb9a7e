/**
 The jump of xoroshiro128+ is 2^64 steps, for every state.
 */
module XoroshiroJump {
  import opened PowersOfTwo
  import opened Xoroshiro
  import opened XoroshiroPolynomials
  import opened XoroshiroRows
  import opened XoroshiroTables
  import opened XoroshiroCharacteristic

  lemma SquareOfPower(p: Poly, k: nat)
    requires IsPower(p, k)
    ensures IsPower(Square(p.lo, p.hi), 2 * k)
  {
    hide Square, Value, Iterate, Killed;
    forall s: State ensures Value(Square(p.lo, p.hi), s) == Iterate(s, 2 * k) {
      AllKilled(s);
      SquareValue(p, s);
      IterateAdd(s, k, k);
    }
  }

  lemma TwoHalves()
    ensures !Low(2) && Half(2) == 1
  {
  }

  lemma XValue(s: State)
    ensures Value(Poly(0x2, 0), s) == Next(s)
  {
    TwoHalves();
    hide Low, Half, Next, Add, Iterate;
    EvalFirst(2, 64, s);
    EvalOne(63, Next(s));
    EvalZero(64, Iterate(s, 64));
    AddLaws(Next(s), ZERO, ZERO);
    hide Eval;
  }

  lemma XIsOneStep()
    ensures IsPower(Poly(0x2, 0), 1)
  {
    forall s: State ensures Value(Poly(0x2, 0), s) == Iterate(s, 1) {
      XValue(s);
      OneStep(s);
    }
    hide Value, Iterate;
  }

  lemma FirstPowerOfX()
    ensures PowerOfX(0) == Poly(0x2, 0)
  {
  }

  /** The squares of the table stand for 2^k steps. */
  lemma {:induction false} PowerOfXIsPower(k: nat)
    requires k <= 128
    ensures IsPower(PowerOfX(k), Pow2(k))
  {
    hide IsPower, Square, PowerOfX;
    if k == 0 {
      FirstPowerOfX();
      XIsOneStep();
    } else {
      PowerOfXIsPower(k - 1);
      SquareFollows(k - 1);
      SquareOfPower(PowerOfX(k - 1), Pow2(k - 1));
    }
  }

  // ----- The jump -----

  lemma JumpPolynomial()
    ensures PowerOfX(64) == Poly(0xbeac0467eba5facb, 0xd86b048b86aa9922)
  {
  }

  lemma JumpIsValue(s: State)
    ensures Jump(s) == Value(PowerOfX(64), s)
  {
    JumpPolynomial();
    hide Eval, Add, PowerOfX;
    assert JumpPart(1, s) == Add(JumpPart(0, s), Eval(JumpWord(0), 64, Iterate(s, 0)));
    AddLaws(Eval(JumpWord(0), 64, s), ZERO, ZERO);
    hide Iterate;
  }

  /** The jump is 2^64 steps, from every state. */
  lemma JumpIsPower(s: State)
    ensures Jump(s) == Iterate(s, Pow2(64))
  {
    hide Value, Iterate, Jump, Pow2, PowerOfX;
    PowerOfXIsPower(64);
    JumpIsValue(s);
  }

  lemma Pow2Of64()
    ensures Pow2(64) == 0x1_0000_0000_0000_0000
  {
    TwoToIsPow2(64);
    hide Pow2;
  }

  lemma OneStreamMore(n: nat, size: nat, k: nat)
    requires n > 0
    ensures (n - 1) * size + (size + k) == n * size + k
  {
  }

  function JumpTimes(s: State, n: nat): State {
    if n == 0 then s else Jump(JumpTimes(s, n - 1))
  }

  /** Generators that jumped 0, 1, 2, ... times read one sequence, each from 2^64 places
      after the one before. */
  lemma {:induction false} StreamsShareOneSequence(s: State, n: nat, k: nat)
    ensures Iterate(JumpTimes(s, n), k) == Iterate(s, n * Pow2(64) + k)
  {
    hide Jump, Pow2, Iterate;
    if n > 0 {
      JumpIsPower(JumpTimes(s, n - 1));
      IterateAdd(JumpTimes(s, n - 1), Pow2(64), k);
      StreamsShareOneSequence(s, n - 1, Pow2(64) + k);
      OneStreamMore(n, Pow2(64), k);
    }
  }
}
