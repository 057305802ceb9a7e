/**
 xoroshiro128+: the state step is an invertible linear map over GF(2), and the
 jump function is a polynomial in that map.
 */
module Xoroshiro {

  // ----- Word operations, named so that a proof can hide their bits -----

  function Xor(a: bv64, b: bv64): bv64 {
    a ^ b
  }

  function Sum(a: bv64, b: bv64): bv64 {
    a + b
  }

  function Rotl(x: bv64, k: bv7): bv64
    requires 0 < k < 64
  {
    (x << k) | (x >> (64 - k))
  }

  function Shift14(x: bv64): bv64 {
    x << 14
  }

  lemma XorAssociates(a: bv64, b: bv64, c: bv64)
    ensures Xor(Xor(a, b), c) == Xor(a, Xor(b, c))
  {
    assert Xor(a, b) == a ^ b && Xor(b, c) == b ^ c;
    assert Xor(a ^ b, c) == (a ^ b) ^ c && Xor(a, b ^ c) == a ^ (b ^ c);
  }

  lemma XorUndoes(a: bv64, b: bv64)
    ensures Xor(a, Xor(a, b)) == b
  {
  }

  lemma XorBasics(a: bv64, b: bv64)
    ensures Xor(a, b) == Xor(b, a) && Xor(a, 0) == a && Xor(0, a) == a && Xor(a, a) == 0
  {
  }

  lemma XorLaws(a: bv64, b: bv64)
    ensures Xor(a, b) == Xor(b, a) && Xor(a, 0) == a && Xor(0, a) == a && Xor(a, a) == 0
    ensures Xor(a, Xor(a, b)) == b && Xor(Xor(a, b), b) == a
  {
    hide Xor;
    XorBasics(a, b);
    XorUndoes(a, b);
    XorUndoes(b, a);
    XorBasics(Xor(a, b), b);
  }

  lemma RotlOfXor55(a: bv64, b: bv64)
    ensures Rotl(Xor(a, b), 55) == Xor(Rotl(a, 55), Rotl(b, 55))
  {
  }

  lemma RotlOfXor36(a: bv64, b: bv64)
    ensures Rotl(Xor(a, b), 36) == Xor(Rotl(a, 36), Rotl(b, 36))
  {
  }

  lemma Rotl9Undoes55(x: bv64)
    ensures Rotl(Rotl(x, 55), 9) == x
  {
  }

  lemma Rotl55Undoes9(x: bv64)
    ensures Rotl(Rotl(x, 9), 55) == x
  {
  }

  lemma Rotl28Undoes36(x: bv64)
    ensures Rotl(Rotl(x, 36), 28) == x
  {
  }

  lemma Rotl36Undoes28(x: bv64)
    ensures Rotl(Rotl(x, 28), 36) == x
  {
  }

  lemma Shift14OfXor(a: bv64, b: bv64)
    ensures Shift14(Xor(a, b)) == Xor(Shift14(a), Shift14(b))
  {
  }

  // ----- The step -----

  datatype State = State(s0: bv64, s1: bv64)

  const ZERO: State := State(0, 0)

  function Next(s: State): State {
    var t := Xor(s.s1, s.s0);
    State(Xor(Xor(Rotl(s.s0, 55), t), Shift14(t)), Rotl(t, 36))
  }

  /** The output that accompanies a step. */
  function Output(s: State): bv64 {
    Sum(s.s0, s.s1)
  }

  // ----- The step and the output, bit by bit -----

  predicate Bit(w: bv64, b: bv7)
    requires b < 64
  {
    w & (1 << b) != 0
  }

  lemma XoredBit(x: bv64, y: bv64, b: bv7)
    requires b < 64
    ensures Bit(x ^ y, b) == (Bit(x, b) != Bit(y, b))
  {
  }

  lemma BitOfXor(x: bv64, y: bv64, b: bv7)
    requires b < 64
    ensures Bit(Xor(x, y), b) == (Bit(x, b) != Bit(y, b))
  {
    XoredBit(x, y, b);
    hide Bit;
  }

  lemma RotatedBit55(x: bv64, b: bv7)
    requires b < 64
    ensures Bit((x << 55) | (x >> 9), b) == Bit(x, if b < 55 then b + 9 else b - 55)
  {
  }

  lemma BitOfRotl55(x: bv64, b: bv7)
    requires b < 64
    ensures Bit(Rotl(x, 55), b) == Bit(x, if b < 55 then b + 9 else b - 55)
  {
    RotatedBit55(x, b);
    hide Bit;
  }

  lemma RotatedBit36(x: bv64, b: bv7)
    requires b < 64
    ensures Bit((x << 36) | (x >> 28), b) == Bit(x, if b < 36 then b + 28 else b - 36)
  {
  }

  lemma BitOfRotl36(x: bv64, b: bv7)
    requires b < 64
    ensures Bit(Rotl(x, 36), b) == Bit(x, if b < 36 then b + 28 else b - 36)
  {
    RotatedBit36(x, b);
    hide Bit;
  }

  lemma ShiftedBit(x: bv64, b: bv7)
    requires b < 64
    ensures Bit(x << 14, b) == (b >= 14 && Bit(x, b - 14))
  {
  }

  lemma BitOfShift14(x: bv64, b: bv7)
    requires b < 64
    ensures Bit(Shift14(x), b) == (b >= 14 && Bit(x, b - 14))
  {
    ShiftedBit(x, b);
    hide Bit;
  }

  /** The two words of a state differ at bit b. */
  predicate Unequal(s: State, b: bv7)
    requires b < 64
  {
    Bit(s.s0, b) != Bit(s.s1, b)
  }

  /** Each bit of the state t that follows s, from the bits of s: the upper word is the
      difference of the two words moved around by 36 places, and the lower one the sum of
      the lower word moved around by 55, the difference, and the difference moved up by 14. */
  ghost predicate StepsTo(s: State, t: State) {
    forall b: bv7 :: b < 64 ==> StepsToAt(s, t, b)
  }

  predicate StepsToAt(s: State, t: State, b: bv7)
    requires b < 64
  {
    && Bit(t.s1, b) == Unequal(s, if b < 36 then b + 28 else b - 36)
    && Bit(t.s0, b) == ((Bit(s.s0, if b < 55 then b + 9 else b - 55) != Unequal(s, b))
                        != (b >= 14 && Unequal(s, b - 14)))
  }

  lemma NextStepsTo(s: State)
    ensures StepsTo(s, Next(s))
  {
    hide Next, Bit, Unequal;
    forall b: bv7 | b < 64 ensures StepsToAt(s, Next(s), b) {
      UpperBit(s, b);
      LowerBit(s, b);
    }
  }

  lemma UpperBit(s: State, b: bv7)
    requires b < 64
    ensures Bit(Next(s).s1, b) == Unequal(s, if b < 36 then b + 28 else b - 36)
  {
    hide Xor, Rotl, Shift14, Bit;
    BitOfRotl36(Xor(s.s1, s.s0), b);
    BitOfXor(s.s1, s.s0, if b < 36 then b + 28 else b - 36);
  }

  lemma LowerBit(s: State, b: bv7)
    requires b < 64
    ensures Bit(Next(s).s0, b) == ((Bit(s.s0, if b < 55 then b + 9 else b - 55) != Unequal(s, b))
                                   != (b >= 14 && Unequal(s, b - 14)))
  {
    hide Xor, Rotl, Shift14, Bit;
    var x := Xor(s.s1, s.s0);
    BitOfRotl55(s.s0, b);
    BitOfShift14(x, b);
    BitOfXor(s.s1, s.s0, b);
    if b >= 14 { BitOfXor(s.s1, s.s0, b - 14); }
    BitOfXor(Rotl(s.s0, 55), x, b);
    BitOfXor(Xor(Rotl(s.s0, 55), x), Shift14(x), b);
  }

  function Minus(a: bv64, b: bv64): bv64 {
    a - b
  }

  lemma SumMinus(a: bv64, b: bv64)
    ensures Minus(a + b, b) == a && Minus(a + b, a) == b
  {
  }

  lemma SumLessEither(a: bv64, b: bv64)
    ensures Minus(Sum(a, b), b) == a && Minus(Sum(a, b), a) == b
  {
    SumMinus(a, b);
    hide Minus;
  }

  /** The output is the sum of the two words, modulo 2^64: less one of them, it is the other. */
  lemma OutputIsSum(s: State)
    ensures Minus(Output(s), s.s1) == s.s0 && Minus(Output(s), s.s0) == s.s1
  {
    SumLessEither(s.s0, s.s1);
    hide Minus, Sum;
  }

  function Prev(s: State): State {
    var t := Rotl(s.s1, 28);
    var s0 := Rotl(Xor(Xor(s.s0, Shift14(t)), t), 9);
    State(s0, Xor(t, s0))
  }

  function Add(s: State, t: State): State {
    State(Xor(s.s0, t.s0), Xor(s.s1, t.s1))
  }

  lemma PrevUndoesNext(s: State)
    ensures Prev(Next(s)) == s
  {
    hide Xor, Rotl, Shift14;
    var t := Xor(s.s1, s.s0);
    var r := Rotl(s.s0, 55);
    Rotl28Undoes36(t);
    Rotl9Undoes55(s.s0);
    XorLaws(Xor(r, t), Shift14(t));
    XorLaws(r, t);
    XorLaws(s.s1, s.s0);
  }

  lemma NextUndoesPrev(s: State)
    ensures Next(Prev(s)) == s
  {
    hide Xor, Rotl, Shift14;
    var t := Rotl(s.s1, 28);
    var x := Xor(Xor(s.s0, Shift14(t)), t);
    Rotl36Undoes28(s.s1);
    Rotl55Undoes9(x);
    XorLaws(t, Rotl(x, 9));
    XorLaws(Xor(s.s0, Shift14(t)), t);
    XorLaws(s.s0, Shift14(t));
  }

  /** (a + b) + (c + d) == (a + c) + (b + d). */
  lemma XorSwapsMiddle(a: bv64, b: bv64, c: bv64, d: bv64)
    ensures Xor(Xor(a, b), Xor(c, d)) == Xor(Xor(a, c), Xor(b, d))
  {
    hide Xor;
    XorAssociates(a, b, Xor(c, d));
    XorAssociates(b, c, d);
    XorLaws(b, c);
    XorAssociates(c, b, d);
    XorAssociates(a, c, Xor(b, d));
  }

  lemma NextLinear(s: State, t: State)
    ensures Next(Add(s, t)) == Add(Next(s), Next(t))
  {
    hide Xor, Rotl, Shift14;
    var u, v := Xor(s.s1, s.s0), Xor(t.s1, t.s0);
    RotlOfXor55(s.s0, t.s0);
    RotlOfXor36(u, v);
    Shift14OfXor(u, v);
    XorSwapsMiddle(s.s1, t.s1, s.s0, t.s0);
    var a, b := Rotl(s.s0, 55), Rotl(t.s0, 55);
    XorSwapsMiddle(a, b, u, v);
    XorSwapsMiddle(Xor(a, u), Xor(b, v), Shift14(u), Shift14(v));
  }

  lemma AddLaws(s: State, t: State, u: State)
    ensures Add(s, t) == Add(t, s) && Add(Add(s, t), u) == Add(s, Add(t, u))
    ensures Add(s, ZERO) == s && Add(ZERO, s) == s && Add(s, s) == ZERO
  {
    hide Xor;
    XorLaws(s.s0, t.s0);
    XorLaws(s.s1, t.s1);
    XorAssociates(s.s0, t.s0, u.s0);
    XorAssociates(s.s1, t.s1, u.s1);
  }

  /** The all-zero state is a fixed point, and the only state that leads to it. */
  lemma ZeroIsIsolated(s: State)
    ensures Next(s) == ZERO <==> s == ZERO
  {
    hide Xor, Rotl, Shift14, Prev;
    NextLinear(ZERO, ZERO);
    AddLaws(ZERO, ZERO, ZERO);
    AddLaws(Next(ZERO), ZERO, ZERO);
    PrevUndoesNext(s);
    PrevUndoesNext(ZERO);
  }

  function Repeat<T>(f: T -> T, x: T, n: nat): T {
    if n == 0 then x else f(Repeat(f, x, n - 1))
  }

  /** The state after n steps. */
  function Iterate(s: State, n: nat): State {
    Repeat(Next, s, n)
  }

  lemma OneStepMore(s: State, n: nat)
    ensures Iterate(s, n + 1) == Next(Iterate(s, n))
  {
  }

  lemma TwoStepsMore(s: State, n: nat)
    ensures Iterate(s, n + 2) == Next(Next(Iterate(s, n)))
  {
    hide Next, Iterate;
    OneStepMore(s, n);
    OneStepMore(s, n + 1);
  }

  lemma {:induction false} IterateAdd(s: State, m: nat, n: nat)
    ensures Iterate(Iterate(s, m), n) == Iterate(s, m + n)
  {
    hide Next;
    if n > 0 { IterateAdd(s, m, n - 1); }
  }

  lemma {:induction false} IterateLinear(s: State, t: State, n: nat)
    ensures Iterate(Add(s, t), n) == Add(Iterate(s, n), Iterate(t, n))
  {
    hide Next, Add;
    if n > 0 {
      IterateLinear(s, t, n - 1);
      NextLinear(Iterate(s, n - 1), Iterate(t, n - 1));
    }
  }

  /** A generator that does not start at zero never gets there. */
  lemma {:induction false} NeverZero(s: State, n: nat)
    requires s != ZERO
    ensures Iterate(s, n) != ZERO
  {
    hide Next;
    if n > 0 {
      NeverZero(s, n - 1);
      ZeroIsIsolated(Iterate(s, n - 1));
    }
  }

  // ----- Polynomials in the step -----

  predicate Low(w: bv64) {
    w & 1 == 1
  }

  function Half(w: bv64): bv64 {
    w >> 1
  }

  /** Whether bit b of a word is set. */
  predicate BitAt(w: bv64, b: nat)
    decreases b
  {
    if b == 0 then Low(w) else BitAt(Half(w), b - 1)
  }

  /** The value of a polynomial in f at s: its coefficients, from the lowest, are the n
      lowest bits of w. */
  function EvalIn(f: State -> State, w: bv64, n: nat, s: State): State
    decreases n, f
  {
    if n == 0 then ZERO else Add(if Low(w) then s else ZERO, EvalIn(f, Half(w), n - 1, f(s)))
  }

  /** The value of a polynomial in the step. */
  function Eval(w: bv64, n: nat, s: State): State {
    EvalIn(Next, w, n, s)
  }

  lemma AddSwapsMiddle(a: State, b: State, c: State, d: State)
    ensures Add(Add(a, b), Add(c, d)) == Add(Add(a, c), Add(b, d))
  {
    hide Xor;
    XorSwapsMiddle(a.s0, b.s0, c.s0, d.s0);
    XorSwapsMiddle(a.s1, b.s1, c.s1, d.s1);
  }

  lemma {:induction false} EvalLinear(w: bv64, n: nat, s: State, t: State)
    ensures Eval(w, n, Add(s, t)) == Add(Eval(w, n, s), Eval(w, n, t))
    decreases n
  {
    hide Next, Add, Low, Half;
    if n == 0 {
      AddLaws(ZERO, ZERO, ZERO);
    } else {
      NextLinear(s, t);
      EvalLinear(Half(w), n - 1, Next(s), Next(t));
      AddLaws(ZERO, ZERO, ZERO);
      var a, b := if Low(w) then s else ZERO, if Low(w) then t else ZERO;
      AddSwapsMiddle(a, b, Eval(Half(w), n - 1, Next(s)), Eval(Half(w), n - 1, Next(t)));
    }
  }

  lemma {:induction false} EvalCommutesWithNext(w: bv64, n: nat, s: State)
    ensures Eval(w, n, Next(s)) == Next(Eval(w, n, s))
    decreases n
  {
    hide Next, Add, Low, Half;
    ZeroIsIsolated(ZERO);
    if n > 0 {
      EvalCommutesWithNext(Half(w), n - 1, Next(s));
      NextLinear(if Low(w) then s else ZERO, Eval(Half(w), n - 1, Next(s)));
    }
  }

  lemma {:induction false} EvalCommutesWithIterate(w: bv64, n: nat, s: State, m: nat)
    ensures Eval(w, n, Iterate(s, m)) == Iterate(Eval(w, n, s), m)
    decreases m
  {
    hide Next, Eval;
    if m > 0 {
      EvalCommutesWithIterate(w, n, s, m - 1);
      EvalCommutesWithNext(w, n, Iterate(s, m - 1));
    }
  }

  lemma {:induction false} EvalAppend(w: bv64, n: nat, s: State)
    ensures Eval(w, n + 1, s) == Add(Eval(w, n, s), if BitAt(w, n) then Iterate(s, n) else ZERO)
    decreases n
  {
    hide Next, Add, Low, Half;
    if n == 0 {
      assert Eval(w, 1, s) == Add(if Low(w) then s else ZERO, Eval(Half(w), 0, Next(s)));
      AddLaws(if Low(w) then s else ZERO, ZERO, ZERO);
    } else {
      EvalAppend(Half(w), n - 1, Next(s));
      IterateAdd(s, 1, n - 1);
      OneStepMore(s, 0);
      AddLaws(if Low(w) then s else ZERO, Eval(Half(w), n - 1, Next(s)), if BitAt(w, n) then Iterate(s, n) else ZERO);
    }
  }

  // ----- The jump -----

  const JUMP_WORDS: nat := 2

  function JumpWord(i: nat): bv64
    requires i < JUMP_WORDS
  {
    if i == 0 then 0xbeac0467eba5facb else 0xd86b048b86aa9922
  }

  /** What the first n words of the jump constant contribute. */
  function JumpPart(n: nat, s: State): State
    requires n <= JUMP_WORDS
  {
    if n == 0 then ZERO
    else Add(JumpPart(n - 1, s), Eval(JumpWord(n - 1), 64, Iterate(s, 64 * (n - 1))))
  }

  function Jump(s: State): State {
    JumpPart(JUMP_WORDS, s)
  }

  lemma {:induction false} JumpPartLinear(n: nat, s: State, t: State)
    requires n <= JUMP_WORDS
    ensures JumpPart(n, Add(s, t)) == Add(JumpPart(n, s), JumpPart(n, t))
  {
    hide Add, Eval, Iterate, JumpWord;
    AddLaws(ZERO, ZERO, ZERO);
    if n > 0 {
      JumpPartLinear(n - 1, s, t);
      var w, m := JumpWord(n - 1), 64 * (n - 1);
      IterateLinear(s, t, m);
      EvalLinear(w, 64, Iterate(s, m), Iterate(t, m));
      AddSwapsMiddle(JumpPart(n - 1, s), JumpPart(n - 1, t), Eval(w, 64, Iterate(s, m)), Eval(w, 64, Iterate(t, m)));
    }
  }

  lemma JumpLinear(s: State, t: State)
    ensures Jump(Add(s, t)) == Add(Jump(s), Jump(t))
  {
    JumpPartLinear(JUMP_WORDS, s, t);
  }

  lemma {:induction false} JumpPartCommutes(n: nat, s: State, k: nat)
    requires n <= JUMP_WORDS
    ensures JumpPart(n, Iterate(s, k)) == Iterate(JumpPart(n, s), k)
  {
    hide Add, Eval, Iterate, JumpWord;
    ZeroStays(k);
    if n > 0 {
      JumpPartCommutes(n - 1, s, k);
      var w, m := JumpWord(n - 1), 64 * (n - 1);
      IterateAdd(s, k, m);
      IterateAdd(s, m, k);
      EvalCommutesWithIterate(w, 64, Iterate(s, m), k);
      IterateLinear(JumpPart(n - 1, s), Eval(w, 64, Iterate(s, m)), k);
    }
  }

  lemma {:induction false} ZeroStays(n: nat)
    ensures Iterate(ZERO, n) == ZERO
  {
    hide Next;
    ZeroIsIsolated(ZERO);
    if n > 0 { ZeroStays(n - 1); }
  }

  /** Jumping and stepping commute, in any number: the generator that jumped first
      produces the later part of the same sequence. */
  lemma JumpCommutes(s: State, n: nat)
    ensures Jump(Iterate(s, n)) == Iterate(Jump(s), n)
  {
    JumpPartCommutes(JUMP_WORDS, s, n);
  }

  // ----- The generator state, overwritten in place -----

  class Generator {
    const s: array<bv64>

    function Value(): State
      requires s.Length == 2
      reads s
    {
      State(s[0], s[1])
    }

    constructor (seed: State)
      ensures s.Length == 2 && Value() == seed && fresh(s)
    {
      s := new bv64[2];
      new;
      s[0], s[1] := seed.s0, seed.s1;
    }

    method NextOutput() returns (result: bv64)
      requires s.Length == 2
      modifies s
      ensures Value() == Next(old(Value())) && result == Output(old(Value()))
      ensures StepsTo(old(Value()), Value()) && Minus(result, old(s[1])) == old(s[0])
    {
      hide Xor, Rotl, Shift14, Sum, Minus, StepsTo;
      NextStepsTo(Value());
      OutputIsSum(Value());
      var s0 := s[0];
      var s1 := s[1];
      result := Sum(s0, s1);
      s1 := Xor(s1, s0);
      s[0] := Xor(Xor(Rotl(s0, 55), s1), Shift14(s1));
      s[1] := Rotl(s1, 36);
    }

    /** One pass of the inner loop: adds the state if the bit is set, and steps. */
    method JumpStep(bit: bool, t0: bv64, t1: bv64) returns (s0: bv64, s1: bv64)
      requires s.Length == 2
      modifies s
      ensures State(s0, s1) == Add(State(t0, t1), if bit then old(Value()) else ZERO)
      ensures Value() == Next(old(Value()))
    {
      hide Next, Xor, Output;
      s0, s1 := t0, t1;
      AddLaws(State(t0, t1), ZERO, ZERO);
      if bit {
        s0 := Xor(s0, s[0]);
        s1 := Xor(s1, s[1]);
      }
      var _ := NextOutput();
    }

    method JumpAhead()
      requires s.Length == 2
      modifies s
      ensures Value() == Jump(old(Value()))
    {
      hide Next, Add, Eval, BitAt, JumpWord;
      ghost var start := Value();
      var s0: bv64, s1: bv64 := 0, 0;
      for i := 0 to JUMP_WORDS
        invariant Value() == Iterate(start, 64 * i)
        invariant State(s0, s1) == JumpPart(i, start)
      {
        ghost var part, from := State(s0, s1), Value();
        EvalNothing(JumpWord(i), from);
        AddLaws(part, ZERO, ZERO);
        for b := 0 to 64
          invariant Value() == Iterate(from, b)
          invariant State(s0, s1) == Add(part, Eval(JumpWord(i), b, from))
        {
          EvalAppend(JumpWord(i), b, from);
          AddLaws(part, Eval(JumpWord(i), b, from), if BitAt(JumpWord(i), b) then Iterate(from, b) else ZERO);
          s0, s1 := JumpStep(BitAt(JumpWord(i), b), s0, s1);
        }
        IterateAdd(start, 64 * i, 64);
      }
      s[0] := s0;
      s[1] := s1;
    }
  }

  lemma EvalNothing(w: bv64, s: State)
    ensures Eval(w, 0, s) == ZERO
  {
  }
}
