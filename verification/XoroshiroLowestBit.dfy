/** The lowest bits of the outputs of xoroshiro128+. */
module XoroshiroLowestBit {
  import opened Xoroshiro
  import opened XoroshiroPolynomials
  import opened XoroshiroCharacteristic

  predicate LowBit(s: State) {
    Low(Output(s))
  }

  lemma LowOfSum(a: bv64, b: bv64)
    ensures Low(Sum(a, b)) == (Low(a) != Low(b))
  {
  }

  lemma LowBitLinear(s: State, t: State)
    ensures LowBit(Add(s, t)) == (LowBit(s) != LowBit(t))
  {
    LowOfSum(s.s0, s.s1);
    LowOfSum(t.s0, t.s1);
    LowOfSum(Xor(s.s0, t.s0), Xor(s.s1, t.s1));
    LowOfXor(s.s0, t.s0);
    LowOfXor(s.s1, t.s1);
    hide Xor, Sum, Low;
  }

  lemma LowBitOfZero()
    ensures !LowBit(ZERO)
  {
  }

  /** The lowest bits of the next n outputs. */
  function LowBits(s: State, n: nat): (bits: seq<bool>)
    ensures |bits| == n
    decreases n
  {
    if n == 0 then [] else [LowBit(s)] + LowBits(Next(s), n - 1)
  }

  /** The sum over GF(2) of the bits that w selects. */
  function Parity(w: bv64, bits: seq<bool>): bool
    decreases |bits|
  {
    if bits == [] then false else (Low(w) && bits[0]) != Parity(Half(w), bits[1..])
  }

  /** The feedback of a register of 128 bits, with taps at the coefficients of X128. */
  function Feedback(bits: seq<bool>): bool
    requires |bits| == 128
  {
    Parity(X128.lo, bits[..64]) != Parity(X128.hi, bits[64..])
  }

  lemma {:induction false} ParityOfEval(w: bv64, n: nat, s: State)
    ensures LowBit(Eval(w, n, s)) == Parity(w, LowBits(s, n))
    decreases n
  {
    hide LowBit, Low, Half, Next, Add;
    LowBitOfZero();
    if n > 0 {
      ParityOfEval(Half(w), n - 1, Next(s));
      LowBitLinear(if Low(w) then s else ZERO, Eval(Half(w), n - 1, Next(s)));
    }
  }

  lemma {:induction false} LowBitsSplit(s: State, m: nat, n: nat)
    ensures LowBits(s, m + n) == LowBits(s, m) + LowBits(Iterate(s, m), n)
    decreases m
  {
    hide LowBit, Next;
    if m > 0 {
      LowBitsSplit(Next(s), m - 1, n);
      StepFirst(s, m - 1);
    }
  }

  /** The lowest bits of the outputs run through a linear feedback shift register:
      each is the feedback of the 128 before it. */
  lemma LowestBitIsLfsr(s: State, n: nat)
    ensures LowBit(Iterate(s, n + 128)) == Feedback(LowBits(Iterate(s, n), 128))
  {
    hide LowBit, Eval, Add, Iterate, LowBits, Parity;
    var t := Iterate(s, n);
    IterateAdd(s, n, 128);
    AllKilled(t);
    LowBitLinear(Eval(X128.lo, 64, t), Eval(X128.hi, 64, Iterate(t, 64)));
    ParityOfEval(X128.lo, 64, t);
    ParityOfEval(X128.hi, 64, Iterate(t, 64));
    LowBitsSplit(t, 64, 64);
  }
}
