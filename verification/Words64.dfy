/** Unsigned 64-bit words as integers, with wrap-around. */
module Words64 {
  const TWO_64: nat := 0x1_0000_0000_0000_0000
  const UINT64_MAX: nat := 0xFFFF_FFFF_FFFF_FFFF

  type u64 = x: nat | x < 0x1_0000_0000_0000_0000

  function Wrap(x: int): u64 {
    x % TWO_64
  }

  /** 64-bit addition. */
  function Plus(a: u64, b: u64): u64 {
    Wrap(a + b)
  }

  /** 64-bit subtraction. */
  function Minus(a: u64, b: u64): u64 {
    Wrap(a - b)
  }

  lemma PlusCases(a: u64, b: u64)
    ensures Plus(a, b) == if a + b < TWO_64 then a + b else a + b - TWO_64
  {
  }

  lemma PlusAlgebra(a: u64, b: u64, c: u64)
    ensures Plus(0, a) == a == Plus(a, 0)
    ensures Plus(a, b) == Plus(b, a)
    ensures Plus(Plus(a, b), c) == Plus(a, Plus(b, c))
  {
    PlusCases(a, b);
    PlusCases(b, c);
    PlusCases(Plus(a, b), c);
    PlusCases(a, Plus(b, c));
    PlusCases(b, a);
    PlusCases(0, a);
    PlusCases(a, 0);
    hide Plus;
  }

  lemma PlusWraps(a: nat, b: u64)
    ensures Plus(Wrap(a), b) == Wrap(a + b)
  {
  }

  lemma WrapPeriod(x: int, c: int)
    ensures Wrap(x + TWO_64 * c) == Wrap(x)
  {
  }

  lemma WrapAdd(x: int, y: int)
    ensures Wrap(Wrap(x) + Wrap(y)) == Wrap(x + y)
  {
    WrapPeriod(Wrap(x) + Wrap(y), x / TWO_64 + y / TWO_64);
    assert x == TWO_64 * (x / TWO_64) + Wrap(x) && y == TWO_64 * (y / TWO_64) + Wrap(y);
  }

  lemma WrapZero()
    ensures Wrap(0) == 0
  {
  }

  lemma WrapSmall(n: nat)
    requires n < TWO_64
    ensures Wrap(n) == n
  {
  }

  lemma MinusPlus(a: u64, b: u64)
    ensures Plus(b, Minus(a, b)) == a
  {
    assert Minus(a, b) == if a >= b then a - b else a - b + TWO_64;
    PlusCases(b, Minus(a, b));
  }
}
