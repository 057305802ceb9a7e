/** Powers of two. */
module PowersOfTwo {

  function Pow2(n: nat): (p: nat)
    ensures p > 0
  {
    if n == 0 then 1 else 2 * Pow2(n - 1)
  }

  lemma {:induction false} Pow2Add(m: nat, n: nat)
    ensures Pow2(m + n) == Pow2(m) * Pow2(n)
  {
    if m > 0 { Pow2Add(m - 1, n); }
  }

  /** The same, in few steps for a literal n. */
  function TwoTo(n: nat): nat {
    if n >= 64 then 0x1_0000_0000_0000_0000 * TwoTo(n - 64)
    else if n >= 16 then 0x1_0000 * TwoTo(n - 16)
    else if n >= 4 then 16 * TwoTo(n - 4)
    else if n == 3 then 8 else if n == 2 then 4 else if n == 1 then 2 else 1
  }

  lemma UpToFour()
    ensures Pow2(0) == 1 && Pow2(1) == 2 && Pow2(2) == 4 && Pow2(3) == 8 && Pow2(4) == 16
  {
  }

  lemma SmallPowers()
    ensures Pow2(0) == 1 && Pow2(1) == 2 && Pow2(2) == 4 && Pow2(3) == 8 && Pow2(4) == 16
    ensures Pow2(8) == 256 && Pow2(16) == 0x1_0000 && Pow2(32) == 0x1_0000_0000
    ensures Pow2(64) == 0x1_0000_0000_0000_0000
  {
    hide Pow2;
    UpToFour();
    Pow2Add(4, 4);
    Pow2Add(8, 8);
    Pow2Add(16, 16);
    Pow2Add(32, 32);
  }

  lemma {:induction false} TwoToIsPow2(n: nat)
    ensures TwoTo(n) == Pow2(n)
  {
    SmallPowers();
    hide Pow2;
    var step := if n >= 64 then 64 else if n >= 16 then 16 else 4;
    if n >= 4 {
      Pow2Add(step, n - step);
      TwoToIsPow2(n - step);
    }
  }
}
