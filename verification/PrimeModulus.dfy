/**
 4294967291, the modulus of the unique random sequence generator, is prime.
 The certificate is a chain of modular powers checked against Pocklington's
 criterion: 22605091 - 1 = 690 * 181^2 and 4294967291 - 1 = 190 * 22605091.
 */
module PrimeModulus {
  import opened NumberTheory

  const PRIME: int := 4294967291

  lemma First(b: int, m: int) returns (e: nat)
    requires m > 0
    ensures e == 1 && Cong(Pow(b, e), b, m)
  {
    e := 1;
  }

  /** One step of left-to-right square-and-multiply. */
  lemma Step(b: int, e: nat, r: int, bit: nat, s: int, m: int) returns (e': nat)
    requires m > 0 && bit < 2 && Cong(Pow(b, e), r, m)
    requires (r * r * (if bit == 1 then b else 1) - s) % m == 0
    ensures e' == 2 * e + bit && Cong(Pow(b, e'), s, m)
  {
    e' := 2 * e + bit;
    var f := if bit == 1 then b else 1;
    DividesIffNoRemainder(m, r * r * f - s);
    CongMul(Pow(b, e), r, Pow(b, e), r, m);
    PowAdd(b, e, e);
    MultiplyStep(Pow(b, 2 * e), r * r, f, s, m);
    assert Pow(b, 2 * e + 1) == b * Pow(b, 2 * e);
  }

  lemma MultiplyStep(x: int, y: int, f: int, s: int, m: int)
    requires m > 0 && Cong(x, y, m) && Divides(m, y * f - s)
    ensures Cong(f * x, s, m)
  {
    CongMul(f, f, x, y, m);
    CongTrans(f * x, f * y, s, m);
  }

  lemma SquareToQ181() returns (e: nat)
    ensures e == 181 && Cong(Pow(18389778, e), 13954217, 22605091)
  {
    e := First(18389778, 22605091);
    e := Step(18389778, e, 18389778, 0, 18881964, 22605091);
    e := Step(18389778, e, 18881964, 1, 22134795, 22605091);
    e := Step(18389778, e, 22134795, 1, 19857376, 22605091);
    e := Step(18389778, e, 19857376, 0, 18167953, 22605091);
    e := Step(18389778, e, 18167953, 1, 15500452, 22605091);
    e := Step(18389778, e, 15500452, 0, 15607508, 22605091);
    e := Step(18389778, e, 15607508, 1, 13954217, 22605091);
  }

  lemma SquareToQ32761() returns (e: nat)
    ensures e == 181 && Cong(Pow(13954217, e), 1, 22605091)
  {
    e := First(13954217, 22605091);
    e := Step(13954217, e, 13954217, 0, 8629453, 22605091);
    e := Step(13954217, e, 8629453, 1, 8652108, 22605091);
    e := Step(13954217, e, 8652108, 1, 18624071, 22605091);
    e := Step(13954217, e, 18624071, 0, 519936, 22605091);
    e := Step(13954217, e, 519936, 1, 122734, 22605091);
    e := Step(13954217, e, 122734, 0, 8644150, 22605091);
    e := Step(13954217, e, 8644150, 1, 1, 22605091);
  }

  lemma SquareToP() returns (e: nat)
    ensures e == 22605091 && Cong(Pow(1073745729, e), 1, 4294967291)
  {
    e := First(1073745729, 4294967291);
    e := Step(1073745729, e, 1073745729, 0, 3504919713, 4294967291);
    e := Step(1073745729, e, 3504919713, 1, 2762101756, 4294967291);
    e := Step(1073745729, e, 2762101756, 0, 1474251975, 4294967291);
    e := Step(1073745729, e, 1474251975, 1, 4065820878, 4294967291);
    e := Step(1073745729, e, 4065820878, 1, 1820247785, 4294967291);
    e := Step(1073745729, e, 1820247785, 0, 3855700258, 4294967291);
    e := Step(1073745729, e, 3855700258, 0, 1858816020, 4294967291);
    e := Step(1073745729, e, 1858816020, 0, 2210652769, 4294967291);
    e := Step(1073745729, e, 2210652769, 1, 3255072328, 4294967291);
    e := Step(1073745729, e, 3255072328, 1, 2036108090, 4294967291);
    e := Step(1073745729, e, 2036108090, 1, 2579436866, 4294967291);
    e := Step(1073745729, e, 2579436866, 0, 1810740027, 4294967291);
    e := Step(1073745729, e, 1810740027, 1, 3638735613, 4294967291);
    e := Step(1073745729, e, 3638735613, 1, 2142344274, 4294967291);
    e := Step(1073745729, e, 2142344274, 0, 164317185, 4294967291);
    e := Step(1073745729, e, 164317185, 1, 3827152162, 4294967291);
    e := Step(1073745729, e, 3827152162, 0, 305512203, 4294967291);
    e := Step(1073745729, e, 305512203, 0, 999910711, 4294967291);
    e := Step(1073745729, e, 999910711, 1, 3852027162, 4294967291);
    e := Step(1073745729, e, 3852027162, 0, 894754220, 4294967291);
    e := Step(1073745729, e, 894754220, 0, 2824842023, 4294967291);
    e := Step(1073745729, e, 2824842023, 0, 3541280234, 4294967291);
    e := Step(1073745729, e, 3541280234, 1, 4191888076, 4294967291);
    e := Step(1073745729, e, 4191888076, 1, 1, 4294967291);
  }

  const COFACTOR: int := 22605091

  lemma SmallPrime()
    ensures IsPrime(181)
  {
    forall d: int | 1 < d < 14 ensures !Divides(d, 181) {
      DividesIffNoRemainder(d, 181);
    }
    var p := LeastDivisor(181, 14);
    assert p < 14 ==> p <= 13;
    assert p >= 14 ==> p * p >= 14 * 14;
  }

  lemma CofactorIsPrime()
    ensures IsPrime(COFACTOR)
  {
    hide Pow, Cong;
    SmallPrime();
    PrimePowerCollects(181, 2);
    SquareAsPower(181);
    var e := SquareToQ181();
    var f := SquareToQ32761();
    SquareOrder(18389778, e, 13954217, COFACTOR);
    UnitAt(18389778, e, 13954217, 19569746, COFACTOR);
    Pocklington(COFACTOR, e * e, e, 18389778, 19569746);
  }

  lemma SquareAsPower(s: int)
    ensures Pow(s, 1) == s && Pow(s, 2) == s * s
  {
    assert Pow(s, 1) == s * Pow(s, 0);
  }

  lemma SquareOrder(c: int, D: nat, d: int, m: int)
    requires m > 0 && Cong(Pow(c, D), d, m) && Cong(Pow(d, D), 1, m)
    ensures Cong(Pow(c, D * D), 1, m)
  {
    PowPow(c, D, D);
    PowCong(Pow(c, D), d, D, m);
    CongTrans(Pow(c, D * D), Pow(d, D), 1, m);
  }

  lemma UnitAt(c: int, D: nat, r: int, inv: int, m: int)
    requires m > 0 && Cong(Pow(c, D), r, m) && ((r - 1) * inv - 1) % m == 0
    ensures Cong((Pow(c, D) - 1) * inv, 1, m)
  {
    DividesIffNoRemainder(m, (r - 1) * inv - 1);
    DividesCombination(m, Pow(c, D) - r, (r - 1) * inv - 1, inv, 1);
    assert (Pow(c, D) - r) * inv + (r - 1) * inv == (Pow(c, D) - 1) * inv;
  }

  lemma ModulusIsPrime()
    ensures IsPrime(PRIME)
  {
    CofactorIsPrime();
    PrimeCollects(COFACTOR);
    var e := SquareToP();
    var c := 1073745729;
    assert Pow(c, 1) == c * Pow(c, 0) == c;
    UnitAt(c, 1, c, 1771216906, PRIME);
    Pocklington(PRIME, COFACTOR, 1, c, 1771216906);
  }
}
