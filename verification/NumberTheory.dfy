/**
 The elementary number theory behind the unique random sequence generator:
 Euclid's lemma, Fermat's little theorem, the non-residuosity of -1 modulo a
 prime of the form 4k+3, and Pocklington's primality criterion.
 */
module NumberTheory {
  import opened FiniteSets

  // ----- Division and congruence -----

  /** d divides n. Stated by repeated subtraction, so that proofs about it meet
      the nonlinear `%` only in `DividesIffNoRemainder`. */
  ghost predicate Divides(d: int, n: int)
    requires d > 0
    decreases n < 0, if n < 0 then -n else n
  {
    if n < 0 then Divides(d, n + d)
    else if n < d then n == 0
    else Divides(d, n - d)
  }

  ghost predicate IsPrime(p: int) {
    p > 1 && forall d :: 1 < d < p ==> !Divides(d, p)
  }

  ghost predicate Cong(a: int, b: int, m: int)
    requires m > 0
  {
    Divides(m, a - b)
  }

  lemma {:induction false} DividesMultiple(d: int, k: int)
    requires d > 0
    ensures Divides(d, d * k)
    decreases if k < 0 then -k else k
  {
    if k < 0 {
      DividesMultiple(d, k + 1);
      assert d * k + d == d * (k + 1);
    } else if k > 0 {
      DividesMultiple(d, k - 1);
      assert d * k - d == d * (k - 1) >= 0;
    }
  }

  lemma {:induction false} Quotient(d: int, n: int) returns (k: int)
    requires d > 0 && Divides(d, n)
    ensures n == d * k
    decreases n < 0, if n < 0 then -n else n
  {
    if n < 0 {
      k := Quotient(d, n + d);
      k := k - 1;
    } else if n < d {
      k := 0;
    } else {
      k := Quotient(d, n - d);
      k := k + 1;
    }
  }

  lemma DivisionIsUnique(n: int, d: int, q: int, r: int)
    requires d > 0 && n == d * q + r && 0 <= r < d
    ensures n / d == q && n % d == r
  {
    var k := n / d - q;
    assert n == d * (n / d) + n % d;
    assert d * k == r - n % d;
    assert k > 0 ==> d * k >= d;
    assert k < 0 ==> d * k <= -d;
  }

  lemma DividesIffNoRemainder(d: int, n: int)
    requires d > 0
    ensures Divides(d, n) <==> n % d == 0
  {
    if Divides(d, n) {
      var k := Quotient(d, n);
      DivisionIsUnique(n, d, k, 0);
    }
    if n % d == 0 {
      assert n == d * (n / d);
      DividesMultiple(d, n / d);
    }
  }

  lemma DividesCombination(d: int, a: int, b: int, x: int, y: int)
    requires d > 0 && Divides(d, a) && Divides(d, b)
    ensures Divides(d, a * x + b * y)
  {
    var k := Quotient(d, a);
    var l := Quotient(d, b);
    DividesMultiple(d, k * x + l * y);
    assert d * (k * x + l * y) == (d * k) * x + (d * l) * y;
  }

  lemma DividesTrans(c: int, d: int, n: int)
    requires c > 0 && d > 0 && Divides(c, d) && Divides(d, n)
    ensures Divides(c, n)
  {
    var k := Quotient(d, n);
    DividesCombination(c, d, 0, k, 0);
  }

  lemma CongIffSameRemainder(a: int, b: int, m: int)
    requires m > 0
    ensures Cong(a, b, m) <==> a % m == b % m
  {
    var r := a % m - b % m;
    assert a == m * (a / m) + a % m && b == m * (b / m) + b % m;
    assert a - b == m * (a / m - b / m) + r;
    DividesMultiple(m, a / m - b / m);
    if Cong(a, b, m) {
      DividesCombination(m, a - b, m * (a / m - b / m), 1, -1);
      assert Divides(m, r);
    }
  }

  lemma CongMul(a: int, b: int, c: int, d: int, m: int)
    requires m > 0 && Cong(a, b, m) && Cong(c, d, m)
    ensures Cong(a * c, b * d, m)
  {
    DividesCombination(m, a - b, c - d, c, b);
    assert a * c - b * d == (a - b) * c + (c - d) * b;
  }

  lemma CongTrans(a: int, b: int, c: int, m: int)
    requires m > 0 && Cong(a, b, m) && Cong(b, c, m)
    ensures Cong(a, c, m)
  {
    DividesCombination(m, a - b, b - c, 1, 1);
  }

  lemma CongSym(a: int, b: int, m: int)
    requires m > 0 && Cong(a, b, m)
    ensures Cong(b, a, m)
  {
    DividesCombination(m, a - b, 0, -1, 0);
  }

  lemma CongRemainder(a: int, m: int)
    requires m > 0
    ensures Cong(a % m, a, m)
  {
    DivisionIsUnique(a % m, m, 0, a % m);
    CongIffSameRemainder(a % m, a, m);
  }

  lemma RegroupProduct(a: int, b: int, c: int, d: int)
    ensures (a * b) * (c * d) == (a * c) * (b * d)
  {
  }

  // ----- Bezout and Euclid -----

  lemma {:induction false} Bezout(a: int, b: int) returns (g: int, x: int, y: int)
    requires a >= 0 && b >= 0 && a + b > 0
    ensures g > 0 && g == a * x + b * y && Divides(g, a) && Divides(g, b)
    decreases b
  {
    if b == 0 {
      g, x, y := a, 1, 0;
    } else {
      var q, r := a / b, a % b;
      var u, v;
      g, u, v := Bezout(b, r);
      x, y := v, u - q * v;
      BezoutStep(a, b, q, r, u, v);
      DividesCombination(g, b, r, q, 1);
    }
  }

  lemma BezoutStep(a: int, b: int, q: int, r: int, u: int, v: int)
    requires a == b * q + r
    ensures b * u + r * v == a * v + b * (u - q * v)
  {
    assert (b * q) * v == b * (q * v);
  }

  lemma DivisorOfPrime(p: int, d: int)
    requires IsPrime(p) && d > 0 && Divides(d, p)
    ensures d == 1 || d == p
  {
  }

  lemma EuclidsLemma(p: int, a: int, b: int)
    requires IsPrime(p) && Divides(p, a * b)
    ensures Divides(p, a) || Divides(p, b)
  {
    if !Divides(p, a) {
      var r := a % p;
      CongRemainder(a, p);
      var g, x, y := Bezout(p, r);
      DivisorOfPrime(p, g);
      assert g == p ==> Divides(p, r);
      assert g == 1 by {
        if g == p { DividesCombination(p, r - a, r, -1, 1); }
      }
      // b == p * (x * b) + (r - a) * (y * b) + (a * b) * y
      DividesCombination(p, r - a, a * b, y * b, y);
      DividesCombination(p, p, (r - a) * (y * b) + (a * b) * y, x * b, 1);
      UnitCombination(p, r, a, b, x, y);
    }
  }

  lemma UnitCombination(p: int, r: int, a: int, b: int, x: int, y: int)
    requires p * x + r * y == 1
    ensures p * (x * b) + ((r - a) * (y * b) + (a * b) * y) * 1 == b
  {
    assert (r - a) * (y * b) + (a * b) * y == (r * y) * b;
    assert p * (x * b) == (p * x) * b;
    assert (p * x) * b + (r * y) * b == (p * x + r * y) * b;
  }

  // ----- Powers -----

  ghost function Pow(a: int, n: nat): int {
    if n == 0 then 1 else a * Pow(a, n - 1)
  }

  lemma {:induction false} PowAdd(a: int, m: nat, n: nat)
    ensures Pow(a, m + n) == Pow(a, m) * Pow(a, n)
  {
    if m > 0 {
      PowAdd(a, m - 1, n);
      assert a * (Pow(a, m - 1) * Pow(a, n)) == (a * Pow(a, m - 1)) * Pow(a, n);
    }
  }

  lemma {:induction false} PowPow(a: int, m: nat, n: nat)
    ensures m * n >= 0 && Pow(Pow(a, m), n) == Pow(a, m * n)
  {
    if n > 0 {
      PowPow(a, m, n - 1);
      assert m * n == m + m * (n - 1);
      PowAdd(a, m, m * (n - 1));
    }
  }

  lemma {:induction false} PowProduct(a: int, b: int, n: nat)
    ensures Pow(a * b, n) == Pow(a, n) * Pow(b, n)
  {
    if n > 0 {
      PowProduct(a, b, n - 1);
      RegroupProduct(a, b, Pow(a, n - 1), Pow(b, n - 1));
    }
  }

  lemma {:induction false} PowCong(a: int, b: int, n: nat, m: int)
    requires m > 0 && Cong(a, b, m)
    ensures Cong(Pow(a, n), Pow(b, n), m)
  {
    if n > 0 {
      PowCong(a, b, n - 1, m);
      CongMul(a, b, Pow(a, n - 1), Pow(b, n - 1), m);
    }
  }

  lemma {:induction false} PowOfOne(n: nat)
    ensures Pow(1, n) == 1
  {
    if n > 0 { PowOfOne(n - 1); }
  }

  lemma {:induction false} OddPowerNegates(b: int, k: nat)
    ensures Pow(-b, 2 * k + 1) == -Pow(b, 2 * k + 1)
  {
    if k > 0 {
      OddPowerNegates(b, k - 1);
      TwoFactors(-b, 2 * k - 1);
      TwoFactors(b, 2 * k - 1);
      assert (-b) * ((-b) * -Pow(b, 2 * k - 1)) == -(b * (b * Pow(b, 2 * k - 1)));
    } else {
      assert Pow(-b, 1) == -b * Pow(-b, 0) && Pow(b, 1) == b * Pow(b, 0);
    }
  }

  lemma TwoFactors(b: int, n: nat)
    ensures Pow(b, n + 2) == b * (b * Pow(b, n))
  {
    assert Pow(b, n + 2) == b * Pow(b, n + 1);
  }

  // ----- Fermat's little theorem, by permuting the nonzero residues -----

  /** The product of the members of s among 1..n. */
  ghost function Product(s: set<int>, n: nat): int {
    if n == 0 then 1 else if n in s then n * Product(s, n - 1) else Product(s, n - 1)
  }

  lemma {:induction false} ProductIgnoresLarger(s: set<int>, y: int, n: nat)
    requires n < y
    ensures Product(s, n) == Product(s - {y}, n)
  {
    if n > 0 { ProductIgnoresLarger(s, y, n - 1); }
  }

  lemma {:induction false} ProductTakesAny(s: set<int>, y: int, n: nat)
    requires y in s && 1 <= y <= n
    ensures Product(s, n) == y * Product(s - {y}, n)
  {
    if y == n {
      ProductIgnoresLarger(s, y, n - 1);
    } else {
      ProductTakesAny(s, y, n - 1);
      SwapFactors(n, y, Product(s - {y}, n - 1));
    }
  }

  lemma {:induction false} ProductOfNothing(n: nat)
    ensures Product({}, n) == 1
  {
    if n > 0 { ProductOfNothing(n - 1); }
  }

  lemma SwapFactors(x: int, y: int, z: int)
    ensures x * (y * z) == y * (x * z)
  {
  }

  ghost function Residues(p: int): (s: set<int>)
    requires p >= 1
    ensures forall i :: i in s <==> 1 <= i < p
    ensures |s| == p - 1
    decreases p
  {
    if p == 1 then {} else Residues(p - 1) + {p - 1}
  }

  ghost function Image(a: int, p: int, s: set<int>): set<int>
    requires p > 0
  {
    set i | i in s :: (a * i) % p
  }

  lemma MultiplicationIsInjective(a: int, p: int, i: int, j: int)
    requires IsPrime(p) && !Divides(p, a) && 1 <= i < p && 1 <= j < p
    requires (a * i) % p == (a * j) % p
    ensures i == j
  {
    CongIffSameRemainder(a * i, a * j, p);
    assert a * i - a * j == a * (i - j);
    EuclidsLemma(p, a, i - j);
  }

  lemma {:induction false} ImageStep(a: int, p: int, s: set<int>, x: int)
    requires IsPrime(p) && !Divides(p, a) && s <= Residues(p) && x in s
    ensures (a * x) % p in Residues(p)
    ensures (a * x) % p !in Image(a, p, s - {x})
    ensures Image(a, p, s) == Image(a, p, s - {x}) + {(a * x) % p}
  {
    forall i | i in s - {x} ensures (a * i) % p != (a * x) % p {
      if (a * i) % p == (a * x) % p { MultiplicationIsInjective(a, p, i, x); }
    }
    assert s == s - {x} + {x};
    if (a * x) % p == 0 {
      DividesIffNoRemainder(p, a * x);
      EuclidsLemma(p, a, x);
    }
  }

  lemma {:induction false} ProductOfImage(a: int, p: int, s: set<int>)
    requires IsPrime(p) && !Divides(p, a) && s <= Residues(p)
    ensures |Image(a, p, s)| == |s| && Image(a, p, s) <= Residues(p)
    ensures Cong(Product(Image(a, p, s), p), Pow(a, |s|) * Product(s, p), p)
    decreases |s|
  {
    if s != {} {
      var x :| x in s;
      var s', y := s - {x}, (a * x) % p;
      ProductOfImage(a, p, s');
      ImageStep(a, p, s, x);
      assert Image(a, p, s) - {y} == Image(a, p, s');
      ProductTakesAny(Image(a, p, s), y, p);
      ProductTakesAny(s, x, p);
      CongRemainder(a * x, p);
      CongMul(y, a * x, Product(Image(a, p, s'), p), Pow(a, |s'|) * Product(s', p), p);
      RegroupProduct(a, x, Pow(a, |s'|), Product(s', p));
    } else {
      assert Image(a, p, s) == {};
      ProductOfNothing(p);
    }
  }

  lemma {:induction false} ProductIsUnit(p: int, s: set<int>, n: nat)
    requires IsPrime(p) && n < p
    ensures !Divides(p, Product(s, n))
  {
    if n > 0 {
      ProductIsUnit(p, s, n - 1);
      if n in s && Divides(p, Product(s, n)) { EuclidsLemma(p, n, Product(s, n - 1)); }
    }
  }

  lemma FermatsLittleTheorem(p: int, a: int)
    requires IsPrime(p) && !Divides(p, a)
    ensures Cong(Pow(a, p - 1), 1, p)
  {
    var units := Residues(p);
    ProductOfImage(a, p, units);
    SubsetOfSameSize(Image(a, p, units), units);
    CancelUnit(p, Pow(a, p - 1), Product(units, p));
    ProductIsUnit(p, units, p - 1);
  }

  lemma CancelUnit(p: int, e: int, u: int)
    requires IsPrime(p) && Cong(u, e * u, p)
    ensures Divides(p, u) || Cong(e, 1, p)
  {
    assert u - e * u == (1 - e) * u;
    EuclidsLemma(p, 1 - e, u);
    if Cong(1, e, p) { CongSym(1, e, p); }
  }

  // ----- -1 is not a square modulo a prime p with p % 4 == 3 -----

  lemma MinusOneIsNotASquare(p: int, x: int, y: int)
    requires IsPrime(p) && p % 4 == 3 && Divides(p, x * x + y * y)
    ensures Divides(p, x) && Divides(p, y)
  {
    if Divides(p, x) {
      OneZeroSquare(p, x, y);
    } else if Divides(p, y) {
      OneZeroSquare(p, y, x);
    } else {
      var k := (p - 3) / 4;
      OddPowersCancel(p, x * x, y * y, k);
      FermatForSquares(p, x, k);
      FermatForSquares(p, y, k);
      TwoIsNotZero(p, Pow(x * x, 2 * k + 1), Pow(y * y, 2 * k + 1));
    }
  }

  lemma OneZeroSquare(p: int, x: int, y: int)
    requires IsPrime(p) && Divides(p, x * x + y * y) && Divides(p, x)
    ensures Divides(p, y)
  {
    DividesCombination(p, x, 0, x, 0);
    DividesCombination(p, x * x + y * y, x * x, 1, -1);
    EuclidsLemma(p, y, y);
  }

  lemma FermatForSquares(p: int, x: int, k: nat)
    requires IsPrime(p) && p == 4 * k + 3 && !Divides(p, x)
    ensures Cong(Pow(x * x, 2 * k + 1), 1, p)
  {
    FermatsLittleTheorem(p, x);
    PowOfSquare(x, 2 * k + 1);
  }

  lemma TwoIsNotZero(p: int, e: int, f: int)
    requires p > 2 && Cong(e, 1, p) && Cong(f, 1, p)
    ensures !Divides(p, e + f)
  {
    if Divides(p, e + f) {
      DividesCombination(p, e - 1, f - 1, -1, -1);
      DividesCombination(p, e + f, -(e - 1) - (f - 1), 1, 1);
    }
  }

  /** Raising a = -b to an odd power. */
  lemma OddPowersCancel(m: int, a: int, b: int, k: nat)
    requires m > 0 && Divides(m, a + b)
    ensures Divides(m, Pow(a, 2 * k + 1) + Pow(b, 2 * k + 1))
  {
    assert a - -b == a + b;
    PowCong(a, -b, 2 * k + 1, m);
    OddPowerNegates(b, k);
  }

  lemma PowOfSquare(x: int, h: nat)
    ensures Pow(x * x, h) == Pow(x, 2 * h)
  {
    assert Pow(x, 2) == x * Pow(x, 1) == x * x;
    PowPow(x, 2, h);
  }

  // ----- Pocklington's criterion -----

  lemma {:induction false} LeastDivisor(n: int, from: int) returns (p: int)
    requires 1 < from <= n
    requires forall d :: 1 < d < from ==> !Divides(d, n)
    ensures IsPrime(p) && p <= n && Divides(p, n)
    ensures p < n ==> p * p <= n
    decreases n - from
  {
    if Divides(from, n) {
      p := from;
      forall d | 1 < d < p ensures !Divides(d, p) {
        if Divides(d, p) { DividesTrans(d, p, n); }
      }
      if p < n {
        var q := Quotient(p, n);
        CofactorBounds(n, p, q);
        if q < p {
          DividesMultiple(q, p);
        }
      }
    } else {
      assert Divides(n, n - n);
      p := LeastDivisor(n, from + 1);
    }
  }

  lemma CofactorBounds(n: int, p: int, q: int)
    requires n == p * q && 1 < p < n
    ensures 1 < q && n == q * p
    ensures q >= p ==> p * p <= n
  {
    assert q <= 0 ==> p * q <= 0;
    assert q >= p ==> p * q >= p * p;
  }

  /** D is the greatest proper divisor of Q: 1 when Q is prime, s^(k - 1) when Q == s^k. */
  ghost predicate CollectsProperDivisors(Q: int, D: int) {
    1 <= D < Q && forall g :: 1 <= g < Q && Divides(g, Q) ==> Divides(g, D)
  }

  lemma PrimeCollects(q: int)
    requires IsPrime(q)
    ensures CollectsProperDivisors(q, 1)
  {
  }

  lemma {:induction false} PrimeOfPower(p: int, s: int, k: nat)
    requires IsPrime(p) && IsPrime(s) && Divides(p, Pow(s, k))
    ensures p == s
  {
    if k == 0 {
      DividesNothingLarger(p, 1);
    } else {
      EuclidsLemma(p, s, Pow(s, k - 1));
      if Divides(p, s) { DivisorOfPrime(s, p); } else { PrimeOfPower(p, s, k - 1); }
    }
  }

  lemma {:induction false} PowPositive(s: int, k: nat)
    requires s > 0
    ensures Pow(s, k) > 0
  {
    if k > 0 { PowPositive(s, k - 1); }
  }

  lemma ProperDivisorOfPower(s: int, k: nat, g: int)
    requires IsPrime(s) && k > 0 && 1 <= g < Pow(s, k) && Divides(g, Pow(s, k))
    ensures Divides(g, Pow(s, k - 1))
  {
    var Q, D := Pow(s, k), Pow(s, k - 1);
    var h := Quotient(g, Q);
    CofactorAboveOne(g, h, Q);
    var p := LeastDivisor(h, 2);
    DividesMultiple(h, g);
    DividesTrans(p, h, Q);
    PrimeOfPower(p, s, k);
    var h' := Quotient(s, h);
    assert s * D == s * (g * h');
    CancelEqual(s, D, g * h');
    DividesMultiple(g, h');
  }

  lemma PrimePowerCollects(s: int, k: nat)
    requires IsPrime(s) && k > 0
    ensures CollectsProperDivisors(Pow(s, k), Pow(s, k - 1))
  {
    var Q, D := Pow(s, k), Pow(s, k - 1);
    PowPositive(s, k - 1);
    assert Q == s * D > D by { assert s >= 2; }
    forall g | 1 <= g < Q && Divides(g, Q) ensures Divides(g, D) {
      ProperDivisorOfPower(s, k, g);
    }
  }

  lemma CofactorAboveOne(g: int, h: int, n: int)
    requires 1 <= g < n && n == g * h
    ensures h >= 2
  {
    assert h <= 0 ==> g * h <= 0;
  }

  lemma CancelEqual(s: int, x: int, y: int)
    requires s > 0 && s * x == s * y
    ensures x == y
  {
  }

  /** When b^Q == 1 but b^D != 1 modulo a prime p, the whole of Q divides p - 1. */
  lemma OrderDividesGroup(p: int, Q: int, D: nat, b: int)
    requires IsPrime(p) && CollectsProperDivisors(Q, D)
    requires Cong(Pow(b, Q), 1, p) && !Cong(Pow(b, D), 1, p)
    ensures Divides(Q, p - 1)
  {
    if Divides(p, b) {
      DividesCombination(p, b, 0, Pow(b, Q - 1), 0);
      DividesCombination(p, Pow(b, Q), Pow(b, Q) - 1, 1, -1);
    } else {
      FermatsLittleTheorem(p, b);
      var g, u, v := GcdExponent(Q, p - 1);
      if g < Q {
        PowIsOneAtGcd(p, b, Q, p - 1, g, u, v);
        var k := Quotient(g, D);
        assert k >= 0 by {
          assert k < 0 ==> g * k < 0;
        }
        PowIsOne(b, g, k, p);
      } else {
        DividesNothingLarger(g, Q);
      }
    }
  }

  lemma DividesNothingLarger(g: int, n: int)
    requires 0 < n <= g && Divides(g, n)
    ensures g == n
  {
  }

  /** b^(Q u) == b^(g + m v) with both b^Q == 1 and b^m == 1, so b^g == 1. */
  lemma PowIsOneAtGcd(p: int, b: int, Q: nat, m: nat, g: nat, u: nat, v: nat)
    requires p > 0 && Cong(Pow(b, Q), 1, p) && Cong(Pow(b, m), 1, p)
    requires Q * u == g + m * v
    ensures Cong(Pow(b, g), 1, p)
  {
    PowIsOne(b, m, v, p);
    PowIsOne(b, Q, u, p);
    PowAdd(b, g, m * v);
    CongMul(Pow(b, g), Pow(b, g), Pow(b, m * v), 1, p);
    CongSym(Pow(b, Q * u), Pow(b, g), p);
    CongTrans(Pow(b, g), Pow(b, Q * u), 1, p);
  }

  lemma PowIsOne(b: int, m: nat, k: nat, p: int)
    requires p > 0 && Cong(Pow(b, m), 1, p)
    ensures m * k >= 0 && Cong(Pow(b, m * k), 1, p)
  {
    PowPow(b, m, k);
    PowCong(Pow(b, m), 1, k, p);
    PowOfOne(k);
  }

  /** Bezout with both exponents made nonnegative. */
  lemma GcdExponent(q: int, m: int) returns (g: int, u: nat, v: nat)
    requires q >= 1 && m >= 1
    ensures g >= 1 && Divides(g, q) && Divides(g, m) && q * u == g + m * v
  {
    var x, y;
    g, x, y := Bezout(q, m);
    var t := (if x < 0 then -x else x) + (if y < 0 then -y else y);
    ShiftBezout(q, m, x, y, t, g);
    u, v := x + m * t, q * t - y;
  }

  lemma ShiftBezout(q: int, m: int, x: int, y: int, t: int, g: int)
    requires q >= 1 && m >= 1 && t >= 0 && q * x + m * y == g
    ensures m * t >= t && q * t >= t
    ensures q * (x + m * t) == g + m * (q * t - y)
  {
    assert q * (m * t) == m * (q * t);
  }

  lemma SquareRootIsSmaller(p: int, q: int, n: int)
    requires 0 < p && 0 < q && p * p <= n < q * q
    ensures p < q
  {
    assert p >= q ==> p * p >= p * q >= q * q;
  }

  /** c generates a group of order Q modulo every prime divisor of n. */
  ghost predicate HasOrder(n: int, Q: int, D: nat, c: int, inv: int) {
    && n > 1 && CollectsProperDivisors(Q, D)
    && Cong(Pow(c, Q), 1, n) && Cong((Pow(c, D) - 1) * inv, 1, n)
  }

  lemma OrderOfDivisor(n: int, p: int, Q: int, D: nat, c: int, inv: int)
    requires HasOrder(n, Q, D, c, inv) && IsPrime(p) && Divides(p, n)
    ensures Divides(Q, p - 1)
  {
    DividesTrans(p, n, Pow(c, Q) - 1);
    DividesTrans(p, n, (Pow(c, D) - 1) * inv - 1);
    if Cong(Pow(c, D), 1, p) {
      DividesCombination(p, Pow(c, D) - 1, (Pow(c, D) - 1) * inv - 1, inv, -1);
      DividesNothingLarger(p, 1);
    } else {
      OrderDividesGroup(p, Q, D, c);
    }
  }

  /** Pocklington: let n - 1 == Q * r with Q * Q > n, where D is the greatest proper
      divisor of Q. If c == a^r satisfies c^Q == 1 modulo n while c^D - 1 is a unit
      modulo n, then n is prime. */
  lemma Pocklington(n: int, Q: int, D: nat, c: int, inv: int)
    requires HasOrder(n, Q, D, c, inv) && Q * Q > n
    ensures IsPrime(n)
  {
    var p := LeastDivisor(n, 2);
    if p < n {
      SquareRootIsSmaller(p, Q, n);
      OrderOfDivisor(n, p, Q, D, c, inv);
      DividesNothingLarger(Q, p - 1);
    }
  }

  lemma CoprimeProduct(Q: int, R: int, x: int, y: int, m: int)
    requires Q > 0 && R > 0 && Q * x + R * y == 1 && Divides(Q, m) && Divides(R, m)
    ensures Q * R > 0 && Divides(Q * R, m)
  {
    var k := Quotient(Q, m);
    var l := Quotient(R, m);
    ProductOfCofactors(Q, R, x, y, m, k, l);
    DividesMultiple(Q * R, l * x + k * y);
  }

  lemma ProductOfCofactors(Q: int, R: int, x: int, y: int, m: int, k: int, l: int)
    requires Q > 0 && R > 0 && Q * x + R * y == 1 && m == Q * k == R * l
    ensures Q * R > 0 && m == (Q * R) * (l * x + k * y)
  {
    assert m == m * (Q * x + R * y) == (m * Q) * x + (m * R) * y;
    assert (m * Q) * x == ((R * l) * Q) * x == (Q * R) * (l * x);
    assert (m * R) * y == ((Q * k) * R) * y == (Q * R) * (k * y);
  }

  /** The same with a Q that has two coprime parts. */
  lemma PocklingtonTwice(n: int, Q: int, D: nat, c: int, inv: int, R: int, E: nat, d: int, jnv: int, x: int, y: int)
    requires HasOrder(n, Q, D, c, inv) && HasOrder(n, R, E, d, jnv)
    requires Q * x + R * y == 1 && (Q * R) * (Q * R) > n
    ensures IsPrime(n)
  {
    var p := LeastDivisor(n, 2);
    if p < n {
      OrderOfDivisor(n, p, Q, D, c, inv);
      OrderOfDivisor(n, p, R, E, d, jnv);
      CoprimeProduct(Q, R, x, y, p - 1);
      SquareRootIsSmaller(p, Q * R, n);
      DividesNothingLarger(Q * R, p - 1);
    }
  }
}
