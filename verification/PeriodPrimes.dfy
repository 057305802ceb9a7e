/**
 2^128 - 1 is the product of nine numbers, and they are prime. The larger ones are
 certified by chains of modular powers and Pocklington's criterion.
 */
module PeriodPrimes {
  import opened NumberTheory
  import opened PrimeModulus

  const PERIOD: nat := 0xffff_ffff_ffff_ffff_ffff_ffff_ffff_ffff

  // ----- Small primes -----

  lemma TwoThreeFive()
    ensures IsPrime(2) && IsPrime(3) && IsPrime(5)
  {
    forall d | 1 < d < 5 ensures !Divides(d, 5) && (d < 3 ==> !Divides(d, 3)) {
      DividesIffNoRemainder(d, 5);
      DividesIffNoRemainder(d, 3);
    }
  }

  /** Trial division up to the square root. */
  lemma ByTrial(n: int, from: int)
    requires 1 < from <= n < from * from
    requires forall d :: 1 < d < from ==> n % d != 0
    ensures IsPrime(n)
  {
    forall d | 1 < d < from ensures !Divides(d, n) {
      DividesIffNoRemainder(d, n);
    }
    var p := LeastDivisor(n, from);
    SquaresGrow(from, p);
  }

  lemma SquaresGrow(a: int, b: int)
    ensures 0 <= a <= b ==> a * a <= b * b
  {
  }

  lemma Prime17()
    ensures IsPrime(17)
  {
    ByTrial(17, 5);
  }

  lemma Prime257()
    ensures IsPrime(257)
  {
    ByTrial(257, 17);
  }

  lemma Prime641()
    ensures IsPrime(641)
  {
    ByTrial(641, 26);
  }

  lemma Prime727()
    ensures IsPrime(727)
  {
    ByTrial(727, 27);
  }

  lemma Prime347()
    ensures IsPrime(347)
  {
    ByTrial(347, 19);
  }

  // ----- Larger primes -----

  lemma Itself(c: int, n: int)
    requires n > 0
    ensures Pow(c, 1) == c && Cong(Pow(c, 1), c, n)
  {
    assert Pow(c, 1) == c * Pow(c, 0);
  }

  lemma PowersOfTwo()
    ensures Pow(2, 7) == 128 && Pow(2, 8) == 256 && Pow(2, 15) == 32768 && Pow(2, 16) == 65536
  {
    assert Pow(2, 4) == 16 && Pow(2, 3) == 8;
    PowAdd(2, 4, 3);
    PowAdd(2, 4, 4);
    PowAdd(2, 8, 7);
    PowAdd(2, 8, 8);
  }

  lemma HalfPowerFor65537() returns (e: nat)
    ensures e == 32768 && Cong(Pow(3, e), 65536, 65537)
  {
    hide Pow, Cong;
    e := First(3, 65537);
    e := Step(3, e, 3, 0, 9, 65537);
    e := Step(3, e, 9, 0, 81, 65537);
    e := Step(3, e, 81, 0, 6561, 65537);
    e := Step(3, e, 6561, 0, 54449, 65537);
    e := Step(3, e, 54449, 0, 61869, 65537);
    e := Step(3, e, 61869, 0, 19139, 65537);
    e := Step(3, e, 19139, 0, 15028, 65537);
    e := Step(3, e, 15028, 0, 282, 65537);
    e := Step(3, e, 282, 0, 13987, 65537);
    e := Step(3, e, 13987, 0, 8224, 65537);
    e := Step(3, e, 8224, 0, 65529, 65537);
    e := Step(3, e, 65529, 0, 64, 65537);
    e := Step(3, e, 64, 0, 4096, 65537);
    e := Step(3, e, 4096, 0, 65281, 65537);
    e := Step(3, e, 65281, 0, 65536, 65537);
  }

  lemma PowerFor65537() returns (e: nat)
    ensures e == 65536 && Cong(Pow(3, e), 1, 65537)
  {
    hide Pow, Cong;
    e := HalfPowerFor65537();
    e := Step(3, e, 65536, 0, 1, 65537);
  }

  lemma Prime65537()
    ensures IsPrime(65537)
  {
    hide Pow, Cong;
    TwoThreeFive();
    PrimePowerCollects(2, 16);
    PowersOfTwo();
    var d := HalfPowerFor65537();
    var e := PowerFor65537();
    UnitAt(3, d, 65536, 32768, 65537);
    Pocklington(65537, 65536, 32768, 3, 32768);
  }

  lemma PowerFor17449() returns (e: nat)
    ensures e == 727 && Cong(Pow(8727, e), 1, 17449)
  {
    hide Pow, Cong;
    e := First(8727, 17449);
    e := Step(8727, e, 8727, 0, 13093, 17449);
    e := Step(8727, e, 13093, 1, 10458, 17449);
    e := Step(8727, e, 10458, 1, 16029, 17449);
    e := Step(8727, e, 16029, 0, 9765, 17449);
    e := Step(8727, e, 9765, 1, 8549, 17449);
    e := Step(8727, e, 8549, 0, 8989, 17449);
    e := Step(8727, e, 8989, 1, 6954, 17449);
    e := Step(8727, e, 6954, 1, 8618, 17449);
    e := Step(8727, e, 8618, 1, 1, 17449);
  }

  lemma Prime17449()
    ensures IsPrime(17449)
  {
    hide Pow, Cong;
    Prime727();
    PrimeCollects(727);
    var e := PowerFor17449();
    Itself(8727, 17449);
    UnitAt(8727, 1, 8727, 5817, 17449);
    Pocklington(17449, 727, 1, 8727, 5817);
  }

  lemma PowerFor6700417() returns (e: nat)
    ensures e == 17449 && Cong(Pow(5846540, e), 1, 6700417)
  {
    hide Pow, Cong;
    e := First(5846540, 6700417);
    e := Step(5846540, e, 5846540, 0, 55274, 6700417);
    e := Step(5846540, e, 55274, 0, 6525341, 6700417);
    e := Step(5846540, e, 6525341, 0, 3898418, 6700417);
    e := Step(5846540, e, 3898418, 1, 4820270, 6700417);
    e := Step(5846540, e, 4820270, 0, 344085, 6700417);
    e := Step(5846540, e, 344085, 0, 4819252, 6700417);
    e := Step(5846540, e, 4819252, 0, 3421594, 6700417);
    e := Step(5846540, e, 3421594, 0, 1897586, 6700417);
    e := Step(5846540, e, 1897586, 1, 1399296, 6700417);
    e := Step(5846540, e, 1399296, 0, 6638208, 6700417);
    e := Step(5846540, e, 6638208, 1, 1507169, 6700417);
    e := Step(5846540, e, 1507169, 0, 3124472, 6700417);
    e := Step(5846540, e, 3124472, 0, 5321460, 6700417);
    e := Step(5846540, e, 5321460, 1, 1, 6700417);
  }

  lemma Prime6700417()
    ensures IsPrime(6700417)
  {
    hide Pow, Cong;
    Prime17449();
    PrimeCollects(17449);
    var e := PowerFor6700417();
    Itself(5846540, 6700417);
    UnitAt(5846540, 1, 5846540, 4499094, 6700417);
    Pocklington(6700417, 17449, 1, 5846540, 4499094);
  }

  lemma PowerFor16657() returns (e: nat)
    ensures e == 347 && Cong(Pow(6944, e), 1, 16657)
  {
    hide Pow, Cong;
    e := First(6944, 16657);
    e := Step(6944, e, 6944, 0, 13778, 16657);
    e := Step(6944, e, 13778, 1, 8473, 16657);
    e := Step(6944, e, 8473, 0, 59, 16657);
    e := Step(6944, e, 59, 1, 2757, 16657);
    e := Step(6944, e, 2757, 1, 15390, 16657);
    e := Step(6944, e, 15390, 0, 6217, 16657);
    e := Step(6944, e, 6217, 1, 3721, 16657);
    e := Step(6944, e, 3721, 1, 1, 16657);
  }

  lemma Prime16657()
    ensures IsPrime(16657)
  {
    hide Pow, Cong;
    Prime347();
    PrimeCollects(347);
    var e := PowerFor16657();
    Itself(6944, 16657);
    UnitAt(6944, 1, 6944, 2687, 16657);
    Pocklington(16657, 347, 1, 6944, 2687);
  }

  lemma PowerFor166571() returns (e: nat)
    ensures e == 16657 && Cong(Pow(1024, e), 1, 166571)
  {
    hide Pow, Cong;
    e := First(1024, 166571);
    e := Step(1024, e, 1024, 0, 49150, 166571);
    e := Step(1024, e, 49150, 0, 109858, 166571);
    e := Step(1024, e, 109858, 0, 44930, 166571);
    e := Step(1024, e, 44930, 0, 30951, 166571);
    e := Step(1024, e, 30951, 0, 14580, 166571);
    e := Step(1024, e, 14580, 1, 85951, 166571);
    e := Step(1024, e, 85951, 0, 150551, 166571);
    e := Step(1024, e, 150551, 0, 121060, 166571);
    e := Step(1024, e, 121060, 0, 107307, 166571);
    e := Step(1024, e, 107307, 1, 101911, 166571);
    e := Step(1024, e, 101911, 0, 150071, 166571);
    e := Step(1024, e, 150071, 0, 72986, 166571);
    e := Step(1024, e, 72986, 0, 15616, 166571);
    e := Step(1024, e, 15616, 1, 1, 166571);
  }

  lemma Prime166571()
    ensures IsPrime(166571)
  {
    hide Pow, Cong;
    Prime16657();
    PrimeCollects(16657);
    var e := PowerFor166571();
    Itself(1024, 166571);
    UnitAt(1024, 1, 1024, 85158, 166571);
    Pocklington(166571, 16657, 1, 1024, 85158);
  }

  lemma PowerFor2998279() returns (e: nat)
    ensures e == 166571 && Cong(Pow(262144, e), 1, 2998279)
  {
    hide Pow, Cong;
    e := First(262144, 2998279);
    e := Step(262144, e, 262144, 0, 1920335, 2998279);
    e := Step(262144, e, 1920335, 1, 2213557, 2998279);
    e := Step(262144, e, 2213557, 0, 2076264, 2998279);
    e := Step(262144, e, 2076264, 0, 620518, 2998279);
    e := Step(262144, e, 620518, 0, 600865, 2998279);
    e := Step(262144, e, 600865, 1, 578376, 2998279);
    e := Step(262144, e, 578376, 0, 809346, 2998279);
    e := Step(262144, e, 809346, 1, 556405, 2998279);
    e := Step(262144, e, 556405, 0, 2224159, 2998279);
    e := Step(262144, e, 2224159, 1, 2240234, 2998279);
    e := Step(262144, e, 2240234, 0, 58559, 2998279);
    e := Step(262144, e, 58559, 1, 338724, 2998279);
    e := Step(262144, e, 338724, 0, 1803962, 2998279);
    e := Step(262144, e, 1803962, 1, 2205734, 2998279);
    e := Step(262144, e, 2205734, 0, 119641, 2998279);
    e := Step(262144, e, 119641, 1, 427489, 2998279);
    e := Step(262144, e, 427489, 1, 1, 2998279);
  }

  lemma Prime2998279()
    ensures IsPrime(2998279)
  {
    hide Pow, Cong;
    Prime166571();
    PrimeCollects(166571);
    var e := PowerFor2998279();
    Itself(262144, 2998279);
    UnitAt(262144, 1, 262144, 426873, 2998279);
    Pocklington(2998279, 166571, 1, 262144, 426873);
  }

  lemma HalfPowerFor274177() returns (e: nat)
    ensures e == 128 && Cong(Pow(149703, e), 274176, 274177)
  {
    hide Pow, Cong;
    e := First(149703, 274177);
    e := Step(149703, e, 149703, 0, 34406, 274177);
    e := Step(149703, e, 34406, 0, 150727, 274177);
    e := Step(149703, e, 150727, 0, 48132, 274177);
    e := Step(149703, e, 48132, 0, 167951, 274177);
    e := Step(149703, e, 167951, 0, 208641, 274177);
    e := Step(149703, e, 208641, 0, 258768, 274177);
    e := Step(149703, e, 258768, 0, 274176, 274177);
  }

  lemma PowerFor274177() returns (e: nat)
    ensures e == 17 && Cong(Pow(250975, e), 1, 274177)
  {
    hide Pow, Cong;
    e := First(250975, 274177);
    e := Step(250975, e, 250975, 0, 123353, 274177);
    e := Step(250975, e, 123353, 0, 235817, 274177);
    e := Step(250975, e, 235817, 0, 255818, 274177);
    e := Step(250975, e, 255818, 1, 1, 274177);
  }

  lemma PowerFor274177Even() returns (e: nat)
    ensures e == 256 && Cong(Pow(149703, e), 1, 274177)
  {
    hide Pow, Cong;
    e := HalfPowerFor274177();
    e := Step(149703, e, 274176, 0, 1, 274177);
  }

  lemma EvenPartOf274177()
    ensures HasOrder(274177, 256, 128, 149703, 137088)
  {
    hide Pow, Cong;
    TwoThreeFive();
    PrimePowerCollects(2, 8);
    PowersOfTwo();
    var d := HalfPowerFor274177();
    var e := PowerFor274177Even();
    UnitAt(149703, d, 274176, 137088, 274177);
  }

  lemma OddPartOf274177()
    ensures HasOrder(274177, 17, 1, 250975, 203621)
  {
    hide Pow, Cong;
    Prime17();
    PrimeCollects(17);
    var f := PowerFor274177();
    Itself(250975, 274177);
    UnitAt(250975, 1, 250975, 203621, 274177);
  }

  lemma Prime274177()
    ensures IsPrime(274177)
  {
    hide HasOrder;
    EvenPartOf274177();
    OddPartOf274177();
    PocklingtonTwice(274177, 256, 128, 149703, 137088, 17, 1, 250975, 203621, 1, -15);
  }

  lemma HalfPowerFor67280421310721() returns (e: nat)
    ensures e == 128 && Cong(Pow(8377198798470, e), 67280421310720, 67280421310721)
  {
    hide Pow, Cong;
    e := First(8377198798470, 67280421310721);
    e := Step(8377198798470, e, 8377198798470, 0, 67280421308673, 67280421310721);
    e := Step(8377198798470, e, 67280421308673, 0, 4194304, 67280421310721);
    e := Step(8377198798470, e, 4194304, 0, 17592186044416, 67280421310721);
    e := Step(8377198798470, e, 17592186044416, 0, 67280404533505, 67280421310721);
    e := Step(8377198798470, e, 67280404533505, 0, 12353291467772, 67280421310721);
    e := Step(8377198798470, e, 12353291467772, 0, 67276126343425, 67280421310721);
    e := Step(8377198798470, e, 67276126343425, 0, 67280421310720, 67280421310721);
  }

  lemma PowerFor67280421310721() returns (e: nat)
    ensures e == 2998279 && Cong(Pow(61150258807256, e), 1, 67280421310721)
  {
    hide Pow, Cong;
    e := First(61150258807256, 67280421310721);
    e := Step(61150258807256, e, 61150258807256, 0, 35368508254486, 67280421310721);
    e := Step(61150258807256, e, 35368508254486, 1, 59742327404554, 67280421310721);
    e := Step(61150258807256, e, 59742327404554, 1, 45303674380303, 67280421310721);
    e := Step(61150258807256, e, 45303674380303, 0, 41395351787540, 67280421310721);
    e := Step(61150258807256, e, 41395351787540, 1, 49783435829415, 67280421310721);
    e := Step(61150258807256, e, 49783435829415, 1, 59056870165074, 67280421310721);
    e := Step(61150258807256, e, 59056870165074, 1, 14562750926270, 67280421310721);
    e := Step(61150258807256, e, 14562750926270, 0, 60872528625882, 67280421310721);
    e := Step(61150258807256, e, 60872528625882, 0, 55762552839162, 67280421310721);
    e := Step(61150258807256, e, 55762552839162, 0, 6405617268592, 67280421310721);
    e := Step(61150258807256, e, 6405617268592, 0, 63765079737644, 67280421310721);
    e := Step(61150258807256, e, 63765079737644, 0, 16283862398773, 67280421310721);
    e := Step(61150258807256, e, 16283862398773, 0, 66142084581726, 67280421310721);
    e := Step(61150258807256, e, 66142084581726, 0, 60911636373490, 67280421310721);
    e := Step(61150258807256, e, 60911636373490, 0, 25793020310808, 67280421310721);
    e := Step(61150258807256, e, 25793020310808, 0, 31051569100779, 67280421310721);
    e := Step(61150258807256, e, 31051569100779, 0, 57435633942794, 67280421310721);
    e := Step(61150258807256, e, 57435633942794, 0, 49280519156276, 67280421310721);
    e := Step(61150258807256, e, 49280519156276, 1, 5624724411804, 67280421310721);
    e := Step(61150258807256, e, 5624724411804, 1, 30022361660630, 67280421310721);
    e := Step(61150258807256, e, 30022361660630, 1, 1, 67280421310721);
  }

  lemma PowerFor67280421310721Even() returns (e: nat)
    ensures e == 256 && Cong(Pow(8377198798470, e), 1, 67280421310721)
  {
    hide Pow, Cong;
    e := HalfPowerFor67280421310721();
    e := Step(8377198798470, e, 67280421310720, 0, 1, 67280421310721);
  }

  lemma EvenPartOf67280421310721()
    ensures HasOrder(67280421310721, 256, 128, 8377198798470, 33640210655360)
  {
    hide Pow, Cong;
    TwoThreeFive();
    PrimePowerCollects(2, 8);
    PowersOfTwo();
    var d := HalfPowerFor67280421310721();
    var e := PowerFor67280421310721Even();
    UnitAt(8377198798470, d, 67280421310720, 33640210655360, 67280421310721);
  }

  lemma OddPartOf67280421310721()
    ensures HasOrder(67280421310721, 2998279, 1, 61150258807256, 47000331560307)
  {
    hide Pow, Cong;
    Prime2998279();
    PrimeCollects(2998279);
    var f := PowerFor67280421310721();
    Itself(61150258807256, 67280421310721);
    UnitAt(61150258807256, 1, 61150258807256, 47000331560307, 67280421310721);
  }

  lemma Prime67280421310721()
    ensures IsPrime(67280421310721)
  {
    hide HasOrder;
    EvenPartOf67280421310721();
    OddPartOf67280421310721();
    PocklingtonTwice(67280421310721, 256, 128, 8377198798470, 33640210655360, 2998279, 1, 61150258807256,
      47000331560307, 854978, -73);
  }
}
