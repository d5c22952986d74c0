/**
 The random numbers of the lottery scheduler (rand_lottery and sorteio_prioridade of
 kernel/proc.c): a linear congruential generator on 32-bit words.  It visits every seed exactly
 once in 2^32 draws, so how often each class is drawn can be counted exactly.
 */
module LotteryDraw {
  import opened Arithmetic

  const A := 1103515245
  const C := 1248345
  const M := 0x1_0000_0000

  /** seed = seed * 1103515245 + 1248345 in 32-bit unsigned arithmetic. */
  function Next(seed: nat): (r: nat)
    ensures r < M
  {
    (seed * A + C) % M
  }

  function Draw(seed: nat): (r: nat)
    ensures r < 32768
  {
    (seed / 65536) % 32768
  }

  /** Class of a drawn number: 6, 3, 2 and 1 of the 12 tickets. */
  function ClassOf(number: nat): (c: nat)
    ensures c < 4
  {
    var ticket := number % 12;
    if ticket < 6 then 0 else if ticket < 9 then 1 else if ticket < 11 then 2 else 3
  }

  /** Which of the twelve tickets belong to which class. */
  lemma TicketRanges(number: nat)
    ensures number % 12 in {0, 1, 2, 3, 4, 5} <==> ClassOf(number) == 0
    ensures number % 12 in {6, 7, 8} <==> ClassOf(number) == 1
    ensures number % 12 in {9, 10} <==> ClassOf(number) == 2
    ensures number % 12 == 11 <==> ClassOf(number) == 3
  {
    assert number % 12 < 12;
  }

  /** The number drawn is bits 16 to 30 of the seed. */
  lemma DrawIsHighBits(seed: nat)
    ensures Draw(seed) * 65536 <= seed % 0x8000_0000 < (Draw(seed) + 1) * 65536
  {
    var q := seed / 65536;
    assert seed % 0x8000_0000 == (q % 32768) * 65536 + seed % 65536;
  }

  /** The first draws after boot: the numbers that the source's constants give. */
  lemma FirstDraws()
    ensures Next(123456) == 3511673241 && Next(3511673241) == 3408443518 && Next(3408443518) == 2551447039
    ensures Draw(3511673241) == 20815 && Draw(3408443518) == 19240 && Draw(2551447039) == 6163
    ensures ClassOf(Draw(3511673241)) == 1 && ClassOf(Draw(3408443518)) == 0 && ClassOf(Draw(2551447039)) == 1
  {
  }

  /** The seed after n draws. */
  function Iter(seed: nat, n: nat): (r: nat)
    ensures n > 0 || seed < M ==> r < M
  {
    if n == 0 then seed else Next(Iter(seed, n - 1))
  }

  // ----- The generator without wrap-around -----

  function Pow(a: nat, n: nat): nat {
    if n == 0 then 1 else a * Pow(a, n - 1)
  }

  /** 1 + a + ... + a^(n-1) */
  function Geo(a: nat, n: nat): nat {
    if n == 0 then 0 else a * Geo(a, n - 1) + 1
  }

  function Affine(x: nat, n: nat): nat {
    if n == 0 then x else A * Affine(x, n - 1) + C
  }

  lemma ModAffine(x: nat)
    ensures ((x % M) * A + C) % M == (x * A + C) % M
  {
    var q := x / M;
    ModShift((x % M) * A + C, q * A);
    assert x * A == (x % M) * A + (q * A) * M;
  }

  lemma ModShift(x: int, k: int)
    ensures (x + k * M) % M == x % M
  {
    Distribute(x / M, k, M);
    DivUnique(x + k * M, M, x / M + k, x % M);
  }

  lemma {:induction false} IterIsAffine(x: nat, n: nat)
    requires x < M
    ensures Iter(x, n) == Affine(x, n) % M
  {
    if n > 0 {
      IterIsAffine(x, n - 1);
      ModAffine(Affine(x, n - 1));
    }
  }

  lemma {:induction false} AffineClosed(x: nat, n: nat, k: nat)
    requires k == (A - 1) * x + C
    ensures Affine(x, n) == x + Geo(A, n) * k
  {
    if n > 0 {
      AffineClosed(x, n - 1, k);
      Scale(Geo(A, n - 1), k);
    }
  }

  lemma Scale(g: nat, k: nat)
    ensures (A * g + 1) * k == A * (g * k) + k
  {
  }

  // ----- Powers of two in the geometric sum -----

  function Pow2(e: nat): (r: nat)
    ensures r > 0
  {
    if e == 0 then 1 else 2 * Pow2(e - 1)
  }

  lemma DoubleMod(p: nat, y: nat)
    requires p > 0
    ensures (2 * y) % (2 * p) == 2 * (y % p)
  {
    DivUnique(2 * y, 2 * p, y / p, 2 * (y % p));
  }

  /** An odd factor does not matter for divisibility by a power of two. */
  lemma {:induction false} OddFactor(e: nat, x: nat, q: nat)
    requires q % 2 == 1
    ensures (x * q) % Pow2(e) == 0 <==> x % Pow2(e) == 0
  {
    if e > 0 {
      var p := Pow2(e - 1);
      if x % 2 == 0 {
        OddFactor(e - 1, x / 2, q);
        DoubleMod(p, x / 2);
        DoubleMod(p, (x / 2) * q);
        assert x * q == 2 * ((x / 2) * q);
      } else {
        OddTimesOdd(x, q);
        OddNotMultiple(x, p);
        OddNotMultiple(x * q, p);
      }
    }
  }

  lemma OddTimesOdd(x: nat, q: nat)
    requires x % 2 == 1 && q % 2 == 1
    ensures (x * q) % 2 == 1
  {
    var a, b := x / 2, q / 2;
    assert x * q == (2 * a + 1) * (2 * b + 1);
    assert (2 * a + 1) * (2 * b + 1) == 2 * (a * (2 * b + 1) + b) + 1;
  }

  lemma OddNotMultiple(x: nat, p: nat)
    requires x % 2 == 1 && p > 0
    ensures x % (2 * p) != 0
  {
    if x % (2 * p) == 0 { EvenMultiple(p, x / (2 * p)); }
  }

  lemma EvenMultiple(p: nat, q: nat)
    ensures ((2 * p) * q) % 2 == 0
  {
    assert (2 * p) * q == 2 * (p * q);
  }

  lemma OddKeepsParity(a: nat, g: nat)
    requires a % 2 == 1
    ensures (a * g) % 2 == g % 2
  {
    var h := a / 2;
    Distribute(2 * h, 1, g);
    assert (2 * h) * g == 2 * (h * g);
  }

  lemma ParityStep(a: nat, g: nat, n: nat)
    requires a % 2 == 1 && g % 2 == n % 2
    ensures (a * g + 1) % 2 == (n + 1) % 2
  {
    OddKeepsParity(a, g);
    ParitySuccessor(a * g, n);
  }

  lemma ParitySuccessor(v: nat, n: nat)
    requires v % 2 == n % 2
    ensures (v + 1) % 2 == (n + 1) % 2
  {
  }

  lemma {:induction false} GeoParity(a: nat, n: nat)
    requires a % 2 == 1
    ensures Geo(a, n) % 2 == n % 2
  {
    if n > 0 {
      GeoParity(a, n - 1);
      ParityStep(a, Geo(a, n - 1), n - 1);
    }
  }

  lemma {:induction false} GeoSplit(a: nat, m: nat, k: nat)
    ensures Geo(a, m + k) == Geo(a, k) + Pow(a, k) * Geo(a, m)
  {
    if k > 0 {
      GeoSplit(a, m, k - 1);
      SplitStep(a, Geo(a, k - 1), Pow(a, k - 1), Geo(a, m));
    }
  }

  lemma SplitStep(a: nat, g: nat, p: nat, h: nat)
    ensures a * (g + p * h) == a * g + (a * p) * h
  {
    assert a * (g + p * h) == a * g + a * (p * h);
    assert a * (p * h) == (a * p) * h;
  }

  lemma {:induction false} PowMod4(a: nat, n: nat)
    requires a % 4 == 1
    ensures Pow(a, n) % 4 == 1
  {
    if n > 0 {
      PowMod4(a, n - 1);
      OneMod4(a, Pow(a, n - 1));
    }
  }

  lemma OneMod4(a: nat, p: nat)
    requires a % 4 == 1
    ensures (a * p) % 4 == p % 4
  {
    var h := a / 4;
    Distribute(4 * h, 1, p);
    assert (4 * h) * p == 4 * (h * p);
  }

  /** 2^e divides the sum of n terms exactly when it divides n. */
  lemma {:induction false} GeoDivides(a: nat, e: nat, n: nat)
    requires a % 4 == 1
    ensures Geo(a, n) % Pow2(e) == 0 <==> n % Pow2(e) == 0
    decreases e
  {
    if e > 0 {
      GeoParity(a, n);
      var p := Pow2(e - 1);
      if n % 2 == 1 {
        OddNotMultiple(n, p);
        OddNotMultiple(Geo(a, n), p);
      } else {
        var m := n / 2;
        GeoHalf(a, m);
        var q := (1 + Pow(a, m)) / 2;
        GeoDivides(a, e - 1, m);
        OddFactor(e - 1, Geo(a, m), q);
        DoubleMod(p, Geo(a, m) * q);
        DoubleMod(p, m);
      }
    }
  }

  lemma GeoHalf(a: nat, m: nat)
    requires a % 4 == 1
    ensures ((1 + Pow(a, m)) / 2) % 2 == 1
    ensures Geo(a, 2 * m) == 2 * (Geo(a, m) * ((1 + Pow(a, m)) / 2))
  {
    PowMod4(a, m);
    HalfOdd(Pow(a, m));
    GeoSplit(a, m, m);
    HalfProduct(Geo(a, m), Pow(a, m), (1 + Pow(a, m)) / 2);
  }

  lemma HalfOdd(p: nat)
    requires p % 4 == 1
    ensures ((1 + p) / 2) % 2 == 1 && 1 + p == 2 * ((1 + p) / 2)
  {
  }

  lemma HalfProduct(g: nat, p: nat, q: nat)
    requires 1 + p == 2 * q
    ensures g + p * g == 2 * (g * q)
  {
    Distribute(1, p, g);
    assert (2 * q) * g == 2 * (g * q);
  }

  // ----- Full period -----

  lemma WordSize()
    ensures Pow2(32) == M
  {
    assert Pow2(8) == 256;
    assert Pow2(16) == 65536;
    assert Pow2(24) == 16777216;
  }

  /** The generator comes back to a seed exactly after a multiple of 2^32 draws. */
  lemma FullPeriod(x: nat, n: nat)
    requires x < M
    ensures Iter(x, n) == x <==> n % M == 0
  {
    var d := IterShift(x, n);
    SameResidue(x, d);
  }

  lemma IterShift(x: nat, n: nat) returns (d: int)
    requires x < M
    ensures Iter(x, n) == (x + d) % M
    ensures d % M == 0 <==> n % M == 0
  {
    var k := OddKey(x);
    IterIsAffine(x, n);
    AffineClosed(x, n, k);
    OddSum(n, k);
    d := Geo(A, n) * k;
  }

  lemma OddKey(x: nat) returns (k: nat)
    ensures k == (A - 1) * x + C && k % 2 == 1
  {
    k := (A - 1) * x + C;
  }

  lemma OddSum(n: nat, k: nat)
    requires k % 2 == 1
    ensures (Geo(A, n) * k) % M == 0 <==> n % M == 0
  {
    WordSize();
    OddFactor(32, Geo(A, n), k);
    GeoDivides(A, 32, n);
  }

  lemma SameResidue(x: nat, d: int)
    requires x < M
    ensures (x + d) % M == x <==> d % M == 0
  {
    var q := (x + d) / M;
    if (x + d) % M == x {
      DivUnique(d, M, q, 0);
    } else if d % M == 0 {
      ModShift(x, d / M);
    }
  }

  lemma {:induction false} IterAdd(x: nat, m: nat, n: nat)
    ensures Iter(x, m + n) == Iter(Iter(x, m), n)
  {
    if n > 0 { IterAdd(x, m, n - 1); }
  }

  /** No seed repeats within 2^32 consecutive draws. */
  lemma NoRepeat(x: nat, i: nat, j: nat)
    requires x < M && i < j < i + M
    ensures Iter(x, i) != Iter(x, j)
  {
    IterAdd(x, i, j - i);
    NoReturn(Iter(x, i), j - i);
  }

  lemma NoReturn(x: nat, n: nat)
    requires x < M && 0 < n < M
    ensures Iter(x, n) != x
  {
    FullPeriod(x, n);
  }
}
