/** Congruences, greatest common divisors, primes and Fermat's little theorem:
    the arithmetic the RSA self-check rests on.  Congruence modulo a positive m
    is written `a % m == b % m`. */
module NumberTheory {

  ghost function Pow(b: int, e: nat): int {
    if e == 0 then 1 else b * Pow(b, e - 1)
  }

  ghost predicate Prime(p: int) {
    2 <= p && forall d :: 2 <= d < p ==> p % d != 0
  }

  // ---------------------------------------------------------------- congruence

  lemma {:induction false} SmallMultipleIsZero(m: int, d: int)
    requires 0 < m && -m < m * d < m
    ensures d == 0
  {
    assert d >= 1 ==> m * d >= m;
    assert d <= -1 ==> m * d <= -m;
  }

  lemma {:induction false} DivModUnique(x: int, m: int, q: int, r: int)
    requires 0 < m && x == m * q + r && 0 <= r < m
    ensures x / m == q && x % m == r
  {
    var d := x / m - q;
    assert m * d == r - x % m by {
      assert x == m * (x / m) + x % m;
      assert m * d == m * (x / m) - m * q;
    }
    SmallMultipleIsZero(m, d);
  }

  lemma {:induction false} CongFromDiff(x: int, y: int, k: int, m: int)
    requires 0 < m && x == y + m * k
    ensures x % m == y % m
  {
    assert y == m * (y / m) + y % m;
    assert m * (y / m) + m * k == m * (y / m + k);
    DivModUnique(x, m, y / m + k, y % m);
  }

  lemma {:induction false} DiffFromCong(x: int, y: int, m: int) returns (k: int)
    requires 0 < m && x % m == y % m
    ensures x == y + m * k
  {
    k := x / m - y / m;
    assert x == m * (x / m) + x % m && y == m * (y / m) + y % m;
    assert m * k == m * (x / m) - m * (y / m);
  }

  lemma {:induction false} CongAdd(a: int, b: int, c: int, d: int, m: int)
    requires 0 < m && a % m == b % m && c % m == d % m
    ensures (a + c) % m == (b + d) % m && (a - c) % m == (b - d) % m
  {
    var j := DiffFromCong(a, b, m);
    var k := DiffFromCong(c, d, m);
    assert m * j + m * k == m * (j + k) && m * j - m * k == m * (j - k);
    CongFromDiff(a + c, b + d, j + k, m);
    CongFromDiff(a - c, b - d, j - k, m);
  }

  lemma {:induction false} CongMul(a: int, b: int, c: int, d: int, m: int)
    requires 0 < m && a % m == b % m && c % m == d % m
    ensures (a * c) % m == (b * d) % m
  {
    var j := DiffFromCong(a, b, m);
    var k := DiffFromCong(c, d, m);
    calc {
      a * c;
      (b + m * j) * c;
      b * (d + m * k) + m * (j * c);
      b * d + m * (b * k + j * c);
    }
    CongFromDiff(a * c, b * d, b * k + j * c, m);
  }

  lemma {:induction false} ModSelf(a: int, m: int)
    requires 0 < m
    ensures (a % m) % m == a % m
  {
    DivModUnique(a % m, m, 0, a % m);
  }

  lemma {:induction false} CongPow(a: int, b: int, e: nat, m: int)
    requires 0 < m && a % m == b % m
    ensures Pow(a, e) % m == Pow(b, e) % m
  {
    if e > 0 {
      CongPow(a, b, e - 1, m);
      CongMul(a, b, Pow(a, e - 1), Pow(b, e - 1), m);
    }
  }

  // ---------------------------------------------------------------- divisibility

  lemma {:induction false} DividesTimes(d: int, x: int, k: int)
    requires 0 < d && x % d == 0
    ensures (k * x) % d == 0 && (x * k) % d == 0
  {
    CongMul(x, 0, k, k, d);
  }

  lemma {:induction false} MultipleDivides(d: int, k: int)
    requires 0 < d
    ensures (d * k) % d == 0
  {
    CongFromDiff(d * k, 0, k, d);
  }

  lemma {:induction false} DividesLe(d: int, n: int)
    requires 0 < d && 0 < n && n % d == 0
    ensures d <= n
  {
    if n < d { DivModUnique(n, d, 0, n); }
  }

  /** The recursion of the source's `gcd`. */
  function Gcd(a: nat, b: nat): nat
    decreases b
  {
    if b == 0 then a else Gcd(b, a % b)
  }

  lemma {:induction false} GcdDivides(a: nat, b: nat)
    requires a > 0 || b > 0
    ensures Gcd(a, b) > 0 && a % Gcd(a, b) == 0 && b % Gcd(a, b) == 0
    decreases b
  {
    if b == 0 {
      DivModUnique(a, a, 1, 0);
      DivModUnique(0, a, 0, 0);
    } else {
      GcdDivides(b, a % b);
      var g := Gcd(a, b);
      DividesTimes(g, b, a / b);
      assert a == b * (a / b) + a % b;
      CongAdd(b * (a / b), 0, a % b, 0, g);
    }
  }

  lemma {:induction false} Bezout(a: nat, b: nat) returns (x: int, y: int)
    ensures a * x + b * y == Gcd(a, b)
    decreases b
  {
    if b == 0 {
      x, y := 1, 0;
    } else {
      var u, v := Bezout(b, a % b);
      x, y := v, u - (a / b) * v;
      BezoutStep(a, b, a / b, a % b, u, v);
    }
  }

  lemma {:induction false} BezoutStep(a: int, b: int, q: int, r: int, u: int, v: int)
    requires a == b * q + r
    ensures a * v + b * (u - q * v) == b * u + r * v
  {
    Distribute(b * q, r, v);
    Associate(b, q, v);
    assert b * (u - q * v) == b * u - b * (q * v);
  }

  lemma {:induction false} CommonDivisorDividesGcd(d: int, a: nat, b: nat)
    requires 0 < d && a % d == 0 && b % d == 0
    ensures Gcd(a, b) % d == 0
  {
    var x, y := Bezout(a, b);
    DividesTimes(d, a, x);
    DividesTimes(d, b, y);
    CongAdd(a * x, 0, b * y, 0, d);
  }

  /** An inverse exists exactly for the residues coprime to the modulus. */
  lemma {:induction false} InverseIffCoprime(a: nat, x: int, m: nat)
    requires 0 < m && (a * x) % m == 1 % m
    ensures Gcd(m, a) == 1
  {
    GcdDivides(m, a);
    var g := Gcd(m, a);
    var k := DiffFromCong(a * x, 1, m);
    DividesTimes(g, a, x);
    DividesTimes(g, m, k);
    CongAdd(a * x, 0, m * k, 0, g);
    assert 1 % g == 0;
    DividesLe(g, 1);
  }

  /** If a is coprime to m and m divides a*b, then m divides b. */
  lemma {:induction false} CoprimeCancels(m: nat, a: nat, b: int)
    requires 0 < m && Gcd(a, m) == 1 && (a * b) % m == 0
    ensures b % m == 0
  {
    var x, y := Bezout(a, m);
    calc {
      b;
      (a * x + m * y) * b;
      (a * b) * x + m * (y * b);
    }
    DividesTimes(m, a * b, x);
    CongFromDiff(b, (a * b) * x, y * b, m);
  }

  // ---------------------------------------------------------------- primes

  lemma {:induction false} PrimeCoprime(p: int, a: nat)
    requires Prime(p) && a % p != 0
    ensures Gcd(a, p) == 1
  {
    GcdDivides(a, p);
    var g := Gcd(a, p);
    DividesLe(g, p);
  }

  lemma {:induction false} EuclidLemma(p: int, a: nat, b: int)
    requires Prime(p) && (a * b) % p == 0
    ensures a % p == 0 || b % p == 0
  {
    if a % p != 0 {
      PrimeCoprime(p, a);
      CoprimeCancels(p, a, b);
    }
  }

  /** Distinct primes that both divide x divide it together. */
  lemma {:induction false} PrimesDivideTogether(p: int, q: int, x: int)
    requires Prime(p) && Prime(q) && p != q && x % p == 0 && x % q == 0
    ensures x % (p * q) == 0
  {
    var k := DiffFromCong(x, 0, q);
    assert q % p != 0 by {
      if p < q { } else { DivModUnique(q, p, 0, q); }
    }
    EuclidLemma(p, q, k);
    var j := DiffFromCong(k, 0, p);
    assert x == (p * q) * j by { assert q * (p * j) == (p * q) * j; }
    MultipleDivides(p * q, j);
  }

  lemma {:induction false} SameResiduesSameNumber(p: int, q: int, x: int, y: int)
    requires Prime(p) && Prime(q) && p != q
    requires 0 <= x < p * q && 0 <= y < p * q && x % p == y % p && x % q == y % q
    ensures x == y
  {
    CongAdd(x, y, y, y, p);
    CongAdd(x, y, y, y, q);
    PrimesDivideTogether(p, q, x - y);
    var k := DiffFromCong(x - y, 0, p * q);
    SmallMultipleIsZero(p * q, k);
  }

  /** Two residues below their primes come from one number below the product. */
  lemma {:induction false} ChineseRemainder(p: int, q: int, a: nat, b: nat) returns (x: int)
    requires Prime(p) && Prime(q) && p != q && a < p && b < q
    ensures 0 <= x < p * q && x % p == a && x % q == b
  {
    assert q % p != 0 by {
      if p > q { DivModUnique(q, p, 0, q); }
    }
    PrimeCoprime(p, q);
    var s, t := Bezout(q, p);
    var y := GarnerCombination(p, q, s, t, a, b);
    x := ReduceModProduct(p, q, y);
    DivModUnique(a, p, 0, a);
    DivModUnique(b, q, 0, b);
  }

  lemma {:induction false} ReduceModProduct(p: int, q: int, y: int) returns (x: int)
    requires 0 < p && 0 < q
    ensures 0 <= x < p * q && x % p == y % p && x % q == y % q
  {
    var n := p * q;
    assert 0 < n;
    var k := y / n;
    x := y % n;
    assert y == x + n * k;
    assert n * k == p * (q * k) && n * k == q * (p * k);
    CongFromDiff(y, x, q * k, p);
    CongFromDiff(y, x, p * k, q);
  }

  lemma {:induction false} GarnerCombination(p: int, q: int, s: int, t: int, a: int, b: int) returns (y: int)
    requires 0 < p && 0 < q && q * s + p * t == 1
    ensures y % p == a % p && y % q == b % q
  {
    var u, v := q * s, p * t;
    y := a * u + b * v;
    assert v == 1 - u;
    assert y == a + (b - a) * v && y == b + (a - b) * u by {
      assert a * u == a - a * v && b * v == b - b * u;
      assert (b - a) * v == b * v - a * v && (a - b) * u == a * u - b * u;
    }
    assert (b - a) * v == p * (t * (b - a)) && (a - b) * u == q * (s * (a - b));
    CongFromDiff(y, a, t * (b - a), p);
    CongFromDiff(y, b, s * (a - b), q);
  }

  /** Modulo a prime, 1 has no square roots but 1 and -1. */
  lemma {:induction false} SquareRootsOfOne(p: int, x: nat)
    requires Prime(p) && (x * x) % p == 1
    ensures x % p == 1 || x % p == p - 1
  {
    if x == 0 {
      DivModUnique(0, p, 0, 0);
    } else {
      assert (x - 1) * (x + 1) == x * x - 1;
      DivModUnique(1, p, 0, 1);
      CongAdd(x * x, 1, 1, 1, p);
      DivModUnique(0, p, 0, 0);
      EuclidLemma(p, x - 1, x + 1);
      if (x - 1) % p == 0 {
        CongAdd(x - 1, 0, 1, 1, p);
      } else {
        CongAdd(x + 1, 0, 1, 1, p);
        CongFromDiff(-1, p - 1, -1, p);
        DivModUnique(p - 1, p, 0, p - 1);
      }
    }
  }

  // ---------------------------------------------------------------- Fermat

  ghost function Binomial(n: nat, k: nat): nat {
    if k == 0 then 1 else if n == 0 then 0 else Binomial(n - 1, k - 1) + Binomial(n - 1, k)
  }

  lemma {:induction false} BinomialAbove(n: nat, k: nat)
    requires n < k
    ensures Binomial(n, k) == 0
  {
    if n > 0 { BinomialAbove(n - 1, k - 1); BinomialAbove(n - 1, k); }
  }

  lemma {:induction false} BinomialFull(n: nat)
    ensures Binomial(n, n) == 1
  {
    if n > 0 { BinomialFull(n - 1); BinomialAbove(n - 1, n); }
  }

  lemma {:induction false} BinomialAbsorbs(n: nat, k: nat)
    requires 1 <= n && 1 <= k
    ensures k * Binomial(n, k) == n * Binomial(n - 1, k - 1)
  {
    if n == 1 {
      if k >= 2 { BinomialAbove(1, k); BinomialAbove(0, k - 1); }
    } else if k == 1 {
      BinomialAbsorbs(n - 1, 1);
    } else {
      BinomialAbsorbs(n - 1, k - 1);
      BinomialAbsorbs(n - 1, k);
      var u, v, w := Binomial(n - 2, k - 2), Binomial(n - 2, k - 1), Binomial(n - 1, k);
      assert Binomial(n - 1, k - 1) == u + v && Binomial(n, k) == u + v + w;
      AbsorptionStep(n, k, u, v, w);
    }
  }

  lemma {:induction false} AbsorptionStep(n: int, k: int, u: int, v: int, w: int)
    requires (k - 1) * (u + v) == (n - 1) * u && k * w == (n - 1) * v
    ensures k * (u + v + w) == n * (u + v)
  {
    assert k * (u + v + w) == (k - 1) * (u + v) + (u + v) + k * w;
    assert n * (u + v) == (n - 1) * u + (n - 1) * v + (u + v);
  }

  /** The first m + 1 terms of the expansion of (a + 1)^n. */
  ghost function Expansion(n: nat, a: int, m: nat): int {
    Binomial(n, m) * Pow(a, m) + if m == 0 then 0 else Expansion(n, a, m - 1)
  }

  lemma {:induction false} ExpansionPascal(n: nat, a: int, m: nat)
    requires 1 <= m
    ensures Expansion(n + 1, a, m) == Expansion(n, a, m) + a * Expansion(n, a, m - 1)
  {
    var u, v, w := Binomial(n, m - 1), Binomial(n, m), Pow(a, m - 1);
    assert Binomial(n + 1, m) == u + v && Pow(a, m) == a * w;
    if m == 1 {
      assert Expansion(n, a, 0) == 1 && Expansion(n + 1, a, 0) == 1;
      PascalStep(u, v, w, a, 0, 0, 1);
    } else {
      ExpansionPascal(n, a, m - 1);
      PascalStep(u, v, w, a, Expansion(n, a, m - 2), Expansion(n, a, m - 1) - u * w, Expansion(n + 1, a, m - 1));
    }
  }

  lemma {:induction false} PascalStep(u: int, v: int, w: int, a: int, below: int, same: int, above: int)
    requires below == same && above == u * w + same + a * below
    ensures (u + v) * (a * w) + above == v * (a * w) + (u * w + same) + a * (u * w + below)
  {
    assert (u + v) * (a * w) == u * (a * w) + v * (a * w);
    assert u * (a * w) == a * (u * w);
    assert a * (u * w + below) == a * (u * w) + a * below;
  }

  lemma {:induction false} BinomialTheorem(n: nat, a: int)
    ensures Pow(a + 1, n) == Expansion(n, a, n)
  {
    if n > 0 {
      BinomialTheorem(n - 1, a);
      ExpansionPascal(n - 1, a, n);
      BinomialAbove(n - 1, n);
      var e := Expansion(n - 1, a, n - 1);
      assert Expansion(n - 1, a, n) == e;
      Distribute(a, 1, e);
    }
  }

  lemma {:induction false} Distribute(x: int, y: int, z: int)
    ensures (x + y) * z == x * z + y * z
  {}

  lemma {:induction false} MiddleTermsVanish(p: int, a: int, m: nat)
    requires Prime(p) && m < p
    ensures Expansion(p, a, m) % p == 1
  {
    DivModUnique(1, p, 0, 1);
    if m > 0 {
      MiddleTermsVanish(p, a, m - 1);
      BinomialAbsorbs(p, m);
      MultipleDivides(p, Binomial(p - 1, m - 1));
      DivModUnique(m, p, 0, m);
      EuclidLemma(p, m, Binomial(p, m));
      DividesTimes(p, Binomial(p, m), Pow(a, m));
      CongAdd(Binomial(p, m) * Pow(a, m), 0, Expansion(p, a, m - 1), 1, p);
    }
  }

  lemma {:induction false} FermatPower(p: int, a: nat)
    requires Prime(p)
    ensures Pow(a, p) % p == a % p
  {
    if a == 0 {
      assert Pow(0, p) == 0 * Pow(0, p - 1);
    } else {
      FermatPower(p, a - 1);
      BinomialTheorem(p, a - 1);
      BinomialFull(p);
      MiddleTermsVanish(p, a - 1, p - 1);
      DivModUnique(1, p, 0, 1);
      CongAdd(Pow(a - 1, p), a - 1, Expansion(p, a - 1, p - 1), 1, p);
    }
  }

  /** Fermat's little theorem. */
  lemma {:induction false} Fermat(p: int, a: nat)
    requires Prime(p) && a % p != 0
    ensures Pow(a, p - 1) % p == 1
  {
    FermatPower(p, a);
    var w := Pow(a, p - 1);
    assert a * (w - 1) == Pow(a, p) - a;
    CongAdd(Pow(a, p), a, a, a, p);
    DivModUnique(0, p, 0, 0);
    EuclidLemma(p, a, w - 1);
    CongAdd(w - 1, 0, 1, 1, p);
    DivModUnique(1, p, 0, 1);
  }

  // ---------------------------------------------------------------- powers

  lemma {:induction false} Associate(a: int, b: int, c: int)
    ensures (a * b) * c == a * (b * c)
  {}

  lemma {:induction false} PowAdd(b: int, i: nat, j: nat)
    ensures Pow(b, i + j) == Pow(b, i) * Pow(b, j)
  {
    if i > 0 {
      PowAdd(b, i - 1, j);
      Associate(b, Pow(b, i - 1), Pow(b, j));
    }
  }

  lemma {:induction false} OneMore(i: nat, j: int)
    requires j > 0
    ensures i * j == i + i * (j - 1) && 0 <= i * (j - 1)
  {
  }

  lemma {:induction false} PowMul(b: int, i: nat, j: nat)
    ensures Pow(b, i * j) == Pow(Pow(b, i), j)
  {
    if j > 0 {
      PowMul(b, i, j - 1);
      var k := i * (j - 1);
      OneMore(i, j);
      PowAdd(b, i, k);
    } else {
      assert i * j == 0;
    }
  }

  lemma {:induction false} PowOne(e: nat)
    ensures Pow(1, e) == 1
  {
    if e > 0 { PowOne(e - 1); }
  }

  lemma {:induction false} SwapFactors(a: int, b: int, c: int, d: int)
    ensures (a * b) * (c * d) == (a * c) * (b * d)
  {
    assert b * (c * d) == c * (b * d);
    assert (a * b) * (c * d) == a * (b * (c * d));
    assert (a * c) * (b * d) == a * (c * (b * d));
  }

  lemma {:induction false} PowBaseMul(a: int, b: int, e: nat)
    ensures Pow(a * b, e) == Pow(a, e) * Pow(b, e)
  {
    if e > 0 {
      PowBaseMul(a, b, e - 1);
      SwapFactors(a, b, Pow(a, e - 1), Pow(b, e - 1));
    }
  }
}
