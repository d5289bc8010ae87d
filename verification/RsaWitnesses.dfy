/** How many bases show an odd composite up in the Miller-Rabin rounds: more than
    half.  Some multiplier takes every base that passes to one that fails. */
module RsaWitnesses {
  import opened NumberTheory
  import opened RsaCheck

  ghost function Times(x: nat, w: nat, n: nat): nat
    requires 0 < n
  {
    (x * w) % n
  }

  /** Multiplying by w can be undone, and never leaves a base that passes passing. */
  ghost predicate Breaks(n: nat, w: nat)
    requires 2 <= n
  {
    && (exists k: nat :: k > 0 && Pow(w, k) % n == 1)
    && forall a: nat :: Passes(n, a) ==> !Passes(n, Times(a, w, n))
  }

  // ---------------------------------------------------------------- a base that passes has order dividing n - 1

  lemma {:induction false} OneModulo(n: int)
    requires 2 <= n
    ensures 1 % n == 1
  {
    DivModUnique(1, n, 0, 1);
  }

  lemma {:induction false} MinusOne(n: int)
    requires 2 <= n
    ensures (-1) % n == n - 1 && ((n - 1) * (n - 1)) % n == 1
  {
    DivModUnique(-1, n, -1, n - 1);
    assert (n - 1) * (n - 1) == n * (n - 2) + 1;
    DivModUnique((n - 1) * (n - 1), n, n - 2, 1);
  }

  /** Once at 1, the squares stay at 1. */
  lemma {:induction false} OneClimbs(n: nat, a: nat, d: nat, i: nat, j: nat)
    requires 2 <= n && i <= j && Pow(a, d * TwoPow(i)) % n == 1
    ensures Pow(a, d * TwoPow(j)) % n == 1
    decreases j
  {
    if i < j {
      OneClimbs(n, a, d, i, j - 1);
      SquareClimbs(a, d, j - 1, n, 1);
      OneModulo(n);
    }
  }

  /** One level above -1 is 1. */
  lemma {:induction false} AboveMinusOne(n: nat, a: nat, d: nat, i: nat)
    requires 2 <= n && MinusOneAt(n, a, d, i)
    ensures Pow(a, d * TwoPow(i + 1)) % n == 1
  {
    SquareClimbs(a, d, i, n, n - 1);
    MinusOne(n);
  }

  /** The base is at -1 at a level below the top one. */
  ghost predicate MinusOneBelow(n: nat, a: nat, i: nat)
    requires 2 <= n
  {
    i < Twos(n - 1) && MinusOneAt(n, a, OddPart(n - 1), i)
  }

  /** A base that passes is at 1 or -1 at every level from that of its -1 on. */
  lemma {:induction false} PassesLevels(n: nat, a: nat, j: nat)
    requires 2 <= n && Passes(n, a)
    requires forall i: nat :: MinusOneBelow(n, a, i) ==> i <= j
    ensures Pow(a, OddPart(n - 1) * TwoPow(j)) % n == 1 || MinusOneAt(n, a, OddPart(n - 1), j)
  {
    var d, r := OddPart(n - 1), Twos(n - 1);
    if Pow(a, d) % n == 1 {
      assert d * TwoPow(0) == d;
      OneClimbs(n, a, d, 0, j);
    } else {
      var i: nat :| i < r && MinusOneAt(n, a, d, i);
      assert MinusOneBelow(n, a, i);
      if i < j {
        AboveMinusOne(n, a, d, i);
        OneClimbs(n, a, d, i + 1, j);
      }
    }
  }

  lemma {:induction false} PassesFermat(n: nat, a: nat)
    requires 3 <= n && Passes(n, a)
    ensures Pow(a, n - 1) % n == 1
  {
    var d, r := OddPart(n - 1), Twos(n - 1);
    OddTimesTwos(n - 1);
    PassesLevels(n, a, r);
    if MinusOneAt(n, a, d, r) {
      if Pow(a, d) % n == 1 {
        assert d * TwoPow(0) == d;
        OneClimbs(n, a, d, 0, r);
      } else {
        var i: nat :| i < r && MinusOneAt(n, a, d, i);
        AboveMinusOne(n, a, d, i);
        OneClimbs(n, a, d, i + 1, r);
      }
    }
  }

  /** The power of a product, taken modulo n before or after. */
  lemma {:induction false} PowTimes(a: nat, w: nat, e: nat, n: nat)
    requires 0 < n
    ensures Pow(Times(a, w, n), e) % n == (Pow(a, e) * Pow(w, e)) % n
  {
    ModSelf(a * w, n);
    CongPow(Times(a, w, n), a * w, e, n);
    PowBaseMul(a, w, e);
  }

  // ---------------------------------------------------------------- a square factor

  lemma {:induction false} PowOnePlus(q: nat, k: nat, n: nat)
    requires 0 < n && (q * q) % n == 0
    ensures Pow(1 + q, k) % n == (1 + k * q) % n
  {
    if k > 0 {
      PowOnePlus(q, k - 1, n);
      CongMul(1 + q, 1 + q, Pow(1 + q, k - 1), 1 + (k - 1) * q, n);
      var t := DiffFromCong(q * q, 0, n);
      OnePlusStep(q, k, n, t);
      CongFromDiff((1 + q) * (1 + (k - 1) * q), 1 + k * q, (k - 1) * t, n);
    }
  }

  lemma {:induction false} OnePlusStep(q: int, k: int, n: int, t: int)
    requires q * q == n * t
    ensures (1 + q) * (1 + (k - 1) * q) == 1 + k * q + n * ((k - 1) * t)
  {
    var u := (k - 1) * q;
    assert q * u == (k - 1) * (q * q);
    assert (k - 1) * (n * t) == n * ((k - 1) * t);
    assert (1 + q) * (1 + u) == 1 + q + u + q * u;
    assert u == k * q - q;
  }

  /** With n = p*q and p dividing q, multiplying by 1 + q breaks every base that passes. */
  lemma {:induction false} SquareFactorBreaks(n: nat, p: nat, q: nat)
    requires 2 <= p && 2 <= q < n && n == p * q && q % p == 0
    ensures Breaks(n, 1 + q)
  {
    var t := DiffFromCong(q, 0, p);
    assert q * q == n * t by { assert (p * t) * q == (p * q) * t; }
    MultipleDivides(n, t);
    PowOnePlus(q, p, n);
    CongFromDiff(1 + p * q, 1, 1, n);
    OneModulo(n);
    PowOnePlus(q, n - 1, n);
    assert 1 + (n - 1) * q == (n + 1 - q) + n * (q - 1) by { assert (n - 1) * q == n * q - q; assert n * (q - 1) == n * q - n; }
    CongFromDiff(1 + (n - 1) * q, n + 1 - q, q - 1, n);
    DivModUnique(n + 1 - q, n, 0, n + 1 - q);
    forall a: nat | Passes(n, a) ensures !Passes(n, Times(a, 1 + q, n)) {
      PassesFermat(n, a);
      PowTimes(a, 1 + q, n - 1, n);
      CongMul(Pow(a, n - 1), 1, Pow(1 + q, n - 1), Pow(1 + q, n - 1), n);
      if Passes(n, Times(a, 1 + q, n)) { PassesFermat(n, Times(a, 1 + q, n)); }
    }
  }

  // ---------------------------------------------------------------- two coprime factors

  /** The highest level below r at which any base is at -1. */
  ghost predicate Highest(n: nat, j: nat, v: nat)
    requires 2 <= n
  {
    MinusOneBelow(n, v, j) && forall a: nat, i: nat :: MinusOneBelow(n, a, i) ==> i <= j
  }

  lemma {:induction false} PowMinusOneOdd(n: nat, e: nat)
    requires 2 <= n && e % 2 == 1
    ensures Pow(n - 1, e) % n == n - 1
  {
    var h := e / 2;
    assert e == 1 + (h + h);
    PowAdd(n - 1, 1, h + h);
    PowFirst(n - 1);
    PowSquare(n - 1, h);
    MinusOne(n);
    OneModulo(n);
    CongPow((n - 1) * (n - 1), 1, h, n);
    PowOne(h);
    CongMul(n - 1, n - 1, Pow((n - 1) * (n - 1), h), 1, n);
    DivModUnique(n - 1, n, 0, n - 1);
  }

  lemma {:induction false} OddPartOdd(n: nat)
    requires 0 < n
    ensures OddPart(n) % 2 == 1 && (n % 2 == 0 ==> Twos(n) > 0)
  {
    if n % 2 == 0 { OddPartOdd(n / 2); }
  }

  lemma {:induction false} Climb(n: nat, j: nat, v: nat) returns (top: nat, w: nat)
    requires 2 <= n && MinusOneBelow(n, v, j)
    ensures Highest(n, top, w)
    decreases Twos(n - 1) - j
  {
    if a: nat, i: nat :| MinusOneBelow(n, a, i) && j < i {
      top, w := Climb(n, i, a);
    } else {
      top, w := j, v;
    }
  }

  lemma {:induction false} HighestExists(n: nat) returns (j: nat, v: nat)
    requires 3 <= n && n % 2 == 1
    ensures Highest(n, j, v)
  {
    var d := OddPart(n - 1);
    OddPartOdd(n - 1);
    PowMinusOneOdd(n, d);
    assert d * TwoPow(0) == d;
    assert MinusOneAt(n, n - 1, d, 0);
    j, v := Climb(n, 0, n - 1);
  }

  /** At the highest level every base that passes is at 1 or -1, written as a sign. */
  lemma {:induction false} SignAt(n: nat, a: nat, j: nat, v: nat) returns (sign: int)
    requires 3 <= n && Highest(n, j, v) && Passes(n, a)
    ensures (sign == 1 || sign == -1) && Pow(a, OddPart(n - 1) * TwoPow(j)) % n == sign % n
  {
    PassesLevels(n, a, j);
    OneModulo(n);
    MinusOne(n);
    sign := if Pow(a, OddPart(n - 1) * TwoPow(j)) % n == 1 then 1 else -1;
  }

  lemma {:induction false} CongFactor(x: int, y: int, p: nat, m: nat)
    requires 0 < p && 0 < m && 0 < p * m && x % (p * m) == y % (p * m)
    ensures x % p == y % p && x % m == y % m
  {
    var k := DiffFromCong(x, y, p * m);
    assert (p * m) * k == p * (m * k) && (p * m) * k == m * (p * k);
    CongFromDiff(x, y, m * k, p);
    CongFromDiff(x, y, p * k, m);
  }

  /** Congruent modulo a prime and a number it does not divide: congruent modulo their product. */
  lemma {:induction false} CongTogether(x: int, y: int, p: nat, m: nat)
    requires Prime(p) && 0 < m && m % p != 0 && x % p == y % p && x % m == y % m
    ensures 0 < p * m && x % (p * m) == y % (p * m)
  {
    assert 0 < p * m;
    var k := DiffFromCong(x, y, m);
    CongAdd(x, y, y, y, p);
    assert x - y == m * k;
    DivModUnique(0, p, 0, 0);
    EuclidLemma(p, m, k);
    var j := DiffFromCong(k, 0, p);
    assert m * (p * j) == (p * m) * j;
    CongFromDiff(x, y, j, p * m);
  }

  /** A number that is v modulo p and 1 modulo m. */
  lemma {:induction false} Split(p: nat, m: nat, v: nat) returns (w: nat)
    requires Prime(p) && 2 <= m && m % p != 0
    ensures w % p == v % p && w % m == 1
  {
    PrimeCoprime(p, m);
    var s, t := Bezout(m, p);
    var y := GarnerCombination(p, m, s, t, v, 1);
    w := ReduceModProduct(p, m, y);
    OneModulo(m);
  }

  /** What the split base is at the highest level: -1 modulo p, 1 modulo m. */
  lemma {:induction false} SplitPowers(n: nat, p: nat, m: nat, v: nat, w: nat, e: nat)
    requires Prime(p) && 3 <= p && 3 <= m && n == p * m && m % p != 0
    requires Pow(v, e) % n == n - 1 && w % p == v % p && w % m == 1
    ensures Pow(w, e) % p == (-1) % p && Pow(w, e) % m == 1 % m && Pow(w, e + e) % n == 1
  {
    MinusOne(n);
    CongFactor(Pow(v, e), -1, p, m);
    CongPow(w, v, e, p);
    OneModulo(m);
    CongPow(w, 1, e, m);
    PowOne(e);
    PowAdd(w, e, e);
    CongMul(Pow(w, e), -1, Pow(w, e), -1, p);
    CongMul(Pow(w, e), 1, Pow(w, e), 1, m);
    CongTogether(Pow(w, e + e), 1, p, m);
    OneModulo(n);
  }

  /** No sign is both the opposite of s modulo p and s modulo m. */
  lemma {:induction false} SignsClash(p: nat, m: nat, s: int, t: int)
    requires 3 <= p && 3 <= m && (s == 1 || s == -1) && (t == 1 || t == -1)
    ensures t % p != (-s) % p || t % m != s % m
  {
    OneModulo(p);
    OneModulo(m);
    MinusOne(p);
    MinusOne(m);
  }

  /** With n = p*m, p prime not dividing m, some multiplier breaks every base that passes. */
  lemma {:induction false} CoprimeFactorsBreak(n: nat, p: nat, m: nat) returns (w: nat)
    requires Prime(p) && 3 <= p && 3 <= m && 3 <= n == p * m && m % p != 0 && n % 2 == 1
    ensures Breaks(n, w)
  {
    hide *;
    var j, v := HighestExists(n);
    w := Split(p, m, v);
    HighestPower(n, j, v);
    SplitPowers(n, p, m, v, w, Level(n, j));
    SplitBreaks(n, p, m, w, j, v);
  }

  lemma {:induction false} SplitBreaks(n: nat, p: nat, m: nat, w: nat, j: nat, v: nat)
    requires 3 <= p && 3 <= m && 3 <= n == p * m && Highest(n, j, v)
    requires Pow(w, Level(n, j)) % p == (-1) % p && Pow(w, Level(n, j)) % m == 1 % m
    requires Pow(w, Level(n, j) + Level(n, j)) % n == 1
    ensures Breaks(n, w)
  {
    hide Passes, Level, Highest, Times, Pow;
    LevelPositive(n, j);
    forall a: nat | Passes(n, a) ensures !Passes(n, Times(a, w, n)) {
      SplitFails(n, p, m, a, w, j, v);
    }
  }

  /** The exponent of level j. */
  ghost function Level(n: nat, j: nat): nat
    requires 2 <= n
  {
    OddTimesTwos(n - 1);
    TwoPowPositive(j);
    OddPart(n - 1) * TwoPow(j)
  }

  lemma {:induction false} HighestPower(n: nat, j: nat, v: nat)
    requires 2 <= n && Highest(n, j, v)
    ensures Pow(v, Level(n, j)) % n == n - 1
  {
  }

  lemma {:induction false} LevelPositive(n: nat, j: nat)
    requires 2 <= n
    ensures Level(n, j) == OddPart(n - 1) * TwoPow(j) > 0
  {
    OddTimesTwos(n - 1);
    TwoPowPositive(j);
  }

  lemma {:induction false} SplitFails(n: nat, p: nat, m: nat, a: nat, w: nat, j: nat, v: nat)
    requires 3 <= p && 3 <= m && 3 <= n == p * m && Highest(n, j, v) && Passes(n, a)
    requires Pow(w, Level(n, j)) % p == (-1) % p && Pow(w, Level(n, j)) % m == 1 % m
    ensures !Passes(n, Times(a, w, n))
  {
    if Passes(n, Times(a, w, n)) {
      var e := Level(n, j);
      var s := SignAt(n, a, j, v);
      var t := SignAt(n, Times(a, w, n), j, v);
      PowTimes(a, w, e, n);
      CongMul(Pow(a, e), s, Pow(w, e), Pow(w, e), n);
      CongFactor(t, s * Pow(w, e), p, m);
      CongMul(s, s, Pow(w, e), -1, p);
      CongMul(s, s, Pow(w, e), 1, m);
      assert s * -1 == -s && s * 1 == s;
      SignsClash(p, m, s, t);
    }
  }

  // ---------------------------------------------------------------- every odd composite is one or the other

  lemma {:induction false} PrimeDivisor(n: nat, d: nat) returns (p: nat)
    requires 2 <= d < n && n % d == 0
    ensures Prime(p) && p <= d && n % p == 0
    decreases d
  {
    if Prime(d) {
      p := d;
    } else {
      var k :| 2 <= k < d && d % k == 0;
      var q := DiffFromCong(n, 0, d);
      DividesTimes(k, d, q);
      p := PrimeDivisor(n, k);
    }
  }

  lemma {:induction false} OddFactors(n: nat, p: nat, m: nat)
    requires n == p * m && n % 2 == 1 && 2 <= p < n
    ensures p % 2 == 1 && m % 2 == 1 && 3 <= p && 3 <= m < n
  {
    if p % 2 == 0 { DividesTimes(2, p, m); }
    if m % 2 == 0 { DividesTimes(2, m, p); }
    assert m <= 1 ==> p * m <= p;
    assert p * m >= 2 * m;
  }

  lemma {:induction false} SomeMultiplierBreaks(n: nat) returns (w: nat)
    requires 5 <= n && n % 2 == 1 && !Prime(n)
    ensures Breaks(n, w)
  {
    var d :| 2 <= d < n && n % d == 0;
    var p := PrimeDivisor(n, d);
    var m := n / p;
    assert n == p * m;
    OddFactors(n, p, m);
    if m % p == 0 {
      SquareFactorBreaks(n, p, m);
      w := 1 + m;
    } else {
      w := CoprimeFactorsBreak(n, p, m);
    }
  }

  // ---------------------------------------------------------------- counting

  /** The bases drawn from that pass, and those that fail. */
  ghost function Passing(n: nat): set<nat>
    requires 2 <= n
  {
    set a: nat | 2 <= a <= n - 2 && Passes(n, a)
  }

  ghost function Failing(n: nat): set<nat>
    requires 2 <= n
  {
    set a: nat | 2 <= a <= n - 2 && !Passes(n, a)
  }

  lemma {:induction false} ZeroFails(n: nat)
    requires 3 <= n
    ensures !Passes(n, 0)
  {
    hide OddPart, TwoPow, Twos;
    var d := OddPart(n - 1);
    OddTimesTwos(n - 1);
    PowZero(d, n);
    forall j: nat ensures !MinusOneAt(n, 0, d, j) {
      LevelPositive(n, j);
      PowZero(d * TwoPow(j), n);
    }
  }

  lemma {:induction false} PowZero(e: nat, n: nat)
    requires 0 < n && 0 < e
    ensures Pow(0, e) % n == 0
  {
    DivModUnique(0, n, 0, 0);
  }

  /** 1 and n - 1 always pass, and 0 never. */
  lemma {:induction false} EndsPass(n: nat)
    requires 3 <= n && n % 2 == 1
    ensures Passes(n, 1) && Passes(n, n - 1) && !Passes(n, 0)
  {
    hide OddPart, Twos, Pow;
    var d := OddPart(n - 1);
    OddPartOdd(n - 1);
    PowOne(d);
    OneModulo(n);
    PowMinusOneOdd(n, d);
    assert d * TwoPow(0) == d;
    assert MinusOneAt(n, n - 1, d, 0);
    ZeroFails(n);
  }

  lemma {:induction false} TimesBack(x: nat, w: nat, v: nat, n: nat)
    requires x < n && (w * v) % n == 1 % n
    ensures Times(Times(x, w, n), v, n) == x
  {
    ModSelf(x * w, n);
    CongMul(Times(x, w, n), x * w, v, v, n);
    Associate(x, w, v);
    CongMul(x, x, w * v, 1, n);
    DivModUnique(x, n, 0, x);
  }

  /** As many images as numbers multiplied. */
  lemma {:induction false} Images(s: set<nat>, w: nat, v: nat, n: nat) returns (t: set<nat>)
    requires 0 < n && (w * v) % n == 1 % n && forall x :: x in s ==> x < n
    ensures |t| == |s|
    ensures forall y :: y in t ==> exists x :: x in s && y == Times(x, w, n)
    decreases |s|
  {
    t := {};
    if s != {} {
      var x :| x in s;
      var u := Images(s - {x}, w, v, n);
      var y := Times(x, w, n);
      if y in u {
        var z :| z in s - {x} && y == Times(z, w, n);
        TimesBack(x, w, v, n);
        TimesBack(z, w, v, n);
      }
      t := u + {y};
    }
  }

  ghost function Range(lo: nat, hi: nat): (s: set<nat>)
    ensures forall i :: i in s <==> lo <= i < hi
    ensures |s| == if lo <= hi then hi - lo else 0
    decreases hi - lo
  {
    if lo >= hi then {} else {lo} + Range(lo + 1, hi)
  }

  lemma {:induction false} SubsetFewer(a: set<nat>, b: set<nat>)
    requires a <= b
    ensures |a| <= |b|
    decreases |a|
  {
    if a != {} {
      var x :| x in a;
      SubsetFewer(a - {x}, b - {x});
    }
  }

  lemma {:induction false} PassingAll(n: nat) returns (all: set<nat>)
    requires 5 <= n && n % 2 == 1
    ensures |all| == |Passing(n)| + 2 && forall a :: a in all ==> 1 <= a < n && Passes(n, a)
  {
    EndsPass(n);
    all := Passing(n) + {1, n - 1};
    assert Passing(n) !! {1, n - 1};
    assert |{1, n - 1}| == 2;
  }

  lemma {:induction false} PassingFewer(n: nat, w: nat)
    requires 5 <= n && n % 2 == 1 && Breaks(n, w)
    ensures 2 * |Passing(n)| + 4 <= n - 1
  {
    var all := PassingAll(n);
    var k: nat :| k > 0 && Pow(w, k) % n == 1;
    PowPositive(w, k - 1);
    OneModulo(n);
    var moved := Images(all, w, Pow(w, k - 1), n);
    EndsPass(n);
    forall y | y in moved ensures y !in all && 1 <= y < n {
      var x :| x in all && y == Times(x, w, n);
      NotZero(x, w, Pow(w, k - 1), n);
    }
    assert all !! moved;
    SubsetFewer(all + moved, Range(1, n));
  }

  lemma {:induction false} NotZero(x: nat, w: nat, v: nat, n: nat)
    requires 1 <= x < n && (w * v) % n == 1 % n
    ensures 1 <= Times(x, w, n) < n
  {
    TimesBack(x, w, v, n);
    assert Times(0, v, n) == 0 by { DivModUnique(0, n, 0, 0); }
  }

  /** Of the n - 3 bases that may be drawn for an odd composite n of at least 5, more than half fail the round: each
      round drawn at random lets it through with probability under a half. */
  lemma {:induction false} MostBasesFail(n: nat)
    requires 5 <= n && n % 2 == 1 && !Prime(n)
    ensures |Passing(n)| + |Failing(n)| == n - 3
    ensures 2 * |Failing(n)| > n - 3
  {
    var w := SomeMultiplierBreaks(n);
    PassingFewer(n, w);
    assert Passing(n) !! Failing(n);
    assert Passing(n) + Failing(n) == Range(2, n - 1);
  }
}
