/** The self-check a generated RSA key goes through: trial division, Miller-Rabin,
    the extended Euclid and the CRT round trip.  JavaScript's BigInt `%` truncates
    toward zero; `TruncMod` is that operator. */
module RsaCheck {
  import opened Basics
  import opened NumberTheory

  function TruncMod(a: int, m: int): int
    requires 0 < m
  {
    if a >= 0 then a % m else -((-a) % m)
  }

  lemma {:induction false} TruncModNegate(x: int, m: int)
    requires 0 < m
    ensures TruncMod(-x, m) == -TruncMod(x, m)
  {
    if x == 0 { DivModUnique(0, m, 0, 0); }
  }

  lemma {:induction false} TruncModProductNegate(u: int, v: int, x: int, y: int, m: int)
    requires 0 < m && TruncMod(u * v, m) == TruncMod(x * y, m)
    ensures TruncMod((-u) * v, m) == TruncMod((-x) * y, m)
    ensures TruncMod(u * (-v), m) == TruncMod(x * (-y), m)
  {
    var s, t := u * v, x * y;
    assert (-u) * v == -s && u * (-v) == -s && (-x) * y == -t && x * (-y) == -t;
    TruncModNegate(s, m);
    TruncModNegate(t, m);
  }

  lemma {:induction false} TruncModMulNat(x: nat, y: nat, m: int)
    requires 0 < m
    ensures TruncMod((x % m) * (y % m), m) == TruncMod(x * y, m)
  {
    ModSelf(x, m);
    ModSelf(y, m);
    CongMul(x % m, x, y % m, y, m);
    assert 0 <= x * y && 0 <= (x % m) * (y % m);
  }

  lemma {:induction false} TruncModMul(x: int, y: int, m: int)
    requires 0 < m
    ensures TruncMod(TruncMod(x, m) * TruncMod(y, m), m) == TruncMod(x * y, m)
    decreases x < 0, y < 0
  {
    if x < 0 {
      TruncModMul(-x, y, m);
      TruncModNegate(x, m);
      TruncModProductNegate(TruncMod(-x, m), TruncMod(y, m), -x, y, m);
    } else if y < 0 {
      TruncModMul(x, -y, m);
      TruncModNegate(y, m);
      TruncModProductNegate(TruncMod(x, m), TruncMod(-y, m), x, -y, m);
    } else {
      TruncModMulNat(x, y, m);
    }
  }

  lemma {:induction false} TruncModFactor(x: int, y: int, m: int)
    requires 0 < m
    ensures TruncMod(TruncMod(x, m) * y, m) == TruncMod(x * y, m)
    ensures TruncMod(x * TruncMod(y, m), m) == TruncMod(x * y, m)
    ensures TruncMod(TruncMod(x, m), m) == TruncMod(x, m)
  {
    ModSelf(if x >= 0 then x else -x, m);
    ModSelf(if y >= 0 then y else -y, m);
    TruncModMul(x, y, m);
    TruncModMul(TruncMod(x, m), y, m);
    TruncModMul(x, TruncMod(y, m), m);
  }

  lemma {:induction false} TruncModPow(b: int, e: nat, m: int)
    requires 0 < m
    ensures TruncMod(Pow(TruncMod(b, m), e), m) == TruncMod(Pow(b, e), m)
  {
    if e > 0 {
      TruncModPow(b, e - 1, m);
      TruncModMul(TruncMod(b, m), Pow(TruncMod(b, m), e - 1), m);
      TruncModFactor(b, TruncMod(Pow(b, e - 1), m), m);
      TruncModFactor(b, Pow(b, e - 1), m);
      TruncModFactor(b, b, m);
    }
  }

  /** One squaring step keeps r * b^e, modulo m. */
  lemma {:induction false} SquareStep(r: int, b: int, e: nat, m: int)
    requires 0 < m && e > 0
    ensures var r' := if e % 2 == 1 then TruncMod(r * b, m) else r;
            TruncMod(r' * Pow(TruncMod(b * b, m), e / 2), m) == TruncMod(r * Pow(b, e), m)
  {
    var h := e / 2;
    var w, z := Pow(b * b, h), Pow(TruncMod(b * b, m), h);
    var r' := if e % 2 == 1 then r * b else r;
    HalveExponent(r, b, e);
    TruncModPow(b * b, h, m);
    TruncModFactor(r', z, m);
    TruncModFactor(r', w, m);
  }

  lemma {:induction false} PowSquare(b: int, h: nat)
    ensures Pow(b * b, h) == Pow(b, h + h)
  {
    PowBaseMul(b, b, h);
    PowAdd(b, h, h);
  }

  lemma {:induction false} HalveExponent(r: int, b: int, e: nat)
    ensures (if e % 2 == 1 then r * b else r) * Pow(b * b, e / 2) == r * Pow(b, e)
  {
    var h := e / 2;
    var w := Pow(b * b, h);
    PowSquare(b, h);
    if e % 2 == 1 {
      assert e == 1 + (h + h);
      PowAdd(b, 1, h + h);
      PowFirst(b);
      Associate(r, b, w);
    } else {
      assert e == h + h;
    }
  }

  lemma {:induction false} PowFirst(b: int)
    ensures Pow(b, 1) == b
  {
    assert Pow(b, 0) == 1;
  }

  /** Square and multiply computes the power, whatever the base's sign. */
  method ModPow(base: int, exp: int, mod: int) returns (r: int)
    requires 0 < mod
    ensures r == if exp <= 0 then 1 else TruncMod(Pow(base, exp), mod)
  {
    r := 1;
    var b := TruncMod(base, mod);
    var e := exp;
    if exp > 0 { TruncModPow(base, exp, mod); }
    while e > 0
      invariant exp <= 0 ==> e == exp && r == 1
      invariant exp > 0 ==> e >= 0 && TruncMod(r * Pow(b, e), mod) == TruncMod(Pow(base, exp), mod)
      invariant exp > 0 && e == 0 ==> -mod < r < mod
    {
      SquareStep(r, b, e, mod);
      if e % 2 == 1 { r := TruncMod(r * b, mod); }
      b := TruncMod(b * b, mod);
      e := e / 2;
    }
    if exp > 0 {
      assert r * Pow(b, 0) == r;
      if r >= 0 { DivModUnique(r, mod, 0, r); } else { DivModUnique(-r, mod, 0, -r); }
    }
  }

  ghost predicate InverseMod(a: int, x: int, m: int)
    requires 0 < m
  {
    0 <= x < m && (a * x) % m == 1 % m
  }

  /** t is a multiplier that takes a to the remainder r, modulo m. */
  ghost predicate Tracks(a: int, m: int, r: int, t: int)
    requires 0 < m
  {
    (t * a) % m == r % m
  }

  /** The source's ((a % m) + m) % m is the residue in [0, m). */
  lemma {:induction false} FloorFromTrunc(a: int, m: int)
    requires 0 < m
    ensures TruncMod(TruncMod(a, m) + m, m) == a % m
  {
    var t := TruncMod(a, m);
    if a >= 0 {
      DivModUnique(t + m, m, 1, t);
    } else {
      var k := (-a) / m;
      assert -a == m * k + (-a) % m;
      assert a == t + m * (-k) by { assert m * (-k) == -(m * k); }
      CongFromDiff(a, t, -k, m);
      CongFromDiff(t + m, t, 1, m);
    }
  }

  ghost predicate EuclidState(a: int, m: int, r0: int, r1: int, t0: int, t1: int)
    requires 0 < m
  {
    0 < r0 && 0 <= r1 && Gcd(r0, r1) == Gcd(m, a % m) && Tracks(a, m, r0, t0) && Tracks(a, m, r1, t1)
  }

  lemma {:induction false} EuclidTracks(a: int, m: int, r0: int, r1: int, t0: int, t1: int, q: int)
    requires 0 < m && Tracks(a, m, r0, t0) && Tracks(a, m, r1, t1)
    ensures Tracks(a, m, r0 - q * r1, t0 - q * t1)
  {
    CongMul(t1 * a, r1, q, q, m);
    CongAdd(t0 * a, r0, (t1 * a) * q, r1 * q, m);
    assert (t0 - q * t1) * a == t0 * a - (t1 * a) * q by {
      Associate(q, t1, a);
      Distribute(t0, -(q * t1), a);
      assert (-(q * t1)) * a == -((q * t1) * a);
    }
  }

  /** One division step keeps the state and shrinks the remainder. */
  lemma {:induction false} EuclidStep(a: int, m: int, r0: int, r1: int, t0: int, t1: int, q: int)
    requires 0 < m && EuclidState(a, m, r0, r1, t0, t1) && r1 != 0 && q == r0 / r1
    ensures EuclidState(a, m, r1, r0 - q * r1, t1, t0 - q * t1)
    ensures 0 <= r0 - q * r1 < r1
  {
    EuclidTracks(a, m, r0, r1, t0, t1, q);
    GcdStep(r0, r1, q);
  }

  lemma {:induction false} GcdStep(r0: nat, r1: nat, q: int)
    requires 0 < r1 && q == r0 / r1
    ensures 0 <= r0 - q * r1 < r1 && Gcd(r0, r1) == Gcd(r1, r0 - q * r1)
  {
    assert r0 == r1 * q + r0 % r1;
    assert r1 * q == q * r1;
  }

  lemma {:induction false} EuclidStart(a: int, m: int)
    requires 0 < m
    ensures EuclidState(a, m, m, a % m, 0, 1)
  {
    DivModUnique(m, m, 1, 0);
    DivModUnique(0, m, 0, 0);
    ModSelf(a, m);
  }

  lemma {:induction false} NoInverse(a: int, m: nat)
    requires 0 < m && Gcd(m, a % m) != 1
    ensures forall x :: !InverseMod(a, x, m)
  {
    forall x | InverseMod(a, x, m) ensures false {
      ModSelf(a, m);
      CongMul(a % m, a, x, x, m);
      InverseIffCoprime(a % m, x, m);
    }
  }

  lemma {:induction false} InverseFound(a: int, t: int, m: int)
    requires 0 < m && Tracks(a, m, 1, t)
    ensures InverseMod(a, t % m, m)
  {
    ModSelf(t, m);
    CongMul(t % m, t, a, a, m);
    assert a * (t % m) == (t % m) * a;
  }

  /** The extended Euclid finds the inverse exactly when there is one. */
  method ModInverse(a: int, m: int) returns (inv: Option<int>)
    requires 0 < m
    ensures inv.Some? ==> InverseMod(a, inv.value, m)
    ensures inv.None? ==> forall x :: !InverseMod(a, x, m)
    ensures inv.Some? <==> Gcd(m, a % m) == 1
  {
    FloorFromTrunc(a, m);
    var r0, r1, t0, t1 := m, TruncMod(TruncMod(a, m) + m, m), 0, 1;
    ModSelf(a, m);
    EuclidStart(a, m);
    while r1 != 0
      invariant EuclidState(a, m, r0, r1, t0, t1)
      decreases r1
    {
      var q := r0 / r1;
      EuclidStep(a, m, r0, r1, t0, t1, q);
      r0, r1, t0, t1 := r1, r0 - q * r1, t1, t0 - q * t1;
    }
    FloorFromTrunc(t0, m);
    if r0 == 1 {
      inv := Some(TruncMod(TruncMod(t0, m) + m, m));
      InverseFound(a, t0, m);
    } else {
      inv := None;
      NoInverse(a, m);
    }
  }

  // ---------------------------------------------------------------- trial division

  /** A divisor at or above the square root has a cofactor below it. */
  lemma {:induction false} SmallerCofactor(p: nat, k: nat, d: nat) returns (c: nat)
    requires 2 <= d <= k < p < d * d && p % k == 0
    ensures 2 <= c < d && p % c == 0
  {
    c := p / k;
    assert p == k * c;
    CofactorBelow(k, c, d);
    MultipleDivides(c, k);
    assert k * c == c * k;
  }

  lemma {:induction false} CofactorBelow(k: nat, c: nat, d: nat)
    requires d <= k < k * c < d * d
    ensures 2 <= c < d
  {
    if c >= d { ProductAtLeastSquare(k, c, d); }
    assert c <= 1 ==> k * c <= k;
  }

  lemma {:induction false} ProductAtLeastSquare(k: nat, c: nat, d: nat)
    requires d <= k && d <= c
    ensures d * d <= k * c
  {
    assert (k - d) * c >= 0 && d * (c - d) >= 0;
    assert k * c == (k - d) * c + d * c;
    assert d * c == d * (c - d) + d * d;
  }

  lemma {:induction false} NoSmallDivisorIsPrime(p: nat, d: nat)
    requires 2 <= p && 2 <= d && p < d * d && forall k :: 2 <= k < d ==> p % k != 0
    ensures Prime(p)
  {
    forall k | 2 <= k < p ensures p % k != 0 {
      if p % k == 0 && k >= d { var c := SmallerCofactor(p, k, d); }
    }
  }

  lemma {:induction false} HornerMod(s: seq<byte>, i: nat, r: int, p: nat)
    requires i < |s| && 0 < p && r == BigEndian(s[..i]) % p
    ensures (r * 256 + s[i]) % p == BigEndian(s[..i + 1]) % p
  {
    BigEndianPush(s, i);
    ModSelf(BigEndian(s[..i]), p);
    CongMul(r, BigEndian(s[..i]), 256, 256, p);
    CongAdd(r * 256, BigEndian(s[..i]) * 256, s[i], s[i], p);
  }

  method TrialDivision(p: int) returns (prime: bool)
    requires 2 <= p
    ensures prime <==> Prime(p)
  {
    var d := 2;
    while d * d <= p
      invariant 2 <= d
      invariant forall k :: 2 <= k < d ==> p % k != 0
      decreases p - d
    {
      assert d * d >= 2 * d;
      if p % d == 0 { return false; }
      d := d + 1;
    }
    NoSmallDivisorIsPrime(p, d);
    return true;
  }

  method Residue(bytes: seq<byte>, p: int) returns (r: int)
    requires 0 < p
    ensures r == BigEndian(bytes) % p
  {
    r := 0;
    DivModUnique(0, p, 0, 0);
    for i := 0 to |bytes|
      invariant r == BigEndian(bytes[..i]) % p
    {
      HornerMod(bytes, i, r, p);
      r := (r * 256 + bytes[i]) % p;
    }
    assert bytes[..|bytes|] == bytes;
  }

  ghost predicate PrimeFactor(p: int, n: nat) {
    Prime(p) && n % p == 0
  }

  /** Exactly the primes below 2000 that divide the number, in increasing order. */
  method SmallFactors(bytes: seq<byte>) returns (out: seq<int>)
    ensures forall p :: p in out <==> p < 2000 && PrimeFactor(p, BigEndian(bytes))
    ensures forall i, j :: 0 <= i < j < |out| ==> out[i] < out[j]
  {
    out := [];
    for p := 2 to 2000
      invariant forall f :: f in out <==> f < p && PrimeFactor(f, BigEndian(bytes))
      invariant forall i, j :: 0 <= i < j < |out| ==> out[i] < out[j]
    {
      var prime := TrialDivision(p);
      if !prime { continue; }
      var r := Residue(bytes, p);
      if r == 0 {
        assert forall i :: 0 <= i < |out| ==> out[i] in out;
        out := out + [p];
      }
    }
  }

  // ---------------------------------------------------------------- Miller-Rabin

  ghost function OddPart(n: nat): nat
    requires 0 < n
  {
    if n % 2 == 1 then n else OddPart(n / 2)
  }

  ghost function Twos(n: nat): nat
    requires 0 < n
  {
    if n % 2 == 1 then 0 else 1 + Twos(n / 2)
  }

  ghost function TwoPow(j: nat): nat {
    if j == 0 then 1 else 2 * TwoPow(j - 1)
  }

  /** n passes the round with base a: a^d = 1, or a^(d*2^j) = -1 for some j < r, where n - 1 = d*2^r. */
  ghost predicate Passes(n: nat, a: nat)
    requires 2 <= n
  {
    var d, r := OddPart(n - 1), Twos(n - 1);
    Pow(a, d) % n == 1 || exists j: nat :: j < r && MinusOneAt(n, a, d, j)
  }

  ghost predicate MinusOneAt(n: nat, a: nat, d: nat, j: nat)
    requires 2 <= n
  {
    Pow(a, d * TwoPow(j)) % n == n - 1
  }

  lemma {:induction false} OddTimesTwos(n: nat)
    requires 0 < n
    ensures OddPart(n) * TwoPow(Twos(n)) == n && OddPart(n) > 0
  {
    if n % 2 == 0 {
      OddTimesTwos(n / 2);
      var u, v := OddPart(n / 2), TwoPow(Twos(n / 2));
      assert u * (2 * v) == 2 * (u * v);
    }
  }

  lemma {:induction false} SquareClimbs(a: nat, d: nat, j: nat, n: nat, x: nat)
    requires 2 <= n && x == Pow(a, d * TwoPow(j)) % n
    ensures (x * x) % n == Pow(a, d * TwoPow(j + 1)) % n
  {
    var e := d * TwoPow(j);
    assert d * TwoPow(j + 1) == e + e by { var t := TwoPow(j); assert d * (2 * t) == d * t + d * t; }
    PowAdd(a, e, e);
    ModSelf(Pow(a, e), n);
    CongMul(x, Pow(a, e), x, Pow(a, e), n);
  }

  /** One pass of the two inner loops for the base `a`. */
  method Round(n: int, d: nat, r: nat, a: int) returns (ok: bool)
    requires 5 <= n && 2 <= a <= n - 2
    requires d == OddPart(n - 1) && r == Twos(n - 1) && 1 <= r
    ensures ok <==> Passes(n, a)
  {
    OddTimesTwos(n - 1);
    var x := ModPow(a, d, n);
    PowPositive(a, d);
    assert d * TwoPow(0) == d;
    if x == 1 || x == n - 1 {
      assert x == n - 1 ==> MinusOneAt(n, a, d, 0);
      return true;
    }
    var j := 1;
    while j < r
      invariant 1 <= j <= r
      invariant 0 <= x && x == Pow(a, d * TwoPow(j - 1)) % n
      invariant forall i: nat :: i < j ==> !MinusOneAt(n, a, d, i)
    {
      SquareClimbs(a, d, j - 1, n, x);
      x := TruncMod(x * x, n);
      if x == n - 1 {
        assert MinusOneAt(n, a, d, j);
        return true;
      }
      j := j + 1;
    }
    return false;
  }

  lemma {:induction false} PowPositive(a: nat, e: nat)
    ensures Pow(a, e) >= 0
  {
    if e > 0 { PowPositive(a, e - 1); }
  }

  /** Miller-Rabin over the bases drawn: true exactly when n is odd, at least 5, and passes every round. */
  method ProbablyPrime(n: int, rounds: nat, draws: seq<int>) returns (b: bool)
    requires rounds <= |draws| && (n >= 4 ==> forall i :: 0 <= i < rounds ==> 2 <= draws[i] <= n - 2)
    ensures b <==> n >= 4 && n % 2 == 1 && forall i :: 0 <= i < rounds ==> Passes(n, draws[i])
  {
    if n < 4 || n % 2 == 0 { return false; }
    var d := n - 1;
    var r := 0;
    while d % 2 == 0
      invariant 0 < d && 0 <= r
      invariant OddPart(d) == OddPart(n - 1) && r + Twos(d) == Twos(n - 1)
      decreases d
    {
      d := d / 2;
      r := r + 1;
    }
    for i := 0 to rounds
      invariant forall k :: 0 <= k < i ==> Passes(n, draws[k])
    {
      var ok := Round(n, d, r, draws[i]);
      if !ok { return false; }
    }
    return true;
  }

  /** Down the tower of squares from 1: either the bottom is 1 or some level is -1. */
  lemma {:induction false} Descend(n: nat, a: nat, d: nat, j: nat)
    requires Prime(n) && Pow(a, d * TwoPow(j)) % n == 1
    ensures Pow(a, d) % n == 1 || exists i: nat :: i < j && MinusOneAt(n, a, d, i)
  {
    if j == 0 {
      assert d * TwoPow(0) == d;
    } else {
      var x := Pow(a, d * TwoPow(j - 1)) % n;
      SquareClimbs(a, d, j - 1, n, x);
      SquareRootsOfOne(n, x);
      ModSelf(Pow(a, d * TwoPow(j - 1)), n);
      if x == 1 { Descend(n, a, d, j - 1); } else { assert MinusOneAt(n, a, d, j - 1); }
    }
  }

  /** A prime passes every round. */
  lemma {:induction false} PrimePasses(n: nat, a: nat)
    requires Prime(n) && 5 <= n && 2 <= a <= n - 2
    ensures Passes(n, a)
  {
    DivModUnique(a, n, 0, a);
    Fermat(n, a);
    OddTimesTwos(n - 1);
    Descend(n, a, OddPart(n - 1), Twos(n - 1));
  }

  lemma {:induction false} DivisorFails(n: nat, a: nat)
    requires 5 <= n && 2 <= a < n && n % a == 0
    ensures !Passes(n, a)
  {
    OddTimesTwos(n - 1);
    forall e: nat | e > 0 ensures Pow(a, e) % n != 1 && Pow(a, e) % n != n - 1 {
      PowerOfDivisor(n, a, e);
    }
    var d := OddPart(n - 1);
    forall j: nat ensures !MinusOneAt(n, a, d, j) {
      TwoPowPositive(j);
      assert d * TwoPow(j) > 0;
      PowerOfDivisor(n, a, d * TwoPow(j));
    }
  }

  lemma {:induction false} TwoPowPositive(j: nat)
    ensures TwoPow(j) > 0
  {
    if j > 0 { TwoPowPositive(j - 1); }
  }

  lemma {:induction false} PowerOfDivisor(n: nat, a: nat, e: nat)
    requires 2 <= a < n && n % a == 0 && e > 0
    ensures Pow(a, e) % n != 1 && Pow(a, e) % n != n - 1
  {
    var x := Pow(a, e);
    MultipleDivides(a, Pow(a, e - 1));
    var k := x / n;
    assert x == n * k + x % n;
    DividesTimes(a, n, k);
    CongAdd(x, 0, n * k, 0, a);
    assert (x % n) % a == 0;
    DivModUnique(1, a, 0, 1);
    CongAdd(n, 0, 1, 1, a);
    CongFromDiff(-1, a - 1, -1, a);
    DivModUnique(a - 1, a, 0, a - 1);
  }

  lemma {:induction false} ProperDivisorBound(n: nat, a: nat)
    requires 5 <= n && n % 2 == 1 && 2 <= a < n && n % a == 0
    ensures a <= n - 2
  {
    if a == n - 1 { DivModUnique(n, a, 1, 1); }
  }

  /** Over all its bases the test is exact: no prime ever fails and every odd composite has a base that shows it. */
  lemma {:induction false} MillerRabinExact(n: nat)
    requires 5 <= n && n % 2 == 1
    ensures Prime(n) <==> forall a: nat :: 2 <= a <= n - 2 ==> Passes(n, a)
  {
    if Prime(n) {
      forall a: nat | 2 <= a <= n - 2 ensures Passes(n, a) { PrimePasses(n, a); }
    } else {
      var a :| 2 <= a < n && n % a == 0;
      ProperDivisorBound(n, a);
      DivisorFails(n, a);
    }
  }

  // ---------------------------------------------------------------- the CRT round trip

  /** Decrypting modulo one prime undoes encrypting, for every message, multiples of the prime included. */
  lemma {:induction false} PrimeRoundTrip(p: int, m: nat, e: nat, d: nat)
    requires Prime(p) && 3 <= p && (e * d) % (p - 1) == 1
    ensures Pow(Pow(m, e), d % (p - 1)) % p == m % p
  {
    var dp := d % (p - 1);
    ModSelf(d, p - 1);
    CongMul(e, e, dp, d, p - 1);
    var k := (e * dp) / (p - 1);
    assert e * dp == (p - 1) * k + 1;
    assert 0 <= e * dp;
    PowMul(m, e, dp);
    PowAdd(m, (p - 1) * k, 1);
    assert Pow(m, 1) == m;
    if m % p == 0 {
      DividesTimes(p, m, Pow(m, (p - 1) * k));
    } else {
      Fermat(p, m);
      PowMul(m, p - 1, k);
      DivModUnique(1, p, 0, 1);
      CongPow(Pow(m, p - 1), 1, k, p);
      PowOne(k);
      CongMul(Pow(m, (p - 1) * k), 1, m, m, p);
    }
  }

  /** Reducing the ciphertext modulo p*q first changes nothing modulo p. */
  lemma {:induction false} CiphertextModPrime(p: int, q: int, w: nat, d: nat)
    requires 0 < p && 0 < q
    ensures 0 < p * q && Pow(w % (p * q), d) % p == Pow(w, d) % p && Pow(w % (p * q), d) % q == Pow(w, d) % q
  {
    var n := p * q;
    assert 0 < n;
    var k := w / n;
    assert w == w % n + n * k;
    assert n * k == p * (q * k) && n * k == q * (p * k);
    CongFromDiff(w, w % n, q * k, p);
    CongFromDiff(w, w % n, p * k, q);
    CongPow(w % n, w, d, p);
    CongPow(w % n, w, d, q);
  }

  /** The recombination of the two halves, with the truncating remainder the source uses. */
  function Recombine(p: int, q: int, qInv: int, mp: int, mq: int): int
    requires 0 < p
  {
    mq + TruncMod(qInv * (mp - mq + p), p) * q
  }

  /** What decides whether a message comes back: no borrow below -p, or nothing to add. */
  ghost predicate NoBorrow(p: int, q: int, m: int)
    requires 0 < p && 0 < q
  {
    m % q <= m % p + p || (m % p - m % q) % p == 0
  }

  lemma {:induction false} RecombineInRange(p: int, q: int, qInv: int, m: int)
    requires Prime(p) && Prime(q) && p != q && 0 <= m < p * q && InverseMod(q, qInv, p)
    requires m % q <= m % p + p
    ensures Recombine(p, q, qInv, m % p, m % q) == m
  {
    var mp, mq := m % p, m % q;
    ModSelf(m, p);
    ModSelf(m, q);
    RecombineResidues(p, q, qInv, mp, mq);
    RecombineBounds(p, q, qInv, mp, mq);
    SameResiduesSameNumber(p, q, Recombine(p, q, qInv, mp, mq), m);
  }

  lemma {:induction false} RecombineBounds(p: int, q: int, qInv: int, mp: int, mq: int)
    requires 2 <= p && 0 <= mq < q && 0 <= qInv && mq <= mp + p
    ensures Recombine(p, q, qInv, mp, mq) == mq + ((qInv * (mp - mq + p)) % p) * q
    ensures 0 <= Recombine(p, q, qInv, mp, mq) < p * q
  {
    var z := qInv * (mp - mq + p);
    assert 0 <= z;
    TimesBelow(z % p, p, q);
  }

  /** The recombined number has the two residues it was made from. */
  lemma {:induction false} RecombineResidues(p: int, q: int, qInv: int, mp: int, mq: int)
    requires 2 <= p && 0 < q && (q * qInv) % p == 1 % p
    ensures var back := mq + ((qInv * (mp - mq + p)) % p) * q;
            back % p == mp % p && back % q == mq % q
  {
    var y := mp - mq + p;
    var h := (qInv * y) % p;
    var t := h * q;
    ScaledByInverse(p, q, qInv, y);
    CongFromDiff(mq + t, mq, h, q);
    CongFromDiff(y, mp - mq, 1, p);
    CongAdd(mq, mq, t, mp - mq, p);
  }

  lemma {:induction false} TimesBelow(h: int, p: int, q: int)
    requires 0 <= h < p && 0 < q
    ensures 0 <= h * q <= p * q - q
  {
    assert h * q <= (p - 1) * q;
    assert (p - 1) * q == p * q - q;
  }

  /** Multiplying by the inverse of q and then by q gives the residue back. */
  lemma {:induction false} ScaledByInverse(p: int, q: int, qInv: int, y: int)
    requires 2 <= p && (q * qInv) % p == 1 % p
    ensures (((qInv * y) % p) * q) % p == y % p && (q * (qInv * y)) % p == y % p
  {
    var z := qInv * y;
    ModSelf(z, p);
    CongMul(z % p, z, q, q, p);
    Associate(q, qInv, y);
    assert z * q == q * z;
    CongMul(q * qInv, 1, y, y, p);
  }

  lemma {:induction false} RecombineBorrowed(p: int, q: int, qInv: int, m: int)
    requires Prime(p) && Prime(q) && p != q && 0 <= m < p * q && InverseMod(q, qInv, p)
    requires m % p + p < m % q
    ensures Recombine(p, q, qInv, m % p, m % q) == m <==> (m % p - m % q) % p == 0
  {
    var mp, mq := m % p, m % q;
    SameZero(mp, mq, p);
    BorrowedHalf(p, q, qInv, mq - mp - p);
    RecombineNegative(p, q, qInv, mp, mq);
    if (mp - mq) % p == 0 { RecombineEqual(p, q, m); }
  }

  lemma {:induction false} RecombineNegative(p: int, q: int, qInv: int, mp: int, mq: int)
    requires 0 < p
    ensures Recombine(p, q, qInv, mp, mq) == mq - TruncMod(qInv * (mq - mp - p), p) * q
  {
    var z := qInv * (mq - mp - p);
    assert qInv * (mp - mq + p) == -z;
    TruncModNegate(z, p);
    var h := TruncMod(z, p);
    assert (-h) * q == -(h * q);
  }

  /** A negative difference gives a multiple of q to take away, none only when p divides it. */
  lemma {:induction false} BorrowedHalf(p: int, q: int, qInv: int, y: int)
    requires 2 <= p && 0 < q && 0 <= qInv && 0 < y && (q * qInv) % p == 1 % p
    ensures 0 <= qInv * y
    ensures var h := (qInv * y) % p; if y % p == 0 then h * q == 0 else h * q >= q
  {
    var z := qInv * y;
    assert 0 <= z;
    ScaledByInverse(p, q, qInv, y);
    if y % p == 0 {
      DividesTimes(p, y, qInv);
    } else if z % p == 0 {
      DividesTimes(p, z, q);
    } else {
      assert (z % p) * q >= q;
    }
  }

  lemma {:induction false} SameZero(mp: int, mq: int, p: int)
    requires 0 < p
    ensures (mq - mp - p) % p == 0 <==> (mp - mq) % p == 0
  {
    CongFromDiff(mq - mp - p, mq - mp, -1, p);
    if (mp - mq) % p == 0 { CongAdd(0, 0, mp - mq, 0, p); }
    if (mq - mp) % p == 0 { CongAdd(0, 0, mq - mp, 0, p); }
  }

  lemma {:induction false} RecombineEqual(p: int, q: int, m: int)
    requires Prime(p) && Prime(q) && p != q && 0 <= m < p * q && (m % p - m % q) % p == 0
    ensures m % q == m
  {
    var mp, mq := m % p, m % q;
    ModSelf(m, p);
    ModSelf(m, q);
    CongAdd(mq, mq, mp - mq, 0, p);
    BelowProduct(p, q, mq);
    SameResiduesSameNumber(p, q, mq, m);
  }

  lemma {:induction false} BelowProduct(p: int, q: int, x: int)
    requires 1 <= p && 0 <= x < q
    ensures x < p * q
  {
    assert 1 * q <= p * q;
  }

  lemma {:induction false} InverseExists(p: int, q: int)
    requires Prime(p) && Prime(q) && p != q
    ensures Gcd(p, q % p) == 1
  {
    assert q % p != 0 by { if p > q { DivModUnique(q, p, 0, q); } }
    GcdDivides(p, q % p);
    DividesLe(Gcd(p, q % p), q % p);
  }

  lemma {:induction false} Carmichael(p: int, q: int)
    requires 3 <= p && 3 <= q
    ensures var g := Gcd(p - 1, q - 1);
            g > 0 && var l := ((p - 1) * (q - 1)) / g;
            l >= 2 && l % (p - 1) == 0 && l % (q - 1) == 0
  {
    GcdDivides(p - 1, q - 1);
    var g := Gcd(p - 1, q - 1);
    var i := DiffFromCong(p - 1, 0, g);
    var j := DiffFromCong(q - 1, 0, g);
    CommonMultiple(p - 1, q - 1, g, i, j);
    MultipleDivides(q - 1, i);
    MultipleDivides(p - 1, j);
    assert i <= 0 ==> g * i <= 0;
    assert i >= 1 ==> i * (q - 1) >= q - 1;
  }

  lemma {:induction false} CommonMultiple(u: int, v: int, g: int, i: int, j: int)
    requires 0 < g && u == g * i && v == g * j
    ensures (u * v) / g == i * v && (u * v) / g == j * u
  {
    Associate(g, i, v);
    Associate(g, j, u);
    assert u * v == v * u;
    DivModUnique(u * v, g, i * v, 0);
    DivModUnique(u * v, g, j * u, 0);
  }

  /** Encrypt with e, decrypt by CRT: the answer is the message exactly when NoBorrow holds, so always when q < p. */
  method CrtRoundTrip(p: int, q: int, e: nat, m: int) returns (back: Option<int>)
    requires Prime(p) && Prime(q) && 3 <= p && 3 <= q && p != q && 0 <= m < p * q
    ensures back.None? <==> forall d :: !InverseMod(e, d, Lambda(p, q))
    ensures back.Some? ==> (back.value == m <==> NoBorrow(p, q, m))
    ensures back.Some? ==> exists qInv :: InverseMod(q, qInv, p) && back.value == Recombine(p, q, qInv, m % p, m % q)
    ensures back.Some? && q < p ==> back.value == m
  {
    var n := p * q;
    GcdDivides(p - 1, q - 1);
    Carmichael(p, q);
    var lambda := ((p - 1) * (q - 1)) / Gcd(p - 1, q - 1);
    var dOpt := ModInverse(e, lambda);
    if dOpt.None? { return None; }
    var d := dOpt.value;
    assert InverseMod(e, d, Lambda(p, q));
    InverseModFactor(e, d, lambda, p - 1);
    InverseModFactor(e, d, lambda, q - 1);
    var c := ModPow(m, e, n);
    PowPositive(m, e);
    assert c == Pow(m, e) % n by { if e == 0 { DivModUnique(1, n, 0, 1); } }
    var mp := ModPow(c, TruncMod(d, p - 1), p);
    var mq := ModPow(c, TruncMod(d, q - 1), q);
    HalfIsResidue(p, q, m, e, d, p);
    HalfIsResidue(p, q, m, e, d, q);
    InverseExists(p, q);
    var qInv := ModInverse(q, p);
    var h := TruncMod(qInv.value * (mp - mq + p), p);
    back := Some(mq + h * q);
    assert back.value == Recombine(p, q, qInv.value, m % p, m % q);
    if m % q <= m % p + p { RecombineInRange(p, q, qInv.value, m); } else { RecombineBorrowed(p, q, qInv.value, m); }
  }

  ghost function Lambda(p: int, q: int): (l: int)
    requires 3 <= p && 3 <= q
    ensures l >= 2
  {
    Carmichael(p, q);
    ((p - 1) * (q - 1)) / Gcd(p - 1, q - 1)
  }

  lemma {:induction false} InverseModFactor(e: nat, d: nat, l: int, f: int)
    requires 2 <= l && 2 <= f && l % f == 0 && (e * d) % l == 1 % l
    ensures (e * d) % f == 1 && d % f != 0
  {
    DivModUnique(1, l, 0, 1);
    DivModUnique(1, f, 0, 1);
    var k := DiffFromCong(e * d, 1, l);
    DividesTimes(f, l, k);
    CongAdd(1, 1, l * k, 0, f);
    if d % f == 0 { DividesTimes(f, d, e); }
  }

  /** One half of the CRT decrypt is the message's residue. */
  lemma {:induction false} HalfIsResidue(p: int, q: int, m: nat, e: nat, d: nat, f: int)
    requires Prime(p) && Prime(q) && 3 <= p && 3 <= q && (f == p || f == q)
    requires (e * d) % (f - 1) == 1 && d % (f - 1) != 0
    ensures 0 < p * q
    ensures Pow(m, e) >= 0
    ensures Pow(Pow(m, e) % (p * q), d % (f - 1)) >= 0
    ensures TruncMod(Pow(Pow(m, e) % (p * q), d % (f - 1)), f) == m % f
  {
    PowPositive(m, e);
    CiphertextModPrime(p, q, Pow(m, e), d % (f - 1));
    PowPositive(Pow(m, e) % (p * q), d % (f - 1));
    PrimeRoundTrip(f, m, e, d);
  }

  /** Every message comes back exactly when the primes are in the order q < p. */
  lemma {:induction false} OrderOfPrimesDecides(p: int, q: int)
    requires Prime(p) && Prime(q) && 3 <= p && 3 <= q && p != q
    ensures (forall m :: 0 <= m < p * q ==> NoBorrow(p, q, m)) <==> q < p
  {
    if p < q {
      assert q != p + 1 by { OddPrime(p); OddPrime(q); }
      var m := ChineseRemainder(p, q, 0, p + 1);
      DivModUnique(-(p + 1), p, -2, p - 1);
      assert !NoBorrow(p, q, m);
    }
  }

  lemma {:induction false} OddPrime(p: int)
    requires Prime(p) && 3 <= p
    ensures p % 2 == 1
  {}

  /** A key with its primes the other way round: p = 3, q = 5 loses the message 9. */
  lemma {:induction false} SwappedPrimesLoseAMessage()
    ensures Prime(3) && Prime(5) && InverseMod(5, 2, 3)
    ensures !NoBorrow(3, 5, 9) && Recombine(3, 5, 2, 9 % 3, 9 % 5) == -6
  {
  }
}
