/**
  The integer arithmetic that the Diffie-Hellman, RSA and DSS code rests on:
  powers, congruences, Bezout coefficients, modular inverses, Fermat's little
  theorem, and the bound on the roots of a polynomial modulo a prime.
  The big-number library calls of the source are exact integer functions here.
*/
module NumberTheory {
  import opened Wrappers

  // ------------------------------------------------------ ring identities

  lemma MulAssoc(a: int, b: int, c: int)
    ensures (a * b) * c == a * (b * c)
  {
  }

  lemma DistributeRight(a: int, b: int, c: int)
    ensures (a + b) * c == a * c + b * c
  {
  }

  lemma DistributeLeft(a: int, b: int, c: int)
    ensures a * (b + c) == a * b + a * c
  {
  }

  lemma SwapFactors(a: int, b: int, c: int)
    ensures a * (b * c) == b * (a * c)
  {
  }

  lemma MulSwap(a: int, b: int, x: int, y: int)
    ensures (a * b) * (x * y) == (a * x) * (b * y)
  {
    MulAssoc(a, b, x * y);
    SwapFactors(b, x, y);
    MulAssoc(a, x, b * y);
  }

  /** A linear combination of two multiples of d is a multiple of d. */
  lemma Combine(u: int, v: int, d: int, k: int, j: int)
    ensures u * (d * k) + v * (d * j) == d * (u * k + v * j)
  {
    SwapFactors(u, d, k);
    SwapFactors(v, d, j);
    DistributeLeft(d, u * k, v * j);
  }

  // ---------------------------------------------------------------- powers

  function Pow(b: int, e: nat): (r: int)
    ensures b >= 0 ==> r >= 0
    ensures b >= 1 ==> r >= 1
  {
    if e == 0 then 1 else Times(b, Pow(b, e - 1))
  }

  /** Multiplication behind a name, so that recursive definitions stay linear for the verifier. */
  function Times(a: int, b: int): (r: int)
    ensures a >= 0 && b >= 0 ==> r >= 0
    ensures a >= 1 && b >= 1 ==> r >= 1
  {
    a * b
  }

  lemma {:induction false} PowAdd(b: int, x: nat, y: nat)
    ensures Pow(b, x + y) == Pow(b, x) * Pow(b, y)
  {
    if x > 0 {
      PowAdd(b, x - 1, y);
      assert Pow(b, x + y) == b * Pow(b, x - 1 + y);
      MulAssoc(b, Pow(b, x - 1), Pow(b, y));
    }
  }

  lemma {:induction false} PowMul(b: int, x: nat, y: nat)
    ensures x * y >= 0 && Pow(b, x * y) == Pow(Pow(b, x), y)
  {
    if y == 0 {
    } else {
      assert x * y == x + x * (y - 1);
      PowMul(b, x, y - 1);
      PowAdd(b, x, x * (y - 1));
    }
  }

  lemma {:induction false} PowBase(a: int, b: int, e: nat)
    ensures Pow(a * b, e) == Pow(a, e) * Pow(b, e)
  {
    if e > 0 {
      PowBase(a, b, e - 1);
      MulSwap(a, b, Pow(a, e - 1), Pow(b, e - 1));
    }
  }

  lemma {:induction false} PowOne(e: nat)
    ensures Pow(1, e) == 1
  {
    if e > 0 { PowOne(e - 1); }
  }

  // ----------------------------------------------------------- congruences

  predicate Cong(a: int, b: int, m: int)
    requires m > 0
  {
    a % m == b % m
  }

  /** A product with a positive factor is zero or at least that factor in size. */
  lemma MulBounds(m: int, d: int)
    requires m > 0
    ensures d > 0 ==> m * d >= m
    ensures d < 0 ==> m * d <= -m
    ensures d == 0 <==> m * d == 0
  {
  }

  /** A multiple of the modulus has remainder zero. */
  lemma MultipleMod(m: int, k: int)
    requires m > 0
    ensures (m * k) % m == 0
  {
    AddMultiple(0, m, k);
  }

  /** Remainders are unchanged by adding multiples of the modulus. */
  lemma AddMultiple(a: int, m: int, k: int)
    requires m > 0
    ensures (a + m * k) % m == a % m
  {
    var x := a + m * k;
    var d := a / m + k - x / m;
    assert a == m * (a / m) + a % m;
    assert x == m * (x / m) + x % m;
    assert x % m - a % m == m * d by {
      assert m * (a / m) + m * k - m * (x / m) == m * d;
    }
    MulBounds(m, d);
  }

  /** Congruent numbers differ by a multiple of the modulus. */
  lemma CongWitness(a: int, b: int, m: int) returns (k: int)
    requires m > 0 && Cong(a, b, m)
    ensures a == b + m * k
  {
    k := a / m - b / m;
    assert a == m * (a / m) + a % m;
    assert b == m * (b / m) + b % m;
    assert m * (a / m) - m * (b / m) == m * k;
  }

  lemma CongAdd(a: int, b: int, c: int, d: int, m: int)
    requires m > 0 && Cong(a, b, m) && Cong(c, d, m)
    ensures Cong(a + c, b + d, m)
  {
    var k := CongWitness(a, b, m);
    var j := CongWitness(c, d, m);
    assert a + c == (b + d) + m * (k + j);
    AddMultiple(b + d, m, k + j);
  }

  lemma MulOfSum(a: int, b: int, m: int, k: int, c: int)
    requires a == b + m * k
    ensures a * c == b * c + m * (k * c)
  {
    DistributeRight(b, m * k, c);
    MulAssoc(m, k, c);
  }

  lemma CongMulLeft(a: int, b: int, c: int, m: int)
    requires m > 0 && Cong(a, b, m)
    ensures Cong(a * c, b * c, m)
  {
    var k := CongWitness(a, b, m);
    MulOfSum(a, b, m, k, c);
    AddMultiple(b * c, m, k * c);
  }

  lemma CongMul(a: int, b: int, c: int, d: int, m: int)
    requires m > 0 && Cong(a, b, m) && Cong(c, d, m)
    ensures Cong(a * c, b * d, m)
  {
    CongMulLeft(a, b, c, m);
    CongMulLeft(c, d, b, m);
  }

  lemma {:induction false} CongPow(a: int, b: int, e: nat, m: int)
    requires m > 0 && Cong(a, b, m)
    ensures Cong(Pow(a, e), Pow(b, e), m)
  {
    if e > 0 {
      CongPow(a, b, e - 1, m);
      CongMul(a, b, Pow(a, e - 1), Pow(b, e - 1), m);
    }
  }

  lemma CongSelfMod(a: int, m: int)
    requires m > 0
    ensures 0 <= a % m < m && Cong(a % m, a, m)
  {
    ModIdem(a % m, m);
  }

  lemma ModIdem(a: int, m: int)
    requires m > 0 && 0 <= a < m
    ensures a % m == a
  {
  }

  lemma PowMod(a: int, e: nat, m: int)
    requires m > 0
    ensures Pow(a % m, e) % m == Pow(a, e) % m
  {
    CongSelfMod(a, m);
    CongPow(a % m, a, e, m);
  }

  lemma MulModBoth(a: int, b: int, m: int)
    requires m > 0
    ensures ((a % m) * (b % m)) % m == (a * b) % m
  {
    CongSelfMod(a, m);
    CongSelfMod(b, m);
    CongMul(a % m, a, b % m, b, m);
  }

  lemma DividesDifference(a: int, b: int, m: int)
    requires m > 0
    ensures Cong(a, b, m) <==> (a - b) % m == 0
  {
    if Cong(a, b, m) {
      var k := CongWitness(a, b, m);
      MultipleMod(m, k);
    }
    if (a - b) % m == 0 {
      var k := (a - b) / m;
      assert a - b == m * k;
      AddMultiple(b, m, k);
    }
  }

  /** The Diffie-Hellman identity: both sides raise to the same double power. */
  lemma PowersCommute(g: int, x: nat, y: nat, p: int)
    requires p > 0
    ensures Pow(Pow(g, x) % p, y) % p == Pow(Pow(g, y) % p, x) % p
  {
    PowMod(Pow(g, x), y, p);
    PowMod(Pow(g, y), x, p);
    PowMul(g, x, y);
    PowMul(g, y, x);
    assert x * y == y * x;
  }

  // ------------------------------------------------- divisibility and primes

  ghost predicate Prime(p: int) {
    p > 1 && forall d {:trigger p % d} :: 1 < d < p ==> p % d != 0
  }

  /** Coefficients u, v with u * a + v * b equal to the greatest common divisor. */
  datatype Bezout = Bezout(g: int, u: int, v: int)

  function ExtGcd(a: nat, b: nat): (r: Bezout)
    ensures r.u * a + r.v * b == r.g
    ensures r.g >= 0
    ensures r.g == 0 <==> a == 0 && b == 0
    ensures r.g > 0 ==> a % r.g == 0 && b % r.g == 0
    decreases b
  {
    if b == 0 then Bezout(a, 1, 0)
    else
      var s := ExtGcd(b, a % b);
      ExtGcdStep(a, b, s);
      Bezout(s.g, s.v, s.u - (a / b) * s.v)
  }

  lemma ExtGcdStep(a: nat, b: nat, s: Bezout)
    requires b > 0
    requires s.u * b + s.v * (a % b) == s.g
    requires s.g > 0 && b % s.g == 0 && (a % b) % s.g == 0
    ensures s.v * a + (s.u - (a / b) * s.v) * b == s.g
    ensures a % s.g == 0
  {
    var q := a / b;
    assert a == b * q + a % b;
    assert s.v * a + (s.u - q * s.v) * b == s.g by {
      DistributeLeft(s.v, b * q, a % b);
      DistributeRight(s.u, -(q * s.v), b);
      MulAssoc(q, s.v, b);
      SwapFactors(s.v, b, q);
      assert q * (s.v * b) == b * (s.v * q) by { SwapFactors(q, b, s.v); }
    }
    var k := b / s.g;
    var j := (a % b) / s.g;
    assert b == s.g * k;
    assert a % b == s.g * j;
    MulAssoc(s.g, k, q);
    DistributeLeft(s.g, k * q, j);
    MultipleMod(s.g, k * q + j);
  }

  function Gcd(a: nat, b: nat): (g: nat)
    ensures g == 0 <==> a == 0 && b == 0
    ensures g > 0 ==> a % g == 0 && b % g == 0
  {
    ExtGcd(a, b).g
  }

  /** A number with a multiplicative combination to one shares no factor. */
  lemma CoprimeFromCombination(a: nat, b: nat, u: int, v: int)
    requires u * a + v * b == 1
    ensures Gcd(a, b) == 1
  {
    var g := Gcd(a, b);
    assert a != 0 || b != 0;
    var k, j := a / g, b / g;
    assert a == g * k && b == g * j;
    var t := u * k + v * j;
    Combine(u, v, g, k, j);
    MulBounds(g, t);
  }

  /** Gauss: a divisor coprime to one factor divides the other. */
  lemma CoprimeDivides(d: nat, a: nat, b: int)
    requires d > 0 && Gcd(d, a) == 1 && (a * b) % d == 0
    ensures b % d == 0
  {
    var r := ExtGcd(d, a);
    var k := (a * b) / d;
    assert a * b == d * k;
    assert b == d * (r.u * b + r.v * k) by {
      DistributeRight(r.u * d, r.v * a, b);
      MulAssoc(r.u, d, b);
      MulAssoc(r.v, a, b);
      Combine(r.u, r.v, d, b, k);
    }
    MultipleMod(d, r.u * b + r.v * k);
  }

  lemma PrimeCoprime(p: nat, a: nat)
    requires Prime(p) && a % p != 0
    ensures Gcd(p, a) == 1
  {
    var g := Gcd(p, a);
    assert p % g == 0 && a % g == 0;
    assert g <= p by {
      assert p == g * (p / g);
      MulBounds(g, p / g);
    }
  }

  /** Euclid's lemma. */
  lemma PrimeDividesProduct(p: nat, a: int, b: int)
    requires Prime(p) && (a * b) % p == 0
    ensures a % p == 0 || b % p == 0
  {
    if a % p != 0 {
      CongSelfMod(a, p);
      var a' := a % p;
      CongMul(a', a, b, b, p);
      PrimeCoprime(p, a');
      CoprimeDivides(p, a', b);
    }
  }

  /** Numbers divisible by two distinct primes are divisible by the product. */
  lemma TwoPrimesDivide(p: nat, q: nat, a: int)
    requires Prime(p) && Prime(q) && p != q && a % p == 0 && a % q == 0
    ensures p * q > 0 && a % (p * q) == 0
  {
    var k := a / p;
    assert a == p * k;
    assert p % q != 0 by {
      if p % q == 0 {
        if q > p { ModIdem(p, q); }
      }
    }
    PrimeDividesProduct(q, p, k);
    var j := k / q;
    assert k == q * j;
    assert a == (p * q) * j by { assert p * (q * j) == (p * q) * j; }
    assert p * q > 0;
    MultipleMod(p * q, j);
  }

  // ------------------------------------------------------- modular inverses

  /** mp_invmod: the inverse when one exists, and a failure otherwise. */
  function InvMod(a: nat, m: nat): (r: Option<nat>)
    requires m > 0
    ensures r.Some? <==> Gcd(a, m) == 1
    ensures r.Some? ==> r.value < m && (a * r.value) % m == 1 % m
  {
    var s := ExtGcd(a, m);
    if s.g == 1 then
      InvModCorrect(a, m, s);
      Some(s.u % m)
    else None
  }

  lemma InvModCorrect(a: nat, m: nat, s: Bezout)
    requires m > 0 && s.g == 1 && s.u * a + s.v * m == s.g
    ensures 0 <= s.u % m < m && (a * (s.u % m)) % m == 1 % m
  {
    CongSelfMod(s.u, m);
    CongMul(a, a, s.u % m, s.u, m);
    assert a * s.u == 1 + m * (-s.v) by { assert m * (-s.v) == -(s.v * m); }
    AddMultiple(1, m, -s.v);
  }

  /** Whatever has an inverse is coprime to the modulus. */
  lemma InverseMeansCoprime(a: nat, b: int, m: nat)
    requires m > 0 && (a * b) % m == 1 % m
    ensures Gcd(a, m) == 1
  {
    var k := CongWitness(a * b, 1, m);
    assert b * a + (-k) * m == 1;
    CoprimeFromCombination(a, m, b, -k);
  }

  // ------------------------------------------------- Fermat's little theorem

  function Binom(n: nat, k: int): (r: nat)
    ensures k < 0 || k > n ==> r == 0
    ensures k == 0 || k == n ==> r == 1
    decreases n
  {
    if k < 0 || k > n then 0
    else if k == 0 || k == n then 1
    else Binom(n - 1, k - 1) + Binom(n - 1, k)
  }

  lemma Pascal(n: nat, k: int)
    ensures Binom(n + 1, k) == Binom(n, k - 1) + Binom(n, k)
  {
  }

  lemma BinomAbsorbStep(m: int, k: int, a: int, b: int, c: int, d: int)
    requires c == a + b && k * d == m * a && (k - 1) * c == m * b
    ensures k * (c + d) == (m + 1) * c
  {
    assert m * (a + b) == m * a + m * b;
  }

  /** k * C(n, k) == n * C(n - 1, k - 1). */
  lemma {:induction false} BinomAbsorb(n: nat, k: int)
    requires n >= 1
    ensures k * Binom(n, k) == n * Binom(n - 1, k - 1)
    decreases n
  {
    if k <= 0 || k > n {
      assert Binom(n - 1, k - 1) == 0;
    } else if n == 1 {
    } else {
      var m := n - 1;
      Pascal(m, k);
      Pascal(m - 1, k - 1);
      BinomAbsorb(m, k);
      BinomAbsorb(m, k - 1);
      BinomAbsorbStep(m, k, Binom(m - 1, k - 1), Binom(m - 1, k - 2), Binom(m, k - 1), Binom(m, k));
    }
  }

  /** The sum of C(n, j) * a^j for j from 0 to k. */
  function BinomSum(n: nat, a: int, k: int): int
    decreases if k < 0 then 0 else k + 1
  {
    if k < 0 then 0 else BinomSum(n, a, k - 1) + Times(Binom(n, k), Pow(a, k))
  }

  lemma {:induction false} BinomSumStep(n: nat, a: int, k: int)
    ensures BinomSum(n + 1, a, k) == BinomSum(n, a, k) + a * BinomSum(n, a, k - 1)
    decreases if k < 0 then 0 else k + 1
  {
    if k >= 0 {
      BinomSumStep(n, a, k - 1);
      Pascal(n, k);
      DistributeRight(Binom(n, k - 1), Binom(n, k), Pow(a, k));
      if k > 0 {
        var q := Pow(a, k - 1);
        SwapFactors(Binom(n, k - 1), a, q);
        DistributeLeft(a, BinomSum(n, a, k - 2), Binom(n, k - 1) * q);
      }
    }
  }

  lemma {:induction false} BinomialTheorem(n: nat, a: int)
    ensures Pow(a + 1, n) == BinomSum(n, a, n)
  {
    if n == 0 {
      assert BinomSum(0, a, 0) == BinomSum(0, a, -1) + Binom(0, 0) * Pow(a, 0);
    } else {
      var m := n - 1;
      BinomialTheorem(m, a);
      BinomSumStep(m, a, n);
      assert BinomSum(m, a, n) == BinomSum(m, a, m);
      var s := BinomSum(m, a, m);
      assert (a + 1) * s == s + a * s;
    }
  }

  lemma PrimeDividesBinom(p: nat, k: int)
    requires Prime(p) && 0 < k < p
    ensures Binom(p, k) % p == 0
  {
    BinomAbsorb(p, k);
    MultipleMod(p, Binom(p - 1, k - 1));
    PrimeDividesProduct(p, k, Binom(p, k));
    ModIdem(k, p);
  }

  lemma {:induction false} BinomSumModPrime(p: nat, a: int, k: int)
    requires Prime(p) && 0 <= k < p
    ensures Cong(BinomSum(p, a, k), 1, p)
    decreases k
  {
    if k == 0 {
      assert BinomSum(p, a, 0) == BinomSum(p, a, -1) + Binom(p, 0) * Pow(a, 0);
    } else {
      BinomSumModPrime(p, a, k - 1);
      PrimeDividesBinom(p, k);
      CongMul(Binom(p, k), 0, Pow(a, k), Pow(a, k), p);
      CongAdd(BinomSum(p, a, k - 1), 1, Binom(p, k) * Pow(a, k), 0, p);
    }
  }

  /** (a + 1)^p is a^p + 1 modulo a prime p. */
  lemma FreshmansDream(p: nat, a: int)
    requires Prime(p)
    ensures Cong(Pow(a + 1, p), Pow(a, p) + 1, p)
  {
    BinomialTheorem(p, a);
    BinomSumModPrime(p, a, p - 1);
    CongAdd(BinomSum(p, a, p - 1), 1, Pow(a, p), Pow(a, p), p);
  }

  /** Fermat: a^p is a modulo p, for every a. */
  lemma {:induction false} FermatNat(p: nat, a: nat)
    requires Prime(p)
    ensures Cong(Pow(a, p), a, p)
  {
    if a == 0 {
      assert Pow(0, p) == 0 * Pow(0, p - 1);
    } else {
      FermatNat(p, a - 1);
      FreshmansDream(p, a - 1);
      CongAdd(Pow(a - 1, p), a - 1, 1, 1, p);
    }
  }

  /** Fermat: a^(p-1) is 1 modulo p unless p divides a. */
  lemma Fermat(p: nat, a: nat)
    requires Prime(p) && a % p != 0
    ensures Cong(Pow(a, p - 1), 1, p)
  {
    FermatNat(p, a);
    var x := Pow(a, p - 1);
    assert Pow(a, p) == a * x;
    DividesDifference(a * x, a, p);
    assert a * x - a == a * (x - 1);
    PrimeDividesProduct(p, a, x - 1);
    DividesDifference(x, 1, p);
  }

  /** Exponents congruent to 1 modulo p - 1 act as the identity modulo p. */
  lemma FermatExponent(p: nat, a: nat, k: nat)
    requires Prime(p)
    ensures 1 + (p - 1) * k >= 0 && Cong(Pow(a, 1 + (p - 1) * k), a, p)
  {
    var n := (p - 1) * k;
    assert n >= 0;
    assert Pow(a, 1 + n) == a * Pow(a, n);
    if a % p == 0 {
      CongMul(a, 0, Pow(a, n), Pow(a, n), p);
    } else {
      Fermat(p, a);
      PowMul(a, p - 1, k);
      CongPow(Pow(a, p - 1), 1, k, p);
      PowOne(k);
      CongMul(a, a, Pow(a, n), 1, p);
    }
  }

  /** When g^q is 1, exponents only matter modulo q. */
  lemma PowExponentMod(g: int, e: nat, q: nat, p: nat)
    requires q > 0 && p > 0 && Cong(Pow(g, q), 1, p)
    ensures Cong(Pow(g, e), Pow(g, e % q), p)
  {
    var k := e / q;
    assert e == q * k + e % q && k >= 0;
    assert q * k >= 0;
    PowAdd(g, q * k, e % q);
    PowMul(g, q, k);
    CongPow(Pow(g, q), 1, k, p);
    PowOne(k);
    CongMul(Pow(g, q * k), 1, Pow(g, e % q), Pow(g, e % q), p);
  }

  // ---------------------------------- roots of a polynomial modulo a prime

  /** Value at x of the polynomial with the given coefficients, constant term first. */
  function Eval(c: seq<int>, x: int): int {
    if c == [] then 0 else c[0] + Times(x, Eval(c[1..], x))
  }

  /** Coefficients of (c(x) - c(a)) / (x - a). */
  function DivideOut(c: seq<int>, a: int): (d: seq<int>)
    requires c != []
    ensures |d| == |c| - 1
    ensures |d| > 0 ==> d[|d| - 1] == c[|c| - 1]
  {
    if |c| == 1 then []
    else
      var t := c[1..];
      assert t[|t| - 1] == c[|c| - 1];
      [Eval(t, a)] + DivideOut(t, a)
  }

  lemma DivideOutStep(x: int, a: int, u: int, v: int, w: int)
    requires u - v == (x - a) * w
    ensures x * u - a * v == (x - a) * (v + x * w)
  {
    SwapFactors(x - a, x, w);
    DistributeLeft(x - a, v, x * w);
    assert x * (u - v) == x * u - x * v;
  }

  lemma {:induction false} DivideOutCorrect(c: seq<int>, a: int, x: int)
    requires c != []
    ensures Eval(c, x) - Eval(c, a) == (x - a) * Eval(DivideOut(c, a), x)
  {
    if |c| == 1 {
      assert c[1..] == [];
      assert Eval(c, x) == c[0] + x * 0 && Eval(c, a) == c[0] + a * 0;
    } else {
      var t := c[1..];
      var d := DivideOut(t, a);
      DivideOutCorrect(t, a, x);
      var e := DivideOut(c, a);
      assert e[1..] == d && e[0] == Eval(t, a);
      var u, v, w := Eval(t, x), Eval(t, a), Eval(d, x);
      assert Eval(e, x) == v + x * w;
      assert Eval(c, x) == c[0] + x * u && Eval(c, a) == c[0] + a * v;
      DivideOutStep(x, a, u, v, w);
    }
  }

  /** A polynomial that vanishes modulo p at as many consecutive points as it has
      coefficients has a leading coefficient divisible by p. */
  lemma {:induction false} TooManyRoots(c: seq<int>, p: nat, start: int)
    requires Prime(p) && 0 < |c| <= p
    requires forall x :: start <= x < start + |c| ==> Eval(c, x) % p == 0
    ensures c[|c| - 1] % p == 0
    decreases |c|
  {
    assert Eval(c, start) % p == 0;
    if |c| == 1 {
      assert c[1..] == [];
      assert Eval(c, start) == c[0] + start * 0;
    } else {
      var d := DivideOut(c, start);
      forall x | start + 1 <= x < start + 1 + |d| ensures Eval(d, x) % p == 0 {
        assert Eval(c, x) % p == 0;
        DivideOutCorrect(c, start, x);
        DividesDifference(Eval(c, x), Eval(c, start), p);
        PrimeDividesProduct(p, x - start, Eval(d, x));
        ModIdem(x - start, p);
      }
      TooManyRoots(d, p, start + 1);
    }
  }

  /** The coefficients of x^n - 1. */
  function PowerMinusOne(n: nat): (c: seq<int>)
    requires n > 0
    ensures |c| == n + 1 && c[n] == 1
  {
    [-1] + Monomial(n - 1)
  }

  function Monomial(n: nat): (c: seq<int>)
    ensures |c| == n + 1 && c[n] == 1
  {
    if n == 0 then [1] else [0] + Monomial(n - 1)
  }

  lemma {:induction false} MonomialEval(n: nat, x: int)
    ensures Eval(Monomial(n), x) == Pow(x, n)
  {
    var c := Monomial(n);
    if n == 0 {
      assert c[1..] == [];
      assert Eval(c, x) == 1 + x * 0;
    } else {
      assert c[1..] == Monomial(n - 1);
      MonomialEval(n - 1, x);
    }
  }

  lemma PowerMinusOneEval(n: nat, x: int)
    requires n > 0
    ensures Eval(PowerMinusOne(n), x) == Pow(x, n) - 1
  {
    assert PowerMinusOne(n)[1..] == Monomial(n - 1);
    MonomialEval(n - 1, x);
  }

  /** Among any n + 1 consecutive integers, one has an n-th power different from 1 modulo p. */
  lemma SomePowerNotOne(n: nat, p: nat, start: int) returns (h: int)
    requires Prime(p) && 0 < n < p
    ensures start <= h <= start + n && !Cong(Pow(h, n), 1, p)
  {
    if x :| start <= x <= start + n && !Cong(Pow(x, n), 1, p) {
      h := x;
    } else {
      var c := PowerMinusOne(n);
      forall x | start <= x < start + |c| ensures Eval(c, x) % p == 0 {
        PowerMinusOneEval(n, x);
        assert Cong(Pow(x, n), 1, p);
        DividesDifference(Pow(x, n), 1, p);
      }
      TooManyRoots(c, p, start);
      assert false;
    }
  }
}
