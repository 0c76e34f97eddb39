/**
  DSS keys, signatures and key generation: dss.c and gendss.c. Numbers are exact, hashes
  are parameters, and random buffers and the primality test are inputs.
*/
module Dss {
  import opened Wrappers
  import opened Bytes
  import opened NumberTheory
  import opened Rsa

  const QSIZE: nat := 20
  const SSH_SIGNKEY_DSS: seq<byte> := [115, 115, 104, 45, 100, 115, 115]

  datatype DssKey = DssKey(p: nat, q: nat, g: nat, y: nat, x: nat)

  /** What section 4.6 of FIPS 186-4 asks of domain parameters and a key pair. */
  ghost predicate GoodDss(k: DssKey) {
    && Prime(k.p) && Prime(k.q) && k.p % (2 * k.q) == 1
    && 1 < k.g < k.p && Pow(k.g, k.q) % k.p == 1
    && k.x < k.q && k.y == Pow(k.g, k.x) % k.p
  }

  // ---------------------------------------------------------- key generation

  /** getq: the next prime above a random number with top and bottom bits set. */
  method GetQ(next: nat -> nat, draw: seq<byte>) returns (q: nat)
    requires PrimeOracle(next) && |draw| == QSIZE
    ensures Prime(q) && q > 128 * Pow(256, 19)
  {
    hide Pow, BytesToNat;
    var buf := TopSet(draw);
    if buf[19] % 2 == 0 { buf := buf[19 := buf[19] + 1]; }
    TopBitValue(buf);
    q := next(BytesToNat(buf));
  }

  /** One candidate of getp: the largest number not above x + 1 that is 1 modulo 2q. */
  function Candidate(x: nat, q: nat): (p: nat)
    requires q > 0
    ensures p <= x + 1 < p + 2 * q && (p - 1) % (2 * q) == 0
  {
    var m := 2 * q;
    CandidateDivides(x, m);
    x - x % m + 1
  }

  lemma CandidateDivides(x: nat, m: nat)
    requires m > 0
    ensures 0 <= x - x % m <= x < x - x % m + m && (x - x % m) % m == 0
  {
    assert x - x % m == m * (x / m);
    MultipleMod(m, x / m);
  }

  /** getp: the first candidate that is prime; None when the random buffers run out. */
  method GetP(isPrime: nat -> bool, draws: seq<seq<byte>>, q: nat) returns (p: Option<nat>)
    requires Prime(q)
    requires forall x: nat :: isPrime(x) <==> Prime(x)
    requires forall i :: 0 <= i < |draws| ==> draws[i] != []
    ensures p.Some? ==> Prime(p.value) && p.value % (2 * q) == 1
    ensures p.None? <==> forall i :: 0 <= i < |draws| ==> !Prime(Candidate(BytesToNat(TopSet(draws[i])), q))
  {
    var i := 0;
    while i < |draws|
      invariant 0 <= i <= |draws|
      invariant forall j :: 0 <= j < i ==> !Prime(Candidate(BytesToNat(TopSet(draws[j])), q))
    {
      var tempX := BytesToNat(TopSet(draws[i]));
      var tempC := tempX % (2 * q);
      var candidate := tempX - tempC + 1;
      assert candidate == Candidate(tempX, q);
      if isPrime(candidate) {
        OneAbove(candidate, 2 * q);
        return Some(candidate);
      }
      i := i + 1;
    }
    return None;
  }

  lemma OneAbove(p: nat, m: nat)
    requires p > 0 && m > 1 && (p - 1) % m == 0
    ensures p % m == 1
  {
    var k := (p - 1) / m;
    assert p == 1 + m * k;
    AddMultiple(1, m, k);
  }

  /** The exponent (p-1)/q is positive and below p-1, so some power is not 1. */
  lemma Cofactor(p: nat, q: nat)
    requires Prime(p) && Prime(q) && p % (2 * q) == 1
    ensures 0 < (p - 1) / q < p - 1 && q * ((p - 1) / q) == p - 1
  {
    var k := p / (2 * q);
    assert p == (2 * q) * k + 1;
    assert p - 1 == q * (2 * k) by { assert (2 * q) * k == q * (2 * k); }
    DivideExact(q, 2 * k);
    MulBounds(q, 2 * k);
    MulBounds(2 * k, q - 1);
    assert q * (2 * k) == 2 * k + 2 * k * (q - 1) by { DistributeRight(1, q - 1, 2 * k); }
  }

  /** h^div is neither 0 nor 1 modulo p for some h among 1, ..., div + 1. */
  lemma SomeGenerator(p: nat, div: nat) returns (h: nat)
    requires Prime(p) && 0 < div < p - 1
    ensures 1 <= h <= div + 1 && Pow(h, div) % p > 1
  {
    h := SomePowerNotOne(div, p, 1);
    ModIdem(1, p);
    assert Pow(h, div) % p != 1;
    if Pow(h, div) % p == 0 {
      PowerDivisible(p, h, div);
      ModIdem(h, p);
    }
  }

  lemma {:induction false} PowerDivisible(p: nat, h: nat, e: nat)
    requires Prime(p) && Pow(h, e) % p == 0
    ensures h % p == 0
    decreases e
  {
    if e == 0 {
      ModIdem(1, p);
    } else {
      assert Pow(h, e) == h * Pow(h, e - 1);
      PrimeDividesProduct(p, h, Pow(h, e - 1));
      if h % p != 0 { PowerDivisible(p, h, e - 1); }
    }
  }

  /** getg: the search always ends, and the result has order q. */
  method GetG(p: nat, q: nat) returns (g: nat)
    requires Prime(p) && Prime(q) && p % (2 * q) == 1
    ensures 1 < g < p && Pow(g, q) % p == 1
  {
    hide Pow;
    Cofactor(p, q);
    var div := (p - 1) / q;
    ghost var found := SomeGenerator(p, div);
    var h := 1;
    g := Pow(h, div) % p;
    h := h + 1;
    while g <= 1
      invariant h >= 2 && g == Pow(h - 1, div) % p && g < p
      invariant found >= h - 1
      decreases found + 1 - h
    {
      g := Pow(h, div) % p;
      h := h + 1;
    }
    OrderQ(p, q, div, h - 1);
  }

  lemma OrderQ(p: nat, q: nat, div: nat, h: nat)
    requires Prime(p) && q * div == p - 1 && Pow(h, div) % p > 1
    ensures Pow(Pow(h, div) % p, q) % p == 1
  {
    PowMod(Pow(h, div), q, p);
    PowMul(h, div, q);
    assert div * q == p - 1;
    NotDivisible(p, h, div);
    Fermat(p, h);
    ModIdem(1, p);
  }

  lemma NotDivisible(p: nat, h: nat, e: nat)
    requires p > 1 && Pow(h, e) % p > 1
    ensures h % p != 0
  {
    ModIdem(1, p);
    if e > 0 && h % p == 0 { CongMul(h, 0, Pow(h, e - 1), Pow(h, e - 1), p); }
  }

  /** The bits that gen_random_mpint keeps of the top byte, given the top byte of the bound. */
  function Mask(top: byte): (m: nat)
    ensures top < m <= 256
  {
    if top < 2 then 2 else if top < 4 then 4 else if top < 8 then 8 else if top < 16 then 16
    else if top < 32 then 32 else if top < 64 then 64 else if top < 128 then 128 else 256
  }

  function Masked(max: nat, draw: seq<byte>): seq<byte>
    requires max > 0 && |draw| == Size(max)
  {
    draw[0 := draw[0] % Mask(NatToBytes(max)[0])]
  }

  /** gen_random_mpint: the first masked draw below the bound. */
  method GenRandomMpint(max: nat, draws: seq<seq<byte>>) returns (rand: Option<nat>)
    requires max > 0 && forall i :: 0 <= i < |draws| ==> |draws[i]| == Size(max)
    ensures rand.Some? ==>
      && rand.value < max
      && exists i :: 0 <= i < |draws| && rand.value == BytesToNat(Masked(max, draws[i]))
    ensures rand.None? <==> forall i :: 0 <= i < |draws| ==> BytesToNat(Masked(max, draws[i])) >= max
  {
    var i := 0;
    while i < |draws|
      invariant 0 <= i <= |draws|
      invariant forall j :: 0 <= j < i ==> BytesToNat(Masked(max, draws[j])) >= max
    {
      var n := BytesToNat(Masked(max, draws[i]));
      if n < max { return Some(n); }
      i := i + 1;
    }
    return None;
  }

  lemma {:induction false} TopByteLow(b: seq<byte>)
    requires b != []
    ensures b[0] * Pow(256, |b| - 1) <= BytesToNat(b)
    decreases |b|
  {
    if |b| == 1 {
      assert b[..0] == [];
      assert BytesToNat(b) == BytesToNat([]) * 256 + b[0];
      assert Pow(256, 0) == 1;
    } else {
      TopByteLow(b[..|b| - 1]);
      var t := Pow(256, |b| - 2);
      assert Pow(256, |b| - 1) == 256 * t;
      assert b[0] * (256 * t) == 256 * (b[0] * t);
    }
  }

  /** Every number below the bound can be drawn, 0 included: the comment that promises
      0 < rand is not kept. */
  lemma EveryValueDrawn(max: nat, v: nat) returns (draw: seq<byte>)
    requires v < max
    ensures |draw| == Size(max) && BytesToNat(Masked(max, draw)) == v
  {
    BelowMeansNotLonger(v, max);
    draw := Zeros(Size(max) - Size(v)) + NatToBytes(v);
    NatSize(v, Size(max));
    PaddedRoundTrip(v, Size(max));
    NatRoundTrip(max);
    var top, t := NatToBytes(max)[0], Pow(256, Size(max) - 1);
    TopByteLow(draw);
    TopByte(NatToBytes(max));
    assert draw[0] <= top by {
      if draw[0] > top { Monotone(top + 1, draw[0], t); }
    }
    ModIdem(draw[0], Mask(top));
    assert Masked(max, draw) == draw;
  }

  lemma Monotone(a: nat, b: nat, t: nat)
    requires a <= b
    ensures a * t <= b * t
  {
    DistributeRight(b - a, a, t);
  }

  /** gen_dss_priv_key; None when some supply of random buffers runs out. */
  method GenDssPrivKey(next: nat -> nat, isPrime: nat -> bool, drawQ: seq<byte>, drawsP: seq<seq<byte>>, drawsX: nat -> seq<seq<byte>>)
    returns (key: Option<DssKey>)
    requires PrimeOracle(next) && forall n: nat :: isPrime(n) <==> Prime(n)
    requires |drawQ| == QSIZE && forall i :: 0 <= i < |drawsP| ==> drawsP[i] != []
    requires forall q: nat, i :: 0 <= i < |drawsX(q)| ==> |drawsX(q)[i]| == Size(q)
    ensures key.Some? ==> GoodDss(key.value)
  {
    hide Pow, BytesToNat, Candidate, Masked;
    var q := GetQ(next, drawQ);
    var p := GetP(isPrime, drawsP, q);
    if p.None? { return None; }
    var g := GetG(p.value, q);
    var x := GenRandomMpint(q, drawsX(q));
    if x.None? { return None; }
    return Some(DssKey(p.value, q, g, Pow(g, x.value) % p.value, x.value));
  }

  // ------------------------------------------------------------------ signing

  /** r and s of section 4.6 of FIPS 186-4, for a per-message number k with inverse ki. */
  function SignR(key: DssKey, k: nat): (r: nat)
    requires key.p > 0 && key.q > 0
  {
    Pow(key.g, k) % key.p % key.q
  }

  function SignS(key: DssKey, m: nat, k: nat, ki: nat): (s: nat)
    requires key.p > 0 && key.q > 0
    ensures s < key.q
  {
    ki * ((m + SignR(key, k) * key.x % key.q) % key.q) % key.q
  }

  function Padded(n: nat): (b: seq<byte>)
    requires Size(n) <= 20
    ensures |b| == 20
  {
    Zeros(20 - Size(n)) + NatToBytes(n)
  }

  function SignatureOf(r: nat, s: nat): seq<byte>
    requires Size(r) <= 20 && Size(s) <= 20
  {
    PutString(SSH_SIGNKEY_DSS) + PutInt(40) + Padded(r) + Padded(s)
  }

  method PutPadded(buf: seq<byte>, n: nat) returns (out: seq<byte>)
    requires Size(n) <= 20
    ensures out == buf + Padded(n)
  {
    out := buf;
    var i := 0;
    while i < 20 - Size(n)
      invariant 0 <= i <= 20 - Size(n) && out == buf + Zeros(i)
    {
      assert Zeros(i) + [0] == Zeros(i + 1);
      out := out + [0];
      i := i + 1;
    }
    out := out + NatToBytes(n);
  }

  /** buf_put_dss_sign with per-message number k0 reduced modulo q. None is an exit: a zero
      modulus, no inverse of k, or an r or s over 20 bytes. */
  method DssSign(key: DssKey, data: seq<byte>, sha1: seq<byte> -> Digest, k0: nat) returns (sig: Option<seq<byte>>)
    ensures sig.Some? <==>
      && key.p > 0 && key.q > 0
      && InvMod(k0 % key.q, key.q).Some?
      && Size(SignR(key, k0 % key.q)) <= 20
      && Size(SignS(key, BytesToNat(sha1(data)), k0 % key.q, InvMod(k0 % key.q, key.q).value)) <= 20
    ensures sig.Some? ==> sig.value == SignatureOf(SignR(key, k0 % key.q),
      SignS(key, BytesToNat(sha1(data)), k0 % key.q, InvMod(k0 % key.q, key.q).value))
  {
    hide Pow, BytesToNat, InvMod, NatToBytes, Size;
    if key.p == 0 || key.q == 0 { return None; }
    var k := k0 % key.q;
    var m := BytesToNat(sha1(data));
    var temp1 := Pow(key.g, k) % key.p;
    var r := temp1 % key.q;
    temp1 := (r * key.x) % key.q;
    var temp2 := (m + temp1) % key.q;
    var inv := InvMod(k, key.q);
    if inv.None? { return None; }
    temp1 := inv.value;
    var s := (temp1 * temp2) % key.q;
    var buf := PutString(SSH_SIGNKEY_DSS) + PutInt(40);
    if Size(r) > 20 { return None; }
    buf := PutPadded(buf, r);
    if Size(s) > 20 { return None; }
    buf := PutPadded(buf, s);
    return Some(buf);
  }

  // ------------------------------------------------------------- verification

  /** v of section 4.7 of FIPS 186-4. */
  function CheckV(key: DssKey, m: nat, r: nat, w: nat): nat
    requires key.p > 0 && key.q > 0
  {
    (Pow(key.g, (m * w) % key.q) % key.p) * (Pow(key.y, (r * w) % key.q) % key.p) % key.p % key.q
  }

  /** A string of exactly 40 bytes with s in 1..q-1 invertible, r below q, and v equal to r. */
  predicate DssAccepts(key: DssKey, rs: seq<byte>, h: Digest)
    requires key.p > 0 && key.q > 0
  {
    && |rs| == 40
    && var (r, s) := (BytesToNat(rs[..20]), BytesToNat(rs[20..]));
       && s < key.q && r < key.q && InvMod(s, key.q).Some?
       && CheckV(key, BytesToNat(h), r, InvMod(s, key.q).value) == r
  }

  /** buf_dss_verify, after the string has been taken from the buffer. */
  method DssVerify(key: DssKey, rs: seq<byte>, data: seq<byte>, sha1: seq<byte> -> Digest) returns (v: Verdict)
    ensures v == if key.p > 0 && key.q > 0 && DssAccepts(key, rs, sha1(data)) then Success else Failure
  {
    hide Pow, BytesToNat, InvMod;
    if |rs| != 40 { return Failure; }
    var val1, val2, val3, val4;
    val1 := BytesToNat(rs[20..]);
    if val1 >= key.q { return Failure; }
    var inv := InvMod(val1, key.q);
    if inv.None? { return Failure; }
    val2 := inv.value;
    val1 := BytesToNat(sha1(data));
    val3 := (val1 * val2) % key.q;
    val1 := BytesToNat(rs[..20]);
    if val1 >= key.q { return Failure; }
    val4 := (val1 * val2) % key.q;
    if key.p == 0 { return Failure; }
    val2 := Pow(key.g, val3) % key.p;
    val3 := Pow(key.y, val4) % key.p;
    val4 := (val2 * val3) % key.p;
    val2 := val4 % key.q;
    return if val2 == val1 then Success else Failure;
  }

  // ------------------------------------------------------------- correctness

  /** s * k is m + r x modulo q. */
  lemma SignSolves(key: DssKey, m: nat, k: nat, ki: nat)
    requires key.p > 0 && key.q > 0 && (k * ki) % key.q == 1 % key.q
    ensures Cong(SignS(key, m, k, ki) * k, m + SignR(key, k) * key.x, key.q)
  {
    hide SignR;
    var q, rx := key.q, SignR(key, k) * key.x;
    var t := (m + rx % q) % q;
    assert Cong(t, m + rx, q) by {
      CongSelfMod(rx, q);
      CongAdd(m, m, rx % q, rx, q);
      CongSelfMod(m + rx % q, q);
    }
    CongSelfMod(ki * t, q);
    CongMulLeft(ki * t % q, ki * t, k, q);
    assert ki * t * k == (k * ki) * t by { MulAssoc(ki, t, k); MulAssoc(k, ki, t); SwapFactors(ki, k, t); assert t * k == k * t; }
    CongMul(k * ki, 1, t, m + rx, q);
  }

  /** m w + x (r w) is k modulo q, when s k = m + r x and s w = 1. */
  lemma ExponentIsK(q: nat, m: nat, r: nat, x: nat, s: nat, k: nat, w: nat)
    requires q > 0 && Cong(s * k, m + r * x, q) && Cong(s * w, 1, q)
    ensures Cong(m * w + x * (r * w), k, q)
  {
    assert (m + r * x) * w == m * w + x * (r * w) by {
      DistributeRight(m, r * x, w);
      MulAssoc(r, x, w);
      SwapFactors(r, x, w);
    }
    CongMulLeft(s * k, m + r * x, w, q);
    assert s * k * w == (s * w) * k by { MulAssoc(s, k, w); MulAssoc(s, w, k); assert k * w == w * k; }
    CongMulLeft(s * w, 1, k, q);
  }

  /** Reducing the exponents modulo q does not change g^u1 y^u2. */
  lemma ProductOfPowers2(g: nat, x: nat, y: nat, p: nat, q: nat, a: nat, b: nat)
    requires p > 0 && q > 0 && Cong(Pow(g, q), 1, p) && y == Pow(g, x) % p
    ensures x * b >= 0 && Cong(Pow(g, a % q) * Pow(y, b % q), Pow(g, a + x * b), p)
  {
    PowExponentMod(g, a, q, p);
    assert Cong(Pow(y, b % q), Pow(g, x * b), p) by {
      PowMod(Pow(g, x), b % q, p);
      PowMul(g, x, b % q);
      PowExponentMod(g, x * (b % q), q, p);
      PowExponentMod(g, x * b, q, p);
      CongSelfMod(b, q);
      CongMul(x, x, b % q, b, q);
    }
    PowAdd(g, a, x * b);
    CongMul(Pow(g, a % q), Pow(g, a), Pow(y, b % q), Pow(g, x * b), p);
  }

  /** The verifier recomputes g^k mod p. */
  lemma VerifierFindsR(key: DssKey, m: nat, r: nat, s: nat, k: nat, w: nat)
    requires GoodDss(key) && k < key.q
    requires r == SignR(key, k) && Cong(s * k, m + r * key.x, key.q) && Cong(s * w, 1, key.q)
    ensures CheckV(key, m, r, w) == r
  {
    hide Prime;
    var p, q, a, b := key.p, key.q, m * w, r * w;
    ModIdem(1, p);
    ProductOfPowers2(key.g, key.x, key.y, p, q, a, b);
    MulModBoth(Pow(key.g, a % q), Pow(key.y, b % q), p);
    ExponentIsK(q, m, r, key.x, s, k, w);
    PowExponentMod(key.g, a + key.x * b, q, p);
    ModIdem(k, q);
  }

  lemma PaddedValue(n: nat)
    requires Size(n) <= 20
    ensures BytesToNat(Padded(n)) == n
  {
    NatSize(n, 20);
    PaddedRoundTrip(n, 20);
  }

  lemma TwentyBytes(n: nat, q: nat, bound: nat)
    requires n < q < bound && bound == Pow(256, 20)
    ensures Size(n) <= 20
  {
    NatSize(n, 20);
  }

  lemma ZeroHasNoInverse(q: nat)
    requires q > 1
    ensures InvMod(0, q).None?
  {
    ModIdem(0, q);
    assert ExtGcd(q, 0).g == q;
    assert Gcd(0, q) == q;
  }

  lemma NonZeroHasInverse(s: nat, q: nat)
    requires Prime(q) && 0 < s < q
    ensures InvMod(s, q).Some?
  {
    ModIdem(s, q);
    PrimeCoprime(q, s);
    var b := ExtGcd(q, s);
    CoprimeFromCombination(s, q, b.v, b.u);
  }

  /** For a generated key with q below 2^160 an emitted signature verifies if and only if its
      s is not zero. */
  lemma EmittedVerifiesIff(key: DssKey, h: Digest, k: nat, bound: nat)
    requires GoodDss(key) && key.q < bound && bound == Pow(256, 20)
    requires k < key.q && InvMod(k, key.q).Some?
    ensures var s := SignS(key, BytesToNat(h), k, InvMod(k, key.q).value);
      && Size(SignR(key, k)) <= 20 && Size(s) <= 20
      && (DssAccepts(key, Padded(SignR(key, k)) + Padded(s), h) <==> s != 0)
  {
    hide Pow, BytesToNat, Size, InvMod;
    var q, m, ki := key.q, BytesToNat(h), InvMod(k, key.q).value;
    var r, s := SignR(key, k), SignS(key, m, k, ki);
    assert r < q by { CongSelfMod(Pow(key.g, k) % key.p, q); }
    TwentyBytes(r, q, bound);
    TwentyBytes(s, q, bound);
    var rs := Padded(r) + Padded(s);
    assert rs[..20] == Padded(r) && rs[20..] == Padded(s);
    PaddedValue(r);
    PaddedValue(s);
    ZeroHasNoInverse(q);
    if s != 0 {
      NonZeroHasInverse(s, q);
      SignSolves(key, m, k, ki);
      VerifierFindsR(key, m, r, s, k, InvMod(s, q).value);
    }
  }

  /** The same, for the emitted bytes: what buf_dss_verify reads as its string. */
  method DssSignThenVerify(key: DssKey, data: seq<byte>, sha1: seq<byte> -> Digest, k0: nat, bound: nat) returns (v: Verdict)
    requires GoodDss(key) && key.q < bound && bound == Pow(256, 20)
    ensures v == Exited <==> k0 % key.q == 0
    ensures v == Success <==>
      && k0 % key.q != 0
      && (BytesToNat(sha1(data)) + SignR(key, k0 % key.q) * key.x % key.q) % key.q != 0
  {
    hide Pow, BytesToNat, Size, InvMod, SignR, Padded;
    var q, k := key.q, k0 % key.q;
    ZeroHasNoInverse(q);
    if k != 0 {
      NonZeroHasInverse(k, q);
      EmittedVerifiesIff(key, sha1(data), k, bound);
      ZeroS(key, BytesToNat(sha1(data)), k, InvMod(k, q).value);
    }
    var sig := DssSign(key, data, sha1, k0);
    if sig.None? { return Exited; }
    var rs := sig.value[15..];
    assert rs == Padded(SignR(key, k)) + Padded(SignS(key, BytesToNat(sha1(data)), k, InvMod(k, q).value));
    v := DssVerify(key, rs, data, sha1);
  }

  /** s is zero exactly when m + r x is. */
  lemma ZeroS(key: DssKey, m: nat, k: nat, ki: nat)
    requires key.p > 0 && key.q > 1 && (k * ki) % key.q == 1 % key.q
    ensures SignS(key, m, k, ki) == 0 <==> (m + SignR(key, k) * key.x % key.q) % key.q == 0
  {
    hide SignR;
    var q, rx := key.q, SignR(key, k) * key.x;
    var t := (m + rx % q) % q;
    if SignS(key, m, k, ki) == 0 {
      SignSolves(key, m, k, ki);
      CongSelfMod(rx, q);
      CongAdd(m, m, rx % q, rx, q);
      ModIdem(0, q);
      assert 0 * k == 0;
    } else if t == 0 {
      assert ki * t == 0;
      ModIdem(0, q);
    }
  }
}
