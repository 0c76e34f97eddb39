/**
  RSA keys, signatures and key generation: rsa.c and genrsa.c. Numbers are exact, the
  hash is a parameter, random numbers and the results of mp_prime_next_prime are inputs.
*/
module Rsa {
  import opened Wrappers
  import opened Bytes
  import opened NumberTheory

  const RSA_E: nat := 65537

  type Digest = h: seq<byte> | |h| == 20 witness Zeros(20)

  /** Old key files hold no primes. */
  datatype RsaKey = RsaKey(n: nat, e: nat, d: nat, p: Option<nat>, q: Option<nat>)

  const SSH_SIGNKEY_RSA: seq<byte> := [115, 115, 104, 45, 114, 115, 97]

  /** The ASN.1 designator of SHA-1, with the zero byte before it. */
  const ASN1_MAGIC: seq<byte> :=
    [0x00, 0x30, 0x21, 0x30, 0x09, 0x06, 0x05, 0x2b, 0x0e, 0x03, 0x02, 0x1a, 0x05, 0x00, 0x04, 0x14]

  /** mp_unsigned_bin_size. */
  function Size(n: nat): nat { |NatToBytes(n)| }

  // ------------------------------------------------------------- the padding

  /** EMSA-PKCS1-v1_5 of section 9.2.1 of RFC 2437: `len` bytes 01 FF ... FF 00 T, where T
      is the designator and the digest. */
  predicate Encoded(em: seq<byte>, len: nat, h: Digest) {
    && |em| == len >= 37
    && em[0] == 1
    && (forall i :: 1 <= i < len - 36 ==> em[i] == 0xff)
    && em[len - 36..] == ASN1_MAGIC + h
  }

  lemma EncodedUnique(a: seq<byte>, b: seq<byte>, len: nat, h: Digest)
    requires Encoded(a, len, h) && Encoded(b, len, h)
    ensures a == b
  {
    assert a == a[..len - 36] + a[len - 36..];
    assert b == b[..len - 36] + b[len - 36..];
    assert a[..len - 36] == b[..len - 36];
  }

  /** The padded message as a number, when the modulus has room for it. */
  function Em(n: nat, h: Digest): nat
    requires Size(n) >= 38
  {
    BytesToNat([1] + seq(Size(n) - 38, i => 0xff) + (ASN1_MAGIC + h))
  }

  lemma PaddedIsEncoded(len: nat, h: Digest)
    requires len >= 37
    ensures Encoded([1] + seq(len - 37, i => 0xff) + (ASN1_MAGIC + h), len, h)
  {
    var a, b := [1] + seq(len - 37, i => 0xff), ASN1_MAGIC + h;
    assert (a + b)[len - 36..] == b;
    forall i | 1 <= i < len - 36 ensures (a + b)[i] == 0xff { assert (a + b)[i] == a[i]; }
  }

  /** rsa_pad_em, writing into a buffer one byte shorter than the modulus. None is the exit
      of a buffer write that does not fit, which happens exactly for short moduli. */
  method PadEm(n: nat, h: Digest) returns (em: Option<nat>)
    ensures em.Some? <==> Size(n) >= 38
    ensures em.Some? ==> em.value == Em(n, h)
  {
    var nsize := Size(n);
    if nsize <= 1 { return None; }
    var size := nsize - 1;
    var buf: seq<byte> := [1];
    while |buf| != size - 16 - SHA1_HASH_SIZE
      invariant 1 <= |buf| <= size
      invariant size >= 37 ==> |buf| <= size - 36
      invariant buf[0] == 1 && forall i :: 1 <= i < |buf| ==> buf[i] == 0xff
      decreases size - |buf|
    {
      if |buf| == size { return None; }
      buf := buf + [0xff];
    }
    assert buf == [1] + seq(nsize - 38, i => 0xff);
    buf := buf + (ASN1_MAGIC + h);
    return Some(BytesToNat(buf));
  }

  lemma {:induction false} TopByte(b: seq<byte>)
    requires b != []
    ensures BytesToNat(b) < (b[0] + 1) * Pow(256, |b| - 1)
    decreases |b|
  {
    if |b| == 1 {
      assert b[..0] == [];
      assert BytesToNat(b) == BytesToNat([]) * 256 + b[0];
    } else {
      TopByte(b[..|b| - 1]);
      assert Pow(256, |b| - 1) == 256 * Pow(256, |b| - 2);
      var t := Pow(256, |b| - 2);
      assert (b[0] + 1) * (256 * t) == 256 * ((b[0] + 1) * t);
    }
  }

  /** The padded message is below the modulus. */
  lemma EmBelowModulus(n: nat, h: Digest)
    requires Size(n) >= 38
    ensures Em(n, h) < n
  {
    var len := Size(n) - 1;
    var b := [1] + seq(len - 37, i => 0xff) + (ASN1_MAGIC + h);
    assert |b| == len;
    BytesBound(b);
    NatSize(n, len);
  }

  // ----------------------------------------------------------------- the key

  function Lcm(a: nat, b: nat): nat
    requires a > 0 && b > 0
  {
    a * b / Gcd(a, b)
  }

  /** The exponents undo each other modulo p-1 and q-1, and n is the product of two primes. */
  ghost predicate GoodExponents(k: RsaKey, p: nat, q: nat) {
    && Prime(p) && Prime(q) && k.n == p * q && k.e > 1
    && (k.e * k.d) % (p - 1) == 1 % (p - 1) && (k.e * k.d) % (q - 1) == 1 % (q - 1)
  }

  lemma ExponentSplits(e: nat, d: nat, m: nat) returns (k: nat)
    requires m > 0 && e > 1 && (e * d) % m == 1 % m
    requires e * d >= 1
    ensures e * d == 1 + m * k
  {
    var j := CongWitness(e * d, 1, m);
    assert m * j >= 0;
    MulBounds(m, j);
    k := j;
  }

  /** What signing and verifying do to a number, modulo one of the primes. */
  lemma RoundTripModPrime(a: nat, e: nat, d: nat, p: nat)
    requires Prime(p) && e > 1 && d > 0 && (e * d) % (p - 1) == 1 % (p - 1)
    ensures e * d >= 0 && Cong(Pow(a, e * d), a, p)
  {
    MulBounds(e, d);
    var k := ExponentSplits(e, d, p - 1);
    FermatExponent(p, a, k);
  }

  /** x^(ed) is x modulo n, for every x, because the primes differ. */
  lemma RoundTripModN(k: RsaKey, p: nat, q: nat, x: nat)
    requires GoodExponents(k, p, q) && p != q && k.d > 0
    ensures k.n > 0 && k.e * k.d >= 0 && Cong(Pow(x, k.e * k.d), x, k.n)
  {
    RoundTripModPrime(x, k.e, k.d, p);
    RoundTripModPrime(x, k.e, k.d, q);
    var y := Pow(x, k.e * k.d);
    DividesDifference(y, x, p);
    DividesDifference(y, x, q);
    TwoPrimesDivide(p, q, y - x);
    DividesDifference(y, x, p * q);
  }

  /** Verification of a signature: what s^e mod n is compared with. */
  predicate Recovers(k: RsaKey, x: nat)
    requires k.n > 0
  {
    Pow(Pow(x, k.d) % k.n, k.e) % k.n == x
  }

  lemma DistinctPrimesRecover(k: RsaKey, p: nat, q: nat, x: nat)
    requires GoodExponents(k, p, q) && p != q && k.d > 0 && x < k.n
    ensures Recovers(k, x)
  {
    PowMod(Pow(x, k.d), k.e, k.n);
    PowMul(x, k.d, k.e);
    assert k.d * k.e == k.e * k.d;
    RoundTripModN(k, p, q, x);
    ModIdem(x, k.n);
  }

  lemma SquareDivides(p: nat, t: nat)
    requires p > 0 && t >= 2
    ensures Pow(p, t) % (p * p) == 0
  {
    PowAdd(p, 2, t - 2);
    assert Pow(p, 2) == p * p by { assert Pow(p, 2) == p * (p * Pow(p, 0)); }
    MultipleMod(p * p, Pow(p, t - 2));
  }

  /** With equal primes a multiple of p is not recovered. */
  lemma EqualPrimesLose(k: RsaKey, p: nat)
    requires GoodExponents(k, p, p) && k.d > 0
    ensures 0 < p < k.n && !Recovers(k, p)
  {
    PowMod(Pow(p, k.d), k.e, k.n);
    PowMul(p, k.d, k.e);
    MulBounds(k.e, k.d);
    assert k.d * k.e >= 2;
    SquareDivides(p, k.d * k.e);
    MulBounds(p, p - 1);
    assert p < p * p;
  }

  /** Every number below n is recovered if and only if the primes differ, which the
      generator does not check. */
  lemma RecoversAllIffDistinct(k: RsaKey, p: nat, q: nat)
    requires GoodExponents(k, p, q) && k.d > 0
    ensures k.n > 0 && ((forall x: nat :: x < k.n ==> Recovers(k, x)) <==> p != q)
  {
    MulBounds(p, q);
    if p == q {
      EqualPrimesLose(k, p);
    } else {
      forall x: nat | x < k.n ensures Recovers(k, x) { DistinctPrimesRecover(k, p, q, x); }
    }
  }

  // ---------------------------------------------------------------- signing

  /** The number that the blinded computation yields, for blinding value r with inverse ri. */
  function Blinded(k: RsaKey, em: nat, r: nat, ri: nat): nat
    requires k.n > 0
  {
    (Pow((em * (Pow(r, k.e) % k.n)) % k.n, k.d) % k.n * ri) % k.n
  }

  /** Blinding cancels: the signature does not depend on r. */
  lemma BlindingCancels(k: RsaKey, p: nat, q: nat, em: nat, r: nat, ri: nat)
    requires GoodExponents(k, p, q) && p != q && k.d > 0
    requires k.n > 0 && (r * ri) % k.n == 1 % k.n
    ensures Blinded(k, em, r, ri) == Pow(em, k.d) % k.n
  {
    var n, re, sd := k.n, Pow(r, k.e), Pow(em, k.d);
    var x := (em * (re % n)) % n;
    assert Cong(x, em * re, n) by {
      CongSelfMod(re, n);
      CongMul(em, em, re % n, re, n);
      CongSelfMod(em * (re % n), n);
    }
    assert Cong(Pow(x, k.d), sd * r, n) by {
      CongPow(x, em * re, k.d, n);
      PowBase(em, re, k.d);
      PowMul(r, k.e, k.d);
      RoundTripModN(k, p, q, r);
      CongMul(sd, sd, Pow(re, k.d), r, n);
    }
    var y := Pow(x, k.d) % n;
    CongSelfMod(Pow(x, k.d), n);
    CongMulLeft(y, sd * r, ri, n);
    MulAssoc(sd, r, ri);
    CongMul(sd, sd, r * ri, 1, n);
  }

  function SignatureBlob(n: nat, s: nat): seq<byte>
    requires Size(s) <= Size(n)
  {
    PutString(SSH_SIGNKEY_RSA) + PutInt(Size(n) % WORD) + Zeros(Size(n) - Size(s)) + NatToBytes(s)
  }

  lemma BelowMeansNotLonger(s: nat, n: nat)
    requires s < n
    ensures Size(s) <= Size(n)
  {
    NatSize(n, Size(n));
    NatSize(s, Size(n));
  }

  /** buf_put_rsa_sign with blinding value r. None is an exit: a modulus too short for the
      padding, or an r without inverse. For a proper key the signature is em^d mod n,
      whatever r was drawn. */
  method Sign(k: RsaKey, data: seq<byte>, sha1: seq<byte> -> Digest, r: nat) returns (sig: Option<seq<byte>>)
    ensures sig.Some? <==> Size(k.n) >= 38 && Gcd(r, k.n) == 1
    ensures sig.Some? ==> forall p: nat, q: nat {:trigger GoodExponents(k, p, q)} ::
      GoodExponents(k, p, q) && p != q && k.d > 0 ==>
        var s := Pow(Em(k.n, sha1(data)), k.d) % k.n;
        Size(s) <= Size(k.n) && sig.value == SignatureBlob(k.n, s)
  {
    var tmp1, tmp2, tmp3, s;
    var em := PadEm(k.n, sha1(data));
    if em.None? { return None; }
    tmp1 := em.value;
    tmp2 := r;
    s := Pow(tmp2, k.e) % k.n;
    var inv := InvMod(tmp2, k.n);
    if inv.None? { return None; }
    tmp3 := inv.value;
    tmp2 := (tmp1 * s) % k.n;
    tmp1 := Pow(tmp2, k.d) % k.n;
    s := (tmp1 * tmp3) % k.n;
    assert s == Blinded(k, em.value, r, tmp3);
    assert forall p: nat, q: nat {:trigger GoodExponents(k, p, q)} ::
      GoodExponents(k, p, q) && p != q && k.d > 0 ==> s == Pow(em.value, k.d) % k.n by {
      forall p: nat, q: nat | GoodExponents(k, p, q) && p != q && k.d > 0
        ensures s == Pow(em.value, k.d) % k.n
      {
        BlindingCancels(k, p, q, em.value, r, tmp3);
      }
    }
    CongSelfMod(tmp1 * tmp3, k.n);
    BelowMeansNotLonger(s, k.n);
    var buf: seq<byte> := PutString(SSH_SIGNKEY_RSA) + PutInt(Size(k.n) % WORD);
    ghost var head := buf;
    var i := 0;
    while i < Size(k.n) - Size(s)
      invariant 0 <= i <= Size(k.n) - Size(s) && buf == head + Zeros(i)
    {
      assert Zeros(i) + [0] == Zeros(i + 1);
      buf := buf + [0];
      i := i + 1;
    }
    buf := buf + NatToBytes(s);
    return Some(buf);
  }

  // ------------------------------------------------------------ verification

  datatype Verdict = Success | Failure | Exited

  /** buf_rsa_verify on what is left of the buffer. */
  method Verify(k: RsaKey, buf: seq<byte>, data: seq<byte>, sha1: seq<byte> -> Digest) returns (v: Verdict)
    ensures v == Success <==> Accepts(k, buf, sha1(data))
    ensures v == Success <==>
      && |buf| >= 4 && GetInt(buf) == Size(k.n) && BytesToNat(buf[4..]) < k.n && Size(k.n) >= 38
      && Pow(BytesToNat(buf[4..]), k.e) % k.n == Em(k.n, sha1(data))
  {
    if |buf| < 4 { return Exited; }
    if GetInt(buf) != Size(k.n) { return Failure; }
    var s := BytesToNat(buf[4..]);
    if s >= k.n { return Failure; }
    var em := PadEm(k.n, sha1(data));
    if em.None? { return Exited; }
    var mdash := Pow(s, k.e) % k.n;
    return if mdash == em.value then Success else Failure;
  }

  /** The specification of Verify, for lemmas. */
  predicate Accepts(k: RsaKey, buf: seq<byte>, h: Digest) {
    && |buf| >= 4 && GetInt(buf) == Size(k.n) && BytesToNat(buf[4..]) < k.n && Size(k.n) >= 38
    && Pow(BytesToNat(buf[4..]), k.e) % k.n == Em(k.n, h)
  }

  /** What the verifier reads after the algorithm name of an emitted signature. */
  lemma BlobTail(n: nat, s: nat)
    requires s < n && Size(n) < WORD
    ensures Size(s) <= Size(n) && |SignatureBlob(n, s)| >= 15
    ensures GetInt(SignatureBlob(n, s)[11..]) == Size(n)
    ensures BytesToNat(SignatureBlob(n, s)[11..][4..]) == s
  {
    BelowMeansNotLonger(s, n);
    NatSize(s, Size(n));
    PaddedRoundTrip(s, Size(n));
    hide NatToBytes, BytesToNat, GetInt, PutInt, Zeros;
    var z, m := Zeros(Size(n) - Size(s)), NatToBytes(s);
    ModIdem(Size(n), WORD);
    Parts(PutString(SSH_SIGNKEY_RSA), PutInt(Size(n)), z, m);
    IntRoundTrip(Size(n), z + m);
  }

  lemma Parts(a: seq<byte>, b: seq<byte>, z: seq<byte>, m: seq<byte>)
    requires |a| == 11 && |b| == 4
    ensures (a + b + z + m)[11..] == b + (z + m) && (b + (z + m))[4..] == z + m
  {
  }

  /** What follows the algorithm name in an emitted signature is accepted. */
  lemma EmittedAccepted(k: RsaKey, p: nat, q: nat, h: Digest)
    requires GoodExponents(k, p, q) && p != q && k.d > 0 && 38 <= Size(k.n) < WORD
    ensures var s := Pow(Em(k.n, h), k.d) % k.n;
      Size(s) <= Size(k.n) && |SignatureBlob(k.n, s)| >= 15 && Accepts(k, SignatureBlob(k.n, s)[11..], h)
  {
    hide Em, Pow, BytesToNat, GetInt, SignatureBlob, Size;
    var em := Em(k.n, h);
    EmBelowModulus(k.n, h);
    CongSelfMod(Pow(em, k.d), k.n);
    BlobTail(k.n, Pow(em, k.d) % k.n);
    DistinctPrimesRecover(k, p, q, em);
  }

  // ---------------------------------------------------------- key generation

  /** The random source followed by mp_prime_next_prime: a prime above each number. */
  ghost predicate PrimeOracle(next: nat -> nat) {
    forall x: nat :: Prime(next(x)) && next(x) > x
  }

  /** A drawn buffer with its top bit set. */
  function TopSet(b: seq<byte>): seq<byte>
    requires b != []
  {
    [if b[0] < 128 then b[0] + 128 else b[0]] + b[1..]
  }

  lemma {:induction false} TopBitValue(b: seq<byte>)
    requires b != [] && b[0] >= 128
    ensures BytesToNat(b) >= 128 * Pow(256, |b| - 1)
    decreases |b|
  {
    if |b| == 1 {
      assert b[..0] == [];
      assert BytesToNat(b) == BytesToNat([]) * 256 + b[0];
      assert Pow(256, 0) == 1;
    } else {
      TopBitValue(b[..|b| - 1]);
      assert Pow(256, |b| - 1) == 256 * Pow(256, |b| - 2);
    }
  }

  /** getrsaprime: the first candidate whose predecessor is coprime to e; None when the
      supply of random buffers ends first. */
  method GetRsaPrime(next: nat -> nat, draws: seq<seq<byte>>, e: nat, size: nat)
    returns (r: Option<nat>, used: nat)
    requires PrimeOracle(next)
    requires forall i :: 0 <= i < |draws| ==> |draws[i]| == size + 1
    ensures used <= |draws|
    ensures r.Some? ==> used > 0 && r.value == next(BytesToNat(TopSet(draws[used - 1])))
    ensures r.Some? ==> Prime(r.value) && Gcd(r.value - 1, e) == 1 && r.value > 128 * Pow(256, size)
    ensures forall i :: 0 <= i < (if r.Some? then used - 1 else |draws|) ==>
      Gcd(next(BytesToNat(TopSet(draws[i]))) - 1, e) != 1
  {
    used := 0;
    while used < |draws|
      invariant 0 <= used <= |draws|
      invariant forall i :: 0 <= i < used ==> Gcd(next(BytesToNat(TopSet(draws[i]))) - 1, e) != 1
    {
      var b := TopSet(draws[used]);
      TopBitValue(b);
      var prime := next(BytesToNat(b));
      used := used + 1;
      if Gcd(prime - 1, e) == 1 { return Some(prime), used; }
    }
    return None, used;
  }

  lemma CoprimeProduct(e: nat, a: nat, b: nat)
    requires Gcd(a, e) == 1 && Gcd(b, e) == 1
    ensures Gcd(e, a * b) == 1
  {
    var x, y := ExtGcd(a, e), ExtGcd(b, e);
    var (u, v, s, t) := (x.u, x.v, y.u, y.v);
    assert u * a == 1 - v * e;
    assert s * b == 1 - t * e;
    assert (u * s) * (a * b) == (1 - v * e) * (1 - t * e) by { MulSwap(u, s, a, b); }
    var w := v + t - v * t * e;
    assert (1 - v * e) * (1 - t * e) == 1 - w * e by { ExpandProduct(v, t, e); }
    assert w * e + (u * s) * (a * b) == 1;
    CoprimeFromCombination(e, a * b, w, u * s);
  }

  lemma ExpandProduct(v: int, t: int, e: int)
    ensures (1 - v * e) * (1 - t * e) == 1 - (v + t - v * t * e) * e
  {
    var a, b := v * e, t * e;
    assert (1 - a) * (1 - b) == 1 - a - b + a * b;
    assert (v + t - v * t * e) * e == v * e + t * e - v * t * e * e;
    assert v * t * e * e == (v * e) * (t * e) by { MulSwap(v, t, e, e); MulAssoc(v * t, e, e); }
  }

  lemma CoprimeDivisor(e: nat, m: nat, l: nat)
    requires l > 0 && m % l == 0 && Gcd(e, m) == 1
    ensures Gcd(e, l) == 1
  {
    var x := ExtGcd(e, m);
    var j := m / l;
    assert m == l * j;
    assert x.v * m == (x.v * j) * l by { assert x.v * (l * j) == (x.v * j) * l; }
    CoprimeFromCombination(e, l, x.u, x.v * j);
  }

  /** The least common multiple is a multiple of both, and divides the product. */
  lemma LcmMultiple(a: nat, b: nat)
    requires a > 0 && b > 0
    ensures Lcm(a, b) > 0 && Lcm(a, b) % a == 0 && Lcm(a, b) % b == 0 && (a * b) % Lcm(a, b) == 0
  {
    var g := Gcd(a, b);
    var x, y := a / g, b / g;
    assert a == g * x && b == g * y;
    MulBounds(g, x);
    MulBounds(g, y);
    var l := a * y;
    assert a * b == g * l by { SwapFactors(a, g, y); }
    assert l == b * x by { assert a * y == (g * x) * y; assert b * x == (g * y) * x; assert (g * x) * y == (g * y) * x by { MulAssoc(g, x, y); MulAssoc(g, y, x); } }
    MulBounds(a, y);
    DivideExact(g, l);
    MultipleMod(a, y);
    MultipleMod(b, x);
    MultipleMod(l, g);
    assert l * g == g * l;
  }

  lemma DivideExact(g: nat, l: nat)
    requires g > 0
    ensures g * l / g == l
  {
    MultipleMod(g, l);
    var x := g * l / g;
    assert g * l == g * x + (g * l) % g;
    assert g * (l - x) == 0 by { DistributeLeft(g, l, -x); }
    MulBounds(g, l - x);
  }

  /** A congruence modulo m holds modulo each divisor of m. */
  lemma CongDivisor(a: int, b: int, m: nat, l: nat)
    requires m > 0 && l > 0 && m % l == 0 && Cong(a, b, m)
    ensures Cong(a, b, l)
  {
    var k := CongWitness(a, b, m);
    var j := m / l;
    assert m == l * j;
    MulAssoc(l, j, k);
    AddMultiple(b, l, j * k);
  }

  /** gen_rsa_priv_key. mp_invmod never fails on the primes that getrsaprime lets through,
      so a key is made whenever enough random numbers are supplied. */
  method GenRsaPrivKey(next: nat -> nat, drawsP: seq<seq<byte>>, drawsQ: seq<seq<byte>>, size: nat)
    returns (key: Option<RsaKey>)
    requires PrimeOracle(next)
    requires forall i :: 0 <= i < |drawsP| ==> |drawsP[i]| == size / 2 + 1
    requires forall i :: 0 <= i < |drawsQ| ==> |drawsQ[i]| == size / 2 + 1
    ensures key.Some? ==>
      && key.value.p.Some? && key.value.q.Some? && key.value.e == RSA_E && key.value.d > 0
      && GoodExponents(key.value, key.value.p.value, key.value.q.value)
      && key.value.p.value > 128 * Pow(256, size / 2) && key.value.q.value > 128 * Pow(256, size / 2)
    ensures key.None? ==>
      || (forall i :: 0 <= i < |drawsP| ==> Gcd(next(BytesToNat(TopSet(drawsP[i]))) - 1, RSA_E) != 1)
      || (forall i :: 0 <= i < |drawsQ| ==> Gcd(next(BytesToNat(TopSet(drawsQ[i]))) - 1, RSA_E) != 1)
  {
    hide Pow, BytesToNat, Gcd, Lcm;
    var p, _ := GetRsaPrime(next, drawsP, RSA_E, size / 2);
    if p.None? { return None; }
    var q, _ := GetRsaPrime(next, drawsQ, RSA_E, size / 2);
    if q.None? { return None; }
    var n := p.value * q.value;
    var pminus, qminus := p.value - 1, q.value - 1;
    PrivateExponent(RSA_E, pminus, qminus);
    var d := InvMod(RSA_E, Lcm(pminus, qminus));
    assert d.value > 0 by { InverseNotZero(RSA_E, d.value, pminus, p.value, size / 2); }
    return Some(RsaKey(n, RSA_E, d.value, p, q));
  }

  /** The inverse of e modulo the least common multiple exists, and is one modulo each part. */
  lemma PrivateExponent(e: nat, a: nat, b: nat)
    requires a > 0 && b > 0 && Gcd(a, e) == 1 && Gcd(b, e) == 1
    ensures Lcm(a, b) > 0 && InvMod(e, Lcm(a, b)).Some?
    ensures var d := InvMod(e, Lcm(a, b)).value; (e * d) % a == 1 % a && (e * d) % b == 1 % b
  {
    var l := Lcm(a, b);
    LcmMultiple(a, b);
    CoprimeProduct(e, a, b);
    CoprimeDivisor(e, a * b, l);
    var d := InvMod(e, l).value;
    assert Cong(e * d, 1, l);
    CongDivisor(e * d, 1, l, a);
    CongDivisor(e * d, 1, l, b);
  }

  lemma InverseNotZero(e: nat, d: nat, m: nat, p: nat, h: nat)
    requires p > 128 * Pow(256, h) && m == p - 1 && (e * d) % m == 1 % m
    ensures d > 0
  {
    assert m >= 128;
    ModIdem(1, m);
    if d == 0 { ModIdem(0, m); }
  }

  lemma ProductBound(p: nat, q: nat, b: nat)
    requires p > b && q > b
    ensures p * q > b * b
  {
    MulBounds(p, q - b);
    assert p * q == p * b + p * (q - b) by { DistributeLeft(p, b, q - b); }
    assert p * b >= b * b by { DistributeRight(p - b, b, b); }
  }

  lemma ProductOfPowers(p: nat, q: nat, b: nat, h: nat, c: nat)
    requires b == 256 && h + h + 1 >= c && p > 128 * Pow(b, h) && q > 128 * Pow(b, h)
    ensures p * q > Pow(b, c)
  {
    var t := Pow(b, h);
    ProductBound(p, q, 128 * t);
    assert (128 * t) * (128 * t) == 16384 * (t * t) by { MulSwap(128, t, 128, t); }
    PowAdd(b, h, h);
    assert Pow(b, h + h + 1) == b * Pow(b, h + h);
    PowAdd(b, c, h + h + 1 - c);
    MulBounds(Pow(b, c), Pow(b, h + h + 1 - c));
  }

  /** A generated key of at least 36 bytes has room for the padding. */
  lemma GeneratedSizeSuffices(p: nat, q: nat, h: nat, c: nat)
    requires h >= 18 && c == 37 && p > 128 * Pow(256, h) && q > 128 * Pow(256, h)
    ensures Size(p * q) >= 38
  {
    ProductOfPowers(p, q, 256, h, c);
    NatSize(p * q, c);
  }

  /** Every message signed with a generated key of distinct primes verifies, for every
      blinding value that has an inverse; no other outcome is possible. */
  method SignThenVerify(k: RsaKey, data: seq<byte>, sha1: seq<byte> -> Digest, r: nat, h: nat) returns (v: Verdict)
    requires k.p.Some? && k.q.Some? && GoodExponents(k, k.p.value, k.q.value) && k.d > 0
    requires k.p.value > 128 * Pow(256, h) && k.q.value > 128 * Pow(256, h) && h >= 18
    requires k.p != k.q && Size(k.n) < WORD
    ensures v == if Gcd(r, k.n) == 1 then Success else Exited
  {
    GeneratedSizeSuffices(k.p.value, k.q.value, h, 37);
    var sig := Sign(k, data, sha1, r);
    if sig.None? { return Exited; }
    EmittedAccepted(k, k.p.value, k.q.value, sha1(data));
    v := Verify(k, sig.value[11..], data, sha1);
  }
}
