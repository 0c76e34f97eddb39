/**
  What a signature must be to be accepted, whoever made it: the equations of RFC 2437 and FIPS 186,
  and that an RSA signature speaks for one digest only.
*/
module Verifying {
  import opened Wrappers
  import opened Bytes
  import opened NumberTheory
  import opened Rsa
  import opened Dss
  import opened KeyCodec
  import opened SignKey

  // --------------------------------------------------------------------- RSA

  /** Byte strings of one length with one value are the same. */
  lemma {:induction false} SameBytes(a: seq<byte>, b: seq<byte>)
    requires |a| == |b| && BytesToNat(a) == BytesToNat(b)
    ensures a == b
    decreases |a|
  {
    if a != [] {
      var k := |a| - 1;
      var u, v := BytesToNat(a[..k]), BytesToNat(b[..k]);
      assert u * 256 + a[k] == v * 256 + b[k];
      assert u == v && a[k] == b[k];
      SameBytes(a[..k], b[..k]);
      assert a == a[..k] + [a[k]] && b == b[..k] + [b[k]];
    }
  }

  /** A string is accepted under an RSA key if and only if it announces the size of the modulus, is a
      number below it, and its e-th power is the padding of the digest, of one byte less. */
  lemma RsaAcceptsIff(k: RsaKey, buf: seq<byte>, h: Digest)
    ensures Accepts(k, buf, h) <==>
      && |buf| >= 4 && GetInt(buf) == Size(k.n) && BytesToNat(buf[4..]) < k.n && Size(k.n) >= 38
      && exists em :: Encoded(em, Size(k.n) - 1, h) && BytesToNat(em) == Pow(BytesToNat(buf[4..]), k.e) % k.n
  {
    hide Encoded, BytesToNat, Pow, GetInt, Size;
    if Size(k.n) >= 38 {
      var len := Size(k.n) - 1;
      var em := [1] + seq(len - 37, i => 0xff) + (ASN1_MAGIC + h);
      assert seq(Size(k.n) - 38, i => 0xff) == seq(len - 37, i => 0xff);
      PaddedIsEncoded(len, h);
      assert BytesToNat(em) == Em(k.n, h);
      forall em1 | Encoded(em1, len, h) ensures em1 == em { EncodedUnique(em1, em, len, h); }
    }
  }

  /** No RSA signature is accepted for two digests. */
  lemma OneDigest(k: RsaKey, buf: seq<byte>, h: Digest, h1: Digest)
    requires Accepts(k, buf, h) && Accepts(k, buf, h1)
    ensures h == h1
  {
    hide BytesToNat, Pow, GetInt, Size;
    var len := Size(k.n) - 1;
    var a, b := [1] + seq(len - 37, i => 0xff) + (ASN1_MAGIC + h), [1] + seq(len - 37, i => 0xff) + (ASN1_MAGIC + h1);
    assert seq(Size(k.n) - 38, i => 0xff) == seq(len - 37, i => 0xff);
    assert BytesToNat(a) == Em(k.n, h) == BytesToNat(b);
    SameBytes(a, b);
    assert a[len - 20..] == h && b[len - 20..] == h1;
  }

  // --------------------------------------------------------------------- DSS

  lemma InverseUnique(s: nat, w: nat, v: nat, q: nat)
    requires q > 0 && w < q && v < q && (s * w) % q == 1 % q && (s * v) % q == 1 % q
    ensures w == v
  {
    CongMulLeft(s * w, 1, v, q);
    CongMulLeft(s * v, 1, w, q);
    assert (s * w) * v == (s * v) * w by { MulAssoc(s, w, v); MulAssoc(s, v, w); assert w * v == v * w; }
    assert (1 * v) % q == (1 * w) % q;
    ModIdem(v, q);
    ModIdem(w, q);
  }

  /** A string is accepted under a DSS key if and only if it is 40 bytes r and s, both below q, and with w the
      inverse of s, the product of g to the power m w and y to the power r w, modulo p and then q,
      is r. */
  lemma DssAcceptsIff(key: DssKey, rs: seq<byte>, h: Digest)
    requires key.p > 0 && key.q > 0
    ensures DssAccepts(key, rs, h) <==>
      && |rs| == 40 && BytesToNat(rs[..20]) < key.q && BytesToNat(rs[20..]) < key.q
      && Solved(key, BytesToNat(h), BytesToNat(rs[..20]), BytesToNat(rs[20..]))
  {
    hide BytesToNat, InvMod, Solved, CheckV;
    if |rs| == 40 { ByInverse(key, BytesToNat(h), BytesToNat(rs[..20]), BytesToNat(rs[20..])); }
  }

  lemma ByInverse(key: DssKey, m: nat, r: nat, s: nat)
    requires key.p > 0 && key.q > 0
    ensures (InvMod(s, key.q).Some? && CheckV(key, m, r, InvMod(s, key.q).value) == r)
      <==> Solved(key, m, r, s)
  {
    hide InvMod, Fips, CheckV;
    if InvMod(s, key.q).Some? {
      var v := InvMod(s, key.q).value;
      InverseExists(key, m, r, s);
      forall w: nat | w < key.q && Fips(key, m, r, s, w) ensures w == v { OnlyInverse(key, m, r, s, v, w); }
    } else {
      forall w: nat | w < key.q ensures !Fips(key, m, r, s, w) { NoInverse(key, m, r, s, w); }
    }
  }

  ghost predicate Solved(key: DssKey, m: nat, r: nat, s: nat)
    requires key.p > 0 && key.q > 0
  {
    exists w: nat :: w < key.q && Fips(key, m, r, s, w)
  }

  /** Steps 2 to 5 of section 4.7 of FIPS 186-4, for a w that is the inverse of s. */
  predicate Fips(key: DssKey, m: nat, r: nat, s: nat, w: nat)
    requires key.p > 0 && key.q > 0
  {
    && (s * w) % key.q == 1 % key.q
    && ((Pow(key.g, (m * w) % key.q) * Pow(key.y, (r * w) % key.q)) % key.p) % key.q == r
  }

  lemma InverseExists(key: DssKey, m: nat, r: nat, s: nat)
    requires key.p > 0 && key.q > 0 && InvMod(s, key.q).Some?
    ensures var v := InvMod(s, key.q).value; v < key.q && (Fips(key, m, r, s, v) <==> CheckV(key, m, r, v) == r)
  {
    var v := InvMod(s, key.q).value;
    assert v < key.q && (s * v) % key.q == 1 % key.q;
    FipsIs(key, m, r, s, v);
  }

  lemma OnlyInverse(key: DssKey, m: nat, r: nat, s: nat, v: nat, w: nat)
    requires key.p > 0 && key.q > 0 && InvMod(s, key.q) == Some(v) && w < key.q && Fips(key, m, r, s, w)
    ensures w == v
  {
    InverseUnique(s, w, v, key.q);
  }

  lemma NoInverse(key: DssKey, m: nat, r: nat, s: nat, w: nat)
    requires key.p > 0 && key.q > 0 && InvMod(s, key.q).None?
    ensures !Fips(key, m, r, s, w)
  {
    if Fips(key, m, r, s, w) { InverseMeansCoprime(s, w, key.q); }
  }

  lemma FipsIs(key: DssKey, m: nat, r: nat, s: nat, w: nat)
    requires key.p > 0 && key.q > 0 && (s * w) % key.q == 1 % key.q
    ensures Fips(key, m, r, s, w) <==> CheckV(key, m, r, w) == r
  {
    hide Pow;
    var a, b := Pow(key.g, (m * w) % key.q), Pow(key.y, (r * w) % key.q);
    CongSelfMod(a, key.p);
    CongSelfMod(b, key.p);
    CongMul(a % key.p, a, b % key.p, b, key.p);
  }

  // ------------------------------------------------------------ the wrapping

  /** A wrapped signature is accepted only if one of the keys accepts what is in it. */
  lemma AcceptedBySomeKey(k: Keys, buf: seq<byte>, h: Digest)
    requires k.dss.Some? ==> k.dss.value.p > 0 && k.dss.value.q > 0
    requires BufVerify(k, buf, h) == Success
    ensures (k.dss.Some? && exists rs :: DssAccepts(k.dss.value, rs, h)) || (k.rsa.Some? && exists rest :: Accepts(k.rsa.value, rest, h))
  {
    hide DssAccepts, Accepts, GetString, GetInt, Size, BytesToNat;
  }
}
