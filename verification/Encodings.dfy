/**
  The encodings against their standards: values in big-endian order, the examples of RFC 4251, the
  order of the fields of keys, and what the decoders make of any bytes.
*/
module Encodings {
  import opened Wrappers
  import opened Bytes
  import opened NumberTheory
  import opened Rsa
  import opened Dss
  import opened KeyCodec
  import opened OpenSsh

  // -------------------------------------------------------------- big-endian

  /** The first byte counts most. */
  lemma {:induction false} FirstByteHighest(x: byte, b: seq<byte>)
    ensures BytesToNat([x] + b) == x * Pow(256, |b|) + BytesToNat(b)
    decreases |b|
  {
    if b == [] {
      assert [x] + b == [x] && [x][..0] == [];
    } else {
      var k := |b| - 1;
      assert ([x] + b)[..k + 1] == [x] + b[..k] && ([x] + b)[k + 1] == b[k];
      FirstByteHighest(x, b[..k]);
      assert Pow(256, k + 1) == 256 * Pow(256, k);
      SwapFactors(x, 256, Pow(256, k));
    }
  }

  lemma WordBytes(n: uint32)
    ensures var b := PutInt(n); b[0] as int * 0x1000000 + b[1] as int * 0x10000 + b[2] as int * 0x100 + b[3] as int == n
    ensures PutInt(0x01020304) == [1, 2, 3, 4]
  {
    var b := PutInt(n);
    assert b[0] as int * 256 + b[1] as int == n / 256 / 256;
    assert (n / 256 / 256) * 256 + b[2] as int == n / 256;
  }

  /** The examples of section 5 of RFC 4251: zero, 9a378f9b2e332a7 and 80 hexadecimal, and the
      string "testing". */
  lemma Examples()
    ensures Mpint(0) == [0, 0, 0, 0]
    ensures Mpint(0x9a378f9b2e332a7) == [0, 0, 0, 8, 0x09, 0xa3, 0x78, 0xf9, 0xb2, 0xe3, 0x32, 0xa7]
    ensures Mpint(0x80) == [0, 0, 0, 2, 0, 0x80]
    ensures PutString(Ascii("testing")) == [0, 0, 0, 7] + Ascii("testing")
  {
    hide Mpint, PutString;
    MpintIs(0, []);
    LongExample();
    MpintIs(0x9a378f9b2e332a7, [0x09, 0xa3, 0x78, 0xf9, 0xb2, 0xe3, 0x32, 0xa7]);
    OneMoreByte(0, NatToBytes(0), 0x80);
    MpintIs(0x80, [0x80]);
    StringIs(Ascii("testing"));
  }

  lemma StringIs(s: seq<byte>)
    requires |s| < 256
    ensures PutString(s) == [0, 0, 0, |s|] + s
  {
    ModIdem(|s|, WORD);
  }

  /** The encoding of a number from its shortest bytes. */
  lemma MpintIs(n: nat, m: seq<byte>)
    requires NatToBytes(n) == m && |m| < 200
    ensures Mpint(n) == if n > 0 && m[0] >= 128 then [0, 0, 0, |m| + 1, 0] + m else [0, 0, 0, |m|] + m
  {
    hide NatToBytes, PutString;
    var b := MpintBody(n);
    StringIs(b);
    if n > 0 && m[0] >= 128 { assert [0, 0, 0, |m| + 1] + ([0] + m) == [0, 0, 0, |m| + 1, 0] + m; }
  }

  lemma OneMoreByte(n: nat, b: seq<byte>, x: byte)
    requires NatToBytes(n) == b && (n > 0 || x > 0)
    ensures NatToBytes(256 * n + x) == b + [x]
  {
  }

  lemma LongExample()
    ensures NatToBytes(0x9a378f9b2e332a7) == [0x09, 0xa3, 0x78, 0xf9, 0xb2, 0xe3, 0x32, 0xa7]
  {
    hide NatToBytes;
    OneMoreByte(0, NatToBytes(0), 0x09);
    OneMoreByte(0x09, [0x09], 0xa3);
    OneMoreByte(0x09a3, [0x09, 0xa3], 0x78);
    OneMoreByte(0x09a378, [0x09, 0xa3, 0x78], 0xf9);
    OneMoreByte(0x09a378f9, [0x09, 0xa3, 0x78, 0xf9], 0xb2);
    OneMoreByte(0x09a378f9b2, [0x09, 0xa3, 0x78, 0xf9, 0xb2], 0xe3);
    OneMoreByte(0x09a378f9b2e3, [0x09, 0xa3, 0x78, 0xf9, 0xb2, 0xe3], 0x32);
    OneMoreByte(0x09a378f9b2e332, [0x09, 0xa3, 0x78, 0xf9, 0xb2, 0xe3, 0x32], 0xa7);
  }

  // ---------------------------------------------------------- any bytes at all

  /** What buf_getmpint makes of any bytes: a number exactly when the length is within the limit and
      there, and the sign bit is clear; a failure when it is too long or negative; else an exit. */
  lemma MpintOfAny(b: seq<byte>)
    ensures |b| < 4 ==> GetMpint(b).Gone?
    ensures |b| >= 4 ==>
      var len, r := GetInt(b), GetMpint(b);
      && (r.Got? <==> len == 0 || (len <= 1030 && 4 + len <= |b| && b[4] < 128))
      && (r.Bad? <==> len > 1030 || (len > 0 && |b| > 4 && b[4] >= 128))
      && (r.Got? ==> r.value == BytesToNat(b[4..4 + len]) && b == b[..4 + len] + r.rest && |r.rest| == |b| - 4 - len)
  {
  }

  /** buf_getstring: the string exactly when it is at most 1400 bytes long and there; else an exit. */
  lemma StringOfAny(b: seq<byte>)
    ensures |b| < 4 ==> GetString(b).Gone?
    ensures |b| >= 4 ==>
      var len, r := GetInt(b), GetString(b);
      && (if len <= 1400 && 4 + len <= |b| then r == Got(b[4..4 + len], b[4 + len..]) else r.Gone?)
  {
  }

  /** A modulus is long enough from 512 bits on. */
  lemma LongEnoughIff(n: nat)
    ensures LongEnough(n) <==> n >= 128 * Pow(256, 63)
  {
    LongIs(n, 64);
  }

  lemma LongIs(n: nat, k: nat)
    requires k > 0
    ensures var m := NatToBytes(n); |m| > k || (|m| == k && m[0] >= 128) <==> n >= 128 * Pow(256, k - 1)
  {
    hide NatToBytes, BytesToNat, Pow;
    NatSize(n, k);
    NatSize(n, k - 1);
    NatRoundTrip(n);
    var m := NatToBytes(n);
    assert Pow(256, k) == 256 * Pow(256, k - 1) by { OnePower(k); }
    if |m| == k {
      if m[0] >= 128 { TopBitValue(m); } else { BelowTopBit(m); }
    }
  }

  lemma OnePower(k: nat)
    requires k > 0
    ensures Pow(256, k) == 256 * Pow(256, k - 1)
  {
  }

  /** A private key of too short a modulus is refused, whatever else it holds. */
  lemma ShortRefused(e: nat, n: nat, rest: seq<byte>)
    requires KeyCodec.Fits(e) && KeyCodec.Fits(n) && !LongEnough(n)
    ensures GetRsa(Mpint(e) + (Mpint(n) + rest)) == Bad
  {
    MpintRoundTrip(e, Mpint(n) + rest);
    MpintRoundTrip(n, rest);
    hide GetMpint, Mpint;
  }

  // ------------------------------------------------------------ key layouts

  /** A private key is the public key of section 6.6 of RFC 4253, "ssh-rsa", e and n, or "ssh-dss", p, q,
      g and y, with the private numbers after it. */
  lemma KeyLayout(k: Key)
    ensures match k
      case KRsa(r) =>
        && Ascii("ssh-rsa") == SSH_SIGNKEY_RSA
        && [0, 0, 0, 7] + Ascii("ssh-rsa") + Mpint(r.e) + Mpint(r.n) <= PutPrivKey(k)
        && PutPrivKey(k) == [0, 0, 0, 7] + Ascii("ssh-rsa") + Mpint(r.e) + Mpint(r.n) + Mpint(r.d)
                            + (if r.p.Some? then Mpint(r.p.value) else []) + (if r.q.Some? then Mpint(r.q.value) else [])
      case KDss(d) =>
        && Ascii("ssh-dss") == SSH_SIGNKEY_DSS
        && [0, 0, 0, 7] + Ascii("ssh-dss") + Mpint(d.p) + Mpint(d.q) + Mpint(d.g) + Mpint(d.y) <= PutPrivKey(k)
        && PutPrivKey(k) == [0, 0, 0, 7] + Ascii("ssh-dss") + Mpint(d.p) + Mpint(d.q) + Mpint(d.g) + Mpint(d.y) + Mpint(d.x)
  {
    hide Mpint;
    assert PutString(SSH_SIGNKEY_RSA) == [0, 0, 0, 7] + SSH_SIGNKEY_RSA;
    assert PutString(SSH_SIGNKEY_DSS) == [0, 0, 0, 7] + SSH_SIGNKEY_DSS;
    match k
    case KRsa(r) => Regrouped([0, 0, 0, 7] + SSH_SIGNKEY_RSA, Mpint(r.e), Mpint(r.n), Mpint(r.d), OptMpint(r.p), OptMpint(r.q));
    case KDss(d) => Regrouped([0, 0, 0, 7] + SSH_SIGNKEY_DSS, Mpint(d.p), Mpint(d.q), Mpint(d.g), Mpint(d.y), Mpint(d.x));
  }

  lemma Regrouped(a: seq<byte>, b: seq<byte>, c: seq<byte>, d: seq<byte>, e: seq<byte>, f: seq<byte>)
    ensures a + (b + (c + (d + (e + f)))) == a + b + c + d + e + f
    ensures a + b + c <= a + b + c + d + e + f && a + b + c + d + e <= a + b + c + d + e + f
  {
  }

  /** An OpenSSH RSA key holds the numbers of RSAPrivateKey (appendix A.1.2 of RFC 3447) in their order:
      version 0, n, e, d, p, q, d reduced modulo p - 1 and q - 1, and the inverse of q modulo p. */
  lemma RsaNumbers(r: RsaKey)
    requires r.p.Some? && r.q.Some? && r.p.value > 1 && r.q.value > 1
    ensures var (p, q, ns) := (r.p.value, r.q.value, Numbers(KRsa(r)));
      && (ns.Some? <==> Gcd(q, p) == 1)
      && (ns.Some? ==>
            var v := ns.value;
            && |v| == 9 && BytesToNat(v[0]) == 0 && v[0] != [] && BytesToNat(v[1]) == r.n && BytesToNat(v[2]) == r.e
            && BytesToNat(v[3]) == r.d && BytesToNat(v[4]) == p && BytesToNat(v[5]) == q
            && BytesToNat(v[6]) < p - 1 && Cong(BytesToNat(v[6]), r.d, p - 1)
            && BytesToNat(v[7]) < q - 1 && Cong(BytesToNat(v[7]), r.d, q - 1)
            && BytesToNat(v[8]) < p && (q * BytesToNat(v[8])) % p == 1)
  {
    var (p, q) := (r.p.value, r.q.value);
    Listed(r);
    hide *;
    if Numbers(KRsa(r)).Some? {
      MpintBodyValue(r.n);
      MpintBodyValue(r.e);
      MpintBodyValue(r.d);
      MpintBodyValue(p);
      MpintBodyValue(q);
      Reduced(r.d, p - 1);
      Reduced(r.d, q - 1);
      InverseValue(q, p);
      ZeroByte();
    }
  }

  lemma Listed(r: RsaKey)
    requires r.p.Some? && r.q.Some? && r.p.value > 1 && r.q.value > 1
    ensures var (p, q, ns) := (r.p.value, r.q.value, Numbers(KRsa(r)));
      && (ns.Some? <==> Gcd(q, p) == 1) && (ns.Some? ==> InvMod(q, p).Some?)
      && (ns.Some? ==>
            var v := ns.value;
            && |v| == 9 && v[0] == [0] && v[1] == MpintBody(r.n) && v[2] == MpintBody(r.e) && v[3] == MpintBody(r.d)
            && v[4] == MpintBody(p) && v[5] == MpintBody(q) && v[6] == MpintBody(r.d % (p - 1)) && v[7] == MpintBody(r.d % (q - 1))
            && v[8] == MpintBody(InvMod(q, p).value))
  {
    hide MpintBody;
  }

  lemma Reduced(d: nat, m: nat)
    requires m > 0
    ensures d % m >= 0 && BytesToNat(MpintBody(d % m)) < m && Cong(BytesToNat(MpintBody(d % m)), d, m)
  {
    hide MpintBody, BytesToNat;
    MpintBodyValue(d % m);
    CongSelfMod(d, m);
  }

  lemma InverseValue(q: nat, p: nat)
    requires p > 1 && InvMod(q, p).Some?
    ensures var x := BytesToNat(MpintBody(InvMod(q, p).value)); x < p && (q * x) % p == 1
  {
    hide MpintBody, BytesToNat;
    MpintBodyValue(InvMod(q, p).value);
    ModIdem(1, p);
  }

  lemma ZeroByte()
    ensures BytesToNat([0]) == 0
  {
    assert [0][..0] == [];
  }

  /** A DSS key holds version 0, p, q, g, y and x. */
  lemma DssNumbers(d: DssKey)
    ensures var ns := Numbers(KDss(d));
      && ns.Some? && |ns.value| == 6 && BytesToNat(ns.value[0]) == 0 && ns.value[0] != []
      && BytesToNat(ns.value[1]) == d.p && BytesToNat(ns.value[2]) == d.q && BytesToNat(ns.value[3]) == d.g
      && BytesToNat(ns.value[4]) == d.y && BytesToNat(ns.value[5]) == d.x
  {
    hide MpintBody, BytesToNat;
    ZeroByte();
    MpintBodyValue(d.p);
    MpintBodyValue(d.q);
    MpintBodyValue(d.g);
    MpintBodyValue(d.y);
    MpintBodyValue(d.x);
  }

  /** DER, by example (sections 8.3 and 8.9 of X.690): a sequence of the integers 0 and 5; and a length of
      300, which takes two bytes after the one that counts them. */
  lemma DerExamples()
    ensures Blob([[0], [5]]) == [0x30, 6, 2, 1, 0, 2, 1, 5]
    ensures BerHeader(4, 300, 0) == [4, 0x82, 1, 44]
  {
    assert [[0], [5]][1..] == [[5]] && [[5]][1..] == [];
    assert Integers([[5]]) == [2, 1, 5];
    assert NatToBytes(300) == [1, 44] by { assert NatToBytes(1) == [1] by { assert NatToBytes(0) == []; } }
  }
}
