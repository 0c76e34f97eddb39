/**
  SSH strings, multiple precision integers and private key blobs as byte strings: what the
  functions of buffer.c, rsa.c, dss.c and signkey.c write, and what they make of what they read.
*/
module KeyCodec {
  import opened Wrappers
  import opened Bytes
  import opened NumberTheory
  import opened Rsa
  import opened Dss

  const BUF_MAX_MPINT: nat := 1030
  const MAX_STRING_LEN: nat := 1400

  /** A value and the bytes after it; DROPBEAR_FAILURE; or an exit for want of bytes. */
  datatype Parsed<T> = Got(value: T, rest: seq<byte>) | Bad | Gone

  // ------------------------------------------------------------------ mpints

  /** buf_getmpint. */
  function GetMpint(b: seq<byte>): Parsed<nat> {
    if |b| < 4 then Gone
    else
      var len := GetInt(b);
      if len == 0 then Got(0, b[4..])
      else if len > BUF_MAX_MPINT then Bad
      else if |b| < 5 then Gone
      else if b[4] >= 128 then Bad
      else if |b| < 4 + len then Gone
      else Got(BytesToNat(b[4..4 + len]), b[4 + len..])
  }

  /** The encoding is at most k bytes long exactly when the number has at most 8k - 1 bits. */
  lemma BodySize(n: nat, k: nat)
    requires k > 0
    ensures |MpintBody(n)| <= k <==> n < 128 * Pow(256, k - 1)
  {
    NatSize(n, k);
    NatSize(n, k - 1);
    var m := NatToBytes(n);
    assert Pow(256, k) == 256 * Pow(256, k - 1);
    if |m| == k {
      NatRoundTrip(n);
      if m[0] >= 128 { TopBitValue(m); } else { BelowTopBit(m); }
    }
  }

  lemma BelowTopBit(b: seq<byte>)
    requires b != [] && b[0] < 128
    ensures BytesToNat(b) < 128 * Pow(256, |b| - 1)
  {
    TopByte(b);
    Monotone(b[0] + 1, 128, Pow(256, |b| - 1));
  }

  /** Every number that fits round-trips. */
  lemma MpintRoundTrip(n: nat, rest: seq<byte>)
    requires |MpintBody(n)| <= BUF_MAX_MPINT
    ensures GetMpint(Mpint(n) + rest) == Got(n, rest)
  {
    var m := MpintBody(n);
    ModIdem(|m|, WORD);
    var b := Mpint(n) + rest;
    assert b == PutInt(|m|) + (m + rest);
    IntRoundTrip(|m|, m + rest);
    MpintBodyValue(n);
    hide GetInt, MpintBody;
    assert b[4..] == m + rest;
    if n > 0 { assert b[4] == m[0] && b[4..4 + |m|] == m && b[4 + |m|..] == rest; } else { assert m + rest == rest; }
  }

  /** In particular every number of at most 8239 bits, and no larger one. */
  lemma MpintLimit(n: nat, c: nat)
    requires c == 1029
    ensures |MpintBody(n)| <= BUF_MAX_MPINT <==> n < 128 * Pow(256, c)
  {
    BodySize(n, c + 1);
  }

  /** The encoding is the shortest with a clear top bit. */
  lemma MpintShortest(n: nat, b: seq<byte>)
    requires n > 0 && b != [] && b[0] < 128 && BytesToNat(b) == n
    ensures |MpintBody(n)| <= |b| && MpintBody(n)[0] < 128
  {
    BelowTopBit(b);
    BodySize(n, |b|);
  }

  // ----------------------------------------------------------------- strings

  /** buf_getstring. */
  function GetString(b: seq<byte>): Parsed<seq<byte>> {
    if |b| < 4 then Gone
    else
      var len := GetInt(b);
      if len > MAX_STRING_LEN || |b| < 4 + len then Gone
      else Got(b[4..4 + len], b[4 + len..])
  }

  lemma StringRoundTrip(s: seq<byte>, rest: seq<byte>)
    requires |s| <= MAX_STRING_LEN
    ensures GetString(PutString(s) + rest) == Got(s, rest)
  {
    ModIdem(|s|, WORD);
    var b := PutString(s) + rest;
    assert b == PutInt(|s|) + (s + rest);
    IntRoundTrip(|s|, s + rest);
    assert b[4..4 + |s|] == s && b[4 + |s|..] == rest;
  }

  // --------------------------------------------------------------- key blobs

  datatype Key = KRsa(rsa: RsaKey) | KDss(dss: DssKey)

  datatype KeyType = AnyType | RsaType | DssType

  function TypeOf(k: Key): KeyType { if k.KRsa? then RsaType else DssType }

  function OptMpint(x: Option<nat>): seq<byte> { if x.Some? then Mpint(x.value) else [] }

  /** buf_put_rsa_priv_key and buf_put_dss_priv_key. */
  function PutPrivKey(k: Key): seq<byte> {
    match k
    case KRsa(r) =>
      PutString(SSH_SIGNKEY_RSA) + (Mpint(r.e) + (Mpint(r.n) + (Mpint(r.d) + (OptMpint(r.p) + OptMpint(r.q)))))
    case KDss(d) =>
      PutString(SSH_SIGNKEY_DSS) + (Mpint(d.p) + (Mpint(d.q) + (Mpint(d.g) + (Mpint(d.y) + Mpint(d.x)))))
  }

  /** mp_count_bits(n) >= 512. */
  predicate LongEnough(n: nat) { Size(n) > 64 || (Size(n) == 64 && NatToBytes(n)[0] >= 128) }

  /** buf_get_rsa_priv_key, after the name. */
  function GetRsa(b: seq<byte>): Parsed<Key> {
    match GetMpint(b)
    case Bad => Bad
    case Gone => Gone
    case Got(e, b1) =>
      match GetMpint(b1)
      case Bad => Bad
      case Gone => Gone
      case Got(n, b2) =>
        if !LongEnough(n) then Bad
        else
          match GetMpint(b2)
          case Bad => Bad
          case Gone => Gone
          case Got(d, b3) => GetPrimes(RsaKey(n, e, d, None, None), b3)
  }

  /** Old blobs end after d. */
  function GetPrimes(k: RsaKey, b: seq<byte>): Parsed<Key> {
    if b == [] then Got(KRsa(k), b)
    else
      match GetMpint(b)
      case Bad => Bad
      case Gone => Gone
      case Got(p, b1) =>
        match GetMpint(b1)
        case Bad => Bad
        case Gone => Gone
        case Got(q, b2) => Got(KRsa(k.(p := Some(p), q := Some(q))), b2)
  }

  /** buf_get_dss_priv_key, after the name: the prime's size is checked before x is read. */
  function GetDss(b: seq<byte>): Parsed<Key> {
    match GetMpint(b)
    case Bad => Bad
    case Gone => Gone
    case Got(p, b1) =>
      match GetMpint(b1)
      case Bad => Bad
      case Gone => Gone
      case Got(q, b2) => GetDssRest(p, q, b2)
  }

  function GetDssRest(p: nat, q: nat, b: seq<byte>): Parsed<Key> {
    match GetMpint(b)
    case Bad => Bad
    case Gone => Gone
    case Got(g, b1) =>
      match GetMpint(b1)
      case Bad => Bad
      case Gone => Gone
      case Got(y, b2) =>
        if !LongEnough(p) then Bad
        else
          match GetMpint(b2)
          case Bad => Bad
          case Gone => Gone
          case Got(x, b3) => Got(KDss(DssKey(p, q, g, y, x)), b3)
  }

  /** buf_get_priv_key. */
  function GetPrivKey(b: seq<byte>, want: KeyType): Parsed<Key> {
    match GetString(b)
    case Bad => Bad
    case Gone => Gone
    case Got(name, rest) =>
      if name == SSH_SIGNKEY_RSA then (if want == DssType then Bad else GetRsa(rest))
      else if name == SSH_SIGNKEY_DSS then (if want == RsaType then Bad else GetDss(rest))
      else Bad
  }

  predicate Fits(n: nat) { |MpintBody(n)| <= BUF_MAX_MPINT }

  predicate FitsOpt(x: Option<nat>) { x.Some? ==> Fits(x.value) }

  /** Numbers within the limit, and a modulus of at least 512 bits. */
  predicate Storable(k: Key) {
    match k
    case KRsa(r) => Fits(r.e) && Fits(r.n) && Fits(r.d) && FitsOpt(r.p) && FitsOpt(r.q) && LongEnough(r.n)
    case KDss(d) => Fits(d.p) && Fits(d.q) && Fits(d.g) && Fits(d.y) && Fits(d.x) && LongEnough(d.p)
  }

  lemma DssBlobRoundTrip(d: DssKey)
    requires Storable(KDss(d))
    ensures GetDss(Mpint(d.p) + (Mpint(d.q) + (Mpint(d.g) + (Mpint(d.y) + Mpint(d.x))))) == Got(KDss(d), [])
  {
    hide GetMpint, LongEnough, MpintBody, Mpint;
    assert Mpint(d.x) + [] == Mpint(d.x);
    MpintRoundTrip(d.x, []);
    MpintRoundTrip(d.y, Mpint(d.x));
    MpintRoundTrip(d.g, Mpint(d.y) + Mpint(d.x));
    MpintRoundTrip(d.q, Mpint(d.g) + (Mpint(d.y) + Mpint(d.x)));
    MpintRoundTrip(d.p, Mpint(d.q) + (Mpint(d.g) + (Mpint(d.y) + Mpint(d.x))));
  }

  lemma PrimesRoundTrip(k: RsaKey)
    requires FitsOpt(k.p) && FitsOpt(k.q)
    ensures var b := OptMpint(k.p) + OptMpint(k.q); var r := GetPrimes(k.(p := None, q := None), b);
      if k.p.Some? == k.q.Some? then r == Got(KRsa(k), []) else r == Gone
  {
    hide GetMpint, MpintBody;
    var b := OptMpint(k.p) + OptMpint(k.q);
    assert GetMpint([]) == Gone by { EmptyGone(); }
    if k.p.Some? {
      MpintRoundTrip(k.p.value, OptMpint(k.q));
    }
    if k.q.Some? {
      MpintRoundTrip(k.q.value, []);
      assert Mpint(k.q.value) + [] == Mpint(k.q.value) && [] + Mpint(k.q.value) == Mpint(k.q.value);
    }
  }

  lemma EmptyGone()
    ensures GetMpint([]) == Gone
  {
  }

  lemma RsaBlobRoundTrip(r: RsaKey)
    requires Storable(KRsa(r))
    ensures var b := Mpint(r.e) + (Mpint(r.n) + (Mpint(r.d) + (OptMpint(r.p) + OptMpint(r.q))));
      GetRsa(b) == if r.p.Some? == r.q.Some? then Got(KRsa(r), []) else Gone
  {
    hide GetMpint, LongEnough, MpintBody, Mpint, GetPrimes, OptMpint;
    var t := OptMpint(r.p) + OptMpint(r.q);
    MpintRoundTrip(r.d, t);
    MpintRoundTrip(r.n, Mpint(r.d) + t);
    MpintRoundTrip(r.e, Mpint(r.n) + (Mpint(r.d) + t));
    PrimesRoundTrip(r);
    assert r.(p := None, q := None) == RsaKey(r.n, r.e, r.d, None, None);
  }

  /** A private key survives being written and read back, whole blob for whole blob, exactly
      when it is a DSS key or an RSA key with both or neither of its primes. */
  lemma PrivKeyRoundTrip(k: Key, want: KeyType)
    requires Storable(k) && (want == AnyType || want == TypeOf(k))
    ensures GetPrivKey(PutPrivKey(k), want) == Got(k, []) <==> (k.KRsa? ==> k.rsa.p.Some? == k.rsa.q.Some?)
  {
    hide GetMpint, Storable, Mpint, OptMpint, GetRsa, GetDss, GetString, PutString;
    match k
    case KRsa(r) =>
      StringRoundTrip(SSH_SIGNKEY_RSA, Mpint(r.e) + (Mpint(r.n) + (Mpint(r.d) + (OptMpint(r.p) + OptMpint(r.q)))));
      RsaBlobRoundTrip(r);
    case KDss(d) =>
      StringRoundTrip(SSH_SIGNKEY_DSS, Mpint(d.p) + (Mpint(d.q) + (Mpint(d.g) + (Mpint(d.y) + Mpint(d.x)))));
      DssBlobRoundTrip(d);
      assert SSH_SIGNKEY_DSS[4] != SSH_SIGNKEY_RSA[4];
  }
}
