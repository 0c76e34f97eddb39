/**
  Signatures as signkey.c wraps them: buf_put_sign makes a string of the algorithm name and
  the signature, buf_verify takes it apart and calls the algorithm's own check.
*/
module SignKey {
  import opened Wrappers
  import opened Bytes
  import opened NumberTheory
  import opened Rsa
  import opened Dss
  import opened KeyCodec

  const DSS_SIGNATURE_SIZE: nat := 55

  /** A key pair holds an RSA key, a DSS key or both. */
  datatype Keys = Keys(rsa: Option<RsaKey>, dss: Option<DssKey>)

  /** memcmp over the length of the name received: a prefix matches too. */
  predicate Matches(ident: seq<byte>, name: seq<byte>) { ident <= name }

  /** buf_verify on what is left of the buffer. */
  function BufVerify(k: Keys, buf: seq<byte>, h: Digest): Verdict
    requires k.dss.Some? ==> k.dss.value.p > 0 && k.dss.value.q > 0
  {
    if |buf| < 4 then Exited
    else
      match GetString(buf[4..])
      case Bad => Exited
      case Gone => Exited
      case Got(ident, rest) =>
        if GetInt(buf) == DSS_SIGNATURE_SIZE && Matches(ident, SSH_SIGNKEY_DSS) then
          if k.dss.None? then Exited
          else
            match GetString(rest)
            case Bad => Exited
            case Gone => Exited
            case Got(rs, _) => if DssAccepts(k.dss.value, rs, h) then Success else Failure
        else if Matches(ident, SSH_SIGNKEY_RSA) then
          if k.rsa.None? then Exited
          else if |rest| < 4 then Exited
          else if GetInt(rest) == Size(k.rsa.value.n) && BytesToNat(rest[4..]) < k.rsa.value.n && Size(k.rsa.value.n) < 38 then Exited
          else if Accepts(k.rsa.value, rest, h) then Success else Failure
        else Exited
  }

  lemma Unwrap(blob: seq<byte>, name: seq<byte>, rest: seq<byte>)
    requires blob == PutString(name) + rest && |blob| < WORD && |name| <= MAX_STRING_LEN
    ensures var buf := PutString(blob);
      |buf| >= 4 && GetInt(buf) == |blob| && buf[4..] == blob && GetString(buf[4..]) == Got(name, rest)
  {
    ModIdem(|blob|, WORD);
    IntRoundTrip(|blob|, blob);
    StringRoundTrip(name, rest);
    assert PutString(blob)[4..] == blob;
  }

  /** An RSA signature that ends the buffer is accepted. */
  lemma RsaSignatureVerifies(k: Keys, p: nat, q: nat, h: Digest)
    requires k.rsa.Some? && GoodExponents(k.rsa.value, p, q) && p != q && k.rsa.value.d > 0
    requires 38 <= Size(k.rsa.value.n) < 0x10000
    requires k.dss.Some? ==> k.dss.value.p > 0 && k.dss.value.q > 0
    ensures var n := k.rsa.value.n; var s := Pow(Em(n, h), k.rsa.value.d) % n;
      Size(s) <= Size(n) && BufVerify(k, PutString(SignatureBlob(n, s)), h) == Success
  {
    hide Em, Pow, GetString, Accepts, DssAccepts, BytesToNat, GetInt, PutString;
    var r := k.rsa.value;
    EmittedAccepted(r, p, q, h);
    var s := Pow(Em(r.n, h), r.d) % r.n;
    var blob := SignatureBlob(r.n, s);
    var rest := blob[11..];
    assert blob == PutString(SSH_SIGNKEY_RSA) + rest && |blob| == 15 + Size(r.n) by { BlobSplits(r.n, s); }
    Unwrap(blob, SSH_SIGNKEY_RSA, rest);
    assert !(SSH_SIGNKEY_RSA <= SSH_SIGNKEY_DSS) by { assert SSH_SIGNKEY_RSA[4] != SSH_SIGNKEY_DSS[4]; }
    assert |rest| >= 4;
  }

  lemma BlobSplits(n: nat, s: nat)
    requires Size(s) <= Size(n)
    ensures var b := SignatureBlob(n, s); |b| == 15 + Size(n) && b == PutString(SSH_SIGNKEY_RSA) + b[11..]
  {
    var b := SignatureBlob(n, s);
    assert b[..11] == PutString(SSH_SIGNKEY_RSA);
  }

  /** A DSS signature is accepted if and only if its s is not zero. */
  lemma DssSignatureVerifiesIff(k: Keys, h: Digest, m: nat, bound: nat)
    requires k.dss.Some? && GoodDss(k.dss.value) && k.dss.value.q < bound && bound == Pow(256, 20)
    requires m < k.dss.value.q && InvMod(m, k.dss.value.q).Some?
    ensures var d := k.dss.value; var r := SignR(d, m); var s := SignS(d, BytesToNat(h), m, InvMod(m, d.q).value);
      && Size(r) <= 20 && Size(s) <= 20
      && (BufVerify(k, PutString(SignatureOf(r, s)), h) == Success <==> s != 0)
  {
    hide Pow, GetString, DssAccepts, BytesToNat, GetInt, InvMod, SignR, SignS, Padded, GoodDss, PutString;
    var d := k.dss.value;
    assert d.p > 0 && d.q > 0 by { Positive(d); }
    EmittedVerifiesIff(d, h, m, bound);
    var r, s := SignR(d, m), SignS(d, BytesToNat(h), m, InvMod(m, d.q).value);
    var rs := Padded(r) + Padded(s);
    var blob := SignatureOf(r, s);
    assert PutInt(40) + rs == PutString(rs) by { FortyBytes(rs); }
    assert blob == PutString(SSH_SIGNKEY_DSS) + PutString(rs) && |blob| == 55;
    Unwrap(blob, SSH_SIGNKEY_DSS, PutString(rs));
    StringRoundTrip(rs, []);
    assert PutString(rs) + [] == PutString(rs);
  }

  lemma Positive(d: DssKey)
    requires GoodDss(d)
    ensures d.p > 0 && d.q > 0
  {
  }

  lemma FortyBytes(rs: seq<byte>)
    requires |rs| == 40
    ensures PutString(rs) == PutInt(40) + rs
  {
    ModIdem(40, WORD);
  }
}
