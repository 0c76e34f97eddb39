/**
  Byte strings and the elementary SSH encodings: 32-bit big-endian integers,
  length-prefixed strings, big-endian naturals and multiple precision integers.
*/
module Bytes {
  import opened NumberTheory

  type byte = x: int | 0 <= x < 256

  const WORD: nat := 0x1_0000_0000

  type uint32 = x: int | 0 <= x < 0x1_0000_0000

  const SHA1_HASH_SIZE: nat := 20
  const TRANS_MAX_PAYLOAD_LEN: nat := 8192
  const RECV_MAX_PAYLOAD_LEN: nat := 32768

  /** The next sequence number. */
  function Next(n: uint32): uint32 {
    if n == WORD - 1 then 0 else n + 1
  }

  /** STORE32H. */
  function PutInt(n: uint32): (b: seq<byte>)
    ensures |b| == 4
  {
    [n / 256 / 256 / 256, n / 256 / 256 % 256, n / 256 % 256, n % 256]
  }

  /** LOAD32H. */
  function GetInt(b: seq<byte>): (n: uint32)
    requires |b| >= 4
  {
    var hi: int := b[0] as int * 256 + b[1] as int;
    (hi * 256 + b[2] as int) * 256 + b[3] as int
  }

  lemma IntRoundTrip(n: uint32, rest: seq<byte>)
    ensures GetInt(PutInt(n) + rest) == n
  {
    var b := PutInt(n) + rest;
    assert b[0] as int * 256 + b[1] as int == n / 256 / 256;
    assert (n / 256 / 256) * 256 + b[2] as int == n / 256;
  }

  function PutString(s: seq<byte>): (b: seq<byte>)
    ensures |b| == |s| + 4
  {
    PutInt(|s| % WORD) + s
  }

  /** ASCII text as bytes. */
  function Ascii(s: string): (b: seq<byte>)
    requires forall i :: 0 <= i < |s| ==> s[i] < 128 as char
    ensures |b| == |s|
  {
    seq(|s|, i requires 0 <= i < |s| => s[i] as int)
  }

  // ------------------------------------------- naturals as big-endian bytes

  /** mp_read_unsigned_bin. */
  function BytesToNat(b: seq<byte>): nat {
    if b == [] then 0 else BytesToNat(b[..|b| - 1]) * 256 + b[|b| - 1]
  }

  /** mp_to_unsigned_bin: the shortest big-endian form. */
  function NatToBytes(n: nat): (b: seq<byte>)
    ensures n == 0 <==> b == []
    ensures n > 0 ==> b[0] != 0
  {
    if n == 0 then [] else NatToBytes(n / 256) + [n % 256]
  }

  lemma {:induction false} NatRoundTrip(n: nat)
    ensures BytesToNat(NatToBytes(n)) == n
  {
    if n > 0 {
      NatRoundTrip(n / 256);
      assert NatToBytes(n)[..|NatToBytes(n)| - 1] == NatToBytes(n / 256);
    }
  }

  function Zeros(n: nat): (b: seq<byte>)
    ensures |b| == n && forall i :: 0 <= i < n ==> b[i] == 0
  {
    seq(n, i => 0)
  }

  lemma {:induction false} LeadingZeros(n: nat, b: seq<byte>)
    ensures BytesToNat(Zeros(n) + b) == BytesToNat(b)
    decreases n + |b|
  {
    var z := Zeros(n) + b;
    if b != [] {
      assert z[..|z| - 1] == Zeros(n) + b[..|b| - 1];
      LeadingZeros(n, b[..|b| - 1]);
    } else if n > 0 {
      assert z[..|z| - 1] == Zeros(n - 1) + b;
      LeadingZeros(n - 1, b);
    }
  }

  lemma {:induction false} BytesBound(b: seq<byte>)
    ensures BytesToNat(b) < Pow(256, |b|)
  {
    if b != [] {
      BytesBound(b[..|b| - 1]);
      assert Pow(256, |b|) == 256 * Pow(256, |b| - 1);
    }
  }

  /** The shortest form of n fits in k bytes exactly when n is below 256^k. */
  lemma {:induction false} NatSize(n: nat, k: nat)
    ensures |NatToBytes(n)| <= k <==> n < Pow(256, k)
    decreases k
  {
    if k > 0 {
      NatSize(n / 256, k - 1);
      assert Pow(256, k) == 256 * Pow(256, k - 1);
    }
  }

  /** Padding the shortest form with zeros on the left does not change its value. */
  lemma PaddedRoundTrip(n: nat, k: nat)
    requires n < Pow(256, k)
    ensures |NatToBytes(n)| <= k
    ensures BytesToNat(Zeros(k - |NatToBytes(n)|) + NatToBytes(n)) == n
  {
    NatSize(n, k);
    LeadingZeros(k - |NatToBytes(n)|, NatToBytes(n));
    NatRoundTrip(n);
  }

  /** The bytes after the length of an mpint: the shortest form whose top bit is clear. */
  function MpintBody(n: nat): (b: seq<byte>)
    ensures n == 0 <==> b == []
    ensures n > 0 ==> b[0] < 128
    ensures n > 0 && b[0] == 0 ==> |b| > 1 && b[1] >= 128
  {
    var m := NatToBytes(n);
    if n > 0 && m[0] >= 128 then [0] + m else m
  }

  lemma MpintBodyValue(n: nat)
    ensures BytesToNat(MpintBody(n)) == n
  {
    NatRoundTrip(n);
    LeadingZeros(1, NatToBytes(n));
    assert Zeros(1) == [0];
  }

  /** The encoding of section 5 of RFC 4251, as far as its length fits in 32 bits. */
  function Mpint(n: nat): seq<byte> {
    PutString(MpintBody(n))
  }
}
