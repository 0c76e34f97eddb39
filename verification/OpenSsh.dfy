/**
  The OpenSSH private key file at blob level: BER headers (sections 8.1.2 and 8.1.3 of
  X.690) and the sequence of integers, as keyimport.c writes and reads them. The bytes before
  base64 and the PEM lines are what is modelled.
*/
module OpenSsh {
  import opened Wrappers
  import opened Bytes
  import opened NumberTheory
  import opened Rsa
  import opened Dss
  import opened KeyCodec
  import opened Memory

  // ------------------------------------------------------------- BER headers

  /** An identifier of seven-bit digits, most significant first, all but the last marked. */
  function TagDigits(id: nat, last: bool): (b: seq<byte>)
    ensures |b| >= 1
  {
    (if id < 128 then [] else TagDigits(id / 128, false)) + [id % 128 + if last then 0 else 128]
  }

  /** `flags` is the class and the constructed bit: a multiple of 32. */
  function BerId(id: nat, flags: byte): (b: seq<byte>)
    requires flags % 32 == 0
    ensures |b| >= 1
  {
    if id <= 30 then [id + flags] else [31 + flags] + TagDigits(id, true)
  }

  function BerLength(length: nat): (b: seq<byte>)
    ensures |b| >= 1
  {
    if length < 128 then [length] else [(128 + |NatToBytes(length)|) % 256] + NatToBytes(length)
  }

  /** ber_write_id_len. */
  function BerHeader(id: nat, length: nat, flags: byte): seq<byte>
    requires flags % 32 == 0
  {
    BerId(id, flags) + BerLength(length)
  }

  datatype Header = Header(id: nat, length: nat, flags: byte, used: nat)

  /** The tag loop of ber_read_id_len, from position i: the value and the position after it. */
  function ReadTag(b: seq<byte>, i: nat, acc: nat): (r: Option<(nat, nat)>)
    requires i < |b|
    ensures r.Some? ==> i < r.value.1 <= |b|
    decreases |b| - i
  {
    if b[i] < 128 then Some((acc * 128 + b[i], i + 1))
    else if i + 1 == |b| then None
    else ReadTag(b, i + 1, acc * 128 + b[i] % 128)
  }

  /** The length part of ber_read_id_len. */
  function ReadLength(b: seq<byte>, i: nat): (r: Option<(nat, nat)>)
    requires i <= |b|
    ensures r.Some? ==> i < r.value.1 <= |b|
  {
    if i == |b| then None
    else if b[i] < 128 then Some((b[i], i + 1))
    else
      var n := b[i] - 128;
      if |b| - (i + 1) < n then None else Some((BytesToNat(b[i + 1..i + 1 + n]), i + 1 + n))
  }

  /** The tag is an int of 32 bits, which keeps the low bits of what it is given. */
  function Narrow(r: Option<(nat, nat)>): Option<(nat, nat)> {
    if r.Some? then Some((r.value.0 % WORD, r.value.1)) else None
  }

  /** ber_read_id_len. The long form of the tag is read from its first byte on. */
  function BerRead(b: seq<byte>): (r: Option<Header>)
    ensures r.Some? ==> 0 < r.value.used <= |b|
  {
    if b == [] then None
    else
      var flags: byte := b[0] - b[0] % 32;
      var tag := if b[0] % 32 == 31 then Narrow(ReadTag(b, 0, 0)) else Some((b[0] % 32, 1));
      if tag.None? then None
      else
        var len := ReadLength(b, tag.value.1);
        if len.None? then None else Some(Header(tag.value.0, len.value.0, flags, len.value.1))
  }

  lemma ReadLengthBack(head: seq<byte>, length: nat, rest: seq<byte>)
    requires length < 0x1000000
    ensures ReadLength(head + BerLength(length) + rest, |head|) == Some((length, |head| + |BerLength(length)|))
  {
    hide NatToBytes, BytesToNat;
    var b := head + BerLength(length) + rest;
    if length >= 128 {
      var m := NatToBytes(length);
      ThreeBytes(length);
      NatRoundTrip(length);
      Located(head, [128 + |m|], m, rest);
    } else {
      assert b[|head|] == length;
    }
  }

  lemma Located(head: seq<byte>, x: seq<byte>, m: seq<byte>, rest: seq<byte>)
    requires |x| == 1
    ensures var b := head + (x + m) + rest; b[|head|] == x[0] && b[|head| + 1..|head| + 1 + |m|] == m
  {
  }

  lemma ThreeBytes(n: nat)
    requires n < 0x1000000
    ensures |NatToBytes(n)| <= 3
  {
    assert Pow(256, 3) == 0x1000000 by { assert Pow(256, 2) == 0x10000; }
    NatSize(n, 3);
  }

  /** A header with a one-byte tag reads back. */
  lemma ShortTagRoundTrip(id: nat, length: nat, flags: byte, rest: seq<byte>)
    requires id <= 30 && length < 0x1000000 && flags % 32 == 0
    ensures BerRead(BerHeader(id, length, flags) + rest) == Some(Header(id, length, flags, |BerHeader(id, length, flags)|))
  {
    hide BerLength, ReadLength;
    var h := BerId(id, flags);
    ReadLengthBack(h, length, rest);
    var b := BerHeader(id, length, flags) + rest;
    assert b == h + BerLength(length) + rest;
    assert b[0] == id + flags;
  }

  /** The number that the digits of id make of what was read before. */
  function Absorb(acc: nat, id: nat): nat {
    if id < 128 then acc * 128 + id else Absorb(acc, id / 128) * 128 + id % 128
  }

  /** What the digits of id are worth together. */
  function Worth(id: nat): nat {
    if id < 128 then 128 else 128 * Worth(id / 128)
  }

  lemma {:induction false} AbsorbIs(acc: nat, id: nat)
    ensures Absorb(acc, id) == acc * Worth(id) + id
    decreases id
  {
    if id >= 128 {
      AbsorbIs(acc, id / 128);
      SwapFactors(acc, 128, Worth(id / 128));
    }
  }

  lemma WorthOf(id: nat)
    requires id < 0x1000_0000
    ensures Worth(id) in {0x80, 0x4000, 0x20_0000, 0x1000_0000}
  {
    var a, b := id / 128, id / 128 / 128;
    assert b / 128 < 128;
    assert Worth(b / 128) == 128;
    assert Worth(b) == if b < 128 then 128 else 0x4000;
    assert Worth(a) == if a < 128 then 128 else 128 * Worth(b);
  }

  /** A stray leading digit is not lost in 32 bits. */
  lemma StrayStays(acc: nat, id: nat)
    requires 0 < acc < 128 && acc % 16 == 15 && id < 0x1000_0000
    ensures Absorb(acc, id) % WORD != id
  {
    AbsorbIs(acc, id);
    WorthOf(id);
    var v := acc * Worth(id);
    var c := if Worth(id) == 0x1000_0000 then acc / 16 else 0;
    assert v == c * WORD + (v - c * WORD) && 0 < v - c * WORD <= 15 * 0x1000_0000;
    AddMultiple(v - c * WORD + id, WORD, c);
    ModIdem(v - c * WORD + id, WORD);
  }

  /** Marked digits are all taken into the number being read. */
  lemma {:induction false} MarkedDigits(pre: seq<byte>, id: nat, rest: seq<byte>, acc: nat)
    requires rest != []
    ensures var d := TagDigits(id, false); var b := pre + d + rest;
      ReadTag(b, |pre|, acc) == ReadTag(b, |pre| + |d|, Absorb(acc, id))
    decreases id
  {
    hide ReadTag, TagDigits, Absorb;
    var d, x := TagDigits(id, false), id % 128 + 128;
    var b := pre + d + rest;
    DigitStep(id, acc);
    if id < 128 {
      assert b[|pre|] == x;
      MarkedStep(b, |pre|, acc, id % 128);
    } else {
      var e := TagDigits(id / 128, false);
      Regroup(pre, e, [x], rest);
      MarkedDigits(pre, id / 128, [x] + rest, acc);
      MarkedStep(b, |pre| + |e|, Absorb(acc, id / 128), id % 128);
    }
  }

  lemma Regroup(a: seq<byte>, b: seq<byte>, c: seq<byte>, d: seq<byte>)
    requires |c| == 1
    ensures a + (b + c) + d == a + b + (c + d) && (a + (b + c) + d)[|a| + |b|] == c[0]
  {
  }

  lemma DigitStep(id: nat, acc: nat)
    ensures id < 128 ==> TagDigits(id, false) == [id % 128 + 128] && TagDigits(id, true) == [id % 128] && Absorb(acc, id) == acc * 128 + id % 128
    ensures id >= 128 ==>
      && TagDigits(id, false) == TagDigits(id / 128, false) + [id % 128 + 128]
      && TagDigits(id, true) == TagDigits(id / 128, false) + [id % 128]
      && Absorb(acc, id) == Absorb(acc, id / 128) * 128 + id % 128
  {
  }

  lemma MarkedStep(b: seq<byte>, i: nat, acc: nat, x: nat)
    requires i + 1 < |b| && x < 128 && b[i] == x + 128
    ensures ReadTag(b, i, acc) == ReadTag(b, i + 1, acc * 128 + x)
  {
  }

  lemma LastStep(b: seq<byte>, i: nat, acc: nat, x: nat)
    requires i < |b| && x < 128 && b[i] == x
    ensures ReadTag(b, i, acc) == Some((acc * 128 + x, i + 1))
  {
  }

  /** What reading the digits of a tag on from acc gives. */
  lemma TagAbsorbed(pre: seq<byte>, id: nat, rest: seq<byte>, acc: nat)
    ensures var r := ReadTag(pre + TagDigits(id, true) + rest, |pre|, acc); r.Some? && r.value.0 == Absorb(acc, id)
  {
    hide ReadTag, TagDigits, Absorb;
    var b, x := pre + TagDigits(id, true) + rest, id % 128;
    DigitStep(id, acc);
    if id < 128 {
      assert b[|pre|] == x;
      LastStep(b, |pre|, acc, x);
    } else {
      var e := TagDigits(id / 128, false);
      Regroup(pre, e, [x], rest);
      MarkedDigits(pre, id / 128, [x] + rest, acc);
      LastStep(b, |pre| + |e|, Absorb(acc, id / 128), x);
    }
  }

  /** Where the long form of the tag goes wrong: its first byte is taken for a digit. In the
      universal and application classes it ends the tag, in the others it leads it. */
  lemma LongTagMisread(id: nat, length: nat, flags: byte, rest: seq<byte>)
    requires 31 <= id < 0x1000_0000 && flags % 32 == 0
    ensures var h := BerHeader(id, length, flags); var r := BerRead(h + rest);
      r.Some? ==> r.value.id != id || r.value.used != |h|
  {
    hide BerLength, ReadLength;
    var h := BerHeader(id, length, flags);
    var b := h + rest;
    var digits := TagDigits(id, true);
    var first: nat := 31 + flags;
    assert b == [first] + digits + (BerLength(length) + rest);
    assert b[0] == first && b[1] == digits[0];
    if flags >= 128 {
      assert ReadTag(b, 0, 0) == ReadTag(b, 1, first % 128);
      TagAbsorbed([first], id, BerLength(length) + rest, first % 128);
      StrayStays(first % 128, id);
    } else {
      assert ReadTag(b, 0, 0) == Some((first, 1));
      if id == first { ShortLength(b, id); }
    }
  }

  lemma ShortLength(b: seq<byte>, id: nat)
    requires |b| >= 2 && id < 128 && b[1] == TagDigits(id, true)[0]
    ensures ReadLength(b, 1) == Some((id, 2))
  {
  }

  /** BER headers round-trip exactly for tags up to 30. From 2^28 on the writer shifts by more than
      the width of an int. */
  lemma BerRoundTripIff(id: nat, length: nat, flags: byte, rest: seq<byte>)
    requires id < 0x1000_0000 && length < 0x1000000 && flags % 32 == 0
    ensures var h := BerHeader(id, length, flags);
      BerRead(h + rest) == Some(Header(id, length, flags, |h|)) <==> id <= 30
  {
    hide BerHeader, BerRead;
    if id <= 30 { ShortTagRoundTrip(id, length, flags, rest); } else { LongTagMisread(id, length, flags, rest); }
  }

  /** *d++ = x, unless there is no destination. */
  method Put(dest: array?<byte>, at: nat, x: byte, ghost before: seq<byte>, ghost start: nat, ghost b: seq<byte>)
    requires dest != null ==> start + |b| == at < dest.Length == |before| && dest[..] == Patched(before, start, b)
    modifies dest
    ensures dest != null ==> dest.Length == |before| && dest[..] == Patched(before, start, b + [x])
  {
    if dest != null {
      PatchedMore(before, start, b, x);
      dest[at] := x;
      assert dest[..] == Patched(before, start, b)[at := x];
    }
  }

  /** ber_write_id_len in its two uses: with a destination it writes the header, without one
      it only counts, and the counts agree. */
  method BerWrite(dest: array?<byte>, at: nat, id: nat, length: nat, flags: byte) returns (len: nat)
    requires id <= 30 && flags % 32 == 0 && length < 0x1000000
    requires dest != null ==> at + |BerHeader(id, length, flags)| <= dest.Length
    modifies dest
    ensures len == |BerHeader(id, length, flags)|
    ensures dest != null ==> dest[..] == Patched(old(dest[..]), at, BerHeader(id, length, flags))
  {
    ThreeBytes(length);
    hide NatToBytes, Patched;
    ghost var before: seq<byte> := [];
    if dest != null {
      before := dest[..];
      assert dest[..] == Patched(before, at, []) by { PatchedNothing(before, at); }
    }
    Put(dest, at, id + flags, before, at, []);
    assert [] + [id + flags] == [id + flags];
    len := 1;
    if length < 128 {
      Put(dest, at + len, length, before, at, [id + flags]);
      len := len + 1;
    } else {
      var n := CountBytes(length);
      ghost var m, head := NatToBytes(length), [id + flags, 128 + n];
      Put(dest, at + len, 128 + n, before, at, [id + flags]);
      assert [id + flags] + [128 + n] == head;
      len := len + 1;
      assert BerHeader(id, length, flags) == head + m;
      PutDigits(dest, at + len, length, n, before, at, head);
      len := len + n;
    }
  }

  /** The bytes of a length, most significant first. */
  method PutDigits(dest: array?<byte>, at: nat, length: nat, count: nat, ghost before: seq<byte>, ghost start: nat, ghost head: seq<byte>)
    requires count == |NatToBytes(length)|
    requires dest != null ==> start + |head| == at && at + count <= dest.Length == |before| && dest[..] == Patched(before, start, head)
    modifies dest
    ensures dest != null ==> dest[..] == Patched(before, start, head + NatToBytes(length))
  {
    hide NatToBytes, Patched;
    ghost var m := NatToBytes(length);
    assert head + m[..0] == head;
    var n := count;
    while n > 0
      invariant 0 <= n <= count
      invariant dest != null ==> dest.Length == |before| && dest[..] == Patched(before, start, head + m[..count - n])
    {
      n := n - 1;
      DigitAt(length, n);
      var digit := ByteOf(length, n);
      Put(dest, at + (count - n - 1), digit, before, start, head + m[..count - n - 1]);
      assert head + m[..count - n - 1] + [digit] == head + m[..count - n];
    }
    assert m[..count] == m;
  }

  /** (length >> (8 * n)) & 0xFF. */
  function ByteOf(length: nat, n: nat): byte {
    if n == 0 then length % 256 else ByteOf(length / 256, n - 1)
  }

  lemma {:induction false} DigitAt(length: nat, n: nat)
    requires n < |NatToBytes(length)|
    ensures NatToBytes(length)[|NatToBytes(length)| - 1 - n] == ByteOf(length, n)
    decreases n
  {
    if n > 0 { DigitAt(length / 256, n - 1); }
  }

  /** The byte count: the first n with length >> (8 * n) equal to zero. */
  method CountBytes(length: nat) returns (n: nat)
    requires length >= 128
    ensures n == |NatToBytes(length)|
  {
    n := 1;
    var x: nat := length / 256;
    assert |NatToBytes(length)| == 1 + |NatToBytes(x)|;
    while x > 0
      invariant |NatToBytes(length)| == n + |NatToBytes(x)|
      decreases x
    {
      x := x / 256;
      n := n + 1;
    }
  }

  // --------------------------------------------------------------- the blobs

  const BLOB_SIZE: nat := 3000
  const EXTRA_SIZE: nat := 2000

  /** The integers of a key, in the order of the OpenSSH file: 0, n, e, d, p, q, d mod (p-1),
      d mod (q-1), q^-1 mod p; or 0, p, q, g, y, x. None when a derived number does not exist. */
  function Numbers(k: Key): Option<seq<seq<byte>>> {
    match k
    case KDss(d) => Some([[0], MpintBody(d.p), MpintBody(d.q), MpintBody(d.g), MpintBody(d.y), MpintBody(d.x)])
    case KRsa(r) =>
      if r.p.None? || r.q.None? || r.p.value <= 1 || r.q.value <= 1 then None
      else
        var (p, q) := (r.p.value, r.q.value);
        var iqmp := InvMod(q, p);
        if iqmp.None? then None
        else Some([[0], MpintBody(r.n), MpintBody(r.e), MpintBody(r.d), MpintBody(p), MpintBody(q),
                   MpintBody(r.d % (p - 1)), MpintBody(r.d % (q - 1)), MpintBody(iqmp.value)])
  }

  function Integers(ns: seq<seq<byte>>): seq<byte> {
    if ns == [] then [] else BerHeader(2, |ns[0]|, 0) + (ns[0] + Integers(ns[1..]))
  }

  /** The DER sequence of the integers. */
  function Blob(ns: seq<seq<byte>>): seq<byte> {
    BerHeader(16, |Integers(ns)|, 32) + Integers(ns)
  }

  /** The integer loop of openssh_read: the contents of `count` integers. */
  function ReadIntegers(b: seq<byte>, count: nat): (r: Option<seq<seq<byte>>>)
    ensures r.Some? ==> |r.value| == count
    decreases count
  {
    if count == 0 then Some([])
    else
      var h := BerRead(b);
      if h.None? || h.value.id != 2 || |b| - h.value.used < h.value.length then None
      else
        var start := h.value.used;
        var rest := ReadIntegers(b[start + h.value.length..], count - 1);
        if rest.None? then None else Some([b[start..start + h.value.length]] + rest.value)
  }

  /** The Dropbear blob put together from the integers: e and n change places. */
  function Assemble(t: KeyType, ns: seq<seq<byte>>): seq<byte>
    requires t != AnyType && |ns| == if t == RsaType then 9 else 6
  {
    if t == RsaType then
      PutString(SSH_SIGNKEY_RSA) + (PutString(ns[2]) + (PutString(ns[1]) + (PutString(ns[3]) + (PutString(ns[4]) + PutString(ns[5])))))
    else
      PutString(SSH_SIGNKEY_DSS) + (PutString(ns[1]) + (PutString(ns[2]) + (PutString(ns[3]) + (PutString(ns[4]) + PutString(ns[5])))))
  }

  /** openssh_read on the decoded bytes; t comes from the PEM header. None is any failure. */
  function Read(t: KeyType, b: seq<byte>): Option<Key>
    requires t != AnyType
  {
    var h := BerRead(b);
    if h.None? || h.value.id != 16 then None
    else
      var ns := ReadIntegers(b[h.value.used..], if t == RsaType then 9 else 6);
      if ns.None? || ns.value[0] != [0] || |Assemble(t, ns.value)| > BLOB_SIZE then None
      else
        match GetPrivKey(Assemble(t, ns.value), AnyType)
        case Got(k, _) => Some(k)
        case Bad => None
        case Gone => None
  }

  predicate Short(ns: seq<seq<byte>>) {
    forall i :: 0 <= i < |ns| ==> |ns[i]| < 0x100000
  }

  lemma {:induction false} IntegersBack(ns: seq<seq<byte>>, rest: seq<byte>)
    requires Short(ns)
    ensures ReadIntegers(Integers(ns) + rest, |ns|) == Some(ns)
    decreases |ns|
  {
    hide BerHeader, BerRead;
    if ns != [] {
      var h, x := BerHeader(2, |ns[0]|, 0), ns[0];
      var tail := Integers(ns[1..]) + rest;
      var b := Integers(ns) + rest;
      assert b == h + (x + tail);
      ShortTagRoundTrip(2, |x|, 0, x + tail);
      assert b[|h|..|h| + |x|] == x && b[|h| + |x|..] == tail;
      IntegersBack(ns[1..], rest);
      assert [x] + ns[1..] == ns;
    }
  }

  lemma {:induction false} IntegersSize(ns: seq<seq<byte>>)
    requires Short(ns) && |ns| <= 9
    ensures |Integers(ns)| <= |ns| * 0x100010
    decreases |ns|
  {
    if ns != [] {
      ThreeBytes(|ns[0]|);
      IntegersSize(ns[1..]);
    }
  }

  lemma BlobBack(ns: seq<seq<byte>>)
    requires Short(ns) && |ns| <= 9
    ensures var h := BerRead(Blob(ns));
      && h.Some? && h.value.id == 16 && h.value.used <= |Blob(ns)|
      && ReadIntegers(Blob(ns)[h.value.used..], |ns|) == Some(ns)
  {
    hide BerHeader, BerRead, ReadIntegers;
    IntegersSize(ns);
    var body := Integers(ns);
    ShortTagRoundTrip(16, |body|, 32, body);
    var h := BerHeader(16, |body|, 32);
    assert (h + body)[|h|..] == body;
    IntegersBack(ns, []);
    assert body + [] == body;
  }

  /** What openssh_write requires of its fixed buffers. */
  predicate FitsBuffers(k: Key) {
    && |PutPrivKey(k)| <= BLOB_SIZE
    && (k.KRsa? && Numbers(k).Some? ==>
          var ns := Numbers(k).value; |PutString(ns[6])| + |PutString(ns[7])| + |PutString(ns[8])| <= EXTRA_SIZE)
  }

  /** The blob assembled from the written integers is the Dropbear blob, byte for byte. */
  lemma AssembledIsOriginal(k: Key)
    requires Numbers(k).Some?
    ensures |Numbers(k).value| == (if k.KRsa? then 9 else 6)
    ensures Assemble(TypeOf(k), Numbers(k).value) == PutPrivKey(k)
  {
  }

  lemma NumbersShort(k: Key)
    requires Numbers(k).Some? && FitsBuffers(k)
    ensures Short(Numbers(k).value)
  {
    hide MpintBody;
  }

  /** openssh_read gives back every key that openssh_write accepts. */
  lemma WrittenReadsBack(k: Key)
    requires Storable(k) && Numbers(k).Some? && FitsBuffers(k)
    ensures Read(TypeOf(k), Blob(Numbers(k).value)) == Some(k)
  {
    hide GetPrivKey, PutPrivKey, Storable, ReadIntegers, BerRead, Blob, MpintBody, InvMod;
    var ns := Numbers(k).value;
    NumbersShort(k);
    AssembledIsOriginal(k);
    BlobBack(ns);
    PrivKeyRoundTrip(k, AnyType);
    assert k.KRsa? ==> k.rsa.p.Some? && k.rsa.q.Some?;
  }

  // ---------------------------------------------------------- the two routines

  /** The writing half of openssh_write: one pass to size the sequence, one to write it. */
  method WriteBlob(ns: seq<seq<byte>>) returns (outblob: array<byte>)
    requires Short(ns) && |ns| <= 9
    ensures fresh(outblob) && outblob[..] == Blob(ns)
  {
    hide BerHeader, Patched;
    IntegersSize(ns);
    var len := 0;
    var i := 0;
    while i < |ns|
      invariant 0 <= i <= |ns| && len + |Integers(ns[i..])| == |Integers(ns)|
    {
      assert ns[i..][0] == ns[i] && ns[i..][1..] == ns[i + 1..];
      var n := BerWrite(null, 0, 2, |ns[i]|, 0);
      len := len + n;
      len := len + |ns[i]|;
      i := i + 1;
    }
    assert ns[|ns|..] == [];
    var seqlen := len;
    var h := BerWrite(null, 0, 16, seqlen, 32);
    len := len + h;
    outblob := new byte[len];
    ghost var before := outblob[..];
    var pos := BerWrite(outblob, 0, 16, seqlen, 32);
    ghost var done := BerHeader(16, seqlen, 32);
    PatchedPrefix(before, 0, done);
    assert outblob[..pos] == outblob[..][..pos] == done;
    i := 0;
    while i < |ns|
      invariant 0 <= i <= |ns| && pos <= outblob.Length == len == |Blob(ns)|
      invariant outblob[..pos] + Integers(ns[i..]) == Blob(ns)
    {
      ghost var rest := ns[i..];
      assert rest[0] == ns[i] && rest[1..] == ns[i + 1..];
      pos := PutInteger(outblob, pos, ns[i], Integers(ns[i + 1..]), Blob(ns));
      i := i + 1;
    }
    assert pos == len;
  }

  /** One integer: its header, then its bytes. */
  method PutInteger(outblob: array<byte>, at: nat, x: seq<byte>, ghost rest: seq<byte>, ghost whole: seq<byte>) returns (pos: nat)
    requires |x| < 0x100000 && at <= outblob.Length == |whole|
    requires outblob[..at] + (BerHeader(2, |x|, 0) + (x + rest)) == whole
    modifies outblob
    ensures at <= pos <= outblob.Length && outblob[..pos] + rest == whole
  {
    hide BerHeader, Patched;
    ghost var h, b0 := BerHeader(2, |x|, 0), outblob[..];
    pos := BerWrite(outblob, at, 2, |x|, 0);
    PatchedPrefix(b0, at, h);
    assert b0[..at] == old(outblob[..at]);
    pos := at + pos;
    ghost var b1 := outblob[..];
    assert b1[..pos] == b0[..at] + h;
    CopyBytes(outblob, pos, x);
    PatchedPrefix(b1, pos, x);
    pos := pos + |x|;
    assert outblob[..pos] == outblob[..][..pos] == b0[..at] + h + x;
    assert b0[..at] + h + x + rest == b0[..at] + (h + (x + rest));
  }

  // -------------------------------------------------------------- reading

  /** What the i-th integer adds to the blob being put together. */
  function Added(t: KeyType, got: seq<seq<byte>>): seq<byte>
    requires |got| >= 2
  {
    var n := |got|;
    if t == DssType then PutString(got[n - 1])
    else if n == 3 then PutString(got[2]) + PutString(got[1])
    else if 4 <= n <= 6 then PutString(got[n - 1])
    else []
  }

  function BlobSoFar(t: KeyType, got: seq<seq<byte>>): seq<byte> {
    if |got| <= 1 then PutString(if t == RsaType then SSH_SIGNKEY_RSA else SSH_SIGNKEY_DSS)
    else BlobSoFar(t, got[..|got| - 1]) + Added(t, got)
  }

  lemma BlobOneMore(t: KeyType, got: seq<seq<byte>>, x: seq<byte>)
    ensures |BlobSoFar(t, got)| <= |BlobSoFar(t, got + [x])|
  {
    hide Added;
    assert (got + [x])[..|got|] == got;
  }

  lemma {:induction false} BlobSoFarGrows(t: KeyType, got: seq<seq<byte>>, more: seq<seq<byte>>)
    ensures |BlobSoFar(t, got)| <= |BlobSoFar(t, got + more)|
    decreases |more|
  {
    hide BlobSoFar;
    if more == [] {
      assert got + more == got;
    } else {
      var m, x := more[..|more| - 1], more[|more| - 1];
      BlobSoFarGrows(t, got, m);
      assert got + more == (got + m) + [x];
      BlobOneMore(t, got + m, x);
    }
  }

  lemma BlobStep(t: KeyType, got: seq<seq<byte>>, n: nat)
    requires 2 <= n <= |got|
    ensures BlobSoFar(t, got[..n]) == BlobSoFar(t, got[..n - 1]) + Added(t, got[..n])
  {
    assert got[..n][..n - 1] == got[..n - 1];
  }

  lemma BlobSoFarIsAssembled(t: KeyType, ns: seq<seq<byte>>)
    requires t != AnyType && |ns| == if t == RsaType then 9 else 6
    ensures BlobSoFar(t, ns) == Assemble(t, ns)
  {
    hide PutString, BlobSoFar;
    assert BlobSoFar(t, ns[..1]) == PutString(if t == RsaType then SSH_SIGNKEY_RSA else SSH_SIGNKEY_DSS) by { BlobStart(t, ns[..1]); }
    BlobStep(t, ns, 2);
    BlobStep(t, ns, 3);
    BlobStep(t, ns, 4);
    BlobStep(t, ns, 5);
    BlobStep(t, ns, 6);
    if t == RsaType {
      BlobStep(t, ns, 7);
      BlobStep(t, ns, 8);
      BlobStep(t, ns, 9);
      assert ns[..9] == ns;
      Reassociate(PutString(SSH_SIGNKEY_RSA), PutString(ns[2]), PutString(ns[1]), PutString(ns[3]), PutString(ns[4]), PutString(ns[5]));
    } else {
      assert ns[..6] == ns;
      Reassociate(PutString(SSH_SIGNKEY_DSS), PutString(ns[1]), PutString(ns[2]), PutString(ns[3]), PutString(ns[4]), PutString(ns[5]));
    }
  }

  lemma BlobStart(t: KeyType, got: seq<seq<byte>>)
    requires |got| <= 1
    ensures BlobSoFar(t, got) == PutString(if t == RsaType then SSH_SIGNKEY_RSA else SSH_SIGNKEY_DSS)
  {
  }

  lemma Reassociate(a: seq<byte>, b: seq<byte>, c: seq<byte>, d: seq<byte>, e: seq<byte>, f: seq<byte>)
    ensures a + (b + (c + (d + (e + f)))) == a + b + c + d + e + f
    ensures a + (b + (c + (d + (e + f)))) == a + [] + (b + c) + d + e + f + [] + [] + []
  {
  }

  ghost function Prepend(got: seq<seq<byte>>, rest: Option<seq<seq<byte>>>): Option<seq<seq<byte>>> {
    if rest.None? then None else Some(got + rest.value)
  }

  /** Once the integers read so far rule it out, there is no key, whatever follows. */
  lemma NoKey(t: KeyType, b: seq<byte>, got: seq<seq<byte>>, rest: Option<seq<seq<byte>>>)
    requires t != AnyType && BerRead(b).Some? && BerRead(b).value.id == 16
    requires ReadIntegers(b[BerRead(b).value.used..], if t == RsaType then 9 else 6) == Prepend(got, rest)
    requires rest.None? || (got != [] && got[0] != [0]) || |BlobSoFar(t, got)| > BLOB_SIZE
    ensures Read(t, b) == None
  {
    hide BerRead, ReadIntegers, Assemble, BlobSoFar, GetPrivKey;
    if rest.Some? {
      BlobSoFarGrows(t, got, rest.value);
      BlobSoFarIsAssembled(t, got + rest.value);
    }
  }

  /** One more integer has been taken off. */
  lemma TakenOne(b: seq<byte>, count: nat, got: seq<seq<byte>>, p: nat, h: Header)
    requires count > 0 && p <= |b| && BerRead(b[p..]) == Some(h) && h.id == 2 && p + h.used + h.length <= |b|
    ensures var start := p + h.used; var x := b[start..start + h.length];
      Prepend(got, ReadIntegers(b[p..], count)) == Prepend(got + [x], ReadIntegers(b[start + h.length..], count - 1))
  {
    hide BerRead;
    var start := p + h.used;
    var x := b[start..start + h.length];
    assert b[p..][h.used..h.used + h.length] == x && b[p..][h.used + h.length..] == b[start + h.length..];
    var rest := ReadIntegers(b[start + h.length..], count - 1);
    if rest.Some? { assert got + ([x] + rest.value) == got + [x] + rest.value; }
  }

  /** openssh_read after the PEM layer: the blob is put together while the integers are read. */
  method OpensshRead(t: KeyType, b: seq<byte>) returns (key: Option<Key>)
    requires t != AnyType
    ensures key == Read(t, b)
  {
    hide BerRead, ReadIntegers, GetPrivKey, Assemble, BlobSoFar, Added, Prepend, Read, PutString;
    var h := BerRead(b);
    if h.None? || h.value.id != 16 {
      NoSequence(t, b);
      return None;
    }
    var p: nat := h.value.used;
    var num := if t == RsaType then 9 else 6;
    var blob := PutString(if t == RsaType then SSH_SIGNKEY_RSA else SSH_SIGNKEY_DSS);
    var modulus: seq<byte> := [];
    ghost var got: seq<seq<byte>> := [];
    BlobStart(t, got);
    ghost var whole := ReadIntegers(b[p..], num);
    assert whole == Prepend(got, whole) by { PrependNothing(whole); }
    var i := 0;
    while i < num
      invariant 0 <= i <= num && p <= |b| && |got| == i && blob == BlobSoFar(t, got)
      invariant whole == Prepend(got, ReadIntegers(b[p..], num - i))
      invariant i >= 1 ==> got[0] == [0]
      invariant i >= 2 ==> modulus == got[1]
      invariant |blob| <= BLOB_SIZE
    {
      var r := BerRead(b[p..]);
      if r.None? || r.value.id != 2 || |b| - p - r.value.used < r.value.length {
        assert ReadIntegers(b[p..], num - i) == None by { BadInteger(b[p..], num - i); }
        NoKey(t, b, got, None);
        return None;
      }
      var start := p + r.value.used;
      var x := b[start..start + r.value.length];
      TakenOne(b, num - i, got, p, r.value);
      p := start + r.value.length;
      ghost var before := got;
      got := got + [x];
      if i == 0 {
        if x != [0] {
          NoKey(t, b, got, ReadIntegers(b[p..], num - i - 1));
          return None;
        }
        BlobStart(t, got);
      } else {
        if i == 1 { modulus := x; }
        assert got[..i] == before;
        var longer := ExtendBlob(t, blob, i, x, modulus, got);
        if |longer| > BLOB_SIZE {
          NoKey(t, b, got, ReadIntegers(b[p..], num - i - 1));
          return None;
        }
        blob := longer;
      }
      i := i + 1;
    }
    AllRead(b[p..], got);
    BlobSoFarIsAssembled(t, got);
    ReadEnds(t, b, got);
    match GetPrivKey(blob, AnyType)
    case Got(k, _) => return Some(k);
    case Bad => return None;
    case Gone => return None;
  }

  lemma NoSequence(t: KeyType, b: seq<byte>)
    requires t != AnyType && (BerRead(b).None? || BerRead(b).value.id != 16)
    ensures Read(t, b) == None
  {
  }

  lemma ReadEnds(t: KeyType, b: seq<byte>, got: seq<seq<byte>>)
    requires t != AnyType && BerRead(b).Some? && BerRead(b).value.id == 16
    requires ReadIntegers(b[BerRead(b).value.used..], if t == RsaType then 9 else 6) == Some(got)
    requires got[0] == [0] && |Assemble(t, got)| <= BLOB_SIZE
    ensures Read(t, b) == match GetPrivKey(Assemble(t, got), AnyType) case Got(k, _) => Some(k) case Bad => None case Gone => None
  {
    hide BerRead, ReadIntegers, GetPrivKey, Assemble;
  }

  /** The blob with what integer i adds. */
  method ExtendBlob(t: KeyType, blob: seq<byte>, i: nat, x: seq<byte>, modulus: seq<byte>, ghost got: seq<seq<byte>>) returns (longer: seq<byte>)
    requires i >= 1 && |got| == i + 1 && got[i] == x && modulus == got[1] && t != AnyType && blob == BlobSoFar(t, got[..i])
    ensures longer == BlobSoFar(t, got)
  {
    hide BlobSoFar, Added;
    var more := Contribution(t, i, x, modulus, got);
    assert got[..i + 1] == got;
    BlobStep(t, got, i + 1);
    longer := blob + more;
  }

  /** The strings put for integer i: none for the modulus, which follows the exponent. */
  method Contribution(t: KeyType, i: nat, x: seq<byte>, modulus: seq<byte>, ghost got: seq<seq<byte>>) returns (more: seq<byte>)
    requires i >= 1 && |got| == i + 1 && got[i] == x && modulus == got[1] && t != AnyType
    ensures more == Added(t, got)
  {
    more := [];
    if t == RsaType {
      if 2 <= i <= 5 {
        more := PutString(x);
        if i == 2 { more := more + PutString(modulus); }
      }
    } else {
      more := PutString(x);
    }
  }

  lemma PrependNothing(r: Option<seq<seq<byte>>>)
    ensures Prepend([], r) == r
  {
    if r.Some? { assert [] + r.value == r.value; }
  }

  lemma BadInteger(b: seq<byte>, count: nat)
    requires count > 0 && var r := BerRead(b); r.None? || r.value.id != 2 || |b| - r.value.used < r.value.length
    ensures ReadIntegers(b, count) == None
  {
  }

  lemma AllRead(b: seq<byte>, got: seq<seq<byte>>)
    ensures Prepend(got, ReadIntegers(b, 0)) == Some(got)
  {
    assert got + [] == got;
  }
}
