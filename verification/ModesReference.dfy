/**
  The chaining modes as FIPS 81 writes them: each block, byte or unit of the output from its place
  in the input and what came before, on bytes alone.
*/
module ModesReference {
  import opened Des
  import opened DesModes

  /** The block cipher on eight bytes. */
  function OnBytes(E: Cipher, b: seq<bv8>): (c: seq<bv8>)
    requires |b| == 8
    ensures |c| == 8
  {
    Store(E(Load(b)))
  }

  function XorBytes(a: seq<bv8>, b: seq<bv8>): (c: seq<bv8>)
    requires |a| == |b|
    ensures |c| == |a| && forall i :: 0 <= i < |a| ==> c[i] == Xor8(a[i], b[i])
  {
    seq(|a|, i requires 0 <= i < |a| => Xor8(a[i], b[i]))
  }

  /** Block i of a message, a short last one filled up with zeros. */
  function BlockAt(m: seq<bv8>, i: nat): (b: seq<bv8>)
    requires 8 * i < |m|
    ensures |b| == 8
  {
    if 8 * i + 8 <= |m| then m[8 * i..8 * i + 8] else m[8 * i..] + ZeroBytes(8 - (|m| - 8 * i))
  }

  /** c2l puts the first byte at the bottom. */
  lemma WordValue(b0: bv8, b1: bv8, b2: bv8, b3: bv8)
    ensures var w := Word(b0, b1, b2, b3);
      && w & 0xff == b0 as bv32 && (w >> 8) & 0xff == b1 as bv32 && (w >> 16) & 0xff == b2 as bv32 && w >> 24 == b3 as bv32
  {
  }

  lemma XorWords(a0: bv8, a1: bv8, a2: bv8, a3: bv8, b0: bv8, b1: bv8, b2: bv8, b3: bv8)
    ensures Xor(Word(a0, a1, a2, a3), Word(b0, b1, b2, b3)) == Word(Xor8(a0, b0), Xor8(a1, b1), Xor8(a2, b2), Xor8(a3, b3))
  {
  }

  /** The words are xored byte by byte. */
  lemma XorLoaded(a: seq<bv8>, b: seq<bv8>)
    requires |a| == |b| == 8
    ensures XorBlock(Load(a), Load(b)) == Load(XorBytes(a, b))
  {
    hide Word, Xor, Xor8;
    XorWords(a[0], a[1], a[2], a[3], b[0], b[1], b[2], b[3]);
    XorWords(a[4], a[5], a[6], a[7], b[4], b[5], b[6], b[7]);
  }

  lemma XorStored(x: Block, b: seq<bv8>)
    requires |b| == 8
    ensures Store(XorBlock(x, Load(b))) == XorBytes(Store(x), b)
  {
    hide Load, Store, XorBlock, Xor8;
    LoadStore(x);
    XorLoaded(Store(x), b);
    StoreLoad(XorBytes(Store(x), b));
  }

  // --------------------------------------------------------------------- CBC

  /** Block i of the cipher text is the encryption of block i of the text xored with the cipher block
      before it, or with the initial vector. */
  predicate CipherBlock(E: Cipher, iv: seq<bv8>, m: seq<bv8>, c: seq<bv8>, i: nat)
    requires |iv| == 8
  {
    8 * i < |m| && 8 * i + 8 <= |c|
    && c[8 * i..8 * i + 8] == OnBytes(E, XorBytes(BlockAt(m, i), if i == 0 then iv else c[8 * i - 8..8 * i]))
  }

  lemma CipherLater(E: Cipher, iv: seq<bv8>, m: seq<bv8>, head: seq<bv8>, rest: seq<bv8>, i: nat)
    requires |iv| == |head| == 8 && i > 0 && |m| > 8 && CipherBlock(E, head, m[8..], rest, i - 1)
    ensures CipherBlock(E, iv, m, head + rest, i)
  {
    hide OnBytes, XorBytes;
    var c := head + rest;
    Shifted8(m, i);
    assert c[8 * i..8 * i + 8] == rest[8 * (i - 1)..8 * (i - 1) + 8];
    if i > 1 { assert c[8 * i - 8..8 * i] == rest[8 * (i - 1) - 8..8 * (i - 1)]; } else { assert c[0..8] == head; }
  }

  lemma Shifted8(m: seq<bv8>, i: nat)
    requires i > 0 && 8 * i < |m|
    ensures BlockAt(m[8..], i - 1) == BlockAt(m, i)
  {
  }

  /** Every block, for every length; and the last cipher block is carried on. */
  lemma {:induction false} CbcEncryptIs(E: Cipher, iv: seq<bv8>, m: seq<bv8>, i: nat)
    requires |iv| == 8 && 8 * i < |m|
    ensures var x := CbcEncrypt(E, Load(iv), m);
      |x.bytes| == Whole(|m|) >= 8 && CipherBlock(E, iv, m, x.bytes, i) && x.iv == Load(x.bytes[Whole(|m|) - 8..])
    decreases |m|
  {
    hide Load, Store, XorBlock, Xor8, CipherBlock, XorBytes, Whole;
    CbcLength(E, Load(iv), m);
    WholeStep(|m|);
    var x := CbcEncrypt(E, Load(iv), m);
    var head := OnBytes(E, XorBytes(BlockAt(m, 0), iv));
    var rest := if |m| < 8 then Chained([], Load(head)) else CbcEncrypt(E, Load(head), m[8..]);
    assert x == Chained(head + rest.bytes, rest.iv) by { EncryptStep(E, iv, m); }
    assert CipherBlock(E, iv, m, x.bytes, 0) by { FirstCipher(E, iv, m, rest.bytes); }
    if |m| > 8 {
      CbcEncryptIs(E, head, m[8..], if i == 0 then 0 else i - 1);
      WholeStep(|m| - 8);
      assert rest.bytes[Whole(|m| - 8) - 8..] == x.bytes[Whole(|m|) - 8..];
      if i > 0 { CipherLater(E, iv, m, head, rest.bytes, i); }
    } else {
      assert rest == Chained([], Load(head)) by { if |m| == 8 { NothingEncrypted(E, Load(head), m[8..]); } }
      assert x.bytes[0..] == head;
    }
  }

  lemma EncryptStep(E: Cipher, iv: seq<bv8>, m: seq<bv8>)
    requires |iv| == 8 && m != []
    ensures var head := OnBytes(E, XorBytes(BlockAt(m, 0), iv));
      var rest := if |m| < 8 then Chained([], Load(head)) else CbcEncrypt(E, Load(head), m[8..]);
      CbcEncrypt(E, Load(iv), m) == Chained(head + rest.bytes, rest.iv)
  {
    hide Load, Store, XorBlock, XorBytes, LoadShort, BlockAt;
    var b := BlockAt(m, 0);
    FirstLoaded(m);
    XorLoaded(b, iv);
    LoadStore(E(Load(XorBytes(b, iv))));
    var head := OnBytes(E, XorBytes(b, iv));
    assert head + [] == head;
  }

  lemma FirstLoaded(m: seq<bv8>)
    requires m != []
    ensures if |m| < 8 then LoadShort(m) == Load(BlockAt(m, 0)) else Load(m[..8]) == Load(BlockAt(m, 0))
  {
    hide Load;
    if |m| < 8 { assert m[0..] == m; } else { assert m[0..8] == m[..8]; }
  }

  lemma FirstCipher(E: Cipher, iv: seq<bv8>, m: seq<bv8>, rest: seq<bv8>)
    requires |iv| == 8 && m != []
    ensures CipherBlock(E, iv, m, OnBytes(E, XorBytes(BlockAt(m, 0), iv)) + rest, 0)
  {
  }

  lemma NothingEncrypted(E: Cipher, iv: Block, m: seq<bv8>)
    requires m == []
    ensures CbcEncrypt(E, iv, m) == Chained([], iv)
  {
  }

  /** Block i of the text is the decryption of block i of the cipher text xored with the cipher block
      before it, or with the initial vector, cut to the length wanted. */
  predicate PlainBlock(D: Cipher, iv: seq<bv8>, c: seq<bv8>, p: seq<bv8>, i: nat)
    requires |iv| == 8
  {
    8 * i < |p| && 8 * i + 8 <= |c|
    && var x := XorBytes(OnBytes(D, c[8 * i..8 * i + 8]), if i == 0 then iv else c[8 * i - 8..8 * i]);
       if 8 * i + 8 <= |p| then p[8 * i..8 * i + 8] == x else p[8 * i..] == x[..|p| - 8 * i]
  }

  lemma PlainLater(D: Cipher, iv: seq<bv8>, c: seq<bv8>, head: seq<bv8>, rest: seq<bv8>, i: nat)
    requires |iv| == |head| == 8 && i > 0 && |c| > 8 && PlainBlock(D, c[..8], c[8..], rest, i - 1)
    ensures PlainBlock(D, iv, c, head + rest, i)
  {
    hide OnBytes, XorBytes;
    var p := head + rest;
    TailSlice(c[..8], c[8..], 8 * i, 8 * i + 8);
    assert c[..8] + c[8..] == c;
    if i > 1 { TailSlice(c[..8], c[8..], 8 * i - 8, 8 * i); } else { assert c[0..8] == c[..8]; }
    if 8 * i + 8 <= |p| { TailSlice(head, rest, 8 * i, 8 * i + 8); } else { TailSlice(head, rest, 8 * i, |p|); }
  }

  /** A slice past the first eight bytes. */
  lemma TailSlice(a: seq<bv8>, b: seq<bv8>, i: nat, j: nat)
    requires |a| == 8 <= i <= j <= 8 + |b|
    ensures (a + b)[i..j] == b[i - 8..j - 8]
    ensures j == 8 + |b| ==> (a + b)[i..] == b[i - 8..]
  {
  }

  lemma {:induction false} CbcDecryptIs(D: Cipher, iv: seq<bv8>, c: seq<bv8>, len: nat, i: nat)
    requires |iv| == 8 && |c| == Whole(len) && 8 * i < len
    ensures var x := CbcDecrypt(D, Load(iv), c, len);
      |x.bytes| == len && |c| >= 8 && PlainBlock(D, iv, c, x.bytes, i) && x.iv == Load(c[Whole(len) - 8..])
    decreases len
  {
    hide Load, Store, XorBlock, Xor8, PlainBlock, XorBytes, Whole;
    WholeStep(len);
    var x := CbcDecrypt(D, Load(iv), c, len);
    var head := XorBytes(OnBytes(D, c[..8]), iv);
    DecryptStep(D, iv, c, len);
    if len < 8 {
      assert x.bytes == head[..len];
      FirstPlain(D, iv, c, head[..len]);
      assert c[0..] == c && c[..8] == c;
    } else {
      var rest := CbcDecrypt(D, Load(c[..8]), c[8..], len - 8);
      assert x == Chained(head + rest.bytes, rest.iv);
      FirstPlain(D, iv, c, head + rest.bytes);
      if len > 8 {
        CbcDecryptIs(D, c[..8], c[8..], len - 8, if i == 0 then 0 else i - 1);
        WholeStep(len - 8);
        assert c[8..][Whole(len - 8) - 8..] == c[Whole(len) - 8..];
        if i > 0 { PlainLater(D, iv, c, head, rest.bytes, i); }
      } else {
        NothingDecrypted(D, Load(c[..8]), c[8..]);
        assert c[0..] == c[..8] && head + [] == head;
      }
    }
  }

  lemma DecryptStep(D: Cipher, iv: seq<bv8>, c: seq<bv8>, len: nat)
    requires |iv| == 8 && |c| == Whole(len) && len > 0 && |c| >= 8 && (len >= 8 ==> |c| - 8 == Whole(len - 8))
    ensures var head := XorBytes(OnBytes(D, c[..8]), iv);
      CbcDecrypt(D, Load(iv), c, len) ==
        if len < 8 then Chained(head[..len], Load(c[..8]))
        else var rest := CbcDecrypt(D, Load(c[..8]), c[8..], len - 8); Chained(head + rest.bytes, rest.iv)
  {
    hide Load, Store, XorBlock, XorBytes;
    XorStored(D(Load(c[..8])), iv);
  }

  lemma FirstPlain(D: Cipher, iv: seq<bv8>, c: seq<bv8>, p: seq<bv8>)
    requires |iv| == 8 && |c| >= 8 && p != []
    requires var head := XorBytes(OnBytes(D, c[..8]), iv); if |p| < 8 then p == head[..|p|] else p[..8] == head
    ensures PlainBlock(D, iv, c, p, 0)
  {
    hide OnBytes, XorBytes;
    assert c[0..8] == c[..8] && p[0..] == p;
    if |p| >= 8 { assert p[0..8] == p[..8]; }
  }

  lemma NothingDecrypted(D: Cipher, iv: Block, c: seq<bv8>)
    requires c == []
    ensures |c| == Whole(0) && CbcDecrypt(D, iv, c, 0) == Chained([], iv)
  {
  }

  // --------------------------------------------------------------------- CFB

  /** Byte j of the output is byte j of the input xored with a byte of the encryption of the eight
      cipher bytes before its block of eight, or of the initial vector. */
  predicate KeyedByte(E: Cipher, iv: seq<bv8>, m: seq<bv8>, cipher: seq<bv8>, out: seq<bv8>, j: nat)
    requires |iv| == 8
  {
    var b := j / 8 * 8;
    && j < |m| == |out| == |cipher| && b <= j
    && out[j] == Xor8(m[j], OnBytes(E, if b == 0 then iv else cipher[b - 8..b])[j % 8])
  }

  /** The cipher bytes are the output to encrypt, the input to decrypt. */
  lemma {:induction false} Cfb64Is(E: Cipher, iv: seq<bv8>, m: seq<bv8>, enc: bool, j: nat)
    requires |iv| == 8 && j < |m|
    ensures var out := Cfb64(E, Reg(iv, 0), m, enc).bytes; KeyedByte(E, iv, m, if enc then out else m, out, j)
    decreases |m|
  {
    hide Load, Store, Xor8, Cfb64, OnBytes, KeyedByte;
    if |m| <= 8 {
      FirstKeyed(E, iv, m, enc, j);
    } else {
      var a, rest := m[..8], m[8..];
      assert m == a + rest;
      CfbSplit(E, Reg(iv, 0), a, rest, enc);
      var y := Cfb64(E, Reg(iv, 0), a, enc);
      var next := if enc then y.bytes else a;
      assert y.r == Reg(next, 0) by { FullRegister(E, iv, a, enc); }
      var z := Cfb64(E, y.r, rest, enc);
      var c := if enc then z.bytes else rest;
      if j < 8 {
        FirstKeyed(E, iv, a, enc, j);
        KeyedSooner(E, iv, a, next, y.bytes, rest, c, z.bytes, j);
      } else {
        Cfb64Is(E, next, rest, enc, j - 8);
        KeyedLater(E, iv, a, next, y.bytes, rest, c, z.bytes, j);
      }
    }
  }

  lemma KeyedSooner(E: Cipher, iv: seq<bv8>, a: seq<bv8>, c: seq<bv8>, p: seq<bv8>, a1: seq<bv8>, c1: seq<bv8>, p1: seq<bv8>, j: nat)
    requires |iv| == |a| == |c| == |p| == 8 && |a1| == |c1| == |p1| && j < 8 && KeyedByte(E, iv, a, c, p, j)
    ensures KeyedByte(E, iv, a + a1, c + c1, p + p1, j)
  {
    hide OnBytes, Xor8;
    assert j / 8 == 0;
  }

  lemma KeyedLater(E: Cipher, iv: seq<bv8>, a: seq<bv8>, c: seq<bv8>, p: seq<bv8>, a1: seq<bv8>, c1: seq<bv8>, p1: seq<bv8>, j: nat)
    requires |iv| == |a| == |c| == |p| == 8 && j >= 8 && KeyedByte(E, c, a1, c1, p1, j - 8)
    ensures KeyedByte(E, iv, a + a1, c + c1, p + p1, j)
  {
    hide OnBytes, Xor8;
    Eights(j);
    JoinedBefore(c, c1, j / 8 * 8);
  }

  /** The eight bytes before b, when the first eight are c. */
  lemma JoinedBefore(c: seq<bv8>, c1: seq<bv8>, b: nat)
    requires |c| == 8 && 8 <= b <= 8 + |c1|
    ensures (c + c1)[b - 8..b] == if b == 8 then c else if b >= 16 then c1[b - 16..b - 8] else (c + c1)[b - 8..b]
  {
  }

  lemma FirstKeyed(E: Cipher, iv: seq<bv8>, m: seq<bv8>, enc: bool, j: nat)
    requires |iv| == 8 && j < |m| <= 8
    ensures var out := Cfb64(E, Reg(iv, 0), m, enc).bytes; KeyedByte(E, iv, m, if enc then out else m, out, j)
  {
    hide Cfb64, OnBytes, Xor8;
    FilledUp(E, iv, m, enc);
    assert j / 8 == 0 && j % 8 == j;
  }

  lemma Eights(j: nat)
    requires j >= 8
    ensures (j - 8) / 8 * 8 == j / 8 * 8 - 8 && (j - 8) % 8 == j % 8 && 8 <= j / 8 * 8 <= j && j / 8 * 8 % 8 == 0
    ensures j / 8 * 8 > 8 ==> j / 8 * 8 >= 16
  {
  }

  /** Bytes xored with the beginning of a key stream. */
  predicate Keyed(m: seq<bv8>, out: seq<bv8>, key: seq<bv8>)
    requires |m| == |out| <= |key|
  {
    forall i :: 0 <= i < |m| ==> out[i] == Xor8(m[i], key[i])
  }

  /** The register after n bytes of a block: cipher bytes, then what is left of the key stream. */
  predicate Filled(E: Cipher, iv: seq<bv8>, m: seq<bv8>, enc: bool, x: Cfb)
    requires |iv| == 8 && 0 < |m| <= 8
  {
    var key := OnBytes(E, iv);
    && |x.bytes| == |m| && Keyed(m, x.bytes, key)
    && x.r == Reg((if enc then x.bytes else m) + key[|m|..], |m| % 8)
  }

  lemma {:induction false} FilledUp(E: Cipher, iv: seq<bv8>, m: seq<bv8>, enc: bool)
    requires |iv| == 8 && 0 < |m| <= 8
    ensures Filled(E, iv, m, enc, Cfb64(E, Reg(iv, 0), m, enc))
    decreases |m|
  {
    hide Cfb64, Filled, CfbByte;
    var n := |m| - 1;
    var a, b := m[..n], m[n..];
    assert m == a + b && b == [m[n]];
    CfbSplit(E, Reg(iv, 0), a, b, enc);
    var y := Cfb64(E, Reg(iv, 0), a, enc);
    if n > 0 {
      FilledUp(E, iv, a, enc);
    } else {
      assert y == Cfb(Reg(iv, 0), []) by { NoBytes(E, Reg(iv, 0), a, enc); }
    }
    OneByteOf(E, y.r, b, enc);
    FilledMore(E, iv, a, enc, y, m[n]);
  }

  lemma NoBytes(E: Cipher, r: Reg, m: seq<bv8>, enc: bool)
    requires RegOK(r) && m == []
    ensures Cfb64(E, r, m, enc) == Cfb(r, [])
  {
  }

  lemma FilledMore(E: Cipher, iv: seq<bv8>, a: seq<bv8>, enc: bool, y: Cfb, b: bv8)
    requires |iv| == 8 && |a| < 8 && if a == [] then y == Cfb(Reg(iv, 0), []) else Filled(E, iv, a, enc, y)
    ensures RegOK(y.r) && var z := CfbByte(E, y.r, b, enc); Filled(E, iv, a + [b], enc, Cfb(z.r, y.bytes + z.bytes))
  {
    var n, key := |a|, OnBytes(E, iv);
    var before := if enc then y.bytes else a;
    Refilled(E, iv, a, enc, y);
    var c := Xor8(b, key[n]);
    var d := if enc then c else b;
    hide *;
    StreamByte(before, key, n);
    ByteIs(E, y.r, b, enc, before + key[n..]);
    NextStream(before, key, n, d);
    Appended(a, b, y.bytes, c, key);
    SameSide(a, b, y.bytes, c, enc);
    FilledIs(E, iv, a + [b], enc, y.bytes + [c], Reg(before + [d] + key[n + 1..], (n + 1) % 8), before + [d]);
  }

  lemma SameSide(a: seq<bv8>, b: bv8, out: seq<bv8>, c: bv8, enc: bool)
    ensures (if enc then out + [c] else a + [b]) == (if enc then out else a) + [if enc then c else b]
  {
  }

  lemma ByteIs(E: Cipher, r: Reg, b: bv8, enc: bool, reg: seq<bv8>)
    requires RegOK(r) && Refill(E, r) == reg
    ensures |reg| == 8
    ensures var c := Xor8(b, reg[r.n]); CfbByte(E, r, b, enc) == Cfb(Reg(reg[r.n := if enc then c else b], (r.n + 1) % 8), [c])
  {
    hide Refill, Xor8;
  }

  lemma Appended(a: seq<bv8>, b: bv8, out: seq<bv8>, c: bv8, key: seq<bv8>)
    requires |a| == |out| < 8 == |key| && c == Xor8(b, key[|a|])
    requires Keyed(a, out, key)
    ensures Keyed(a + [b], out + [c], key)
  {
    hide Xor8;
  }

  lemma Refilled(E: Cipher, iv: seq<bv8>, a: seq<bv8>, enc: bool, y: Cfb)
    requires |iv| == 8 && |a| < 8 && if a == [] then y == Cfb(Reg(iv, 0), []) else Filled(E, iv, a, enc, y)
    ensures |y.bytes| == |a| && Keyed(a, y.bytes, OnBytes(E, iv))
    ensures y.r.n == |a| && RegOK(y.r) && Refill(E, y.r) == (if enc then y.bytes else a) + OnBytes(E, iv)[|a|..]
  {
    hide Load, Store, Xor8;
    var key := OnBytes(E, iv);
    assert [] + key[0..] == key;
  }

  lemma StreamByte(before: seq<bv8>, key: seq<bv8>, n: nat)
    requires |before| == n < 8 == |key|
    ensures (before + key[n..])[n] == key[n]
  {
  }

  lemma NextStream(before: seq<bv8>, key: seq<bv8>, n: nat, c: bv8)
    requires |before| == n < 8 == |key|
    ensures (before + key[n..])[n := c] == (before + [c]) + key[n + 1..]
  {
  }

  lemma FilledIs(E: Cipher, iv: seq<bv8>, m: seq<bv8>, enc: bool, bytes: seq<bv8>, r: Reg, cipher: seq<bv8>)
    requires |iv| == 8 && 0 < |m| <= 8 && |bytes| == |m|
    requires Keyed(m, bytes, OnBytes(E, iv))
    requires cipher == (if enc then bytes else m) && r == Reg(cipher + OnBytes(E, iv)[|m|..], |m| % 8)
    ensures Filled(E, iv, m, enc, Cfb(r, bytes))
  {
    hide OnBytes, Xor8;
  }

  lemma OneByteOf(E: Cipher, r: Reg, b: seq<bv8>, enc: bool)
    requires RegOK(r) && |b| == 1
    ensures Cfb64(E, r, b, enc) == CfbByte(E, r, b[0], enc)
  {
    var x := CfbByte(E, r, b[0], enc);
    assert b[1..] == [] && x.bytes + [] == x.bytes;
    hide CfbByte;
  }

  lemma FullRegister(E: Cipher, iv: seq<bv8>, m: seq<bv8>, enc: bool)
    requires |iv| == 8 && |m| == 8
    ensures var x := Cfb64(E, Reg(iv, 0), m, enc); x.r == Reg(if enc then x.bytes else m, 0)
  {
    hide Cfb64;
    FilledUp(E, iv, m, enc);
    var x := Cfb64(E, Reg(iv, 0), m, enc);
    assert OnBytes(E, iv)[8..] == [];
    assert x.bytes + [] == x.bytes && m + [] == m;
  }

  // ------------------------------------------------- CFB with 1 to 64 bits

  lemma Funnel8(lo: bv32, hi: bv32)
    ensures var w := Funnel(lo, hi, 8); Byte0(w) == Byte1(lo) && Byte1(w) == Byte2(lo) && Byte2(w) == Byte3(lo) && Byte3(w) == Byte0(hi)
  {
  }

  lemma Funnel16(lo: bv32, hi: bv32)
    ensures var w := Funnel(lo, hi, 16); Byte0(w) == Byte2(lo) && Byte1(w) == Byte3(lo) && Byte2(w) == Byte0(hi) && Byte3(w) == Byte1(hi)
  {
  }

  lemma Funnel24(lo: bv32, hi: bv32)
    ensures var w := Funnel(lo, hi, 24); Byte0(w) == Byte3(lo) && Byte1(w) == Byte0(hi) && Byte2(w) == Byte1(hi) && Byte3(w) == Byte2(hi)
  {
  }

  lemma Taken1(v: Block, d: Block)
    ensures Shift(v, d, 8) == ShiftLow(v, d, 8)
  {
    hide ShiftLow, ShiftHigh;
  }

  lemma Parts1(v: Block, d: Block)
    ensures ShiftLow(v, d, 8) == Block(Funnel(v.a, v.b, 8), Funnel(v.b, d.a, 8))
  {
    hide Funnel;
  }

  lemma Shift1(v: Block, d: Block)
    ensures Store(Shift(v, d, 8)) == (Store(v) + Store(d))[1..9]
  {
    hide Byte0, Byte1, Byte2, Byte3, Funnel, ShiftLow, ShiftHigh, Shift;
    Taken1(v, d);
    Straddle(Store(v), Store(d), 1);
    Parts1(v, d);
    Funnel8(v.a, v.b);
    Funnel8(v.b, d.a);
    EightAre(Funnel(v.a, v.b, 8), Funnel(v.b, d.a, 8), Store(v)[1..] + Store(d)[..1]);
  }

  lemma Taken2(v: Block, d: Block)
    ensures Shift(v, d, 16) == ShiftLow(v, d, 16)
  {
    hide ShiftLow, ShiftHigh;
  }

  lemma Parts2(v: Block, d: Block)
    ensures ShiftLow(v, d, 16) == Block(Funnel(v.a, v.b, 16), Funnel(v.b, d.a, 16))
  {
    hide Funnel;
  }

  lemma Shift2(v: Block, d: Block)
    ensures Store(Shift(v, d, 16)) == (Store(v) + Store(d))[2..10]
  {
    hide Byte0, Byte1, Byte2, Byte3, Funnel, ShiftLow, ShiftHigh, Shift;
    Taken2(v, d);
    Straddle(Store(v), Store(d), 2);
    Parts2(v, d);
    Funnel16(v.a, v.b);
    Funnel16(v.b, d.a);
    EightAre(Funnel(v.a, v.b, 16), Funnel(v.b, d.a, 16), Store(v)[2..] + Store(d)[..2]);
  }

  lemma Taken3(v: Block, d: Block)
    ensures Shift(v, d, 24) == ShiftLow(v, d, 24)
  {
    hide ShiftLow, ShiftHigh;
  }

  lemma Parts3(v: Block, d: Block)
    ensures ShiftLow(v, d, 24) == Block(Funnel(v.a, v.b, 24), Funnel(v.b, d.a, 24))
  {
    hide Funnel;
  }

  lemma Shift3(v: Block, d: Block)
    ensures Store(Shift(v, d, 24)) == (Store(v) + Store(d))[3..11]
  {
    hide Byte0, Byte1, Byte2, Byte3, Funnel, ShiftLow, ShiftHigh, Shift;
    Taken3(v, d);
    Straddle(Store(v), Store(d), 3);
    Parts3(v, d);
    Funnel24(v.a, v.b);
    Funnel24(v.b, d.a);
    EightAre(Funnel(v.a, v.b, 24), Funnel(v.b, d.a, 24), Store(v)[3..] + Store(d)[..3]);
  }

  lemma Taken5(v: Block, d: Block)
    ensures Shift(v, d, 40) == ShiftHigh(v, d, 8)
  {
    hide ShiftLow, ShiftHigh;
  }

  lemma Parts5(v: Block, d: Block)
    ensures ShiftHigh(v, d, 8) == Block(Funnel(v.b, d.a, 8), Funnel(d.a, d.b, 8))
  {
    hide Funnel;
  }

  lemma Shift5(v: Block, d: Block)
    ensures Store(Shift(v, d, 40)) == (Store(v) + Store(d))[5..13]
  {
    hide Byte0, Byte1, Byte2, Byte3, Funnel, ShiftLow, ShiftHigh, Shift;
    Taken5(v, d);
    Straddle(Store(v), Store(d), 5);
    Parts5(v, d);
    Funnel8(v.b, d.a);
    Funnel8(d.a, d.b);
    EightAre(Funnel(v.b, d.a, 8), Funnel(d.a, d.b, 8), Store(v)[5..] + Store(d)[..5]);
  }

  lemma Taken6(v: Block, d: Block)
    ensures Shift(v, d, 48) == ShiftHigh(v, d, 16)
  {
    hide ShiftLow, ShiftHigh;
  }

  lemma Parts6(v: Block, d: Block)
    ensures ShiftHigh(v, d, 16) == Block(Funnel(v.b, d.a, 16), Funnel(d.a, d.b, 16))
  {
    hide Funnel;
  }

  lemma Shift6(v: Block, d: Block)
    ensures Store(Shift(v, d, 48)) == (Store(v) + Store(d))[6..14]
  {
    hide Byte0, Byte1, Byte2, Byte3, Funnel, ShiftLow, ShiftHigh, Shift;
    Taken6(v, d);
    Straddle(Store(v), Store(d), 6);
    Parts6(v, d);
    Funnel16(v.b, d.a);
    Funnel16(d.a, d.b);
    EightAre(Funnel(v.b, d.a, 16), Funnel(d.a, d.b, 16), Store(v)[6..] + Store(d)[..6]);
  }

  lemma Taken7(v: Block, d: Block)
    ensures Shift(v, d, 56) == ShiftHigh(v, d, 24)
  {
    hide ShiftLow, ShiftHigh;
  }

  lemma Parts7(v: Block, d: Block)
    ensures ShiftHigh(v, d, 24) == Block(Funnel(v.b, d.a, 24), Funnel(d.a, d.b, 24))
  {
    hide Funnel;
  }

  lemma Shift7(v: Block, d: Block)
    ensures Store(Shift(v, d, 56)) == (Store(v) + Store(d))[7..15]
  {
    hide Byte0, Byte1, Byte2, Byte3, Funnel, ShiftLow, ShiftHigh, Shift;
    Taken7(v, d);
    Straddle(Store(v), Store(d), 7);
    Parts7(v, d);
    Funnel24(v.b, d.a);
    Funnel24(d.a, d.b);
    EightAre(Funnel(v.b, d.a, 24), Funnel(d.a, d.b, 24), Store(v)[7..] + Store(d)[..7]);
  }

  lemma Shift4(v: Block, d: Block)
    ensures Store(Shift(v, d, 32)) == (Store(v) + Store(d))[4..12] && Store(Shift(v, d, 64)) == (Store(v) + Store(d))[8..16]
  {
    hide Byte0, Byte1, Byte2, Byte3, ShiftLow, ShiftHigh;
    Straddle(Store(v), Store(d), 4);
    Straddle(Store(v), Store(d), 8);
    assert Store(Block(v.b, d.a)) == Store(v)[4..] + Store(d)[..4];
    assert Store(v)[8..] + Store(d)[..8] == Store(d);
  }

  /** Eight bytes of two words, one by one. */
  lemma EightAre(x: bv32, y: bv32, b: seq<bv8>)
    requires |b| == 8 && b[0] == Byte0(x) && b[1] == Byte1(x) && b[2] == Byte2(x) && b[3] == Byte3(x)
    requires b[4] == Byte0(y) && b[5] == Byte1(y) && b[6] == Byte2(y) && b[7] == Byte3(y)
    ensures Store(Block(x, y)) == b
  {
    hide Byte0, Byte1, Byte2, Byte3;
  }

  lemma Straddle(a: seq<bv8>, b: seq<bv8>, n: nat)
    requires |a| == |b| == 8 && n <= 8
    ensures (a + b)[n..n + 8] == a[n..] + b[..n]
  {
  }

  /** With units of whole bytes the shift register is a queue of eight bytes: a unit goes in at the end
      and as many bytes leave at the front. */
  lemma ShiftsBytes(v: Block, d: Block, n: nat)
    requires 1 <= n <= 8
    ensures Store(Shift(v, d, 8 * n)) == (Store(v) + Store(d))[n..n + 8]
  {
    hide Store, Shift;
    match n
    case 1 => Shift1(v, d);
    case 2 => Shift2(v, d);
    case 3 => Shift3(v, d);
    case 5 => Shift5(v, d);
    case 6 => Shift6(v, d);
    case 7 => Shift7(v, d);
    case _ => Shift4(v, d);
  }
}
