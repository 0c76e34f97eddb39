/**
  The chaining modes of libdes: CBC (cbc_enc.c, des_enc.c), 64-bit CFB (cfb64enc.c,
  cfb64ede.c) and CFB with 1 to 64 feedback bits (cfb_enc.c), over any block cipher.
*/
module DesModes {
  import opened Des

  type Cipher = Block -> Block

  /** D undoes E. */
  ghost predicate Inverse(E: Cipher, D: Cipher) {
    forall x {:trigger E(x)} :: D(E(x)) == x
  }

  // ------------------------------------------------------- bytes and words

  /** c2l. */
  function Word(b0: bv8, b1: bv8, b2: bv8, b3: bv8): bv32 {
    (b0 as bv32) | ((b1 as bv32) << 8) | ((b2 as bv32) << 16) | ((b3 as bv32) << 24)
  }

  /** The bytes that l2c writes. */
  function Byte0(l: bv32): bv8 { (l & 0xff) as bv8 }
  function Byte1(l: bv32): bv8 { ((l >> 8) & 0xff) as bv8 }
  function Byte2(l: bv32): bv8 { ((l >> 16) & 0xff) as bv8 }
  function Byte3(l: bv32): bv8 { ((l >> 24) & 0xff) as bv8 }

  lemma BytesOfWord(b0: bv8, b1: bv8, b2: bv8, b3: bv8)
    ensures var w := Word(b0, b1, b2, b3); Byte0(w) == b0 && Byte1(w) == b1 && Byte2(w) == b2 && Byte3(w) == b3
  {
  }

  lemma WordOfBytes(l: bv32)
    ensures Word(Byte0(l), Byte1(l), Byte2(l), Byte3(l)) == l
  {
  }

  function Load(b: seq<bv8>): Block
    requires |b| == 8
  {
    Block(Word(b[0], b[1], b[2], b[3]), Word(b[4], b[5], b[6], b[7]))
  }

  function Store(x: Block): (b: seq<bv8>)
    ensures |b| == 8
  {
    [Byte0(x.a), Byte1(x.a), Byte2(x.a), Byte3(x.a), Byte0(x.b), Byte1(x.b), Byte2(x.b), Byte3(x.b)]
  }

  lemma StoreLoad(b: seq<bv8>)
    requires |b| == 8
    ensures Store(Load(b)) == b
  {
    hide Word, Byte0, Byte1, Byte2, Byte3;
    BytesOfWord(b[0], b[1], b[2], b[3]);
    BytesOfWord(b[4], b[5], b[6], b[7]);
  }

  lemma LoadStore(x: Block)
    ensures Load(Store(x)) == x
  {
    hide Word, Byte0, Byte1, Byte2, Byte3;
    WordOfBytes(x.a);
    WordOfBytes(x.b);
  }

  function ZeroBytes(n: nat): (z: seq<bv8>)
    ensures |z| == n
  {
    seq(n, i => 0)
  }

  /** c2ln: a short block, with zeros for the missing bytes. */
  function LoadShort(b: seq<bv8>): Block
    requires |b| <= 8
  {
    Load(b + ZeroBytes(8 - |b|))
  }

  /** l2cn. */
  function StoreShort(x: Block, n: nat): (b: seq<bv8>)
    requires n <= 8
    ensures |b| == n
  {
    Store(x)[..n]
  }

  lemma StoreLoadShort(b: seq<bv8>)
    requires |b| <= 8
    ensures StoreShort(LoadShort(b), |b|) == b
  {
    StoreLoad(b + ZeroBytes(8 - |b|));
  }

  function XorBlock(x: Block, y: Block): Block { Block(Xor(x.a, y.a), Xor(x.b, y.b)) }

  lemma XorBlockTwice(x: Block, y: Block)
    ensures XorBlock(XorBlock(x, y), y) == x
  {
    hide Xor;
    XorTwice(x.a, y.a);
    XorTwice(x.b, y.b);
  }

  // --------------------------------------------------------------------- CBC

  /** Bytes produced, and the chaining value left behind. */
  datatype Chained = Chained(bytes: seq<bv8>, iv: Block)

  /** A length rounded up to whole blocks. */
  function Whole(len: nat): nat { (len + 7) / 8 * 8 }

  lemma WholeStep(len: nat)
    ensures len >= 8 ==> Whole(len) == Whole(len - 8) + 8
    ensures 0 < len < 8 ==> Whole(len) == 8
    ensures Whole(0) == 0 && len <= Whole(len)
  {
  }

  function CbcEncrypt(E: Cipher, iv: Block, m: seq<bv8>): Chained
    decreases |m|
  {
    if m == [] then Chained([], iv)
    else if |m| < 8 then
      var c := E(XorBlock(LoadShort(m), iv));
      Chained(Store(c), c)
    else
      var c := E(XorBlock(Load(m[..8]), iv));
      var rest := CbcEncrypt(E, c, m[8..]);
      Chained(Store(c) + rest.bytes, rest.iv)
  }

  /** The last block is read whole even when fewer bytes are wanted. */
  function CbcDecrypt(D: Cipher, iv: Block, c: seq<bv8>, len: nat): Chained
    requires |c| == Whole(len)
    decreases len
  {
    WholeStep(len);
    if len == 0 then Chained([], iv)
    else
      var x := Load(c[..8]);
      var p := XorBlock(D(x), iv);
      if len < 8 then Chained(StoreShort(p, len), x)
      else
        var rest := CbcDecrypt(D, x, c[8..], len - 8);
        Chained(Store(p) + rest.bytes, rest.iv)
  }

  lemma {:induction false} CbcLength(E: Cipher, iv: Block, m: seq<bv8>)
    ensures |CbcEncrypt(E, iv, m).bytes| == Whole(|m|)
    decreases |m|
  {
    hide Load, Store, XorBlock, Whole;
    WholeStep(|m|);
    if |m| >= 8 { CbcLength(E, E(XorBlock(Load(m[..8]), iv)), m[8..]); }
  }

  /** For every length, decryption returns the message and leaves the same chaining value. */
  lemma {:induction false} CbcRoundTrip(E: Cipher, D: Cipher, iv: Block, m: seq<bv8>)
    requires Inverse(E, D)
    ensures var c := CbcEncrypt(E, iv, m);
      |c.bytes| == Whole(|m|) && CbcDecrypt(D, iv, c.bytes, |m|) == Chained(m, c.iv)
    decreases |m|
  {
    hide Load, Store, XorBlock;
    CbcLength(E, iv, m);
    if 0 < |m| < 8 {
      var x := XorBlock(LoadShort(m), iv);
      LoadStore(E(x));
      assert Store(E(x))[..8] == Store(E(x));
      XorBlockTwice(LoadShort(m), iv);
      StoreLoadShort(m);
    } else if |m| >= 8 {
      var x := XorBlock(Load(m[..8]), iv);
      var rest := CbcEncrypt(E, E(x), m[8..]);
      var c := Store(E(x)) + rest.bytes;
      assert c[..8] == Store(E(x)) && c[8..] == rest.bytes;
      LoadStore(E(x));
      XorBlockTwice(Load(m[..8]), iv);
      StoreLoad(m[..8]);
      CbcRoundTrip(E, D, E(x), m[8..]);
      assert m[..8] + m[8..] == m;
    }
  }

  /** Encrypting whole blocks and then the rest is encrypting the whole. */
  lemma {:induction false} CbcSplit(E: Cipher, iv: Block, a: seq<bv8>, b: seq<bv8>)
    requires |a| % 8 == 0
    ensures var x := CbcEncrypt(E, iv, a); var y := CbcEncrypt(E, x.iv, b);
      CbcEncrypt(E, iv, a + b) == Chained(x.bytes + y.bytes, y.iv)
    decreases |a|
  {
    hide Load, Store, XorBlock;
    if a == [] {
      assert a + b == b;
      assert [] + CbcEncrypt(E, iv, b).bytes == CbcEncrypt(E, iv, b).bytes;
    } else {
      assert (a + b)[..8] == a[..8] && (a + b)[8..] == a[8..] + b;
      var c := E(XorBlock(Load(a[..8]), iv));
      CbcSplit(E, c, a[8..], b);
      var x := CbcEncrypt(E, c, a[8..]);
      var y := CbcEncrypt(E, x.iv, b);
      assert Store(c) + (x.bytes + y.bytes) == (Store(c) + x.bytes) + y.bytes;
    }
  }

  lemma WholeSum(a: nat, len: nat)
    requires a % 8 == 0
    ensures a + Whole(len) == Whole(a + len) && Whole(a) == a
  {
  }

  /** Likewise for decryption. */
  lemma {:induction false} CbcDecryptSplit(D: Cipher, iv: Block, a: seq<bv8>, b: seq<bv8>, len: nat)
    requires |a| % 8 == 0 && |b| == Whole(len)
    ensures |a| == Whole(|a|) && |a + b| == Whole(|a| + len)
    ensures var x := CbcDecrypt(D, iv, a, |a|); var y := CbcDecrypt(D, x.iv, b, len);
      CbcDecrypt(D, iv, a + b, |a| + len) == Chained(x.bytes + y.bytes, y.iv)
    decreases |a|
  {
    hide Load, Store, XorBlock, Whole;
    WholeSum(|a|, len);
    if a == [] {
      assert a + b == b;
      assert [] + CbcDecrypt(D, iv, b, len).bytes == CbcDecrypt(D, iv, b, len).bytes;
    } else {
      assert (a + b)[..8] == a[..8] && (a + b)[8..] == a[8..] + b;
      WholeStep(|a|);
      WholeStep(|a| + len);
      var x := Load(a[..8]);
      var p := XorBlock(D(x), iv);
      CbcDecryptSplit(D, x, a[8..], b, len);
      var u := CbcDecrypt(D, x, a[8..], |a| - 8);
      var v := CbcDecrypt(D, u.iv, b, len);
      assert Store(p) + (u.bytes + v.bytes) == (Store(p) + u.bytes) + v.bytes;
    }
  }

  /** The encrypting loop that the three CBC routines share. */
  method CbcEncryptLoop(E: Cipher, iv: Block, input: seq<bv8>) returns (out: seq<bv8>, tout: Block)
    ensures Chained(out, tout) == CbcEncrypt(E, iv, input)
  {
    hide Load, Store, XorBlock;
    tout := iv;
    out := [];
    var pos := 0;
    var l: int := |input| - 8;
    while l >= 0
      invariant 0 <= pos <= |input| && l == |input| - pos - 8
      invariant var rest := CbcEncrypt(E, tout, input[pos..]);
        CbcEncrypt(E, iv, input) == Chained(out + rest.bytes, rest.iv)
      decreases l + 8
    {
      ghost var before, t := out, tout;
      var tin := XorBlock(Load(input[pos..pos + 8]), tout);
      tout := E(tin);
      out := out + Store(tout);
      assert input[pos..][..8] == input[pos..pos + 8] && input[pos..][8..] == input[pos + 8..];
      ghost var rest := CbcEncrypt(E, tout, input[pos + 8..]);
      assert before + (Store(tout) + rest.bytes) == out + rest.bytes;
      pos := pos + 8;
      l := l - 8;
    }
    if l != -8 {
      tout := E(XorBlock(LoadShort(input[pos..]), tout));
      out := out + Store(tout);
    }
  }

  /** The decrypting loop that they share. */
  method CbcDecryptLoop(D: Cipher, iv: Block, input: seq<bv8>, length: nat) returns (out: seq<bv8>, xor: Block)
    requires |input| == Whole(length)
    ensures Chained(out, xor) == CbcDecrypt(D, iv, input, length)
  {
    hide Load, Store, XorBlock, Whole;
    xor := iv;
    out := [];
    assert input[0..] == input;
    var pos := 0;
    var l: int := length - 8;
    while l >= 0
      invariant 0 <= pos <= length && l == length - pos - 8 && pos + Whole(length - pos) == |input|
      invariant var rest := CbcDecrypt(D, xor, input[pos..], length - pos);
        CbcDecrypt(D, iv, input, length) == Chained(out + rest.bytes, rest.iv)
      decreases l + 8
    {
      ghost var before, c := out, input[pos..];
      WholeStep(length - pos);
      assert c[..8] == input[pos..pos + 8] && c[8..] == input[pos + 8..];
      var tin := Load(input[pos..pos + 8]);
      var tout := XorBlock(D(tin), xor);
      out := out + Store(tout);
      xor := tin;
      ghost var rest := CbcDecrypt(D, xor, input[pos + 8..], length - pos - 8);
      assert before + (Store(tout) + rest.bytes) == out + rest.bytes;
      pos := pos + 8;
      l := l - 8;
    }
    WholeStep(length - pos);
    if l != -8 {
      assert input[pos..][..8] == input[pos..pos + 8];
      var tin := Load(input[pos..pos + 8]);
      out := out + StoreShort(XorBlock(D(tin), xor), l + 8);
      xor := tin;
    }
  }

  // ------------------------------------------------------- the DES routines

  /** Single DES with a schedule, and triple DES with three, as block ciphers. */
  function SingleDes(f: RoundFunction, ks: Schedule, enc: bool): Cipher {
    x => Single(f, ks, enc, x)
  }

  function TripleDes(f: RoundFunction, k1: Schedule, k2: Schedule, k3: Schedule, enc: bool): Cipher {
    if enc then x => Encrypt3(f, k1, k2, k3, x) else x => Decrypt3(f, k1, k2, k3, x)
  }

  lemma DesInverse(f: RoundFunction, k1: Schedule, k2: Schedule, k3: Schedule)
    ensures Inverse(SingleDes(f, k1, true), SingleDes(f, k1, false))
    ensures Inverse(TripleDes(f, k1, k2, k3, true), TripleDes(f, k1, k2, k3, false))
  {
    hide Single, Encrypt3, Decrypt3;
    forall x ensures SingleDes(f, k1, false)(SingleDes(f, k1, true)(x)) == x { SingleInverts(f, k1, true, x); }
    forall x ensures TripleDes(f, k1, k2, k3, false)(TripleDes(f, k1, k2, k3, true)(x)) == x {
      TripleInverts(f, k1, k2, k3, x);
    }
  }

  /** What a CBC routine produces. */
  function Cbc(E: Cipher, D: Cipher, iv: Block, input: seq<bv8>, length: nat, enc: bool): Chained
    requires if enc then |input| == length else |input| == Whole(length)
  {
    if enc then CbcEncrypt(E, iv, input) else CbcDecrypt(D, iv, input, length)
  }

  /** des_cbc_encrypt, which leaves ivec alone. */
  method DesCbcEncrypt(f: RoundFunction, ks: Schedule, input: seq<bv8>, length: nat, ivec: array<bv8>, enc: bool)
    returns (out: seq<bv8>)
    requires ivec.Length == 8 && if enc then |input| == length else |input| == Whole(length)
    ensures out == Cbc(SingleDes(f, ks, true), SingleDes(f, ks, false), Load(ivec[..]), input, length, enc).bytes
  {
    var t;
    if enc {
      out, t := CbcEncryptLoop(SingleDes(f, ks, true), Load(ivec[..]), input);
    } else {
      out, t := CbcDecryptLoop(SingleDes(f, ks, false), Load(ivec[..]), input, length);
    }
  }

  method PutIv(ivec: array<bv8>, x: Block)
    requires ivec.Length == 8
    modifies ivec
    ensures ivec[..] == Store(x) && Load(ivec[..]) == x
  {
    hide Byte0, Byte1, Byte2, Byte3, Load;
    ivec[0], ivec[1], ivec[2], ivec[3] := Byte0(x.a), Byte1(x.a), Byte2(x.a), Byte3(x.a);
    ivec[4], ivec[5], ivec[6], ivec[7] := Byte0(x.b), Byte1(x.b), Byte2(x.b), Byte3(x.b);
    LoadStore(x);
  }

  /** des_ncbc_encrypt: ivec carries the chaining value to the next call. */
  method DesNcbcEncrypt(f: RoundFunction, ks: Schedule, input: seq<bv8>, length: nat, ivec: array<bv8>, enc: bool)
    returns (out: seq<bv8>)
    requires ivec.Length == 8 && if enc then |input| == length else |input| == Whole(length)
    modifies ivec
    ensures Chained(out, Load(ivec[..]))
      == Cbc(SingleDes(f, ks, true), SingleDes(f, ks, false), old(Load(ivec[..])), input, length, enc)
  {
    hide Load;
    var t;
    if enc {
      out, t := CbcEncryptLoop(SingleDes(f, ks, true), Load(ivec[..]), input);
    } else {
      out, t := CbcDecryptLoop(SingleDes(f, ks, false), Load(ivec[..]), input, length);
    }
    PutIv(ivec, t);
  }

  /** des_ede3_cbc_encrypt. */
  method DesEde3CbcEncrypt(f: RoundFunction, k1: Schedule, k2: Schedule, k3: Schedule, input: seq<bv8>, length: nat, ivec: array<bv8>, enc: bool)
    returns (out: seq<bv8>)
    requires ivec.Length == 8 && if enc then |input| == length else |input| == Whole(length)
    modifies ivec
    ensures Chained(out, Load(ivec[..]))
      == Cbc(TripleDes(f, k1, k2, k3, true), TripleDes(f, k1, k2, k3, false), old(Load(ivec[..])), input, length, enc)
  {
    hide Load, TripleDes;
    var t;
    if enc {
      out, t := CbcEncryptLoop(TripleDes(f, k1, k2, k3, true), Load(ivec[..]), input);
    } else {
      out, t := CbcDecryptLoop(TripleDes(f, k1, k2, k3, false), Load(ivec[..]), input, length);
    }
    PutIv(ivec, t);
  }

  /** The chained routines decrypt what they encrypted, for every length, with both keys. */
  lemma CbcRoutinesRoundTrip(f: RoundFunction, k1: Schedule, k2: Schedule, k3: Schedule, iv: Block, m: seq<bv8>, triple: bool)
    ensures var E := if triple then TripleDes(f, k1, k2, k3, true) else SingleDes(f, k1, true);
      var D := if triple then TripleDes(f, k1, k2, k3, false) else SingleDes(f, k1, false);
      var c := Cbc(E, D, iv, m, |m|, true);
      |c.bytes| == Whole(|m|) && Cbc(E, D, iv, c.bytes, |m|, false) == Chained(m, c.iv)
  {
    hide TripleDes, SingleDes, CbcEncrypt, CbcDecrypt;
    DesInverse(f, k1, k2, k3);
    if triple {
      CbcRoundTrip(TripleDes(f, k1, k2, k3, true), TripleDes(f, k1, k2, k3, false), iv, m);
    } else {
      CbcRoundTrip(SingleDes(f, k1, true), SingleDes(f, k1, false), iv, m);
    }
  }

  // -------------------------------------------------------------- 64-bit CFB

  function Xor8(x: bv8, y: bv8): bv8 { x ^ y }

  lemma Xor8Twice(x: bv8, y: bv8)
    ensures Xor8(y, Xor8(x, y)) == x
  {
  }

  /** ivec and num. */
  datatype Reg = Reg(iv: seq<bv8>, n: nat)

  predicate RegOK(r: Reg) { |r.iv| == 8 && r.n < 8 }

  /** A register and the bytes produced on the way to it. */
  datatype Cfb = Cfb(r: Reg, bytes: seq<bv8>)

  function Refill(E: Cipher, r: Reg): (iv: seq<bv8>)
    requires RegOK(r)
    ensures |iv| == 8
  {
    if r.n == 0 then Store(E(Load(r.iv))) else r.iv
  }

  /** One byte: what is fed back is the cipher byte, in both directions. */
  function CfbByte(E: Cipher, r: Reg, b: bv8, enc: bool): (x: Cfb)
    requires RegOK(r)
    ensures RegOK(x.r) && |x.bytes| == 1
  {
    var iv := Refill(E, r);
    var out := Xor8(b, iv[r.n]);
    Cfb(Reg(iv[r.n := if enc then out else b], (r.n + 1) % 8), [out])
  }

  function Cfb64(E: Cipher, r: Reg, m: seq<bv8>, enc: bool): (x: Cfb)
    requires RegOK(r)
    ensures RegOK(x.r) && |x.bytes| == |m|
    decreases |m|
  {
    if m == [] then Cfb(r, [])
    else
      var x := CfbByte(E, r, m[0], enc);
      var y := Cfb64(E, x.r, m[1..], enc);
      Cfb(y.r, x.bytes + y.bytes)
  }

  lemma {:induction false} CfbSplit(E: Cipher, r: Reg, a: seq<bv8>, b: seq<bv8>, enc: bool)
    requires RegOK(r)
    ensures var x := Cfb64(E, r, a, enc); var y := Cfb64(E, x.r, b, enc);
      Cfb64(E, r, a + b, enc) == Cfb(y.r, x.bytes + y.bytes)
    decreases |a|
  {
    hide CfbByte;
    if a == [] {
      assert a + b == b;
      assert [] + Cfb64(E, r, b, enc).bytes == Cfb64(E, r, b, enc).bytes;
    } else {
      assert (a + b)[0] == a[0] && (a + b)[1..] == a[1..] + b;
      var x := CfbByte(E, r, a[0], enc);
      CfbSplit(E, x.r, a[1..], b, enc);
      var u := Cfb64(E, x.r, a[1..], enc);
      var v := Cfb64(E, u.r, b, enc);
      assert x.bytes + (u.bytes + v.bytes) == x.bytes + u.bytes + v.bytes;
    }
  }

  function Joined(chunks: seq<seq<bv8>>): seq<bv8> {
    if chunks == [] then [] else chunks[0] + Joined(chunks[1..])
  }

  /** One call per chunk, with ivec and num carried from call to call. */
  function CfbCalls(E: Cipher, r: Reg, chunks: seq<seq<bv8>>, enc: bool): (x: Cfb)
    requires RegOK(r)
    ensures RegOK(x.r)
    decreases |chunks|
  {
    if chunks == [] then Cfb(r, [])
    else
      var x := Cfb64(E, r, chunks[0], enc);
      var y := CfbCalls(E, x.r, chunks[1..], enc);
      Cfb(y.r, x.bytes + y.bytes)
  }

  /** However a message is cut into calls, the output is that of one call. */
  lemma {:induction false} CfbCutting(E: Cipher, r: Reg, chunks: seq<seq<bv8>>, enc: bool)
    requires RegOK(r)
    ensures CfbCalls(E, r, chunks, enc) == Cfb64(E, r, Joined(chunks), enc)
    decreases |chunks|
  {
    if chunks != [] {
      CfbCutting(E, Cfb64(E, r, chunks[0], enc).r, chunks[1..], enc);
      CfbSplit(E, r, chunks[0], Joined(chunks[1..]), enc);
    }
  }

  /** Decryption recovers the message from any offset, and both ends are left alike. */
  lemma {:induction false} CfbRoundTrip(E: Cipher, r: Reg, m: seq<bv8>)
    requires RegOK(r)
    ensures var c := Cfb64(E, r, m, true); Cfb64(E, r, c.bytes, false) == Cfb(c.r, m)
    decreases |m|
  {
    if m != [] {
      var x := CfbByte(E, r, m[0], true);
      CfbByteBack(E, r, m[0]);
      CfbRoundTrip(E, x.r, m[1..]);
      var y := Cfb64(E, x.r, m[1..], true);
      hide CfbByte;
      assert (x.bytes + y.bytes)[0] == x.bytes[0] && (x.bytes + y.bytes)[1..] == y.bytes;
      assert [m[0]] + m[1..] == m;
    }
  }

  lemma CfbByteBack(E: Cipher, r: Reg, b: bv8)
    requires RegOK(r)
    ensures var x := CfbByte(E, r, b, true); CfbByte(E, r, x.bytes[0], false) == Cfb(x.r, [b])
  {
    hide Xor8, Refill;
    Xor8Twice(b, Refill(E, r)[r.n]);
    Xor8Comm(b, Refill(E, r)[r.n]);
    Xor8Comm(Xor8(b, Refill(E, r)[r.n]), Refill(E, r)[r.n]);
  }

  lemma Xor8Comm(x: bv8, y: bv8)
    ensures Xor8(x, y) == Xor8(y, x)
  {
  }

  /** The body of the byte loop. */
  method CfbOne(E: Cipher, b: bv8, ivec: array<bv8>, num: nat, enc: bool) returns (c: bv8, n: nat)
    requires ivec.Length == 8 && num < 8
    modifies ivec
    ensures n < 8 && Cfb(Reg(ivec[..], n), [c]) == CfbByte(E, Reg(old(ivec[..]), num), b, enc)
  {
    hide Load, Xor8;
    n := num;
    if n == 0 { PutIv(ivec, E(Load(ivec[..]))); }
    c := Xor8(b, ivec[n]);
    ivec[n] := if enc then c else b;
    n := (n + 1) % 8;
  }

  /** The byte loop that des_cfb64_encrypt and des_ede3_cfb64_encrypt share; each updates ivec
      in place and passes on num. Both directions run the cipher forwards. */
  method Cfb64Encrypt(E: Cipher, input: seq<bv8>, ivec: array<bv8>, num: nat, enc: bool) returns (out: seq<bv8>, n: nat)
    requires ivec.Length == 8 && num < 8
    modifies ivec
    ensures n < 8 && Cfb(Reg(ivec[..], n), out) == Cfb64(E, Reg(old(ivec[..]), num), input, enc)
  {
    hide CfbByte;
    n := num;
    out := [];
    var i := 0;
    while i < |input|
      invariant 0 <= i <= |input| && n < 8
      invariant var rest := Cfb64(E, Reg(ivec[..], n), input[i..], enc);
        Cfb64(E, Reg(old(ivec[..]), num), input, enc) == Cfb(rest.r, out + rest.bytes)
    {
      ghost var before, m := out, input[i..];
      assert m[0] == input[i] && m[1..] == input[i + 1..];
      var c;
      c, n := CfbOne(E, input[i], ivec, n, enc);
      out := out + [c];
      ghost var rest := Cfb64(E, Reg(ivec[..], n), input[i + 1..], enc);
      assert before + ([c] + rest.bytes) == out + rest.bytes;
      i := i + 1;
    }
  }

  // ------------------------------------------------- CFB with 1 to 64 bits

  /** Bytes per unit. */
  function UnitBytes(bits: nat): nat { (bits + 7) / 8 }

  /** The n low bits: (1 << n) - 1, bit by bit. */
  function MaskWord(n: nat): bv32 {
    if n == 0 then 0 else (MaskWord(n - 1) << 1) | 1
  }

  /** mask0 and mask1. */
  function Mask(bits: nat): Block
    requires 1 <= bits <= 64
  {
    if bits > 32 then Block(0xffffffff, if bits == 64 then 0xffffffff else MaskWord(bits - 32))
    else Block(if bits == 32 then 0xffffffff else MaskWord(bits), 0)
  }

  function And(x: bv32, m: bv32): bv32 { x & m }

  function AndBlock(x: Block, m: Block): Block { Block(And(x.a, m.a), And(x.b, m.b)) }

  /** The word that lies s bits up in two words. */
  function Funnel(lo: bv32, hi: bv32, s: bv6): bv32
    requires 0 < s < 32
  {
    (lo >> s) | (hi << (32 - s))
  }

  /** The shift register takes in a unit of fewer than 32 bits, or of 32 + s bits. */
  function ShiftLow(v: Block, d: Block, s: bv6): Block
    requires 0 < s < 32
  {
    Block(Funnel(v.a, v.b, s), Funnel(v.b, d.a, s))
  }

  function ShiftHigh(v: Block, d: Block, s: bv6): Block
    requires 0 < s < 32
  {
    Block(Funnel(v.b, d.a, s), Funnel(d.a, d.b, s))
  }

  /** The four cases of the program. */
  function Shift(v: Block, d: Block, bits: nat): Block
    requires 1 <= bits <= 64
  {
    if bits == 32 then Block(v.b, d.a)
    else if bits == 64 then d
    else if bits > 32 then ShiftHigh(v, d, (bits - 32) as bv6)
    else ShiftLow(v, d, bits as bv6)
  }

  /** One unit: the cipher unit is fed back, masked when it is made and as read when it is read. */
  function UnitOut(E: Cipher, v: Block, d: Block, bits: nat): Block
    requires 1 <= bits <= 64
  {
    AndBlock(XorBlock(d, E(v)), Mask(bits))
  }

  function CfbBits(E: Cipher, v: Block, bits: nat, m: seq<bv8>, enc: bool): (x: Chained)
    requires 1 <= bits <= 64
    decreases |m|
  {
    var n := UnitBytes(bits);
    if |m| < n then Chained([], v)
    else
      var d := LoadShort(m[..n]);
      var e := UnitOut(E, v, d, bits);
      var rest := CfbBits(E, Shift(v, if enc then e else d, bits), bits, m[n..], enc);
      Chained(StoreShort(e, n) + rest.bytes, rest.iv)
  }

  /** The whole units of a message, each reduced to its first `bits` bits. */
  function Masked(bits: nat, m: seq<bv8>): seq<bv8>
    requires 1 <= bits <= 64
    decreases |m|
  {
    var n := UnitBytes(bits);
    if |m| < n then [] else StoreShort(AndBlock(LoadShort(m[..n]), Mask(bits)), n) + Masked(bits, m[n..])
  }

  /** The bits of x are among those of y. */
  predicate Within(x: bv32, y: bv32) { x & y == x }

  lemma WithinShifts(x: bv32, y: bv32)
    requires Within(x, y)
    ensures Within((x << 1) | 1, (y << 1) | 1)
  {
  }

  lemma WithinZero(y: bv32)
    ensures Within(0, y)
  {
  }

  lemma WithinTrans(x: bv32, y: bv32, z: bv32)
    requires Within(x, y) && Within(y, z)
    ensures Within(x, z)
  {
  }

  lemma WithinSelf(x: bv32)
    ensures Within(x, x)
  {
  }

  lemma {:induction false} SubmaskStep(k: nat)
    ensures Within(MaskWord(k), MaskWord(k + 1))
  {
    hide Within;
    if k > 0 {
      SubmaskStep(k - 1);
      WithinShifts(MaskWord(k - 1), MaskWord(k));
    } else {
      WithinZero(MaskWord(1));
    }
  }

  lemma {:induction false} Submask(n: nat, k: nat)
    requires n <= k
    ensures Within(MaskWord(n), MaskWord(k))
    decreases k
  {
    hide MaskWord, Within;
    if n < k {
      Submask(n, k - 1);
      SubmaskStep(k - 1);
      WithinTrans(MaskWord(n), MaskWord(k - 1), MaskWord(k));
    } else {
      WithinSelf(MaskWord(n));
    }
  }

  lemma MaskValues()
    ensures MaskWord(8) == 0xff && MaskWord(16) == 0xffff && MaskWord(24) == 0xffffff
  {
    assert MaskWord(4) == 0xf;
    assert MaskWord(8) == 0xff;
    assert MaskWord(12) == 0xfff;
    assert MaskWord(16) == 0xffff;
    assert MaskWord(20) == 0xfffff;
  }

  lemma OneByte(x: bv32, m: bv32)
    requires Within(m, 0xff)
    ensures Byte1(And(x, m)) == 0 && Byte2(And(x, m)) == 0 && Byte3(And(x, m)) == 0
  {
  }

  lemma TwoBytes(x: bv32, m: bv32)
    requires Within(m, 0xffff)
    ensures Byte2(And(x, m)) == 0 && Byte3(And(x, m)) == 0
  {
  }

  lemma ThreeBytes(x: bv32, m: bv32)
    requires Within(m, 0xffffff)
    ensures Byte3(And(x, m)) == 0
  {
  }

  lemma ZeroBytesOfZero()
    ensures Byte0(0) == 0 && Byte1(0) == 0 && Byte2(0) == 0 && Byte3(0) == 0
  {
  }

  /** A masked unit survives being written and read. */
  lemma UnitSurvives(x: Block, bits: nat)
    requires 1 <= bits <= 64
    ensures var e := AndBlock(x, Mask(bits)); LoadShort(StoreShort(e, UnitBytes(bits))) == e
  {
    var e, n := AndBlock(x, Mask(bits)), UnitBytes(bits);
    MissingBytesZero(x, bits);
    LoadStore(e);
    hide Load, AndBlock, Mask;
    assert Store(e)[..n] + ZeroBytes(8 - n) == Store(e);
  }

  lemma MissingBytesZero(x: Block, bits: nat)
    requires 1 <= bits <= 64
    ensures var b := Store(AndBlock(x, Mask(bits))); forall i :: UnitBytes(bits) <= i < 8 ==> b[i] == 0
  {
    hide Byte0, Byte1, Byte2, Byte3, And, MaskWord;
    ZeroBytesOfZero();
    AndZero(x.b);
    if bits < 32 { LowWord(x.a, bits); } else if 32 < bits < 64 { LowWord(x.b, bits - 32); }
  }

  lemma AndZero(x: bv32)
    ensures And(x, 0) == 0
  {
  }

  /** A word within the mask has no bits beyond the bytes of a unit. */
  lemma LowWord(x: bv32, n: nat)
    ensures var e := And(x, MaskWord(n));
      && (n <= 8 ==> Byte1(e) == 0) && (n <= 16 ==> Byte2(e) == 0) && (n <= 24 ==> Byte3(e) == 0)
  {
    hide MaskWord, Byte1, Byte2, Byte3, And, Within;
    MaskValues();
    if n <= 8 {
      Submask(n, 8);
      OneByte(x, MaskWord(n));
    } else if n <= 16 {
      Submask(n, 16);
      TwoBytes(x, MaskWord(n));
    } else if n <= 24 {
      Submask(n, 24);
      ThreeBytes(x, MaskWord(n));
    }
  }

  lemma MaskInner(a: bv32, y: bv32, m: bv32)
    ensures And(Xor(And(a, m), y), m) == And(Xor(a, y), m)
  {
  }

  lemma XorThenMask(x: bv32, y: bv32, m: bv32)
    ensures And(Xor(And(Xor(x, y), m), y), m) == And(x, m)
  {
    hide And, Xor;
    MaskInner(Xor(x, y), y, m);
    XorTwice(x, y);
  }

  /** Taking the unit off again leaves the masked unit. */
  lemma UnitBack(E: Cipher, v: Block, d: Block, bits: nat)
    requires 1 <= bits <= 64
    ensures UnitOut(E, v, UnitOut(E, v, d, bits), bits) == AndBlock(d, Mask(bits))
  {
    hide And, Xor, Mask;
    XorThenMask(d.a, E(v).a, Mask(bits).a);
    XorThenMask(d.b, E(v).b, Mask(bits).b);
  }

  /** For 1 to 64 feedback bits, decryption recovers each whole unit up to its mask, and both
      directions leave the same shift register. */
  lemma {:induction false} CfbBitsRoundTrip(E: Cipher, v: Block, bits: nat, m: seq<bv8>)
    requires 1 <= bits <= 64
    ensures var c := CfbBits(E, v, bits, m, true); CfbBits(E, v, bits, c.bytes, false) == Chained(Masked(bits, m), c.iv)
    decreases |m|
  {
    hide Shift, LoadShort, StoreShort, UnitOut, AndBlock, Mask;
    var n := UnitBytes(bits);
    if |m| >= n {
      var d := LoadShort(m[..n]);
      var e := UnitOut(E, v, d, bits);
      var v1 := Shift(v, e, bits);
      var rest := CfbBits(E, v1, bits, m[n..], true);
      var c := StoreShort(e, n) + rest.bytes;
      assert c[..n] == StoreShort(e, n) && c[n..] == rest.bytes;
      assert LoadShort(StoreShort(e, n)) == e by { UnitOutSurvives(E, v, d, bits); }
      UnitBack(E, v, d, bits);
      CfbBitsRoundTrip(E, v1, bits, m[n..]);
    }
  }

  lemma UnitOutSurvives(E: Cipher, v: Block, d: Block, bits: nat)
    requires 1 <= bits <= 64
    ensures LoadShort(StoreShort(UnitOut(E, v, d, bits), UnitBytes(bits))) == UnitOut(E, v, d, bits)
  {
    hide LoadShort, StoreShort, AndBlock, Mask;
    UnitSurvives(XorBlock(d, E(v)), bits);
  }

  /** Unless the last byte of a unit is used only in part, nothing is masked away. */
  lemma {:induction false} WholeBytesKept(bits: nat, m: seq<bv8>)
    requires 1 <= bits <= 64 && bits % 8 == 0 && |m| % UnitBytes(bits) == 0
    ensures Masked(bits, m) == m
    decreases |m|
  {
    hide LoadShort, StoreShort, AndBlock, Mask;
    var n := UnitBytes(bits);
    if |m| < n {
      SmallMod(|m|, n);
    } else {
      MaskKeepsBytes(m[..n], bits);
      LessByUnit(|m|, n);
      WholeBytesKept(bits, m[n..]);
      assert m[..n] + m[n..] == m;
    }
  }

  lemma SmallMod(a: nat, n: nat)
    requires a < n && a % n == 0
    ensures a == 0
  {
  }

  lemma LessByUnit(a: nat, n: nat)
    requires 0 < n <= 8 && a >= n && a % n == 0
    ensures (a - n) % n == 0
  {
  }

  lemma MaskKeepsBytes(b: seq<bv8>, bits: nat)
    requires 1 <= bits <= 64 && bits % 8 == 0 && |b| == UnitBytes(bits)
    ensures StoreShort(AndBlock(LoadShort(b), Mask(bits)), |b|) == b
  {
    hide Word, And, Byte0, Byte1, Byte2, Byte3, MaskWord;
    var n := |b|;
    var z := b + ZeroBytes(8 - n);
    var x := Load(z);
    hide Load;
    StoreLoad(z);
    if n <= 4 {
      LowKept(x.a, n);
      KeptPrefix(x, Block(And(x.a, if n == 4 then 0xffffffff else MaskWord(8 * n)), And(x.b, 0)), n);
    } else {
      LowKept(x.a, 4);
      LowKept(x.b, n - 4);
      KeptPrefix(x, Block(And(x.a, 0xffffffff), And(x.b, if n == 8 then 0xffffffff else MaskWord(8 * n - 32))), n);
    }
    assert z[..n] == b;
  }

  /** Blocks that agree in their first n bytes are written alike. */
  lemma KeptPrefix(x: Block, e: Block, n: nat)
    requires 1 <= n <= 8
    requires Byte0(e.a) == Byte0(x.a) && (n >= 2 ==> Byte1(e.a) == Byte1(x.a))
    requires (n >= 3 ==> Byte2(e.a) == Byte2(x.a)) && (n >= 4 ==> Byte3(e.a) == Byte3(x.a))
    requires n >= 5 ==> Byte0(e.b) == Byte0(x.b)
    requires (n >= 6 ==> Byte1(e.b) == Byte1(x.b)) && (n >= 7 ==> Byte2(e.b) == Byte2(x.b)) && (n >= 8 ==> Byte3(e.b) == Byte3(x.b))
    ensures Store(e)[..n] == Store(x)[..n]
  {
    hide Byte0, Byte1, Byte2, Byte3;
  }

  lemma LowKept(w: bv32, k: nat)
    requires 1 <= k <= 4
    ensures var e := And(w, if k == 4 then 0xffffffff else MaskWord(8 * k));
      && Byte0(e) == Byte0(w) && (k >= 2 ==> Byte1(e) == Byte1(w))
      && (k >= 3 ==> Byte2(e) == Byte2(w)) && (k >= 4 ==> Byte3(e) == Byte3(w))
  {
    hide And, Byte0, Byte1, Byte2, Byte3, MaskWord;
    MaskValues();
    if k == 1 { Kept1(w); } else if k == 2 { Kept2(w); } else if k == 3 { Kept3(w); } else { Kept4(w); }
  }

  lemma Kept1(w: bv32)
    ensures Byte0(And(w, 0xff)) == Byte0(w)
  {
  }
  lemma Kept2(w: bv32)
    ensures Byte0(And(w, 0xffff)) == Byte0(w) && Byte1(And(w, 0xffff)) == Byte1(w)
  {
  }
  lemma Kept3(w: bv32)
    ensures Byte0(And(w, 0xffffff)) == Byte0(w) && Byte1(And(w, 0xffffff)) == Byte1(w) && Byte2(And(w, 0xffffff)) == Byte2(w)
  {
  }
  lemma Kept4(w: bv32)
    ensures And(w, 0xffffffff) == w
  {
  }

  /** des_cfb_encrypt: the unit loop, with the shift register loaded from ivec and put back. */
  method DesCfbEncrypt(E: Cipher, input: seq<bv8>, bits: nat, ivec: array<bv8>, enc: bool) returns (out: seq<bv8>)
    requires ivec.Length == 8 && bits >= 1
    modifies ivec
    ensures bits > 64 ==> out == [] && ivec[..] == old(ivec[..])
    ensures bits <= 64 ==> Chained(out, Load(ivec[..])) == CfbBits(E, old(Load(ivec[..])), bits, input, enc)
  {
    hide Load, LoadShort, StoreShort, Shift, UnitOut, Store;
    out := [];
    if bits > 64 { return; }
    var n := (bits + 7) / 8;
    var v := Load(ivec[..]);
    var pos := 0;
    while |input| - pos >= n
      invariant 0 <= pos <= |input|
      invariant var rest := CfbBits(E, v, bits, input[pos..], enc);
        CfbBits(E, old(Load(ivec[..])), bits, input, enc) == Chained(out + rest.bytes, rest.iv)
    {
      ghost var before, m := out, input[pos..];
      assert m[..n] == input[pos..pos + n] && m[n..] == input[pos + n..];
      var d := LoadShort(input[pos..pos + n]);
      var e := UnitOut(E, v, d, bits);
      out := out + StoreShort(e, n);
      v := Shift(v, if enc then e else d, bits);
      ghost var rest := CfbBits(E, v, bits, input[pos + n..], enc);
      assert before + (StoreShort(e, n) + rest.bytes) == out + rest.bytes;
      pos := pos + n;
    }
    PutIv(ivec, v);
  }
}
