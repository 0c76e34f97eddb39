/**
  The binary packet of section 6 of RFC 4253 as packet.c builds and takes it apart, without
  compression. A cipher mode works block by block on a chaining state of any type S.
*/
module PacketFormat {
  import opened Wrappers
  import opened Bytes
  import opened NumberTheory

  const MIN_PACKET_LEN: nat := 16
  const RECV_MAX_PACKET_LEN: nat := 35000
  const MAX_MAC_LEN: nat := 20
  const ZLIB_COMPRESS_INCR: nat := 100

  /** One direction's algorithms. `macSize` is the size the sender appends and the receiver
      reads; `checkSize` is what checkmac compares, which the program takes from the other
      direction's MAC. */
  datatype Keys<!S> = Keys(block: nat, enc: (S, seq<byte>) -> (S, seq<byte>), dec: (S, seq<byte>) -> (S, seq<byte>),
                           mac: (uint32, seq<byte>) -> seq<byte>, macSize: nat, checkSize: nat)

  /** Block sizes of 8, or 16 and up; decryption inverts encryption; equal MAC sizes. The only
      context without a MAC is the first one, whose blocks are of 8 bytes. */
  ghost predicate GoodKeys<S(!new)>(k: Keys<S>) {
    && (k.block == 8 || 16 <= k.block <= 64) && k.macSize == k.checkSize <= MAX_MAC_LEN
    && (k.macSize == 0 ==> k.block == 8)
    && (forall q, b :: |k.mac(q, b)| == k.macSize)
    && (forall s, b {:trigger k.enc(s, b)} :: |b| == k.block ==>
          |k.enc(s, b).1| == k.block && k.dec(s, k.enc(s, b).1) == (k.enc(s, b).0, b))
  }

  /** A mode applied to a whole number of blocks. */
  function Blocks<S>(f: (S, seq<byte>) -> (S, seq<byte>), n: nat, s: S, x: seq<byte>): (S, seq<byte>)
    decreases |x|
  {
    if n == 0 || |x| < n then (s, [])
    else
      var (s1, y) := f(s, x[..n]);
      var (s2, z) := Blocks(f, n, s1, x[n..]);
      (s2, y + z)
  }

  lemma OneBlockLess(len: nat, n: nat)
    requires n > 0 && len % n == 0 && len >= n
    ensures (len - n) % n == 0
  {
    AddMultiple(len, n, -1);
  }

  lemma {:induction false} BlocksConcat<S>(f: (S, seq<byte>) -> (S, seq<byte>), n: nat, s: S, a: seq<byte>, b: seq<byte>)
    requires n > 0 && |a| % n == 0
    ensures var (s1, y) := Blocks(f, n, s, a);
      var (s2, z) := Blocks(f, n, s1, b);
      Blocks(f, n, s, a + b) == (s2, y + z)
    decreases |a|
  {
    if |a| < n {
      ModIdem(|a|, n);
      assert a == [];
      assert a + b == b;
      var (_, z) := Blocks(f, n, s, b);
      assert [] + z == z;
    } else {
      assert (a + b)[..n] == a[..n] && (a + b)[n..] == a[n..] + b;
      OneBlockLess(|a|, n);
      var (s1, y) := f(s, a[..n]);
      BlocksConcat(f, n, s1, a[n..], b);
      var (s2, ya) := Blocks(f, n, s1, a[n..]);
      var (_, z) := Blocks(f, n, s2, b);
      assert y + (ya + z) == (y + ya) + z;
    }
  }

  /** Decrypting block by block gives back the text and the same chaining state. */
  lemma {:induction false} BlocksInverse<S(!new)>(k: Keys<S>, s: S, x: seq<byte>)
    requires GoodKeys(k) && |x| % k.block == 0
    ensures var (s1, y) := Blocks(k.enc, k.block, s, x);
      |y| == |x| && Blocks(k.dec, k.block, s, y) == (s1, x)
    decreases |x|
  {
    var n := k.block;
    if |x| < n {
      ModIdem(|x|, n);
      assert x == [];
    } else {
      OneBlockLess(|x|, n);
      var (s1, y) := k.enc(s, x[..n]);
      BlocksInverse(k, s1, x[n..]);
      var (s2, z) := Blocks(k.enc, n, s1, x[n..]);
      assert (y + z)[..n] == y && (y + z)[n..] == z;
      assert x[..n] + x[n..] == x;
    }
  }

  // --------------------------------------------------------------- the padding

  /** padlen of encrypt_packet, for a payload of `len` bytes. */
  function PadLen(len: nat, block: nat): nat
    requires block > 0
  {
    var p := block - (len + 5) % block;
    var p1 := if p < 4 then p + block else p;
    if len + 5 + p1 < MIN_PACKET_LEN then p1 + block else p1
  }

  /** encrypt_buf_size. */
  function BufSize(len: nat, block: nat, macSize: nat): nat {
    len + 4 + 1 + Max(MIN_PACKET_LEN, block) + 3 + macSize + ZLIB_COMPRESS_INCR + 1
  }

  lemma PadFills(n: nat, block: nat)
    requires block > 0
    ensures (n + (block - n % block)) % block == 0
  {
    assert n + (block - n % block) == block * (n / block + 1) by { DistributeLeft(block, n / block, 1); }
    MultipleMod(block, n / block + 1);
  }

  /** At least 4 bytes of padding, which fit in a byte; a whole number of blocks, at least 16
      bytes; and the buffer has room even without the allowance for compression. */
  lemma PaddingOK(len: nat, block: nat, macSize: nat)
    requires block == 8 || 16 <= block <= 64
    requires len >= 1
    ensures var p := PadLen(len, block);
      && 4 <= p < 256 && (len + 5 + p) % block == 0 && len + 5 + p >= MIN_PACKET_LEN
      && len + 5 + p + macSize + 1 <= BufSize(len, block, macSize) - ZLIB_COMPRESS_INCR
  {
    var p := block - (len + 5) % block;
    PadFills(len + 5, block);
    AddMultiple(len + 5 + p, block, 1);
    var p1 := if p < 4 then p + block else p;
    assert (len + 5 + p1) % block == 0;
    if block == 8 { AtLeastTwo(len + 5 + p1); } else { AtLeastOne(len + 5 + p1, block); }
  }

  /** No shorter padding of at least 4 bytes would do. */
  lemma PaddingLeast(len: nat, block: nat, p: nat)
    requires block == 8 || 16 <= block <= 64
    requires len >= 1 && 4 <= p < PadLen(len, block)
    ensures (len + 5 + p) % block != 0 || len + 5 + p < MIN_PACKET_LEN
  {
    var n := len + 5;
    var first := block - n % block;
    PadFills(n, block);
    if (n + p) % block == 0 && n + p >= MIN_PACKET_LEN {
      WholeBlocks(n, block, first, p);
    }
  }

  /** Two paddings to whole blocks differ by whole blocks. */
  lemma WholeBlocks(n: nat, block: nat, first: nat, p: nat)
    requires block > 0 && 0 < first <= block && (n + first) % block == 0 && (n + p) % block == 0
    ensures p >= first ==> p == first || p >= first + block
    ensures p < first ==> p == 0 && first == block
  {
    if p >= first {
      AddMultiple(p - first, block, (n + first) / block);
      assert n + p == (p - first) + block * ((n + first) / block);
      if p - first < block { ModIdem(p - first, block); }
    } else {
      AddMultiple(first - p, block, (n + p) / block);
      assert n + first == (first - p) + block * ((n + p) / block);
      if first - p < block { ModIdem(first - p, block); }
    }
  }

  lemma AtLeastTwo(n: nat)
    requires n % 8 == 0 && n >= 10
    ensures n >= 16
  {
  }

  lemma AtLeastOne(n: nat, block: nat)
    requires block > 0 && n % block == 0 && n > 0
    ensures n >= block
  {
    if n < block { ModIdem(n, block); }
  }

  // ------------------------------------------------------------------ sealing

  /** Length, padding length, payload, padding. */
  function Plain(payload: seq<byte>, pad: seq<byte>): seq<byte> {
    PutInt((|payload| + |pad| + 1) % WORD) + [|pad| % 256] + payload + pad
  }

  /** The bytes that go on the wire, and the chaining state after them. */
  function Seal<S>(k: Keys<S>, s: S, q: uint32, payload: seq<byte>, pad: seq<byte>): (S, seq<byte>) {
    var plain := Plain(payload, pad);
    var (s1, y) := Blocks(k.enc, k.block, s, plain);
    (s1, y + k.mac(q, plain))
  }

  predicate GoodPayload(p: seq<byte>) { 1 <= |p| <= TRANS_MAX_PAYLOAD_LEN }

  predicate GoodPad<S>(k: Keys<S>, p: seq<byte>, pad: seq<byte>) {
    k.block > 0 && |pad| == PadLen(|p|, k.block)
  }

  // ------------------------------------------------------------------ reading

  /** The reader in the middle of a packet: chaining state, sequence number, the bytes read
      so far with the first block decrypted, and the packet's total length once known. */
  datatype Rx<S> = Rx(s: S, seqno: uint32, buf: seq<byte>, total: nat)

  datatype Fault = BadSize | BadMac | BadPayload | RemoteClosed

  datatype Got<S> = More(rx: Rx<S>) | Payload(rx: Rx<S>, payload: seq<byte>) | Fail(why: Fault)

  /** The second half of read_packet_init: decrypt the first block and check the length. */
  function Begin<S>(k: Keys<S>, rx: Rx<S>): Got<S>
    requires |rx.buf| >= 4
  {
    var (s1, b) := Blocks(k.dec, k.block, rx.s, rx.buf);
    if |b| < 4 then Fail(BadSize) else
    var len := (GetInt(b) + 4 + k.macSize) % WORD;
    if len > RECV_MAX_PACKET_LEN || len < MIN_PACKET_LEN + k.macSize || k.block == 0 || (len - k.macSize) % k.block != 0
    then Fail(BadSize)
    else More(Rx(s1, rx.seqno, b, len))
  }

  /** decrypt_packet, when the whole packet has been read. */
  function Decrypt<S>(k: Keys<S>, rx: Rx<S>): Got<S>
    requires k.block + k.macSize <= |rx.buf| && k.checkSize <= |rx.buf|
  {
    var n := |rx.buf|;
    var (s1, rest) := Blocks(k.dec, k.block, rx.s, rx.buf[k.block..n - k.macSize]);
    var plain := rx.buf[..k.block] + rest + rx.buf[n - k.macSize..];
    if |plain| != n || k.mac(rx.seqno, plain[..n - k.checkSize]) != plain[n - k.checkSize..] then Fail(BadMac)
    else if n < 5 then Fail(BadPayload)
    else
      var len := n - plain[4] - 5 - k.macSize;
      if len > RECV_MAX_PAYLOAD_LEN || len < 1 then Fail(BadPayload)
      else Payload(Rx(s1, Next(rx.seqno), [], 0), plain[5..5 + len])
  }

  function Least(a: nat, b: nat, c: nat): nat {
    if a <= b && a <= c then a else if b <= c then b else c
  }

  /** A result and the number of bytes taken from the socket. */
  datatype Taken<S> = Taken(r: Got<S>, n: nat)

  /** The last part of read_packet, where read() returns up to n bytes of what has arrived.
      A read() of nothing returns 0, which the program takes for a closed connection. */
  function ReadRest<S>(k: Keys<S>, rx: Rx<S>, link: seq<byte>, n: nat): (t: Taken<S>)
    requires k.block + k.macSize <= rx.total && k.checkSize <= rx.total && |rx.buf| <= rx.total
    ensures t.n <= |link|
  {
    var maxlen := rx.total - |rx.buf|;
    if maxlen == 0 then Taken(Fail(RemoteClosed), 0)
    else
      var c := Least(n, maxlen, |link|);
      var rx1 := rx.(buf := rx.buf + link[..c]);
      if c == maxlen then Taken(Decrypt(k, rx1), c) else Taken(More(rx1), c)
  }

  /** What read_packet relies on between calls. */
  predicate RxOK<S>(k: Keys<S>, rx: Rx<S>) {
    && k.block >= 4
    && (|rx.buf| >= k.block ==> k.block + k.macSize <= rx.total && k.checkSize <= rx.total && |rx.buf| <= rx.total)
  }

  /** read_packet; n1 and n2 bound what its two calls of read() return. */
  function ReadPacket<S>(k: Keys<S>, rx: Rx<S>, link: seq<byte>, n1: nat, n2: nat): (t: Taken<S>)
    requires RxOK(k, rx)
    ensures t.n <= |link|
  {
    if |rx.buf| < k.block then
      var maxlen := k.block - |rx.buf|;
      var c := Least(n1, maxlen, |link|);
      var rx1 := rx.(buf := rx.buf + link[..c]);
      if c != maxlen then Taken(More(rx1), c)
      else
        match Begin(k, rx1)
        case More(rx2) =>
          if RxOK(k, rx2) && |rx2.buf| >= k.block then
            var t := ReadRest(k, rx2, link[c..], n2);
            Taken(t.r, c + t.n)
          else Taken(Fail(BadSize), c)
        case other => Taken(other, c)
    else ReadRest(k, rx, link, n2)
  }
}
