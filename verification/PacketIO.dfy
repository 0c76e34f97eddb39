/**
  The packet layer of packet.c over buffers and fields updated in place: encrypt_packet into a
  buffer of the computed size, write_packet and read_packet with short writes and reads.
*/
module PacketIO {
  import opened Wrappers
  import opened Bytes
  import opened NumberTheory
  import opened PacketFormat
  import opened PacketStream
  import opened Memory
  import opened Queue

  /** A mode turns a block into a block. */
  ghost predicate KeepsLength<S(!new)>(f: (S, seq<byte>) -> (S, seq<byte>), n: nat) {
    forall s: S, b: seq<byte> {:trigger f(s, b)} :: |b| == n ==> |f(s, b).1| == n
  }

  class Link<S(!new)> {
    const k: Keys<S>
    var cipher: S
    var transseq: uint32
    const writequeue: Queue<Queued>
    var rx: Rx<S>

    constructor (k: Keys<S>, s: S)
      ensures this.k == k && cipher == s && transseq == 0 && rx == Rx(s, 0, [], 0)
      ensures fresh(writequeue) && writequeue.Valid() && writequeue.Items() == []
    {
      this.k, cipher, transseq, rx := k, s, 0, Rx(s, 0, [], 0);
      writequeue := new Queue();
    }

    /** encrypt_packet, when the packet is not held back. `random` supplies the padding. */
    method EncryptPacket(payload: seq<byte>, random: seq<byte>)
      requires k.block == 8 || 16 <= k.block <= 64
      requires |payload| >= 1 && |random| >= PadLen(|payload|, k.block)
      requires (forall q, b :: |k.mac(q, b)| == k.macSize)
      requires KeepsLength(k.enc, k.block)
      requires writequeue.Valid()
      modifies this`cipher, this`transseq, writequeue, writequeue.tail
      ensures var pad := random[..PadLen(|payload|, k.block)];
        var (s1, w) := Seal(k, old(cipher), old(transseq), payload, pad);
        && cipher == s1 && transseq == Next(old(transseq))
        && writequeue.Valid() && writequeue.Items() == old(writequeue.Items()) + [Queued(w + [payload[0]], 0)]
    {
      hide Seal, PadLen, KeepsLength;
      var wire;
      ghost var before := writequeue.Items();
      wire, cipher := BuildPacket(k, cipher, transseq, payload, random);
      assert writequeue.Items() == before;
      writequeue.Enqueue(Queued(wire, 0));
      transseq := Next(transseq);
    }

    /** write_packet: write() takes up to n bytes of the head packet, never its type byte. */
    method WritePacket(n: nat) returns (out: seq<byte>)
      requires writequeue.Valid() && QueueOK(writequeue.Items()) && writequeue.Items() != []
      modifies writequeue, writequeue.head
      ensures writequeue.Valid()
      ensures var q := old(writequeue.Items()); var c := Min(n, |q[0].bytes| - 1 - q[0].pos);
        out == Piece(q[0], c) && writequeue.Items() == WriteHead(q, c)
    {
      ghost var q := writequeue.Items();
      RestOK(q);
      HeadPiece(q, n);
      hide *;
      var writebuf := writequeue.Examine();
      var len := |writebuf.bytes| - 1 - writebuf.pos;
      assert len > 0;
      var written := if n <= len then n else len;
      out := writebuf.bytes[writebuf.pos..writebuf.pos + written];
      Advance(writebuf, written);
    }

    /** The written bytes of the head packet are behind us; with none left it leaves the queue. */
    method Advance(writebuf: Queued, written: nat)
      requires writequeue.Valid() && QueueOK(writequeue.Items()) && writequeue.Items() != []
      requires writebuf == writequeue.Items()[0] && written <= |writebuf.bytes| - 1 - writebuf.pos
      modifies writequeue, writequeue.head
      ensures writequeue.Valid() && writequeue.Items() == WriteHead(old(writequeue.Items()), written)
    {
      HeadWritten(writequeue.Items(), written);
      hide *;
      if written == |writebuf.bytes| - 1 - writebuf.pos {
        var _ := writequeue.Dequeue();
      } else {
        writequeue.UpdateHead(writebuf.(pos := writebuf.pos + written));
      }
    }

    /** read_packet: a payload, a failure, or neither yet; and the bytes consumed. */
    method Read(link: seq<byte>, n1: nat, n2: nat) returns (payload: Option<seq<byte>>, fault: Option<Fault>, used: nat)
      requires RxOK(k, rx)
      modifies this`rx
      ensures var t := PacketFormat.ReadPacket(k, old(rx), link, n1, n2);
        && used == t.n
        && match t.r
           case More(r) => payload == None && fault == None && rx == r
           case Payload(r, p) => payload == Some(p) && fault == None && rx == r
           case Fail(why) => payload == None && fault == Some(why)
    {
      hide Decrypt, Begin;
      used := 0;
      if |rx.buf| < k.block {
        var maxlen := k.block - |rx.buf|;
        used := Least(n1, maxlen, |link|);
        rx := rx.(buf := rx.buf + link[..used]);
        if used != maxlen { return None, None, used; }
        var started := Begin(k, rx);
        match started
        case Fail(why) => return None, Some(why), used;
        case Payload(r, p) =>
          rx := r;
          return Some(p), None, used;
        case More(r) =>
          if !(RxOK(k, r) && |r.buf| >= k.block) { return None, Some(BadSize), used; }
          rx := r;
      }
      var maxlen := rx.total - |rx.buf|;
      if maxlen == 0 { return None, Some(RemoteClosed), used; }
      var len := Least(n2, maxlen, |link[used..]|);
      rx := rx.(buf := rx.buf + link[used..][..len]);
      used := used + len;
      if len != maxlen { return None, None, used; }
      var done := Decrypt(k, rx);
      match done
      case Fail(why) => return None, Some(why), used;
      case More(r) =>
        rx := r;
        return None, None, used;
      case Payload(r, p) =>
        rx := r;
        return Some(p), None, used;
    }
  }

  lemma HeadPiece(q: seq<Queued>, n: nat)
    requires QueueOK(q) && q != []
    ensures var len := |q[0].bytes| - 1 - q[0].pos; var c := if n <= len then n else len;
      c == Min(n, len) && len >= 0 && Piece(q[0], c) == q[0].bytes[q[0].pos..q[0].pos + c]
  {
  }

  lemma HeadWritten(q: seq<Queued>, n: nat)
    requires QueueOK(q) && q != [] && n <= |q[0].bytes| - 1 - q[0].pos
    ensures Piece(q[0], n) == q[0].bytes[q[0].pos..q[0].pos + n]
    ensures n == |q[0].bytes| - 1 - q[0].pos ==> WriteHead(q, n) == q[1..]
    ensures n < |q[0].bytes| - 1 - q[0].pos ==> WriteHead(q, n) == q[0 := q[0].(pos := q[0].pos + n)]
  {
    assert q[0 := q[0].(pos := q[0].pos + n)] == [q[0].(pos := q[0].pos + n)] + q[1..];
  }

  /** The packet in a buffer of encrypt_buf_size bytes: every write into it is in bounds. */
  method BuildPacket<S(!new)>(k: Keys<S>, s: S, seqno: uint32, payload: seq<byte>, random: seq<byte>) returns (wire: seq<byte>, s1: S)
    requires k.block == 8 || 16 <= k.block <= 64
    requires |payload| >= 1 && |random| >= PadLen(|payload|, k.block)
    requires (forall q, b :: |k.mac(q, b)| == k.macSize)
    requires KeepsLength(k.enc, k.block)
    ensures var pad := random[..PadLen(|payload|, k.block)];
      var (t, w) := Seal(k, s, seqno, payload, pad);
      s1 == t && wire == w + [payload[0]]
  {
    var block, mac_size := k.block, k.macSize;
    PaddingOK(|payload|, block, mac_size);
    var size := BufSize(|payload|, block, mac_size);
    var writebuf := new byte[size];
    CopyBytes(writebuf, 5, payload);
    assert writebuf[..5 + |payload|][5..] == payload;
    var len := 5 + |payload|;
    var padlen := block - len % block;
    if padlen < 4 { padlen := padlen + block; }
    if len + padlen < MIN_PACKET_LEN { padlen := padlen + block; }
    assert padlen == PadLen(|payload|, block);
    var pad := random[..padlen];
    var plain := Assemble(writebuf, payload, pad);
    len := len + padlen;
    assert |plain| == len;
    var (t, y) := Blocks(k.enc, block, s, plain);
    BlocksLength(k.enc, block, s, plain);
    var mac_bytes := k.mac(seqno, plain);
    wire := Finish(writebuf, len, y, mac_bytes, payload[0]);
    s1 := t;
  }

  lemma {:induction false} BlocksLength<S(!new)>(f: (S, seq<byte>) -> (S, seq<byte>), n: nat, s: S, x: seq<byte>)
    requires n > 0 && |x| % n == 0 && KeepsLength(f, n)
    ensures |Blocks(f, n, s, x).1| == |x|
    decreases |x|
  {
    if |x| < n {
      ModIdem(|x|, n);
    } else {
      OneBlockLess(|x|, n);
      BlocksLength(f, n, f(s, x[..n]).0, x[n..]);
    }
  }

  /** The length, the padding length and the padding go around the payload. */
  method Assemble(writebuf: array<byte>, payload: seq<byte>, pad: seq<byte>) returns (plain: seq<byte>)
    requires 5 + |payload| + |pad| <= writebuf.Length && |pad| < 256
    requires writebuf[5..5 + |payload|] == payload
    modifies writebuf
    ensures plain == Plain(payload, pad) && writebuf[..][..|plain|] == plain
  {
    var len := 5 + |payload|;
    ghost var b := writebuf[..];
    var head: seq<byte> := PutInt((len + |pad| - 4) % WORD) + [|pad|];
    CopyBytes(writebuf, 0, head);
    assert writebuf[..] == head + b[5..];
    assert (head + b[5..])[..len] == head + payload by { assert b[5..][..|payload|] == b[5..5 + |payload|]; }
    assert writebuf[..len] == head + payload;
    CopyBytes(writebuf, len, pad);
    plain := writebuf[..len + |pad|];
    assert plain == writebuf[..][..len + |pad|];
    ModIdem(|pad|, 256);
  }

  /** The ciphertext replaces the text; the MAC and the type byte follow. */
  method Finish(writebuf: array<byte>, len: nat, y: seq<byte>, mac: seq<byte>, t: byte) returns (wire: seq<byte>)
    requires len + |mac| + 1 <= writebuf.Length && |y| == len
    modifies writebuf
    ensures wire == y + mac + [t]
  {
    CopyBytes(writebuf, 0, y);
    assert writebuf[..0] == [] && [] + y == y;
    CopyBytes(writebuf, len, mac);
    CopyBytes(writebuf, len + |mac|, [t]);
    wire := writebuf[..len + |mac| + 1];
  }
}
