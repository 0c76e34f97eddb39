/**
  Packets through partial writes and partial reads, and through any number of changes of keys:
  whatever the socket does, the payloads that come out are those that went in, in order.
*/
module PacketStream {
  import opened Wrappers
  import opened Bytes
  import opened NumberTheory
  import opened PacketFormat
  import Transport

  // -------------------------------------------------------- one whole packet

  /** The reader after it has taken the bytes `raw` of a packet that began in state s. */
  function Partial<S>(k: Keys<S>, s: S, q: uint32, raw: seq<byte>): Rx<S> {
    if |raw| < k.block then Rx(s, q, raw, 0)
    else
      var (s1, b) := Blocks(k.dec, k.block, s, raw[..k.block]);
      Rx(s1, q, b + raw[k.block..], if |b| >= 4 then (GetInt(b) + 4 + k.macSize) % WORD else 0)
  }

  /** What sealing a payload means. */
  predicate Sendable<S>(k: Keys<S>, p: seq<byte>, pad: seq<byte>) {
    GoodPayload(p) && GoodPad(k, p, pad)
  }

  lemma PlainShape<S(!new)>(k: Keys<S>, p: seq<byte>, pad: seq<byte>)
    requires GoodKeys(k) && Sendable(k, p, pad)
    ensures var t := Plain(p, pad);
      && |t| == |p| + |pad| + 5 && |t| % k.block == 0 && k.block <= |t| && MIN_PACKET_LEN <= |t| <= 9000
      && GetInt(t) == |t| - 4 && t[4] == |pad| && t[5..5 + |p|] == p
  {
    PaddingOK(|p|, k.block, k.macSize);
    var t := Plain(p, pad);
    var n := |p| + |pad| + 1;
    ModIdem(n, WORD);
    ModIdem(|pad|, 256);
    assert t == PutInt(n) + ([|pad|] + p + pad);
    IntRoundTrip(n, [|pad|] + p + pad);
    AtLeastOne(|t|, k.block);
  }

  /** The wire form splits into the first block, the other blocks and the MAC. */
  lemma SealShape<S(!new)>(k: Keys<S>, s: S, q: uint32, p: seq<byte>, pad: seq<byte>)
    requires GoodKeys(k) && Sendable(k, p, pad)
    ensures var t := Plain(p, pad); var n := k.block;
      var (s2, w) := Seal(k, s, q, p, pad);
      && |t| >= n && |w| == |t| + k.macSize
      && w[|t|..] == k.mac(q, t)
      && var (s1, b) := Blocks(k.dec, n, s, w[..n]);
         b == t[..n] && Blocks(k.dec, n, s1, w[n..|t|]) == (s2, t[n..])
  {
    PlainShape(k, p, pad);
    var t, n := Plain(p, pad), k.block;
    hide Plain;
    var head, tail := t[..n], t[n..];
    assert t == head + tail;
    OneBlockLess(|t|, n);
    AddMultiple(0, n, 1);
    BlocksConcat(k.enc, n, s, head, tail);
    BlocksInverse(k, s, head);
    var (s1, y1) := Blocks(k.enc, n, s, head);
    BlocksInverse(k, s1, tail);
    var (s2, y2) := Blocks(k.enc, n, s1, tail);
    var w := Seal(k, s, q, p, pad).1;
    assert w == y1 + y2 + k.mac(q, t);
    assert w[..n] == y1 && w[n..|t|] == y2 && w[|t|..] == k.mac(q, t);
  }

  /** With the first block in hand the reader knows the packet's length. */
  lemma FirstBlock<S(!new)>(k: Keys<S>, s: S, q: uint32, p: seq<byte>, pad: seq<byte>)
    requires GoodKeys(k) && Sendable(k, p, pad)
    ensures var w := Seal(k, s, q, p, pad).1;
      && |w| >= k.block + k.macSize
      && Begin(k, Rx(s, q, w[..k.block], 0)) == More(Partial(k, s, q, w[..k.block]))
      && Partial(k, s, q, w[..k.block]).total == |w| && |Partial(k, s, q, w[..k.block]).buf| == k.block
  {
    PlainShape(k, p, pad);
    SealShape(k, s, q, p, pad);
    var t, n := Plain(p, pad), k.block;
    hide Plain, Seal, Blocks;
    var w := Seal(k, s, q, p, pad).1;
    var raw := w[..n];
    assert raw[..n] == raw && raw[n..] == [];
    var (s1, b) := Blocks(k.dec, n, s, raw);
    assert b + [] == b;
    assert GetInt(b) == GetInt(t) by { assert b == t[..n]; SameHead(t, n); }
    ModIdem(|w|, WORD);
  }

  lemma SameHead(t: seq<byte>, n: nat)
    requires 4 <= n <= |t|
    ensures GetInt(t[..n]) == GetInt(t)
  {
  }

  lemma GlueSlices(h: seq<byte>, w: seq<byte>, n: nat, m: nat)
    requires |h| == n <= m <= |w|
    ensures var b := h + w[n..]; |b| == |w| && b[..n] == h && b[n..m] == w[n..m] && b[m..] == w[m..]
  {
  }

  lemma PrefixSlice(link: seq<byte>, w: seq<byte>, rest: seq<byte>, i: nat, c: nat)
    requires i + c <= |w| && c <= |link| && link <= w[i..] + rest
    ensures link[..c] == w[i..i + c]
  {
    assert link[..c] == (w[i..] + rest)[..c];
  }

  /** With the whole packet in hand the reader delivers the payload. */
  lemma WholePacket<S(!new)>(k: Keys<S>, s: S, q: uint32, p: seq<byte>, pad: seq<byte>)
    requires GoodKeys(k) && Sendable(k, p, pad)
    ensures var (s2, w) := Seal(k, s, q, p, pad); var rx := Partial(k, s, q, w);
      && k.block + k.macSize <= |w| == |rx.buf|
      && Decrypt(k, rx) == Payload(Rx(s2, Next(q), [], 0), p)
  {
    PlainShape(k, p, pad);
    SealShape(k, s, q, p, pad);
    var t, n := Plain(p, pad), k.block;
    var (s2, w) := Seal(k, s, q, p, pad);
    hide Plain, Seal, Blocks, GetInt, GoodKeys, Decrypt;
    DecryptGives(k, Partial(k, s, q, w), t, w, s2, p);
  }

  lemma DecryptGives<S>(k: Keys<S>, rx: Rx<S>, t: seq<byte>, w: seq<byte>, s2: S, p: seq<byte>)
    requires k.macSize == k.checkSize && k.block <= |t| && |w| == |t| + k.macSize && |t| >= 5
    requires rx.buf == t[..k.block] + w[k.block..]
    requires Blocks(k.dec, k.block, rx.s, w[k.block..|t|]) == (s2, t[k.block..])
    requires k.mac(rx.seqno, t) == w[|t|..]
    requires 1 <= |p| <= RECV_MAX_PAYLOAD_LEN && t[4] == |t| - 5 - |p| && t[5..5 + |p|] == p
    ensures |rx.buf| == |w| && Decrypt(k, rx) == Payload(Rx(s2, Next(rx.seqno), [], 0), p)
  {
    hide Blocks;
    var n := k.block;
    GlueSlices(t[..n], w, n, |t|);
    var plain := t[..n] + t[n..] + w[|t|..];
    assert t[..n] + t[n..] == t;
    assert plain[..|t|] == t && plain[|t|..] == w[|t|..];
    assert plain[5..5 + |p|] == t[5..5 + |p|];
  }

  /** Taking more bytes of the same packet. */
  lemma PartialGrows<S(!new)>(k: Keys<S>, s: S, q: uint32, p: seq<byte>, pad: seq<byte>, i: nat, j: nat)
    requires GoodKeys(k) && Sendable(k, p, pad)
    requires i <= j <= |Seal(k, s, q, p, pad).1| && (i >= k.block || j < k.block)
    ensures var w := Seal(k, s, q, p, pad).1; var rx := Partial(k, s, q, w[..i]);
      Partial(k, s, q, w[..j]) == rx.(buf := rx.buf + w[i..j])
  {
    var w := Seal(k, s, q, p, pad).1;
    hide Seal, Blocks;
    assert w[..i] + w[i..j] == w[..j];
    if i >= k.block {
      assert w[..i][..k.block] == w[..k.block] == w[..j][..k.block];
      assert w[..i][k.block..] + w[i..j] == w[..j][k.block..];
    }
  }

  lemma PartialSize<S(!new)>(k: Keys<S>, s: S, q: uint32, p: seq<byte>, pad: seq<byte>, i: nat)
    requires GoodKeys(k) && Sendable(k, p, pad) && i <= |Seal(k, s, q, p, pad).1|
    ensures var w := Seal(k, s, q, p, pad).1; var rx := Partial(k, s, q, w[..i]);
      && |rx.buf| == i && RxOK(k, rx) && (i >= k.block ==> rx.total == |w|)
  {
    FirstBlock(k, s, q, p, pad);
    if i >= k.block { PartialGrows(k, s, q, p, pad, k.block, i); }
  }

  /** A packet is longer than its first block, so there is always something left to read. */
  lemma LongEnough<S(!new)>(k: Keys<S>, s: S, q: uint32, p: seq<byte>, pad: seq<byte>)
    requires GoodKeys(k) && Sendable(k, p, pad)
    ensures |Seal(k, s, q, p, pad).1| > k.block
  {
    SealShape(k, s, q, p, pad);
    PlainShape(k, p, pad);
  }

  // -------------------------------------------------------- one read_packet

  /** The outcome of a call of read_packet in the middle of packet w, at position i. */
  ghost predicate Reads<S>(k: Keys<S>, s: S, s2: S, q: uint32, p: seq<byte>, w: seq<byte>, i: nat, t: Taken<S>) {
    i + t.n <= |w|
    && match t.r
       case More(rx) => i + t.n < |w| && rx == Partial(k, s, q, w[..i + t.n])
       case Payload(rx, got) => i + t.n == |w| && got == p && rx == Rx(s2, Next(q), [], 0)
       case Fail(_) => false
  }

  lemma RestReads<S(!new)>(k: Keys<S>, s: S, q: uint32, p: seq<byte>, pad: seq<byte>, i: nat, link: seq<byte>, rest: seq<byte>, n: nat)
    requires GoodKeys(k) && Sendable(k, p, pad)
    requires var w := Seal(k, s, q, p, pad).1; k.block <= i < |w| && link <= w[i..] + rest
    ensures var (s2, w) := Seal(k, s, q, p, pad); var rx := Partial(k, s, q, w[..i]);
      && RxOK(k, rx) && |rx.buf| >= k.block && Reads(k, s, s2, q, p, w, i, ReadRest(k, rx, link, n))
  {
    hide Seal, Partial, Decrypt, GoodKeys, Sendable;
    var (s2, w) := Seal(k, s, q, p, pad);
    FirstBlock(k, s, q, p, pad);
    PartialSize(k, s, q, p, pad, i);
    var c := Least(n, |w| - i, |link|);
    assert w[..|w|] == w;
    PrefixSlice(link, w, rest, i, c);
    PartialGrows(k, s, q, p, pad, i, i + c);
    WholePacket(k, s, q, p, pad);
  }

  /** One call of read_packet, at any point of a packet and for any two short reads, takes the
      right bytes: it is part way through, or it delivers the payload. It never fails. */
  lemma ReadReads<S(!new)>(k: Keys<S>, s: S, q: uint32, p: seq<byte>, pad: seq<byte>, i: nat, link: seq<byte>, rest: seq<byte>, n1: nat, n2: nat)
    requires GoodKeys(k) && Sendable(k, p, pad)
    requires var w := Seal(k, s, q, p, pad).1; i < |w| && link <= w[i..] + rest
    ensures var (s2, w) := Seal(k, s, q, p, pad); var rx := Partial(k, s, q, w[..i]);
      RxOK(k, rx) && Reads(k, s, s2, q, p, w, i, ReadPacket(k, rx, link, n1, n2))
  {
    hide Seal, ReadRest, Reads, GoodKeys, Sendable, Partial, ReadPacket;
    var (s2, w) := Seal(k, s, q, p, pad);
    PartialSize(k, s, q, p, pad, i);
    LongEnough(k, s, q, p, pad);
    if i < k.block {
      FirstBlock(k, s, q, p, pad);
      SmallPartial(k, s, q, w[..i]);
      var c := Least(n1, k.block - i, |link|);
      PrefixSlice(link, w, rest, i, c);
      assert w[..i] + w[i..i + c] == w[..i + c];
      if c == k.block - i {
        assert link[c..] <= w[k.block..] + rest;
        RestReads(k, s, q, p, pad, k.block, link[c..], rest, n2);
        var t := ReadRest(k, Partial(k, s, q, w[..k.block]), link[c..], n2);
        ReadsLater(k, s, s2, q, p, w, i, k.block, t);
        assert ReadPacket(k, Rx(s, q, w[..i], 0), link, n1, n2) == Taken(t.r, c + t.n) by { ReadFull(k, s, q, w[..i], link, n1, n2, Partial(k, s, q, w[..k.block])); }
      } else {
        ReadsShort(k, s, s2, q, p, w, i, c);
        ReadPart(k, s, q, w[..i], link, n1, n2);
      }
    } else {
      RestReads(k, s, q, p, pad, i, link, rest, n2);
      ReadLater(k, Partial(k, s, q, w[..i]), link, n1, n2);
    }
  }

  lemma SmallPartial<S>(k: Keys<S>, s: S, q: uint32, raw: seq<byte>)
    requires |raw| < k.block
    ensures Partial(k, s, q, raw) == Rx(s, q, raw, 0)
  {
  }

  lemma ReadLater<S>(k: Keys<S>, rx: Rx<S>, link: seq<byte>, n1: nat, n2: nat)
    requires RxOK(k, rx) && |rx.buf| >= k.block
    ensures ReadPacket(k, rx, link, n1, n2) == ReadRest(k, rx, link, n2)
  {
  }

  lemma ReadPart<S>(k: Keys<S>, s: S, q: uint32, raw: seq<byte>, link: seq<byte>, n1: nat, n2: nat)
    requires |raw| < k.block && k.block >= 4 && Least(n1, k.block - |raw|, |link|) < k.block - |raw|
    ensures var c := Least(n1, k.block - |raw|, |link|);
      ReadPacket(k, Rx(s, q, raw, 0), link, n1, n2) == Taken(More(Rx(s, q, raw + link[..c], 0)), c)
  {
  }

  lemma ReadFull<S>(k: Keys<S>, s: S, q: uint32, raw: seq<byte>, link: seq<byte>, n1: nat, n2: nat, rx: Rx<S>)
    requires |raw| < k.block && k.block >= 4 && Least(n1, k.block - |raw|, |link|) == k.block - |raw|
    requires Begin(k, Rx(s, q, raw + link[..k.block - |raw|], 0)) == More(rx) && RxOK(k, rx) && |rx.buf| >= k.block
    ensures var c := k.block - |raw|; var t := ReadRest(k, rx, link[c..], n2);
      ReadPacket(k, Rx(s, q, raw, 0), link, n1, n2) == Taken(t.r, c + t.n)
  {
    hide Begin, ReadRest;
  }

  lemma ReadsShort<S>(k: Keys<S>, s: S, s2: S, q: uint32, p: seq<byte>, w: seq<byte>, i: nat, c: nat)
    requires i + c < k.block <= |w|
    ensures Reads(k, s, s2, q, p, w, i, Taken(More(Rx(s, q, w[..i + c], 0)), c))
  {
  }

  lemma ReadsLater<S>(k: Keys<S>, s: S, s2: S, q: uint32, p: seq<byte>, w: seq<byte>, i: nat, j: nat, t: Taken<S>)
    requires i <= j && Reads(k, s, s2, q, p, w, j, t)
    ensures Reads(k, s, s2, q, p, w, i, Taken(t.r, j - i + t.n))
  {
  }

  // ------------------------------------------------------- a stream of packets

  /** The algorithms and keys that one exchange gives to a direction, and the IV to start from. */
  datatype Ctx<!S> = Ctx(k: Keys<S>, iv: S)

  /** One context for each exchange, the one before the first included. */
  ghost predicate GoodContexts<S(!new)>(ctx: nat -> Ctx<S>) {
    forall e: nat {:trigger ctx(e)} :: GoodKeys(ctx(e).k)
  }

  predicate IsNewkeys(p: seq<byte>) { p != [] && p[0] == Transport.SSH_MSG_NEWKEYS }

  /** Where an end stands in the stream: exchanges done, chaining state, sequence number. */
  datatype Stage<S> = Stage(e: nat, s: S, q: uint32)

  /** After NEWKEYS the next context is used from its start; the numbers go on. */
  function Onward<S>(ctx: nat -> Ctx<S>, e: nat, s: S, q: uint32, p: seq<byte>): Stage<S> {
    if IsNewkeys(p) then Stage(e + 1, ctx(e + 1).iv, q) else Stage(e, s, q)
  }

  function Sealing<S>(ctx: nat -> Ctx<S>, g: Stage<S>, p: seq<byte>, pad: seq<byte>): (S, seq<byte>) {
    Seal(ctx(g.e).k, g.s, g.q, p, pad)
  }

  /** Where the stream stands after a packet. */
  function Past<S>(ctx: nat -> Ctx<S>, g: Stage<S>, p: seq<byte>, pad: seq<byte>): Stage<S> {
    Onward(ctx, g.e, Sealing(ctx, g, p, pad).0, Next(g.q), p)
  }

  /** Every packet is sealed in the context of its place. */
  predicate Fits<S>(ctx: nat -> Ctx<S>, e: nat, ps: seq<seq<byte>>, pads: seq<seq<byte>>)
    decreases |ps|
  {
    && |ps| == |pads|
    && (ps == [] || (Sendable(ctx(e).k, ps[0], pads[0]) && Fits(ctx, if IsNewkeys(ps[0]) then e + 1 else e, ps[1..], pads[1..])))
  }

  /** The wire form of a list of payloads, and where the stream stands after it. */
  datatype Sealed<S> = Sealed(bytes: seq<byte>, g: Stage<S>)

  function SealAll<S>(ctx: nat -> Ctx<S>, g: Stage<S>, ps: seq<seq<byte>>, pads: seq<seq<byte>>): Sealed<S>
    requires |ps| == |pads|
    decreases |ps|
  {
    if ps == [] then Sealed([], g)
    else
      var rest := SealAll(ctx, Past(ctx, g, ps[0], pads[0]), ps[1..], pads[1..]);
      Sealed(Sealing(ctx, g, ps[0], pads[0]).1 + rest.bytes, rest.g)
  }

  lemma {:induction false} SealOneMore<S>(ctx: nat -> Ctx<S>, g: Stage<S>, ps: seq<seq<byte>>, pads: seq<seq<byte>>, p: seq<byte>, pad: seq<byte>)
    requires Fits(ctx, g.e, ps, pads)
    ensures var a := SealAll(ctx, g, ps, pads);
      && SealAll(ctx, g, ps + [p], pads + [pad]) == Sealed(a.bytes + Sealing(ctx, a.g, p, pad).1, Past(ctx, a.g, p, pad))
      && (Sendable(ctx(a.g.e).k, p, pad) ==> Fits(ctx, g.e, ps + [p], pads + [pad]))
    decreases |ps|
  {
    hide Sealing, Sendable;
    if ps == [] {
      assert ps + [p] == [p] && pads + [pad] == [pad];
      assert [p][1..] == [] && [pad][1..] == [];
      var w := Sealing(ctx, g, p, pad).1;
      assert w + [] == [] + w;
    } else {
      assert (ps + [p])[1..] == ps[1..] + [p] && (pads + [pad])[1..] == pads[1..] + [pad];
      var h, w0 := Past(ctx, g, ps[0], pads[0]), Sealing(ctx, g, ps[0], pads[0]).1;
      SealOneMore(ctx, h, ps[1..], pads[1..], p, pad);
      var rest := SealAll(ctx, h, ps[1..], pads[1..]);
      var w := Sealing(ctx, rest.g, p, pad).1;
      assert w0 + (rest.bytes + w) == w0 + rest.bytes + w;
    }
  }

  /** A queued packet: its last byte is the packet type, which is not transmitted. */
  datatype Queued = Queued(bytes: seq<byte>, pos: nat)

  predicate QueueOK(q: seq<Queued>) {
    forall i :: 0 <= i < |q| ==> q[i].pos < |q[i].bytes| - 1
  }

  /** The bytes of a queued packet still to be written. */
  function Rest(x: Queued): seq<byte>
    requires x.pos < |x.bytes| - 1
  {
    x.bytes[x.pos..|x.bytes| - 1]
  }

  function Unwritten(q: seq<Queued>): seq<byte>
    requires QueueOK(q)
  {
    if q == [] then [] else Rest(q[0]) + Unwritten(q[1..])
  }

  lemma {:induction false} UnwrittenAppend(q: seq<Queued>, x: Queued)
    requires QueueOK(q) && x.pos < |x.bytes| - 1
    ensures QueueOK(q + [x]) && Unwritten(q + [x]) == Unwritten(q) + Rest(x)
    decreases |q|
  {
    hide Rest;
    if q == [] {
      assert q + [x] == [x] && [x][1..] == [];
    } else {
      assert (q + [x])[1..] == q[1..] + [x];
      UnwrittenAppend(q[1..], x);
      assert Rest(q[0]) + (Unwritten(q[1..]) + Rest(x)) == Rest(q[0]) + Unwritten(q[1..]) + Rest(x);
    }
  }

  /** write_packet, when write() took n bytes of the packet at the head of the queue. */
  function WriteHead(q: seq<Queued>, n: nat): seq<Queued>
    requires QueueOK(q) && q != [] && n <= |q[0].bytes| - 1 - q[0].pos
  {
    if n == |q[0].bytes| - 1 - q[0].pos then q[1..] else [q[0].(pos := q[0].pos + n)] + q[1..]
  }

  /** The first n bytes of what is left of a packet. */
  function Piece(x: Queued, n: nat): seq<byte>
    requires x.pos + n <= |x.bytes| - 1
  {
    x.bytes[x.pos..x.pos + n]
  }

  lemma RestSplits(x: Queued, n: nat)
    requires x.pos < |x.bytes| - 1 && x.pos + n <= |x.bytes| - 1
    ensures Rest(x) == if x.pos + n == |x.bytes| - 1 then Piece(x, n) else Piece(x, n) + Rest(x.(pos := x.pos + n))
  {
  }

  lemma WriteHeadTakes(q: seq<Queued>, n: nat)
    requires QueueOK(q) && q != [] && n <= |q[0].bytes| - 1 - q[0].pos
    ensures QueueOK(WriteHead(q, n)) && Unwritten(q) == Piece(q[0], n) + Unwritten(WriteHead(q, n))
  {
    hide Rest, Piece, QueueOK, Unwritten;
    var x, rest := q[0], q[1..];
    RestOK(q);
    RestSplits(x, n);
    assert q == [x] + rest;
    UnwrittenCons(x, rest);
    if x.pos + n < |x.bytes| - 1 {
      var y := x.(pos := x.pos + n);
      UnwrittenCons(y, rest);
      assert Piece(x, n) + Rest(y) + Unwritten(rest) == Piece(x, n) + (Rest(y) + Unwritten(rest));
    }
  }

  lemma RestOK(q: seq<Queued>)
    requires QueueOK(q) && q != []
    ensures QueueOK(q[1..]) && q[0].pos < |q[0].bytes| - 1
  {
  }

  lemma UnwrittenCons(x: Queued, rest: seq<Queued>)
    requires QueueOK(rest) && x.pos < |x.bytes| - 1
    ensures QueueOK([x] + rest) && Unwritten([x] + rest) == Rest(x) + Unwritten(rest)
  {
    assert ([x] + rest)[1..] == rest;
  }

  /** A sender, a FIFO link and a receiver. The sender has made NEWKEYS and not yet changed its
      keys when `pending`. `done` counts the receiver's exchanges; `base` is its cipher state at
      the start of the packet it is reading, `pads` the random padding of every packet sent:
      history only. */
  datatype Net<S> = Net(tx: Stage<S>, pending: bool, queue: seq<Queued>, link: seq<byte>, rx: Rx<S>, done: nat,
                        sent: seq<seq<byte>>, got: seq<seq<byte>>, fault: Option<Fault>,
                        base: S, pads: seq<seq<byte>>)

  datatype Event = Send(payload: seq<byte>, pad: seq<byte>) | Switch | Write(n: nat) | Read(n1: nat, n2: nat)

  /** Between NEWKEYS and the change of keys nothing is sent. A receiver that has delivered
      NEWKEYS changes its keys before it reads on. */
  function Step<S>(ctx: nat -> Ctx<S>, n: Net<S>, e: Event): Net<S>
    requires QueueOK(n.queue) && RxOK(ctx(n.done).k, n.rx)
  {
    if n.fault.Some? then n
    else match e
      case Send(p, pad) =>
        if !n.pending && Sendable(ctx(n.tx.e).k, p, pad) then
          var (s1, w) := Sealing(ctx, n.tx, p, pad);
          n.(tx := Stage(n.tx.e, s1, Next(n.tx.q)), pending := IsNewkeys(p), queue := n.queue + [Queued(w + [p[0]], 0)],
             sent := n.sent + [p], pads := n.pads + [pad])
        else n
      case Switch =>
        if n.pending then n.(tx := Stage(n.tx.e + 1, ctx(n.tx.e + 1).iv, n.tx.q), pending := false) else n
      case Write(c) =>
        if n.queue == [] || c > |n.queue[0].bytes| - 1 - n.queue[0].pos then n
        else n.(queue := WriteHead(n.queue, c),
                link := n.link + Piece(n.queue[0], c))
      case Read(n1, n2) =>
        if n.link == [] then n
        else
          var t := ReadPacket(ctx(n.done).k, n.rx, n.link, n1, n2);
          match t.r
          case More(rx) => n.(rx := rx, link := n.link[t.n..])
          case Payload(rx, p) =>
            var g := Onward(ctx, n.done, rx.s, rx.seqno, p);
            n.(rx := rx.(s := g.s), done := g.e, link := n.link[t.n..], got := n.got + [p], base := g.s)
          case Fail(why) => n.(fault := Some(why))
  }

  /** Where the next packet of the sender will stand. */
  function Ahead<S>(ctx: nat -> Ctx<S>, n: Net<S>): Stage<S> {
    if n.pending then Stage(n.tx.e + 1, ctx(n.tx.e + 1).iv, n.tx.q) else n.tx
  }

  /** What the receiver has delivered is a prefix of what was sent; the rest is, in wire form,
      what it holds of the current packet, what is on the link and what is queued, each packet
      under the keys of its place. */
  ghost predicate Inv<S(!new)>(ctx: nat -> Ctx<S>, n: Net<S>) {
    && n.fault.None? && QueueOK(n.queue) && RxOK(ctx(n.done).k, n.rx)
    && |n.got| <= |n.sent| == |n.pads| && n.got == n.sent[..|n.got|]
    && InFlight(ctx, n.done, n.base, n.rx, n.sent[|n.got|..], n.pads[|n.got|..], n.link + Unwritten(n.queue), Ahead(ctx, n))
  }

  /** The undelivered payloads ps, in wire form, are what the receiver holds and then `ahead`. */
  ghost predicate InFlight<S(!new)>(ctx: nat -> Ctx<S>, e: nat, base: S, rx: Rx<S>, ps: seq<seq<byte>>, pads: seq<seq<byte>>, ahead: seq<byte>, tx: Stage<S>)
  {
    && Fits(ctx, e, ps, pads)
    && var a := SealAll(ctx, Stage(e, base, rx.seqno), ps, pads);
    && a.g == tx && |rx.buf| <= |a.bytes| && ahead == a.bytes[|rx.buf|..]
    && if ps == [] then rx == Rx(base, rx.seqno, [], 0)
       else
         var w := Sealing(ctx, Stage(e, base, rx.seqno), ps[0], pads[0]).1;
         |rx.buf| < |w| && rx == Partial(ctx(e).k, base, rx.seqno, w[..|rx.buf|])
  }

  lemma FlightGrows<S(!new)>(ctx: nat -> Ctx<S>, e: nat, base: S, rx: Rx<S>, ps: seq<seq<byte>>, pads: seq<seq<byte>>, ahead: seq<byte>, tx: Stage<S>, p: seq<byte>, pad: seq<byte>)
    requires GoodContexts(ctx) && Sendable(ctx(tx.e).k, p, pad)
    requires InFlight(ctx, e, base, rx, ps, pads, ahead, tx)
    ensures InFlight(ctx, e, base, rx, ps + [p], pads + [pad], ahead + Sealing(ctx, tx, p, pad).1, Past(ctx, tx, p, pad))
  {
    hide Sealing, GoodKeys, Sendable, SealAll, Partial, Past, Fits;
    var g := Stage(e, base, rx.seqno);
    SameCount(ctx, e, ps, pads);
    SealOneMore(ctx, g, ps, pads, p, pad);
    assert |Sealing(ctx, tx, p, pad).1| >= ctx(tx.e).k.block by { SealedLength(ctx, tx, p, pad); }
    var a := SealAll(ctx, g, ps, pads);
    var w := Sealing(ctx, tx, p, pad).1;
    assert (a.bytes + w)[|rx.buf|..] == a.bytes[|rx.buf|..] + w;
    if ps == [] {
      EmptySealed(ctx, g, pads);
      EmptyPartial(ctx(e).k, base, rx.seqno, w);
    }
  }

  lemma SealedLength<S(!new)>(ctx: nat -> Ctx<S>, g: Stage<S>, p: seq<byte>, pad: seq<byte>)
    requires GoodContexts(ctx) && Sendable(ctx(g.e).k, p, pad)
    ensures |Sealing(ctx, g, p, pad).1| >= ctx(g.e).k.block > 0
  {
    FirstBlock(ctx(g.e).k, g.s, g.q, p, pad);
  }

  lemma EmptySealed<S>(ctx: nat -> Ctx<S>, g: Stage<S>, pads: seq<seq<byte>>)
    ensures pads == [] ==> SealAll(ctx, g, [], pads) == Sealed([], g)
    ensures Fits(ctx, g.e, [], pads) ==> pads == []
  {
  }

  lemma EmptyPartial<S(!new)>(k: Keys<S>, s: S, q: uint32, w: seq<byte>)
    requires GoodKeys(k) && |w| >= k.block
    ensures Partial(k, s, q, w[..0]) == Rx(s, q, [], 0) && |w| > 0
  {
  }

  /** One read moves the frontier within the current packet, or to the next one, in whose
      context the receiver then is. */
  lemma FlightReads<S(!new)>(ctx: nat -> Ctx<S>, e: nat, base: S, rx: Rx<S>, ps: seq<seq<byte>>, pads: seq<seq<byte>>, link: seq<byte>, more: seq<byte>, tx: Stage<S>, n1: nat, n2: nat)
    requires GoodContexts(ctx) && RxOK(ctx(e).k, rx)
    requires InFlight(ctx, e, base, rx, ps, pads, link + more, tx) && link != []
    ensures var t := ReadPacket(ctx(e).k, rx, link, n1, n2);
      match t.r
      case More(rx1) => RxOK(ctx(e).k, rx1) && InFlight(ctx, e, base, rx1, ps, pads, link[t.n..] + more, tx)
      case Payload(rx1, p) =>
        var g := Onward(ctx, e, rx1.s, rx1.seqno, p);
        && ps != [] && p == ps[0] && RxOK(ctx(g.e).k, rx1.(s := g.s))
        && InFlight(ctx, g.e, g.s, rx1.(s := g.s), ps[1..], pads[1..], link[t.n..] + more, tx)
      case Fail(_) => false
  {
    hide Seal, ReadPacket, GoodKeys, SealAll, Sendable, Partial, RxOK, Fits;
    var i, q, k := |rx.buf|, rx.seqno, ctx(e).k;
    var g := Stage(e, base, q);
    SameCount(ctx, e, ps, pads);
    assert ps != [] by { EmptySealed(ctx, g, pads); }
    var h, w := Past(ctx, g, ps[0], pads[0]), Sealing(ctx, g, ps[0], pads[0]).1;
    assert Sendable(k, ps[0], pads[0]) && Fits(ctx, h.e, ps[1..], pads[1..]) by { FitsHead(ctx, e, ps, pads); }
    var rest := SealAll(ctx, h, ps[1..], pads[1..]);
    SealAllHead(ctx, g, ps, pads);
    assert (w + rest.bytes)[i..] == w[i..] + rest.bytes;
    assert link <= link + more;
    ReadReads(k, base, q, ps[0], pads[0], i, link, rest.bytes, n1, n2);
    var t := ReadPacket(k, rx, link, n1, n2);
    Advance(link, more, w, rest.bytes, i, t.n);
    if t.r.More? {
      PartialSize(k, base, q, ps[0], pads[0], i + t.n);
      SameSeq(k, base, q, w[..i + t.n]);
    } else if t.r.Payload? {
      NextFlight(ctx, h, ps[1..], pads[1..], tx);
    }
  }

  lemma SameCount<S>(ctx: nat -> Ctx<S>, e: nat, ps: seq<seq<byte>>, pads: seq<seq<byte>>)
    requires Fits(ctx, e, ps, pads)
    ensures |ps| == |pads|
  {
  }

  lemma FitsHead<S>(ctx: nat -> Ctx<S>, e: nat, ps: seq<seq<byte>>, pads: seq<seq<byte>>)
    requires Fits(ctx, e, ps, pads) && ps != []
    ensures |ps| == |pads| && Sendable(ctx(e).k, ps[0], pads[0])
    ensures Fits(ctx, if IsNewkeys(ps[0]) then e + 1 else e, ps[1..], pads[1..])
  {
  }

  lemma SameSeq<S>(k: Keys<S>, s: S, q: uint32, raw: seq<byte>)
    ensures Partial(k, s, q, raw).seqno == q
  {
  }

  lemma SealAllHead<S>(ctx: nat -> Ctx<S>, g: Stage<S>, ps: seq<seq<byte>>, pads: seq<seq<byte>>)
    requires |ps| == |pads| > 0
    ensures var rest := SealAll(ctx, Past(ctx, g, ps[0], pads[0]), ps[1..], pads[1..]);
      SealAll(ctx, g, ps, pads) == Sealed(Sealing(ctx, g, ps[0], pads[0]).1 + rest.bytes, rest.g)
  {
  }

  lemma Advance(link: seq<byte>, more: seq<byte>, w: seq<byte>, rest: seq<byte>, i: nat, n: nat)
    requires i + n <= |w| && n <= |link| && link + more == w[i..] + rest
    ensures link[n..] + more == (w + rest)[i + n..]
    ensures i + n == |w| ==> link[n..] + more == rest
  {
    assert (link + more)[n..] == link[n..] + more;
    assert (w[i..] + rest)[n..] == (w + rest)[i + n..];
    assert i + n == |w| ==> (w + rest)[i + n..] == rest;
  }

  lemma NextFlight<S(!new)>(ctx: nat -> Ctx<S>, g: Stage<S>, ps: seq<seq<byte>>, pads: seq<seq<byte>>, tx: Stage<S>)
    requires GoodContexts(ctx) && Fits(ctx, g.e, ps, pads) && |ps| == |pads| && SealAll(ctx, g, ps, pads).g == tx
    ensures RxOK(ctx(g.e).k, Rx(g.s, g.q, [], 0))
    ensures InFlight(ctx, g.e, g.s, Rx(g.s, g.q, [], 0), ps, pads, SealAll(ctx, g, ps, pads).bytes, tx)
  {
    hide Seal, Partial, Sendable, Sealing;
    var a := SealAll(ctx, g, ps, pads);
    assert a.bytes[0..] == a.bytes;
    if ps != [] {
      SealedLength(ctx, g, ps[0], pads[0]);
      EmptyPartial(ctx(g.e).k, g.s, g.q, Sealing(ctx, g, ps[0], pads[0]).1);
    }
  }

  lemma SendStep<S(!new)>(ctx: nat -> Ctx<S>, n: Net<S>, p: seq<byte>, pad: seq<byte>)
    requires GoodContexts(ctx) && Inv(ctx, n)
    ensures Inv(ctx, Step(ctx, n, Send(p, pad)))
  {
    hide Sealing, InFlight, GoodContexts, Unwritten, Sendable, QueueOK, RxOK;
    if !n.pending && Sendable(ctx(n.tx.e).k, p, pad) {
      var m := |n.got|;
      var (s1, w) := Sealing(ctx, n.tx, p, pad);
      assert |w| > 0 && |p| > 0 by { SealedLength(ctx, n.tx, p, pad); PayloadNotEmpty(ctx(n.tx.e).k, p, pad); }
      FlightGrows(ctx, n.done, n.base, n.rx, n.sent[m..], n.pads[m..], n.link + Unwritten(n.queue), n.tx, p, pad);
      var x := Queued(w + [p[0]], 0);
      UnwrittenAppend(n.queue, x);
      assert Rest(x) == w;
      Lists(n.sent, p, m);
      Lists(n.pads, pad, m);
      assert n.link + (Unwritten(n.queue) + w) == n.link + Unwritten(n.queue) + w;
      assert Ahead(ctx, Step(ctx, n, Send(p, pad))) == Past(ctx, n.tx, p, pad);
      assert Inv(ctx, Step(ctx, n, Send(p, pad)));
    }
  }

  lemma PayloadNotEmpty<S>(k: Keys<S>, p: seq<byte>, pad: seq<byte>)
    requires Sendable(k, p, pad)
    ensures |p| > 0
  {
  }

  lemma Lists(a: seq<seq<byte>>, p: seq<byte>, m: nat)
    requires m <= |a|
    ensures (a + [p])[m..] == a[m..] + [p] && (a + [p])[..m] == a[..m]
  {
  }

  lemma WriteStep<S(!new)>(ctx: nat -> Ctx<S>, n: Net<S>, c: nat)
    requires Inv(ctx, n)
    ensures Inv(ctx, Step(ctx, n, Write(c)))
  {
    hide InFlight, Unwritten, Piece;
    if n.queue != [] && c <= |n.queue[0].bytes| - 1 - n.queue[0].pos {
      WriteHeadTakes(n.queue, c);
      var x := Piece(n.queue[0], c);
      var rest := Unwritten(WriteHead(n.queue, c));
      assert n.link + (x + rest) == n.link + x + rest;
    }
  }

  lemma SwitchStep<S(!new)>(ctx: nat -> Ctx<S>, n: Net<S>)
    requires Inv(ctx, n)
    ensures Inv(ctx, Step(ctx, n, Switch))
  {
    hide InFlight, Unwritten, QueueOK, RxOK;
  }

  lemma ReadStep<S(!new)>(ctx: nat -> Ctx<S>, n: Net<S>, n1: nat, n2: nat)
    requires GoodContexts(ctx) && Inv(ctx, n)
    ensures Inv(ctx, Step(ctx, n, Read(n1, n2)))
  {
    hide InFlight, ReadPacket, GoodContexts, Unwritten, QueueOK, RxOK, Onward;
    if n.link != [] {
      var m := |n.got|;
      FlightReads(ctx, n.done, n.base, n.rx, n.sent[m..], n.pads[m..], n.link, Unwritten(n.queue), Ahead(ctx, n), n1, n2);
      var t := ReadPacket(ctx(n.done).k, n.rx, n.link, n1, n2);
      if t.r.Payload? {
        assert n.sent[m..][1..] == n.sent[m + 1..] && n.pads[m..][1..] == n.pads[m + 1..];
        assert n.got + [n.sent[m]] == n.sent[..m + 1];
      }
    }
  }

  lemma StepInv<S(!new)>(ctx: nat -> Ctx<S>, n: Net<S>, e: Event)
    requires GoodContexts(ctx) && Inv(ctx, n)
    ensures Inv(ctx, Step(ctx, n, e))
  {
    hide InFlight, GoodContexts, Step, Unwritten;
    match e
    case Send(p, pad) => SendStep(ctx, n, p, pad);
    case Switch => SwitchStep(ctx, n);
    case Write(c) => WriteStep(ctx, n, c);
    case Read(n1, n2) => ReadStep(ctx, n, n1, n2);
  }

  /** The first context is the one before any exchange; the numbers start at q. */
  function Start<S>(ctx: nat -> Ctx<S>, q: uint32): Net<S> {
    Net(Stage(0, ctx(0).iv, q), false, [], [], Rx(ctx(0).iv, q, [], 0), 0, [], [], None, ctx(0).iv, [])
  }

  /** The state after a run: any payloads sent, keys changed after any NEWKEYS, any partial writes
      and reads, in any order. */
  ghost function Exec<S(!new)>(ctx: nat -> Ctx<S>, n: Net<S>, run: seq<Event>): (r: Net<S>)
    requires GoodContexts(ctx) && Inv(ctx, n)
    ensures Inv(ctx, r)
    decreases |run|
  {
    if run == [] then n
    else
      StepInv(ctx, n, run[0]);
      Exec(ctx, Step(ctx, n, run[0]), run[1..])
  }

  lemma StartInv<S(!new)>(ctx: nat -> Ctx<S>, q: uint32)
    requires GoodContexts(ctx)
    ensures Inv(ctx, Start(ctx, q))
  {
    var n := Start(ctx, q);
    assert GoodKeys(ctx(0).k);
    assert n.sent[0..] == [] && n.pads[0..] == [] && n.link + Unwritten(n.queue) == [];
  }

  /** However payloads of 1 to TRANS_MAX_PAYLOAD_LEN bytes are cut up by the socket, and however
      often the keys change, with packets under the old keys still queued or on the way: the
      reader never fails, and delivers exactly the payloads sent, in order; once nothing is
      queued or on the link, all of them. */
  lemma DeliversInOrder<S(!new)>(ctx: nat -> Ctx<S>, q: uint32, run: seq<Event>)
    requires GoodContexts(ctx)
    ensures Inv(ctx, Start(ctx, q))
    ensures var n := Exec(ctx, Start(ctx, q), run);
      && n.fault.None? && n.got <= n.sent
      && (n.queue == [] && n.link == [] ==> n.got == n.sent)
  {
    StartInv(ctx, q);
    var n := Exec(ctx, Start(ctx, q), run);
    var m := |n.got|;
    assert n.sent[..m] <= n.sent;
  }
}
