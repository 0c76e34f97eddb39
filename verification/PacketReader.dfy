/**
  What read_packet makes of any bytes whatever, in any pieces: which it delivers, and why it
  refuses the others.
*/
module PacketReader {
  import opened Wrappers
  import opened Bytes
  import opened NumberTheory
  import opened PacketFormat
  import opened PacketStream

  /** Decrypting a block gives a block, whatever is in it. */
  ghost predicate BlockCipher<S(!new)>(k: Keys<S>) {
    && (k.block == 8 || 16 <= k.block <= 64) && k.macSize == k.checkSize <= MAX_MAC_LEN
    && (forall s, b {:trigger k.dec(s, b)} :: |b| == k.block ==> |k.dec(s, b).1| == k.block)
  }

  /** The text of a packet: everything before the MAC, decrypted from state s on. */
  function Text<S>(k: Keys<S>, s: S, raw: seq<byte>): (S, seq<byte>)
    requires k.macSize <= |raw|
  {
    Blocks(k.dec, k.block, s, raw[..|raw| - k.macSize])
  }

  /** The length that the first block of a packet announces, header and MAC included. */
  function Announced<S>(k: Keys<S>, s: S, raw: seq<byte>): nat
    requires |raw| >= k.block
  {
    var b := Blocks(k.dec, k.block, s, raw[..k.block]).1;
    if |b| >= 4 then (GetInt(b) + 4 + k.macSize) % WORD else 0
  }

  /** That length is within the limits and leaves whole blocks. */
  predicate LengthOK<S>(k: Keys<S>, n: nat) {
    MIN_PACKET_LEN + k.macSize <= n <= RECV_MAX_PACKET_LEN && k.block > 0 && (n - k.macSize) % k.block == 0
  }

  /** The bytes end in the MAC of their text under this number. */
  predicate MacOK<S>(k: Keys<S>, s: S, q: uint32, raw: seq<byte>)
    requires k.macSize <= |raw|
  {
    raw[|raw| - k.macSize..] == k.mac(q, Text(k, s, raw).1)
  }

  /** The payload is what lies between the padding length and the padding. */
  predicate PayloadIs(text: seq<byte>, p: seq<byte>) {
    |text| >= 5 && 1 <= |p| <= RECV_MAX_PAYLOAD_LEN && |p| + 5 + text[4] == |text| && text[5..5 + |p|] == p
  }

  /** A whole packet that carries p. */
  predicate Genuine<S>(k: Keys<S>, s: S, q: uint32, raw: seq<byte>, p: seq<byte>) {
    && k.block + k.macSize <= |raw| && |raw| == Announced(k, s, raw) && LengthOK(k, |raw|)
    && MacOK(k, s, q, raw) && PayloadIs(Text(k, s, raw).1, p)
  }

  /** The reader that began in state s has taken the bytes raw and is part way through a packet. */
  ghost predicate Midway<S>(k: Keys<S>, s: S, q: uint32, raw: seq<byte>, rx: Rx<S>) {
    && rx == Partial(k, s, q, raw)
    && (|raw| >= k.block ==> LengthOK(k, Announced(k, s, raw)) && |raw| < Announced(k, s, raw))
  }

  /** What one call has come to, all bytes of the packet so far being raw. */
  ghost predicate Means<S>(k: Keys<S>, s: S, q: uint32, raw: seq<byte>, r: Got<S>) {
    match r
    case More(rx) => Midway(k, s, q, raw, rx)
    case Payload(rx, p) => Genuine(k, s, q, raw, p) && rx == Rx(Text(k, s, raw).0, Next(q), [], 0)
    case Fail(BadSize) => |raw| == k.block && !LengthOK(k, Announced(k, s, raw))
    case Fail(RemoteClosed) => |raw| == k.block == Announced(k, s, raw) && k.macSize == 0
    case Fail(BadMac) => k.block + k.macSize <= |raw| == Announced(k, s, raw) && !MacOK(k, s, q, raw)
    case Fail(BadPayload) =>
      && k.block + k.macSize <= |raw| == Announced(k, s, raw) && MacOK(k, s, q, raw)
      && forall p :: !PayloadIs(Text(k, s, raw).1, p)
  }

  lemma {:induction false} BlocksLength<S(!new)>(k: Keys<S>, s: S, x: seq<byte>)
    requires BlockCipher(k) && |x| % k.block == 0
    ensures |Blocks(k.dec, k.block, s, x).1| == |x|
    decreases |x|
  {
    if |x| < k.block {
      ModIdem(|x|, k.block);
    } else {
      OneBlockLess(|x|, k.block);
      BlocksLength(k, k.dec(s, x[..k.block]).0, x[k.block..]);
    }
  }

  /** The text, when the first block has been decrypted early. */
  lemma TextParts<S(!new)>(k: Keys<S>, s: S, raw: seq<byte>)
    requires BlockCipher(k) && k.block + k.macSize <= |raw| && (|raw| - k.macSize) % k.block == 0
    ensures var m := |raw| - k.macSize;
      var (s1, b) := Blocks(k.dec, k.block, s, raw[..k.block]);
      var (s2, rest) := Blocks(k.dec, k.block, s1, raw[k.block..m]);
      && |b| == k.block && |b + rest| == m && Text(k, s, raw) == (s2, b + rest)
  {
    var n, m := k.block, |raw| - k.macSize;
    AddMultiple(0, n, 1);
    OneBlockLess(m, n);
    BlocksLength(k, s, raw[..n]);
    assert raw[..m] == raw[..n] + raw[n..m];
    BlocksConcat(k.dec, n, s, raw[..n], raw[n..m]);
    BlocksLength(k, Blocks(k.dec, n, s, raw[..n]).0, raw[n..m]);
  }

  /** With all the announced bytes in hand, decrypt_packet checks the MAC and takes out the payload. */
  lemma WholeMeans<S(!new)>(k: Keys<S>, s: S, q: uint32, raw: seq<byte>)
    requires BlockCipher(k) && k.block + k.macSize <= |raw| == Announced(k, s, raw) && LengthOK(k, |raw|)
    ensures var rx := Partial(k, s, q, raw);
      && |rx.buf| == |raw| && Means(k, s, q, raw, Decrypt(k, rx))
  {
    TextParts(k, s, raw);
    var n, m := k.block, |raw| - k.macSize;
    var (s1, b) := Blocks(k.dec, n, s, raw[..n]);
    var (s2, rest) := Blocks(k.dec, n, s1, raw[n..m]);
    var rx := Partial(k, s, q, raw);
    assert rx == Rx(s1, q, b + raw[n..], |raw|);
    hide *;
    GlueSlices(b, raw, n, m);
    DecryptIs(k, rx, rest, s2);
    assert rx.buf[..n] + rest == b + rest;
    VerdictMeans(k, s, q, raw, s2, b + rest);
  }

  /** What decrypt_packet says of a text and a MAC. */
  function Verdict<S>(k: Keys<S>, q: uint32, text: seq<byte>, mac: seq<byte>, s2: S): Got<S>
    requires |text| >= 5
  {
    var len := |text| - 5 - text[4];
    if k.mac(q, text) != mac then Fail(BadMac)
    else if 1 <= len <= RECV_MAX_PAYLOAD_LEN then Payload(Rx(s2, Next(q), [], 0), text[5..5 + len])
    else Fail(BadPayload)
  }

  lemma VerdictMeans<S(!new)>(k: Keys<S>, s: S, q: uint32, raw: seq<byte>, s2: S, text: seq<byte>)
    requires k.block + k.macSize <= |raw| == Announced(k, s, raw) && LengthOK(k, |raw|) && Text(k, s, raw) == (s2, text) && |text| >= 5
    ensures Means(k, s, q, raw, Verdict(k, q, text, raw[|raw| - k.macSize..], s2))
  {
    hide Announced, Text, LengthOK, Midway;
    PayloadOf(text);
  }

  /** decrypt_packet on the rest of a packet whose first block is decrypted. */
  lemma DecryptIs<S>(k: Keys<S>, rx: Rx<S>, rest: seq<byte>, s2: S)
    requires k.macSize == k.checkSize && k.block + k.macSize <= |rx.buf| && |rx.buf| - k.macSize >= 5
    requires var m := |rx.buf| - k.macSize; Blocks(k.dec, k.block, rx.s, rx.buf[k.block..m]) == (s2, rest) && k.block + |rest| == m
    ensures var m := |rx.buf| - k.macSize;
      Decrypt(k, rx) == Verdict(k, rx.seqno, rx.buf[..k.block] + rest, rx.buf[m..], s2)
  {
    hide Blocks;
    var m := |rx.buf| - k.macSize;
    var text := rx.buf[..k.block] + rest;
    var plain := text + rx.buf[m..];
    assert plain[..m] == text && plain[m..] == rx.buf[m..];
    var len := m - 5 - text[4];
    if 1 <= len <= RECV_MAX_PAYLOAD_LEN { assert plain[5..5 + len] == text[5..5 + len]; }
  }

  lemma PayloadOf(text: seq<byte>)
    requires |text| >= 5
    ensures var len := |text| - 5 - text[4];
      if 1 <= len <= RECV_MAX_PAYLOAD_LEN then PayloadIs(text, text[5..5 + len]) else forall p :: !PayloadIs(text, p)
  {
  }

  lemma MidwayFirst<S>(k: Keys<S>, s: S, q: uint32, raw: seq<byte>)
    requires |raw| < k.block
    ensures Midway(k, s, q, raw, Rx(s, q, raw, 0))
  {
  }

  /** The first block tells the length, or ends the connection. */
  lemma BeginMeans<S(!new)>(k: Keys<S>, s: S, q: uint32, raw: seq<byte>)
    requires BlockCipher(k) && |raw| == k.block
    ensures var n := Announced(k, s, raw);
      Begin(k, Rx(s, q, raw, 0)) == if LengthOK(k, n) then More(Partial(k, s, q, raw)) else Fail(BadSize)
  {
    assert raw[..k.block] == raw && raw[k.block..] == [];
    AddMultiple(0, k.block, 1);
    BlocksLength(k, s, raw);
    var (s1, b) := Blocks(k.dec, k.block, s, raw);
    assert b + [] == b;
    hide Blocks;
  }

  /** More bytes of the packet leave its announced length as it is. */
  lemma SameAnnounced<S>(k: Keys<S>, s: S, q: uint32, raw: seq<byte>, more: seq<byte>)
    requires |raw| >= k.block
    ensures Announced(k, s, raw + more) == Announced(k, s, raw)
    ensures Partial(k, s, q, raw + more) == Partial(k, s, q, raw).(buf := Partial(k, s, q, raw).buf + more)
    ensures Partial(k, s, q, raw).total == Announced(k, s, raw)
  {
    assert (raw + more)[..k.block] == raw[..k.block];
    assert (raw + more)[k.block..] == raw[k.block..] + more;
    hide Blocks;
    var b := Blocks(k.dec, k.block, s, raw[..k.block]).1;
    assert b + (raw[k.block..] + more) == b + raw[k.block..] + more;
  }

  lemma PartialLength<S(!new)>(k: Keys<S>, s: S, q: uint32, raw: seq<byte>)
    requires BlockCipher(k)
    ensures |Partial(k, s, q, raw).buf| == |raw|
  {
    if |raw| >= k.block {
      AddMultiple(0, k.block, 1);
      BlocksLength(k, s, raw[..k.block]);
    }
    hide Blocks;
  }

  lemma LengthCovers<S(!new)>(k: Keys<S>, n: nat)
    requires BlockCipher(k) && LengthOK(k, n)
    ensures k.block + k.macSize <= n
  {
    AtLeastOne(n - k.macSize, k.block);
  }

  /** The rest of a packet: anything taken once its length is known. */
  lemma RestMeans<S(!new)>(k: Keys<S>, s: S, q: uint32, raw: seq<byte>, link: seq<byte>, n: nat)
    requires BlockCipher(k) && |raw| >= k.block && LengthOK(k, Announced(k, s, raw)) && |raw| <= Announced(k, s, raw)
    requires |raw| == Announced(k, s, raw) ==> |raw| == k.block
    ensures var rx := Partial(k, s, q, raw);
      && RxOK(k, rx) && |rx.buf| == |raw|
      && var t := ReadRest(k, rx, link, n); Means(k, s, q, raw + link[..t.n], t.r)
  {
    hide Partial, Decrypt, Announced, Genuine, LengthOK;
    var rx := Partial(k, s, q, raw);
    var total := Announced(k, s, raw);
    PartialLength(k, s, q, raw);
    LengthCovers(k, total);
    SameAnnounced(k, s, q, raw, []);
    assert raw + [] == raw && raw + link[..0] == raw;
    var c := Least(n, total - |raw|, |link|);
    SameAnnounced(k, s, q, raw, link[..c]);
    if |raw| < total && c == total - |raw| { WholeMeans(k, s, q, raw + link[..c]); }
  }

  /** Any call of read_packet, at any point of any packet, on any bytes: what it delivers is a whole
      packet with the right MAC and the payload in its place; and it refuses for the one reason that
      applies. */
  lemma CallMeans<S(!new)>(k: Keys<S>, s: S, q: uint32, raw: seq<byte>, rx: Rx<S>, link: seq<byte>, n1: nat, n2: nat)
    requires BlockCipher(k) && Midway(k, s, q, raw, rx)
    ensures RxOK(k, rx)
    ensures var t := ReadPacket(k, rx, link, n1, n2); Means(k, s, q, raw + link[..t.n], t.r)
  {
    hide ReadRest, Means, Genuine, MacOK, LengthOK, Announced;
    if |raw| >= k.block {
      RestMeans(k, s, q, raw, link, n2);
    } else {
      var c := Least(n1, k.block - |raw|, |link|);
      var raw1 := raw + link[..c];
      assert rx == Rx(s, q, raw, 0);
      if c < k.block - |raw| {
        MeansMore(k, s, q, raw1);
      } else {
        BeginMeans(k, s, q, raw1);
        if LengthOK(k, Announced(k, s, raw1)) {
          LengthCovers(k, Announced(k, s, raw1));
          RestMeans(k, s, q, raw1, link[c..], n2);
          var t := ReadRest(k, Partial(k, s, q, raw1), link[c..], n2);
          assert link[..c] + link[c..][..t.n] == link[..c + t.n];
          assert raw1 + link[c..][..t.n] == raw + link[..c + t.n];
        } else {
          MeansBadSize(k, s, q, raw1);
        }
      }
    }
  }

  lemma MeansMore<S(!new)>(k: Keys<S>, s: S, q: uint32, raw: seq<byte>)
    requires |raw| < k.block
    ensures Means(k, s, q, raw, More(Rx(s, q, raw, 0)))
  {
  }

  lemma MeansBadSize<S(!new)>(k: Keys<S>, s: S, q: uint32, raw: seq<byte>)
    requires |raw| == k.block && !LengthOK(k, Announced(k, s, raw))
    ensures Means(k, s, q, raw, Fail(BadSize))
  {
  }

  // ------------------------------------------------------ a packet in pieces

  /** Calls of read_packet one after the other, each with its two short reads, until one delivers or
      refuses, or the pieces end. The number is that of the bytes taken in all. */
  function ReadOn<S>(k: Keys<S>, rx: Rx<S>, link: seq<byte>, cuts: seq<(nat, nat)>): (t: Taken<S>)
    ensures t.n <= |link|
    decreases |cuts|
  {
    if cuts == [] || !RxOK(k, rx) then Taken(More(rx), 0)
    else
      var t := ReadPacket(k, rx, link, cuts[0].0, cuts[0].1);
      if !t.r.More? then t
      else
        var u := ReadOn(k, t.r.rx, link[t.n..], cuts[1..]);
        Taken(u.r, t.n + u.n)
  }

  /** However it arrives and whatever it is: what is delivered is a genuine packet under the number it
      is due, and what is refused is refused for the reason that applies. */
  lemma {:induction false} PiecesMean<S(!new)>(k: Keys<S>, s: S, q: uint32, raw: seq<byte>, rx: Rx<S>, link: seq<byte>, cuts: seq<(nat, nat)>)
    requires BlockCipher(k) && Midway(k, s, q, raw, rx)
    ensures var t := ReadOn(k, rx, link, cuts); Means(k, s, q, raw + link[..t.n], t.r)
    decreases |cuts|
  {
    hide ReadPacket, Genuine, Midway, RxOK, BlockCipher, LengthOK, MacOK;
    assert raw + link[..0] == raw;
    if cuts != [] {
      CallMeans(k, s, q, raw, rx, link, cuts[0].0, cuts[0].1);
      var t := ReadPacket(k, rx, link, cuts[0].0, cuts[0].1);
      if t.r.More? {
        var rest := link[t.n..];
        PiecesMean(k, s, q, raw + link[..t.n], t.r.rx, rest, cuts[1..]);
        var u := ReadOn(k, t.r.rx, rest, cuts[1..]);
        assert link[..t.n] + rest[..u.n] == link[..t.n + u.n];
        assert raw + link[..t.n] + rest[..u.n] == raw + link[..t.n + u.n];
      }
    }
  }

  /** The first block alone decides what is announced. */
  lemma AnnouncedByPrefix<S>(k: Keys<S>, s: S, raw: seq<byte>, part: seq<byte>)
    requires part <= raw && |part| >= k.block
    ensures Announced(k, s, part) == Announced(k, s, raw)
  {
    assert part[..k.block] == raw[..k.block];
  }

  /** A stream that begins with the bytes of one packet, of whatever announced length. */
  lemma OnePacket<S(!new)>(k: Keys<S>, s: S, q: uint32, raw: seq<byte>, rest: seq<byte>, cuts: seq<(nat, nat)>)
    requires BlockCipher(k) && k.block + k.macSize <= |raw| == Announced(k, s, raw) && LengthOK(k, |raw|)
    requires k.macSize > 0 || |raw| > k.block
    ensures var t := ReadOn(k, Rx(s, q, [], 0), raw + rest, cuts);
      if t.r.More? then t.n < |raw| else t.n == |raw| && Means(k, s, q, raw, t.r)
  {
    hide ReadOn, MacOK, LengthOK, Announced, Partial;
    var link := raw + rest;
    var t := ReadOn(k, Rx(s, q, [], 0), link, cuts);
    MidwayFirst(k, s, q, []);
    PiecesMean(k, s, q, [], Rx(s, q, [], 0), link, cuts);
    var got := link[..t.n];
    assert [] + got == got;
    if t.n >= k.block {
      AnnouncedByPrefix(k, s, link, got);
      AnnouncedByPrefix(k, s, link, raw);
    }
    if t.n <= |raw| { assert got == raw[..t.n]; }
    assert raw[..|raw|] == raw;
  }

  /** A genuine packet is delivered, in whatever pieces it comes. */
  lemma GenuineDelivered<S(!new)>(k: Keys<S>, s: S, q: uint32, raw: seq<byte>, p: seq<byte>, rest: seq<byte>, cuts: seq<(nat, nat)>)
    requires BlockCipher(k) && Genuine(k, s, q, raw, p) && (k.macSize > 0 || |raw| > k.block)
    ensures var t := ReadOn(k, Rx(s, q, [], 0), raw + rest, cuts);
      if t.r.More? then t.n < |raw| else t.n == |raw| && t.r == Payload(Rx(Text(k, s, raw).0, Next(q), [], 0), p)
  {
    hide ReadOn, Text, MacOK, LengthOK, Announced;
    OnePacket(k, s, q, raw, rest, cuts);
    assert PayloadIs(Text(k, s, raw).1, p);
    var t := ReadOn(k, Rx(s, q, [], 0), raw + rest, cuts);
    if t.r.Payload? { OnePayload(Text(k, s, raw).1, p, t.r.payload); }
  }

  lemma OnePayload(text: seq<byte>, p: seq<byte>, p1: seq<byte>)
    requires PayloadIs(text, p) && PayloadIs(text, p1)
    ensures p == p1
  {
  }

  /** The wire form of a payload is a genuine packet. */
  lemma SealedGenuine<S(!new)>(k: Keys<S>, s: S, q: uint32, p: seq<byte>, pad: seq<byte>)
    requires GoodKeys(k) && BlockCipher(k) && Sendable(k, p, pad)
    ensures var (s2, w) := Seal(k, s, q, p, pad);
      && |w| >= k.block + k.macSize && Genuine(k, s, q, w, p) && Text(k, s, w) == (s2, Plain(p, pad))
      && (k.macSize > 0 || |w| > k.block)
  {
    PlainShape(k, p, pad);
    SealShape(k, s, q, p, pad);
    LongEnough(k, s, q, p, pad);
    var t := Plain(p, pad);
    var w := Seal(k, s, q, p, pad).1;
    assert k.block >= 8 && k.macSize <= 20;
    hide *;
    TextParts(k, s, w);
    assert t[..k.block] + t[k.block..] == t;
    SameHead(t, k.block);
    assert Announced(k, s, w) == |w| by { AnnouncedIs(k, s, w, t); }
    assert MacOK(k, s, q, w) by { MacOf(k, s, q, w, t); }
    assert LengthOK(k, |w|) && PayloadIs(t, p) by { Shapes(k, w, t, p, pad); }
    GenuineOf(k, s, q, w, t, p);
  }

  lemma AnnouncedIs<S>(k: Keys<S>, s: S, w: seq<byte>, t: seq<byte>)
    requires 4 <= k.block <= |t| && |w| == |t| + k.macSize < WORD && GetInt(t) == |t| - 4
    requires |w| >= k.block && Blocks(k.dec, k.block, s, w[..k.block]).1 == t[..k.block]
    ensures Announced(k, s, w) == |w|
  {
    SameHead(t, k.block);
    ModIdem(|w|, WORD);
  }

  lemma MacOf<S>(k: Keys<S>, s: S, q: uint32, w: seq<byte>, t: seq<byte>)
    requires k.macSize <= |w| && Text(k, s, w).1 == t && w[|w| - k.macSize..] == k.mac(q, t)
    ensures MacOK(k, s, q, w)
  {
  }

  lemma Shapes<S>(k: Keys<S>, w: seq<byte>, t: seq<byte>, p: seq<byte>, pad: seq<byte>)
    requires Sendable(k, p, pad) && |w| == |t| + k.macSize && k.macSize <= 20
    requires |t| == |p| + |pad| + 5 && k.block > 0 && |t| % k.block == 0 && MIN_PACKET_LEN <= |t| <= 9000 && t[4] == |pad| && t[5..5 + |p|] == p
    ensures LengthOK(k, |w|) && PayloadIs(t, p)
  {
  }

  lemma GenuineOf<S>(k: Keys<S>, s: S, q: uint32, w: seq<byte>, t: seq<byte>, p: seq<byte>)
    requires k.block + k.macSize <= |w| == Announced(k, s, w) && LengthOK(k, |w|) && MacOK(k, s, q, w)
    requires Text(k, s, w).1 == t && PayloadIs(t, p)
    ensures Genuine(k, s, q, w, p)
  {
  }

  /** A sealed packet whose MAC has been changed, by as little as a bit, is refused for its MAC: in no
      pieces does any of it get through. */
  lemma TamperedRefused<S(!new)>(k: Keys<S>, s: S, q: uint32, p: seq<byte>, pad: seq<byte>, mac: seq<byte>, rest: seq<byte>, cuts: seq<(nat, nat)>)
    requires GoodKeys(k) && BlockCipher(k) && Sendable(k, p, pad)
    requires |mac| == k.macSize && mac != k.mac(q, Plain(p, pad))
    ensures var w := Seal(k, s, q, p, pad).1;
      && |w| >= k.macSize
      && var raw := w[..|w| - k.macSize] + mac;
         var t := ReadOn(k, Rx(s, q, [], 0), raw + rest, cuts);
         if t.r.More? then t.n < |raw| else t.n == |raw| && t.r == Fail(BadMac)
  {
    SealedGenuine(k, s, q, p, pad);
    assert |k.mac(q, Plain(p, pad))| == k.macSize;
    var w := Seal(k, s, q, p, pad).1;
    var m := |w| - k.macSize;
    var raw := w[..m] + mac;
    hide Seal, ReadOn, Announced, LengthOK, GoodKeys, Plain, Sendable;
    assert raw[..m] == w[..m] && raw[m..] == mac;
    AnnouncedByPrefix(k, s, w, w[..k.block]);
    assert raw[..k.block] == w[..k.block];
    AnnouncedByPrefix(k, s, raw, raw[..k.block]);
    OnePacket(k, s, q, raw, rest, cuts);
  }
}
