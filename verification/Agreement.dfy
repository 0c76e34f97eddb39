/**
  What holds between the two ends at every point of every run, and that every step
  keeps it.
*/
module Agreement {
  import opened Wrappers
  import opened Bytes
  import opened NumberTheory
  import opened AlgoMatch
  import opened Transport
  import opened Network

  // ----------------------------------------------------------- the negotiation

  /** The two configurations, what each advertises, and what each will choose. */
  datatype Deal = Deal(cc: Config, sc: Config, listsC: Lists, listsS: Lists,
                       forC: Outcome<NewKeys>, forS: Outcome<NewKeys>)

  function MakeDeal(w: World, cc: Config, sc: Config): Deal {
    Deal(cc, sc, w.advertise(cc), w.advertise(sc),
         w.negotiate(Client, cc, w.advertise(sc)), w.negotiate(Server, sc, w.advertise(cc)))
  }

  predicate MirrorKeys(a: NewKeys, b: NewKeys) {
    && a.kex == b.kex && a.hostkey == b.hostkey
    && a.transCipher == b.recvCipher && a.recvCipher == b.transCipher
    && a.transMac == b.recvMac && a.recvMac == b.transMac
    && a.transComp == b.recvComp && a.recvComp == b.transComp
  }

  /** Both ends choose the same algorithms, or both find none. */
  lemma NegotiationAgrees(w: World, cc: Config, sc: Config)
    requires GoodWorld(w)
    ensures var g := MakeDeal(w, cc, sc);
      && (g.forC.Ok? <==> g.forS.Ok?)
      && (g.forC.Ok? ==> MirrorKeys(g.forC.value, g.forS.value))
  {
    var listsC, listsS := OwnLists(cc), OwnLists(sc);
    assert w.negotiate(Client, cc, listsS) == ReadKexAlgos(Client, cc, listsS);
    assert w.negotiate(Server, sc, listsC) == ReadKexAlgos(Server, sc, listsC);
    ScansAgree(cc.kex, sc.kex);
    ScansAgree(cc.hostkeys, sc.hostkeys);
    ScansAgree(cc.ciphers, sc.ciphers);
    ScansAgree(cc.macs, sc.macs);
    ScansAgree(cc.comps, sc.comps);
  }

  /** Dropbear advertises one MAC list for both directions, so both use the same MAC. */
  lemma SameMacBothWays(role: Role, c: Config, peer: Config)
    ensures var r := ReadKexAlgos(role, c, OwnLists(peer));
      r.Ok? ==> r.value.transMac == r.value.recvMac && r.value.transCipher == r.value.recvCipher
  {
  }

  // ------------------------------------------------------------ the invariant

  /** The packet type this end insists on next, or 0. */
  function Expected(k: Kex): byte {
    match PosOf(k)
    case Idle => 0
    case Sent => if k.epoch == 0 then SSH_MSG_KEXINIT else 0
    case Both => if k.role == Server then SSH_MSG_KEXDH_INIT else 0
    case Dh => SSH_MSG_KEXDH_REPLY
    case New => SSH_MSG_NEWKEYS
  }

  /** The client's driver is in step with its exchange. */
  predicate DriverOK(k: Kex, last: byte, phase: Phase) {
    var late := phase == Flushing || phase == Channels || phase == Handler;
    && k.kexState != KEXINIT_RCVD
    && (match PosOf(k)
        case Idle => (k.kexState == KEX_NOTHING || late) && last != SSH_MSG_KEXINIT
        case Sent => k.kexState == KEX_NOTHING
        case Both => late && last == SSH_MSG_KEXINIT
        case Dh => true
        case New => k.kexState == KEXDH_INIT_SENT)
    && (k.kexState == KEX_NOTHING && PosOf(k) != Both ==> last != SSH_MSG_KEXINIT)
  }

  /** The exchange variables of one end fit together. */
  predicate KexOK(w: World, mine: Outcome<NewKeys>, k: Kex) {
    var pos := PosOf(k);
    && k.dataallowed == !k.sentkexinit
    && (k.sentnewkeys ==> k.recvkexinit)
    && (k.recvkexinit ==> k.sentkexinit)
    && !k.recvnewkeys && !k.ignorenext
    && (k.epoch == 0 ==> k.sentkexinit)
    && k.donefirstkex == (k.epoch > 0)
    && k.requirenext == Expected(k)
    && (k.transkexinit.Some? <==> pos == Sent)
    && (pos == Both || pos == Dh ==> k.kexhashbuf.Some?)
    && (pos == Both || pos == Dh || pos == New ==> mine.Ok? && k.newkeys == Some(mine.value))
    && (pos == New ==> k.dhK.Some?)
    && (k.sessionId.Some? <==> k.epoch > 0 || pos == New)
    && (pos == Dh ==>
          k.dhX.Some? && k.dhE == Some(w.exptmod(DH_G_VAL, k.dhX.value, w.prime(mine.value.kex))))
  }

  /** The rest of an end's state fits its exchange variables. */
  predicate EndOK(e: Endpoint) {
    && (e.kx.role == Client ==> DriverOK(e.kx, e.lastpacket, e.phase))
    && e.out.trans.epoch == e.kx.epoch && e.inc.recv.epoch == e.kx.epoch
    && (e.kx.dataallowed && e.phase != Flushing ==> e.out.replyqueue == [])
    && (forall i :: 0 <= i < |e.out.replyqueue| ==> AppPayload(e.out.replyqueue[i]))
  }

  /** After the first exchange both contexts use the negotiated algorithms. */
  predicate AlgosOK(mine: Outcome<NewKeys>, e: Endpoint) {
    if e.kx.epoch == 0 then e.out.trans.mac == e.inc.recv.mac
    else mine.Ok? && e.out.trans.mac == mine.value.transMac && e.inc.recv.mac == mine.value.recvMac
  }

  /** The transmit context in use, or the one about to come into use once NEWKEYS is out. */
  function EffTrans(e: Endpoint): Dir {
    if e.kx.sentnewkeys && CanGenKeys(e.kx) then FreshTrans(e.kx) else e.out.trans
  }

  /** The context a receiver will switch to at NEWKEYS. */
  function NewRecv(rcv: Kex, snd: Endpoint): Dir {
    if rcv.sentnewkeys && CanGenKeys(rcv) then FreshRecv(rcv) else EffTrans(snd)
  }

  /** The stream from one end to the other is well ordered. */
  predicate OrderOK(snd: Kex, rcv: Kex, f: seq<Wire>) {
    KexRecv(rcv) <= KexSent(snd) && Parses(snd.role, f, KexRecv(rcv), KexSent(snd))
  }

  /** The receiver can open everything that is in flight. */
  predicate OpenOK(snd: Endpoint, rcv: Endpoint, f: seq<Wire>) {
    Opens(f, rcv.inc.recv, rcv.inc.recvseq, NewRecv(rcv.kx, snd), EffTrans(snd), snd.out.transseq)
  }

  /** A KEXINIT of the client still in flight is the one its own hash is built on. */
  predicate ContentC(g: Deal, c: Kex, s: Kex, p: Payload) {
    match p
    case MsgKexinit(q) =>
      && q.lists == g.listsC && !q.follows
      && (PosOf(c) == Sent ==> c.transkexinit == Some(q))
      && (PosOf(c) == Both || PosOf(c) == Dh ==>
            s.transkexinit.Some?
            && c.kexhashbuf == Some(Transcript(g.cc.ident, g.sc.ident, q, s.transkexinit.value)))
    case MsgKexdhInit(e) => PosOf(c) == Dh ==> c.dhE == Some(e)
    case _ => true
  }

  /** A reply in flight carries the values from which the server computed its secret and hash. */
  predicate ReplyOK(w: World, g: Deal, c: Kex, s: Kex, hostkey: seq<byte>, f: nat, sig: seq<byte>) {
    && g.forC.Ok? && c.dhX.Some? && c.dhE.Some? && c.kexhashbuf.Some? && s.dhK.Some?
    && hostkey == w.hostPub(g.forC.value.hostkey)
    && 0 < f < w.prime(g.forC.value.kex)
    && s.dhK.value == w.exptmod(f, c.dhX.value, w.prime(g.forC.value.kex))
    && s.hash == w.xhash(c.kexhashbuf.value, hostkey, c.dhE.value, f, s.dhK.value)
    && w.verify(hostkey, s.hash, sig)
  }

  predicate ContentS(w: World, g: Deal, c: Kex, s: Kex, p: Payload) {
    match p
    case MsgKexinit(q) =>
      && q.lists == g.listsS && !q.follows
      && (PosOf(s) == Sent ==> s.transkexinit == Some(q))
      && (PosOf(s) == Both ==>
            c.transkexinit.Some?
            && s.kexhashbuf == Some(Transcript(g.cc.ident, g.sc.ident, c.transkexinit.value, q)))
    case MsgKexdhReply(h, f, sig) => PosOf(c) == Dh && PosOf(s) == New ==> ReplyOK(w, g, c, s, h, f, sig)
    case _ => true
  }

  predicate AllC(g: Deal, c: Kex, s: Kex, f: seq<Wire>) {
    forall i :: 0 <= i < |f| ==> ContentC(g, c, s, f[i].payload)
  }

  predicate AllS(w: World, g: Deal, c: Kex, s: Kex, f: seq<Wire>) {
    forall i :: 0 <= i < |f| ==> ContentS(w, g, c, s, f[i].payload)
  }

  /** What the two ends have computed so far is the same. */
  predicate SecretsOK(c: Kex, s: Kex) {
    && ((PosOf(c) == Both || PosOf(c) == Dh) && PosOf(s) == Both ==> c.kexhashbuf == s.kexhashbuf)
    && (PosOf(c) == New && PosOf(s) == New ==> c.dhK == s.dhK && c.hash == s.hash)
    && (c.sessionId.Some? ==> s.sessionId == c.sessionId)
    && (c.sessionId.None? && s.sessionId.Some? ==> PosOf(s) == New && s.sessionId == Some(s.hash))
  }

  predicate PartiesOK(g: Deal, c: Kex, s: Kex) {
    && c.role == Client && s.role == Server
    && c.cfg == g.cc && s.cfg == g.sc && c.peerIdent == g.sc.ident && s.peerIdent == g.cc.ident
  }

  /** The exchange variables of the two ends and the messages in flight fit together. */
  predicate ExchangeOK(w: World, g: Deal, c: Kex, s: Kex, fc: seq<Wire>, fs: seq<Wire>) {
    && PartiesOK(g, c, s)
    && KexOK(w, g.forC, c) && KexOK(w, g.forS, s)
    && OrderOK(c, s, fc) && OrderOK(s, c, fs)
    && AllC(g, c, s, fc) && AllS(w, g, c, s, fs)
    && SecretsOK(c, s)
  }

  /** The invariant, over the two ends and what is in flight from each. */
  predicate Inv(w: World, g: Deal, c: Endpoint, s: Endpoint, fc: seq<Wire>, fs: seq<Wire>) {
    && ExchangeOK(w, g, c.kx, s.kx, fc, fs)
    && OpenOK(c, s, fc) && OpenOK(s, c, fs)
    && EndOK(c) && EndOK(s)
    && AlgosOK(g.forC, c) && AlgosOK(g.forS, s)
  }

  // ------------------------------------------------------ streams of packets

  lemma {:induction false} ParsesAppend(role: Role, f: seq<Wire>, a: nat, b: nat, x: Wire)
    requires Parses(role, f, a, b)
    requires AppPayload(x.payload) ==> (b > 0 && b % 3 == 0) || OkayKex(Type(x.payload))
    requires !AppPayload(x.payload) ==> !x.payload.MsgApp? && Type(x.payload) == Pattern(role, b)
    ensures Parses(role, f + [x], a, if AppPayload(x.payload) then b else b + 1)
    decreases |f|
  {
    if f == [] {
      assert (f + [x])[1..] == [];
    } else {
      assert (f + [x])[1..] == f[1..] + [x];
      ParsesAppend(role, f[1..], if AppPayload(f[0].payload) then a else a + 1, b, x);
    }
  }

  lemma {:induction false} OpensAppend(f: seq<Wire>, d: Dir, q: uint32, sw: Dir, d1: Dir, q1: uint32, x: Wire)
    requires Opens(f, d, q, sw, d1, q1)
    requires x.dir == d1 && x.seqno == q1
    ensures Opens(f + [x], d, q, sw, if x.payload.MsgNewkeys? then sw else Ran(d1, x.payload), Next(q1))
    decreases |f|
  {
    if f == [] {
      assert (f + [x])[1..] == [];
    } else {
      assert (f + [x])[1..] == f[1..] + [x];
      OpensAppend(f[1..], if f[0].payload.MsgNewkeys? then sw else Ran(d, f[0].payload), Next(q), sw, d1, q1, x);
    }
  }

  lemma {:induction false} ParsesOrdered(role: Role, f: seq<Wire>, a: nat, b: nat)
    requires Parses(role, f, a, b)
    ensures a <= b
    decreases |f|
  {
    if f != [] {
      ParsesOrdered(role, f[1..], if AppPayload(f[0].payload) then a else a + 1, b);
    }
  }

  /** A stretch that ends before the next message of a kind has none of that kind. */
  lemma {:induction false} ParsesLacks(role: Role, f: seq<Wire>, a: nat, b: nat, j: nat)
    requires Parses(role, f, a, b) && j < 3 && a + (j - a) % 3 >= b
    ensures forall i :: 0 <= i < |f| ==> Type(f[i].payload) != Pattern(role, j)
    decreases |f|
  {
    if f != [] {
      ParsesOrdered(role, f, a, b);
      var app := AppPayload(f[0].payload);
      ParsesLacks(role, f[1..], if app then a else a + 1, b, j);
      forall i | 0 <= i < |f| ensures Type(f[i].payload) != Pattern(role, j) {
        if i > 0 { assert f[i] == f[1..][i - 1]; }
        else if !app { ParsesOrdered(role, f[1..], a + 1, b); }
      }
    }
  }

  /** Without NEWKEYS in the stretch, it does not matter what would follow one. */
  lemma {:induction false} OpensNoSwitch(f: seq<Wire>, d: Dir, q: uint32, x: Dir, y: Dir, d1: Dir, q1: uint32)
    requires Opens(f, d, q, x, d1, q1)
    requires forall i :: 0 <= i < |f| ==> Type(f[i].payload) != SSH_MSG_NEWKEYS
    ensures Opens(f, d, q, y, d1, q1)
    decreases |f|
  {
    if f != [] {
      forall i | 0 <= i < |f[1..]| ensures Type(f[1..][i].payload) != SSH_MSG_NEWKEYS {
        assert f[1..][i] == f[i + 1];
      }
      assert Type(f[0].payload) != SSH_MSG_NEWKEYS;
      OpensNoSwitch(f[1..], Ran(d, f[0].payload), Next(q), x, y, d1, q1);
    }
  }

  // ------------------------------------------------------- application packets

  /** The packet that encrypt_packet makes of p. */
  function Sealed(e: Endpoint, p: Payload): Wire {
    Wire(p, e.out.transseq, e.out.trans)
  }

  /** Only an end that has sent its own NEWKEYS can have the peer's in flight towards it,
      unless that peer is still waiting to switch. */
  lemma NoNewkeysInFlight(snd: Kex, rcv: Kex, f: seq<Wire>)
    requires OrderOK(snd, rcv, f) && KexRecv(snd) <= KexSent(rcv)
    requires !snd.sentnewkeys && !rcv.sentnewkeys
    ensures forall i :: 0 <= i < |f| ==> Type(f[i].payload) != SSH_MSG_NEWKEYS
  {
    ParsesLacks(snd.role, f, KexRecv(rcv), KexSent(snd), 2);
  }

  /** Sending a packet that is not NEWKEYS moves the chain on by one. */
  lemma OpenAppend(snd: Endpoint, snd': Endpoint, rcv: Endpoint, f: seq<Wire>, p: Payload)
    requires OrderOK(snd.kx, rcv.kx, f) && OpenOK(snd, rcv, f) && KexRecv(snd.kx) <= KexSent(rcv.kx)
    requires !snd.kx.sentnewkeys && !snd'.kx.sentnewkeys && !p.MsgNewkeys?
    requires rcv.kx.sentnewkeys ==> CanGenKeys(rcv.kx)
    requires snd'.out.trans == Ran(snd.out.trans, p) && snd'.out.transseq == Next(snd.out.transseq)
    ensures OpenOK(snd', rcv, f + [Sealed(snd, p)])
  {
    if !rcv.kx.sentnewkeys {
      NoNewkeysInFlight(snd.kx, rcv.kx, f);
      OpensNoSwitch(f, rcv.inc.recv, rcv.inc.recvseq, NewRecv(rcv.kx, snd), NewRecv(rcv.kx, snd'),
                    EffTrans(snd), snd.out.transseq);
    }
    OpensAppend(f, rcv.inc.recv, rcv.inc.recvseq, NewRecv(rcv.kx, snd'), EffTrans(snd), snd.out.transseq, Sealed(snd, p));
  }

  lemma AppOrdered(w: World, mine: Outcome<NewKeys>, snd: Kex, rcv: Kex, f: seq<Wire>, x: Wire)
    requires KexOK(w, mine, snd) && OrderOK(snd, rcv, f) && AppPayload(x.payload) && !MustHold(snd, x.payload)
    ensures OrderOK(snd, rcv, f + [x])
  {
    ParsesAppend(snd.role, f, KexRecv(rcv), KexSent(snd), x);
  }

  lemma AppSentC(w: World, g: Deal, c: Endpoint, s: Endpoint, fc: seq<Wire>, fs: seq<Wire>, p: Payload)
    requires Inv(w, g, c, s, fc, fs) && AppPayload(p)
    ensures Inv(w, g, EncryptPacket(c, p), s, if MustHold(c.kx, p) then fc else fc + [Sealed(c, p)], fs)
  {
    if !MustHold(c.kx, p) {
      AppOrdered(w, g.forC, c.kx, s.kx, fc, Sealed(c, p));
      OpenAppend(c, EncryptPacket(c, p), s, fc, p);
    }
  }

  lemma AppSentS(w: World, g: Deal, c: Endpoint, s: Endpoint, fc: seq<Wire>, fs: seq<Wire>, p: Payload)
    requires Inv(w, g, c, s, fc, fs) && AppPayload(p)
    ensures Inv(w, g, c, EncryptPacket(s, p), fc, if MustHold(s.kx, p) then fs else fs + [Sealed(s, p)])
  {
    if !MustHold(s.kx, p) {
      AppOrdered(w, g.forS, s.kx, c.kx, fs, Sealed(s, p));
      OpenAppend(s, EncryptPacket(s, p), c, fs, p);
    }
  }

  /** What the head of a stream can be. */
  lemma HeadOpens(snd: Endpoint, rcv: Endpoint, f: seq<Wire>)
    requires OrderOK(snd.kx, rcv.kx, f) && OpenOK(snd, rcv, f) && f != []
    ensures f[0].dir == rcv.inc.recv && f[0].seqno == rcv.inc.recvseq
    ensures AppPayload(f[0].payload) || (!f[0].payload.MsgApp? && Type(f[0].payload) == Pattern(snd.kx.role, KexRecv(rcv.kx)))
    ensures AppPayload(f[0].payload) && !OkayKex(Type(f[0].payload)) ==> KexRecv(rcv.kx) > 0 && KexRecv(rcv.kx) % 3 == 0
    ensures !AppPayload(f[0].payload) ==> KexRecv(rcv.kx) < KexSent(snd.kx)
  {
    if !AppPayload(f[0].payload) {
      ParsesOrdered(snd.kx.role, f[1..], KexRecv(rcv.kx) + 1, KexSent(snd.kx));
    }
  }

  /** The receiver's side after opening a packet. */
  function Opened(i: Incoming, p: Payload): Incoming {
    Incoming(Ran(i.recv, p), Next(i.recvseq))
  }

  /** Opening an application packet changes nothing but the counters and `lastpacket`. */
  lemma AppOpenedC(w: World, g: Deal, c: Endpoint, s: Endpoint, fc: seq<Wire>, fs: seq<Wire>)
    requires Inv(w, g, c, s, fc, fs) && c.phase == Reading && fs != [] && AppPayload(fs[0].payload)
    ensures Inv(w, g, c.(lastpacket := fs[0].payload.kind, inc := Opened(c.inc, fs[0].payload)), s, fc, fs[1..])
  {
  }

  lemma AppOpenedS(w: World, g: Deal, c: Endpoint, s: Endpoint, fc: seq<Wire>, fs: seq<Wire>)
    requires Inv(w, g, c, s, fc, fs) && s.phase == Reading && fc != [] && AppPayload(fc[0].payload)
    ensures Inv(w, g, c, s.(lastpacket := fc[0].payload.kind, inc := Opened(s.inc, fc[0].payload)), fc[1..], fs)
  {
  }

  // --------------------------------------------------------------- KEXINIT sent

  function Proposed(k: Kex, q: Proposal): Kex {
    k.(transkexinit := Some(q), dataallowed := false, sentkexinit := true)
  }

  lemma KexinitSentExchangeC(w: World, g: Deal, c: Kex, s: Kex, fc: seq<Wire>, fs: seq<Wire>, x: Wire)
    requires ExchangeOK(w, g, c, s, fc, fs) && PosOf(c) == Idle
    requires x.payload.MsgKexinit? && x.payload.proposal.lists == g.listsC && !x.payload.proposal.follows
    ensures ExchangeOK(w, g, Proposed(c, x.payload.proposal), s, fc + [x], fs)
  {
    hide ReplyOK, Parses;
    var c' := Proposed(c, x.payload.proposal);
    ParsesAppend(Client, fc, KexRecv(s), KexSent(c), x);
    ParsesLacks(Client, fc, KexRecv(s), KexSent(c), 0);
  }

  lemma KexinitSentExchangeS(w: World, g: Deal, c: Kex, s: Kex, fc: seq<Wire>, fs: seq<Wire>, x: Wire)
    requires ExchangeOK(w, g, c, s, fc, fs) && PosOf(s) == Idle
    requires x.payload.MsgKexinit? && x.payload.proposal.lists == g.listsS && !x.payload.proposal.follows
    ensures ExchangeOK(w, g, c, Proposed(s, x.payload.proposal), fc, fs + [x])
  {
    hide ReplyOK, Parses;
    var s' := Proposed(s, x.payload.proposal);
    ParsesAppend(Server, fs, KexRecv(c), KexSent(s), x);
    ParsesLacks(Server, fs, KexRecv(c), KexSent(s), 0);
  }

  lemma KexinitSentC(w: World, g: Deal, c: Endpoint, s: Endpoint, fc: seq<Wire>, fs: seq<Wire>, q: Proposal)
    requires Inv(w, g, c, s, fc, fs) && q.lists == g.listsC && !q.follows
    requires PosOf(c.kx) == Idle && c.kx.kexState == KEX_NOTHING && c.phase != Flushing
    ensures Inv(w, g, SendProposal(c, q), s, fc + [Sealed(c, MsgKexinit(q))], fs)
  {
    KexinitSentExchangeC(w, g, c.kx, s.kx, fc, fs, Sealed(c, MsgKexinit(q)));
    OpenAppend(c, SendProposal(c, q), s, fc, MsgKexinit(q));
  }

  lemma KexinitSentS(w: World, g: Deal, c: Endpoint, s: Endpoint, fc: seq<Wire>, fs: seq<Wire>, q: Proposal)
    requires Inv(w, g, c, s, fc, fs) && q.lists == g.listsS && !q.follows
    requires PosOf(s.kx) == Idle && s.phase != Flushing
    ensures Inv(w, g, c, SendProposal(s, q), fc, fs + [Sealed(s, MsgKexinit(q))])
  {
    KexinitSentExchangeS(w, g, c.kx, s.kx, fc, fs, Sealed(s, MsgKexinit(q)));
    OpenAppend(s, SendProposal(s, q), c, fs, MsgKexinit(q));
  }

  // ----------------------------------------------------------- KEXINIT received

  function KexinitOpenedC(g: Deal, k: Kex, q: Proposal): Kex
    requires g.forC.Ok? && k.transkexinit.Some?
  {
    k.(requirenext := 0, newkeys := Some(g.forC.value),
       kexhashbuf := Some(Transcript(g.cc.ident, g.sc.ident, k.transkexinit.value, q)),
       transkexinit := None, recvkexinit := true)
  }

  /** What the client holds after the server's KEXINIT is what the server holds or will hold. */
  lemma KexinitRecvExchangeC(w: World, g: Deal, c: Kex, s: Kex, fc: seq<Wire>, fs: seq<Wire>, q: Proposal)
    requires ExchangeOK(w, g, c, s, fc, fs) && g.forC.Ok?
    requires PosOf(c) == Sent && c.kexState == KEX_NOTHING
    requires fs != [] && fs[0].payload == MsgKexinit(q)
    ensures ExchangeOK(w, g, KexinitOpenedC(g, c, q), s, fc, fs[1..])
  {
    var c' := KexinitOpenedC(g, c, q);
    assert ContentS(w, g, c, s, fs[0].payload);
    ParsesOrdered(Server, fs[1..], KexRecv(c'), KexSent(s));
    ParsesLacks(Server, fs[1..], KexRecv(c'), KexSent(s), 0);
    if PosOf(s) != Sent {
      ParsesLacks(Client, fc, KexRecv(s), KexSent(c), 0);
    }
    forall i | 0 <= i < |fs[1..]| ensures ContentS(w, g, c', s, fs[1..][i].payload) {
      assert ContentS(w, g, c, s, fs[i + 1].payload);
    }
    forall i | 0 <= i < |fc| ensures ContentC(g, c', s, fc[i].payload) {
      assert ContentC(g, c, s, fc[i].payload);
    }
  }

  lemma KexinitRecvC(w: World, g: Deal, c: Endpoint, s: Endpoint, fc: seq<Wire>, fs: seq<Wire>, q: Proposal)
    requires Inv(w, g, c, s, fc, fs) && g.forC.Ok? && PosOf(c.kx) == Sent
    requires fs != [] && fs[0].payload == MsgKexinit(q)
    ensures Inv(w, g, c.(kx := KexinitOpenedC(g, c.kx, q), inc := Opened(c.inc, MsgKexinit(q)),
                         lastpacket := SSH_MSG_KEXINIT, phase := Flushing),
                s, fc, fs[1..])
  {
    KexinitRecvExchangeC(w, g, c.kx, s.kx, fc, fs, q);
  }

  function KexinitOpenedS(g: Deal, k: Kex, q: Proposal): Kex
    requires g.forS.Ok? && k.transkexinit.Some?
  {
    k.(requirenext := SSH_MSG_KEXDH_INIT, newkeys := Some(g.forS.value),
       kexhashbuf := Some(Transcript(g.cc.ident, g.sc.ident, q, k.transkexinit.value)),
       transkexinit := None, recvkexinit := true)
  }

  lemma KexinitRecvExchangeS(w: World, g: Deal, c: Kex, s: Kex, fc: seq<Wire>, fs: seq<Wire>, q: Proposal)
    requires ExchangeOK(w, g, c, s, fc, fs) && g.forS.Ok? && PosOf(s) == Sent
    requires fc != [] && fc[0].payload == MsgKexinit(q)
    ensures ExchangeOK(w, g, c, KexinitOpenedS(g, s, q), fc[1..], fs)
  {
    var s' := KexinitOpenedS(g, s, q);
    assert ContentC(g, c, s, fc[0].payload);
    ParsesOrdered(Client, fc[1..], KexRecv(s'), KexSent(c));
    ParsesLacks(Client, fc[1..], KexRecv(s'), KexSent(c), 0);
    if PosOf(c) != Sent {
      ParsesLacks(Server, fs, KexRecv(c), KexSent(s), 0);
    }
    forall i | 0 <= i < |fc[1..]| ensures ContentC(g, c, s', fc[1..][i].payload) {
      assert ContentC(g, c, s, fc[i + 1].payload);
    }
    forall i | 0 <= i < |fs| ensures ContentS(w, g, c, s', fs[i].payload) {
      assert ContentS(w, g, c, s, fs[i].payload);
    }
  }

  lemma KexinitRecvS(w: World, g: Deal, c: Endpoint, s: Endpoint, fc: seq<Wire>, fs: seq<Wire>, q: Proposal)
    requires Inv(w, g, c, s, fc, fs) && g.forS.Ok? && PosOf(s.kx) == Sent
    requires fc != [] && fc[0].payload == MsgKexinit(q)
    ensures Inv(w, g, c,
                s.(kx := KexinitOpenedS(g, s.kx, q), inc := Opened(s.inc, MsgKexinit(q)),
                   lastpacket := SSH_MSG_KEXINIT, phase := Flushing),
                fc[1..], fs)
  {
    KexinitRecvExchangeS(w, g, c.kx, s.kx, fc, fs, q);
  }

  // ------------------------------------------------------------- KEXDH_INIT

  function Exponentiated(k: Kex, x: nat, pub: nat): Kex {
    k.(dhE := Some(pub), dhX := Some(x), requirenext := SSH_MSG_KEXDH_REPLY, kexState := KEXDH_INIT_SENT)
  }

  lemma KexdhInitSentExchange(w: World, g: Deal, c: Kex, s: Kex, fc: seq<Wire>, fs: seq<Wire>, x: nat, m: Wire)
    requires ExchangeOK(w, g, c, s, fc, fs) && PosOf(c) == Both && m.payload.MsgKexdhInit?
    requires m.payload.e == w.exptmod(DH_G_VAL, x, w.prime(g.forC.value.kex))
    ensures ExchangeOK(w, g, Exponentiated(c, x, m.payload.e), s, fc + [m], fs)
  {
    var c' := Exponentiated(c, x, m.payload.e);
    ParsesAppend(Client, fc, KexRecv(s), KexSent(c), m);
    ParsesLacks(Client, fc, KexRecv(s), KexSent(c), 1);
  }

  function KexdhInitSent(e: Endpoint, x: nat, pub: nat): Endpoint {
    e.(kx := Exponentiated(e.kx, x, pub), out := EncryptPacket(e, MsgKexdhInit(pub)).out, phase := Timeouts)
  }

  lemma KexdhInitSentC(w: World, g: Deal, c: Endpoint, s: Endpoint, fc: seq<Wire>, fs: seq<Wire>, x: nat, pub: nat)
    requires Inv(w, g, c, s, fc, fs) && PosOf(c.kx) == Both
    requires pub == w.exptmod(DH_G_VAL, x, w.prime(g.forC.value.kex))
    ensures Inv(w, g, KexdhInitSent(c, x, pub), s, fc + [Sealed(c, MsgKexdhInit(pub))], fs)
  {
    KexdhInitSentExchange(w, g, c.kx, s.kx, fc, fs, x, Sealed(c, MsgKexdhInit(pub)));
    OpenAppend(c, KexdhInitSent(c, x, pub), s, fc, MsgKexdhInit(pub));
  }

  /** A power of two is not a multiple of an odd number. */
  lemma {:induction false} PowTwoNonzero(x: nat, p: nat)
    requires p > 2 && p % 2 == 1
    ensures 0 < Pow(DH_G_VAL, x) % p < p
  {
    if x == 0 {
    } else {
      PowTwoNonzero(x - 1, p);
      var a := Pow(2, x - 1);
      assert Pow(2, x) == 2 * a;
      if (2 * a) % p == 0 {
        CoprimeFromCombination(p, 2, 1, -(p / 2));
        CoprimeDivides(p, 2, a);
      }
    }
  }

  /** kexdh_comb_key and NEWKEYS on either side. */
  function Combined(e: Kex, k: nat, h: seq<byte>): Kex {
    e.(requirenext := SSH_MSG_NEWKEYS, dhK := Some(k), hash := h, kexhashbuf := None,
       sessionId := if e.sessionId.None? then Some(h) else e.sessionId, sentnewkeys := true)
  }

  /** What is in flight from the server after its answer. */
  function Answered(e: Endpoint, fs: seq<Wire>, reply: Payload): seq<Wire> {
    fs + [Sealed(e, reply)] + [Wire(MsgNewkeys, Next(e.out.transseq), Ran(e.out.trans, reply))]
  }

  /** The server answers KEXDH_INIT: from here on both ends can compute the same secret and hash. */
  lemma KexdhInitRecvExchange(w: World, g: Deal, c: Kex, s: Kex, fc: seq<Wire>, fs: seq<Wire>,
                              pub: nat, k: nat, h: seq<byte>, x: Wire, y: Wire)
    requires ExchangeOK(w, g, c, s, fc, fs) && PosOf(s) == Both && PosOf(c) == Dh && c.dhE == Some(pub)
    requires g.forC.Ok? && g.forS.Ok? && MirrorKeys(g.forC.value, g.forS.value)
    requires fc != [] && fc[0].payload == MsgKexdhInit(pub)
    requires x.payload.MsgKexdhReply? && y.payload.MsgNewkeys?
    requires x.payload.hostkey == w.hostPub(g.forS.value.hostkey)
    requires 0 < x.payload.f < w.prime(g.forS.value.kex)
    requires k == w.exptmod(x.payload.f, c.dhX.value, w.prime(g.forS.value.kex))
    requires h == w.xhash(s.kexhashbuf.value, x.payload.hostkey, pub, x.payload.f, k)
    requires w.verify(x.payload.hostkey, h, x.payload.sig)
    ensures ExchangeOK(w, g, c, Combined(s, k, h), fc[1..], fs + [x] + [y])
  {
    var s' := Combined(s, k, h);
    ParsesAppend(Server, fs, KexRecv(c), KexSent(s), x);
    ParsesAppend(Server, fs + [x], KexRecv(c), KexSent(s) + 1, y);
    ParsesOrdered(Client, fc[1..], KexRecv(s'), KexSent(c));
    assert ReplyOK(w, g, c, s', x.payload.hostkey, x.payload.f, x.payload.sig);
    assert AllC(g, c, s', fc[1..]) by {
      ParsesLacks(Client, fc[1..], KexRecv(s'), KexSent(c), 0);
      ParsesLacks(Client, fc[1..], KexRecv(s'), KexSent(c), 1);
    }
    assert AllS(w, g, c, s', fs + [x] + [y]) by {
      ParsesLacks(Server, fs, KexRecv(c), KexSent(s), 0);
      ParsesLacks(Server, fs, KexRecv(c), KexSent(s), 1);
    }
  }

  lemma KexdhInitRecvFromC(c: Endpoint, s: Endpoint, s': Endpoint, fc: seq<Wire>, pub: nat)
    requires OrderOK(c.kx, s.kx, fc) && OpenOK(c, s, fc) && fc != [] && fc[0].payload == MsgKexdhInit(pub)
    requires PosOf(c.kx) == Dh && PosOf(s.kx) == Both && c.kx.role == Client && c.kx.epoch == s.kx.epoch
    requires s'.inc == Opened(s.inc, MsgKexdhInit(pub))
    ensures OpenOK(c, s', fc[1..])
  {
    ParsesLacks(Client, fc[1..], KexRecv(s.kx) + 1, KexSent(c.kx), 2);
    OpensNoSwitch(fc[1..], s'.inc.recv, s'.inc.recvseq, NewRecv(s.kx, c), NewRecv(s'.kx, c), EffTrans(c), c.out.transseq);
  }

  lemma KexdhInitRecvToC(c: Endpoint, s: Endpoint, s': Endpoint, fs: seq<Wire>, reply: Payload)
    requires OrderOK(s.kx, c.kx, fs) && OpenOK(s, c, fs)
    requires reply.MsgKexdhReply? && !MustHold(s.kx, reply) && !MustHold(s.kx, MsgNewkeys)
    requires PosOf(c.kx) == Dh && PosOf(s.kx) == Both && s.kx.role == Server && c.kx.epoch == s.kx.epoch
    requires s'.kx.sentnewkeys && CanGenKeys(s'.kx)
    requires s'.out == EncryptPacket(EncryptPacket(s, reply), MsgNewkeys).out
    ensures OpenOK(s', c, Answered(s, fs, reply))
  {
    var x := Sealed(s, reply);
    var y := Wire(MsgNewkeys, Next(s.out.transseq), Ran(s.out.trans, reply));
    ParsesLacks(Server, fs, KexRecv(c.kx), KexSent(s.kx), 2);
    var sw := NewRecv(c.kx, s');
    OpensNoSwitch(fs, c.inc.recv, c.inc.recvseq, NewRecv(c.kx, s), sw, EffTrans(s), s.out.transseq);
    OpensAppend(fs, c.inc.recv, c.inc.recvseq, sw, EffTrans(s), s.out.transseq, x);
    OpensAppend(fs + [x], c.inc.recv, c.inc.recvseq, sw, Ran(s.out.trans, reply), Next(s.out.transseq), y);
  }

  function KexdhInitOpened(e: Endpoint, pub: nat, reply: Payload, k: nat, h: seq<byte>): Endpoint {
    e.(kx := Combined(e.kx, k, h), out := EncryptPacket(EncryptPacket(e, reply), MsgNewkeys).out,
       inc := Opened(e.inc, MsgKexdhInit(pub)), lastpacket := SSH_MSG_KEXDH_INIT, phase := Flushing)
  }

  lemma KexdhInitRecvS(w: World, g: Deal, c: Endpoint, s: Endpoint, fc: seq<Wire>, fs: seq<Wire>,
                       pub: nat, reply: Payload, k: nat, h: seq<byte>)
    requires Inv(w, g, c, s, fc, fs) && PosOf(s.kx) == Both && PosOf(c.kx) == Dh && c.kx.dhE == Some(pub)
    requires g.forC.Ok? && g.forS.Ok? && MirrorKeys(g.forC.value, g.forS.value)
    requires fc != [] && fc[0].payload == MsgKexdhInit(pub)
    requires reply.MsgKexdhReply? && reply.hostkey == w.hostPub(g.forS.value.hostkey)
    requires 0 < reply.f < w.prime(g.forS.value.kex)
    requires k == w.exptmod(reply.f, c.kx.dhX.value, w.prime(g.forS.value.kex))
    requires h == w.xhash(s.kx.kexhashbuf.value, reply.hostkey, pub, reply.f, k)
    requires w.verify(reply.hostkey, h, reply.sig)
    ensures Inv(w, g, c, KexdhInitOpened(s, pub, reply, k, h), fc[1..], Answered(s, fs, reply))
  {
    var s' := KexdhInitOpened(s, pub, reply, k, h);
    KexdhInitRecvExchange(w, g, c.kx, s.kx, fc, fs, pub, k, h, Sealed(s, reply),
                          Wire(MsgNewkeys, Next(s.out.transseq), Ran(s.out.trans, reply)));
    KexdhInitRecvFromC(c, s, s', fc, pub);
    KexdhInitRecvToC(c, s, s', fs, reply);
  }

  // ------------------------------------------------------------ KEXDH_REPLY

  /** With equal secret, hash and session id the two ends' new contexts mirror each other. */
  lemma FreshKeysMirror(c: Kex, s: Kex)
    requires CanGenKeys(c) && CanGenKeys(s) && c.role == Client && s.role == Server && c.epoch == s.epoch
    requires MirrorKeys(c.newkeys.value, s.newkeys.value)
    requires c.dhK == s.dhK && c.hash == s.hash && c.sessionId == s.sessionId
    ensures FreshTrans(c) == FreshRecv(s) && FreshRecv(c) == FreshTrans(s)
  {
  }

  function Replied(e: Kex, k: nat, h: seq<byte>): Kex {
    Combined(e.(dhE := None, dhX := None), k, h)
  }

  /** The client takes the reply: it computes what the server computed. */
  lemma KexdhReplyExchange(w: World, g: Deal, c: Kex, s: Kex, fc: seq<Wire>, fs: seq<Wire>, k: nat, h: seq<byte>, x: Wire)
    requires ExchangeOK(w, g, c, s, fc, fs) && PosOf(c) == Dh && PosOf(s) == New
    requires g.forC.Ok? && g.forS.Ok? && MirrorKeys(g.forC.value, g.forS.value)
    requires fs != [] && fs[0].payload.MsgKexdhReply? && x.payload.MsgNewkeys?
    requires s.dhK == Some(k) && s.hash == h
    ensures ExchangeOK(w, g, Replied(c, k, h), s, fc + [x], fs[1..])
    ensures CanGenKeys(s) && CanGenKeys(Replied(c, k, h))
    ensures FreshTrans(Replied(c, k, h)) == FreshRecv(s) && FreshRecv(Replied(c, k, h)) == FreshTrans(s)
  {
    var c' := Replied(c, k, h);
    FreshKeysMirror(c', s);
    ParsesAppend(Client, fc, KexRecv(s), KexSent(c), x);
    ParsesOrdered(Server, fs[1..], KexRecv(c'), KexSent(s));
    assert AllS(w, g, c', s, fs[1..]) by {
      ParsesLacks(Server, fs[1..], KexRecv(c'), KexSent(s), 0);
      ParsesLacks(Server, fs[1..], KexRecv(c'), KexSent(s), 1);
    }
  }

  function KexdhReplyOpened(e: Endpoint, p: Payload, k: nat, h: seq<byte>): Endpoint {
    e.(kx := Replied(e.kx, k, h), out := EncryptPacket(e, MsgNewkeys).out,
       inc := Opened(e.inc, p), lastpacket := SSH_MSG_KEXDH_REPLY, phase := Flushing)
  }

  lemma KexdhReplyRecvC(w: World, g: Deal, c: Endpoint, s: Endpoint, fc: seq<Wire>, fs: seq<Wire>,
                        p: Payload, k: nat, h: seq<byte>)
    requires Inv(w, g, c, s, fc, fs) && PosOf(c.kx) == Dh && PosOf(s.kx) == New
    requires g.forC.Ok? && g.forS.Ok? && MirrorKeys(g.forC.value, g.forS.value)
    requires fs != [] && fs[0].payload == p && p.MsgKexdhReply?
    requires s.kx.dhK == Some(k) && s.kx.hash == h
    ensures Inv(w, g, KexdhReplyOpened(c, p, k, h), s, fc + [Sealed(c, MsgNewkeys)], fs[1..])
  {
    KexdhReplyExchange(w, g, c.kx, s.kx, fc, fs, k, h, Sealed(c, MsgNewkeys));
    OpensAppend(fc, s.inc.recv, s.inc.recvseq, NewRecv(s.kx, c), EffTrans(c), c.out.transseq, Sealed(c, MsgNewkeys));
  }

  // ---------------------------------------------------------------- NEWKEYS

  function FinishedKex(k: Kex): Kex {
    k.(requirenext := 0,
       epoch := k.epoch + 1, newkeys := None, dhK := None, hash := [],
       sentkexinit := false, recvkexinit := false,
       sentnewkeys := false, recvnewkeys := false, firstfollows := false,
       dataallowed := true, donefirstkex := true)
  }

  lemma FinishedExchangeC(w: World, g: Deal, c: Kex, s: Kex, fc: seq<Wire>, fs: seq<Wire>)
    requires ExchangeOK(w, g, c, s, fc, fs) && PosOf(c) == New && fs != [] && fs[0].payload == MsgNewkeys
    ensures ExchangeOK(w, g, FinishedKex(c), s, fc, fs[1..])
  {
    var c' := FinishedKex(c);
    ParsesOrdered(Server, fs[1..], KexRecv(c'), KexSent(s));
    assert AllS(w, g, c', s, fs[1..]) by {
      forall i | 0 <= i < |fs[1..]| ensures ContentS(w, g, c', s, fs[1..][i].payload) {
        assert ContentS(w, g, c, s, fs[i + 1].payload);
      }
    }
  }

  lemma FinishedExchangeS(w: World, g: Deal, c: Kex, s: Kex, fc: seq<Wire>, fs: seq<Wire>)
    requires ExchangeOK(w, g, c, s, fc, fs) && PosOf(s) == New && fc != [] && fc[0].payload == MsgNewkeys
    ensures ExchangeOK(w, g, c, FinishedKex(s), fc[1..], fs)
  {
    var s' := FinishedKex(s);
    ParsesOrdered(Client, fc[1..], KexRecv(s'), KexSent(c));
    assert AllC(g, c, s', fc[1..]) by {
      forall i | 0 <= i < |fc[1..]| ensures ContentC(g, c, s', fc[1..][i].payload) {
        assert ContentC(g, c, s, fc[i + 1].payload);
      }
    }
  }

  function Finished(e: Endpoint): Endpoint
    requires CanGenKeys(e.kx)
  {
    e.(kx := FinishedKex(e.kx),
       out := e.out.(trans := FreshTrans(e.kx)),
       inc := Incoming(FreshRecv(e.kx), Next(e.inc.recvseq)), lastpacket := SSH_MSG_NEWKEYS, phase := Flushing)
  }

  /** Both links when one end switches to its new keys. */
  lemma OpenFinished(me: Endpoint, you: Endpoint, fm: seq<Wire>, fy: seq<Wire>)
    requires OrderOK(me.kx, you.kx, fm) && OrderOK(you.kx, me.kx, fy) && OpenOK(me, you, fm) && OpenOK(you, me, fy)
    requires CanGenKeys(me.kx) && PosOf(me.kx) == New
    requires you.kx.sentnewkeys ==> CanGenKeys(you.kx)
    requires fy != [] && fy[0].payload.MsgNewkeys?
    ensures OpenOK(Finished(me), you, fm) && OpenOK(you, Finished(me), fy[1..])
  {
    var me' := Finished(me);
    ParsesOrdered(you.kx.role, fy[1..], KexRecv(me'.kx), KexSent(you.kx));
    ParsesLacks(you.kx.role, fy[1..], KexRecv(me'.kx), KexSent(you.kx), 2);
    OpensNoSwitch(fy[1..], me'.inc.recv, me'.inc.recvseq, FreshRecv(me.kx), NewRecv(me'.kx, you), EffTrans(you), you.out.transseq);
  }

  lemma NewkeysRecvC(w: World, g: Deal, c: Endpoint, s: Endpoint, fc: seq<Wire>, fs: seq<Wire>)
    requires Inv(w, g, c, s, fc, fs) && PosOf(c.kx) == New
    requires fs != [] && fs[0].payload == MsgNewkeys
    ensures Inv(w, g, Finished(c), s, fc, fs[1..])
  {
    FinishedExchangeC(w, g, c.kx, s.kx, fc, fs);
    OpenFinished(c, s, fc, fs);
  }

  lemma NewkeysRecvS(w: World, g: Deal, c: Endpoint, s: Endpoint, fc: seq<Wire>, fs: seq<Wire>)
    requires Inv(w, g, c, s, fc, fs) && PosOf(s.kx) == New
    requires fc != [] && fc[0].payload == MsgNewkeys
    ensures Inv(w, g, c, Finished(s), fc[1..], fs)
  {
    FinishedExchangeS(w, g, c.kx, s.kx, fc, fs);
    OpenFinished(s, c, fs, fc);
  }
}
