/**
  One end facing any peer whatever: which key exchange messages it accepts, and what must have
  been verified before it uses a key. Nothing is assumed of the packets it is given.
*/
module AnyPeer {
  import opened Wrappers
  import opened Bytes
  import opened NumberTheory
  import opened AlgoMatch
  import opened Transport
  import opened Network
  import opened Choices

  // ------------------------------------------------- one key exchange message

  /** The exchange hash of section 8 of RFC 4253. */
  function ExchangeHash(w: World, t: Transcript, hostkey: seq<byte>, e: nat, f: nat, k: nat): seq<byte> {
    w.sha1(PutString(t.vc) + PutString(t.vs) + PutString(EncodeProposal(t.ic)) + PutString(EncodeProposal(t.is_))
           + PutString(hostkey) + Mpint(e) + Mpint(f) + Mpint(k))
  }

  /** What a client asks of KEXDH_REPLY: it has sent KEXDH_INIT, the user accepts the key the
      first time, the key is of the type agreed on, the value is in range, and the signature is
      one of that key over the hash that the client works out for itself. */
  ghost predicate ReplyAcceptable(w: World, k: Kex, hostkey: seq<byte>, f: nat, sig: seq<byte>, accept: bool) {
    && k.kexState == KEXDH_INIT_SENT && k.newkeys.Some? && k.dhE.Some? && k.dhX.Some? && k.kexhashbuf.Some?
    && (k.donefirstkex || accept)
    && w.keyType(hostkey) == k.newkeys.value.hostkey
    && var p := DhPrime(k.newkeys.value.kex);
       && 0 < f < p
       && w.verify(hostkey, ExchangeHash(w, k.kexhashbuf.value, hostkey, k.dhE.value, f, Pow(f, k.dhX.value) % p), sig)
  }

  lemma HashIs(w: World, t: Transcript, hostkey: seq<byte>, e: nat, f: nat)
    requires GoodWorld(w)
    ensures forall k :: w.xhash(t, hostkey, e, f, k) == ExchangeHash(w, t, hostkey, e, f, k)
  {
    forall k ensures w.xhash(t, hostkey, e, f, k) == ExchangeHash(w, t, hostkey, e, f, k) {
      assert w.xhash(t, hostkey, e, f, k) == w.sha1(HashInput(t, hostkey, e, f, k));
    }
  }

  /** kexdh_comb_key, in those terms. */
  lemma CombIs(w: World, k: Kex, us: nat, priv: nat, them: nat, hostkey: seq<byte>)
    requires GoodWorld(w)
    ensures var r := KexdhCombKey(w, k, us, priv, them, hostkey);
      && (r.Ok? <==> k.newkeys.Some? && k.kexhashbuf.Some? && 0 < them < DhPrime(k.newkeys.value.kex))
      && (r.Ok? ==>
            var secret := Pow(them, priv) % DhPrime(k.newkeys.value.kex);
            var h := if k.role == Client then ExchangeHash(w, k.kexhashbuf.value, hostkey, us, them, secret)
                     else ExchangeHash(w, k.kexhashbuf.value, hostkey, them, us, secret);
            r.value == k.(dhK := Some(secret), hash := h, kexhashbuf := None,
                          sessionId := if k.sessionId.None? then Some(h) else k.sessionId))
  {
    if k.newkeys.Some? && k.kexhashbuf.Some? {
      var e, f := if k.role == Client then us else them, if k.role == Client then them else us;
      HashIs(w, k.kexhashbuf.value, hostkey, e, f);
      ExpIs(w, them, priv, k.newkeys.value.kex);
    }
    hide GoodWorld, DhPrime, ExchangeHash, HashInput;
  }

  /** send_msg_newkeys never exits once there are keys to be made, and makes NEWKEYS. */
  lemma NewkeysMade(s: Endpoint)
    requires CanGenKeys(s.kx)
    ensures SendMsgNewkeys(s).Ok?
    ensures !s.kx.recvnewkeys && !s.kx.sentnewkeys ==>
      var t := SendMsgNewkeys(s).value;
      && t.kx == s.kx.(sentnewkeys := true)
      && t.out.writequeue == s.out.writequeue + [Wire(MsgNewkeys, s.out.transseq, s.out.trans)]
  {
  }

  lemma ExpIs(w: World, b: nat, x: nat, kex: Name)
    requires GoodWorld(w)
    ensures w.prime(kex) == DhPrime(kex) && w.exptmod(b, x, DhPrime(kex)) == Pow(b, x) % DhPrime(kex)
  {
    assert Pow(b, x) == Pow(b, x);
  }

  /** The client's handler goes on if and only if the reply is acceptable. */
  lemma ReplyAcceptedIff(w: World, s: Endpoint, hostkey: seq<byte>, f: nat, sig: seq<byte>, accept: bool)
    requires GoodWorld(w) && s.kx.role == Client
    ensures RecvMsgKexdhReply(w, s, hostkey, f, sig, accept).Ok? <==> ReplyAcceptable(w, s.kx, hostkey, f, sig, accept)
  {
    hide GoodWorld, DhPrime, ExchangeHash, EncryptPacket, KexdhCombKey, SendMsgNewkeys;
    var k := s.kx;
    if k.newkeys.Some? && k.dhE.Some? && k.dhX.Some? {
      CombIs(w, k, k.dhE.value, k.dhX.value, f, hostkey);
      var r := KexdhCombKey(w, k, k.dhE.value, k.dhX.value, f, hostkey);
      if r.Ok? { NewkeysMade(s.(kx := r.value.(dhE := None, dhX := None))); }
    }
  }

  /** The exchange variables once the secret and the hash are worked out. */
  function Combined(w: World, k: Kex, hostkey: seq<byte>, e: nat, f: nat, secret: nat): Kex
    requires k.kexhashbuf.Some?
  {
    var h := ExchangeHash(w, k.kexhashbuf.value, hostkey, e, f, secret);
    k.(dhK := Some(secret), hash := h, kexhashbuf := None, sessionId := if k.sessionId.None? then Some(h) else k.sessionId)
  }

  function ClientSecret(k: Kex, f: nat): nat
    requires k.newkeys.Some? && k.dhX.Some?
  {
    Pow(f, k.dhX.value) % DhPrime(k.newkeys.value.kex)
  }

  /** An acceptable reply, taken apart. */
  lemma ReplyIs(w: World, s: Endpoint, hostkey: seq<byte>, f: nat, sig: seq<byte>, accept: bool)
    requires GoodWorld(w) && s.kx.role == Client && ReplyAcceptable(w, s.kx, hostkey, f, sig, accept)
    ensures var k1 := Combined(w, s.kx, hostkey, s.kx.dhE.value, f, ClientSecret(s.kx, f)).(dhE := None, dhX := None);
      var r := SendMsgNewkeys(s.(kx := k1));
      && CanGenKeys(k1) && r.Ok?
      && RecvMsgKexdhReply(w, s, hostkey, f, sig, accept) == Ok(r.value.(kx := r.value.kx.(requirenext := SSH_MSG_NEWKEYS)))
  {
    hide GoodWorld, DhPrime, ExchangeHash, EncryptPacket, KexdhCombKey, SendMsgNewkeys, Pow;
    var k := s.kx;
    CombIs(w, k, k.dhE.value, k.dhX.value, f, hostkey);
    NewkeysMade(s.(kx := KexdhCombKey(w, k, k.dhE.value, k.dhX.value, f, hostkey).value.(dhE := None, dhX := None)));
  }

  /** Then it has the hash and the secret that the signature was about, and has made NEWKEYS. */
  lemma ReplyAccepted(w: World, s: Endpoint, hostkey: seq<byte>, f: nat, sig: seq<byte>, accept: bool)
    requires GoodWorld(w) && s.kx.role == Client && ReplyAcceptable(w, s.kx, hostkey, f, sig, accept)
    requires !s.kx.recvnewkeys && !s.kx.sentnewkeys
    ensures RecvMsgKexdhReply(w, s, hostkey, f, sig, accept).Ok?
    ensures var p := DhPrime(s.kx.newkeys.value.kex);
      var t := RecvMsgKexdhReply(w, s, hostkey, f, sig, accept).value;
      var k := Pow(f, s.kx.dhX.value) % p;
      var h := ExchangeHash(w, s.kx.kexhashbuf.value, hostkey, s.kx.dhE.value, f, k);
      && t.kx.dhK == Some(k) && t.kx.hash == h && t.kx.sentnewkeys && t.kx.requirenext == SSH_MSG_NEWKEYS
      && t.kx.sessionId == (if s.kx.sessionId.Some? then s.kx.sessionId else Some(h))
  {
    hide GoodWorld, DhPrime, ExchangeHash, EncryptPacket, RecvMsgKexdhReply, SendMsgNewkeys, Pow, ReplyAcceptable;
    ReplyGives(w, s.kx, hostkey, f, sig, accept);
    ReplyIs(w, s, hostkey, f, sig, accept);
    NewkeysMade(s.(kx := Combined(w, s.kx, hostkey, s.kx.dhE.value, f, ClientSecret(s.kx, f)).(dhE := None, dhX := None)));
  }

  lemma ReplyGives(w: World, k: Kex, hostkey: seq<byte>, f: nat, sig: seq<byte>, accept: bool)
    requires ReplyAcceptable(w, k, hostkey, f, sig, accept)
    ensures k.newkeys.Some? && k.dhE.Some? && k.dhX.Some? && k.kexhashbuf.Some? && k.kexState == KEXDH_INIT_SENT
  {
  }

  /** What a server asks of KEXDH_INIT. */
  predicate InitAcceptable(k: Kex, e: nat) {
    && k.recvkexinit && k.newkeys.Some? && k.kexhashbuf.Some?
    && 0 < e < DhPrime(k.newkeys.value.kex)
  }

  /** The server's own value, its secret, and its reply. */
  function ServerValue(k: Kex, y: nat): nat
    requires k.newkeys.Some?
  {
    Pow(DH_G_VAL, y) % DhPrime(k.newkeys.value.kex)
  }

  function ServerSecret(k: Kex, e: nat, y: nat): nat
    requires k.newkeys.Some?
  {
    Pow(e, y) % DhPrime(k.newkeys.value.kex)
  }

  /** An acceptable KEXDH_INIT, taken apart. */
  lemma InitIs(w: World, s: Endpoint, e: nat, y: nat, nonce: nat)
    requires GoodWorld(w) && s.kx.role == Server && InitAcceptable(s.kx, e)
    ensures var hostkey, f := w.hostPub(s.kx.newkeys.value.hostkey), ServerValue(s.kx, y);
      var k1 := Combined(w, s.kx, hostkey, e, f, ServerSecret(s.kx, e, y));
      var s2 := EncryptPacket(s.(kx := k1), MsgKexdhReply(hostkey, f, w.sign(s.kx.newkeys.value.hostkey, k1.hash, nonce)));
      var r := SendMsgNewkeys(s2);
      && CanGenKeys(k1) && s2.kx == k1 && r.Ok?
      && RecvMsgKexdhInit(w, s, e, y, nonce) == Ok(r.value.(kx := r.value.kx.(requirenext := SSH_MSG_NEWKEYS)))
  {
    hide GoodWorld, DhPrime, ExchangeHash, EncryptPacket, KexdhCombKey, SendMsgNewkeys, Pow;
    var k := s.kx;
    var name := k.newkeys.value.hostkey;
    var f := ServerValue(k, y);
    ExpIs(w, DH_G_VAL, y, k.newkeys.value.kex);
    CombIs(w, k, f, y, e, w.hostPub(name));
    var k1 := KexdhCombKey(w, k, f, y, e, w.hostPub(name)).value;
    var reply := MsgKexdhReply(w.hostPub(name), f, w.sign(name, k1.hash, nonce));
    ReplyQueued(s.(kx := k1), reply);
    NewkeysMade(EncryptPacket(s.(kx := k1), reply));
  }

  /** The server's handler goes on if and only if the value is in range and the KEXINITs have been
      exchanged; its reply carries its own key, its own value, and a signature over the hash. */
  lemma InitAcceptedIff(w: World, s: Endpoint, e: nat, y: nat, nonce: nat)
    requires GoodWorld(w) && s.kx.role == Server
    ensures RecvMsgKexdhInit(w, s, e, y, nonce).Ok? <==> InitAcceptable(s.kx, e)
    ensures InitAcceptable(s.kx, e) && !s.kx.recvnewkeys && !s.kx.sentnewkeys ==>
      var p := DhPrime(s.kx.newkeys.value.kex);
      var t := RecvMsgKexdhInit(w, s, e, y, nonce).value;
      var name := s.kx.newkeys.value.hostkey;
      var f, k := Pow(DH_G_VAL, y) % p, Pow(e, y) % p;
      var h := ExchangeHash(w, s.kx.kexhashbuf.value, w.hostPub(name), e, f, k);
      && t.kx.dhK == Some(k) && t.kx.hash == h && t.kx.sentnewkeys && t.kx.requirenext == SSH_MSG_NEWKEYS
      && t.kx.sessionId == (if s.kx.sessionId.Some? then s.kx.sessionId else Some(h))
      && |t.out.writequeue| == |s.out.writequeue| + 2
      && t.out.writequeue[|s.out.writequeue|].payload == MsgKexdhReply(w.hostPub(name), f, w.sign(name, h, nonce))
      && t.out.writequeue[|s.out.writequeue| + 1].payload == MsgNewkeys
  {
    hide GoodWorld, DhPrime, ExchangeHash, EncryptPacket, KexdhCombKey, SendMsgNewkeys;
    var k := s.kx;
    if k.newkeys.Some? {
      var nk := k.newkeys.value;
      var name := nk.hostkey;
      var f := Pow(DH_G_VAL, y) % DhPrime(nk.kex);
      ExpIs(w, DH_G_VAL, y, nk.kex);
      CombIs(w, k, f, y, e, w.hostPub(name));
      var r := KexdhCombKey(w, k, f, y, e, w.hostPub(name));
      if r.Ok? {
        var reply := MsgKexdhReply(w.hostPub(name), f, w.sign(name, r.value.hash, nonce));
        ReplyQueued(s.(kx := r.value), reply);
        NewkeysMade(EncryptPacket(s.(kx := r.value), reply));
      }
    }
  }

  lemma ReplyQueued(s: Endpoint, p: Payload)
    requires p.MsgKexdhReply?
    ensures EncryptPacket(s, p).kx == s.kx
    ensures !s.kx.sentnewkeys ==> EncryptPacket(s, p).out.writequeue == s.out.writequeue + [Wire(p, s.out.transseq, s.out.trans)]
  {
  }

  lemma ReplyDecided(w: World, s: Endpoint, hostkey: seq<byte>, f: nat, sig: seq<byte>, accept: bool)
    ensures GoodWorld(w) && s.kx.role == Client ==>
      (RecvMsgKexdhReply(w, s, hostkey, f, sig, accept).Ok? <==> ReplyAcceptable(w, s.kx, hostkey, f, sig, accept))
  {
    hide *;
    if GoodWorld(w) && s.kx.role == Client { ReplyAcceptedIff(w, s, hostkey, f, sig, accept); }
  }

  lemma InitDecided(w: World, s: Endpoint, e: nat, y: nat, nonce: nat)
    ensures GoodWorld(w) && s.kx.role == Server ==> (RecvMsgKexdhInit(w, s, e, y, nonce).Ok? <==> InitAcceptable(s.kx, e))
  {
    hide *;
    if GoodWorld(w) && s.kx.role == Server { InitAcceptedIff(w, s, e, y, nonce); }
  }

  // ------------------------------------------------------------ KEXINIT

  /** Our KEXINIT: the one already sent, or the one sent in answer. */
  function OwnKexinit(k: Kex, cookie: seq<byte>): Option<Proposal> {
    if k.sentkexinit then k.transkexinit else Some(Proposal(cookie, OwnLists(k.cfg), false))
  }

  /** Both first names are the same. */
  predicate Guessed(local: seq<Algo>, theirs: seq<Name>) {
    local != [] && local[0].usable && theirs != [] && theirs[0] == local[0].name
  }

  /** KEXINIT from any peer: taken if and only if ours is there to hash and every pair of lists has a
      name in common. Then the algorithms are those section 7.1 prescribes, the client's
      identification and KEXINIT come first in the hash, and a packet that the peer has guessed
      wrongly is to be ignored. */
  lemma KexinitAcceptedIff(w: World, s: Endpoint, q: Proposal, cookie: seq<byte>)
    requires GoodWorld(w)
    ensures RecvMsgKexinit(w, s, q, cookie).Ok? <==>
      OwnKexinit(s.kx, cookie).Some? && !NoChoice(s.kx.role, s.kx.cfg, q.lists)
    ensures RecvMsgKexinit(w, s, q, cookie).Ok? ==>
      var k, t, own := s.kx, RecvMsgKexinit(w, s, q, cookie).value.kx, OwnKexinit(s.kx, cookie);
      && own.Some? && t.newkeys.Some? && Prescribed(k.role, k.cfg, q.lists, t.newkeys.value)
      && t.kexhashbuf == Some(if k.role == Client then Transcript(k.cfg.ident, k.peerIdent, own.value, q)
                              else Transcript(k.peerIdent, k.cfg.ident, q, own.value))
      && t.sentkexinit && t.recvkexinit
      && (t.ignorenext <==> k.ignorenext || (q.follows && !(Guessed(k.cfg.kex, q.lists.kex) && Guessed(k.cfg.hostkeys, q.lists.hostkey))))
      && t.requirenext == (if k.role == Server then SSH_MSG_KEXDH_INIT else k.requirenext)
  {
    var k := s.kx;
    hide GoodWorld, ReadKexAlgos, Prescribed, NoChoice, RecvMsgKexinit, OwnKexinit, Guessed, GoodGuess;
    ChoicesAre(k.role, k.cfg, q.lists);
    ExitsIff(k.role, k.cfg, q.lists);
    KexinitTaken(w, s, q, cookie);
    GuessIs(k.cfg.kex, q.lists.kex);
    GuessIs(k.cfg.hostkeys, q.lists.hostkey);
  }

  lemma KexinitTaken(w: World, s: Endpoint, q: Proposal, cookie: seq<byte>)
    requires GoodWorld(w)
    ensures var k, own, nk, r := s.kx, OwnKexinit(s.kx, cookie), ReadKexAlgos(s.kx.role, s.kx.cfg, q.lists), RecvMsgKexinit(w, s, q, cookie);
      && (r.Ok? <==> own.Some? && nk.Ok?)
      && (r.Ok? ==>
            var wrong := q.follows && !(GoodGuess(k.cfg.kex, q.lists.kex) && GoodGuess(k.cfg.hostkeys, q.lists.hostkey));
            r.value.kx == k.(newkeys := Some(nk.value), transkexinit := None, sentkexinit := true, recvkexinit := true,
              ignorenext := k.ignorenext || wrong, firstfollows := k.firstfollows || q.follows, dataallowed := r.value.kx.dataallowed,
              requirenext := if k.role == Server then SSH_MSG_KEXDH_INIT else k.requirenext,
              kexhashbuf := Some(if k.role == Client then Transcript(k.cfg.ident, k.peerIdent, own.value, q)
                                 else Transcript(k.peerIdent, k.cfg.ident, q, own.value))))
  {
    var k := s.kx;
    assert w.advertise(k.cfg) == OwnLists(k.cfg);
    assert w.negotiate(k.role, k.cfg, q.lists) == ReadKexAlgos(k.role, k.cfg, q.lists);
    OursSent(w, s, cookie);
    hide GoodWorld, ReadKexAlgos, SendMsgKexinit, OwnKexinit, GoodGuess;
  }

  lemma GuessIs(local: seq<Algo>, theirs: seq<Name>)
    ensures GoodGuess(local, theirs) <==> Guessed(local, theirs)
  {
  }

  lemma OursSent(w: World, s: Endpoint, cookie: seq<byte>)
    requires w.advertise(s.kx.cfg) == OwnLists(s.kx.cfg)
    ensures var t := if s.kx.sentkexinit then s else SendMsgKexinit(w, s, cookie);
      t.kx == s.kx.(transkexinit := OwnKexinit(s.kx, cookie), dataallowed := t.kx.dataallowed, sentkexinit := true)
  {
    SameKex(s, MsgKexinit(Proposal(cookie, w.advertise(s.kx.cfg), false)));
    hide EncryptPacket;
  }

  lemma SameKex(s: Endpoint, p: Payload)
    ensures EncryptPacket(s, p).kx == s.kx
  {
  }

  // ----------------------------------------------------- what may be received

  /** For any end, any packet and any handler: when there is an exit before a handler is called,
      and for what reason. */
  lemma RefusedIff(w: World, e: Endpoint, m: Wire, inp: Input)
    ensures var t, r := Type(m.payload), Receive(w, e, m, inp);
      var opens := m.seqno == e.inc.recvseq && m.dir == e.inc.recv;
      var harmless := t == SSH_MSG_IGNORE || t == SSH_MSG_DEBUG;
      var read := Incoming(Ran(e.inc.recv, m.payload), Next(e.inc.recvseq));
      var unexpected := e.kx.requirenext != 0 && e.kx.requirenext != t;
      && (!opens ==> r == Exit(IntegrityError))
      && (opens && harmless ==> r == Ok(e.(lastpacket := t, inc := read)))
      && (opens && t == SSH_MSG_UNIMPLEMENTED ==> r == Exit(UnimplementedReceived))
      && (opens && t == SSH_MSG_DISCONNECT ==> r == Exit(DisconnectReceived))
      && (opens && !harmless && t != SSH_MSG_UNIMPLEMENTED && t != SSH_MSG_DISCONNECT ==>
            && (unexpected ==> r == Exit(UnexpectedPacket))
            && (!unexpected && e.kx.ignorenext ==>
                  r == Ok(e.(lastpacket := t, inc := read, kx := e.kx.(requirenext := 0, ignorenext := false))))
            && (!unexpected && !e.kx.ignorenext && !e.authdone && t > MAX_UNAUTH_PACKET_TYPE ==> r == Exit(BeforeUserauth)))
  {
    hide Dispatch;
  }

  /** A packet that is let through and has no row in the table is answered with UNIMPLEMENTED and its
      own number. */
  lemma UnknownAnswered(w: World, e: Endpoint, m: Wire, inp: Input)
    requires m.seqno == e.inc.recvseq && m.dir == e.inc.recv && !e.kx.ignorenext
    requires var t := Type(m.payload);
      && !(t <= SSH_MSG_DEBUG) && (e.kx.requirenext == 0 || e.kx.requirenext == t) && (e.authdone || t <= MAX_UNAUTH_PACKET_TYPE)
    requires match m.payload
             case MsgApp(t, _) => !Handled(e.kx.role, t)
             case MsgKexdhInit(_) => e.kx.role == Client
             case MsgKexdhReply(_, _, _) => e.kx.role == Server
             case _ => false
    ensures Receive(w, e, m, inp)
      == Ok(AppSend(e.(lastpacket := Type(m.payload), inc := Incoming(Ran(e.inc.recv, m.payload), Next(e.inc.recvseq)),
                       kx := e.kx.(requirenext := 0)), MsgApp(SSH_MSG_UNIMPLEMENTED, SequenceNumber(m.seqno))))
  {
    hide AppSend, Handled;
    assert Previous(Next(m.seqno)) == m.seqno;
  }

  /** checktimeouts: a rekey that is due outside an exchange sends our KEXINIT, one that is due in an
      exchange sends nothing, and a keepalive is an IGNORE with an empty string. */
  lemma TimeoutsDo(w: World, e: Endpoint, inp: Input)
    requires GoodWorld(w) && e.kx.dataallowed == !e.kx.sentkexinit && !e.kx.sentnewkeys
    ensures var m, q := CheckTimeouts(w, e, inp), e.out.writequeue;
      var rekey := inp.due && !e.kx.sentkexinit;
      var own := [MsgKexinit(Proposal(inp.cookie, OwnLists(e.kx.cfg), false))];
      var ignore := [MsgApp(SSH_MSG_IGNORE, Bytes([0, 0, 0, 0]))];
      && (m.kx.sentkexinit <==> rekey || e.kx.sentkexinit)
      && q <= m.out.writequeue && m.out.replyqueue == e.out.replyqueue
      && Payloads(m.out.writequeue[|q|..]) == (if rekey then own else []) + (if inp.keepalive then ignore else [])
  {
    assert w.advertise(e.kx.cfg) == OwnLists(e.kx.cfg);
    hide GoodWorld, OwnLists;
    var s1 := if !e.kx.sentkexinit && inp.due then SendMsgKexinit(w, e, inp.cookie) else e;
    assert s1.out.writequeue == e.out.writequeue + s1.out.writequeue[|e.out.writequeue|..];
  }

  function Payloads(f: seq<Wire>): (p: seq<Payload>)
    ensures |p| == |f| && forall i :: 0 <= i < |f| ==> p[i] == f[i].payload
  {
    seq(|f|, i requires 0 <= i < |f| => f[i].payload)
  }

  /** NEWKEYS may be sent and received in either order: the exchange ends the same, with both contexts
      fresh, the exchange variables reset and data allowed again. */
  lemma NewkeysEitherOrder(s: Endpoint)
    requires CanGenKeys(s.kx) && !s.kx.sentnewkeys && !s.kx.recvnewkeys
    ensures var sent, received := SendMsgNewkeys(s), RecvMsgNewkeys(s);
      && sent.Ok? && received.Ok? && RecvMsgNewkeys(sent.value).Ok? && RecvMsgNewkeys(sent.value) == SendMsgNewkeys(received.value)
      && sent.value.inc == s.inc && received.value.inc == s.inc && received.value.out == s.out
      && var t := RecvMsgNewkeys(sent.value).value;
         && t.out.trans == FreshTrans(s.kx) && t.inc.recv == FreshRecv(s.kx) && t.inc.recvseq == s.inc.recvseq
         && t.out.writequeue == s.out.writequeue + [Wire(MsgNewkeys, s.out.transseq, s.out.trans)]
         && t.kx.epoch == s.kx.epoch + 1 && t.kx.dataallowed && t.kx.donefirstkex && t.kx.newkeys.None? && t.kx.dhK.None?
         && !t.kx.sentkexinit && !t.kx.recvkexinit && !t.kx.sentnewkeys && !t.kx.recvnewkeys && !t.kx.firstfollows
         && t.kx.sessionId == s.kx.sessionId
  {
  }

  // ------------------------------------------------ an end and any peer's packets

  /** One phase of the session loop, with anything at all arrived on the link. */
  datatype Turn = Turn(inp: Input, arrived: seq<Wire>)

  function Facing(w: World, e: Endpoint, run: seq<Turn>): Endpoint
    decreases |run|
  {
    if run == [] then e
    else
      var m := Facing(w, e, run[..|run| - 1]);
      var t := run[|run| - 1];
      Step(w, m, t.arrived, t.inp).me
  }

  /** Who this end is, and whom it believes to face. */
  datatype Id = Id(role: Role, cfg: Config, peer: seq<byte>)

  function IdOf(k: Kex): Id { Id(k.role, k.cfg, k.peerIdent) }

  predicate OwnProposal(c: Config, p: Proposal) { p.lists == OwnLists(c) && !p.follows }

  /** The transcript has this end's identification and proposal in their places. */
  predicate OwnTranscript(id: Id, t: Transcript) {
    if id.role == Client then t.vc == id.cfg.ident && t.vs == id.peer && OwnProposal(id.cfg, t.ic)
    else t.vs == id.cfg.ident && t.vc == id.peer && OwnProposal(id.cfg, t.is_)
  }

  /** How a secret and a hash came about: the transcript, the host key and its signature, the two
      public values, this end's exponent, and the group. */
  datatype Origin = Origin(t: Transcript, hostkey: seq<byte>, sig: seq<byte>, e: nat, f: nat, x: nat, kex: Name)

  ghost predicate From(w: World, id: Id, secret: nat, hash: seq<byte>, o: Origin) {
    var p := DhPrime(o.kex);
    && OwnTranscript(id, o.t)
    && hash == ExchangeHash(w, o.t, o.hostkey, o.e, o.f, secret)
    && if id.role == Client
       then o.e == Pow(DH_G_VAL, o.x) % p && 0 < o.f < p && secret == Pow(o.f, o.x) % p && w.verify(o.hostkey, hash, o.sig)
       else o.f == Pow(DH_G_VAL, o.x) % p && 0 < o.e < p && secret == Pow(o.e, o.x) % p
  }

  /** The secret and the hash are the outcome of an exchange in which this end played its part: the
      peer's value was in range and, for a client, a signature over just this hash was verified. */
  ghost predicate Vouched(w: World, id: Id, secret: nat, hash: seq<byte>) {
    exists o :: From(w, id, secret, hash, o)
  }

  ghost predicate HashVouched(w: World, id: Id, hash: seq<byte>) {
    exists secret :: Vouched(w, id, secret, hash)
  }

  /** The exchange value of a client is made from its exponent. */
  predicate ValueFine(k: Kex) {
    k.dhE.Some? ==> k.dhX.Some? && k.newkeys.Some? && k.dhE.value == Pow(DH_G_VAL, k.dhX.value) % DhPrime(k.newkeys.value.kex)
  }

  ghost predicate KexGuard(w: World, k: Kex) {
    && (k.transkexinit.Some? ==> OwnProposal(k.cfg, k.transkexinit.value))
    && (k.kexhashbuf.Some? ==> OwnTranscript(IdOf(k), k.kexhashbuf.value))
    && (k.newkeys.Some? ==> k.transkexinit.None? && k.sentkexinit && k.recvkexinit)
    && ValueFine(k)
    && (k.role == Server ==> k.dhE.None?)
    && (k.sentnewkeys ==> k.newkeys.Some? && k.dhE.None? && k.kexhashbuf.None? && (k.role == Client ==> k.kexState == KEXDH_INIT_SENT))
    && (k.sentnewkeys ==> k.dhK.Some? && Vouched(w, IdOf(k), k.dhK.value, k.hash))
    && (k.sessionId.Some? ==> HashVouched(w, IdOf(k), k.sessionId.value))
  }

  /** A context has no keys yet, or keys from a vouched exchange. */
  ghost predicate SeedGuard(w: World, id: Id, s: Seed) {
    s.Seed? ==> Vouched(w, id, s.k, s.hash)
  }

  ghost predicate Guarded(w: World, e: Endpoint) {
    KexGuard(w, e.kx) && SeedGuard(w, IdOf(e.kx), e.out.trans.seed) && SeedGuard(w, IdOf(e.kx), e.inc.recv.seed)
  }

  /** Nothing that matters here is different. */
  predicate Alike(e: Endpoint, m: Endpoint) {
    m.kx == e.kx && m.out.trans.seed == e.out.trans.seed && m.inc.recv.seed == e.inc.recv.seed
  }

  lemma AlikeGuarded(w: World, e: Endpoint, m: Endpoint)
    requires Guarded(w, e) && Alike(e, m)
    ensures Guarded(w, m) && IdOf((m).kx) == IdOf(e.kx)
  {
    hide KexGuard, SeedGuard;
  }

  lemma SendAlike(e: Endpoint, p: Payload)
    ensures Alike(e, EncryptPacket(e, p)) && Alike(e, AppSend(e, p))
  {
  }

  lemma {:induction false} SendAllAlike(e: Endpoint, ps: seq<Payload>)
    ensures Alike(e, AppSendAll(e, ps)) && Alike(e, EncryptAll(e, ps))
    decreases |ps|
  {
    hide AppSend, EncryptPacket;
    if ps != [] {
      SendAlike(e, ps[0]);
      SendAllAlike(AppSend(e, ps[0]), ps[1..]);
      SendAllAlike(EncryptPacket(e, ps[0]), ps[1..]);
    }
  }

  /** Only bookkeeping of the exchange has changed. */
  predicate SameExchange(a: Kex, b: Kex) {
    b == a.(requirenext := b.requirenext, ignorenext := b.ignorenext, firstfollows := b.firstfollows, dataallowed := b.dataallowed,
            donefirstkex := b.donefirstkex)
  }

  lemma SameGuarded(w: World, e: Endpoint, m: Endpoint)
    requires Guarded(w, e) && SameExchange(e.kx, m.kx) && m.out.trans.seed == e.out.trans.seed && m.inc.recv.seed == e.inc.recv.seed
    ensures Guarded(w, m) && IdOf((m).kx) == IdOf(e.kx)
  {
    hide Vouched, HashVouched, OwnTranscript, OwnProposal;
    assert IdOf(m.kx) == IdOf(e.kx);
  }

  lemma ProposalGuarded(w: World, e: Endpoint, cookie: seq<byte>)
    requires GoodWorld(w) && Guarded(w, e) && !e.kx.sentkexinit
    ensures Guarded(w, SendMsgKexinit(w, e, cookie)) && IdOf((SendMsgKexinit(w, e, cookie)).kx) == IdOf(e.kx)
  {
    assert w.advertise(e.kx.cfg) == OwnLists(e.kx.cfg);
    hide GoodWorld, Vouched, HashVouched, OwnTranscript, OwnLists, EncryptPacket, ValueFine;
    var p := MsgKexinit(Proposal(cookie, w.advertise(e.kx.cfg), false));
    SendAlike(e, p);
    var m := SendMsgKexinit(w, e, cookie);
    assert IdOf(m.kx) == IdOf(e.kx);
    assert ValueFine(m.kx) by { ValueNone(m.kx); }
  }

  lemma ValueNone(k: Kex)
    ensures k.dhE.None? ==> ValueFine(k)
  {
  }

  lemma KexinitGuarded(w: World, e: Endpoint, q: Proposal, cookie: seq<byte>)
    requires GoodWorld(w) && Guarded(w, e) && RecvMsgKexinit(w, e, q, cookie).Ok?
    ensures Guarded(w, RecvMsgKexinit(w, e, q, cookie).value) && IdOf((RecvMsgKexinit(w, e, q, cookie).value).kx) == IdOf(e.kx)
  {
    var s := if e.kx.sentkexinit then e else SendMsgKexinit(w, e, cookie);
    if !e.kx.sentkexinit { ProposalGuarded(w, e, cookie); }
    assert Guarded(w, s);
    hide GoodWorld, Vouched, HashVouched, OwnProposal, SendMsgKexinit;
    var m := RecvMsgKexinit(w, e, q, cookie).value;
    assert IdOf(m.kx) == IdOf(e.kx);
  }

  /** The keys of an exchange that is vouched for. */
  lemma FinishGuarded(w: World, e: Endpoint)
    requires Guarded(w, e) && FinishKex(e).Ok? && e.kx.dhE.None? && Vouched(w, IdOf(e.kx), e.kx.dhK.value, e.kx.hash)
    ensures Guarded(w, FinishKex(e).value) && IdOf((FinishKex(e).value).kx) == IdOf(e.kx)
  {
    hide Vouched, HashVouched, OwnTranscript, OwnProposal, ValueFine;
    var m := FinishKex(e).value;
    assert IdOf(m.kx) == IdOf(e.kx);
    assert ValueFine(m.kx) by { ValueNone(m.kx); }
  }

  lemma SwitchGuarded(w: World, e: Endpoint)
    requires Guarded(w, e) && SendMsgNewkeys(e).Ok? && e.kx.newkeys.Some? && e.kx.dhE.None? && e.kx.kexhashbuf.None? && e.kx.dhK.Some?
    requires Vouched(w, IdOf(e.kx), e.kx.dhK.value, e.kx.hash) && (e.kx.role == Client ==> e.kx.kexState == KEXDH_INIT_SENT)
    ensures Guarded(w, SendMsgNewkeys(e).value) && IdOf((SendMsgNewkeys(e).value).kx) == IdOf(e.kx)
  {
    hide Vouched, HashVouched, OwnTranscript, OwnProposal, ValueFine, FinishKex, EncryptPacket;
    SendAlike(e, MsgNewkeys);
    var t := EncryptPacket(e, MsgNewkeys);
    assert Guarded(w, t) by { AlikeGuarded(w, e, t); }
    if t.kx.recvnewkeys { FinishGuarded(w, t); }
    else {
      var m := t.(kx := t.kx.(sentnewkeys := true));
      assert IdOf(m.kx) == IdOf(e.kx);
      assert ValueFine(m.kx) by { ValueNone(m.kx); }
    }
  }

  lemma NewkeysGuarded(w: World, e: Endpoint)
    requires Guarded(w, e) && RecvMsgNewkeys(e).Ok?
    ensures Guarded(w, RecvMsgNewkeys(e).value) && IdOf((RecvMsgNewkeys(e).value).kx) == IdOf(e.kx)
  {
    hide Vouched, HashVouched, OwnTranscript, OwnProposal, FinishKex;
    if e.kx.sentnewkeys { FinishGuarded(w, e); }
    else { assert IdOf(RecvMsgNewkeys(e).value.kx) == IdOf(e.kx); }
  }

  lemma DhInitSentGuarded(w: World, e: Endpoint, x: nat)
    requires GoodWorld(w) && Guarded(w, e) && SendMsgKexdhInit(w, e, x).Ok? && !e.kx.sentnewkeys && e.kx.role == Client
    ensures Guarded(w, SendMsgKexdhInit(w, e, x).value) && IdOf((SendMsgKexdhInit(w, e, x).value).kx) == IdOf(e.kx)
  {
    ExpIs(w, DH_G_VAL, x, e.kx.newkeys.value.kex);
    hide GoodWorld, Vouched, HashVouched, OwnTranscript, OwnProposal, DhPrime, EncryptPacket;
    var p := MsgKexdhInit(w.exptmod(DH_G_VAL, x, w.prime(e.kx.newkeys.value.kex)));
    SendAlike(e, p);
    assert IdOf(SendMsgKexdhInit(w, e, x).value.kx) == IdOf(e.kx);
  }

  /** What an end holds after kexdh_comb_key, and what that is vouched for by. */
  lemma CombGuarded(w: World, e: Endpoint, k: Kex, o: Origin)
    requires Guarded(w, e) && k.dhK.Some? && From(w, IdOf(e.kx), k.dhK.value, k.hash, o) && e.kx.newkeys.Some? && !e.kx.sentnewkeys
    requires k == e.kx.(dhK := k.dhK, hash := k.hash, kexhashbuf := None, dhE := None, dhX := k.dhX,
                        sessionId := if e.kx.sessionId.None? then Some(k.hash) else e.kx.sessionId)
    ensures Guarded(w, e.(kx := k)) && IdOf(k) == IdOf(e.kx) && Vouched(w, IdOf(k), k.dhK.value, k.hash)
  {
    assert IdOf(k) == IdOf(e.kx);
    assert Vouched(w, IdOf(k), k.dhK.value, k.hash);
    assert HashVouched(w, IdOf(k), k.hash);
    hide From, Vouched, HashVouched, OwnTranscript, OwnProposal, ValueFine;
    ValueNone(k);
  }

  lemma RequireNext(w: World, e: Endpoint)
    requires Guarded(w, e)
    ensures Guarded(w, e.(kx := e.kx.(requirenext := SSH_MSG_NEWKEYS))) && IdOf((e.(kx := e.kx.(requirenext := SSH_MSG_NEWKEYS))).kx) == IdOf(e.kx)
  {
    hide Guarded;
    var m := e.(kx := e.kx.(requirenext := SSH_MSG_NEWKEYS));
    SameGuarded(w, e, m);
  }

  lemma GuardGives(w: World, e: Endpoint)
    requires Guarded(w, e)
    ensures e.kx.kexhashbuf.Some? ==> !e.kx.sentnewkeys && OwnTranscript(IdOf(e.kx), e.kx.kexhashbuf.value)
    ensures ValueFine(e.kx)
  {
    hide Vouched, HashVouched, OwnTranscript, OwnProposal, ValueFine;
  }

  /** The outcome of kexdh_comb_key at the client, when the reply is accepted. */
  lemma ReplyOrigin(w: World, e: Endpoint, hostkey: seq<byte>, f: nat, sig: seq<byte>, accept: bool) returns (k1: Kex, o: Origin)
    requires GoodWorld(w) && Guarded(w, e) && e.kx.role == Client
    requires RecvMsgKexdhReply(w, e, hostkey, f, sig, accept).Ok?
    ensures k1.dhK.Some? && From(w, IdOf(e.kx), k1.dhK.value, k1.hash, o) && e.kx.newkeys.Some? && !e.kx.sentnewkeys
    ensures k1 == e.kx.(dhK := k1.dhK, hash := k1.hash, kexhashbuf := None, dhE := None, dhX := k1.dhX,
                        sessionId := if e.kx.sessionId.None? then Some(k1.hash) else e.kx.sessionId)
    ensures SendMsgNewkeys(e.(kx := k1)).Ok? && k1.kexState == KEXDH_INIT_SENT
    ensures var t := SendMsgNewkeys(e.(kx := k1)).value;
      RecvMsgKexdhReply(w, e, hostkey, f, sig, accept).value == t.(kx := t.kx.(requirenext := SSH_MSG_NEWKEYS))
  {
    ReplyAcceptedIff(w, e, hostkey, f, sig, accept);
    ReplyIs(w, e, hostkey, f, sig, accept);
    GuardGives(w, e);
    var k := e.kx;
    ReplyGives(w, k, hostkey, f, sig, accept);
    o := ReplyFrom(w, k, hostkey, f, sig, accept);
    hide GoodWorld, RecvMsgKexdhReply, SendMsgNewkeys, DhPrime, ExchangeHash, Guarded, OwnTranscript, Pow, ReplyAcceptable, From, ClientSecret;
    k1 := Combined(w, k, hostkey, k.dhE.value, f, ClientSecret(k, f)).(dhE := None, dhX := None);
  }

  lemma ReplyFrom(w: World, k: Kex, hostkey: seq<byte>, f: nat, sig: seq<byte>, accept: bool) returns (o: Origin)
    requires ReplyAcceptable(w, k, hostkey, f, sig, accept) && ValueFine(k) && k.role == Client
    requires k.kexhashbuf.Some? && OwnTranscript(IdOf(k), k.kexhashbuf.value)
    ensures k.newkeys.Some? && k.dhX.Some? && k.dhE.Some?
    ensures From(w, IdOf(k), ClientSecret(k, f), ExchangeHash(w, k.kexhashbuf.value, hostkey, k.dhE.value, f, ClientSecret(k, f)), o)
  {
    hide DhPrime, ExchangeHash, OwnTranscript, Pow;
    o := Origin(k.kexhashbuf.value, hostkey, sig, k.dhE.value, f, k.dhX.value, k.newkeys.value.kex);
  }

  lemma ReplyGuarded(w: World, e: Endpoint, hostkey: seq<byte>, f: nat, sig: seq<byte>, accept: bool)
    requires GoodWorld(w) && Guarded(w, e) && e.kx.role == Client
    requires RecvMsgKexdhReply(w, e, hostkey, f, sig, accept).Ok?
    ensures Guarded(w, RecvMsgKexdhReply(w, e, hostkey, f, sig, accept).value)
    ensures IdOf(RecvMsgKexdhReply(w, e, hostkey, f, sig, accept).value.kx) == IdOf(e.kx)
  {
    hide Guarded, GoodWorld, RecvMsgKexdhReply, SendMsgNewkeys, From, Vouched;
    var k1, o := ReplyOrigin(w, e, hostkey, f, sig, accept);
    CombGuarded(w, e, k1, o);
    SwitchGuarded(w, e.(kx := k1));
    RequireNext(w, SendMsgNewkeys(e.(kx := k1)).value);
  }

  /** The same at the server. */
  lemma InitOrigin(w: World, e: Endpoint, pub: nat, y: nat, nonce: nat) returns (k1: Kex, o: Origin, reply: Payload)
    requires GoodWorld(w) && Guarded(w, e) && e.kx.role == Server && RecvMsgKexdhInit(w, e, pub, y, nonce).Ok?
    ensures k1.dhK.Some? && From(w, IdOf(e.kx), k1.dhK.value, k1.hash, o) && e.kx.newkeys.Some? && !e.kx.sentnewkeys
    ensures k1 == e.kx.(dhK := k1.dhK, hash := k1.hash, kexhashbuf := None, dhE := None, dhX := k1.dhX,
                        sessionId := if e.kx.sessionId.None? then Some(k1.hash) else e.kx.sessionId)
    ensures var s := EncryptPacket(e.(kx := k1), reply);
      && SendMsgNewkeys(s).Ok?
      && RecvMsgKexdhInit(w, e, pub, y, nonce).value
           == SendMsgNewkeys(s).value.(kx := SendMsgNewkeys(s).value.kx.(requirenext := SSH_MSG_NEWKEYS))
  {
    InitAcceptedIff(w, e, pub, y, nonce);
    InitIs(w, e, pub, y, nonce);
    GuardGives(w, e);
    var k := e.kx;
    var name := k.newkeys.value.hostkey;
    hide GoodWorld, RecvMsgKexdhInit, SendMsgNewkeys, DhPrime, ExchangeHash, Guarded, OwnTranscript, EncryptPacket, Pow;
    var hostkey, f := w.hostPub(name), ServerValue(k, y);
    k1 := Combined(w, k, hostkey, pub, f, ServerSecret(k, pub, y));
    reply := MsgKexdhReply(hostkey, f, w.sign(name, k1.hash, nonce));
    o := Origin(k.kexhashbuf.value, hostkey, [], pub, f, y, k.newkeys.value.kex);
  }

  lemma InitGuarded(w: World, e: Endpoint, pub: nat, y: nat, nonce: nat)
    requires GoodWorld(w) && Guarded(w, e) && e.kx.role == Server && RecvMsgKexdhInit(w, e, pub, y, nonce).Ok?
    ensures Guarded(w, RecvMsgKexdhInit(w, e, pub, y, nonce).value)
    ensures IdOf(RecvMsgKexdhInit(w, e, pub, y, nonce).value.kx) == IdOf(e.kx)
  {
    hide Guarded, GoodWorld, RecvMsgKexdhInit, SendMsgNewkeys, EncryptPacket, From, Vouched;
    var k1, o, reply := InitOrigin(w, e, pub, y, nonce);
    var e1 := e.(kx := k1);
    CombGuarded(w, e, k1, o);
    SendAlike(e1, reply);
    AlikeGuarded(w, e1, EncryptPacket(e1, reply));
    SwitchGuarded(w, EncryptPacket(e1, reply));
    RequireNext(w, SendMsgNewkeys(EncryptPacket(e1, reply)).value);
  }

  lemma DispatchGuarded(w: World, e: Endpoint, p: Payload, inp: Input)
    requires GoodWorld(w) && Guarded(w, e) && Dispatch(w, e, p, inp).Ok?
    ensures Guarded(w, Dispatch(w, e, p, inp).value) && IdOf((Dispatch(w, e, p, inp).value).kx) == IdOf(e.kx)
  {
    hide Guarded, RecvMsgKexinit, RecvMsgNewkeys, RecvMsgKexdhInit, RecvMsgKexdhReply, RecvUnimplemented, AppSendAll, GoodWorld, Handled;
    assert Guarded(w, RecvUnimplemented(e)) && IdOf(RecvUnimplemented(e).kx) == IdOf(e.kx) by {
      UnimplementedAlike(e);
      AlikeGuarded(w, e, RecvUnimplemented(e));
    }
    match p
    case MsgKexinit(q) => KexinitGuarded(w, e, q, inp.cookie);
    case MsgNewkeys => NewkeysGuarded(w, e);
    case MsgKexdhInit(pub) => if e.kx.role == Server { InitGuarded(w, e, pub, inp.secret, inp.nonce); }
    case MsgKexdhReply(h, f, sig) => if e.kx.role == Client { ReplyGuarded(w, e, h, f, sig, inp.accept); }
    case MsgApp(t, _) =>
      var a := e.(authdone := e.authdone || inp.authdone);
      SendAllAlike(a, inp.packets);
      AlikeGuarded(w, e, AppSendAll(a, inp.packets));
  }

  lemma UnimplementedAlike(e: Endpoint)
    ensures Alike(e, RecvUnimplemented(e))
  {
    SendAlike(e, MsgApp(SSH_MSG_UNIMPLEMENTED, SequenceNumber(Previous(e.inc.recvseq))));
    hide AppSend;
  }

  lemma Bookkept(w: World, e: Endpoint, t: byte)
    requires Guarded(w, e)
    ensures var o := e.(lastpacket := t); var k := o.(kx := o.kx.(requirenext := 0)); var i := k.(kx := k.kx.(ignorenext := false));
      && Guarded(w, o) && Guarded(w, k) && Guarded(w, i) && IdOf(k.kx) == IdOf(i.kx) == IdOf(e.kx)
  {
    hide Guarded;
    var o := e.(lastpacket := t);
    var k := o.(kx := o.kx.(requirenext := 0));
    SameGuarded(w, e, o);
    SameGuarded(w, e, k);
    SameGuarded(w, e, k.(kx := k.kx.(ignorenext := false)));
  }

  lemma ProcessGuarded(w: World, e: Endpoint, p: Payload, inp: Input)
    requires GoodWorld(w) && Guarded(w, e) && ProcessPacket(w, e, p, inp).Ok?
    ensures Guarded(w, ProcessPacket(w, e, p, inp).value) && IdOf(ProcessPacket(w, e, p, inp).value.kx) == IdOf(e.kx)
  {
    hide Guarded, Dispatch, GoodWorld, ProcessPacket;
    ProcessCases(w, e, p, inp);
    Bookkept(w, e, Type(p));
    var k := e.(lastpacket := Type(p), kx := e.kx.(requirenext := 0));
    if Dispatch(w, k, p, inp).Ok? { DispatchGuarded(w, k, p, inp); }
  }

  lemma ReceiveGuarded(w: World, e: Endpoint, m: Wire, inp: Input)
    requires GoodWorld(w) && Guarded(w, e) && Receive(w, e, m, inp).Ok?
    ensures Guarded(w, Receive(w, e, m, inp).value) && IdOf(Receive(w, e, m, inp).value.kx) == IdOf(e.kx)
  {
    hide Guarded, GoodWorld, ProcessPacket, Receive;
    ReceiveCases(w, e, m, inp);
    var o := e.(inc := Incoming(Ran(e.inc.recv, m.payload), Next(e.inc.recvseq)));
    SameGuarded(w, e, o);
    ProcessGuarded(w, o, m.payload, inp);
  }

  lemma DriverGuarded(w: World, e: Endpoint, inp: Input)
    requires GoodWorld(w) && Guarded(w, e) && e.kx.role == Client && CliSessionLoop(w, e, inp).Ok?
    ensures Guarded(w, CliSessionLoop(w, e, inp).value) && IdOf(CliSessionLoop(w, e, inp).value.kx) == IdOf(e.kx)
  {
    if e.kx.sentnewkeys { SentMeansState(w, e); }
    DriverIs(w, e, inp);
    hide GoodWorld, SendMsgKexdhInit, AppSendAll, Guarded, CliSessionLoop;
    if (e.lastpacket == SSH_MSG_KEXINIT && e.kx.kexState == KEX_NOTHING) || e.kx.kexState == KEXINIT_RCVD {
      DhInitSentGuarded(w, e, inp.secret);
      DriverStateGuarded(w, SendMsgKexdhInit(w, e, inp.secret).value, KEXDH_INIT_SENT);
    } else {
      var ks := DriverState(e.kx);
      DriverStateGuarded(w, e, ks);
      var t := e.(kx := e.kx.(kexState := ks));
      SendAllAlike(t, inp.packets);
      AlikeGuarded(w, t, AppSendAll(t, inp.packets));
    }
  }

  /** The driver's state after an exchange has ended. */
  function DriverState(k: Kex): KexState {
    if k.kexState != KEX_NOTHING && !k.recvkexinit && !k.sentkexinit then KEX_NOTHING else k.kexState
  }

  lemma DriverIs(w: World, e: Endpoint, inp: Input)
    requires CliSessionLoop(w, e, inp).Ok?
    ensures var r, t := CliSessionLoop(w, e, inp), e.(kx := e.kx.(kexState := DriverState(e.kx)));
      if (e.lastpacket == SSH_MSG_KEXINIT && e.kx.kexState == KEX_NOTHING) || e.kx.kexState == KEXINIT_RCVD then
        var d := SendMsgKexdhInit(w, e, inp.secret);
        d.Ok? && r == Ok(d.value.(kx := d.value.kx.(kexState := KEXDH_INIT_SENT)))
      else r == Ok(t) || r == Ok(AppSendAll(t, inp.packets))
  {
    hide SendMsgKexdhInit, AppSendAll;
  }

  lemma SentMeansState(w: World, e: Endpoint)
    requires Guarded(w, e) && e.kx.role == Client && e.kx.sentnewkeys
    ensures e.kx.kexState == KEXDH_INIT_SENT && e.kx.sentkexinit && e.kx.recvkexinit
  {
    hide Vouched, HashVouched, OwnTranscript, OwnProposal, ValueFine;
  }

  lemma DriverStateGuarded(w: World, e: Endpoint, ks: KexState)
    requires Guarded(w, e) && (e.kx.sentnewkeys ==> ks == KEXDH_INIT_SENT)
    ensures Guarded(w, e.(kx := e.kx.(kexState := ks))) && IdOf((e.(kx := e.kx.(kexState := ks))).kx) == IdOf(e.kx)
  {
    hide Vouched, HashVouched, OwnTranscript, OwnProposal;
    assert IdOf(e.kx.(kexState := ks)) == IdOf(e.kx);
  }

  lemma TimeoutsGuarded(w: World, e: Endpoint, inp: Input)
    requires GoodWorld(w) && Guarded(w, e)
    ensures Guarded(w, CheckTimeouts(w, e, inp)) && IdOf((CheckTimeouts(w, e, inp)).kx) == IdOf(e.kx)
  {
    hide Guarded, GoodWorld, SendMsgKexinit, AppSend;
    var s1 := if !e.kx.sentkexinit && inp.due then SendMsgKexinit(w, e, inp.cookie) else e;
    if !e.kx.sentkexinit && inp.due { ProposalGuarded(w, e, inp.cookie); }
    var p := MsgApp(SSH_MSG_IGNORE, Bytes([0, 0, 0, 0]));
    SendAlike(s1, p);
    AlikeGuarded(w, s1, AppSend(s1, p));
  }

  lemma LoopAlike(e: Endpoint, ps: seq<Payload>, ph: Phase)
    ensures Alike(e, e.(phase := ph)) && Alike(e, MaybeFlushReplyQueue(e).(phase := ph)) && Alike(e, AppSendAll(e, ps).(phase := ph))
    ensures e.out.writequeue != [] ==> Alike(e, e.(out := e.out.(writequeue := e.out.writequeue[1..]), phase := ph))
  {
    hide AppSendAll, EncryptAll;
    SendAllAlike(e, ps);
    SendAllAlike(e, e.out.replyqueue);
  }

  lemma StepGuarded(w: World, e: Endpoint, arrived: seq<Wire>, inp: Input)
    requires GoodWorld(w) && Guarded(w, e)
    ensures Guarded(w, Step(w, e, arrived, inp).me) && IdOf((Step(w, e, arrived, inp).me).kx) == IdOf(e.kx)
  {
    hide Guarded, GoodWorld, Receive, CheckTimeouts, CliSessionLoop, MaybeFlushReplyQueue, AppSendAll;
    var m := Step(w, e, arrived, inp).me;
    LoopAlike(e, inp.packets, m.phase);
    if e.dead.Some? { return; }
    match e.phase
    case Timeouts => TimeoutsGuarded(w, e, inp); PhaseGuarded(w, CheckTimeouts(w, e, inp), m);
    case Writing => AlikeGuarded(w, e, m);
    case Reading =>
      if inp.go && arrived != [] && Receive(w, e, arrived[0], inp).Ok? {
        ReceiveGuarded(w, e, arrived[0], inp);
        PhaseGuarded(w, Receive(w, e, arrived[0], inp).value, m);
      } else { PhaseGuarded(w, e, m); }
    case Flushing => AlikeGuarded(w, e, m);
    case Channels => AlikeGuarded(w, e, m);
    case Handler =>
      if e.kx.role == Client && CliSessionLoop(w, e, inp).Ok? {
        DriverGuarded(w, e, inp);
        PhaseGuarded(w, CliSessionLoop(w, e, inp).value, m);
      } else { PhaseGuarded(w, e, m); }
  }

  lemma PhaseGuarded(w: World, e: Endpoint, m: Endpoint)
    requires Guarded(w, e) && m == e.(phase := m.phase, dead := m.dead)
    ensures Guarded(w, m) && IdOf((m).kx) == IdOf(e.kx)
  {
    hide Guarded;
    AlikeGuarded(w, e, m);
  }

  lemma StartGuarded(w: World, role: Role, c: Config, peer: seq<byte>, cookie: seq<byte>)
    requires GoodWorld(w)
    ensures Guarded(w, StartSession(w, role, c, peer, cookie)) && IdOf(StartSession(w, role, c, peer, cookie).kx) == Id(role, c, peer)
  {
    assert w.advertise(c) == OwnLists(c);
    hide GoodWorld, OwnLists;
  }

  /** Over every run of one end that faces any peer at all, sending any packets in any order: when
      the end has sent NEWKEYS, the hash it is about to make keys from is vouched for, a client
      having verified a signature over just that hash; so are the keys it transmits and receives
      with, and its session id. */
  lemma {:induction false} KeysVouched(w: World, role: Role, c: Config, peer: seq<byte>, cookie: seq<byte>, run: seq<Turn>)
    requires GoodWorld(w)
    ensures var e := Facing(w, StartSession(w, role, c, peer, cookie), run);
      && Guarded(w, e) && IdOf(e.kx) == Id(role, c, peer)
      && (e.kx.sentnewkeys ==> e.kx.dhK.Some? && Vouched(w, Id(role, c, peer), e.kx.dhK.value, e.kx.hash))
      && (e.out.trans.seed.Seed? ==> Vouched(w, Id(role, c, peer), e.out.trans.seed.k, e.out.trans.seed.hash))
      && (e.inc.recv.seed.Seed? ==> Vouched(w, Id(role, c, peer), e.inc.recv.seed.k, e.inc.recv.seed.hash))
      && (e.kx.sessionId.Some? ==> HashVouched(w, Id(role, c, peer), e.kx.sessionId.value))
    decreases |run|
  {
    hide GoodWorld, Step, StartSession, Vouched, HashVouched, ValueFine, OwnTranscript, OwnProposal;
    var e0 := StartSession(w, role, c, peer, cookie);
    if run == [] {
      StartGuarded(w, role, c, peer, cookie);
    } else {
      KeysVouched(w, role, c, peer, cookie, run[..|run| - 1]);
      var t := run[|run| - 1];
      StepGuarded(w, Facing(w, e0, run[..|run| - 1]), t.arrived, t.inp);
    }
  }
}
