/**
  The session as the program keeps it: one object whose fields the handlers of packet.c,
  common-kex.c, process-packet.c, cli-session.c, cli-kex.c and svr-kex.c update in place.
  Every method is proved to do to the fields what the function it names in Transport does
  to the value State(). A method that returns Some(reason) has called dropbear_exit, after
  which the fields no longer matter.
*/
module Session {
  import opened Wrappers
  import opened Bytes
  import opened NumberTheory
  import opened AlgoMatch
  import opened Transport
  import opened KeyDerivation
  import opened AnyPeer

  /** The key bytes held for a context are those that section 7.2 of RFC 4253 derives. */
  predicate Derived(w: World, d: Dir, m: Material) {
    d.seed.Seed? ==> m == KeyMaterial(w, d)
  }

  lemma DerivedRan(w: World, d: Dir, p: Payload, m: Material)
    ensures Derived(w, Ran(d, p), m) == Derived(w, d, m)
  {
  }

  class SshSession {
    const w: World
    var kx: Kex
    var out: Outgoing
    var inc: Incoming
    var transKeys: Material
    var recvKeys: Material
    var lastpacket: byte
    var authdone: bool

    ghost function State(): Endpoint
      reads this
    {
      Endpoint(kx, out, inc, lastpacket, authdone, Timeouts, None)
    }

    ghost predicate Valid()
      reads this
    {
      Derived(w, out.trans, transKeys) && Derived(w, inc.recv, recvKeys)
    }

    /** What a handler that can exit has done, given what the specification says. */
    ghost predicate Did(exit: Option<Reason>, spec: Outcome<Endpoint>)
      reads this
    {
      match spec
      case Ok(t) => exit.None? && State() == t && Valid()
      case Exit(r) => exit == Some(r)
    }

    /** common_session_init, the identification lines and the first send_msg_kexinit. */
    constructor (w: World, role: Role, cfg: Config, remoteident: seq<byte>, cookie: seq<byte>)
      ensures Valid()
      ensures State() == StartSession(w, role, cfg, remoteident, cookie)
      ensures this.w == w
    {
      this.w := w;
      kx := Kex(role, cfg, remoteident, 0, false, false, false, false, false, false,
                true, SSH_MSG_KEXINIT, false, KEX_NOTHING, None, None, None, None, None, None, [], None);
      out := Outgoing(NoKeys(), 0, [], [], [], false);
      inc := Incoming(NoKeys(), 0);
      transKeys, recvKeys := Material([], [], []), Material([], [], []);
      lastpacket, authdone := 0, false;
      new;
      SendKexinit(cookie);
    }

    // --------------------------------------------------------------- packet.c

    method EnqueueReplyPacket(p: Payload)
      modifies this`out
      ensures out == old(out).(replyqueue := old(out.replyqueue) + [p])
    {
      out := out.(replyqueue := out.replyqueue + [p]);
    }

    /** encrypt_packet. */
    method EncryptOrHold(p: Payload)
      requires Valid()
      modifies this`out
      ensures Valid() && State() == EncryptPacket(old(State()), p)
    {
      DerivedRan(w, out.trans, p, transKeys);
      if (!kx.dataallowed && !OkayKex(Type(p))) || kx.sentnewkeys {
        EnqueueReplyPacket(p);
        return;
      }
      var packet := Wire(p, out.transseq, out.trans);
      out := out.(trans := Ran(out.trans, p));
      out := out.(writequeue := out.writequeue + [packet]);
      out := out.(transseq := Next(out.transseq));
    }

    /** A packet of the application, recorded in the history of those produced. */
    method SendApplication(p: Payload)
      requires Valid()
      modifies this`out
      ensures Valid() && State() == AppSend(old(State()), p)
    {
      out := out.(produced := out.produced + [p], passed := out.passed || PassesHeld(kx, out.replyqueue, p));
      EncryptOrHold(p);
    }

    method SendApplications(ps: seq<Payload>)
      requires Valid()
      modifies this`out
      ensures Valid() && State() == AppSendAll(old(State()), ps)
    {
      var i := 0;
      while i < |ps|
        invariant 0 <= i <= |ps| && Valid()
        invariant AppSendAll(old(State()), ps) == AppSendAll(State(), ps[i..])
      {
        assert ps[i..][1..] == ps[i + 1..];
        SendApplication(ps[i]);
        i := i + 1;
      }
    }

    /** maybe_flush_reply_queue. The loop walks the queue that encrypt_packet could append to;
        it never does, so the walk ends and every held packet leaves once, in order. */
    method FlushReplyQueue()
      requires Valid() && (kx.dataallowed ==> !kx.sentnewkeys)
      modifies this`out
      ensures Valid() && State() == MaybeFlushReplyQueue(old(State()))
    {
      if !kx.dataallowed { return; }
      var i := 0;
      while i < |out.replyqueue|
        invariant 0 <= i <= |out.replyqueue| && out.replyqueue == old(out.replyqueue) && Valid()
        invariant EncryptAll(old(State()), out.replyqueue) == EncryptAll(State(), out.replyqueue[i..])
      {
        assert out.replyqueue[i..][1..] == out.replyqueue[i + 1..];
        EncryptOrHold(out.replyqueue[i]);
        i := i + 1;
      }
      out := out.(replyqueue := []);
    }

    // ---------------------------------------------------------- common-kex.c

    method SendKexinit(cookie: seq<byte>)
      requires Valid()
      modifies this`out, this`kx
      ensures Valid() && State() == SendMsgKexinit(w, old(State()), cookie)
    {
      var p := Proposal(cookie, w.advertise(kx.cfg), false);
      kx := kx.(transkexinit := Some(p));
      EncryptOrHold(MsgKexinit(p));
      kx := kx.(dataallowed := false);
      kx := kx.(sentkexinit := true);
    }

    method ReceiveKexinit(q: Proposal, cookie: seq<byte>) returns (exit: Option<Reason>)
      requires Valid()
      modifies this`out, this`kx
      ensures Did(exit, RecvMsgKexinit(w, old(State()), q, cookie))
    {
      if !kx.sentkexinit { SendKexinit(cookie); }
      if kx.transkexinit.None? { return Some(MissingState); }
      var own := kx.transkexinit.value;
      var chosen := w.negotiate(kx.role, kx.cfg, q.lists);
      if chosen.Exit? { return Some(chosen.reason); }
      var allgood := GoodGuess(kx.cfg.kex, q.lists.kex) && GoodGuess(kx.cfg.hostkeys, q.lists.hostkey);
      var firstfollows, ignorenext, requirenext := kx.firstfollows, kx.ignorenext, kx.requirenext;
      if q.follows {
        firstfollows := true;
        if !allgood { ignorenext := true; }
      }
      var hashed;
      if kx.role == Client {
        hashed := Transcript(kx.cfg.ident, kx.peerIdent, own, q);
      } else {
        hashed := Transcript(kx.peerIdent, kx.cfg.ident, q, own);
        requirenext := SSH_MSG_KEXDH_INIT;
      }
      kx := kx.(newkeys := Some(chosen.value), firstfollows := firstfollows, ignorenext := ignorenext,
                kexhashbuf := Some(hashed), requirenext := requirenext,
                transkexinit := None, recvkexinit := true);
      return None;
    }

    /** The bytes of the next contexts: both directions' are made from letters fixed by
        direction, then sorted into transmit and receive by role. */
    method DeriveKeys() returns (mt: Material, mr: Material)
      requires CanGenKeys(kx)
      ensures TransmitKeys(w, kx, mt) && ReceiveKeys(w, kx, mr)
      ensures Derived(w, FreshTrans(kx), mt) && Derived(w, FreshRecv(kx), mr)
    {
      hide HashKeys, TransmitKeys, ReceiveKeys;
      var nk, sid := kx.newkeys.value, kx.sessionId.value;
      var hs := Mpint(kx.dhK.value) + kx.hash;
      var client := kx.role == Client;
      var c2sKeysize := if client then w.cipherKeySize(nk.transCipher) else w.cipherKeySize(nk.recvCipher);
      var s2cKeysize := if client then w.cipherKeySize(nk.recvCipher) else w.cipherKeySize(nk.transCipher);
      var c2sIv := HashKeys(w, hs, 65, sid, SHA1_HASH_SIZE);
      var s2cIv := HashKeys(w, hs, 66, sid, SHA1_HASH_SIZE);
      var c2sKey := HashKeys(w, hs, 67, sid, c2sKeysize);
      var s2cKey := HashKeys(w, hs, 68, sid, s2cKeysize);
      var mactransletter: byte := if client then 69 else 70;
      var macrecvletter: byte := if client then 70 else 69;
      var transMac := HashKeys(w, hs, mactransletter, sid, w.macKeySize(nk.transMac));
      var recvMac := HashKeys(w, hs, macrecvletter, sid, w.macKeySize(nk.recvMac));
      if client {
        mt, mr := Material(c2sIv, c2sKey, transMac), Material(s2cIv, s2cKey, recvMac);
      } else {
        mt, mr := Material(s2cIv, s2cKey, transMac), Material(c2sIv, c2sKey, recvMac);
      }
      FreshMaterialIs(w, kx);
    }

    /** gen_new_keys. */
    method GenNewKeys()
      requires CanGenKeys(kx)
      modifies this`kx, this`out, this`inc, this`transKeys, this`recvKeys
      ensures Valid()
      ensures out == old(out).(trans := FreshTrans(old(kx))) && inc == old(inc).(recv := FreshRecv(old(kx)))
      ensures kx == old(kx).(epoch := old(kx.epoch) + 1, newkeys := None, dhK := None, hash := [])
      ensures TransmitKeys(w, old(kx), transKeys) && ReceiveKeys(w, old(kx), recvKeys)
    {
      hide Derived, TransmitKeys, ReceiveKeys;
      transKeys, recvKeys := DeriveKeys();
      out := out.(trans := FreshTrans(kx));
      inc := inc.(recv := FreshRecv(kx));
      kx := kx.(epoch := kx.epoch + 1, newkeys := None, dhK := None, hash := []);
    }

    method KexInitialise()
      modifies this`kx
      ensures kx == old(kx).(sentkexinit := false, recvkexinit := false, sentnewkeys := false,
                             recvnewkeys := false, firstfollows := false)
    {
      kx := kx.(sentkexinit := false, recvkexinit := false);
      kx := kx.(recvnewkeys := false, sentnewkeys := false);
      kx := kx.(firstfollows := false);
    }

    /** What sending and receiving NEWKEYS do last. */
    method Finish() returns (exit: Option<Reason>)
      requires Valid()
      modifies this
      ensures Did(exit, FinishKex(old(State())))
    {
      hide TransmitKeys, ReceiveKeys, FreshTrans, FreshRecv, Derived;
      if !CanGenKeys(kx) { return Some(MissingState); }
      GenNewKeys();
      KexInitialise();
      kx := kx.(dataallowed := true, donefirstkex := true);
      return None;
    }

    method SendNewkeys() returns (exit: Option<Reason>)
      requires Valid()
      modifies this
      ensures Did(exit, SendMsgNewkeys(old(State())))
    {
      EncryptOrHold(MsgNewkeys);
      if kx.recvnewkeys {
        exit := Finish();
      } else {
        kx := kx.(sentnewkeys := true);
        exit := None;
      }
    }

    method ReceiveNewkeys() returns (exit: Option<Reason>)
      requires Valid()
      modifies this
      ensures Did(exit, RecvMsgNewkeys(old(State())))
    {
      if kx.sentnewkeys {
        exit := Finish();
      } else {
        kx := kx.(recvnewkeys := true);
        exit := None;
      }
    }

    /** kexdh_comb_key. */
    method CombineKey(us: nat, priv: nat, them: nat, hostkey: seq<byte>) returns (exit: Option<Reason>)
      modifies this`kx
      ensures match KexdhCombKey(w, old(kx), us, priv, them, hostkey)
              case Ok(k) => exit.None? && kx == k
              case Exit(r) => exit == Some(r)
    {
      if kx.newkeys.None? || kx.kexhashbuf.None? { return Some(MissingState); }
      var p := w.prime(kx.newkeys.value.kex);
      if them >= p || them == 0 { return Some(DhError); }
      var secret := w.exptmod(them, priv, p);
      var e, f := us, them;
      if kx.role != Client { e, f := them, us; }
      var h := w.xhash(kx.kexhashbuf.value, hostkey, e, f, secret);
      var id := kx.sessionId;
      if id.None? { id := Some(h); }
      kx := kx.(dhK := Some(secret), hash := h, kexhashbuf := None, sessionId := id);
      return None;
    }

    // ------------------------------------------------- cli-kex.c, svr-kex.c

    method SendKexdhInit(x: nat) returns (exit: Option<Reason>)
      requires Valid()
      modifies this`kx, this`out
      ensures Did(exit, SendMsgKexdhInit(w, old(State()), x))
    {
      if kx.newkeys.None? { return Some(MissingState); }
      var e := w.exptmod(DH_G_VAL, x, w.prime(kx.newkeys.value.kex));
      EncryptOrHold(MsgKexdhInit(e));
      kx := kx.(dhE := Some(e), dhX := Some(x));
      kx := kx.(requirenext := SSH_MSG_KEXDH_REPLY);
      return None;
    }

    /** NEWKEYS goes out, and the peer's is the next packet. */
    ghost function Switched(s: Endpoint): Outcome<Endpoint> {
      var t :- SendMsgNewkeys(s);
      Ok(t.(kx := t.kx.(requirenext := SSH_MSG_NEWKEYS)))
    }

    method SwitchKeys() returns (exit: Option<Reason>)
      requires Valid()
      modifies this
      ensures Did(exit, Switched(old(State())))
    {
      hide SendMsgNewkeys;
      exit := SendNewkeys();
      if exit.None? { kx := kx.(requirenext := SSH_MSG_NEWKEYS); }
    }

    method ReceiveKexdhReply(hostkey: seq<byte>, f: nat, sig: seq<byte>, accept: bool) returns (exit: Option<Reason>)
      requires Valid()
      modifies this
      ensures Did(exit, RecvMsgKexdhReply(w, old(State()), hostkey, f, sig, accept))
      ensures GoodWorld(w) && old(kx).role == Client ==> (exit.None? <==> ReplyAcceptable(w, old(kx), hostkey, f, sig, accept))
    {
      ReplyDecided(w, State(), hostkey, f, sig, accept);
      hide ReplyAcceptable, GoodWorld, KexdhCombKey, Derived, SendMsgNewkeys;
      if kx.kexState != KEXDH_INIT_SENT { return Some(OutOfOrderReply); }
      if kx.newkeys.None? || kx.dhE.None? || kx.dhX.None? { return Some(MissingState); }
      if !kx.donefirstkex && !accept { return Some(HostKeyRejected); }
      if w.keyType(hostkey) != kx.newkeys.value.hostkey { return Some(BadKexPacket); }
      exit := CombineKey(kx.dhE.value, kx.dhX.value, f, hostkey);
      if exit.Some? { return; }
      kx := kx.(dhE := None, dhX := None);
      if !w.verify(hostkey, kx.hash, sig) { return Some(BadSignature); }
      exit := SwitchKeys();
    }

    method ReceiveKexdhInit(e: nat, y: nat, nonce: nat) returns (exit: Option<Reason>)
      requires Valid()
      modifies this
      ensures Did(exit, RecvMsgKexdhInit(w, old(State()), e, y, nonce))
      ensures GoodWorld(w) && old(kx).role == Server ==> (exit.None? <==> InitAcceptable(old(kx), e))
    {
      InitDecided(w, State(), e, y, nonce);
      hide InitAcceptable, GoodWorld, KexdhCombKey, Derived, SendMsgNewkeys;
      if !kx.recvkexinit { return Some(PrematureKexdhInit); }
      if kx.newkeys.None? { return Some(MissingState); }
      var name := kx.newkeys.value.hostkey;
      var f := w.exptmod(DH_G_VAL, y, w.prime(kx.newkeys.value.kex));
      exit := CombineKey(f, y, e, w.hostPub(name));
      if exit.Some? { return; }
      EncryptOrHold(MsgKexdhReply(w.hostPub(name), f, w.sign(name, kx.hash, nonce)));
      exit := SwitchKeys();
    }

    // ---------------------------------------------------- process-packet.c

    method SendUnimplemented()
      requires Valid()
      modifies this`out
      ensures Valid() && State() == RecvUnimplemented(old(State()))
    {
      SendApplication(MsgApp(SSH_MSG_UNIMPLEMENTED, SequenceNumber(Previous(inc.recvseq))));
    }

    method Handle(p: Payload, inp: Input) returns (exit: Option<Reason>)
      requires Valid()
      modifies this
      ensures Did(exit, Dispatch(w, old(State()), p, inp))
    {
      exit := None;
      match p
      case MsgKexinit(q) => exit := ReceiveKexinit(q, inp.cookie);
      case MsgNewkeys => exit := ReceiveNewkeys();
      case MsgKexdhInit(e) =>
        if kx.role == Server { exit := ReceiveKexdhInit(e, inp.secret, inp.nonce); } else { SendUnimplemented(); }
      case MsgKexdhReply(h, f, sig) =>
        if kx.role == Client { exit := ReceiveKexdhReply(h, f, sig, inp.accept); } else { SendUnimplemented(); }
      case MsgApp(t, _) =>
        if !Handled(kx.role, t) {
          SendUnimplemented();
        } else if inp.handlerExit {
          exit := Some(HandlerExit);
        } else {
          authdone := authdone || inp.authdone;
          SendApplications(inp.packets);
        }
    }

    method Process(p: Payload, inp: Input) returns (exit: Option<Reason>)
      requires Valid()
      modifies this
      ensures Did(exit, ProcessPacket(w, old(State()), p, inp))
    {
      hide Dispatch, Derived, Type;
      var t := Type(p);
      lastpacket := t;
      if t == SSH_MSG_IGNORE || t == SSH_MSG_DEBUG { return None; }
      if t == SSH_MSG_UNIMPLEMENTED { return Some(UnimplementedReceived); }
      if t == SSH_MSG_DISCONNECT { return Some(DisconnectReceived); }
      if kx.requirenext != 0 {
        if kx.requirenext != t { return Some(UnexpectedPacket); }
      }
      if kx.ignorenext {
        kx := kx.(requirenext := 0, ignorenext := false);
        return None;
      }
      kx := kx.(requirenext := 0);
      if !authdone && t > MAX_UNAUTH_PACKET_TYPE { return Some(BeforeUserauth); }
      exit := Handle(p, inp);
    }

    /** decrypt_packet, then process_packet. */
    method ReceivePacket(m: Wire, inp: Input) returns (exit: Option<Reason>)
      requires Valid()
      modifies this
      ensures Did(exit, Receive(w, old(State()), m, inp))
    {
      if m.seqno != inc.recvseq || m.dir != inc.recv { return Some(IntegrityError); }
      DerivedRan(w, inc.recv, m.payload, recvKeys);
      inc := Incoming(Ran(inc.recv, m.payload), Next(inc.recvseq));
      exit := Process(m.payload, inp);
    }

    // ------------------------------------- common-session.c, cli-session.c

    method TimeoutsDue(inp: Input)
      requires Valid()
      modifies this`kx, this`out
      ensures Valid() && State() == CheckTimeouts(w, old(State()), inp)
    {
      if !kx.sentkexinit && inp.due { SendKexinit(inp.cookie); }
      if inp.keepalive { SendApplication(MsgApp(SSH_MSG_IGNORE, Bytes([0, 0, 0, 0]))); }
    }

    method ClientLoop(inp: Input) returns (exit: Option<Reason>)
      requires Valid()
      modifies this`kx, this`out
      ensures Did(exit, CliSessionLoop(w, old(State()), inp))
    {
      var start := lastpacket == SSH_MSG_KEXINIT && kx.kexState == KEX_NOTHING;
      if start || kx.kexState == KEXINIT_RCVD {
        exit := SendKexdhInit(inp.secret);
        if exit.None? { kx := kx.(kexState := KEXDH_INIT_SENT); }
        return;
      }
      if kx.kexState != KEX_NOTHING && !kx.recvkexinit && !kx.sentkexinit { kx := kx.(kexState := KEX_NOTHING); }
      if kx.kexState != KEX_NOTHING || !kx.donefirstkex { return None; }
      SendApplications(inp.packets);
      return None;
    }
  }
}
