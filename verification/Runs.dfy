/**
  Safety of key exchange and packet protection over every run of a Dropbear client
  and a Dropbear server.
*/
module Runs {
  import opened Wrappers
  import opened Bytes
  import opened NumberTheory
  import opened AlgoMatch
  import opened Transport
  import opened Network
  import opened Agreement

  predicate GoodDeal(w: World, g: Deal) {
    && g == MakeDeal(w, g.cc, g.sc)
    && (g.forC.Ok? <==> g.forS.Ok?)
    && (g.forC.Ok? ==> MirrorKeys(g.forC.value, g.forS.value))
  }

  /** The exits that the environment can bring about. No other exit is reachable. */
  predicate Excusable(r: Reason) {
    r == HostKeyRejected || r == NoMatchingAlgo || r == UnimplementedReceived
    || r == DisconnectReceived || r == BeforeUserauth || r == HandlerExit
  }

  predicate AliveOrExcused(e: Endpoint) {
    e.dead.Some? ==> Excusable(e.dead.value)
  }

  predicate NetInv(w: World, g: Deal, n: Net) {
    Inv(w, g, n.c, n.s, FlightC(n), FlightS(n))
  }

  lemma FlightTail(a: seq<Wire>, b: seq<Wire>)
    requires a != []
    ensures (a + b)[0] == a[0] && a[1..] + b == (a + b)[1..]
  {
  }

  lemma FlightAppend(a: seq<Wire>, b: seq<Wire>, x: Wire)
    ensures a + (b + [x]) == (a + b) + [x]
  {
  }

  // ---------------------------------------------------------- sending batches

  lemma AppSendC(w: World, g: Deal, n: Net, p: Payload)
    requires NetInv(w, g, n) && AppPayload(p)
    ensures NetInv(w, g, n.(c := AppSend(n.c, p)))
  {
    var c := Recorded(n.c, p);
    assert Inv(w, g, c, n.s, FlightC(n), FlightS(n));
    AppSentC(w, g, c, n.s, FlightC(n), FlightS(n), p);
    if !MustHold(c.kx, p) {
      FlightAppend(n.toS, n.c.out.writequeue, Sealed(c, p));
    }
  }

  lemma AppSendS(w: World, g: Deal, n: Net, p: Payload)
    requires NetInv(w, g, n) && AppPayload(p)
    ensures NetInv(w, g, n.(s := AppSend(n.s, p)))
  {
    var s := Recorded(n.s, p);
    assert Inv(w, g, n.c, s, FlightC(n), FlightS(n));
    AppSentS(w, g, n.c, s, FlightC(n), FlightS(n), p);
    if !MustHold(s.kx, p) {
      FlightAppend(n.toC, n.s.out.writequeue, Sealed(s, p));
    }
  }

  lemma {:induction false} AppSendAllC(w: World, g: Deal, n: Net, ps: seq<Payload>)
    requires NetInv(w, g, n) && forall i :: 0 <= i < |ps| ==> AppPayload(ps[i])
    ensures NetInv(w, g, n.(c := AppSendAll(n.c, ps))) && Untouched(n.c, AppSendAll(n.c, ps))
    decreases |ps|
  {
    if ps != [] {
      AppSendC(w, g, n, ps[0]);
      AppSendAllC(w, g, n.(c := AppSend(n.c, ps[0])), ps[1..]);
    }
  }

  lemma {:induction false} AppSendAllS(w: World, g: Deal, n: Net, ps: seq<Payload>)
    requires NetInv(w, g, n) && forall i :: 0 <= i < |ps| ==> AppPayload(ps[i])
    ensures NetInv(w, g, n.(s := AppSendAll(n.s, ps))) && Untouched(n.s, AppSendAll(n.s, ps))
    decreases |ps|
  {
    if ps != [] {
      AppSendS(w, g, n, ps[0]);
      AppSendAllS(w, g, n.(s := AppSend(n.s, ps[0])), ps[1..]);
    }
  }

  /** Sending leaves everything but the transmit side alone. */
  predicate Untouched(e: Endpoint, e': Endpoint) {
    e'.kx == e.kx && e'.inc == e.inc && e'.phase == e.phase && e'.dead == e.dead
  }

  /** With data allowed, flushing sends every held packet and holds none back. */
  lemma {:induction false} EncryptAllSends(e: Endpoint, ps: seq<Payload>)
    requires e.kx.dataallowed && !e.kx.sentnewkeys
    ensures var e' := EncryptAll(e, ps);
      Untouched(e, e') && e'.out.replyqueue == e.out.replyqueue && e'.out.produced == e.out.produced
    decreases |ps|
  {
    if ps != [] { EncryptAllSends(EncryptPacket(e, ps[0]), ps[1..]); }
  }

  lemma {:induction false} EncryptAllC(w: World, g: Deal, n: Net, ps: seq<Payload>)
    requires NetInv(w, g, n) && forall i :: 0 <= i < |ps| ==> AppPayload(ps[i])
    ensures NetInv(w, g, n.(c := EncryptAll(n.c, ps)))
    decreases |ps|
  {
    if ps != [] {
      AppSentC(w, g, n.c, n.s, FlightC(n), FlightS(n), ps[0]);
      var n1 := n.(c := EncryptPacket(n.c, ps[0]));
      if !MustHold(n.c.kx, ps[0]) { FlightAppend(n.toS, n.c.out.writequeue, Sealed(n.c, ps[0])); }
      EncryptAllC(w, g, n1, ps[1..]);
    }
  }

  lemma {:induction false} EncryptAllS(w: World, g: Deal, n: Net, ps: seq<Payload>)
    requires NetInv(w, g, n) && forall i :: 0 <= i < |ps| ==> AppPayload(ps[i])
    ensures NetInv(w, g, n.(s := EncryptAll(n.s, ps)))
    decreases |ps|
  {
    if ps != [] {
      AppSentS(w, g, n.c, n.s, FlightC(n), FlightS(n), ps[0]);
      var n1 := n.(s := EncryptPacket(n.s, ps[0]));
      if !MustHold(n.s.kx, ps[0]) { FlightAppend(n.toC, n.s.out.writequeue, Sealed(n.s, ps[0])); }
      EncryptAllS(w, g, n1, ps[1..]);
    }
  }

  lemma FlushC(w: World, g: Deal, n: Net)
    requires NetInv(w, g, n) && n.c.phase == Flushing
    ensures NetInv(w, g, n.(c := MaybeFlushReplyQueue(n.c).(phase := Channels)))
    ensures MaybeFlushReplyQueue(n.c).dead == n.c.dead
  {
    if n.c.kx.dataallowed {
      EncryptAllC(w, g, n, n.c.out.replyqueue);
      EncryptAllSends(n.c, n.c.out.replyqueue);
    }
  }

  lemma FlushS(w: World, g: Deal, n: Net)
    requires NetInv(w, g, n) && n.s.phase == Flushing
    ensures NetInv(w, g, n.(s := MaybeFlushReplyQueue(n.s).(phase := Channels)))
    ensures MaybeFlushReplyQueue(n.s).dead == n.s.dead
  {
    if n.s.kx.dataallowed {
      EncryptAllS(w, g, n, n.s.out.replyqueue);
      EncryptAllSends(n.s, n.s.out.replyqueue);
    }
  }

  // ------------------------------------------------------------ starting a rekey

  lemma StartRekeyC(w: World, g: Deal, n: Net, cookie: seq<byte>)
    requires NetInv(w, g, n) && GoodDeal(w, g)
    requires PosOf(n.c.kx) == Idle && n.c.kx.kexState == KEX_NOTHING && n.c.phase != Flushing
    ensures NetInv(w, g, n.(c := SendMsgKexinit(w, n.c, cookie)))
  {
    var q := Proposal(cookie, g.listsC, false);
    KexinitSentC(w, g, n.c, n.s, FlightC(n), FlightS(n), q);
    FlightAppend(n.toS, n.c.out.writequeue, Sealed(n.c, MsgKexinit(q)));
  }

  lemma StartRekeyS(w: World, g: Deal, n: Net, cookie: seq<byte>)
    requires NetInv(w, g, n) && GoodDeal(w, g)
    requires PosOf(n.s.kx) == Idle && n.s.phase != Flushing
    ensures NetInv(w, g, n.(s := SendMsgKexinit(w, n.s, cookie)))
  {
    var q := Proposal(cookie, g.listsS, false);
    KexinitSentS(w, g, n.c, n.s, FlightC(n), FlightS(n), q);
    FlightAppend(n.toC, n.s.out.writequeue, Sealed(n.s, MsgKexinit(q)));
  }

  /** Moving on to the next phase of the loop. */
  lemma PhaseC(w: World, g: Deal, n: Net, ph: Phase)
    requires NetInv(w, g, n) && DriverOK(n.c.kx, n.c.lastpacket, ph)
    requires n.c.kx.dataallowed && ph != Flushing ==> n.c.out.replyqueue == []
    ensures NetInv(w, g, n.(c := n.c.(phase := ph)))
  {
  }

  lemma PhaseS(w: World, g: Deal, n: Net, ph: Phase)
    requires NetInv(w, g, n)
    requires n.s.kx.dataallowed && ph != Flushing ==> n.s.out.replyqueue == []
    ensures NetInv(w, g, n.(s := n.s.(phase := ph)))
  {
  }

  lemma KeepaliveC(w: World, g: Deal, n: Net, p: Payload)
    requires NetInv(w, g, n) && n.c.phase == Timeouts && AppPayload(p)
    ensures NetInv(w, g, n.(c := AppSend(n.c, p).(phase := Writing)))
  {
    AppSendC(w, g, n, p);
    PhaseC(w, g, n.(c := AppSend(n.c, p)), Writing);
  }

  lemma KeepaliveS(w: World, g: Deal, n: Net, p: Payload)
    requires NetInv(w, g, n) && n.s.phase == Timeouts && AppPayload(p)
    ensures NetInv(w, g, n.(s := AppSend(n.s, p).(phase := Writing)))
  {
    AppSendS(w, g, n, p);
    PhaseS(w, g, n.(s := AppSend(n.s, p)), Writing);
  }

  lemma TimeoutsC(w: World, g: Deal, n: Net, inp: Input)
    requires NetInv(w, g, n) && GoodDeal(w, g) && n.c.phase == Timeouts
    ensures NetInv(w, g, n.(c := CheckTimeouts(w, n.c, inp).(phase := Writing)))
    ensures CheckTimeouts(w, n.c, inp).dead == n.c.dead
  {
    var p := MsgApp(SSH_MSG_IGNORE, Bytes([0, 0, 0, 0]));
    if !n.c.kx.sentkexinit && inp.due {
      StartRekeyC(w, g, n, inp.cookie);
      var n1 := n.(c := SendMsgKexinit(w, n.c, inp.cookie));
      if inp.keepalive { KeepaliveC(w, g, n1, p); } else { PhaseC(w, g, n1, Writing); }
    } else {
      if inp.keepalive { KeepaliveC(w, g, n, p); } else { PhaseC(w, g, n, Writing); }
    }
  }

  lemma TimeoutsS(w: World, g: Deal, n: Net, inp: Input)
    requires NetInv(w, g, n) && GoodDeal(w, g) && n.s.phase == Timeouts
    ensures NetInv(w, g, n.(s := CheckTimeouts(w, n.s, inp).(phase := Writing)))
    ensures CheckTimeouts(w, n.s, inp).dead == n.s.dead
  {
    var p := MsgApp(SSH_MSG_IGNORE, Bytes([0, 0, 0, 0]));
    if !n.s.kx.sentkexinit && inp.due {
      StartRekeyS(w, g, n, inp.cookie);
      var n1 := n.(s := SendMsgKexinit(w, n.s, inp.cookie));
      if inp.keepalive { KeepaliveS(w, g, n1, p); } else { PhaseS(w, g, n1, Writing); }
    } else {
      if inp.keepalive { KeepaliveS(w, g, n, p); } else { PhaseS(w, g, n, Writing); }
    }
  }

  // ---------------------------------------------------------- receiving packets

  /** What receiving an application packet amounts to when it opens and is not out of place. */
  lemma ReceiveAppIs(w: World, e: Endpoint, m: Wire, inp: Input)
    requires AppPayload(m.payload) && m.dir == e.inc.recv && m.seqno == e.inc.recvseq && !e.kx.ignorenext
    requires OkayKex(m.payload.kind) || e.kx.requirenext == 0
    ensures var t := m.payload.kind;
      var e1 := e.(lastpacket := t, inc := Opened(e.inc, m.payload));
      match Receive(w, e, m, inp)
      case Exit(r) => Excusable(r)
      case Ok(e') =>
        e' == if t == SSH_MSG_IGNORE || t == SSH_MSG_DEBUG then e1
              else if Handled(e.kx.role, t) then AppSendAll(e1.(authdone := e1.authdone || inp.authdone), inp.packets)
              else RecvUnimplemented(e1)
  {
  }

  /** Opening an application packet. */
  lemma OpenAppC(w: World, g: Deal, n: Net)
    requires NetInv(w, g, n) && n.c.phase == Reading && n.toC != [] && AppPayload(n.toC[0].payload)
    ensures NetInv(w, g, OpenedByC(n))
    ensures n.toC[0].dir == n.c.inc.recv && n.toC[0].seqno == n.c.inc.recvseq
    ensures OkayKex(n.toC[0].payload.kind) || n.c.kx.requirenext == 0
  {
    HeadOpens(n.s, n.c, FlightS(n));
    AppOpenedC(w, g, n.c, n.s, FlightC(n), FlightS(n));
    FlightTail(n.toC, n.s.out.writequeue);
  }

  function OpenedByC(n: Net): Net
    requires n.toC != [] && n.toC[0].payload.MsgApp?
  {
    n.(c := n.c.(lastpacket := n.toC[0].payload.kind, inc := Opened(n.c.inc, n.toC[0].payload)), toC := n.toC[1..])
  }

  lemma RepliedC(w: World, g: Deal, n: Net, auth: bool, ps: seq<Payload>)
    requires NetInv(w, g, n) && n.c.phase == Reading && forall i :: 0 <= i < |ps| ==> AppPayload(ps[i])
    ensures NetInv(w, g, n.(c := AppSendAll(n.c.(authdone := auth), ps).(phase := Flushing)))
    ensures AppSendAll(n.c.(authdone := auth), ps).dead == n.c.dead
  {
    var n1 := n.(c := n.c.(authdone := auth));
    AppSendAllC(w, g, n1, ps);
    PhaseC(w, g, n1.(c := AppSendAll(n1.c, ps)), Flushing);
  }

  lemma UnimplementedC(w: World, g: Deal, n: Net)
    requires NetInv(w, g, n) && n.c.phase == Reading
    ensures NetInv(w, g, n.(c := RecvUnimplemented(n.c).(phase := Flushing)))
    ensures RecvUnimplemented(n.c).dead == n.c.dead
  {
    var p := MsgApp(SSH_MSG_UNIMPLEMENTED, SequenceNumber(Previous(n.c.inc.recvseq)));
    AppSendC(w, g, n, p);
    PhaseC(w, g, n.(c := AppSend(n.c, p)), Flushing);
  }

  lemma ReceiveAppC(w: World, g: Deal, n: Net, inp: Input)
    requires NetInv(w, g, n) && n.c.phase == Reading && GoodInput(inp)
    requires n.toC != [] && AppPayload(n.toC[0].payload)
    ensures match Receive(w, n.c, n.toC[0], inp)
      case Ok(e) => e.dead == n.c.dead && NetInv(w, g, n.(c := e.(phase := Flushing), toC := n.toC[1..]))
      case Exit(r) => Excusable(r)
  {
    OpenAppC(w, g, n);
    var n1 := OpenedByC(n);
    var t := n.toC[0].payload.kind;
    ReceiveAppIs(w, n.c, n.toC[0], inp);
    if t == SSH_MSG_IGNORE || t == SSH_MSG_DEBUG {
      PhaseC(w, g, n1, Flushing);
    } else if Handled(n.c.kx.role, t) {
      RepliedC(w, g, n1, n1.c.authdone || inp.authdone, inp.packets);
    } else {
      UnimplementedC(w, g, n1);
    }
  }

  lemma OpenAppS(w: World, g: Deal, n: Net)
    requires NetInv(w, g, n) && n.s.phase == Reading && n.toS != [] && AppPayload(n.toS[0].payload)
    ensures NetInv(w, g, OpenedByS(n))
    ensures n.toS[0].dir == n.s.inc.recv && n.toS[0].seqno == n.s.inc.recvseq
    ensures OkayKex(n.toS[0].payload.kind) || n.s.kx.requirenext == 0
  {
    HeadOpens(n.c, n.s, FlightC(n));
    AppOpenedS(w, g, n.c, n.s, FlightC(n), FlightS(n));
    FlightTail(n.toS, n.c.out.writequeue);
  }

  function OpenedByS(n: Net): Net
    requires n.toS != [] && n.toS[0].payload.MsgApp?
  {
    n.(s := n.s.(lastpacket := n.toS[0].payload.kind, inc := Opened(n.s.inc, n.toS[0].payload)), toS := n.toS[1..])
  }

  lemma RepliedS(w: World, g: Deal, n: Net, auth: bool, ps: seq<Payload>)
    requires NetInv(w, g, n) && n.s.phase == Reading && forall i :: 0 <= i < |ps| ==> AppPayload(ps[i])
    ensures NetInv(w, g, n.(s := AppSendAll(n.s.(authdone := auth), ps).(phase := Flushing)))
    ensures AppSendAll(n.s.(authdone := auth), ps).dead == n.s.dead
  {
    var n1 := n.(s := n.s.(authdone := auth));
    AppSendAllS(w, g, n1, ps);
    PhaseS(w, g, n1.(s := AppSendAll(n1.s, ps)), Flushing);
  }

  lemma UnimplementedS(w: World, g: Deal, n: Net)
    requires NetInv(w, g, n) && n.s.phase == Reading
    ensures NetInv(w, g, n.(s := RecvUnimplemented(n.s).(phase := Flushing)))
    ensures RecvUnimplemented(n.s).dead == n.s.dead
  {
    var p := MsgApp(SSH_MSG_UNIMPLEMENTED, SequenceNumber(Previous(n.s.inc.recvseq)));
    AppSendS(w, g, n, p);
    PhaseS(w, g, n.(s := AppSend(n.s, p)), Flushing);
  }

  lemma ReceiveAppS(w: World, g: Deal, n: Net, inp: Input)
    requires NetInv(w, g, n) && n.s.phase == Reading && GoodInput(inp)
    requires n.toS != [] && AppPayload(n.toS[0].payload)
    ensures match Receive(w, n.s, n.toS[0], inp)
      case Ok(e) => e.dead == n.s.dead && NetInv(w, g, n.(s := e.(phase := Flushing), toS := n.toS[1..]))
      case Exit(r) => Excusable(r)
  {
    OpenAppS(w, g, n);
    var n1 := OpenedByS(n);
    var t := n.toS[0].payload.kind;
    ReceiveAppIs(w, n.s, n.toS[0], inp);
    if t == SSH_MSG_IGNORE || t == SSH_MSG_DEBUG {
      PhaseS(w, g, n1, Flushing);
    } else if Handled(n.s.kx.role, t) {
      RepliedS(w, g, n1, n1.s.authdone || inp.authdone, inp.packets);
    } else {
      UnimplementedS(w, g, n1);
    }
  }

  // ---------------------------------------------- receiving key exchange messages

  /** What recv_msg_kexinit amounts to once our own KEXINIT is out. */
  lemma TakeKexinitC(w: World, g: Deal, e: Endpoint, q: Proposal, cookie: seq<byte>)
    requires GoodDeal(w, g) && e.kx.role == Client && e.kx.cfg == g.cc && e.kx.peerIdent == g.sc.ident
    requires q.lists == g.listsS && !q.follows && e.kx.sentkexinit && e.kx.transkexinit.Some?
    ensures RecvMsgKexinit(w, e.(kx := e.kx.(requirenext := 0)), q, cookie) == match g.forC
      case Exit(r) => Exit(r)
      case Ok(_) => Ok(e.(kx := KexinitOpenedC(g, e.kx, q)))
  {
  }

  /** What recv_msg_kexinit amounts to once our own KEXINIT is out. */
  lemma TakeKexinitS(w: World, g: Deal, e: Endpoint, q: Proposal, cookie: seq<byte>)
    requires GoodDeal(w, g) && e.kx.role == Server && e.kx.cfg == g.sc && e.kx.peerIdent == g.cc.ident
    requires q.lists == g.listsC && !q.follows && e.kx.sentkexinit && e.kx.transkexinit.Some?
    ensures RecvMsgKexinit(w, e.(kx := e.kx.(requirenext := 0)), q, cookie) == match g.forS
      case Exit(r) => Exit(r)
      case Ok(_) => Ok(e.(kx := KexinitOpenedS(g, e.kx, q)))
  {
  }

  /** process_packet hands KEXINIT to recv_msg_kexinit. */
  lemma ReceiveKexinitIs(w: World, e: Endpoint, m: Wire, inp: Input)
    requires m.payload.MsgKexinit? && m.dir == e.inc.recv && m.seqno == e.inc.recvseq && !e.kx.ignorenext
    requires e.kx.requirenext == 0 || e.kx.requirenext == SSH_MSG_KEXINIT
    ensures var e0 := e.(lastpacket := SSH_MSG_KEXINIT, inc := Opened(e.inc, m.payload));
      Receive(w, e, m, inp) == RecvMsgKexinit(w, e0.(kx := e0.kx.(requirenext := 0)), m.payload.proposal, inp.cookie)
  {
  }

  /** Receiving KEXINIT before having sent ours is sending ours and then receiving. */
  lemma KexinitAnswered(w: World, e: Endpoint, q: Proposal, cookie: seq<byte>)
    requires !e.kx.sentkexinit
    ensures RecvMsgKexinit(w, e, q, cookie) == RecvMsgKexinit(w, SendMsgKexinit(w, e, cookie), q, cookie)
  {
  }

  lemma KexinitTakenC(w: World, g: Deal, n: Net)
    requires NetInv(w, g, n) && g.forC.Ok? && PosOf(n.c.kx) == Sent && n.toC != [] && n.toC[0].payload.MsgKexinit?
    ensures NetInv(w, g, n.(c := n.c.(kx := KexinitOpenedC(g, n.c.kx, n.toC[0].payload.proposal),
                                      inc := Opened(n.c.inc, n.toC[0].payload),
                                      lastpacket := SSH_MSG_KEXINIT, phase := Flushing),
                            toC := n.toC[1..]))
  {
    KexinitRecvC(w, g, n.c, n.s, FlightC(n), FlightS(n), n.toC[0].payload.proposal);
    FlightTail(n.toC, n.s.out.writequeue);
  }

  lemma KexinitTakenS(w: World, g: Deal, n: Net)
    requires NetInv(w, g, n) && g.forS.Ok? && PosOf(n.s.kx) == Sent && n.toS != [] && n.toS[0].payload.MsgKexinit?
    ensures NetInv(w, g, n.(s := n.s.(kx := KexinitOpenedS(g, n.s.kx, n.toS[0].payload.proposal),
                                      inc := Opened(n.s.inc, n.toS[0].payload),
                                      lastpacket := SSH_MSG_KEXINIT, phase := Flushing),
                            toS := n.toS[1..]))
  {
    KexinitRecvS(w, g, n.c, n.s, FlightC(n), FlightS(n), n.toS[0].payload.proposal);
    FlightTail(n.toS, n.c.out.writequeue);
  }

  /** A KEXINIT at the head finds this end before or after its own KEXINIT. */
  lemma HeadKexinitC(w: World, g: Deal, n: Net)
    requires NetInv(w, g, n) && n.toC != [] && n.toC[0].payload.MsgKexinit?
    ensures PosOf(n.c.kx) == Idle || PosOf(n.c.kx) == Sent
    ensures PosOf(n.c.kx) == Idle ==> n.c.kx.requirenext == 0
    ensures n.toC[0].payload.proposal.lists == g.listsS && !n.toC[0].payload.proposal.follows
    ensures n.toC[0].dir == n.c.inc.recv && n.toC[0].seqno == n.c.inc.recvseq && !n.c.kx.ignorenext
    ensures n.c.kx.requirenext == 0 || n.c.kx.requirenext == SSH_MSG_KEXINIT
    ensures n.c.kx.role == Client && n.c.kx.cfg == g.cc && n.c.kx.peerIdent == g.sc.ident
    ensures !n.c.kx.sentkexinit || n.c.kx.transkexinit.Some?
  {
    HeadOpens(n.s, n.c, FlightS(n));
    assert ContentS(w, g, n.c.kx, n.s.kx, FlightS(n)[0].payload);
  }

  lemma NoneOrSome(w: World, g: Deal)
    requires GoodDeal(w, g) && GoodWorld(w)
    ensures g.forC.Exit? ==> g.forC.reason == NoMatchingAlgo
    ensures g.forS.Exit? ==> g.forS.reason == NoMatchingAlgo
  {
    assert g.forC == ReadKexAlgos(Client, g.cc, g.listsS);
    assert g.forS == ReadKexAlgos(Server, g.sc, g.listsC);
  }

  lemma RekeyAnsweredC(w: World, g: Deal, n: Net, cookie: seq<byte>)
    requires NetInv(w, g, n) && GoodDeal(w, g) && g.forC.Ok? && n.c.phase == Reading && PosOf(n.c.kx) == Idle
    requires n.toC != [] && n.toC[0].payload.MsgKexinit?
    ensures var e := SendMsgKexinit(w, n.c, cookie);
      && e.kx.transkexinit.Some? && e.dead == n.c.dead
      && NetInv(w, g, n.(c := e.(kx := KexinitOpenedC(g, e.kx, n.toC[0].payload.proposal),
                                inc := Opened(e.inc, n.toC[0].payload),
                                lastpacket := SSH_MSG_KEXINIT, phase := Flushing),
                         toC := n.toC[1..]))
  {
    StartRekeyC(w, g, n, cookie);
    KexinitTakenC(w, g, n.(c := SendMsgKexinit(w, n.c, cookie)));
  }

  lemma ReceiveKexinitC(w: World, g: Deal, n: Net, inp: Input)
    requires NetInv(w, g, n) && GoodWorld(w) && GoodDeal(w, g) && n.c.phase == Reading
    requires n.toC != [] && n.toC[0].payload.MsgKexinit?
    ensures match Receive(w, n.c, n.toC[0], inp)
      case Ok(e) => e.dead == n.c.dead && NetInv(w, g, n.(c := e.(phase := Flushing), toC := n.toC[1..]))
      case Exit(r) => Excusable(r)
  {
    HeadKexinitC(w, g, n);
    NoneOrSome(w, g);
    var q := n.toC[0].payload.proposal;
    ReceiveKexinitIs(w, n.c, n.toC[0], inp);
    var e0 := n.c.(lastpacket := SSH_MSG_KEXINIT, inc := Opened(n.c.inc, n.toC[0].payload));
    if PosOf(n.c.kx) == Sent {
      TakeKexinitC(w, g, e0, q, inp.cookie);
      if g.forC.Ok? { KexinitTakenC(w, g, n); }
    } else {
      KexinitAnswered(w, e0, q, inp.cookie);
      TakeKexinitC(w, g, SendMsgKexinit(w, e0, inp.cookie), q, inp.cookie);
      if g.forC.Ok? { RekeyAnsweredC(w, g, n, inp.cookie); }
    }
  }

  /** A KEXINIT at the head finds this end before or after its own KEXINIT. */
  lemma HeadKexinitS(w: World, g: Deal, n: Net)
    requires NetInv(w, g, n) && n.toS != [] && n.toS[0].payload.MsgKexinit?
    ensures PosOf(n.s.kx) == Idle || PosOf(n.s.kx) == Sent
    ensures PosOf(n.s.kx) == Idle ==> n.s.kx.requirenext == 0
    ensures n.toS[0].payload.proposal.lists == g.listsC && !n.toS[0].payload.proposal.follows
    ensures n.toS[0].dir == n.s.inc.recv && n.toS[0].seqno == n.s.inc.recvseq && !n.s.kx.ignorenext
    ensures n.s.kx.requirenext == 0 || n.s.kx.requirenext == SSH_MSG_KEXINIT
    ensures n.s.kx.role == Server && n.s.kx.cfg == g.sc && n.s.kx.peerIdent == g.cc.ident
    ensures !n.s.kx.sentkexinit || n.s.kx.transkexinit.Some?
  {
    HeadOpens(n.c, n.s, FlightC(n));
    assert ContentC(g, n.c.kx, n.s.kx, FlightC(n)[0].payload);
  }

  lemma RekeyAnsweredS(w: World, g: Deal, n: Net, cookie: seq<byte>)
    requires NetInv(w, g, n) && GoodDeal(w, g) && g.forS.Ok? && n.s.phase == Reading && PosOf(n.s.kx) == Idle
    requires n.toS != [] && n.toS[0].payload.MsgKexinit?
    ensures var e := SendMsgKexinit(w, n.s, cookie);
      && e.kx.transkexinit.Some? && e.dead == n.s.dead
      && NetInv(w, g, n.(s := e.(kx := KexinitOpenedS(g, e.kx, n.toS[0].payload.proposal),
                                inc := Opened(e.inc, n.toS[0].payload),
                                lastpacket := SSH_MSG_KEXINIT, phase := Flushing),
                         toS := n.toS[1..]))
  {
    StartRekeyS(w, g, n, cookie);
    KexinitTakenS(w, g, n.(s := SendMsgKexinit(w, n.s, cookie)));
  }

  lemma ReceiveKexinitS(w: World, g: Deal, n: Net, inp: Input)
    requires NetInv(w, g, n) && GoodWorld(w) && GoodDeal(w, g) && n.s.phase == Reading
    requires n.toS != [] && n.toS[0].payload.MsgKexinit?
    ensures match Receive(w, n.s, n.toS[0], inp)
      case Ok(e) => e.dead == n.s.dead && NetInv(w, g, n.(s := e.(phase := Flushing), toS := n.toS[1..]))
      case Exit(r) => Excusable(r)
  {
    HeadKexinitS(w, g, n);
    NoneOrSome(w, g);
    var q := n.toS[0].payload.proposal;
    ReceiveKexinitIs(w, n.s, n.toS[0], inp);
    var e0 := n.s.(lastpacket := SSH_MSG_KEXINIT, inc := Opened(n.s.inc, n.toS[0].payload));
    if PosOf(n.s.kx) == Sent {
      TakeKexinitS(w, g, e0, q, inp.cookie);
      if g.forS.Ok? { KexinitTakenS(w, g, n); }
    } else {
      KexinitAnswered(w, e0, q, inp.cookie);
      TakeKexinitS(w, g, SendMsgKexinit(w, e0, inp.cookie), q, inp.cookie);
      if g.forS.Ok? { RekeyAnsweredS(w, g, n, inp.cookie); }
    }
  }

  /** recv_msg_newkeys after our own NEWKEYS. */
  lemma ReceiveNewkeysIs(w: World, e: Endpoint, m: Wire, inp: Input)
    requires m.payload == MsgNewkeys && m.dir == e.inc.recv && m.seqno == e.inc.recvseq && !e.kx.ignorenext
    requires e.kx.requirenext == SSH_MSG_NEWKEYS && e.kx.sentnewkeys && CanGenKeys(e.kx)
    ensures Receive(w, e, m, inp) == Ok(Finished(e).(phase := e.phase))
  {
  }

  lemma ReceiveNewkeysC(w: World, g: Deal, n: Net, inp: Input)
    requires NetInv(w, g, n) && n.toC != [] && n.toC[0].payload == MsgNewkeys
    ensures match Receive(w, n.c, n.toC[0], inp)
      case Ok(e) => e.dead == n.c.dead && NetInv(w, g, n.(c := e.(phase := Flushing), toC := n.toC[1..]))
      case Exit(r) => Excusable(r)
  {
    HeadOpens(n.s, n.c, FlightS(n));
    ReceiveNewkeysIs(w, n.c, n.toC[0], inp);
    NewkeysRecvC(w, g, n.c, n.s, FlightC(n), FlightS(n));
    FlightTail(n.toC, n.s.out.writequeue);
  }

  lemma ReceiveNewkeysS(w: World, g: Deal, n: Net, inp: Input)
    requires NetInv(w, g, n) && n.toS != [] && n.toS[0].payload == MsgNewkeys
    ensures match Receive(w, n.s, n.toS[0], inp)
      case Ok(e) => e.dead == n.s.dead && NetInv(w, g, n.(s := e.(phase := Flushing), toS := n.toS[1..]))
      case Exit(r) => Excusable(r)
  {
    HeadOpens(n.c, n.s, FlightC(n));
    ReceiveNewkeysIs(w, n.s, n.toS[0], inp);
    NewkeysRecvS(w, g, n.c, n.s, FlightC(n), FlightS(n));
    FlightTail(n.toS, n.c.out.writequeue);
  }

  /** recv_msg_kexdh_reply when the reply is the one the server computed. */
  lemma ReceiveReplyIs(w: World, g: Deal, e: Endpoint, s: Kex, m: Wire, inp: Input)
    requires m.payload.MsgKexdhReply? && m.dir == e.inc.recv && m.seqno == e.inc.recvseq
    requires e.kx.role == Client && KexOK(w, g.forC, e.kx) && PosOf(e.kx) == Dh
    requires ReplyOK(w, g, e.kx, s, m.payload.hostkey, m.payload.f, m.payload.sig)
    requires w.keyType(m.payload.hostkey) == g.forC.value.hostkey
    ensures match Receive(w, e, m, inp)
      case Exit(r) => r == HostKeyRejected && !inp.accept
      case Ok(e') => e' == KexdhReplyOpened(e, m.payload, s.dhK.value, s.hash).(phase := e.phase)
  {
  }

  lemma ReceiveReplyC(w: World, g: Deal, n: Net, inp: Input)
    requires NetInv(w, g, n) && GoodDeal(w, g) && GoodWorld(w)
    requires n.toC != [] && n.toC[0].payload.MsgKexdhReply?
    ensures match Receive(w, n.c, n.toC[0], inp)
      case Ok(e) => e.dead == n.c.dead && NetInv(w, g, n.(c := e.(phase := Flushing), toC := n.toC[1..]))
      case Exit(r) => Excusable(r)
  {
    HeadOpens(n.s, n.c, FlightS(n));
    var p := n.toC[0].payload;
    assert ContentS(w, g, n.c.kx, n.s.kx, FlightS(n)[0].payload);
    assert PosOf(n.c.kx) == Dh && PosOf(n.s.kx) == New;
    ReceiveReplyIs(w, g, n.c, n.s.kx, n.toC[0], inp);
    ReplyTakenC(w, g, n, p);
  }

  lemma ReplyTakenC(w: World, g: Deal, n: Net, p: Payload)
    requires NetInv(w, g, n) && GoodDeal(w, g) && PosOf(n.c.kx) == Dh && PosOf(n.s.kx) == New
    requires n.toC != [] && n.toC[0].payload == p && p.MsgKexdhReply?
    ensures n.s.kx.dhK.Some?
    ensures NetInv(w, g, n.(c := KexdhReplyOpened(n.c, p, n.s.kx.dhK.value, n.s.kx.hash), toC := n.toC[1..]))
  {
    var c := KexdhReplyOpened(n.c, p, n.s.kx.dhK.value, n.s.kx.hash);
    KexdhReplyRecvC(w, g, n.c, n.s, FlightC(n), FlightS(n), p, n.s.kx.dhK.value, n.s.kx.hash);
    FlightTail(n.toC, n.s.out.writequeue);
    FlightAppend(n.toS, n.c.out.writequeue, Sealed(n.c, MsgNewkeys));
  }

  /** The exponentials of both sides are in range and give one shared secret. */
  lemma DhFacts(w: World, kex: Name, x: nat, y: nat)
    requires GoodWorld(w)
    ensures var p := w.prime(kex);
      var e := w.exptmod(DH_G_VAL, x, p);
      var f := w.exptmod(DH_G_VAL, y, p);
      0 < e < p && 0 < f < p && w.exptmod(e, y, p) == w.exptmod(f, x, p)
  {
    var p := DhPrime(kex);
    PowTwoNonzero(x, p);
    PowTwoNonzero(y, p);
    PowersCommute(DH_G_VAL, x, y, p);
  }

  /** recv_msg_kexdh_init for a public value in range. */
  lemma ReceiveDhInitIs(w: World, g: Deal, e: Endpoint, m: Wire, inp: Input)
    requires m.payload.MsgKexdhInit? && m.dir == e.inc.recv && m.seqno == e.inc.recvseq
    requires e.kx.role == Server && KexOK(w, g.forS, e.kx) && PosOf(e.kx) == Both
    requires 0 < m.payload.e < w.prime(g.forS.value.kex)
    ensures var p := w.prime(g.forS.value.kex);
      var hostkey := w.hostPub(g.forS.value.hostkey);
      var f := w.exptmod(DH_G_VAL, inp.secret, p);
      var k := w.exptmod(m.payload.e, inp.secret, p);
      var h := w.xhash(e.kx.kexhashbuf.value, hostkey, m.payload.e, f, k);
      var reply := MsgKexdhReply(hostkey, f, w.sign(g.forS.value.hostkey, h, inp.nonce));
      Receive(w, e, m, inp) == Ok(KexdhInitOpened(e, m.payload.e, reply, k, h).(phase := e.phase))
  {
  }

  lemma DhInitTakenS(w: World, g: Deal, n: Net, pub: nat, reply: Payload, k: nat, h: seq<byte>)
    requires NetInv(w, g, n) && GoodDeal(w, g) && PosOf(n.s.kx) == Both && PosOf(n.c.kx) == Dh && n.c.kx.dhE == Some(pub)
    requires n.toS != [] && n.toS[0].payload == MsgKexdhInit(pub)
    requires reply.MsgKexdhReply? && reply.hostkey == w.hostPub(g.forS.value.hostkey)
    requires 0 < reply.f < w.prime(g.forS.value.kex)
    requires k == w.exptmod(reply.f, n.c.kx.dhX.value, w.prime(g.forS.value.kex))
    requires h == w.xhash(n.s.kx.kexhashbuf.value, reply.hostkey, pub, reply.f, k)
    requires w.verify(reply.hostkey, h, reply.sig)
    ensures NetInv(w, g, n.(s := KexdhInitOpened(n.s, pub, reply, k, h), toS := n.toS[1..]))
  {
    var s := KexdhInitOpened(n.s, pub, reply, k, h);
    KexdhInitRecvS(w, g, n.c, n.s, FlightC(n), FlightS(n), pub, reply, k, h);
    FlightTail(n.toS, n.c.out.writequeue);
    FlightAppend(n.toC, n.s.out.writequeue, Sealed(n.s, reply));
    FlightAppend(n.toC, n.s.out.writequeue + [Sealed(n.s, reply)],
                 Wire(MsgNewkeys, Next(n.s.out.transseq), Ran(n.s.out.trans, reply)));
  }

  lemma ReceiveDhInitS(w: World, g: Deal, n: Net, inp: Input)
    requires NetInv(w, g, n) && GoodDeal(w, g) && GoodWorld(w)
    requires n.toS != [] && n.toS[0].payload.MsgKexdhInit?
    ensures match Receive(w, n.s, n.toS[0], inp)
      case Ok(e) => e.dead == n.s.dead && NetInv(w, g, n.(s := e.(phase := Flushing), toS := n.toS[1..]))
      case Exit(r) => Excusable(r)
  {
    HeadOpens(n.c, n.s, FlightC(n));
    assert ContentC(g, n.c.kx, n.s.kx, FlightC(n)[0].payload);
    assert PosOf(n.s.kx) == Both && PosOf(n.c.kx) == Dh;
    var pub := n.toS[0].payload.e;
    var p := w.prime(g.forS.value.kex);
    DhFacts(w, g.forS.value.kex, n.c.kx.dhX.value, inp.secret);
    ReceiveDhInitIs(w, g, n.s, n.toS[0], inp);
    var hostkey := w.hostPub(g.forS.value.hostkey);
    var f := w.exptmod(DH_G_VAL, inp.secret, p);
    var k := w.exptmod(pub, inp.secret, p);
    var h := w.xhash(n.s.kx.kexhashbuf.value, hostkey, pub, f, k);
    DhInitTakenS(w, g, n, pub, MsgKexdhReply(hostkey, f, w.sign(g.forS.value.hostkey, h, inp.nonce)), k, h);
  }

  // ------------------------------------------------------------ the whole loop

  /** Whatever is at the head of the link, this end handles it. */
  lemma ReceiveC(w: World, g: Deal, n: Net, inp: Input)
    requires NetInv(w, g, n) && GoodWorld(w) && GoodDeal(w, g) && GoodInput(inp) && n.c.phase == Reading && n.toC != []
    ensures match Receive(w, n.c, n.toC[0], inp)
      case Ok(e) => e.dead == n.c.dead && NetInv(w, g, n.(c := e.(phase := Flushing), toC := n.toC[1..]))
      case Exit(r) => Excusable(r)
  {
    assert !n.toC[0].payload.MsgKexdhInit? && (n.toC[0].payload.MsgApp? ==> AppPayload(n.toC[0].payload)) by {
      HeadOpens(n.s, n.c, FlightS(n));
    }
    match n.toC[0].payload
    case MsgApp(_, _) => ReceiveAppC(w, g, n, inp);
    case MsgKexinit(_) => ReceiveKexinitC(w, g, n, inp);
    case MsgNewkeys => ReceiveNewkeysC(w, g, n, inp);
    case MsgKexdhReply(_, _, _) => ReceiveReplyC(w, g, n, inp);
  }

  lemma ChannelsC(w: World, g: Deal, n: Net, ps: seq<Payload>)
    requires NetInv(w, g, n) && n.c.phase == Channels && forall i :: 0 <= i < |ps| ==> AppPayload(ps[i])
    ensures AppSendAll(n.c, ps).dead == n.c.dead
    ensures NetInv(w, g, n.(c := AppSendAll(n.c, ps).(phase := Handler)))
  {
    AppSendAllC(w, g, n, ps);
    PhaseC(w, g, n.(c := AppSendAll(n.c, ps)), Handler);
  }

  /** Handing a packet from the write queue to the link leaves what is in flight as it was. */
  lemma WriteC(w: World, g: Deal, n: Net)
    requires NetInv(w, g, n) && n.c.phase == Writing && n.c.out.writequeue != []
    ensures NetInv(w, g, n.(c := n.c.(out := n.c.out.(writequeue := n.c.out.writequeue[1..]), phase := Reading),
                            toS := n.toS + [n.c.out.writequeue[0]]))
  {
    var q := n.c.out.writequeue;
    assert n.toS + [q[0]] + q[1..] == n.toS + q;
  }

  /** Whatever is at the head of the link, this end handles it. */
  lemma ReceiveS(w: World, g: Deal, n: Net, inp: Input)
    requires NetInv(w, g, n) && GoodWorld(w) && GoodDeal(w, g) && GoodInput(inp) && n.s.phase == Reading && n.toS != []
    ensures match Receive(w, n.s, n.toS[0], inp)
      case Ok(e) => e.dead == n.s.dead && NetInv(w, g, n.(s := e.(phase := Flushing), toS := n.toS[1..]))
      case Exit(r) => Excusable(r)
  {
    assert !n.toS[0].payload.MsgKexdhReply? && (n.toS[0].payload.MsgApp? ==> AppPayload(n.toS[0].payload)) by {
      HeadOpens(n.c, n.s, FlightC(n));
    }
    match n.toS[0].payload
    case MsgApp(_, _) => ReceiveAppS(w, g, n, inp);
    case MsgKexinit(_) => ReceiveKexinitS(w, g, n, inp);
    case MsgNewkeys => ReceiveNewkeysS(w, g, n, inp);
    case MsgKexdhInit(_) => ReceiveDhInitS(w, g, n, inp);
  }

  lemma ChannelsS(w: World, g: Deal, n: Net, ps: seq<Payload>)
    requires NetInv(w, g, n) && n.s.phase == Channels && forall i :: 0 <= i < |ps| ==> AppPayload(ps[i])
    ensures AppSendAll(n.s, ps).dead == n.s.dead
    ensures NetInv(w, g, n.(s := AppSendAll(n.s, ps).(phase := Handler)))
  {
    AppSendAllS(w, g, n, ps);
    PhaseS(w, g, n.(s := AppSendAll(n.s, ps)), Handler);
  }

  /** Handing a packet from the write queue to the link leaves what is in flight as it was. */
  lemma WriteS(w: World, g: Deal, n: Net)
    requires NetInv(w, g, n) && n.s.phase == Writing && n.s.out.writequeue != []
    ensures NetInv(w, g, n.(s := n.s.(out := n.s.out.(writequeue := n.s.out.writequeue[1..]), phase := Reading),
                            toC := n.toC + [n.s.out.writequeue[0]]))
  {
    var q := n.s.out.writequeue;
    assert n.toC + [q[0]] + q[1..] == n.toC + q;
  }

  lemma KexdhInitMadeC(w: World, g: Deal, n: Net, x: nat)
    requires NetInv(w, g, n) && PosOf(n.c.kx) == Both
    ensures g.forC.Ok?
    ensures var pub := w.exptmod(DH_G_VAL, x, w.prime(g.forC.value.kex));
      NetInv(w, g, n.(c := KexdhInitSent(n.c, x, pub)))
  {
    var pub := w.exptmod(DH_G_VAL, x, w.prime(g.forC.value.kex));
    KexdhInitSentC(w, g, n.c, n.s, FlightC(n), FlightS(n), x, pub);
    FlightAppend(n.toS, n.c.out.writequeue, Sealed(n.c, MsgKexdhInit(pub)));
  }

  /** The end of the client's loop when it is not about to start the Diffie-Hellman exchange. */
  lemma HandlerIdleC(w: World, g: Deal, n: Net, ks: KexState)
    requires NetInv(w, g, n) && n.c.phase == Handler && PosOf(n.c.kx) != Both
    requires ks == if !n.c.kx.sentkexinit && !n.c.kx.recvkexinit then KEX_NOTHING else n.c.kx.kexState
    ensures NetInv(w, g, n.(c := n.c.(kx := n.c.kx.(kexState := ks), phase := Timeouts)))
  {
    var k := n.c.kx.(kexState := ks);
    assert PosOf(k) == PosOf(n.c.kx);
    assert ExchangeOK(w, g, k, n.s.kx, FlightC(n), FlightS(n)) by { DriverIrrelevant(w, g, n.c.kx, n.s.kx, FlightC(n), FlightS(n), ks); }
  }

  lemma DriverIrrelevant(w: World, g: Deal, c: Kex, s: Kex, fc: seq<Wire>, fs: seq<Wire>, ks: KexState)
    requires ExchangeOK(w, g, c, s, fc, fs) && PosOf(c.(kexState := ks)) == PosOf(c)
    ensures ExchangeOK(w, g, c.(kexState := ks), s, fc, fs)
  {
    var k := c.(kexState := ks);
    forall i | 0 <= i < |fc| ensures ContentC(g, k, s, fc[i].payload) { assert ContentC(g, c, s, fc[i].payload); }
    forall i | 0 <= i < |fs| ensures ContentS(w, g, k, s, fs[i].payload) { assert ContentS(w, g, c, s, fs[i].payload); }
  }

  lemma HandlerRequestsC(w: World, g: Deal, n: Net, ks: KexState, ps: seq<Payload>)
    requires NetInv(w, g, n) && n.c.phase == Handler && PosOf(n.c.kx) != Both
    requires ks == if !n.c.kx.sentkexinit && !n.c.kx.recvkexinit then KEX_NOTHING else n.c.kx.kexState
    requires forall i :: 0 <= i < |ps| ==> AppPayload(ps[i])
    ensures var e := AppSendAll(n.c.(kx := n.c.kx.(kexState := ks)), ps);
      e.dead == n.c.dead && NetInv(w, g, n.(c := e.(phase := Timeouts)))
  {
    HandlerIdleC(w, g, n, ks);
    AppSendAllC(w, g, n.(c := n.c.(kx := n.c.kx.(kexState := ks), phase := Timeouts)), ps);
    AppSendAllPhase(n.c.(kx := n.c.kx.(kexState := ks)), ps, Timeouts);
  }

  /** Sending does not look at the loop phase. */
  lemma {:induction false} AppSendAllPhase(e: Endpoint, ps: seq<Payload>, ph: Phase)
    ensures AppSendAll(e, ps).(phase := ph) == AppSendAll(e.(phase := ph), ps)
    ensures AppSendAll(e, ps).dead == e.dead
    decreases |ps|
  {
    if ps != [] { AppSendAllPhase(AppSend(e, ps[0]), ps[1..], ph); }
  }

  /** cli_sessionloop, by where the exchange stands. */
  lemma CliSessionLoopIs(w: World, mine: Outcome<NewKeys>, e: Endpoint, inp: Input)
    requires e.kx.role == Client && e.phase == Handler && KexOK(w, mine, e.kx) && DriverOK(e.kx, e.lastpacket, e.phase)
    ensures PosOf(e.kx) == Both ==>
      CliSessionLoop(w, e, inp)
        == Ok(KexdhInitSent(e, inp.secret, w.exptmod(DH_G_VAL, inp.secret, w.prime(mine.value.kex))).(phase := Handler))
    ensures PosOf(e.kx) != Both ==>
      var ks := if !e.kx.sentkexinit && !e.kx.recvkexinit then KEX_NOTHING else e.kx.kexState;
      var ps := if ks != KEX_NOTHING || !e.kx.donefirstkex then [] else inp.packets;
      CliSessionLoop(w, e, inp) == Ok(AppSendAll(e.(kx := e.kx.(kexState := ks)), ps))
  {
  }

  lemma HandlerC(w: World, g: Deal, n: Net, inp: Input)
    requires NetInv(w, g, n) && GoodInput(inp) && n.c.phase == Handler
    ensures match CliSessionLoop(w, n.c, inp)
      case Ok(e) => e.dead == n.c.dead && NetInv(w, g, n.(c := e.(phase := Timeouts)))
      case Exit(_) => false
  {
    CliSessionLoopIs(w, g.forC, n.c, inp);
    if PosOf(n.c.kx) == Both {
      KexdhInitMadeC(w, g, n, inp.secret);
    } else {
      var ks := if !n.c.kx.sentkexinit && !n.c.kx.recvkexinit then KEX_NOTHING else n.c.kx.kexState;
      if ks != KEX_NOTHING || !n.c.kx.donefirstkex {
        HandlerRequestsC(w, g, n, ks, []);
      } else {
        HandlerRequestsC(w, g, n, ks, inp.packets);
      }
    }
  }

  // --------------------------------------------------------------- one step

  lemma StepReadingC(w: World, g: Deal, n: Net, inp: Input)
    requires NetInv(w, g, n) && GoodWorld(w) && GoodDeal(w, g) && GoodInput(inp) && n.c.dead.None? && n.c.phase == Reading
    ensures NetInv(w, g, Move(w, n, Client, inp)) && AliveOrExcused(Move(w, n, Client, inp).c)
  {
    hide Receive, GoodWorld;
    assert n.toS + [] == n.toS;
    if inp.go && n.toC != [] { ReceiveC(w, g, n, inp); } else { PhaseC(w, g, n, Flushing); }
  }

  lemma StepEarlyC(w: World, g: Deal, n: Net, inp: Input)
    requires NetInv(w, g, n) && GoodDeal(w, g) && n.c.dead.None?
    requires n.c.phase == Timeouts || n.c.phase == Writing
    ensures NetInv(w, g, Move(w, n, Client, inp)) && AliveOrExcused(Move(w, n, Client, inp).c)
  {
    hide CheckTimeouts;
    assert n.toS + [] == n.toS;
    if n.c.phase == Timeouts { TimeoutsC(w, g, n, inp); }
    else if inp.go && n.c.out.writequeue != [] { WriteC(w, g, n); }
    else { PhaseC(w, g, n, Reading); }
  }

  lemma StepLateC(w: World, g: Deal, n: Net, inp: Input)
    requires NetInv(w, g, n) && GoodInput(inp) && n.c.dead.None?
    requires n.c.phase == Flushing || n.c.phase == Channels || n.c.phase == Handler
    ensures NetInv(w, g, Move(w, n, Client, inp)) && AliveOrExcused(Move(w, n, Client, inp).c)
  {
    hide MaybeFlushReplyQueue, CliSessionLoop, AppSendAll;
    assert n.toS + [] == n.toS;
    if n.c.phase == Flushing { FlushC(w, g, n); }
    else if n.c.phase == Handler { HandlerC(w, g, n, inp); }
    else if n.c.kx.dataallowed { ChannelsC(w, g, n, inp.packets); }
    else { PhaseC(w, g, n, Handler); }
  }

  /** Every step of this end keeps the invariant, and exits only for outside reasons. */
  lemma StepC(w: World, g: Deal, n: Net, inp: Input)
    requires NetInv(w, g, n) && GoodWorld(w) && GoodDeal(w, g) && GoodInput(inp) && AliveOrExcused(n.c)
    ensures NetInv(w, g, Move(w, n, Client, inp)) && AliveOrExcused(Move(w, n, Client, inp).c)
  {
    hide GoodWorld, Receive, CheckTimeouts, CliSessionLoop, MaybeFlushReplyQueue, AppSendAll;
    if n.c.dead.Some? { assert n.toS + [] == n.toS; }
    else if n.c.phase == Reading { StepReadingC(w, g, n, inp); }
    else if n.c.phase == Timeouts || n.c.phase == Writing { StepEarlyC(w, g, n, inp); }
    else { StepLateC(w, g, n, inp); }
  }

  lemma StepReadingS(w: World, g: Deal, n: Net, inp: Input)
    requires NetInv(w, g, n) && GoodWorld(w) && GoodDeal(w, g) && GoodInput(inp) && n.s.dead.None? && n.s.phase == Reading
    ensures NetInv(w, g, Move(w, n, Server, inp)) && AliveOrExcused(Move(w, n, Server, inp).s)
  {
    hide Receive, GoodWorld;
    assert n.toC + [] == n.toC;
    if inp.go && n.toS != [] { ReceiveS(w, g, n, inp); } else { PhaseS(w, g, n, Flushing); }
  }

  lemma StepEarlyS(w: World, g: Deal, n: Net, inp: Input)
    requires NetInv(w, g, n) && GoodDeal(w, g) && n.s.dead.None?
    requires n.s.phase == Timeouts || n.s.phase == Writing
    ensures NetInv(w, g, Move(w, n, Server, inp)) && AliveOrExcused(Move(w, n, Server, inp).s)
  {
    hide CheckTimeouts;
    assert n.toC + [] == n.toC;
    if n.s.phase == Timeouts { TimeoutsS(w, g, n, inp); }
    else if inp.go && n.s.out.writequeue != [] { WriteS(w, g, n); }
    else { PhaseS(w, g, n, Reading); }
  }

  lemma StepLateS(w: World, g: Deal, n: Net, inp: Input)
    requires NetInv(w, g, n) && GoodInput(inp) && n.s.dead.None?
    requires n.s.phase == Flushing || n.s.phase == Channels || n.s.phase == Handler
    ensures NetInv(w, g, Move(w, n, Server, inp)) && AliveOrExcused(Move(w, n, Server, inp).s)
  {
    hide MaybeFlushReplyQueue, CliSessionLoop, AppSendAll;
    assert n.toC + [] == n.toC;
    if n.s.phase == Flushing { FlushS(w, g, n); }
    else if n.s.phase == Handler { PhaseS(w, g, n, Timeouts); }
    else if n.s.kx.dataallowed { ChannelsS(w, g, n, inp.packets); }
    else { PhaseS(w, g, n, Handler); }
  }

  /** Every step of this end keeps the invariant, and exits only for outside reasons. */
  lemma StepS(w: World, g: Deal, n: Net, inp: Input)
    requires NetInv(w, g, n) && GoodWorld(w) && GoodDeal(w, g) && GoodInput(inp) && AliveOrExcused(n.s)
    ensures NetInv(w, g, Move(w, n, Server, inp)) && AliveOrExcused(Move(w, n, Server, inp).s)
  {
    hide GoodWorld, Receive, CheckTimeouts, CliSessionLoop, MaybeFlushReplyQueue, AppSendAll;
    if n.s.dead.Some? { assert n.toC + [] == n.toC; }
    else if n.s.phase == Reading { StepReadingS(w, g, n, inp); }
    else if n.s.phase == Timeouts || n.s.phase == Writing { StepEarlyS(w, g, n, inp); }
    else { StepLateS(w, g, n, inp); }
  }
}
