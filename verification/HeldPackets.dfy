/**
  Packets held back during key exchange: each is sent exactly once, in the order produced.
*/
module HeldPackets {
  import opened Wrappers
  import opened Bytes
  import opened NumberTheory
  import opened Transport
  import opened Network
  import opened Agreement
  import opened Runs
  import opened SafetyTheorems

  /** The application packets that may go out during a key exchange (okay), or may not. */
  predicate OfKind(p: Payload, okay: bool) {
    AppPayload(p) && OkayKex(Type(p)) == okay
  }

  function One(p: Payload, okay: bool): seq<Payload> {
    if OfKind(p, okay) then [p] else []
  }

  /** The packets of one kind, in order. */
  function Sift(ps: seq<Payload>, okay: bool): seq<Payload> {
    if ps == [] then [] else Sift(ps[..|ps| - 1], okay) + One(ps[|ps| - 1], okay)
  }

  function Contents(log: seq<Wire>): (ps: seq<Payload>)
    ensures |ps| == |log|
    ensures forall i :: 0 <= i < |log| ==> ps[i] == log[i].payload
  {
    seq(|log|, i requires 0 <= i < |log| => log[i].payload)
  }

  lemma NothingSifted()
    ensures Sift([], true) == [] && Sift([], false) == []
  {
  }

  lemma SiftAppend(ps: seq<Payload>, p: Payload, okay: bool)
    ensures Sift(ps + [p], okay) == Sift(ps, okay) + One(p, okay)
  {
    assert (ps + [p])[..|ps|] == ps;
  }

  lemma Assoc(a: seq<Payload>, b: seq<Payload>, c: seq<Payload>)
    ensures a + (b + c) == (a + b) + c
  {
  }

  lemma {:induction false} SiftConcat(a: seq<Payload>, b: seq<Payload>, okay: bool)
    ensures Sift(a + b, okay) == Sift(a, okay) + Sift(b, okay)
    decreases |b|
  {
    if b == [] {
      assert a + b == a;
    } else {
      var b1, p := b[..|b| - 1], b[|b| - 1];
      assert a + b == (a + b1) + [p] && b == b1 + [p];
      SiftAppend(a + b1, p, okay);
      SiftAppend(b1, p, okay);
      SiftConcat(a, b1, okay);
      Assoc(Sift(a, okay), Sift(b1, okay), One(p, okay));
    }
  }

  /** Of each kind, what was produced is what was sent followed by what is held. */
  predicate Tally(sent: seq<Payload>, held: seq<Payload>, produced: seq<Payload>, okay: bool) {
    Sift(sent, okay) + Sift(held, okay) == Sift(produced, okay)
  }

  lemma TallyKex(sent: seq<Payload>, held: seq<Payload>, produced: seq<Payload>, p: Payload, okay: bool)
    requires Tally(sent, held, produced, okay) && !AppPayload(p)
    ensures Tally(sent + [p], held, produced, okay) && Tally(sent, held + [p], produced, okay)
  {
    SiftAppend(sent, p, okay);
    SiftAppend(held, p, okay);
  }

  lemma TallyHeld(sent: seq<Payload>, held: seq<Payload>, produced: seq<Payload>, p: Payload, okay: bool)
    requires Tally(sent, held, produced, okay)
    ensures Tally(sent, held + [p], produced + [p], okay)
  {
    SiftAppend(held, p, okay);
    SiftAppend(produced, p, okay);
    Assoc(Sift(sent, okay), Sift(held, okay), One(p, okay));
  }

  lemma TallySent(sent: seq<Payload>, held: seq<Payload>, produced: seq<Payload>, p: Payload, okay: bool)
    requires Tally(sent, held, produced, okay)
    requires OfKind(p, okay) ==> Sift(held, okay) == []
    ensures Tally(sent + [p], held, produced + [p], okay)
  {
    SiftAppend(sent, p, okay);
    SiftAppend(produced, p, okay);
  }

  /** The application packets, in order. */
  function Apps(ps: seq<Payload>): seq<Payload> {
    if ps == [] then [] else Apps(ps[..|ps| - 1]) + (if AppPayload(ps[|ps| - 1]) then [ps[|ps| - 1]] else [])
  }

  predicate AllApps(q: seq<Payload>) {
    forall i :: 0 <= i < |q| ==> AppPayload(q[i])
  }

  lemma AppsAppend(ps: seq<Payload>, p: Payload)
    ensures Apps(ps + [p]) == Apps(ps) + (if AppPayload(p) then [p] else [])
  {
    assert (ps + [p])[..|ps|] == ps;
  }

  lemma {:induction false} AppsAfter(ps: seq<Payload>, q: seq<Payload>)
    requires AllApps(q)
    ensures Apps(ps + q) == Apps(ps) + q
    decreases |q|
  {
    if q == [] {
      assert ps + q == ps;
    } else {
      var k := |q| - 1;
      assert ps + q == (ps + q[..k]) + [q[k]];
      AppsAppend(ps + q[..k], q[k]);
      AppsAfter(ps, q[..k]);
      assert Apps(ps) + q[..k] + [q[k]] == Apps(ps) + q;
    }
  }

  /** The order in which packets leave is that in which they were produced. */
  predicate SameOrder(sent: seq<Payload>, held: seq<Payload>, produced: seq<Payload>) {
    Apps(sent) + held == produced
  }

  lemma LastDiffers(a: seq<Payload>, b: seq<Payload>, c: seq<Payload>, p: Payload)
    requires b != [] && b[|b| - 1] != p
    ensures a + [p] + b != c + [p]
  {
    assert (a + [p] + b)[|a + [p] + b| - 1] == b[|b| - 1];
    assert (c + [p])[|c + [p]| - 1] == p;
  }

  lemma SameEnd(a: seq<Payload>, b: seq<Payload>, p: Payload)
    ensures a + [p] == b + [p] <==> a == b
  {
    assert (a + [p])[..|a|] == a && (b + [p])[..|b|] == b;
  }

  lemma SendKeepsOrder(sent: seq<Payload>, held: seq<Payload>, produced: seq<Payload>, p: Payload)
    requires AppPayload(p)
    ensures SameOrder(sent, held + [p], produced + [p]) <==> SameOrder(sent, held, produced)
    ensures held == [] ==> (SameOrder(sent + [p], held, produced + [p]) <==> SameOrder(sent, held, produced))
    ensures held != [] && held[|held| - 1] != p ==> !SameOrder(sent + [p], held, produced + [p])
  {
    AppsAppend(sent, p);
    assert Apps(sent) + (held + [p]) == (Apps(sent) + held) + [p];
    SameEnd(Apps(sent) + held, produced, p);
    if held == [] {
      assert Apps(sent) + [p] + held == (Apps(sent) + held) + [p];
    } else if held[|held| - 1] != p {
      LastDiffers(Apps(sent), held, produced, p);
    }
  }

  predicate AllForbidden(q: seq<Payload>) {
    forall i :: 0 <= i < |q| ==> !OkayKex(Type(q[i]))
  }

  lemma {:induction false} NoneOkay(q: seq<Payload>)
    requires AllForbidden(q)
    ensures Sift(q, true) == []
    decreases |q|
  {
    if q != [] { NoneOkay(q[..|q| - 1]); }
  }

  // ------------------------------------------------------------ one endpoint

  /** `base` is what has left the write queue already. */
  predicate InOrder(o: Outgoing, base: seq<Wire>) {
    forall okay :: Tally(Contents(base + o.writequeue), o.replyqueue, o.produced, okay)
  }

  /** Nothing is waiting while data may be sent. */
  predicate Ready(e: Endpoint) {
    e.kx.dataallowed ==> e.out.replyqueue == [] && !e.kx.sentnewkeys
  }

  /** Before our NEWKEYS only packets that key exchange forbids are held. */
  predicate KindsOK(e: Endpoint) {
    !e.kx.dataallowed && !e.kx.sentnewkeys ==> AllForbidden(e.out.replyqueue)
  }

  /** Packets leave in the order produced unless one has met the condition PassesHeld. */
  predicate OrderKept(o: Outgoing, base: seq<Wire>) {
    o.passed <==> !SameOrder(Contents(base + o.writequeue), o.replyqueue, o.produced)
  }

  predicate LineOK(e: Endpoint, base: seq<Wire>) {
    InOrder(e.out, base) && KindsOK(e) && AllApps(e.out.replyqueue) && OrderKept(e.out, base)
  }

  lemma ContentsAppend(base: seq<Wire>, q: seq<Wire>, x: Wire)
    ensures Contents(base + (q + [x])) == Contents(base + q) + [x.payload]
  {
  }

  lemma SendKex(e: Endpoint, base: seq<Wire>, p: Payload)
    requires LineOK(e, base) && !AppPayload(p) && !MustHold(e.kx, p)
    ensures LineOK(EncryptPacket(e, p), base)
  {
    ContentsAppend(base, e.out.writequeue, Sealed(e, p));
    AppsAppend(Contents(base + e.out.writequeue), p);
    forall okay {
      TallyKex(Contents(base + e.out.writequeue), e.out.replyqueue, e.out.produced, p, okay);
    }
  }

  lemma SendApp(e: Endpoint, base: seq<Wire>, p: Payload)
    requires LineOK(e, base) && Ready(e) && AppPayload(p)
    ensures LineOK(AppSend(e, p), base) && Ready(AppSend(e, p)) && AppSend(e, p).kx == e.kx
  {
    hide Sift, Apps, Contents, Tally, SameOrder;
    var sent := Contents(base + e.out.writequeue);
    ContentsAppend(base, e.out.writequeue, Sealed(e, p));
    SendKeepsOrder(sent, e.out.replyqueue, e.out.produced, p);
    if MustHold(e.kx, p) {
      forall okay { TallyHeld(sent, e.out.replyqueue, e.out.produced, p, okay); }
      if !e.kx.sentnewkeys { assert AllForbidden(e.out.replyqueue + [p]); }
    } else {
      if !e.kx.dataallowed { NoneOkay(e.out.replyqueue); } else { NothingSifted(); }
      forall okay { TallySent(sent, e.out.replyqueue, e.out.produced, p, okay); }
    }
  }

  lemma {:induction false} SendApps(e: Endpoint, base: seq<Wire>, ps: seq<Payload>)
    requires LineOK(e, base) && Ready(e) && forall i :: 0 <= i < |ps| ==> AppPayload(ps[i])
    ensures LineOK(AppSendAll(e, ps), base)
    decreases |ps|
  {
    if ps != [] {
      SendApp(e, base, ps[0]);
      SendApps(AppSend(e, ps[0]), base, ps[1..]);
    }
  }

  /** With data allowed, a batch goes out whole and in order, and nothing is queued again. */
  lemma {:induction false} FlushInOrder(e: Endpoint, base: seq<Wire>, ps: seq<Payload>)
    requires e.kx.dataallowed && !e.kx.sentnewkeys
    ensures var e' := EncryptAll(e, ps);
      && Contents(base + e'.out.writequeue) == Contents(base + e.out.writequeue) + ps
      && e'.out.replyqueue == e.out.replyqueue && e'.out.produced == e.out.produced && e'.kx == e.kx
      && e'.out.passed == e.out.passed
    decreases |ps|
  {
    if ps == [] {
      assert Contents(base + e.out.writequeue) + ps == Contents(base + e.out.writequeue);
    } else {
      var p := ps[0];
      ContentsAppend(base, e.out.writequeue, Sealed(e, p));
      FlushInOrder(EncryptPacket(e, p), base, ps[1..]);
      assert Contents(base + e.out.writequeue) + [p] + ps[1..] == Contents(base + e.out.writequeue) + ps;
    }
  }

  lemma TallyFlushAll(sent: seq<Payload>, held: seq<Payload>, produced: seq<Payload>, okay: bool)
    requires Tally(sent, held, produced, okay)
    ensures Tally(sent + held, [], produced, okay)
  {
    SiftConcat(sent, held, okay);
  }

  lemma Flush(e: Endpoint, base: seq<Wire>)
    requires LineOK(e, base) && (e.kx.dataallowed ==> !e.kx.sentnewkeys)
    ensures LineOK(MaybeFlushReplyQueue(e), base)
  {
    if e.kx.dataallowed {
      FlushInOrder(e, base, e.out.replyqueue);
      forall okay { TallyFlushAll(Contents(base + e.out.writequeue), e.out.replyqueue, e.out.produced, okay); }
      AppsAfter(Contents(base + e.out.writequeue), e.out.replyqueue);
      assert Apps(Contents(base + e.out.writequeue) + e.out.replyqueue) + [] == Apps(Contents(base + e.out.writequeue)) + e.out.replyqueue;
    }
  }

  // ------------------------------------------------------------- the handlers

  lemma LineKexinit(w: World, e: Endpoint, base: seq<Wire>, q: Proposal, cookie: seq<byte>)
    requires LineOK(e, base) && Ready(e) && e.kx.dataallowed == !e.kx.sentkexinit
    ensures var r := RecvMsgKexinit(w, e, q, cookie); r.Ok? ==> LineOK(r.value, base)
  {
    if !e.kx.sentkexinit { SendKex(e, base, MsgKexinit(Proposal(cookie, w.advertise(e.kx.cfg), false))); }
  }

  lemma LineNewkeysSent(e: Endpoint, base: seq<Wire>)
    requires LineOK(e, base) && !e.kx.sentnewkeys
    ensures var r := SendMsgNewkeys(e); r.Ok? ==> LineOK(r.value, base)
  {
    SendKex(e, base, MsgNewkeys);
  }

  /** Only these two flags of the exchange matter here. */
  lemma LineKex(e: Endpoint, base: seq<Wire>, k: Kex)
    requires LineOK(e, base) && k.dataallowed == e.kx.dataallowed && k.sentnewkeys == e.kx.sentnewkeys
    ensures LineOK(e.(kx := k), base)
  {
  }

  /** What the handler of KEXDH_REPLY does to the outgoing side is what NEWKEYS does to it. */
  lemma ReplySendsNewkeys(w: World, e: Endpoint, h: seq<byte>, f: nat, sig: seq<byte>, accept: bool) returns (k: Kex)
    requires RecvMsgKexdhReply(w, e, h, f, sig, accept).Ok?
    ensures k.dataallowed == e.kx.dataallowed && k.sentnewkeys == e.kx.sentnewkeys
    ensures PosOf(k) == PosOf(e.kx) && k.epoch == e.kx.epoch && k.role == e.kx.role
    ensures SendMsgNewkeys(e.(kx := k)).Ok?
    ensures RecvMsgKexdhReply(w, e, h, f, sig, accept).value
      == SendMsgNewkeys(e.(kx := k)).value.(kx := SendMsgNewkeys(e.(kx := k)).value.kx.(requirenext := SSH_MSG_NEWKEYS))
  {
    k := KexdhCombKey(w, e.kx, e.kx.dhE.value, e.kx.dhX.value, f, h).value.(dhE := None, dhX := None);
  }

  lemma LineReply(w: World, e: Endpoint, base: seq<Wire>, h: seq<byte>, f: nat, sig: seq<byte>, accept: bool)
    requires LineOK(e, base) && !e.kx.sentnewkeys && RecvMsgKexdhReply(w, e, h, f, sig, accept).Ok?
    ensures LineOK(RecvMsgKexdhReply(w, e, h, f, sig, accept).value, base)
  {
    var k := ReplySendsNewkeys(w, e, h, f, sig, accept);
    LineKex(e, base, k);
    LineNewkeysSent(e.(kx := k), base);
    var t := SendMsgNewkeys(e.(kx := k)).value;
    LineKex(t, base, t.kx.(requirenext := SSH_MSG_NEWKEYS));
  }

  /** What the handler of KEXDH_INIT does to the outgoing side: the reply, then NEWKEYS. */
  lemma DhInitSends(w: World, e: Endpoint, pub: nat, y: nat, nonce: nat) returns (k: Kex, reply: Payload)
    requires RecvMsgKexdhInit(w, e, pub, y, nonce).Ok?
    ensures k.dataallowed == e.kx.dataallowed && k.sentnewkeys == e.kx.sentnewkeys && reply.MsgKexdhReply?
    ensures PosOf(k) == PosOf(e.kx) && k.epoch == e.kx.epoch && k.role == e.kx.role
    ensures var s := EncryptPacket(e.(kx := k), reply);
      && SendMsgNewkeys(s).Ok?
      && RecvMsgKexdhInit(w, e, pub, y, nonce).value
           == SendMsgNewkeys(s).value.(kx := SendMsgNewkeys(s).value.kx.(requirenext := SSH_MSG_NEWKEYS))
  {
    hide SendMsgNewkeys, EncryptPacket;
    var name := e.kx.newkeys.value.hostkey;
    var f := w.exptmod(DH_G_VAL, y, w.prime(e.kx.newkeys.value.kex));
    k := KexdhCombKey(w, e.kx, f, y, pub, w.hostPub(name)).value;
    reply := MsgKexdhReply(w.hostPub(name), f, w.sign(name, k.hash, nonce));
  }

  lemma LineDhInit(w: World, e: Endpoint, base: seq<Wire>, pub: nat, y: nat, nonce: nat)
    requires LineOK(e, base) && !e.kx.sentnewkeys && RecvMsgKexdhInit(w, e, pub, y, nonce).Ok?
    ensures LineOK(RecvMsgKexdhInit(w, e, pub, y, nonce).value, base)
  {
    hide LineOK, RecvMsgKexdhInit, SendMsgNewkeys;
    var k, reply := DhInitSends(w, e, pub, y, nonce);
    LineKex(e, base, k);
    SendKex(e.(kx := k), base, reply);
    var s := EncryptPacket(e.(kx := k), reply);
    LineNewkeysSent(s, base);
    var t := SendMsgNewkeys(s).value;
    LineKex(t, base, t.kx.(requirenext := SSH_MSG_NEWKEYS));
  }

  lemma LineDispatch(w: World, e: Endpoint, base: seq<Wire>, p: Payload, inp: Input)
    requires LineOK(e, base) && Ready(e) && e.kx.dataallowed == !e.kx.sentkexinit && GoodInput(inp)
    requires p.MsgApp? || p.MsgNewkeys? || !e.kx.sentnewkeys
    ensures var r := Dispatch(w, e, p, inp); r.Ok? ==> LineOK(r.value, base)
  {
    var u := MsgApp(SSH_MSG_UNIMPLEMENTED, SequenceNumber(Previous(e.inc.recvseq)));
    SendApp(e, base, u);
    match p
    case MsgKexinit(q) => LineKexinit(w, e, base, q, inp.cookie);
    case MsgNewkeys =>
    case MsgKexdhInit(x) =>
      if RecvMsgKexdhInit(w, e, x, inp.secret, inp.nonce).Ok? { LineDhInit(w, e, base, x, inp.secret, inp.nonce); }
    case MsgKexdhReply(h, f, sig) =>
      if RecvMsgKexdhReply(w, e, h, f, sig, inp.accept).Ok? { LineReply(w, e, base, h, f, sig, inp.accept); }
    case MsgApp(t, _) => SendApps(e.(authdone := e.authdone || inp.authdone), base, inp.packets);
  }

  lemma LineOther(e: Endpoint, base: seq<Wire>, t: byte, i: Incoming, k: Kex)
    requires LineOK(e, base) && k.dataallowed == e.kx.dataallowed && k.sentnewkeys == e.kx.sentnewkeys
    ensures LineOK(e.(lastpacket := t, inc := i, kx := k), base)
  {
  }

  lemma LineReceive(w: World, e: Endpoint, base: seq<Wire>, m: Wire, inp: Input)
    requires LineOK(e, base) && Ready(e) && e.kx.dataallowed == !e.kx.sentkexinit && GoodInput(inp)
    requires e.kx.sentnewkeys ==> e.kx.requirenext == SSH_MSG_NEWKEYS
    ensures var r := Receive(w, e, m, inp); r.Ok? ==> LineOK(r.value, base)
  {
    hide LineOK, Dispatch;
    LineOther(e, base, Type(m.payload), Incoming(Ran(e.inc.recv, m.payload), Next(e.inc.recvseq)), e.kx.(requirenext := 0));
    LineOther(e, base, Type(m.payload), Incoming(Ran(e.inc.recv, m.payload), Next(e.inc.recvseq)), e.kx.(requirenext := 0, ignorenext := false));
    LineOther(e, base, Type(m.payload), Incoming(Ran(e.inc.recv, m.payload), Next(e.inc.recvseq)), e.kx);
    var e1 := e.(lastpacket := Type(m.payload), inc := Incoming(Ran(e.inc.recv, m.payload), Next(e.inc.recvseq)), kx := e.kx.(requirenext := 0));
    if m.payload.MsgApp? || m.payload.MsgNewkeys? || !e.kx.sentnewkeys { LineDispatch(w, e1, base, m.payload, inp); }
  }

  lemma LineTimeouts(w: World, e: Endpoint, base: seq<Wire>, inp: Input)
    requires LineOK(e, base) && Ready(e) && e.kx.dataallowed == !e.kx.sentkexinit
    ensures LineOK(CheckTimeouts(w, e, inp), base)
  {
    var e1 := if !e.kx.sentkexinit && inp.due then SendMsgKexinit(w, e, inp.cookie) else e;
    assert LineOK(e1, base) && Ready(e1) by {
      if !e.kx.sentkexinit { SendKex(e, base, MsgKexinit(Proposal(inp.cookie, w.advertise(e.kx.cfg), false))); }
    }
    SendApp(e1, base, MsgApp(SSH_MSG_IGNORE, Bytes([0, 0, 0, 0])));
  }

  lemma LineHandler(w: World, e: Endpoint, base: seq<Wire>, inp: Input)
    requires LineOK(e, base) && Ready(e) && GoodInput(inp)
    requires e.kx.sentnewkeys ==> e.kx.kexState == KEXDH_INIT_SENT
    ensures var r := CliSessionLoop(w, e, inp); r.Ok? ==> LineOK(r.value, base)
  {
    hide LineOK, EncryptPacket, AppSendAll;
    if e.kx.newkeys.Some? && !e.kx.sentnewkeys {
      var pub := w.exptmod(DH_G_VAL, inp.secret, w.prime(e.kx.newkeys.value.kex));
      var t := EncryptPacket(e, MsgKexdhInit(pub));
      SendKex(e, base, MsgKexdhInit(pub));
      LineKex(t, base, t.kx.(dhE := Some(pub), dhX := Some(inp.secret), requirenext := SSH_MSG_KEXDH_REPLY, kexState := KEXDH_INIT_SENT));
    }
    LineKex(e, base, e.kx.(kexState := KEX_NOTHING));
    SendApps(e, base, inp.packets);
    SendApps(e.(kx := e.kx.(kexState := KEX_NOTHING)), base, inp.packets);
  }

  /** Once our NEWKEYS is out, only the peer's is awaited. */
  predicate InStep(k: Kex) {
    k.sentnewkeys ==> k.sentkexinit && k.requirenext == SSH_MSG_NEWKEYS && (k.role == Client ==> k.kexState == KEXDH_INIT_SENT)
  }

  /** Every step of the loop keeps the packets of this end in line. */
  lemma LineStep(w: World, e: Endpoint, base: seq<Wire>, inbox: seq<Wire>, inp: Input)
    requires LineOK(e, base) && (e.phase != Flushing ==> Ready(e)) && GoodInput(inp)
    requires e.kx.dataallowed == !e.kx.sentkexinit && InStep(e.kx)
    ensures var r := Step(w, e, inbox, inp); LineOK(r.me, base + r.put)
  {
    assert base + [] == base;
    if e.dead.None? {
      match e.phase
      case Timeouts => LineTimeouts(w, e, base, inp);
      case Writing =>
        var q := e.out.writequeue;
        if q != [] { assert (base + [q[0]]) + q[1..] == base + q; }
      case Reading => if inp.go && inbox != [] { LineReceive(w, e, base, inbox[0], inp); }
      case Flushing => Flush(e, base);
      case Channels => if e.kx.dataallowed { SendApps(e, base, inp.packets); }
      case Handler => if e.kx.role == Client { LineHandler(w, e, base, inp); }
    }
  }

  // ---------------------------------------------------------------- all runs

  predicate LinesOK(n: Net) {
    LineOK(n.c, n.gotS + n.toS) && LineOK(n.s, n.gotC + n.toC)
  }

  /** What the invariant says of one end's readiness to send. */
  predicate Calm(e: Endpoint) {
    && (e.phase != Flushing ==> Ready(e))
    && e.kx.dataallowed == !e.kx.sentkexinit && InStep(e.kx)
  }

  lemma CalmEnds(w: World, g: Deal, n: Net)
    requires NetInv(w, g, n)
    ensures Calm(n.c) && Calm(n.s)
  {
  }

  lemma LinesMoveC(w: World, n: Net, inp: Input)
    requires Calm(n.c) && LinesOK(n) && GoodInput(inp)
    ensures LinesOK(Move(w, n, Client, inp))
  {
    hide LineOK, Step;
    LineStep(w, n.c, n.gotS + n.toS, n.toC, inp);
    var r := Step(w, n.c, n.toC, inp);
    assert n.gotS + (n.toS + r.put) == n.gotS + n.toS + r.put;
    if r.took { assert (n.gotC + [n.toC[0]]) + n.toC[1..] == n.gotC + n.toC; }
  }

  lemma LinesMoveS(w: World, n: Net, inp: Input)
    requires Calm(n.s) && LinesOK(n) && GoodInput(inp)
    ensures LinesOK(Move(w, n, Server, inp))
  {
    hide LineOK, Step;
    LineStep(w, n.s, n.gotC + n.toC, n.toS, inp);
    var r := Step(w, n.s, n.toS, inp);
    assert n.gotC + (n.toC + r.put) == n.gotC + n.toC + r.put;
    if r.took { assert (n.gotS + [n.toS[0]]) + n.toS[1..] == n.gotS + n.toS; }
  }

  lemma {:induction false} RunLines(w: World, cc: Config, sc: Config, kc: seq<byte>, ks: seq<byte>, run: seq<Choice>)
    requires GoodWorld(w) && GoodRun(run)
    ensures LinesOK(After(w, cc, sc, kc, ks, run))
    decreases |run|
  {
    if run == [] {
      StartLine(StartSession(w, Client, cc, sc.ident, kc));
      StartLine(StartSession(w, Server, sc, cc.ident, ks));
    } else {
      var k := |run| - 1;
      RunLines(w, cc, sc, kc, ks, run[..k]);
      var n := After(w, cc, sc, kc, ks, run[..k]);
      assert Calm(n.c) && Calm(n.s) by {
        RunFacts(w, cc, sc, kc, ks, run[..k]);
        CalmEnds(w, MakeDeal(w, cc, sc), n);
      }
      if run[k].who == Client { LinesMoveC(w, n, run[k].inp); } else { LinesMoveS(w, n, run[k].inp); }
    }
  }

  lemma StartLine(e: Endpoint)
    requires |e.out.writequeue| == 1 && !AppPayload(e.out.writequeue[0].payload)
    requires e.out.replyqueue == [] && e.out.produced == [] && !e.out.passed
    ensures LineOK(e, [] + [])
  {
    var q := Contents([] + [] + e.out.writequeue);
    assert q == [] + [q[0]];
    forall okay { SiftAppend([], q[0], okay); }
    AppsAppend([], q[0]);
  }

  /** Over every run and for each end: of the packets that key exchange holds back, and
      likewise of those it lets through, what was produced is exactly what has been sent
      followed by what is still held. So each is sent once, in the order produced. */
  lemma HeldPacketsInOrder(w: World, cc: Config, sc: Config, kc: seq<byte>, ks: seq<byte>, run: seq<Choice>, okay: bool)
    requires GoodWorld(w) && GoodRun(run)
    ensures var n := After(w, cc, sc, kc, ks, run);
      && Sift(Contents(SentByC(n)), okay) + Sift(n.c.out.replyqueue, okay) == Sift(n.c.out.produced, okay)
      && Sift(Contents(SentByS(n)), okay) + Sift(n.s.out.replyqueue, okay) == Sift(n.s.out.produced, okay)
  {
    hide Sift, Contents, After, Apps;
    RunLines(w, cc, sc, kc, ks, run);
    var n := After(w, cc, sc, kc, ks, run);
    assert SentByC(n) == n.gotS + n.toS + n.c.out.writequeue;
    assert SentByS(n) == n.gotC + n.toC + n.s.out.writequeue;
    assert Tally(Contents(SentByC(n)), n.c.out.replyqueue, n.c.out.produced, okay);
    assert Tally(Contents(SentByS(n)), n.s.out.replyqueue, n.s.out.produced, okay);
  }

  // ------------------------------------- packets that may pass the held ones

  /** Over every run and for each end: the packets leave in the order in which they were
      produced if and only if no step of the run handed encrypt_packet a packet that key
      exchange permits, before our NEWKEYS, while others were held. */
  lemma OrderKeptIff(w: World, cc: Config, sc: Config, kc: seq<byte>, ks: seq<byte>, run: seq<Choice>)
    requires GoodWorld(w) && GoodRun(run)
    ensures var n := After(w, cc, sc, kc, ks, run);
      && (Apps(Contents(SentByC(n))) + n.c.out.replyqueue == n.c.out.produced <==> !n.c.out.passed)
      && (Apps(Contents(SentByS(n))) + n.s.out.replyqueue == n.s.out.produced <==> !n.s.out.passed)
  {
    hide Apps, Contents, After, Tally;
    RunLines(w, cc, sc, kc, ks, run);
    var n := After(w, cc, sc, kc, ks, run);
    assert SentByC(n) == n.gotS + n.toS + n.c.out.writequeue;
    assert SentByS(n) == n.gotC + n.toC + n.s.out.writequeue;
  }

  /** The flag records exactly that: it is set by a packet that meets the condition when it is
      produced, and never cleared. */
  lemma PassedMeans(e: Endpoint, p: Payload)
    ensures AppSend(e, p).out.passed <==> e.out.passed || PassesHeld(e.kx, e.out.replyqueue, p)
    ensures PassesHeld(e.kx, e.out.replyqueue, p) ==>
      AppSend(e, p).out.replyqueue == e.out.replyqueue && AppSend(e, p).out.writequeue == e.out.writequeue + [Sealed(e, p)]
  {
  }
}
