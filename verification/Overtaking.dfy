/**
  A run in which packets do leave out of order. The first exchange completes, the client asks
  for the authentication service, authenticates at the second attempt and opens a channel; the
  server, which has just started a rekey, holds its confirmation, and then a keepalive falls due
  and goes out first. Every packet is one that the handlers of the two programs make there.
*/
module Overtaking {
  import opened Bytes
  import opened NumberTheory
  import opened Transport
  import opened Network
  import opened Agreement
  import opened Runs
  import opened SafetyTheorems

  // -------------------------------------------------------- where a run stands

  datatype Setting = Setting(w: World, cc: Config, sc: Config, kc: seq<byte>, ks: seq<byte>)

  /** The two ends find algorithms in common. */
  ghost predicate Fine(x: Setting) {
    GoodWorld(x.w) && MakeDeal(x.w, x.cc, x.sc).forC.Ok?
  }

  ghost predicate At(x: Setting, run: seq<Choice>, n: Net) {
    GoodRun(run) && n == After(x.w, x.cc, x.sc, x.kc, x.ks, run)
  }

  function Types(f: seq<Wire>): (t: seq<byte>)
    ensures |t| == |f| && forall i :: 0 <= i < |f| ==> t[i] == Type(f[i].payload)
  {
    seq(|f|, i requires 0 <= i < |f| => Type(f[i].payload))
  }

  /** What matters of an end: its place in the exchange, its place in the loop, its queue, and
      the application packets it has made and holds. */
  datatype View = View(pos: Pos, epoch: nat, phase: Phase, queue: seq<byte>,
                       said: seq<Payload>, held: seq<Payload>, passed: bool, auth: bool)

  function ViewOf(e: Endpoint): View {
    View(PosOf(e.kx), e.kx.epoch, e.phase, Types(e.out.writequeue), e.out.produced, e.out.replyqueue, e.out.passed, e.authdone)
  }

  /** The view of an end that has made no application packet yet. */
  function Fresh(pos: Pos, epoch: nat, phase: Phase, queue: seq<byte>): View {
    View(pos, epoch, phase, queue, [], [], false, false)
  }

  /** The end is alive and has nothing to flush. */
  predicate Silent(e: Endpoint) {
    e.dead.None? && (e.kx.dataallowed ==> e.out.replyqueue == [])
  }

  predicate Stands(n: Net, c: View, s: View, toS: seq<byte>, toC: seq<byte>) {
    && ViewOf(n.c) == c && ViewOf(n.s) == s && Silent(n.c) && Silent(n.s)
    && Types(n.toS) == toS && Types(n.toC) == toC
  }

  function NextPhase(p: Phase): Phase {
    match p
    case Timeouts => Writing
    case Writing => Reading
    case Reading => Flushing
    case Flushing => Channels
    case Channels => Handler
    case Handler => Timeouts
  }

  /** An input under which nothing happens; `go` lets a read or a write take place. */
  function NoInput(go: bool): Input {
    Input(go, false, false, [], 0, 0, true, false, false, [])
  }

  lemma Extend(x: Setting, run: seq<Choice>, n: Net, who: Role, inp: Input)
    requires At(x, run, n) && GoodInput(inp)
    ensures At(x, run + [Choice(who, inp)], Move(x.w, n, who, inp))
  {
    var r := run + [Choice(who, inp)];
    assert r[..|r| - 1] == run;
  }

  lemma Facts(x: Setting, run: seq<Choice>, n: Net)
    requires At(x, run, n) && Fine(x)
    ensures var g := MakeDeal(x.w, x.cc, x.sc);
      g.forC.Ok? && g.forS.Ok? && GoodDeal(x.w, g) && NetInv(x.w, g, n)
  {
    RunFacts(x.w, x.cc, x.sc, x.kc, x.ks, run);
  }

  // ------------------------------------------------------------- single steps

  /** Outside the client's handler an idle turn changes nothing but the phase. */
  lemma QuietStep(w: World, e: Endpoint, inbox: seq<Wire>)
    requires Silent(e) && (e.phase == Handler ==> e.kx.role == Server)
    ensures Step(w, e, inbox, NoInput(false)) == Local(e.(phase := NextPhase(e.phase)), false, [])
  {
    hide Receive, SendMsgKexinit, CliSessionLoop;
  }

  /** So does an idle turn of the client's handler, except for resetting its driver. */
  lemma QuietHandler(w: World, mine: Outcome<NewKeys>, e: Endpoint, inbox: seq<Wire>)
    requires Silent(e) && e.phase == Handler && e.kx.role == Client && PosOf(e.kx) != Both
    requires KexOK(w, mine, e.kx) && DriverOK(e.kx, e.lastpacket, e.phase)
    ensures var l := Step(w, e, inbox, NoInput(false));
      !l.took && l.put == [] && Silent(l.me) && ViewOf(l.me) == ViewOf(e).(phase := Timeouts)
  {
    CliSessionLoopIs(w, mine, e, NoInput(false));
    hide CliSessionLoop, KexOK;
  }

  lemma QuietC(x: Setting, run: seq<Choice>, n: Net) returns (r: seq<Choice>, m: Net)
    requires At(x, run, n) && Fine(x) && Silent(n.c) && !(n.c.phase == Handler && PosOf(n.c.kx) == Both)
    ensures At(x, r, m) && m.s == n.s && m.toS == n.toS && m.toC == n.toC
    ensures Silent(m.c) && ViewOf(m.c) == ViewOf(n.c).(phase := NextPhase(n.c.phase))
  {
    var inp := NoInput(false);
    Facts(x, run, n);
    var g := MakeDeal(x.w, x.cc, x.sc);
    Extend(x, run, n, Client, inp);
    r, m := run + [Choice(Client, inp)], Move(x.w, n, Client, inp);
    assert n.toS + [] == n.toS;
    if n.c.phase == Handler { QuietHandler(x.w, g.forC, n.c, n.toC); } else { QuietStep(x.w, n.c, n.toC); }
    hide Step, At, Fine;
  }

  lemma QuietS(x: Setting, run: seq<Choice>, n: Net) returns (r: seq<Choice>, m: Net)
    requires At(x, run, n) && Fine(x) && Silent(n.s)
    ensures At(x, r, m) && m.c == n.c && m.toS == n.toS && m.toC == n.toC
    ensures Silent(m.s) && ViewOf(m.s) == ViewOf(n.s).(phase := NextPhase(n.s.phase))
  {
    var inp := NoInput(false);
    Facts(x, run, n);
    Extend(x, run, n, Server, inp);
    r, m := run + [Choice(Server, inp)], Move(x.w, n, Server, inp);
    assert n.toC + [] == n.toC;
    QuietStep(x.w, n.s, n.toS);
    hide Step, At, Fine, NetInv;
  }

  /** Through the loop to a given phase, doing nothing on the way. */
  lemma ToPhaseC(x: Setting, run: seq<Choice>, n: Net, ph: Phase) returns (r: seq<Choice>, m: Net)
    requires At(x, run, n) && Fine(x) && Silent(n.c)
    requires PosOf(n.c.kx) == Both ==> ph == Handler && (n.c.phase == Flushing || n.c.phase == Channels)
    ensures At(x, r, m) && m.s == n.s && m.toS == n.toS && m.toC == n.toC
    ensures Silent(m.c) && ViewOf(m.c) == ViewOf(n.c).(phase := ph)
  {
    hide At, Fine, Silent, ViewOf, PosOf, Distance, NextPhase;
    r, m := run, n;
    SameView(n.c);
    while m.c.phase != ph
      invariant At(x, r, m) && m.s == n.s && m.toS == n.toS && m.toC == n.toC
      invariant Silent(m.c) && ViewOf(m.c) == ViewOf(n.c).(phase := m.c.phase) && PosOf(m.c.kx) == PosOf(n.c.kx)
      invariant PosOf(m.c.kx) == Both ==> ph == Handler && (m.c.phase == Flushing || m.c.phase == Channels || m.c.phase == Handler)
      decreases Distance(m.c.phase, ph)
    {
      ghost var before := m;
      r, m := QuietC(x, r, m);
      ViewPos(before.c, m.c);
      Closer(before.c.phase, ph);
    }
  }

  function Number(p: Phase): nat {
    match p
    case Timeouts => 0 case Writing => 1 case Reading => 2 case Flushing => 3 case Channels => 4 case Handler => 5
  }

  function Distance(a: Phase, b: Phase): nat { (Number(b) + 6 - Number(a)) % 6 }

  lemma Closer(a: Phase, b: Phase)
    ensures a != b ==> Distance(NextPhase(a), b) < Distance(a, b)
    ensures a == Flushing ==> NextPhase(a) == Channels
    ensures a == Channels ==> NextPhase(a) == Handler
  {
  }

  lemma SameView(e: Endpoint)
    ensures ViewOf(e) == ViewOf(e).(phase := e.phase)
  {
  }

  lemma ViewPos(a: Endpoint, b: Endpoint)
    requires ViewOf(b) == ViewOf(a).(phase := NextPhase(a.phase))
    ensures PosOf(b.kx) == PosOf(a.kx) && b.phase == NextPhase(a.phase)
    ensures ViewOf(b) == ViewOf(a).(phase := b.phase)
  {
  }

  lemma ToPhaseS(x: Setting, run: seq<Choice>, n: Net, ph: Phase) returns (r: seq<Choice>, m: Net)
    requires At(x, run, n) && Fine(x) && Silent(n.s)
    ensures At(x, r, m) && m.c == n.c && m.toS == n.toS && m.toC == n.toC
    ensures Silent(m.s) && ViewOf(m.s) == ViewOf(n.s).(phase := ph)
  {
    hide At, Fine, Silent, ViewOf, PosOf, Distance, NextPhase;
    r, m := run, n;
    SameView(n.s);
    while m.s.phase != ph
      invariant At(x, r, m) && m.c == n.c && m.toS == n.toS && m.toC == n.toC
      invariant Silent(m.s) && ViewOf(m.s) == ViewOf(n.s).(phase := m.s.phase)
      decreases Distance(m.s.phase, ph)
    {
      ghost var before := m;
      r, m := QuietS(x, r, m);
      ViewPos(before.s, m.s);
      Closer(before.s.phase, ph);
    }
  }

  lemma TypesTail(f: seq<Wire>, p: Wire)
    ensures Types(f + [p]) == Types(f) + [Type(p.payload)]
    ensures f != [] ==> Types(f[1..]) == Types(f)[1..]
  {
  }

  /** write_packet: the head of the queue goes on the link. */
  lemma PushC(x: Setting, run: seq<Choice>, n: Net) returns (r: seq<Choice>, m: Net)
    requires At(x, run, n) && Fine(x) && Silent(n.c) && n.c.phase == Writing && n.c.out.writequeue != []
    ensures At(x, r, m) && m.s == n.s && m.toC == n.toC && Silent(m.c)
    ensures ViewOf(m.c) == ViewOf(n.c).(phase := Reading, queue := Types(n.c.out.writequeue)[1..])
    ensures Types(m.toS) == Types(n.toS) + [Types(n.c.out.writequeue)[0]]
  {
    var inp := NoInput(true);
    Extend(x, run, n, Client, inp);
    r, m := run + [Choice(Client, inp)], Move(x.w, n, Client, inp);
    TypesTail(n.c.out.writequeue, n.c.out.writequeue[0]);
    TypesTail(n.toS, n.c.out.writequeue[0]);
  }

  lemma PushS(x: Setting, run: seq<Choice>, n: Net) returns (r: seq<Choice>, m: Net)
    requires At(x, run, n) && Fine(x) && Silent(n.s) && n.s.phase == Writing && n.s.out.writequeue != []
    ensures At(x, r, m) && m.c == n.c && m.toS == n.toS && Silent(m.s)
    ensures ViewOf(m.s) == ViewOf(n.s).(phase := Reading, queue := Types(n.s.out.writequeue)[1..])
    ensures Types(m.toC) == Types(n.toC) + [Types(n.s.out.writequeue)[0]]
  {
    var inp := NoInput(true);
    Extend(x, run, n, Server, inp);
    r, m := run + [Choice(Server, inp)], Move(x.w, n, Server, inp);
    TypesTail(n.s.out.writequeue, n.s.out.writequeue[0]);
    TypesTail(n.toC, n.s.out.writequeue[0]);
  }

  // ---------------------------------------------------- key exchange messages

  /** The move that takes the packet at the head of the link to the client. */
  lemma TakeC(x: Setting, run: seq<Choice>, n: Net, inp: Input, e: Endpoint) returns (r: seq<Choice>, m: Net)
    requires At(x, run, n) && n.c.dead.None? && n.c.phase == Reading && n.toC != []
    requires inp.go && GoodInput(inp) && Receive(x.w, n.c, n.toC[0], inp) == Ok(e)
    ensures At(x, r, m) && m.c == e.(phase := Flushing) && m.s == n.s && m.toS == n.toS
    ensures Types(m.toC) == Types(n.toC)[1..]
  {
    hide Receive;
    Extend(x, run, n, Client, inp);
    r, m := run + [Choice(Client, inp)], Move(x.w, n, Client, inp);
    assert n.toS + [] == n.toS;
    TypesTail(n.toC, n.toC[0]);
  }

  lemma TakeS(x: Setting, run: seq<Choice>, n: Net, inp: Input, e: Endpoint) returns (r: seq<Choice>, m: Net)
    requires At(x, run, n) && n.s.dead.None? && n.s.phase == Reading && n.toS != []
    requires inp.go && GoodInput(inp) && Receive(x.w, n.s, n.toS[0], inp) == Ok(e)
    ensures At(x, r, m) && m.s == e.(phase := Flushing) && m.c == n.c && m.toC == n.toC
    ensures Types(m.toS) == Types(n.toS)[1..]
  {
    hide Receive;
    Extend(x, run, n, Server, inp);
    r, m := run + [Choice(Server, inp)], Move(x.w, n, Server, inp);
    assert n.toC + [] == n.toC;
    TypesTail(n.toS, n.toS[0]);
  }

  lemma KexinitC(x: Setting, run: seq<Choice>, n: Net) returns (r: seq<Choice>, m: Net)
    requires At(x, run, n) && Fine(x) && Silent(n.c) && n.c.phase == Reading && PosOf(n.c.kx) == Sent
    requires n.toC != [] && Types(n.toC)[0] == SSH_MSG_KEXINIT
    ensures At(x, r, m) && m.s == n.s && m.toS == n.toS && Types(m.toC) == Types(n.toC)[1..]
    ensures Silent(m.c) && ViewOf(m.c) == ViewOf(n.c).(pos := Both, phase := Flushing)
  {
    hide Types;
    var w, g := x.w, MakeDeal(x.w, x.cc, x.sc);
    Facts(x, run, n);
    assert n.toC[0].payload.MsgKexinit? by { HeadOpens(n.s, n.c, FlightS(n)); }
    HeadKexinitC(w, g, n);
    var q := n.toC[0].payload.proposal;
    ReceiveKexinitIs(w, n.c, n.toC[0], NoInput(true));
    var e0 := n.c.(lastpacket := SSH_MSG_KEXINIT, inc := Opened(n.c.inc, n.toC[0].payload));
    TakeKexinitC(w, g, e0, q, []);
    hide Receive, RecvMsgKexinit, NetInv, At;
    assert n.c.kx.kexState == KEX_NOTHING by { DriverSent(w, g, n); }
    r, m := TakeC(x, run, n, NoInput(true), e0.(kx := KexinitOpenedC(g, e0.kx, q)));
  }

  lemma DriverSent(w: World, g: Deal, n: Net)
    requires NetInv(w, g, n) && PosOf(n.c.kx) == Sent
    ensures n.c.kx.kexState == KEX_NOTHING
  {
  }

  lemma KexinitS(x: Setting, run: seq<Choice>, n: Net) returns (r: seq<Choice>, m: Net)
    requires At(x, run, n) && Fine(x) && Silent(n.s) && n.s.phase == Reading && PosOf(n.s.kx) == Sent
    requires n.toS != [] && Types(n.toS)[0] == SSH_MSG_KEXINIT
    ensures At(x, r, m) && m.c == n.c && m.toC == n.toC && Types(m.toS) == Types(n.toS)[1..]
    ensures Silent(m.s) && ViewOf(m.s) == ViewOf(n.s).(pos := Both, phase := Flushing)
  {
    hide Types;
    var w, g := x.w, MakeDeal(x.w, x.cc, x.sc);
    Facts(x, run, n);
    assert n.toS[0].payload.MsgKexinit? by { HeadOpens(n.c, n.s, FlightC(n)); }
    HeadKexinitS(w, g, n);
    var q := n.toS[0].payload.proposal;
    ReceiveKexinitIs(w, n.s, n.toS[0], NoInput(true));
    var e0 := n.s.(lastpacket := SSH_MSG_KEXINIT, inc := Opened(n.s.inc, n.toS[0].payload));
    TakeKexinitS(w, g, e0, q, []);
    hide Receive, RecvMsgKexinit, NetInv, At;
    r, m := TakeS(x, run, n, NoInput(true), e0.(kx := KexinitOpenedS(g, e0.kx, q)));
  }

  /** cli_sessionloop after the server's KEXINIT. */
  lemma DriveC(x: Setting, run: seq<Choice>, n: Net) returns (r: seq<Choice>, m: Net)
    requires At(x, run, n) && Fine(x) && Silent(n.c) && n.c.phase == Handler && PosOf(n.c.kx) == Both
    ensures At(x, r, m) && m.s == n.s && m.toS == n.toS && m.toC == n.toC && Silent(m.c)
    ensures ViewOf(m.c) == ViewOf(n.c).(pos := Dh, phase := Timeouts, queue := Types(n.c.out.writequeue) + [SSH_MSG_KEXDH_INIT])
  {
    var w, g := x.w, MakeDeal(x.w, x.cc, x.sc);
    Facts(x, run, n);
    var inp := NoInput(false);
    CliSessionLoopIs(w, g.forC, n.c, inp);
    Extend(x, run, n, Client, inp);
    r, m := run + [Choice(Client, inp)], Move(w, n, Client, inp);
    assert n.toS + [] == n.toS;
    var pub := w.exptmod(DH_G_VAL, 0, w.prime(g.forC.value.kex));
    TypesTail(n.c.out.writequeue, Sealed(n.c, MsgKexdhInit(pub)));
    hide CliSessionLoop, NetInv, At, Types;
  }

  lemma DhInitS(x: Setting, run: seq<Choice>, n: Net) returns (r: seq<Choice>, m: Net)
    requires At(x, run, n) && Fine(x) && Silent(n.s) && n.s.phase == Reading && PosOf(n.s.kx) == Both
    requires n.toS != [] && Types(n.toS)[0] == SSH_MSG_KEXDH_INIT
    ensures At(x, r, m) && m.c == n.c && m.toC == n.toC && Types(m.toS) == Types(n.toS)[1..] && Silent(m.s)
    ensures ViewOf(m.s)
      == ViewOf(n.s).(pos := New, phase := Flushing, queue := Types(n.s.out.writequeue) + [SSH_MSG_KEXDH_REPLY] + [SSH_MSG_NEWKEYS])
  {
    var w, g := x.w, MakeDeal(x.w, x.cc, x.sc);
    var inp := NoInput(true);
    Facts(x, run, n);
    assert n.toS[0].payload.MsgKexdhInit? by { HeadOpens(n.c, n.s, FlightC(n)); }
    var pub := n.toS[0].payload.e;
    var p := w.prime(g.forS.value.kex);
    assert 0 < pub < p by { InRange(w, g, n); }
    assert n.toS[0].dir == n.s.inc.recv && n.toS[0].seqno == n.s.inc.recvseq by { HeadOpens(n.c, n.s, FlightC(n)); }
    ReceiveDhInitIs(w, g, n.s, n.toS[0], inp);
    var hostkey := w.hostPub(g.forS.value.hostkey);
    var f := w.exptmod(DH_G_VAL, 0, p);
    var k := w.exptmod(pub, 0, p);
    var h := w.xhash(n.s.kx.kexhashbuf.value, hostkey, pub, f, k);
    var reply := MsgKexdhReply(hostkey, f, w.sign(g.forS.value.hostkey, h, 0));
    hide Receive, NetInv, At;
    r, m := TakeS(x, run, n, NoInput(true), KexdhInitOpened(n.s, pub, reply, k, h).(phase := Reading));
    AnswerView(n.s, pub, reply, k, h);
  }

  lemma InRange(w: World, g: Deal, n: Net)
    requires NetInv(w, g, n) && GoodDeal(w, g) && GoodWorld(w) && n.toS != [] && n.toS[0].payload.MsgKexdhInit?
    requires g.forC.Ok? && g.forS.Ok?
    ensures 0 < n.toS[0].payload.e < w.prime(g.forS.value.kex)
  {
    HeadOpens(n.c, n.s, FlightC(n));
    assert ContentC(g, n.c.kx, n.s.kx, FlightC(n)[0].payload);
    DhFacts(w, g.forS.value.kex, n.c.kx.dhX.value, 0);
  }

  lemma AnswerView(e: Endpoint, pub: nat, reply: Payload, k: nat, h: seq<byte>)
    requires Silent(e) && PosOf(e.kx) == Both && reply.MsgKexdhReply?
    ensures var m := KexdhInitOpened(e, pub, reply, k, h);
      && Silent(m)
      && ViewOf(m) == ViewOf(e).(pos := New, phase := Flushing, queue := Types(e.out.writequeue) + [SSH_MSG_KEXDH_REPLY] + [SSH_MSG_NEWKEYS])
  {
    var q := e.out.writequeue;
    TypesTail(q, Sealed(e, reply));
    TypesTail(q + [Sealed(e, reply)], Sealed(EncryptPacket(e, reply), MsgNewkeys));
    hide Types;
  }

  lemma ReplyC(x: Setting, run: seq<Choice>, n: Net) returns (r: seq<Choice>, m: Net)
    requires At(x, run, n) && Fine(x) && Silent(n.c) && n.c.phase == Reading
    requires n.toC != [] && Types(n.toC)[0] == SSH_MSG_KEXDH_REPLY
    ensures At(x, r, m) && m.s == n.s && m.toS == n.toS && Types(m.toC) == Types(n.toC)[1..] && Silent(m.c)
    ensures ViewOf(m.c) == ViewOf(n.c).(pos := New, phase := Flushing, queue := Types(n.c.out.writequeue) + [SSH_MSG_NEWKEYS])
  {
    var w, g := x.w, MakeDeal(x.w, x.cc, x.sc);
    Facts(x, run, n);
    hide Receive, At, KexdhReplyOpened;
    ReplyHead(w, g, n);
    var p := n.toC[0].payload;
    var k, h := ReplyTaken(w, g, n);
    hide NetInv;
    r, m := TakeC(x, run, n, NoInput(true), KexdhReplyOpened(n.c, p, k, h).(phase := Reading));
    ReplyView(n.c, p, k, h);
  }

  lemma ReplyHead(w: World, g: Deal, n: Net)
    requires NetInv(w, g, n) && n.toC != [] && Type(n.toC[0].payload) == SSH_MSG_KEXDH_REPLY
    ensures n.toC[0].payload.MsgKexdhReply? && PosOf(n.c.kx) == Dh && PosOf(n.s.kx) == New
  {
    HeadOpens(n.s, n.c, FlightS(n));
  }

  lemma ReplyView(e: Endpoint, p: Payload, k: nat, h: seq<byte>)
    requires Silent(e) && PosOf(e.kx) == Dh
    ensures var m := KexdhReplyOpened(e, p, k, h);
      && Silent(m) && m.phase == Flushing
      && ViewOf(m) == ViewOf(e).(pos := New, phase := Flushing, queue := Types(e.out.writequeue) + [SSH_MSG_NEWKEYS])
  {
    TypesTail(e.out.writequeue, Sealed(e, MsgNewkeys));
    hide Types;
  }

  lemma ReplyTaken(w: World, g: Deal, n: Net) returns (k: nat, h: seq<byte>)
    requires NetInv(w, g, n) && GoodDeal(w, g) && GoodWorld(w) && g.forC.Ok? && n.c.phase == Reading
    requires n.toC != [] && n.toC[0].payload.MsgKexdhReply? && PosOf(n.c.kx) == Dh && PosOf(n.s.kx) == New
    ensures Receive(w, n.c, n.toC[0], NoInput(true)) == Ok(KexdhReplyOpened(n.c, n.toC[0].payload, k, h).(phase := Reading))
  {
    HeadOpens(n.s, n.c, FlightS(n));
    assert ContentS(w, g, n.c.kx, n.s.kx, FlightS(n)[0].payload);
    k, h := n.s.kx.dhK.value, n.s.kx.hash;
    ReceiveReplyIs(w, g, n.c, n.s.kx, n.toC[0], NoInput(true));
  }

  lemma NewkeysC(x: Setting, run: seq<Choice>, n: Net) returns (r: seq<Choice>, m: Net)
    requires At(x, run, n) && Fine(x) && Silent(n.c) && n.c.phase == Reading && PosOf(n.c.kx) == New
    requires n.toC != [] && Types(n.toC)[0] == SSH_MSG_NEWKEYS && n.c.out.replyqueue == []
    ensures At(x, r, m) && m.s == n.s && m.toS == n.toS && Types(m.toC) == Types(n.toC)[1..] && Silent(m.c)
    ensures ViewOf(m.c) == ViewOf(n.c).(pos := Idle, epoch := n.c.kx.epoch + 1, phase := Flushing)
  {
    var w, g := x.w, MakeDeal(x.w, x.cc, x.sc);
    Facts(x, run, n);
    assert n.toC[0].payload == MsgNewkeys by { HeadOpens(n.s, n.c, FlightS(n)); }
    assert n.toC[0].dir == n.c.inc.recv && n.toC[0].seqno == n.c.inc.recvseq by { HeadOpens(n.s, n.c, FlightS(n)); }
    ReceiveNewkeysIs(w, n.c, n.toC[0], NoInput(true));
    hide Receive, NetInv, At;
    r, m := TakeC(x, run, n, NoInput(true), Finished(n.c).(phase := Reading));
  }

  lemma NewkeysS(x: Setting, run: seq<Choice>, n: Net) returns (r: seq<Choice>, m: Net)
    requires At(x, run, n) && Fine(x) && Silent(n.s) && n.s.phase == Reading && PosOf(n.s.kx) == New
    requires n.toS != [] && Types(n.toS)[0] == SSH_MSG_NEWKEYS && n.s.out.replyqueue == []
    ensures At(x, r, m) && m.c == n.c && m.toC == n.toC && Types(m.toS) == Types(n.toS)[1..] && Silent(m.s)
    ensures ViewOf(m.s) == ViewOf(n.s).(pos := Idle, epoch := n.s.kx.epoch + 1, phase := Flushing)
  {
    var w, g := x.w, MakeDeal(x.w, x.cc, x.sc);
    Facts(x, run, n);
    assert n.toS[0].payload == MsgNewkeys by { HeadOpens(n.c, n.s, FlightC(n)); }
    assert n.toS[0].dir == n.s.inc.recv && n.toS[0].seqno == n.s.inc.recvseq by { HeadOpens(n.c, n.s, FlightC(n)); }
    ReceiveNewkeysIs(w, n.s, n.toS[0], NoInput(true));
    hide Receive, NetInv, At;
    r, m := TakeS(x, run, n, NoInput(true), Finished(n.s).(phase := Reading));
  }

  // ------------------------------------------------------- application packets

  lemma OnePacket(e: Endpoint, p: Payload)
    ensures AppSendAll(e, [p]) == AppSend(e, p)
  {
    assert [p][1..] == [] && AppSendAll(AppSend(e, p), []) == AppSend(e, p);
  }

  /** What a packet made now does to the view: outside an exchange it is queued, in an exchange a
      packet that is not permitted is held. */
  lemma MadeView(e: Endpoint, p: Payload)
    requires Silent(e) && !e.kx.sentnewkeys && (e.kx.dataallowed || !OkayKex(Type(p)))
    ensures var m := AppSend(e, p);
      && Silent(m)
      && ViewOf(m) == if e.kx.dataallowed then ViewOf(e).(queue := Types(e.out.writequeue) + [Type(p)], said := e.out.produced + [p])
                      else ViewOf(e).(held := e.out.replyqueue + [p], said := e.out.produced + [p])
  {
    TypesTail(e.out.writequeue, Sealed(e, p));
    hide Types;
  }

  /** cli_sessionloop outside an exchange makes a request. */
  lemma SayC(x: Setting, run: seq<Choice>, n: Net, p: Payload) returns (r: seq<Choice>, m: Net)
    requires At(x, run, n) && Fine(x) && Silent(n.c) && n.c.phase == Handler && PosOf(n.c.kx) == Idle && n.c.kx.epoch > 0
    requires AppPayload(p)
    ensures At(x, r, m) && m.s == n.s && m.toS == n.toS && m.toC == n.toC && Silent(m.c)
    ensures ViewOf(m.c) == ViewOf(n.c).(phase := Timeouts, queue := Types(n.c.out.writequeue) + [Type(p)], said := n.c.out.produced + [p])
  {
    var inp := NoInput(false).(packets := [p]);
    Facts(x, run, n);
    var g := MakeDeal(x.w, x.cc, x.sc);
    CliSessionLoopIs(x.w, g.forC, n.c, inp);
    var e := n.c.(kx := n.c.kx.(kexState := KEX_NOTHING));
    OnePacket(e, p);
    MadeView(e, p);
    Extend(x, run, n, Client, inp);
    r, m := run + [Choice(Client, inp)], Move(x.w, n, Client, inp);
    assert n.toS + [] == n.toS;
    hide CliSessionLoop, AppSendAll, AppSend, At, Types;
  }

  /** A handler of the server takes a request and answers it: outside an exchange the answer is
      queued, between our KEXINIT and the client's it is held. */
  lemma AnswerS(x: Setting, run: seq<Choice>, n: Net, t: byte, q: Payload, auth: bool) returns (r: seq<Choice>, m: Net)
    requires At(x, run, n) && Fine(x) && Silent(n.s) && n.s.phase == Reading && (PosOf(n.s.kx) == Idle || PosOf(n.s.kx) == Sent)
    requires n.s.kx.epoch > 0 && n.toS != [] && Types(n.toS)[0] == t && Handled(Server, t) && (t <= MAX_UNAUTH_PACKET_TYPE || n.s.authdone)
    requires AppPayload(q) && !OkayKex(Type(q))
    ensures At(x, r, m) && m.c == n.c && m.toC == n.toC && Types(m.toS) == Types(n.toS)[1..] && Silent(m.s)
    ensures ViewOf(m.s).auth == (n.s.authdone || auth) && ViewOf(m.s).said == n.s.out.produced + [q]
    ensures ViewOf(m.s) == if PosOf(n.s.kx) == Idle
      then ViewOf(n.s).(phase := Flushing, queue := Types(n.s.out.writequeue) + [Type(q)], said := ViewOf(m.s).said, auth := ViewOf(m.s).auth)
      else ViewOf(n.s).(phase := Flushing, held := n.s.out.replyqueue + [q], said := ViewOf(m.s).said, auth := ViewOf(m.s).auth)
  {
    var inp := NoInput(true).(packets := [q], authdone := auth);
    hide Receive, AppSendAll, AppSend, At, NetInv, Fine, Handled;
    Facts(x, run, n);
    AppHeadS(x.w, MakeDeal(x.w, x.cc, x.sc), n);
    HandledTaken(x.w, n.s, n.toS[0], inp);
    var e := Heard(n.s, n.toS[0], auth);
    OnePacket(e, q);
    MadeView(e, q);
    r, m := TakeS(x, run, n, inp, AppSend(e, q));
    hide Types;
  }

  lemma AppHeadS(w: World, g: Deal, n: Net)
    requires NetInv(w, g, n) && n.toS != [] && Handled(Server, Type(n.toS[0].payload))
    requires n.s.kx.epoch > 0 && (PosOf(n.s.kx) == Idle || PosOf(n.s.kx) == Sent)
    ensures AppPayload(n.toS[0].payload) && n.toS[0].dir == n.s.inc.recv && n.toS[0].seqno == n.s.inc.recvseq
    ensures n.s.kx.requirenext == 0 && !n.s.kx.ignorenext && n.s.kx.role == Server
    ensures n.s.kx.dataallowed <==> PosOf(n.s.kx) == Idle
  {
    HeadOpens(n.c, n.s, FlightC(n));
  }

  lemma AppHeadC(w: World, g: Deal, n: Net)
    requires NetInv(w, g, n) && n.toC != [] && Handled(Client, Type(n.toC[0].payload))
    requires n.c.kx.epoch > 0 && PosOf(n.c.kx) == Idle
    ensures AppPayload(n.toC[0].payload) && n.toC[0].dir == n.c.inc.recv && n.toC[0].seqno == n.c.inc.recvseq
    ensures n.c.kx.requirenext == 0 && !n.c.kx.ignorenext && n.c.kx.role == Client
  {
    HeadOpens(n.s, n.c, FlightS(n));
  }

  /** An end that has opened an application packet. */
  function Heard(e: Endpoint, m: Wire, auth: bool): Endpoint {
    e.(lastpacket := Type(m.payload), inc := Opened(e.inc, m.payload), authdone := e.authdone || auth)
  }

  lemma HandledTaken(w: World, e: Endpoint, m: Wire, inp: Input)
    requires AppPayload(m.payload) && m.dir == e.inc.recv && m.seqno == e.inc.recvseq
    requires e.kx.requirenext == 0 && !e.kx.ignorenext && Handled(e.kx.role, Type(m.payload)) && !inp.handlerExit
    requires Type(m.payload) <= MAX_UNAUTH_PACKET_TYPE || e.authdone
    ensures Receive(w, e, m, inp) == Ok(AppSendAll(Heard(e, m, inp.authdone), inp.packets))
  {
    hide AppSendAll, Handled;
    HandledTypes(e.kx.role, Type(m.payload));
  }

  lemma HandledTypes(role: Role, t: byte)
    requires Handled(role, t)
    ensures t != SSH_MSG_IGNORE && t != SSH_MSG_DEBUG && t != SSH_MSG_UNIMPLEMENTED && t != SSH_MSG_DISCONNECT
  {
  }

  /** A handler of the client takes a packet and makes none. */
  lemma HearC(x: Setting, run: seq<Choice>, n: Net, auth: bool) returns (r: seq<Choice>, m: Net)
    requires At(x, run, n) && Fine(x) && Silent(n.c) && n.c.phase == Reading && PosOf(n.c.kx) == Idle && n.c.kx.epoch > 0
    requires n.toC != [] && Types(n.toC)[0] <= MAX_UNAUTH_PACKET_TYPE && Handled(Client, Types(n.toC)[0])
    ensures At(x, r, m) && m.s == n.s && m.toS == n.toS && Types(m.toC) == Types(n.toC)[1..] && Silent(m.c)
    ensures ViewOf(m.c) == ViewOf(n.c).(phase := Flushing, auth := n.c.authdone || auth)
  {
    var inp := NoInput(true).(authdone := auth);
    hide Receive, At, NetInv, Fine, Handled;
    Facts(x, run, n);
    AppHeadC(x.w, MakeDeal(x.w, x.cc, x.sc), n);
    HandledTaken(x.w, n.c, n.toC[0], inp);
    r, m := TakeC(x, run, n, inp, Heard(n.c, n.toC[0], auth));
  }

  /** checktimeouts at the server when a rekey is due. */
  lemma RekeyS(x: Setting, run: seq<Choice>, n: Net) returns (r: seq<Choice>, m: Net)
    requires At(x, run, n) && Fine(x) && Silent(n.s) && n.s.phase == Timeouts && PosOf(n.s.kx) == Idle
    ensures At(x, r, m) && Silent(m.s) && m.c == n.c && m.toS == n.toS && m.toC == n.toC
    ensures ViewOf(m.s) == ViewOf(n.s).(pos := Sent, phase := Writing, queue := Types(n.s.out.writequeue) + [SSH_MSG_KEXINIT])
  {
    var inp := NoInput(false).(due := true);
    Facts(x, run, n);
    Extend(x, run, n, Server, inp);
    r, m := run + [Choice(Server, inp)], Move(x.w, n, Server, inp);
    assert n.toC + [] == n.toC;
    TypesTail(n.s.out.writequeue, Sealed(n.s, MsgKexinit(Proposal([], x.w.advertise(n.s.kx.cfg), false))));
    hide Types, At;
  }

  const KEEPALIVE: Payload := MsgApp(SSH_MSG_IGNORE, Bytes([0, 0, 0, 0]))

  /** checktimeouts when a keepalive is due and packets are held. */
  lemma KeepaliveS(x: Setting, run: seq<Choice>, n: Net) returns (r: seq<Choice>, m: Net)
    requires At(x, run, n) && Fine(x) && n.s.phase == Timeouts && n.s.dead.None? && PosOf(n.s.kx) == Sent
    requires n.s.out.replyqueue != []
    ensures At(x, r, m) && m.s.out.passed && m.s.out.produced == n.s.out.produced + [KEEPALIVE]
    ensures m.s.out.replyqueue == n.s.out.replyqueue && m.s.kx == n.s.kx && m.s.authdone == n.s.authdone
    ensures m.s.out.writequeue == n.s.out.writequeue + [Sealed(n.s, KEEPALIVE)]
  {
    var inp := NoInput(false).(keepalive := true);
    Facts(x, run, n);
    Extend(x, run, n, Server, inp);
    r, m := run + [Choice(Server, inp)], Move(x.w, n, Server, inp);
    hide At;
  }

  // -------------------------------------------------------------- the whole run

  /** The packets of the session, by type: the bodies are of no consequence here. */
  function Packet(t: byte): Payload { MsgApp(t, Bytes([])) }

  const SERVICE_REQUEST: Payload := Packet(5)
  const SERVICE_ACCEPT: Payload := Packet(6)
  const USERAUTH_REQUEST: Payload := Packet(50)
  const USERAUTH_FAILURE: Payload := Packet(51)
  const USERAUTH_SUCCESS: Payload := Packet(52)
  const CHANNEL_OPEN: Payload := Packet(90)
  const CHANNEL_OPEN_CONFIRMATION: Payload := Packet(91)

  /** The first exchange as far as the client's KEXDH_INIT. */
  lemma FirstHalf(x: Setting) returns (r: seq<Choice>, m: Net)
    requires Fine(x)
    ensures At(x, r, m) && Stands(m, Fresh(Dh, 0, Timeouts, [SSH_MSG_KEXDH_INIT]), Fresh(Sent, 0, Reading, []), [SSH_MSG_KEXINIT], [])
  {
    hide At, Fine, ViewOf, Silent;
    r, m := [], Start(x.w, x.cc, x.sc, x.kc, x.ks);
    assert At(x, r, m) && Stands(m, Fresh(Sent, 0, Timeouts, [SSH_MSG_KEXINIT]), Fresh(Sent, 0, Timeouts, [SSH_MSG_KEXINIT]), [], []) by {
      AtStart(x);
    }
    ViewGives(m.c);
    ViewGives(m.s);
    r, m := ToPhaseC(x, r, m, Writing);
    ViewGives(m.c);
    r, m := PushC(x, r, m);
    r, m := ToPhaseS(x, r, m, Writing);
    ViewGives(m.s);
    r, m := PushS(x, r, m);
    ViewGives(m.c);
    ViewGives(m.s);
    r, m := KexinitC(x, r, m);
    ViewGives(m.c);
    r, m := ToPhaseC(x, r, m, Handler);
    ViewGives(m.c);
    r, m := DriveC(x, r, m);
  }

  lemma ViewGives(e: Endpoint)
    ensures ViewOf(e).pos == PosOf(e.kx) && ViewOf(e).epoch == e.kx.epoch && ViewOf(e).phase == e.phase
    ensures ViewOf(e).queue == Types(e.out.writequeue) && ViewOf(e).said == e.out.produced
    ensures ViewOf(e).held == e.out.replyqueue && ViewOf(e).auth == e.authdone
  {
  }

  lemma AtStart(x: Setting)
    ensures var n := Start(x.w, x.cc, x.sc, x.kc, x.ks);
      At(x, [], n) && Stands(n, Fresh(Sent, 0, Timeouts, [SSH_MSG_KEXINIT]), Fresh(Sent, 0, Timeouts, [SSH_MSG_KEXINIT]), [], [])
  {
    var n := Start(x.w, x.cc, x.sc, x.kc, x.ks);
    assert |n.c.out.writequeue| == 1 && |n.s.out.writequeue| == 1;
  }

  /** The server's part. */
  lemma Answered(x: Setting) returns (r: seq<Choice>, m: Net)
    requires Fine(x)
    ensures At(x, r, m)
      && Stands(m, Fresh(Dh, 0, Reading, []), Fresh(New, 0, Flushing, [SSH_MSG_KEXDH_REPLY, SSH_MSG_NEWKEYS]), [], [])
  {
    hide At, Fine, ViewOf, Silent;
    r, m := FirstHalf(x);
    ViewGives(m.c);
    ViewGives(m.s);
    r, m := ToPhaseC(x, r, m, Writing);
    ViewGives(m.c);
    r, m := PushC(x, r, m);
    r, m := KexinitS(x, r, m);
    ViewGives(m.s);
    r, m := ToPhaseS(x, r, m, Reading);
    ViewGives(m.s);
    r, m := DhInitS(x, r, m);
  }

  /** Both its answers are on the link. */
  lemma SecondHalf(x: Setting) returns (r: seq<Choice>, m: Net)
    requires Fine(x)
    ensures At(x, r, m)
      && Stands(m, Fresh(Dh, 0, Reading, []), Fresh(New, 0, Reading, []), [], [SSH_MSG_KEXDH_REPLY, SSH_MSG_NEWKEYS])
  {
    hide At, Fine, ViewOf, Silent;
    r, m := Answered(x);
    ViewGives(m.s);
    r, m := ToPhaseS(x, r, m, Writing);
    ViewGives(m.s);
    r, m := PushS(x, r, m);
    ViewGives(m.s);
    r, m := ToPhaseS(x, r, m, Writing);
    ViewGives(m.s);
    r, m := PushS(x, r, m);
  }

  /** The client finishes the exchange, and is on its way to its handler. */
  lemma Exchanged(x: Setting) returns (r: seq<Choice>, m: Net)
    requires Fine(x)
    ensures At(x, r, m) && Stands(m, Fresh(Idle, 1, Flushing, [SSH_MSG_NEWKEYS]), Fresh(New, 0, Reading, []), [], [])
  {
    hide At, Fine, ViewOf, Silent;
    r, m := SecondHalf(x);
    ViewGives(m.c);
    r, m := ReplyC(x, r, m);
    ViewGives(m.c);
    r, m := ToPhaseC(x, r, m, Reading);
    ViewGives(m.c);
    r, m := NewkeysC(x, r, m);
  }

  /** In the same turn of its loop it asks for the service. */
  lemma ServiceAsked(x: Setting) returns (r: seq<Choice>, m: Net)
    requires Fine(x)
    ensures At(x, r, m)
      && Stands(m, Fresh(Idle, 1, Reading, []).(said := [SERVICE_REQUEST]), Fresh(New, 0, Reading, []), [SSH_MSG_NEWKEYS, 5], [])
  {
    hide At, Fine, ViewOf, Silent;
    r, m := Exchanged(x);
    ViewGives(m.c);
    r, m := ToPhaseC(x, r, m, Handler);
    ViewGives(m.c);
    r, m := SayC(x, r, m, SERVICE_REQUEST);
    r, m := PushTwo(x, r, m, SSH_MSG_NEWKEYS, 5);
  }

  lemma PushTwo(x: Setting, run: seq<Choice>, n: Net, t: byte, u: byte) returns (r: seq<Choice>, m: Net)
    requires At(x, run, n) && Fine(x) && Silent(n.c) && ViewOf(n.c).queue == [t, u] && ViewOf(n.c).pos == Idle && Types(n.toS) == []
    ensures At(x, r, m) && m.s == n.s && m.toC == n.toC && Silent(m.c) && Types(m.toS) == [t, u]
    ensures ViewOf(m.c) == ViewOf(n.c).(phase := Reading, queue := [])
  {
    hide At, Fine, ViewOf, Silent;
    ViewGives(n.c);
    r, m := ToPhaseC(x, run, n, Writing);
    ViewGives(m.c);
    r, m := PushC(x, r, m);
    ViewGives(m.c);
    r, m := ToPhaseC(x, r, m, Writing);
    ViewGives(m.c);
    r, m := PushC(x, r, m);
  }

  /** A quiet state between packets, outside any exchange. */
  predicate Resting(n: Net, saidC: seq<Payload>, saidS: seq<Payload>, auth: bool) {
    Stands(n, Fresh(Idle, 1, Flushing, []).(said := saidC, auth := auth), Fresh(Idle, 1, Reading, []).(said := saidS, auth := auth), [], [])
  }

  lemma ServiceGiven(x: Setting) returns (r: seq<Choice>, m: Net)
    requires Fine(x)
    ensures At(x, r, m) && Resting(m, [SERVICE_REQUEST], [SERVICE_ACCEPT], false)
  {
    hide At, Fine, ViewOf, Silent;
    r, m := ServiceAsked(x);
    ViewGives(m.c);
    ViewGives(m.s);
    r, m := NewkeysS(x, r, m);
    ViewGives(m.s);
    r, m := ToPhaseS(x, r, m, Reading);
    ViewGives(m.s);
    r, m := AnswerS(x, r, m, 5, SERVICE_ACCEPT, false);
    ViewGives(m.s);
    r, m := ToPhaseS(x, r, m, Writing);
    ViewGives(m.s);
    r, m := PushS(x, r, m);
    r, m := HearC(x, r, m, false);
  }

  /** The client's handler makes p, which travels to the server. */
  lemma AskC(x: Setting, run: seq<Choice>, n: Net, p: Payload, saidC: seq<Payload>, saidS: seq<Payload>, auth: bool)
    returns (r: seq<Choice>, m: Net)
    requires At(x, run, n) && Fine(x) && Resting(n, saidC, saidS, auth) && AppPayload(p)
    ensures At(x, r, m) && m.s == n.s && Silent(m.c) && Types(m.toS) == [Type(p)] && m.toC == n.toC
    ensures ViewOf(m.c) == Fresh(Idle, 1, Reading, []).(said := saidC + [p], auth := auth)
  {
    hide At, Fine, ViewOf, Silent;
    ViewGives(n.c);
    r, m := ToPhaseC(x, run, n, Handler);
    ViewGives(m.c);
    r, m := SayC(x, r, m, p);
    ViewGives(m.c);
    r, m := ToPhaseC(x, r, m, Writing);
    ViewGives(m.c);
    r, m := PushC(x, r, m);
  }

  /** An authentication request and the answer to it. */
  lemma Talk(x: Setting, run: seq<Choice>, n: Net, q: Payload, saidC: seq<Payload>, saidS: seq<Payload>, auth: bool)
    returns (r: seq<Choice>, m: Net)
    requires At(x, run, n) && Fine(x) && Resting(n, saidC, saidS, false) && (q == USERAUTH_FAILURE || q == USERAUTH_SUCCESS)
    ensures At(x, r, m) && Resting(m, saidC + [USERAUTH_REQUEST], saidS + [q], auth)
  {
    hide At, Fine, ViewOf, Silent;
    r, m := AskC(x, run, n, USERAUTH_REQUEST, saidC, saidS, false);
    ViewGives(m.c);
    ViewGives(m.s);
    r, m := AnswerS(x, r, m, 50, q, auth);
    ViewGives(m.s);
    r, m := ToPhaseS(x, r, m, Writing);
    ViewGives(m.s);
    r, m := PushS(x, r, m);
    r, m := HearC(x, r, m, auth);
  }

  /** The first attempt, which only asks for the methods, fails; the second succeeds. */
  lemma Authenticated(x: Setting) returns (r: seq<Choice>, m: Net)
    requires Fine(x)
    ensures At(x, r, m) && Resting(m, [SERVICE_REQUEST, USERAUTH_REQUEST, USERAUTH_REQUEST],
                                   [SERVICE_ACCEPT, USERAUTH_FAILURE, USERAUTH_SUCCESS], true)
  {
    hide At, Fine, Resting;
    r, m := ServiceGiven(x);
    r, m := Talk(x, r, m, USERAUTH_FAILURE, [SERVICE_REQUEST], [SERVICE_ACCEPT], false);
    var c, s := [SERVICE_REQUEST] + [USERAUTH_REQUEST], [SERVICE_ACCEPT] + [USERAUTH_FAILURE];
    r, m := Talk(x, r, m, USERAUTH_SUCCESS, c, s, true);
    assert c + [USERAUTH_REQUEST] == [SERVICE_REQUEST, USERAUTH_REQUEST, USERAUTH_REQUEST];
    assert s + [USERAUTH_SUCCESS] == [SERVICE_ACCEPT, USERAUTH_FAILURE, USERAUTH_SUCCESS];
  }

  /** The client opens a channel; the server starts a rekey before it reads the request. */
  lemma ConfirmationHeld(x: Setting) returns (r: seq<Choice>, m: Net)
    requires Fine(x)
    ensures At(x, r, m) && Silent(m.s)
    ensures ViewOf(m.s) == View(Sent, 1, Timeouts, [],
      [SERVICE_ACCEPT, USERAUTH_FAILURE, USERAUTH_SUCCESS, CHANNEL_OPEN_CONFIRMATION], [CHANNEL_OPEN_CONFIRMATION], false, true)
  {
    hide At, Fine, ViewOf, Silent;
    r, m := Authenticated(x);
    var c, s := [SERVICE_REQUEST, USERAUTH_REQUEST, USERAUTH_REQUEST], [SERVICE_ACCEPT, USERAUTH_FAILURE, USERAUTH_SUCCESS];
    r, m := AskC(x, r, m, CHANNEL_OPEN, c, s, true);
    r, m := ToPhaseS(x, r, m, Timeouts);
    ViewGives(m.s);
    r, m := RekeyS(x, r, m);
    ViewGives(m.s);
    r, m := PushS(x, r, m);
    ViewGives(m.s);
    r, m := AnswerS(x, r, m, 90, CHANNEL_OPEN_CONFIRMATION, false);
    r, m := ToPhaseS(x, r, m, Timeouts);
    assert s + [CHANNEL_OPEN_CONFIRMATION] == [SERVICE_ACCEPT, USERAUTH_FAILURE, USERAUTH_SUCCESS, CHANNEL_OPEN_CONFIRMATION];
  }

  /** Whatever the two ends are, if they find algorithms in common there is a run of an
      authenticated session after which the server has made a channel confirmation and then a
      keepalive, and the keepalive is on its way while the confirmation is still held. */
  lemma KeepaliveOvertakes(w: World, cc: Config, sc: Config, kc: seq<byte>, ks: seq<byte>) returns (run: seq<Choice>)
    requires GoodWorld(w) && MakeDeal(w, cc, sc).forC.Ok?
    ensures GoodRun(run)
    ensures var n := After(w, cc, sc, kc, ks, run);
      && n.s.kx.epoch == 1 && n.s.authdone && n.s.out.passed
      && n.s.out.produced == [SERVICE_ACCEPT, USERAUTH_FAILURE, USERAUTH_SUCCESS, CHANNEL_OPEN_CONFIRMATION, KEEPALIVE]
      && n.s.out.replyqueue == [CHANNEL_OPEN_CONFIRMATION]
      && |n.s.out.writequeue| > 0 && n.s.out.writequeue[|n.s.out.writequeue| - 1].payload == KEEPALIVE
  {
    var x := Setting(w, cc, sc, kc, ks);
    hide After;
    var r, m := ConfirmationHeld(x);
    r, m := KeepaliveS(x, r, m);
    run := r;
  }
}
