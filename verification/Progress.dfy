/**
  Every run can be completed: from any state it reaches, with both ends alive, algorithms in
  common and no packet made that its receiver would refuse, the two loops need nothing but to be
  run on. Everything held or on its way is delivered, and whatever exchanges have been started
  are finished.
*/
module Progress {
  import opened Bytes
  import opened Transport
  import opened Network
  import opened Agreement
  import opened Runs
  import opened SafetyTheorems
  import opened HeldPackets
  import opened Overtaking
  import History

  // ------------------------------------------------------------ a quiet turn

  /** The receiver has a handler for p that it may call now. */
  predicate Welcome(rcv: Endpoint, p: Payload) {
    var t := Type(p);
    t == SSH_MSG_IGNORE || t == SSH_MSG_DEBUG || (Handled(rcv.kx.role, t) && (rcv.authdone || t <= MAX_UNAUTH_PACKET_TYPE))
  }

  /** The end e has moved on to m by itself: no packet was made, none was lost, and no exchange
      was started that the other end has not asked for. */
  predicate Quieter(e: Endpoint, m: Endpoint) {
    && m.dead == e.dead && m.out.produced == e.out.produced && (e.authdone ==> m.authdone) && m.kx.role == e.kx.role
    && |m.out.writequeue| >= |e.out.writequeue|
    && (PosOf(m.kx) == Sent ==> PosOf(e.kx) == Sent && m.kx.epoch == e.kx.epoch)
  }

  predicate Fares(e: Endpoint, r: Outcome<Endpoint>) {
    match r
    case Ok(m) => Quieter(e, m) && m.phase == e.phase
    case Exit(x) => !Excusable(x)
  }

  /** What is known of a packet that is about to be read. */
  predicate Readable(w: World, e: Endpoint, p: Payload) {
    if AppPayload(p) then Welcome(e, p)
    else
      && !p.MsgApp?
      && (p.MsgKexinit? ==> w.negotiate(e.kx.role, e.kx.cfg, p.proposal.lists).Ok?)
      && (p.MsgKexdhInit? ==> e.kx.role == Server) && (p.MsgKexdhReply? ==> e.kx.role == Client)
  }

  lemma FinishFares(e: Endpoint, m: Endpoint)
    requires Quieter(e, m) && m.phase == e.phase
    ensures Fares(e, FinishKex(m))
  {
  }

  lemma KexSend(e: Endpoint, p: Payload)
    ensures var m := EncryptPacket(e, p); Quieter(e, m) && m.phase == e.phase && m.kx == e.kx
  {
  }

  lemma NewkeysFares(e: Endpoint)
    ensures Fares(e, SendMsgNewkeys(e)) && Fares(e, RecvMsgNewkeys(e))
  {
    KexSend(e, MsgNewkeys);
    FinishFares(e, EncryptPacket(e, MsgNewkeys));
    FinishFares(e, e);
    hide FinishKex, EncryptPacket;
  }

  lemma FaresOn(e: Endpoint, m: Endpoint, r: Outcome<Endpoint>)
    requires Quieter(e, m) && m.phase == e.phase && Fares(m, r)
    ensures Fares(e, r)
  {
  }

  lemma KexinitFares(w: World, e: Endpoint, q: Proposal)
    requires w.negotiate(e.kx.role, e.kx.cfg, q.lists).Ok?
    ensures Fares(e, RecvMsgKexinit(w, e, q, []))
  {
  }

  /** After NEWKEYS only requirenext is set. */
  lemma SwitchFares(e: Endpoint, m: Endpoint)
    requires Quieter(e, m) && m.phase == e.phase && SendMsgNewkeys(m).Ok?
    ensures var t := SendMsgNewkeys(m).value; Fares(e, Ok(t.(kx := t.kx.(requirenext := SSH_MSG_NEWKEYS))))
  {
    NewkeysFares(m);
    hide SendMsgNewkeys;
  }

  lemma DhInitFares(w: World, e: Endpoint, pub: nat)
    ensures Fares(e, RecvMsgKexdhInit(w, e, pub, 0, 0))
  {
    hide RecvMsgKexdhInit, EncryptPacket, SendMsgNewkeys;
    var r := RecvMsgKexdhInit(w, e, pub, 0, 0);
    if r.Ok? {
      var k, reply := DhInitSends(w, e, pub, 0, 0);
      KexSend(e.(kx := k), reply);
      SwitchFares(e, EncryptPacket(e.(kx := k), reply));
    } else {
      DhInitExits(w, e, pub);
    }
  }

  lemma DhInitExits(w: World, e: Endpoint, pub: nat)
    requires RecvMsgKexdhInit(w, e, pub, 0, 0).Exit?
    ensures !Excusable(RecvMsgKexdhInit(w, e, pub, 0, 0).reason)
  {
    hide EncryptPacket;
  }

  lemma ReplyFares(w: World, e: Endpoint, h: seq<byte>, f: nat, sig: seq<byte>)
    ensures Fares(e, RecvMsgKexdhReply(w, e, h, f, sig, true))
  {
    hide RecvMsgKexdhReply, SendMsgNewkeys;
    var r := RecvMsgKexdhReply(w, e, h, f, sig, true);
    if r.Ok? {
      var k := ReplySendsNewkeys(w, e, h, f, sig, true);
      SwitchFares(e, e.(kx := k));
    } else {
      ReplyExits(w, e, h, f, sig);
    }
  }

  lemma ReplyExits(w: World, e: Endpoint, h: seq<byte>, f: nat, sig: seq<byte>)
    requires RecvMsgKexdhReply(w, e, h, f, sig, true).Exit?
    ensures !Excusable(RecvMsgKexdhReply(w, e, h, f, sig, true).reason)
  {
  }

  /** A packet of the application is handled, and no packet made. */
  lemma AppFares(w: World, e: Endpoint, p: Payload, inp: Input)
    requires AppPayload(p) && Handled(e.kx.role, Type(p)) && inp.packets == [] && !inp.handlerExit
    ensures Fares(e, Dispatch(w, e, p, inp))
  {
  }

  lemma DispatchFares(w: World, e: Endpoint, p: Payload, go: bool)
    requires if AppPayload(p) then Handled(e.kx.role, Type(p)) else Readable(w, e, p)
    ensures Fares(e, Dispatch(w, e, p, NoInput(go)))
  {
    hide Fares, Handled, RecvMsgKexinit, RecvMsgNewkeys, RecvMsgKexdhInit, RecvMsgKexdhReply;
    match p
    case MsgKexinit(q) => KexinitFares(w, e, q);
    case MsgNewkeys => NewkeysFares(e);
    case MsgKexdhInit(pub) => DhInitFares(w, e, pub);
    case MsgKexdhReply(h, f, sig) => ReplyFares(w, e, h, f, sig);
    case MsgApp(t, _) => AppFares(w, e, p, NoInput(go));
  }

  /** Opening and handling a readable packet goes well. */
  lemma ReceiveFares(w: World, e: Endpoint, m: Wire, go: bool)
    requires Readable(w, e, m.payload)
    ensures Fares(e, Receive(w, e, m, NoInput(go)))
  {
    hide Dispatch, Handled, Quieter, Receive, ProcessPacket;
    var p, inp := m.payload, NoInput(go);
    var t := Type(p);
    var o := e.(inc := Incoming(Ran(e.inc.recv, p), Next(e.inc.recvseq)), lastpacket := t);
    var k := o.(kx := o.kx.(requirenext := 0));
    assert Quieter(e, o) && Quieter(e, k) && Quieter(e, k.(kx := k.kx.(ignorenext := false))) by { Bookkeeping(e, o.inc, t); }
    if AppPayload(p) && Handled(e.kx.role, t) { HandledTypes(e.kx.role, t); }
    if !AppPayload(p) || Handled(e.kx.role, t) {
      DispatchFares(w, k, p, go);
      assert Fares(e, Dispatch(w, k, p, inp)) by { FaresOn(e, k, Dispatch(w, k, p, inp)); }
    }
    ReceiveCases(w, e, m, inp);
    ProcessCases(w, e.(inc := o.inc), p, inp);
  }

  lemma Bookkeeping(e: Endpoint, i: Incoming, t: byte)
    ensures var o := e.(inc := i, lastpacket := t); var k := o.(kx := o.kx.(requirenext := 0));
      Quieter(e, o) && Quieter(e, k) && Quieter(e, k.(kx := k.kx.(ignorenext := false)))
  {
  }

  // ------------------------------------------------------------ a turn of a loop

  /** What a quiet turn does: the phase moves on, the head of the queue is written, the head of
      the link is read. */
  predicate Turned(e: Endpoint, inbox: seq<Wire>, go: bool, l: Local) {
    var push := e.phase == Writing && go && e.out.writequeue != [];
    && l.me.phase == NextPhase(e.phase)
    && l.took == (e.phase == Reading && go && inbox != [])
    && (if push then l.put == [e.out.writequeue[0]] && l.me == e.(out := l.me.out, phase := Reading)
                     && l.me.out == e.out.(writequeue := e.out.writequeue[1..])
        else l.put == [] && Quieter(e, l.me))
  }

  lemma {:induction false} FlushQuiet(e: Endpoint, ps: seq<Payload>)
    ensures var m := EncryptAll(e, ps); Quieter(e, m) && m.kx == e.kx && m.phase == e.phase
    decreases |ps|
  {
    hide Quieter, EncryptPacket;
    if ps == [] {
      QuieterSelf(e);
    } else {
      KexSend(e, ps[0]);
      FlushQuiet(EncryptPacket(e, ps[0]), ps[1..]);
      QuieterTwice(e, EncryptPacket(e, ps[0]), EncryptAll(e, ps));
    }
  }

  lemma QuieterSelf(e: Endpoint)
    ensures Quieter(e, e)
  {
  }

  lemma QuieterTwice(a: Endpoint, b: Endpoint, c: Endpoint)
    requires Quieter(a, b) && Quieter(b, c)
    ensures Quieter(a, c)
  {
  }

  lemma QuieterPhase(e: Endpoint, m: Endpoint, ph: Phase)
    requires Quieter(e, m)
    ensures Quieter(e, m.(phase := ph))
  {
  }

  lemma FlushTurn(e: Endpoint)
    ensures Quieter(e, MaybeFlushReplyQueue(e))
  {
    hide Quieter, EncryptAll;
    QuieterSelf(e);
    FlushQuiet(e, e.out.replyqueue);
    var t := EncryptAll(e, e.out.replyqueue);
    assert Quieter(t, t.(out := t.out.(replyqueue := []))) by { ClearQueue(t); }
    QuieterTwice(e, t, t.(out := t.out.(replyqueue := [])));
  }

  lemma ClearQueue(e: Endpoint)
    ensures Quieter(e, e.(out := e.out.(replyqueue := [])))
  {
  }

  lemma DriverTurn(w: World, e: Endpoint, go: bool)
    ensures match CliSessionLoop(w, e, NoInput(go)) case Ok(m) => Quieter(e, m) case Exit(x) => !Excusable(x)
  {
  }

  /** A quiet turn of a live end, with a readable packet at the head of its link, either goes as
      it should or ends in an exit that no run has. */
  lemma QuietTurn(w: World, e: Endpoint, inbox: seq<Wire>, go: bool)
    requires e.dead.None? && (inbox != [] ==> Readable(w, e, inbox[0].payload))
    ensures var l := Step(w, e, inbox, NoInput(go));
      if l.me.dead.Some? then !Excusable(l.me.dead.value) else Turned(e, inbox, go, l)
  {
    hide Receive, CliSessionLoop, MaybeFlushReplyQueue, Readable, Quieter, SendMsgKexinit, EncryptPacket;
    QuieterSelf(e);
    QuieterPhase(e, e, NextPhase(e.phase));
    match e.phase
    case Timeouts =>
    case Writing =>
    case Reading =>
      if go && inbox != [] {
        ReceiveFares(w, e, inbox[0], go);
        var r := Receive(w, e, inbox[0], NoInput(go));
        if r.Ok? { QuieterPhase(e, r.value, Flushing); SameDead(e, r.value); }
      }
    case Flushing => FlushTurn(e); QuieterPhase(e, MaybeFlushReplyQueue(e), Channels); SameDead(e, MaybeFlushReplyQueue(e));
    case Channels =>
    case Handler =>
      DriverTurn(w, e, go);
      var r := CliSessionLoop(w, e, NoInput(go));
      if r.Ok? { QuieterPhase(e, r.value, Timeouts); SameDead(e, r.value); }
  }

  lemma SameDead(e: Endpoint, m: Endpoint)
    requires Quieter(e, m)
    ensures m.dead == e.dead
  {
  }

  // ------------------------------------------------------- what a run has sent

  lemma {:induction false} SiftMember(ps: seq<Payload>, p: Payload)
    requires p in ps && AppPayload(p)
    ensures p in Sift(ps, OkayKex(Type(p)))
    decreases |ps|
  {
    var k := |ps| - 1;
    if ps[k] != p { SiftMember(ps[..k], p); }
  }

  lemma {:induction false} SiftFrom(ps: seq<Payload>, p: Payload, okay: bool)
    requires p in Sift(ps, okay)
    ensures p in ps
    decreases |ps|
  {
    if ps != [] && p in Sift(ps[..|ps| - 1], okay) { SiftFrom(ps[..|ps| - 1], p, okay); }
  }

  lemma {:induction false} SiftAtMost(ps: seq<Payload>)
    ensures |Sift(ps, true)| + |Sift(ps, false)| <= |ps|
    decreases |ps|
  {
    if ps != [] { SiftAtMost(ps[..|ps| - 1]); }
  }

  /** A stretch of packets is its key exchange messages and its application packets. */
  lemma {:induction false} ParsesCount(role: Role, f: seq<Wire>, a: nat, b: nat)
    requires Parses(role, f, a, b)
    ensures |f| + a == b + |Sift(Contents(f), true)| + |Sift(Contents(f), false)|
    decreases |f|
  {
    hide Sift;
    if f == [] {
      NothingSifted();
    } else {
      var p, t := f[0].payload, Contents(f[1..]);
      assert Contents(f) == [p] + t;
      ParsesCount(role, f[1..], if AppPayload(p) then a else a + 1, b);
      forall okay ensures Sift(Contents(f), okay) == One(p, okay) + Sift(t, okay) {
        NothingSifted();
        SiftAppend([], p, okay);
        assert [] + [p] == [p];
        SiftConcat([p], t, okay);
      }
    }
  }

  /** What one end has sent: every application packet of it was made, and the rest are key
      exchange messages. */
  lemma SentWasMade(role: Role, log: seq<Wire>, held: seq<Payload>, made: seq<Payload>, b: nat)
    requires Parses(role, log, 0, b)
    requires forall okay :: Sift(Contents(log), okay) + Sift(held, okay) == Sift(made, okay)
    ensures |log| <= b + |made|
    ensures forall i :: 0 <= i < |log| && AppPayload(log[i].payload) ==> log[i].payload in made
  {
    ParsesCount(role, log, 0, b);
    SiftAtMost(made);
    assert |Sift(made, true)| >= |Sift(Contents(log), true)| && |Sift(made, false)| >= |Sift(Contents(log), false)|;
    forall i | 0 <= i < |log| && AppPayload(log[i].payload) ensures log[i].payload in made {
      var p := log[i].payload;
      var okay := OkayKex(Type(p));
      assert Contents(log)[i] == p;
      SiftMember(Contents(log), p);
      assert p in Sift(Contents(log), okay) + Sift(held, okay);
      SiftFrom(made, p, okay);
    }
  }

  lemma RunSent(x: Setting, run: seq<Choice>, n: Net)
    requires At(x, run, n) && Fine(x)
    ensures |SentByC(n)| <= KexSent(n.c.kx) + |n.c.out.produced| && |SentByS(n)| <= KexSent(n.s.kx) + |n.s.out.produced|
    ensures forall i :: 0 <= i < |SentByC(n)| && AppPayload(SentByC(n)[i].payload) ==> SentByC(n)[i].payload in n.c.out.produced
    ensures forall i :: 0 <= i < |SentByS(n)| && AppPayload(SentByS(n)[i].payload) ==> SentByS(n)[i].payload in n.s.out.produced
  {
    hide Sift, Contents, After, Parses;
    History.StreamsWellFormed(x.w, x.cc, x.sc, x.kc, x.ks, run);
    HeldPacketsInOrder(x.w, x.cc, x.sc, x.kc, x.ks, run, true);
    HeldPacketsInOrder(x.w, x.cc, x.sc, x.kc, x.ks, run, false);
    SentWasMade(Client, SentByC(n), n.c.out.replyqueue, n.c.out.produced, KexSent(n.c.kx));
    SentWasMade(Server, SentByS(n), n.s.out.replyqueue, n.s.out.produced, KexSent(n.s.kx));
  }

  // ------------------------------------------------------------ a quiet move

  /** Every packet made has a handler at the other end. */
  predicate AllWelcome(n: Net) {
    && (forall p :: p in n.c.out.produced ==> Welcome(n.s, p))
    && (forall p :: p in n.s.out.produced ==> Welcome(n.c, p))
  }

  ghost predicate Live(x: Setting, run: seq<Choice>, n: Net) {
    At(x, run, n) && Fine(x) && n.c.dead.None? && n.s.dead.None? && AllWelcome(n)
  }

  lemma HeadsReadable(x: Setting, run: seq<Choice>, n: Net)
    requires Live(x, run, n)
    ensures n.toC != [] ==> Readable(x.w, n.c, n.toC[0].payload)
    ensures n.toS != [] ==> Readable(x.w, n.s, n.toS[0].payload)
  {
    var g := MakeDeal(x.w, x.cc, x.sc);
    Facts(x, run, n);
    RunSent(x, run, n);
    hide At, Welcome, Fine;
    if n.toC != [] {
      assert SentByS(n)[|n.gotC|] == n.toC[0];
      HeadReadableC(x.w, g, n);
    }
    if n.toS != [] {
      assert SentByC(n)[|n.gotS|] == n.toS[0];
      HeadReadableS(x.w, g, n);
    }
  }

  lemma HeadReadableC(w: World, g: Deal, n: Net)
    requires NetInv(w, g, n) && GoodDeal(w, g) && g.forC.Ok? && n.toC != []
    requires AppPayload(n.toC[0].payload) ==> Welcome(n.c, n.toC[0].payload)
    ensures Readable(w, n.c, n.toC[0].payload)
  {
    hide Welcome;
    HeadOpens(n.s, n.c, FlightS(n));
    if n.toC[0].payload.MsgKexinit? { HeadKexinitC(w, g, n); }
  }

  lemma HeadReadableS(w: World, g: Deal, n: Net)
    requires NetInv(w, g, n) && GoodDeal(w, g) && g.forC.Ok? && n.toS != []
    requires AppPayload(n.toS[0].payload) ==> Welcome(n.s, n.toS[0].payload)
    ensures Readable(w, n.s, n.toS[0].payload)
  {
    hide Welcome;
    HeadOpens(n.c, n.s, FlightC(n));
    if n.toS[0].payload.MsgKexinit? { HeadKexinitS(w, g, n); }
  }

  /** An upper bound on the key exchange messages of either end: t exchanges. */
  predicate Capped(n: Net, t: nat) {
    KexSent(n.c.kx) <= 3 * t && KexSent(n.s.kx) <= 3 * t
  }

  /** An exchange that was not started here was started by the other end. */
  lemma StaysCapped(w: World, g: Deal, n: Net, m: Net, t: nat)
    requires NetInv(w, g, m) && Capped(n, t)
    requires m.c == n.c || m.s == n.s
    requires PosOf(m.c.kx) == Sent ==> PosOf(n.c.kx) == Sent && m.c.kx.epoch == n.c.kx.epoch
    requires PosOf(m.s.kx) == Sent ==> PosOf(n.s.kx) == Sent && m.s.kx.epoch == n.s.kx.epoch
    ensures Capped(m, t)
  {
    hide Parses, KexOK, AllC, AllS, SecretsOK, OpenOK, EndOK, AlgosOK, PosOf, KexSent, KexRecv;
    assert OrderOK(m.s.kx, m.c.kx, FlightS(m)) && OrderOK(m.c.kx, m.s.kx, FlightC(m));
    CapOne(n.c.kx, m.c.kx, m.s.kx, t);
    CapOne(n.s.kx, m.s.kx, m.c.kx, t);
  }

  lemma CapOne(before: Kex, k: Kex, other: Kex, t: nat)
    requires KexRecv(k) <= KexSent(other) && KexSent(before) <= 3 * t
    requires PosOf(k) == Sent ==> PosOf(before) == Sent && k.epoch == before.epoch
    ensures KexSent(other) <= 3 * t || k == before ==> KexSent(k) <= 3 * t
  {
  }

  predicate Quiet(inp: Input) { inp == NoInput(true) || inp == NoInput(false) }

  /** The run r goes on from run, with nothing new asked for. */
  ghost predicate Extends(run: seq<Choice>, r: seq<Choice>) {
    run <= r && forall i :: |run| <= i < |r| ==> Quiet(r[i].inp)
  }

  /** What stays the same on the way, and what may only grow. */
  ghost predicate Kept(n: Net, m: Net) {
    && m.c.out.produced == n.c.out.produced && m.s.out.produced == n.s.out.produced
    && forall t: nat :: Capped(n, t) ==> Capped(m, t)
  }

  lemma WelcomeStays(n: Net, m: Net)
    requires AllWelcome(n) && m.c.out.produced == n.c.out.produced && m.s.out.produced == n.s.out.produced
    requires m.c.kx.role == n.c.kx.role && m.s.kx.role == n.s.kx.role
    requires (n.c.authdone ==> m.c.authdone) && (n.s.authdone ==> m.s.authdone)
    ensures AllWelcome(m)
  {
    hide Handled;
  }

  lemma TurnedGives(e: Endpoint, inbox: seq<Wire>, go: bool, l: Local)
    requires Turned(e, inbox, go, l)
    ensures l.me.dead == e.dead && l.me.out.produced == e.out.produced && l.me.kx.role == e.kx.role && (e.authdone ==> l.me.authdone)
    ensures PosOf(l.me.kx) == Sent ==> PosOf(e.kx) == Sent && l.me.kx.epoch == e.kx.epoch
    ensures !go ==> l.put == [] && !l.took && |l.me.out.writequeue| >= |e.out.writequeue|
  {
  }

  lemma TurnC(x: Setting, run: seq<Choice>, n: Net, go: bool) returns (r: seq<Choice>, m: Net)
    requires Live(x, run, n)
    ensures Live(x, r, m) && Extends(run, r) && Kept(n, m) && m.s == n.s
    ensures m == Move(x.w, n, Client, NoInput(go)) && Turned(n.c, n.toC, go, Step(x.w, n.c, n.toC, NoInput(go)))
  {
    var inp := NoInput(go);
    HeadsReadable(x, run, n);
    r, m := run + [Choice(Client, inp)], Move(x.w, n, Client, inp);
    Extend(x, run, n, Client, inp);
    QuietTurn(x.w, n.c, n.toC, go);
    var l := Step(x.w, n.c, n.toC, inp);
    assert NetInv(x.w, MakeDeal(x.w, x.cc, x.sc), m) && AliveOrExcused(m.c) by { RunFacts(x.w, x.cc, x.sc, x.kc, x.ks, r); }
    hide At, Fine, Step, Turned, AllWelcome, NetInv, Capped;
    TurnedGives(n.c, n.toC, go, l);
    forall t: nat | Capped(n, t) ensures Capped(m, t) { StaysCapped(x.w, MakeDeal(x.w, x.cc, x.sc), n, m, t); }
    WelcomeStays(n, m);
  }

  lemma TurnS(x: Setting, run: seq<Choice>, n: Net, go: bool) returns (r: seq<Choice>, m: Net)
    requires Live(x, run, n)
    ensures Live(x, r, m) && Extends(run, r) && Kept(n, m) && m.c == n.c
    ensures m == Move(x.w, n, Server, NoInput(go)) && Turned(n.s, n.toS, go, Step(x.w, n.s, n.toS, NoInput(go)))
  {
    var inp := NoInput(go);
    HeadsReadable(x, run, n);
    r, m := run + [Choice(Server, inp)], Move(x.w, n, Server, inp);
    Extend(x, run, n, Server, inp);
    QuietTurn(x.w, n.s, n.toS, go);
    var l := Step(x.w, n.s, n.toS, inp);
    assert NetInv(x.w, MakeDeal(x.w, x.cc, x.sc), m) && AliveOrExcused(m.s) by { RunFacts(x.w, x.cc, x.sc, x.kc, x.ks, r); }
    hide At, Fine, Step, Turned, AllWelcome, NetInv, Capped;
    TurnedGives(n.s, n.toS, go, l);
    forall t: nat | Capped(n, t) ensures Capped(m, t) { StaysCapped(x.w, MakeDeal(x.w, x.cc, x.sc), n, m, t); }
    WelcomeStays(n, m);
  }

  lemma KeptTwice(a: Net, b: Net, c: Net)
    requires Kept(a, b) && Kept(b, c)
    ensures Kept(a, c)
  {
  }

  lemma ExtendsTwice(a: seq<Choice>, b: seq<Choice>, c: seq<Choice>)
    requires Extends(a, b) && Extends(b, c)
    ensures Extends(a, c)
  {
    forall i | |a| <= i < |c| ensures Quiet(c[i].inp) {
      if i < |b| { assert c[i] == b[i]; }
    }
  }

  /** With nothing written or read, the links stay as they are, and queues only grow. */
  predicate SameLinks(n: Net, m: Net) {
    && m.toS == n.toS && m.toC == n.toC && m.gotS == n.gotS && m.gotC == n.gotC
    && |m.c.out.writequeue| >= |n.c.out.writequeue| && |m.s.out.writequeue| >= |n.s.out.writequeue|
  }

  lemma IdleC(x: Setting, run: seq<Choice>, n: Net) returns (r: seq<Choice>, m: Net)
    requires Live(x, run, n)
    ensures Live(x, r, m) && Extends(run, r) && Kept(n, m) && m.s == n.s && SameLinks(n, m) && m.c.phase == NextPhase(n.c.phase)
  {
    hide Live, Step, Extends, Kept;
    r, m := TurnC(x, run, n, false);
    var l := Step(x.w, n.c, n.toC, NoInput(false));
    assert n.toS + [] == n.toS;
    TurnedGives(n.c, n.toC, false, l);
  }

  lemma IdleS(x: Setting, run: seq<Choice>, n: Net) returns (r: seq<Choice>, m: Net)
    requires Live(x, run, n)
    ensures Live(x, r, m) && Extends(run, r) && Kept(n, m) && m.c == n.c && SameLinks(n, m) && m.s.phase == NextPhase(n.s.phase)
  {
    hide Live, Step, Extends, Kept;
    r, m := TurnS(x, run, n, false);
    var l := Step(x.w, n.s, n.toS, NoInput(false));
    assert n.toC + [] == n.toC;
    TurnedGives(n.s, n.toS, false, l);
  }

  lemma Stays(run: seq<Choice>, n: Net)
    ensures Extends(run, run) && Kept(n, n) && SameLinks(n, n)
  {
  }

  lemma AdvanceC(x: Setting, run: seq<Choice>, n: Net, ph: Phase) returns (r: seq<Choice>, m: Net)
    requires Live(x, run, n)
    ensures Live(x, r, m) && Extends(run, r) && Kept(n, m) && m.s == n.s && SameLinks(n, m) && m.c.phase == ph
  {
    hide Live, Extends, Kept, Distance, NextPhase;
    r, m := run, n;
    Stays(run, n);
    while m.c.phase != ph
      invariant Live(x, r, m) && Extends(run, r) && Kept(n, m) && m.s == n.s && SameLinks(n, m)
      decreases Distance(m.c.phase, ph)
    {
      var r1, m1 := IdleC(x, r, m);
      Closer(m.c.phase, ph);
      ExtendsTwice(run, r, r1);
      KeptTwice(n, m, m1);
      r, m := r1, m1;
    }
  }

  lemma AdvanceS(x: Setting, run: seq<Choice>, n: Net, ph: Phase) returns (r: seq<Choice>, m: Net)
    requires Live(x, run, n)
    ensures Live(x, r, m) && Extends(run, r) && Kept(n, m) && m.c == n.c && SameLinks(n, m) && m.s.phase == ph
  {
    hide Live, Extends, Kept, Distance, NextPhase;
    r, m := run, n;
    Stays(run, n);
    while m.s.phase != ph
      invariant Live(x, r, m) && Extends(run, r) && Kept(n, m) && m.c == n.c && SameLinks(n, m)
      decreases Distance(m.s.phase, ph)
    {
      var r1, m1 := IdleS(x, r, m);
      Closer(m.s.phase, ph);
      ExtendsTwice(run, r, r1);
      KeptTwice(n, m, m1);
      r, m := r1, m1;
    }
  }

  // --------------------------------------------------------------- the drain

  /** What is left to write and to read, when at most t exchanges are ever started. */
  function ToDo(n: Net, t: nat): int {
    2 * (3 * t + |n.c.out.produced|) + 2 * (3 * t + |n.s.out.produced|)
      - 2 * |n.gotS| - |n.toS| - 2 * |n.gotC| - |n.toC|
  }

  lemma ToDoNat(x: Setting, run: seq<Choice>, n: Net, t: nat)
    requires Live(x, run, n) && Capped(n, t)
    ensures ToDo(n, t) >= 0
  {
    RunSent(x, run, n);
  }

  /** One packet is written, or one is read. */
  lemma WorkC(x: Setting, run: seq<Choice>, n: Net, t: nat) returns (r: seq<Choice>, m: Net)
    requires Live(x, run, n) && (n.c.out.writequeue != [] || n.toC != [])
    ensures Live(x, r, m) && Extends(run, r) && Kept(n, m) && ToDo(m, t) < ToDo(n, t)
  {
    hide Live, Extends, Kept, Step, Quieter;
    var r0, n0 := AdvanceC(x, run, n, if n.c.out.writequeue != [] then Writing else Reading);
    r, m := TurnC(x, r0, n0, true);
    ExtendsTwice(run, r0, r);
    KeptTwice(n, n0, m);
    KeptMade(n, n0);
    KeptMade(n, m);
  }

  lemma WorkS(x: Setting, run: seq<Choice>, n: Net, t: nat) returns (r: seq<Choice>, m: Net)
    requires Live(x, run, n) && (n.s.out.writequeue != [] || n.toS != [])
    ensures Live(x, r, m) && Extends(run, r) && Kept(n, m) && ToDo(m, t) < ToDo(n, t)
  {
    hide Live, Extends, Kept, Step, Quieter;
    var r0, n0 := AdvanceS(x, run, n, if n.s.out.writequeue != [] then Writing else Reading);
    r, m := TurnS(x, r0, n0, true);
    ExtendsTwice(run, r0, r);
    KeptTwice(n, n0, m);
    KeptMade(n, n0);
    KeptMade(n, m);
  }

  lemma KeptMade(n: Net, m: Net)
    requires Kept(n, m)
    ensures m.c.out.produced == n.c.out.produced && m.s.out.produced == n.s.out.produced
  {
  }

  /** Both ends come to the top of their loops. */
  lemma Tops(x: Setting, run: seq<Choice>, n: Net) returns (r: seq<Choice>, m: Net)
    requires Live(x, run, n)
    ensures Live(x, r, m) && Extends(run, r) && Kept(n, m) && SameLinks(n, m) && m.c.phase == m.s.phase == Timeouts
  {
    hide Live, Extends, Kept;
    var r0, n0 := AdvanceC(x, run, n, Timeouts);
    r, m := AdvanceS(x, r0, n0, Timeouts);
    ExtendsTwice(run, r0, r);
    KeptTwice(n, n0, m);
  }

  lemma {:induction false} Drain(x: Setting, run: seq<Choice>, n: Net, t: nat) returns (r: seq<Choice>, m: Net)
    requires Live(x, run, n) && Capped(n, t)
    ensures Live(x, r, m) && Extends(run, r) && Kept(n, m) && m.c.phase == m.s.phase == Timeouts
    ensures FlightC(m) == [] && FlightS(m) == []
    decreases ToDo(n, t)
  {
    hide Live, Extends;
    ToDoNat(x, run, n, t);
    var r0, n0 := Tops(x, run, n);
    r, m := r0, n0;
    if n0.c.out.writequeue != [] || n0.toC != [] || n0.s.out.writequeue != [] || n0.toS != [] {
      var r1, n1: Net;
      if n0.c.out.writequeue != [] || n0.toC != [] { r1, n1 := WorkC(x, r0, n0, t); } else { r1, n1 := WorkS(x, r0, n0, t); }
      KeptTwice(n, n0, n1);
      ExtendsTwice(run, r0, r1);
      r, m := Drain(x, r1, n1, t);
      KeptTwice(n, n1, m);
      ExtendsTwice(run, r1, r);
    }
  }

  /** Everything made has been delivered, in order within each of the two kinds; no exchange is
      pending, and both ends may send. */
  predicate Complete(n: Net, okay: bool) {
    && FlightC(n) == [] && FlightS(n) == [] && n.c.out.replyqueue == [] && n.s.out.replyqueue == []
    && n.c.dead.None? && n.s.dead.None? && n.c.kx.epoch == n.s.kx.epoch > 0 && n.c.kx.dataallowed && n.s.kx.dataallowed
    && Sift(Contents(n.gotS), okay) == Sift(n.c.out.produced, okay)
    && Sift(Contents(n.gotC), okay) == Sift(n.s.out.produced, okay)
  }

  /** From any state of any run with both ends alive, algorithms in common and every packet made
      so far welcome at the other end, running the two loops on, with nothing new asked for,
      finishes whatever exchanges are under way and delivers everything. */
  lemma EveryRunCompletes(w: World, cc: Config, sc: Config, kc: seq<byte>, ks: seq<byte>, run: seq<Choice>)
    returns (more: seq<Choice>)
    requires GoodWorld(w) && GoodRun(run) && MakeDeal(w, cc, sc).forC.Ok?
    requires var n := After(w, cc, sc, kc, ks, run); n.c.dead.None? && n.s.dead.None? && AllWelcome(n)
    ensures GoodRun(run + more) && forall i :: 0 <= i < |more| ==> Quiet(more[i].inp)
    ensures var n, m := After(w, cc, sc, kc, ks, run), After(w, cc, sc, kc, ks, run + more);
      && m.c.out.produced == n.c.out.produced && m.s.out.produced == n.s.out.produced
      && forall okay :: Complete(m, okay)
  {
    var x, n := Setting(w, cc, sc, kc, ks), After(w, cc, sc, kc, ks, run);
    assert Live(x, run, n);
    var t := KexSent(n.c.kx) + KexSent(n.s.kx);
    hide After, AllWelcome, Live, Complete, KexSent;
    var r, m := Drain(x, run, n, t);
    more := r[|run|..];
    assert run + more == r;
    KeptMade(n, m);
    LiveGives(x, r, m);
    forall okay ensures Complete(m, okay) { Completed(x, r, m, okay); }
  }

  lemma LiveGives(x: Setting, r: seq<Choice>, m: Net)
    requires Live(x, r, m)
    ensures GoodRun(r) && m == After(x.w, x.cc, x.sc, x.kc, x.ks, r)
  {
  }

  lemma Completed(x: Setting, r: seq<Choice>, m: Net, okay: bool)
    requires Live(x, r, m) && m.c.phase == m.s.phase == Timeouts && FlightC(m) == [] && FlightS(m) == []
    ensures Complete(m, okay)
  {
    hide After, Sift, Contents;
    NoDeadlock(x.w, x.cc, x.sc, x.kc, x.ks, r);
    DataAllowedExactly(x.w, x.cc, x.sc, x.kc, x.ks, r);
    HeldPacketsInOrder(x.w, x.cc, x.sc, x.kc, x.ks, r, okay);
    assert SentByC(m) == m.gotS && SentByS(m) == m.gotC;
    assert Sift([], okay) == [] by { NothingSifted(); }
  }
}
