/**
  Whole histories: the keys and numbers of every packet ever sent, the order of key
  exchange messages among them, and the order in which held packets leave.
*/
module History {
  import opened Bytes
  import opened Transport
  import opened Network
  import opened Agreement
  import opened Runs
  import opened SafetyTheorems

  // --------------------------------------------------------- keys of a stream

  /** Everything in `log` was sealed in sequence, and the next packet will be sealed with
      context d and number q. The epoch changes exactly after NEWKEYS. */
  predicate Keyed(log: seq<Wire>, d: Dir, q: uint32)
    decreases |log|
  {
    if log == [] then d == NoKeys() && q == 0
    else
      var m := log[|log| - 1];
      && q == Next(m.seqno)
      && (if m.payload.MsgNewkeys? then d.epoch == m.dir.epoch + 1 && d.history == [] else d == Ran(m.dir, m.payload))
      && Keyed(log[..|log| - 1], m.dir, m.seqno)
  }

  lemma KeyedAppend(log: seq<Wire>, d: Dir, q: uint32, m: Wire, d1: Dir)
    requires Keyed(log, d, q) && m.dir == d && m.seqno == q
    requires if m.payload.MsgNewkeys? then d1.epoch == d.epoch + 1 && d1.history == [] else d1 == Ran(d, m.payload)
    ensures Keyed(log + [m], d1, Next(q))
  {
    assert (log + [m])[..|log|] == log;
  }

  /** What has been opened together with what is in flight is one well keyed stream. */
  lemma {:induction false} KeyedThrough(role: Role, log: seq<Wire>, f: seq<Wire>, a: nat, b: nat,
                                        d: Dir, q: uint32, sw: Dir, d1: Dir, q1: uint32)
    requires Keyed(log, d, q) && Opens(f, d, q, sw, d1, q1) && Parses(role, f, a, b)
    requires a + (2 - a) % 3 + 3 >= b
    requires a + (2 - a) % 3 < b ==> sw.epoch == d.epoch + 1 && sw.history == []
    ensures Keyed(log + f, d1, q1)
    decreases |f|
  {
    if f == [] {
      assert log + f == log;
    } else {
      var m := f[0];
      var a1 := if AppPayload(m.payload) then a else a + 1;
      ParsesOrdered(role, f[1..], a1, b);
      var d' := if m.payload.MsgNewkeys? then sw else Ran(d, m.payload);
      KeyedAppend(log, d, q, m, d');
      KeyedThrough(role, log + [m], f[1..], a1, b, d', Next(q), sw, d1, q1);
      assert log + [m] + f[1..] == log + f;
    }
  }

  /** The same, packet by packet. */
  lemma {:induction false} KeyedAt(log: seq<Wire>, d: Dir, q: uint32, i: nat)
    requires Keyed(log, d, q) && i < |log|
    ensures q == |log| % WORD && log[i].seqno == i % WORD
    ensures i == 0 ==> log[0].dir == NoKeys()
    ensures i > 0 && log[i - 1].payload.MsgNewkeys? ==> log[i].dir.epoch == log[i - 1].dir.epoch + 1 && log[i].dir.history == []
    ensures i > 0 && !log[i - 1].payload.MsgNewkeys? ==> log[i].dir == Ran(log[i - 1].dir, log[i - 1].payload)
    decreases |log|
  {
    var k := |log| - 1;
    var rest := log[..k];
    KeyedCount(log, d, q);
    KeyedCount(rest, log[k].dir, log[k].seqno);
    if i < k { KeyedAt(rest, log[k].dir, log[k].seqno, i); }
  }

  lemma {:induction false} KeyedCount(log: seq<Wire>, d: Dir, q: uint32)
    requires Keyed(log, d, q)
    ensures q == |log| % WORD
    decreases |log|
  {
    if log != [] {
      var m := log[|log| - 1];
      KeyedCount(log[..|log| - 1], m.dir, m.seqno);
    }
  }

  // ------------------------------------------------------ what a step receives

  lemma {:induction false} AppSendAllKeeps(e: Endpoint, ps: seq<Payload>)
    ensures var e' := AppSendAll(e, ps); e'.kx == e.kx && e'.inc == e.inc && e'.phase == e.phase
    decreases |ps|
  {
    if ps != [] { AppSendAllKeeps(AppSend(e, ps[0]), ps[1..]); }
  }

  lemma {:induction false} EncryptAllKeeps(e: Endpoint, ps: seq<Payload>)
    ensures var e' := EncryptAll(e, ps); e'.kx == e.kx && e'.inc == e.inc && e'.phase == e.phase
    decreases |ps|
  {
    if ps != [] { EncryptAllKeeps(EncryptPacket(e, ps[0]), ps[1..]); }
  }

  lemma DispatchIncKexinit(w: World, e: Endpoint, q: Proposal, cookie: seq<byte>)
    ensures var r := RecvMsgKexinit(w, e, q, cookie); r.Ok? ==> r.value.inc == e.inc
  {
  }

  lemma DispatchIncReply(w: World, e: Endpoint, h: seq<byte>, f: nat, sig: seq<byte>, accept: bool)
    requires !e.kx.recvnewkeys
    ensures var r := RecvMsgKexdhReply(w, e, h, f, sig, accept); r.Ok? ==> r.value.inc == e.inc
  {
  }

  lemma DispatchIncDhInit(w: World, e: Endpoint, pub: nat, y: nat, nonce: nat)
    requires !e.kx.recvnewkeys
    ensures var r := RecvMsgKexdhInit(w, e, pub, y, nonce); r.Ok? ==> r.value.inc == e.inc
  {
  }

  lemma DispatchInc(w: World, e: Endpoint, p: Payload, inp: Input)
    requires !e.kx.recvnewkeys && !p.MsgNewkeys?
    ensures var r := Dispatch(w, e, p, inp); r.Ok? ==> r.value.inc == e.inc
  {
    match p
    case MsgKexinit(q) => DispatchIncKexinit(w, e, q, inp.cookie);
    case MsgKexdhInit(x) => DispatchIncDhInit(w, e, x, inp.secret, inp.nonce);
    case MsgKexdhReply(h, f, sig) => DispatchIncReply(w, e, h, f, sig, inp.accept);
    case MsgApp(t, _) => AppSendAllKeeps(e.(authdone := e.authdone || inp.authdone), inp.packets);
  }

  /** The receive side after a packet: one further in the old context, or in the new one. */
  lemma ReceiveInc(w: World, e: Endpoint, m: Wire, inp: Input)
    requires !e.kx.recvnewkeys && !e.kx.ignorenext
    requires m.payload.MsgNewkeys? ==> e.kx.sentnewkeys && CanGenKeys(e.kx)
    requires Receive(w, e, m, inp).Ok?
    ensures m.dir == e.inc.recv && m.seqno == e.inc.recvseq
    ensures Receive(w, e, m, inp).value.inc
      == if m.payload.MsgNewkeys? then Incoming(FreshRecv(e.kx), Next(e.inc.recvseq)) else Opened(e.inc, m.payload)
  {
    if !m.payload.MsgNewkeys? {
      var e1 := e.(lastpacket := Type(m.payload), inc := Opened(e.inc, m.payload), kx := e.kx.(requirenext := 0));
      DispatchInc(w, e1, m.payload, inp);
    }
  }

  lemma StepInc(w: World, e: Endpoint, inbox: seq<Wire>, inp: Input)
    requires !Step(w, e, inbox, inp).took
    ensures Step(w, e, inbox, inp).me.inc == e.inc
  {
    EncryptAllKeeps(e, e.out.replyqueue);
    AppSendAllKeeps(e, inp.packets);
    AppSendAllKeeps(e.(kx := e.kx.(kexState := KEX_NOTHING)), inp.packets);
  }

  // ------------------------------------------------------------- whole streams

  /** Parsing the same packets to the same end starts from the same place. */
  lemma {:induction false} ParsesStart(role: Role, f: seq<Wire>, a: nat, a': nat, b: nat)
    requires Parses(role, f, a, b) && Parses(role, f, a', b)
    ensures a == a'
    decreases |f|
  {
    if f != [] {
      if AppPayload(f[0].payload) { ParsesStart(role, f[1..], a, a', b); }
      else { ParsesStart(role, f[1..], a + 1, a' + 1, b); }
    }
  }

  lemma {:induction false} ParsesConcat(role: Role, f: seq<Wire>, h: seq<Wire>, a: nat, b: nat, c: nat)
    requires Parses(role, f, a, b) && Parses(role, h, b, c)
    ensures Parses(role, f + h, a, c)
    decreases |f|
  {
    if f == [] {
      assert f + h == h;
    } else {
      assert (f + h)[1..] == f[1..] + h;
      ParsesConcat(role, f[1..], h, if AppPayload(f[0].payload) then a else a + 1, b, c);
    }
  }

  /** The packets one end has opened: well keyed up to its receive context, and in order. */
  predicate Heard(role: Role, got: seq<Wire>, rcv: Endpoint) {
    Keyed(got, rcv.inc.recv, rcv.inc.recvseq) && Parses(role, got, 0, KexRecv(rcv.kx))
  }

  /** Opening the packet at the head of what is in flight adds it to what has been heard. */
  lemma HeardOne(w: World, got: seq<Wire>, rcv: Endpoint, rcv': Endpoint, snd: Endpoint, f: seq<Wire>, inp: Input)
    requires Heard(snd.kx.role, got, rcv) && f != []
    requires Receive(w, rcv, f[0], inp).Ok? && rcv'.inc == Receive(w, rcv, f[0], inp).value.inc
    requires !rcv.kx.recvnewkeys && !rcv.kx.ignorenext && rcv.inc.recv.epoch == rcv.kx.epoch
    requires OrderOK(snd.kx, rcv.kx, f) && OpenOK(snd, rcv, f) && OrderOK(snd.kx, rcv'.kx, f[1..])
    requires f[0].payload.MsgNewkeys? ==> rcv.kx.sentnewkeys && CanGenKeys(rcv.kx)
    ensures Heard(snd.kx.role, got + [f[0]], rcv')
  {
    var m := f[0];
    var role := snd.kx.role;
    HeadOpens(snd, rcv, f);
    ReceiveInc(w, rcv, m, inp);
    KeyedAppend(got, rcv.inc.recv, rcv.inc.recvseq, m, rcv'.inc.recv);
    ParsesStart(role, f[1..], KexRecv(rcv'.kx), if AppPayload(m.payload) then KexRecv(rcv.kx) else KexRecv(rcv.kx) + 1, KexSent(snd.kx));
    ParsesAppend(role, got, 0, KexRecv(rcv.kx), m);
  }

  lemma HeardNone(got: seq<Wire>, rcv: Endpoint, rcv': Endpoint, snd: Endpoint, f: seq<Wire>)
    requires Heard(snd.kx.role, got, rcv) && rcv'.inc == rcv.inc
    requires OrderOK(snd.kx, rcv.kx, f) && OrderOK(snd.kx, rcv'.kx, f)
    ensures Heard(snd.kx.role, got, rcv')
  {
    ParsesStart(snd.kx.role, f, KexRecv(rcv'.kx), KexRecv(rcv.kx), KexSent(snd.kx));
  }

  predicate HeardBoth(n: Net) {
    Heard(Client, n.gotS, n.s) && Heard(Server, n.gotC, n.c)
  }

  /** Only an end that has sent NEWKEYS has the peer's at the head of its link. */
  lemma HeadNewkeys(w: World, mine: Outcome<NewKeys>, snd: Endpoint, rcv: Endpoint, f: seq<Wire>)
    requires KexOK(w, mine, rcv.kx) && OrderOK(snd.kx, rcv.kx, f) && OpenOK(snd, rcv, f)
    requires f != [] && f[0].payload.MsgNewkeys?
    ensures rcv.kx.sentnewkeys && CanGenKeys(rcv.kx)
  {
    HeadOpens(snd, rcv, f);
  }

  lemma HeardMoveC(w: World, g: Deal, n: Net, inp: Input)
    requires NetInv(w, g, n) && NetInv(w, g, Move(w, n, Client, inp)) && HeardBoth(n)
    ensures HeardBoth(Move(w, n, Client, inp))
  {
    var n' := Move(w, n, Client, inp);
    var r := Step(w, n.c, n.toC, inp);
    if r.took {
      FlightTail(n.toC, n.s.out.writequeue);
      if n.toC[0].payload.MsgNewkeys? { HeadNewkeys(w, g.forC, n.s, n.c, FlightS(n)); }
      HeardOne(w, n.gotC, n.c, n'.c, n.s, FlightS(n), inp);
    } else {
      StepInc(w, n.c, n.toC, inp);
      HeardNone(n.gotC, n.c, n'.c, n.s, FlightS(n));
    }
  }

  lemma HeardMoveS(w: World, g: Deal, n: Net, inp: Input)
    requires NetInv(w, g, n) && NetInv(w, g, Move(w, n, Server, inp)) && HeardBoth(n)
    ensures HeardBoth(Move(w, n, Server, inp))
  {
    var n' := Move(w, n, Server, inp);
    var r := Step(w, n.s, n.toS, inp);
    if r.took {
      FlightTail(n.toS, n.c.out.writequeue);
      if n.toS[0].payload.MsgNewkeys? { HeadNewkeys(w, g.forS, n.c, n.s, FlightC(n)); }
      HeardOne(w, n.gotS, n.s, n'.s, n.c, FlightC(n), inp);
    } else {
      StepInc(w, n.s, n.toS, inp);
      HeardNone(n.gotS, n.s, n'.s, n.c, FlightC(n));
    }
  }

  lemma {:induction false} RunHeard(w: World, cc: Config, sc: Config, kc: seq<byte>, ks: seq<byte>, run: seq<Choice>)
    requires GoodWorld(w) && GoodRun(run)
    ensures HeardBoth(After(w, cc, sc, kc, ks, run))
    decreases |run|
  {
    if run != [] {
      var k := |run| - 1;
      RunHeard(w, cc, sc, kc, ks, run[..k]);
      RunFacts(w, cc, sc, kc, ks, run[..k]);
      RunFacts(w, cc, sc, kc, ks, run);
      var n := After(w, cc, sc, kc, ks, run[..k]);
      if run[k].who == Client { HeardMoveC(w, MakeDeal(w, cc, sc), n, run[k].inp); }
      else { HeardMoveS(w, MakeDeal(w, cc, sc), n, run[k].inp); }
    }
  }

  /** One direction: everything ever sent is well keyed and well ordered. */
  lemma WholeStream(w: World, mineS: Outcome<NewKeys>, mineR: Outcome<NewKeys>, got: seq<Wire>, snd: Endpoint, rcv: Endpoint, f: seq<Wire>)
    requires Heard(snd.kx.role, got, rcv) && OrderOK(snd.kx, rcv.kx, f) && OpenOK(snd, rcv, f)
    requires KexRecv(snd.kx) <= KexSent(rcv.kx) && EndOK(rcv) && EndOK(snd)
    requires KexOK(w, mineS, snd.kx) && KexOK(w, mineR, rcv.kx)
    ensures Keyed(got + f, EffTrans(snd), snd.out.transseq)
    ensures Parses(snd.kx.role, got + f, 0, KexSent(snd.kx))
  {
    KeyedThrough(snd.kx.role, got, f, KexRecv(rcv.kx), KexSent(snd.kx), rcv.inc.recv, rcv.inc.recvseq,
                 NewRecv(rcv.kx, snd), EffTrans(snd), snd.out.transseq);
    ParsesConcat(snd.kx.role, got, f, 0, KexRecv(rcv.kx), KexSent(snd.kx));
  }

  predicate WellKeyed(log: seq<Wire>, i: nat)
    requires i < |log|
  {
    && log[i].seqno == i % WORD
    && (i == 0 ==> log[0].dir == NoKeys())
    && (i > 0 && log[i - 1].payload.MsgNewkeys? ==> log[i].dir.epoch == log[i - 1].dir.epoch + 1 && log[i].dir.history == [])
    && (i > 0 && !log[i - 1].payload.MsgNewkeys? ==> log[i].dir == Ran(log[i - 1].dir, log[i - 1].payload))
  }

  /** On each wire, over every run: the i-th packet carries sequence number i modulo 2^32; the
      key epoch changes exactly after NEWKEYS, and within an epoch every packet continues
      the cipher stream of the one before; key exchange messages come in the order KEXINIT,
      KEXDH, NEWKEYS; and between KEXINIT and NEWKEYS only permitted packets are sent. */
  lemma StreamsWellFormed(w: World, cc: Config, sc: Config, kc: seq<byte>, ks: seq<byte>, run: seq<Choice>)
    requires GoodWorld(w) && GoodRun(run)
    ensures var n := After(w, cc, sc, kc, ks, run);
      && (forall i :: 0 <= i < |SentByC(n)| ==> WellKeyed(SentByC(n), i))
      && (forall i :: 0 <= i < |SentByS(n)| ==> WellKeyed(SentByS(n), i))
      && Parses(Client, SentByC(n), 0, KexSent(n.c.kx)) && Parses(Server, SentByS(n), 0, KexSent(n.s.kx))
  {
    RunFacts(w, cc, sc, kc, ks, run);
    RunHeard(w, cc, sc, kc, ks, run);
    StreamsOf(w, MakeDeal(w, cc, sc), After(w, cc, sc, kc, ks, run));
  }

  lemma StreamsOf(w: World, g: Deal, n: Net)
    requires NetInv(w, g, n) && HeardBoth(n)
    ensures forall i :: 0 <= i < |SentByC(n)| ==> WellKeyed(SentByC(n), i)
    ensures forall i :: 0 <= i < |SentByS(n)| ==> WellKeyed(SentByS(n), i)
    ensures Parses(Client, SentByC(n), 0, KexSent(n.c.kx)) && Parses(Server, SentByS(n), 0, KexSent(n.s.kx))
  {
    WholeStream(w, g.forC, g.forS, n.gotS, n.c, n.s, FlightC(n));
    WholeStream(w, g.forS, g.forC, n.gotC, n.s, n.c, FlightS(n));
    forall i | 0 <= i < |SentByC(n)| ensures WellKeyed(SentByC(n), i) {
      KeyedAt(SentByC(n), EffTrans(n.c), n.c.out.transseq, i);
    }
    forall i | 0 <= i < |SentByS(n)| ensures WellKeyed(SentByS(n), i) {
      KeyedAt(SentByS(n), EffTrans(n.s), n.s.out.transseq, i);
    }
  }
}
