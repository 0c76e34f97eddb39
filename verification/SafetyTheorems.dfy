/**
  The main results about key exchange: what holds after every run of a Dropbear client
  and a Dropbear server, whichever side rekeys, however often, with packets in flight.
*/
module SafetyTheorems {
  import opened Wrappers
  import opened Bytes
  import opened NumberTheory
  import opened Transport
  import opened Network
  import opened Agreement
  import opened Runs

  lemma StartInv(w: World, g: Deal, kc: seq<byte>, ks: seq<byte>)
    requires GoodDeal(w, g)
    ensures NetInv(w, g, Start(w, g.cc, g.sc, kc, ks))
  {
    var n := Start(w, g.cc, g.sc, kc, ks);
    var pc, ps := MsgKexinit(Proposal(kc, g.listsC, false)), MsgKexinit(Proposal(ks, g.listsS, false));
    assert FlightC(n) == [Wire(pc, 0, NoKeys())];
    assert FlightS(n) == [Wire(ps, 0, NoKeys())];
    assert FlightC(n)[1..] == [] && FlightS(n)[1..] == [];
    assert Parses(Client, FlightC(n), 0, 1) && Parses(Server, FlightS(n), 0, 1);
    assert OpenOK(n.c, n.s, FlightC(n)) && OpenOK(n.s, n.c, FlightS(n));
  }

  /** The invariant holds after every run. */
  lemma {:induction false} RunInv(w: World, g: Deal, kc: seq<byte>, ks: seq<byte>, run: seq<Choice>)
    requires GoodWorld(w) && GoodDeal(w, g) && GoodRun(run)
    ensures var n := Exec(w, Start(w, g.cc, g.sc, kc, ks), run);
      NetInv(w, g, n) && AliveOrExcused(n.c) && AliveOrExcused(n.s)
    decreases |run|
  {
    if run == [] {
      StartInv(w, g, kc, ks);
    } else {
      var k := |run| - 1;
      RunInv(w, g, kc, ks, run[..k]);
      var n := Exec(w, Start(w, g.cc, g.sc, kc, ks), run[..k]);
      if run[k].who == Client { StepC(w, g, n, run[k].inp); } else { StepS(w, g, n, run[k].inp); }
    }
  }

  // ------------------------------------------------------------------ results

  /** The state of both ends and the links after a run. */
  function After(w: World, cc: Config, sc: Config, kc: seq<byte>, ks: seq<byte>, run: seq<Choice>): Net {
    Exec(w, Start(w, cc, sc, kc, ks), run)
  }

  lemma RunFacts(w: World, cc: Config, sc: Config, kc: seq<byte>, ks: seq<byte>, run: seq<Choice>)
    requires GoodWorld(w) && GoodRun(run)
    ensures var n := After(w, cc, sc, kc, ks, run);
      GoodDeal(w, MakeDeal(w, cc, sc)) && NetInv(w, MakeDeal(w, cc, sc), n) && AliveOrExcused(n.c) && AliveOrExcused(n.s)
  {
    NegotiationAgrees(w, cc, sc);
    RunInv(w, MakeDeal(w, cc, sc), kc, ks, run);
  }

  /** In no run does either end fail an integrity check, meet a packet type it does not
      expect, reject a Diffie-Hellman value or a signature, or use key exchange state
      it does not have. */
  lemma NoProtocolExit(w: World, cc: Config, sc: Config, kc: seq<byte>, ks: seq<byte>, run: seq<Choice>)
    requires GoodWorld(w) && GoodRun(run)
    ensures var n := After(w, cc, sc, kc, ks, run);
      forall r :: (n.c.dead == Some(r) || n.s.dead == Some(r)) ==>
        r !in {IntegrityError, UnexpectedPacket, PrematureKexdhInit, OutOfOrderReply,
               DhError, BadSignature, BadKexPacket, MissingState}
  {
    RunFacts(w, cc, sc, kc, ks, run);
  }

  /** Whatever packet is next on a link was sealed in exactly the context, chaining state
      and sequence number with which the receiver is about to open it. */
  lemma NextPacketOpens(w: World, cc: Config, sc: Config, kc: seq<byte>, ks: seq<byte>, run: seq<Choice>)
    requires GoodWorld(w) && GoodRun(run)
    ensures var n := After(w, cc, sc, kc, ks, run);
      && (n.toS != [] ==> n.toS[0].dir == n.s.inc.recv && n.toS[0].seqno == n.s.inc.recvseq)
      && (n.toC != [] ==> n.toC[0].dir == n.c.inc.recv && n.toC[0].seqno == n.c.inc.recvseq)
  {
    RunFacts(w, cc, sc, kc, ks, run);
    var n := After(w, cc, sc, kc, ks, run);
    if n.toS != [] { HeadOpens(n.c, n.s, FlightC(n)); }
    if n.toC != [] { HeadOpens(n.s, n.c, FlightS(n)); }
  }

  /** Data is held back exactly while our KEXINIT is outstanding; NEWKEYS is never
      received before ours is sent; and no packet is ever ignored as a wrong guess. */
  lemma DataAllowedExactly(w: World, cc: Config, sc: Config, kc: seq<byte>, ks: seq<byte>, run: seq<Choice>)
    requires GoodWorld(w) && GoodRun(run)
    ensures var n := After(w, cc, sc, kc, ks, run);
      forall e :: e == n.c || e == n.s ==>
        && e.kx.dataallowed == !e.kx.sentkexinit
        && (e.kx.sentnewkeys ==> !e.kx.dataallowed)
        && !e.kx.recvnewkeys && !e.kx.ignorenext
        && (e.kx.dataallowed && e.phase != Flushing ==> e.out.replyqueue == [])
  {
    RunFacts(w, cc, sc, kc, ks, run);
  }

  /** Two contexts with the same keys, perhaps at different points of their streams. */
  predicate SameKeys(a: Dir, b: Dir) {
    a == b.(history := a.history)
  }

  lemma {:induction false} OpensSameKeys(f: seq<Wire>, d: Dir, q: uint32, sw: Dir, d1: Dir, q1: uint32)
    requires Opens(f, d, q, sw, d1, q1)
    requires forall i :: 0 <= i < |f| ==> Type(f[i].payload) != SSH_MSG_NEWKEYS
    ensures SameKeys(d, d1)
    decreases |f|
  {
    if f != [] {
      forall i | 0 <= i < |f[1..]| ensures Type(f[1..][i].payload) != SSH_MSG_NEWKEYS {
        assert f[1..][i] == f[i + 1];
      }
      assert Type(f[0].payload) != SSH_MSG_NEWKEYS;
      OpensSameKeys(f[1..], Ran(d, f[0].payload), Next(q), sw, d1, q1);
    }
  }

  /** Key agreement. When both ends have sent NEWKEYS they hold the same secret, exchange
      hash and session id, and the keys they are about to use mirror each other. Between
      exchanges, each end's transmit keys are the other's receive keys, byte for byte. */
  lemma KeysAgree(w: World, cc: Config, sc: Config, kc: seq<byte>, ks: seq<byte>, run: seq<Choice>)
    requires GoodWorld(w) && GoodRun(run)
    ensures var n := After(w, cc, sc, kc, ks, run);
      var c, s := n.c, n.s;
      && (c.kx.sessionId.Some? ==> s.kx.sessionId == c.kx.sessionId)
      && (c.kx.sentnewkeys && s.kx.sentnewkeys ==>
            && CanGenKeys(c.kx) && CanGenKeys(s.kx)
            && c.kx.dhK == s.kx.dhK && c.kx.hash == s.kx.hash && c.kx.sessionId == s.kx.sessionId
            && FreshTrans(c.kx) == FreshRecv(s.kx) && FreshRecv(c.kx) == FreshTrans(s.kx))
      && (c.kx.epoch == s.kx.epoch && !c.kx.sentnewkeys && !s.kx.sentnewkeys ==>
            && SameKeys(c.out.trans, s.inc.recv) && SameKeys(s.out.trans, c.inc.recv)
            && (c.out.trans.seed.Seed? ==> KeyMaterial(w, c.out.trans) == KeyMaterial(w, s.inc.recv))
            && (s.out.trans.seed.Seed? ==> KeyMaterial(w, s.out.trans) == KeyMaterial(w, c.inc.recv)))
  {
    RunFacts(w, cc, sc, kc, ks, run);
    AgreementFromInv(w, MakeDeal(w, cc, sc), After(w, cc, sc, kc, ks, run));
  }

  lemma AgreementFromInv(w: World, g: Deal, n: Net)
    requires NetInv(w, g, n) && GoodDeal(w, g)
    ensures n.c.kx.sessionId.Some? ==> n.s.kx.sessionId == n.c.kx.sessionId
    ensures n.c.kx.sentnewkeys && n.s.kx.sentnewkeys ==>
      && CanGenKeys(n.c.kx) && CanGenKeys(n.s.kx)
      && n.c.kx.dhK == n.s.kx.dhK && n.c.kx.hash == n.s.kx.hash && n.c.kx.sessionId == n.s.kx.sessionId
      && FreshTrans(n.c.kx) == FreshRecv(n.s.kx) && FreshRecv(n.c.kx) == FreshTrans(n.s.kx)
    ensures n.c.kx.epoch == n.s.kx.epoch && !n.c.kx.sentnewkeys && !n.s.kx.sentnewkeys ==>
      SameKeys(n.c.out.trans, n.s.inc.recv) && SameKeys(n.s.out.trans, n.c.inc.recv)
  {
    if n.c.kx.sentnewkeys && n.s.kx.sentnewkeys {
      FreshKeysMirror(n.c.kx, n.s.kx);
    }
    if !n.c.kx.sentnewkeys && !n.s.kx.sentnewkeys {
      NoNewkeysInFlight(n.c.kx, n.s.kx, FlightC(n));
      NoNewkeysInFlight(n.s.kx, n.c.kx, FlightS(n));
      OpensSameKeys(FlightC(n), n.s.inc.recv, n.s.inc.recvseq, NewRecv(n.s.kx, n.c), EffTrans(n.c), n.c.out.transseq);
      OpensSameKeys(FlightS(n), n.c.inc.recv, n.c.inc.recvseq, NewRecv(n.c.kx, n.s), EffTrans(n.s), n.s.out.transseq);
    }
  }

  /** An end always receives with the MAC algorithm it transmits with, so taking the MAC
      size from the transmit direction, as checkmac does, gives the right size. */
  lemma OneMacPerEnd(w: World, cc: Config, sc: Config, kc: seq<byte>, ks: seq<byte>, run: seq<Choice>)
    requires GoodWorld(w) && GoodRun(run)
    ensures var n := After(w, cc, sc, kc, ks, run);
      n.c.out.trans.mac == n.c.inc.recv.mac && n.s.out.trans.mac == n.s.inc.recv.mac
  {
    RunFacts(w, cc, sc, kc, ks, run);
    SameMacBothWays(Client, cc, sc);
    SameMacBothWays(Server, sc, cc);
    assert w.advertise(cc) == OwnLists(cc) && w.advertise(sc) == OwnLists(sc);
    assert w.negotiate(Client, cc, w.advertise(sc)) == ReadKexAlgos(Client, cc, OwnLists(sc));
    assert w.negotiate(Server, sc, w.advertise(cc)) == ReadKexAlgos(Server, sc, OwnLists(cc));
  }

  /** No exchange can be stuck: with nothing in flight and the client back at the top of its
      loop, both ends are outside key exchange, in the same epoch, and may send data. */
  lemma NoDeadlock(w: World, cc: Config, sc: Config, kc: seq<byte>, ks: seq<byte>, run: seq<Choice>)
    requires GoodWorld(w) && GoodRun(run)
    ensures var n := After(w, cc, sc, kc, ks, run);
      FlightC(n) == [] && FlightS(n) == [] && n.c.phase == Timeouts ==>
        && n.c.kx.epoch == n.s.kx.epoch && n.c.kx.epoch > 0
        && n.c.kx.dataallowed && n.s.kx.dataallowed
        && !n.c.kx.recvkexinit && !n.s.kx.recvkexinit
  {
    RunFacts(w, cc, sc, kc, ks, run);
  }
}
