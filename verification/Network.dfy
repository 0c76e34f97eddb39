/**
  A Dropbear client and a Dropbear server joined by two FIFO links, stepped through
  their session loops in any interleaving (common-session.c).
*/
module Network {
  import opened Wrappers
  import opened Bytes
  import opened NumberTheory
  import opened Transport

  /** `toS` and `toC` are the links; `gotS` and `gotC` record what each end has decrypted. */
  datatype Net = Net(c: Endpoint, s: Endpoint,
                     toS: seq<Wire>, toC: seq<Wire>, gotS: seq<Wire>, gotC: seq<Wire>)

  /** The effect of one step on the end that takes it. */
  datatype Local = Local(me: Endpoint, took: bool, put: seq<Wire>)

  /** One phase of session_loop. An exit leaves the packet where it is and the
      session as it was, and ends this side's run. */
  function Step(w: World, e: Endpoint, inbox: seq<Wire>, inp: Input): (r: Local)
    ensures r.took ==> inbox != []
  {
    if e.dead.Some? then Local(e, false, [])
    else match e.phase
      case Timeouts => Local(CheckTimeouts(w, e, inp).(phase := Writing), false, [])
      case Writing =>
        if inp.go && e.out.writequeue != []
        then Local(e.(out := e.out.(writequeue := e.out.writequeue[1..]), phase := Reading), false, [e.out.writequeue[0]])
        else Local(e.(phase := Reading), false, [])
      case Reading =>
        if inp.go && inbox != [] then
          match Receive(w, e, inbox[0], inp)
          case Ok(m) => Local(m.(phase := Flushing), true, [])
          case Exit(r) => Local(e.(dead := Some(r)), false, [])
        else Local(e.(phase := Flushing), false, [])
      case Flushing => Local(MaybeFlushReplyQueue(e).(phase := Channels), false, [])
      case Channels =>
        Local((if e.kx.dataallowed then AppSendAll(e, inp.packets) else e).(phase := Handler), false, [])
      case Handler =>
        if e.kx.role == Server then Local(e.(phase := Timeouts), false, [])
        else match CliSessionLoop(w, e, inp)
          case Ok(m) => Local(m.(phase := Timeouts), false, [])
          case Exit(r) => Local(e.(dead := Some(r)), false, [])
  }

  function Move(w: World, n: Net, who: Role, inp: Input): Net {
    if who == Client then
      var r := Step(w, n.c, n.toC, inp);
      n.(c := r.me, toS := n.toS + r.put,
         toC := if r.took then n.toC[1..] else n.toC,
         gotC := if r.took then n.gotC + [n.toC[0]] else n.gotC)
    else
      var r := Step(w, n.s, n.toS, inp);
      n.(s := r.me, toC := n.toC + r.put,
         toS := if r.took then n.toS[1..] else n.toS,
         gotS := if r.took then n.gotS + [n.toS[0]] else n.gotS)
  }

  function Start(w: World, cc: Config, sc: Config, cookieC: seq<byte>, cookieS: seq<byte>): Net {
    Net(StartSession(w, Client, cc, sc.ident, cookieC), StartSession(w, Server, sc, cc.ident, cookieS), [], [], [], [])
  }

  datatype Choice = Choice(who: Role, inp: Input)

  ghost predicate GoodRun(run: seq<Choice>) {
    forall i :: 0 <= i < |run| ==> GoodInput(run[i].inp)
  }

  /** The state after a run. Every interleaving of every choice of inputs is a run. */
  function Exec(w: World, n: Net, run: seq<Choice>): Net
    decreases |run|
  {
    if run == [] then n
    else
      var m := Exec(w, n, run[..|run| - 1]);
      Move(w, m, run[|run| - 1].who, run[|run| - 1].inp)
  }

  /** Packets sent and not yet decrypted, oldest first. */
  function FlightC(n: Net): seq<Wire> { n.toS + n.c.out.writequeue }
  function FlightS(n: Net): seq<Wire> { n.toC + n.s.out.writequeue }

  /** Everything one side ever encrypted, in order. */
  function SentByC(n: Net): seq<Wire> { n.gotS + FlightC(n) }
  function SentByS(n: Net): seq<Wire> { n.gotC + FlightS(n) }

  // ----------------------------------------------------- where an end stands

  /** Progress of the exchange in hand: nothing yet, KEXINIT sent, both KEXINITs
      exchanged, KEXDH_INIT sent (client), NEWKEYS sent. */
  datatype Pos = Idle | Sent | Both | Dh | New

  function PosOf(k: Kex): Pos {
    if k.sentnewkeys then New
    else if !k.sentkexinit then Idle
    else if !k.recvkexinit then Sent
    else if k.role == Client && k.kexState == KEXDH_INIT_SENT then Dh
    else Both
  }

  /** How many key exchange messages this end has sent, and received, since it started. */
  function KexSent(k: Kex): nat {
    3 * k.epoch + match PosOf(k) case Idle => 0 case Sent => 1 case Both => 1 case Dh => 2 case New => 3
  }
  function KexRecv(k: Kex): nat {
    3 * k.epoch + match PosOf(k) case Idle => 0 case Sent => 0 case Both => 1 case Dh => 1 case New => 2
  }

  /** The order in which a side sends its key exchange messages, over and over. */
  function Pattern(role: Role, k: nat): byte {
    if k % 3 == 0 then SSH_MSG_KEXINIT
    else if k % 3 == 1 then (if role == Client then SSH_MSG_KEXDH_INIT else SSH_MSG_KEXDH_REPLY)
    else SSH_MSG_NEWKEYS
  }

  /** A stretch of a sender's packets, from its a-th to its b-th key exchange message:
      the messages come in the right order, and between KEXINIT and NEWKEYS there is
      only what section 7.1 of RFC 4253 allows there. */
  predicate Parses(role: Role, f: seq<Wire>, a: nat, b: nat)
    decreases |f|
  {
    if f == [] then a == b
    else
      var p := f[0].payload;
      if AppPayload(p) then
        ((a > 0 && a % 3 == 0) || OkayKex(Type(p))) && Parses(role, f[1..], a, b)
      else
        !p.MsgApp? && Type(p) == Pattern(role, a) && Parses(role, f[1..], a + 1, b)
  }

  /** The receiver, starting from context d and number q, opens every packet of f and
      ends in context d1 with number q1; after NEWKEYS it goes on with context switched. */
  predicate Opens(f: seq<Wire>, d: Dir, q: uint32, switched: Dir, d1: Dir, q1: uint32)
    decreases |f|
  {
    if f == [] then d == d1 && q == q1
    else
      f[0].dir == d && f[0].seqno == q
      && Opens(f[1..], if f[0].payload.MsgNewkeys? then switched else Ran(d, f[0].payload), Next(q), switched, d1, q1)
  }

  // ------------------------------------------------- what receiving comes to

  lemma ReceiveCases(w: World, e: Endpoint, m: Wire, inp: Input)
    ensures var r := Receive(w, e, m, inp);
      || r == Exit(IntegrityError)
      || r == ProcessPacket(w, e.(inc := Incoming(Ran(e.inc.recv, m.payload), Next(e.inc.recvseq))), m.payload, inp)
  {
    hide ProcessPacket;
  }

  /** What process_packet comes to. */
  lemma ProcessCases(w: World, e: Endpoint, p: Payload, inp: Input)
    ensures var t := Type(p);
      var o := e.(lastpacket := t);
      var k := o.(kx := o.kx.(requirenext := 0));
      var r := ProcessPacket(w, e, p, inp);
      if t == SSH_MSG_IGNORE || t == SSH_MSG_DEBUG then r == Ok(o)
      else
        || r == Exit(UnexpectedPacket)
        || (r.Exit? && (t == SSH_MSG_UNIMPLEMENTED || t == SSH_MSG_DISCONNECT || (!e.authdone && t > MAX_UNAUTH_PACKET_TYPE)))
        || r == Ok(k.(kx := k.kx.(ignorenext := false)))
        || r == Dispatch(w, k, p, inp)
  {
    hide Dispatch, Type;
  }
}
