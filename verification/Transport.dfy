/**
  One end of an SSH transport, as values: what packet.c, common-kex.c, process-packet.c,
  cli-session.c, cli-kex.c, svr-kex.c and common-session.c do to the session
  state. Every handler is a function from a state to a new state or an exit.
  Clocks, random numbers, user answers and the application's own packets are inputs.

  Three history variables have no counterpart in the program: the epoch number of a key
  context, the list `produced` of application packets handed to encrypt_packet, and the
  flag `passed`, which records that one of them met the condition PassesHeld.
*/
module Transport {
  import opened Wrappers
  import opened Bytes
  import opened NumberTheory
  import opened AlgoMatch

  // -------------------------------------------------------------- constants

  const SSH_MSG_DISCONNECT: byte := 1
  const SSH_MSG_IGNORE: byte := 2
  const SSH_MSG_UNIMPLEMENTED: byte := 3
  const SSH_MSG_DEBUG: byte := 4
  const SSH_MSG_SERVICE_REQUEST: byte := 5
  const SSH_MSG_SERVICE_ACCEPT: byte := 6
  const SSH_MSG_KEXINIT: byte := 20
  const SSH_MSG_NEWKEYS: byte := 21
  const SSH_MSG_KEXDH_INIT: byte := 30
  const SSH_MSG_KEXDH_REPLY: byte := 31
  const SSH_MSG_USERAUTH_REQUEST: byte := 50
  const MAX_UNAUTH_PACKET_TYPE: byte := 60
  const DH_G_VAL: nat := 2

  /** The primes of diffie-hellman-group1-sha1 and diffie-hellman-group14-sha1. */
  const DH_P_1: nat := 0xFFFFFFFFFFFFFFFFC90FDAA22168C234C4C6628B80DC1CD129024E088A67CC74020BBEA63B139B22514A08798E3404DDEF9519B3CD3A431B302B0A6DF25F14374FE1356D6D51C245E485B576625E7EC6F44C42E9A637ED6B0BFF5CB6F406B7EDEE386BFB5A899FA5AE9F24117C4B1FE649286651ECE65381FFFFFFFFFFFFFFFF
  const DH_P_14: nat := 0xFFFFFFFFFFFFFFFFC90FDAA22168C234C4C6628B80DC1CD129024E088A67CC74020BBEA63B139B22514A08798E3404DDEF9519B3CD3A431B302B0A6DF25F14374FE1356D6D51C245E485B576625E7EC6F44C42E9A637ED6B0BFF5CB6F406B7EDEE386BFB5A899FA5AE9F24117C4B1FE649286651ECE45B3DC2007CB8A163BF0598DA48361C55D39A69163FA8FD24CF5F83655D23DCA3AD961C62F356208552BB9ED529077096966D670C354E4ABC9804F1746C08CA18217C32905E462E36CE3BE39E772C180E86039B2783A2EC07A28FB5C55DF06F4C52C9DE2BCBF6955817183995497CEA956AE515D2261898FA051015728E5A8AACAA68FFFFFFFFFFFFFFFF

  // -------------------------------------------------------------- messages

  datatype Role = Client | Server

  /** The ten name lists of a KEXINIT, less the two empty language lists. */
  datatype Lists = Lists(kex: seq<Name>, hostkey: seq<Name>,
                         cipherC2S: seq<Name>, cipherS2C: seq<Name>,
                         macC2S: seq<Name>, macS2C: seq<Name>,
                         compC2S: seq<Name>, compS2C: seq<Name>)

  datatype Proposal = Proposal(cookie: seq<byte>, lists: Lists, follows: bool)

  datatype Payload =
    | MsgKexinit(proposal: Proposal)
    | MsgKexdhInit(e: nat)
    | MsgKexdhReply(hostkey: seq<byte>, f: nat, sig: seq<byte>)
    | MsgNewkeys
    | MsgApp(kind: byte, body: Body)

  /** What follows the type byte of a packet that is not part of key exchange. */
  datatype Body = Bytes(bytes: seq<byte>) | SequenceNumber(n: uint32)

  function Type(p: Payload): byte {
    match p
    case MsgKexinit(_) => SSH_MSG_KEXINIT
    case MsgKexdhInit(_) => SSH_MSG_KEXDH_INIT
    case MsgKexdhReply(_, _, _) => SSH_MSG_KEXDH_REPLY
    case MsgNewkeys => SSH_MSG_NEWKEYS
    case MsgApp(k, _) => k
  }

  /** The packet types that Dropbear sends outside key exchange. */
  predicate AppPayload(p: Payload) {
    p.MsgApp? && (1 <= p.kind <= 6 || p.kind >= 50)
  }

  /** packet_is_okay_kex: may be sent while a key exchange is running. */
  predicate OkayKex(t: byte) {
    !(t >= SSH_MSG_USERAUTH_REQUEST)
    && t != SSH_MSG_SERVICE_REQUEST && t != SSH_MSG_SERVICE_ACCEPT
    && t != SSH_MSG_KEXINIT
  }

  /** The payload that is hashed as I_C or I_S. */
  function EncodeProposal(p: Proposal): seq<byte> {
    [SSH_MSG_KEXINIT] + p.cookie
    + PutString(Join(p.lists.kex)) + PutString(Join(p.lists.hostkey))
    + PutString(Join(p.lists.cipherC2S)) + PutString(Join(p.lists.cipherS2C))
    + PutString(Join(p.lists.macC2S)) + PutString(Join(p.lists.macS2C))
    + PutString(Join(p.lists.compC2S)) + PutString(Join(p.lists.compS2C))
    + PutString([]) + PutString([])
    + [if p.follows then 1 else 0] + PutInt(0)
  }

  // ------------------------------------------------------------- the session

  /** What gen_new_keys hashes to make one direction's IV, cipher key and MAC key. */
  datatype Seed = NoSeed | Seed(k: nat, hash: seq<byte>, sid: seq<byte>, c2s: bool)

  /** One direction of a key context. `history` stands for the chaining state of
      the cipher: the packets that have already been run through it. */
  datatype Dir = Dir(epoch: nat, cipher: Name, mac: Name, comp: Name, seed: Seed, history: seq<Payload>)

  /** The algorithms chosen by read_kex_algos, before there are keys. */
  datatype NewKeys = NewKeys(kex: Name, hostkey: Name,
                             transCipher: Name, recvCipher: Name,
                             transMac: Name, recvMac: Name,
                             transComp: Name, recvComp: Name)

  /** An encrypted packet: its contents, and what it was encrypted with. */
  datatype Wire = Wire(payload: Payload, seqno: uint32, dir: Dir)

  datatype Config = Config(ident: seq<byte>, kex: seq<Algo>, hostkeys: seq<Algo>,
                           ciphers: seq<Algo>, macs: seq<Algo>, comps: seq<Algo>)

  /** The first part of the exchange hash: V_C, V_S, I_C, I_S. */
  datatype Transcript = Transcript(vc: seq<byte>, vs: seq<byte>, ic: Proposal, is_: Proposal)

  datatype KexState = KEX_NOTHING | KEXINIT_RCVD | KEXDH_INIT_SENT

  /** Where the session loop stands. */
  datatype Phase = Timeouts | Writing | Reading | Flushing | Channels | Handler

  datatype Reason =
    | IntegrityError | UnexpectedPacket | PrematureKexdhInit | OutOfOrderReply
    | DhError | BadSignature | BadKexPacket | MissingState
    | HostKeyRejected | NoMatchingAlgo | UnimplementedReceived | DisconnectReceived
    | BeforeUserauth | HandlerExit

  /** The key exchange and packet handling variables. `epoch` counts finished exchanges. */
  datatype Kex = Kex(
    role: Role, cfg: Config, peerIdent: seq<byte>, epoch: nat,
    sentkexinit: bool, recvkexinit: bool, sentnewkeys: bool, recvnewkeys: bool,
    firstfollows: bool, donefirstkex: bool,
    dataallowed: bool, requirenext: byte, ignorenext: bool,
    kexState: KexState, newkeys: Option<NewKeys>,
    transkexinit: Option<Proposal>, kexhashbuf: Option<Transcript>,
    dhE: Option<nat>, dhX: Option<nat>, dhK: Option<nat>,
    hash: seq<byte>, sessionId: Option<seq<byte>>)

  /** The transmit side: its keys and sequence number, the packets held back, and the
      encrypted packets not yet written. */
  datatype Outgoing = Outgoing(trans: Dir, transseq: uint32,
                               replyqueue: seq<Payload>, writequeue: seq<Wire>,
                               produced: seq<Payload>, passed: bool)

  datatype Incoming = Incoming(recv: Dir, recvseq: uint32)

  datatype Endpoint = Endpoint(kx: Kex, out: Outgoing, inc: Incoming,
                               lastpacket: byte, authdone: bool, phase: Phase, dead: Option<Reason>)

  /** What the handlers call: library functions, the host key, and the choice of
      algorithms, each given its meaning by GoodWorld. */
  datatype World = World(
    advertise: Config -> Lists, negotiate: (Role, Config, Lists) -> Outcome<NewKeys>,
    sha1: seq<byte> -> seq<byte>,
    xhash: (Transcript, seq<byte>, nat, nat, nat) -> seq<byte>,
    exptmod: (nat, nat, nat) -> nat, prime: Name -> nat,
    hostPub: Name -> seq<byte>, keyType: seq<byte> -> Name,
    sign: (Name, seq<byte>, nat) -> seq<byte>,
    verify: (seq<byte>, seq<byte>, seq<byte>) -> bool,
    cipherKeySize: Name -> nat, macKeySize: Name -> nat)

  /** load_dh_p: the prime of a key exchange method. */
  function DhPrime(kex: Name): (p: nat)
    ensures p > 2 && p % 2 == 1
  {
    if kex == Ascii("diffie-hellman-group14-sha1") then DH_P_14 else DH_P_1
  }

  /** What the exchange hash is taken over: V_C, V_S, I_C, I_S, K_S, e, f, K. */
  function HashInput(t: Transcript, hostkey: seq<byte>, e: nat, f: nat, k: nat): seq<byte> {
    PutString(t.vc) + PutString(t.vs)
    + PutString(EncodeProposal(t.ic)) + PutString(EncodeProposal(t.is_))
    + PutString(hostkey) + Mpint(e) + Mpint(f) + Mpint(k)
  }

  /** Algorithms are advertised and chosen by the tables, the exchange hash is SHA-1 of the fields of section 8 of RFC 4253, mp_exptmod is
      modular exponentiation, the group primes are the two built-in ones, the host key
      signs so that its public half verifies, and the host key blob names its type. */
  ghost predicate GoodWorld(w: World) {
    && (forall c {:trigger OwnLists(c)} :: w.advertise(c) == OwnLists(c))
    && (forall r, c, q {:trigger ReadKexAlgos(r, c, q)} :: w.negotiate(r, c, q) == ReadKexAlgos(r, c, q))
    && (forall t, h, e, f, k {:trigger HashInput(t, h, e, f, k)} :: w.xhash(t, h, e, f, k) == w.sha1(HashInput(t, h, e, f, k)))
    && (forall b: nat, e: nat, m: nat {:trigger w.exptmod(b, e, m), Pow(b, e)} :: m > 0 ==> w.exptmod(b, e, m) == Pow(b, e) % m)
    && (forall n {:trigger DhPrime(n)} :: w.prime(n) == DhPrime(n))
    && (forall n {:trigger w.hostPub(n)} :: w.keyType(w.hostPub(n)) == n)
    && (forall n, h, r {:trigger w.sign(n, h, r)} :: w.verify(w.hostPub(n), h, w.sign(n, h, r)))
  }

  /** The choices of the environment at one step. */
  datatype Input = Input(
    go: bool, due: bool, keepalive: bool, cookie: seq<byte>, secret: nat, nonce: nat,
    accept: bool, authdone: bool, handlerExit: bool, packets: seq<Payload>)

  predicate GoodInput(i: Input) {
    forall k :: 0 <= k < |i.packets| ==> AppPayload(i.packets[k])
  }

  datatype Outcome<+T> = Ok(value: T) | Exit(reason: Reason) {
    predicate IsFailure() { Exit? }
    function PropagateFailure<U>(): Outcome<U> requires Exit? { Exit(reason) }
    function Extract(): T requires Ok? { value }
  }

  // -------------------------------------------------------- sending packets

  function Previous(n: uint32): uint32 {
    if n == 0 then WORD - 1 else n - 1
  }

  function Ran(d: Dir, p: Payload): Dir {
    d.(history := d.history + [p])
  }

  /** During a key exchange only some packet types may go out, and none at all
      between our NEWKEYS and the peer's. */
  predicate MustHold(k: Kex, p: Payload) {
    (!k.dataallowed && !OkayKex(Type(p))) || k.sentnewkeys
  }

  /** encrypt_packet, as far as what is sent or held is concerned. */
  function EncryptPacket(s: Endpoint, p: Payload): Endpoint {
    if MustHold(s.kx, p) then
      s.(out := s.out.(replyqueue := s.out.replyqueue + [p]))
    else
      s.(out := s.out.(writequeue := s.out.writequeue + [Wire(p, s.out.transseq, s.out.trans)],
                       transseq := Next(s.out.transseq),
                       trans := Ran(s.out.trans, p)))
  }

  /** A packet that key exchange permits, made before our NEWKEYS while others are held. */
  predicate PassesHeld(k: Kex, held: seq<Payload>, p: Payload) {
    OkayKex(Type(p)) && !k.dataallowed && !k.sentnewkeys && held != []
  }

  function Recorded(s: Endpoint, p: Payload): Endpoint {
    s.(out := s.out.(produced := s.out.produced + [p], passed := s.out.passed || PassesHeld(s.kx, s.out.replyqueue, p)))
  }

  /** An application packet handed to encrypt_packet. */
  function AppSend(s: Endpoint, p: Payload): Endpoint {
    EncryptPacket(Recorded(s, p), p)
  }

  function AppSendAll(s: Endpoint, ps: seq<Payload>): Endpoint
    decreases |ps|
  {
    if ps == [] then s else AppSendAll(AppSend(s, ps[0]), ps[1..])
  }

  function EncryptAll(s: Endpoint, ps: seq<Payload>): Endpoint
    decreases |ps|
  {
    if ps == [] then s else EncryptAll(EncryptPacket(s, ps[0]), ps[1..])
  }

  /** maybe_flush_reply_queue. */
  function MaybeFlushReplyQueue(s: Endpoint): Endpoint {
    if !s.kx.dataallowed then s
    else
      var t := EncryptAll(s, s.out.replyqueue);
      t.(out := t.out.(replyqueue := []))
  }

  // ------------------------------------------------------------ key exchange

  function OwnLists(c: Config): Lists {
    Lists(UsableNames(c.kex), UsableNames(c.hostkeys),
          UsableNames(c.ciphers), UsableNames(c.ciphers),
          UsableNames(c.macs), UsableNames(c.macs),
          UsableNames(c.comps), UsableNames(c.comps))
  }

  function SendProposal(s: Endpoint, p: Proposal): Endpoint {
    var t := EncryptPacket(s, MsgKexinit(p));
    t.(kx := t.kx.(transkexinit := Some(p), dataallowed := false, sentkexinit := true))
  }

  function SendMsgKexinit(w: World, s: Endpoint, cookie: seq<byte>): Endpoint {
    SendProposal(s, Proposal(cookie, w.advertise(s.kx.cfg), false))
  }

  function Pick(role: Role, local: seq<Algo>, remote: seq<Name>): Outcome<Name> {
    var r := if role == Client then ClientPick(local, remote) else ServerPick(remote, local);
    if r.Some? then Ok(r.value) else Exit(NoMatchingAlgo)
  }

  /** read_kex_algos: the eight choices, with the direction-specific ones sorted
      into transmit and receive. */
  function ReadKexAlgos(role: Role, c: Config, q: Lists): (r: Outcome<NewKeys>)
    ensures r.Exit? ==> r.reason == NoMatchingAlgo
  {
    var kex :- Pick(role, c.kex, q.kex);
    var hostkey :- Pick(role, c.hostkeys, q.hostkey);
    var cipherC2S :- Pick(role, c.ciphers, q.cipherC2S);
    var cipherS2C :- Pick(role, c.ciphers, q.cipherS2C);
    var macC2S :- Pick(role, c.macs, q.macC2S);
    var macS2C :- Pick(role, c.macs, q.macS2C);
    var compC2S :- Pick(role, c.comps, q.compC2S);
    var compS2C :- Pick(role, c.comps, q.compS2C);
    Ok(if role == Client
       then NewKeys(kex, hostkey, cipherC2S, cipherS2C, macC2S, macS2C, compC2S, compS2C)
       else NewKeys(kex, hostkey, cipherS2C, cipherC2S, macS2C, macC2S, compS2C, compC2S))
  }

  function RecvMsgKexinit(w: World, s0: Endpoint, q: Proposal, cookie: seq<byte>): Outcome<Endpoint> {
    var s := if s0.kx.sentkexinit then s0 else SendMsgKexinit(w, s0, cookie);
    var k := s.kx;
    if k.transkexinit.None? then Exit(MissingState) else
    var nk :- w.negotiate(k.role, k.cfg, q.lists);
    var good := GoodGuess(k.cfg.kex, q.lists.kex) && GoodGuess(k.cfg.hostkeys, q.lists.hostkey);
    var own := k.transkexinit.value;
    Ok(s.(kx := k.(
      newkeys := Some(nk),
      firstfollows := k.firstfollows || q.follows,
      ignorenext := k.ignorenext || (q.follows && !good),
      kexhashbuf := Some(if k.role == Client
                         then Transcript(k.cfg.ident, k.peerIdent, own, q)
                         else Transcript(k.peerIdent, k.cfg.ident, q, own)),
      requirenext := if k.role == Server then SSH_MSG_KEXDH_INIT else k.requirenext,
      transkexinit := None,
      recvkexinit := true)))
  }

  function Take(b: seq<byte>, n: nat): seq<byte> {
    if n <= |b| then b[..n] else b
  }

  /** hashkeys: section 7.2 of RFC 4253, extended at most once. */
  function HashKeys(w: World, base: seq<byte>, x: byte, sid: seq<byte>, outlen: nat): seq<byte> {
    var k1 := w.sha1(base + [x] + sid);
    if SHA1_HASH_SIZE < outlen then k1 + Take(w.sha1(base + k1), outlen - SHA1_HASH_SIZE)
    else Take(k1, outlen)
  }

  /** The bytes of a context: IV, cipher key, MAC key. The letters are 'A', 'C', 'E' for
      client to server and 'B', 'D', 'F' for the other direction. */
  datatype Material = Material(iv: seq<byte>, key: seq<byte>, mackey: seq<byte>)

  function KeyMaterial(w: World, d: Dir): Material
    requires d.seed.Seed?
  {
    var base := Mpint(d.seed.k) + d.seed.hash;
    var x: byte := if d.seed.c2s then 65 else 66;
    Material(HashKeys(w, base, x, d.seed.sid, SHA1_HASH_SIZE),
             HashKeys(w, base, x + 2, d.seed.sid, w.cipherKeySize(d.cipher)),
             HashKeys(w, base, x + 4, d.seed.sid, w.macKeySize(d.mac)))
  }

  predicate CanGenKeys(k: Kex) {
    k.newkeys.Some? && k.dhK.Some? && k.sessionId.Some?
  }

  /** gen_new_keys: the contexts that the agreed secret and hash give this end. */
  function FreshTrans(k: Kex): Dir
    requires CanGenKeys(k)
  {
    Dir(k.epoch + 1, k.newkeys.value.transCipher, k.newkeys.value.transMac, k.newkeys.value.transComp,
        Seed(k.dhK.value, k.hash, k.sessionId.value, k.role == Client), [])
  }

  function FreshRecv(k: Kex): Dir
    requires CanGenKeys(k)
  {
    Dir(k.epoch + 1, k.newkeys.value.recvCipher, k.newkeys.value.recvMac, k.newkeys.value.recvComp,
        Seed(k.dhK.value, k.hash, k.sessionId.value, k.role == Server), [])
  }

  /** The end of an exchange: switch keys, reset the exchange state, allow data. */
  function FinishKex(s: Endpoint): Outcome<Endpoint> {
    var k := s.kx;
    if !CanGenKeys(k) then Exit(MissingState)
    else Ok(s.(
      kx := k.(epoch := k.epoch + 1, newkeys := None, dhK := None, hash := [],
               sentkexinit := false, recvkexinit := false,
               sentnewkeys := false, recvnewkeys := false, firstfollows := false,
               dataallowed := true, donefirstkex := true),
      out := s.out.(trans := FreshTrans(k)),
      inc := s.inc.(recv := FreshRecv(k))))
  }

  function SendMsgNewkeys(s: Endpoint): Outcome<Endpoint> {
    var t := EncryptPacket(s, MsgNewkeys);
    if t.kx.recvnewkeys then FinishKex(t) else Ok(t.(kx := t.kx.(sentnewkeys := true)))
  }

  function RecvMsgNewkeys(s: Endpoint): Outcome<Endpoint> {
    if s.kx.sentnewkeys then FinishKex(s) else Ok(s.(kx := s.kx.(recvnewkeys := true)))
  }

  function SendMsgKexdhInit(w: World, s: Endpoint, x: nat): Outcome<Endpoint> {
    if s.kx.newkeys.None? then Exit(MissingState) else
    var e := w.exptmod(DH_G_VAL, x, w.prime(s.kx.newkeys.value.kex));
    var t := EncryptPacket(s, MsgKexdhInit(e));
    Ok(t.(kx := t.kx.(dhE := Some(e), dhX := Some(x), requirenext := SSH_MSG_KEXDH_REPLY)))
  }

  /** kexdh_comb_key. */
  function KexdhCombKey(w: World, k: Kex, us: nat, priv: nat, them: nat, hostkey: seq<byte>): Outcome<Kex> {
    if k.newkeys.None? || k.kexhashbuf.None? then Exit(MissingState) else
    var p := w.prime(k.newkeys.value.kex);
    if !(0 < them < p) then Exit(DhError) else
    var secret := w.exptmod(them, priv, p);
    var e := if k.role == Client then us else them;
    var f := if k.role == Client then them else us;
    var h := w.xhash(k.kexhashbuf.value, hostkey, e, f, secret);
    Ok(k.(dhK := Some(secret), hash := h, kexhashbuf := None,
          sessionId := if k.sessionId.None? then Some(h) else k.sessionId))
  }

  function RecvMsgKexdhReply(w: World, s: Endpoint, hostkey: seq<byte>, f: nat, sig: seq<byte>, accept: bool): Outcome<Endpoint> {
    var k := s.kx;
    if k.kexState != KEXDH_INIT_SENT then Exit(OutOfOrderReply)
    else if k.newkeys.None? || k.dhE.None? || k.dhX.None? then Exit(MissingState)
    else if !k.donefirstkex && !accept then Exit(HostKeyRejected)
    else if w.keyType(hostkey) != k.newkeys.value.hostkey then Exit(BadKexPacket)
    else
      var k1 :- KexdhCombKey(w, k, k.dhE.value, k.dhX.value, f, hostkey);
      if !w.verify(hostkey, k1.hash, sig) then Exit(BadSignature) else
      var t :- SendMsgNewkeys(s.(kx := k1.(dhE := None, dhX := None)));
      Ok(t.(kx := t.kx.(requirenext := SSH_MSG_NEWKEYS)))
  }

  function RecvMsgKexdhInit(w: World, s: Endpoint, e: nat, y: nat, nonce: nat): Outcome<Endpoint> {
    if !s.kx.recvkexinit then Exit(PrematureKexdhInit)
    else if s.kx.newkeys.None? then Exit(MissingState)
    else
      var name := s.kx.newkeys.value.hostkey;
      var hostkey := w.hostPub(name);
      var f := w.exptmod(DH_G_VAL, y, w.prime(s.kx.newkeys.value.kex));
      var k1 :- KexdhCombKey(w, s.kx, f, y, e, hostkey);
      var s2 := EncryptPacket(s.(kx := k1), MsgKexdhReply(hostkey, f, w.sign(name, k1.hash, nonce)));
      var t :- SendMsgNewkeys(s2);
      Ok(t.(kx := t.kx.(requirenext := SSH_MSG_NEWKEYS)))
  }

  // ------------------------------------------------------- receiving packets

  /** The application packet types with a row in the handler table. */
  predicate Handled(role: Role, t: byte) {
    if role == Client
    then t in {94, 95, 93, 51, 52, 6, 98, 90, 96, 97, 91, 92, 53, 60, 81, 82}
    else t in {94, 93, 50, 5, 80, 98, 90, 96, 97, 91, 92}
  }

  function RecvUnimplemented(s: Endpoint): Endpoint {
    AppSend(s, MsgApp(SSH_MSG_UNIMPLEMENTED, SequenceNumber(Previous(s.inc.recvseq))))
  }

  function Dispatch(w: World, s: Endpoint, p: Payload, inp: Input): Outcome<Endpoint> {
    match p
    case MsgKexinit(q) => RecvMsgKexinit(w, s, q, inp.cookie)
    case MsgNewkeys => RecvMsgNewkeys(s)
    case MsgKexdhInit(e) =>
      if s.kx.role == Server then RecvMsgKexdhInit(w, s, e, inp.secret, inp.nonce) else Ok(RecvUnimplemented(s))
    case MsgKexdhReply(h, f, sig) =>
      if s.kx.role == Client then RecvMsgKexdhReply(w, s, h, f, sig, inp.accept) else Ok(RecvUnimplemented(s))
    case MsgApp(t, _) =>
      if !Handled(s.kx.role, t) then Ok(RecvUnimplemented(s))
      else if inp.handlerExit then Exit(HandlerExit)
      else Ok(AppSendAll(s.(authdone := s.authdone || inp.authdone), inp.packets))
  }

  /** process_packet. */
  function ProcessPacket(w: World, s0: Endpoint, p: Payload, inp: Input): Outcome<Endpoint> {
    var t := Type(p);
    var s := s0.(lastpacket := t);
    if t == SSH_MSG_IGNORE || t == SSH_MSG_DEBUG then Ok(s)
    else if t == SSH_MSG_UNIMPLEMENTED then Exit(UnimplementedReceived)
    else if t == SSH_MSG_DISCONNECT then Exit(DisconnectReceived)
    else if s.kx.requirenext != 0 && s.kx.requirenext != t then Exit(UnexpectedPacket)
    else if s.kx.ignorenext then Ok(s.(kx := s.kx.(requirenext := 0, ignorenext := false)))
    else if !s.authdone && t > MAX_UNAUTH_PACKET_TYPE then Exit(BeforeUserauth)
    else Dispatch(w, s.(kx := s.kx.(requirenext := 0)), p, inp)
  }

  /** decrypt_packet followed by process_packet. A packet opens only in the context,
      the chaining state and the sequence number it was sealed with. */
  function Receive(w: World, s: Endpoint, m: Wire, inp: Input): Outcome<Endpoint> {
    if m.seqno != s.inc.recvseq || m.dir != s.inc.recv then Exit(IntegrityError)
    else ProcessPacket(w, s.(inc := Incoming(Ran(s.inc.recv, m.payload), Next(s.inc.recvseq))), m.payload, inp)
  }

  // --------------------------------------------------------- the session loop

  /** checktimeouts: start a rekey when one is due, and perhaps a keepalive. */
  function CheckTimeouts(w: World, s: Endpoint, inp: Input): Endpoint {
    var s1 := if !s.kx.sentkexinit && inp.due then SendMsgKexinit(w, s, inp.cookie) else s;
    if inp.keepalive then AppSend(s1, MsgApp(SSH_MSG_IGNORE, Bytes([0, 0, 0, 0]))) else s1
  }

  /** cli_sessionloop: the client drives the exchange, then its own requests. */
  function CliSessionLoop(w: World, s: Endpoint, inp: Input): Outcome<Endpoint> {
    var start := s.lastpacket == SSH_MSG_KEXINIT && s.kx.kexState == KEX_NOTHING;
    if start || s.kx.kexState == KEXINIT_RCVD then
      var t :- SendMsgKexdhInit(w, s, inp.secret);
      Ok(t.(kx := t.kx.(kexState := KEXDH_INIT_SENT)))
    else
      var t := if s.kx.kexState != KEX_NOTHING && !s.kx.recvkexinit && !s.kx.sentkexinit
               then s.(kx := s.kx.(kexState := KEX_NOTHING)) else s;
      if t.kx.kexState != KEX_NOTHING || !t.kx.donefirstkex then Ok(t)
      else Ok(AppSendAll(t, inp.packets))
  }

  function NoKeys(): Dir {
    Dir(0, [], [], [], NoSeed, [])
  }

  /** The state after common_session_init, the exchange of identification lines and
      the first send_msg_kexinit. */
  function StartSession(w: World, role: Role, c: Config, peerIdent: seq<byte>, cookie: seq<byte>): Endpoint {
    SendMsgKexinit(w,
      Endpoint(Kex(role, c, peerIdent, 0,
                   false, false, false, false, false, false,
                   true, SSH_MSG_KEXINIT, false,
                   KEX_NOTHING, None, None, None, None, None, None, [], None),
               Outgoing(NoKeys(), 0, [], [], [], false), Incoming(NoKeys(), 0), 0, false, Timeouts, None),
      cookie)
  }
}
