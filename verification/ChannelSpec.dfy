/**
  One end of a channel, as a value: what the handlers of common-channel.c do to a channel
  entry. Descriptors are numbers, results of read() and write() are inputs.

  The record Hist has no counterpart in the program: the bytes taken from and given to the
  local descriptors, the bytes dropped, and the total of window granted to the peer.
*/
module ChannelSpec {
  import opened Wrappers
  import opened Bytes
  import opened NumberTheory

  const FD_UNINIT: int := -2
  const FD_CLOSED: int := -1
  const TRANS_MAX_WINDOW: nat := 500000000
  const TRANS_MAX_WIN_INCR: nat := 500000000
  const MAX_RECV_WINDOW: nat := 1048576

  datatype Msg =
    | Data(extended: bool, bytes: seq<byte>)
    | Adjust(incr: nat)
    | Confirm(window: nat, maxpacket: nat)
    | OpenFailure
    | Eof
    | Close

  /** Window accounting; `window` is the configured size. */
  datatype Win = Win(window: nat, recv: nat, done: nat, trans: nat, maxpacket: nat)

  /** Data from the wire for the local side: its input, and its stderr where it has one. */
  datatype Bufs = Bufs(main: seq<byte>, extra: Option<seq<byte>>)

  datatype Fds = Fds(write: int, read: int, err: int, separate: bool)

  datatype Flags = Flags(sentEof: bool, recvEof: bool, sentClose: bool, recvClose: bool,
                         awaitOpen: bool, initconn: bool, flushing: bool, handlerDone: bool, removed: bool, failed: bool)

  datatype Hist = Hist(taken: seq<byte>, takenErr: seq<byte>, given: seq<byte>, givenErr: seq<byte>,
                       dropped: nat, granted: nat)

  datatype Chan = Chan(win: Win, bufs: Bufs, fds: Fds, fl: Flags, hist: Hist)

  datatype Fault = AfterEof | Oversized | WindowAssertion | ClosedAssertion | UnknownChannel | UnexpectedReply

  datatype Result = Done(ch: Chan, out: seq<Msg>) | Quit(why: Fault)

  /** What one read() returns: some bytes; none is the end of the stream or an error, or an interrupt. */
  datatype Input = Input(bytes: seq<byte>, eintr: bool)

  predicate ErrIsRead(c: Chan) { c.bufs.extra.None? }

  function Held(b: Bufs): nat {
    |b.main| + if b.extra.Some? then |b.extra.value| else 0
  }

  /** The buffer of a stream. */
  function Buf(b: Bufs, ext: bool): seq<byte>
    requires ext ==> b.extra.Some?
  {
    if ext then b.extra.value else b.main
  }

  function SetBuf(b: Bufs, ext: bool, q: seq<byte>): Bufs {
    if ext then b.(extra := Some(q)) else b.(main := q)
  }

  /** RECV_WINDOWEXTEND. */
  function Extend(w: Win): nat { w.window / 3 }

  /** newchannel, with the window of the opts structure. */
  function NewChan(window: nat, trans: nat, maxpacket: nat, separate: bool): Chan {
    Chan(Win(window, window, 0, trans, maxpacket), Bufs([], None),
         Fds(FD_UNINIT, FD_UNINIT, FD_CLOSED, separate),
         Flags(false, false, false, false, false, false, false, false, false, false),
         Hist([], [], [], [], 0, window))
  }

  /** close_chan_fd; `rd` is SHUT_RD. */
  function CloseFd(c: Chan, fd: int, rd: bool): Chan {
    var f := c.fds;
    var closein := !f.separate || !rd;
    var closeout := !f.separate || rd;
    c.(fds := Fds(if closein && fd == f.write then FD_CLOSED else f.write,
                  if closeout && fd == f.read then FD_CLOSED else f.read,
                  if (if ErrIsRead(c) then closeout else closein) && fd == f.err then FD_CLOSED else f.err,
                  f.separate))
  }

  function MaxLen(w: Win, ext: bool): nat {
    Min(Min(w.trans, w.maxpacket), TRANS_MAX_PAYLOAD_LEN - 9 - if ext then 4 else 0)
  }

  function Source(c: Chan, ext: bool): int { if ext then c.fds.err else c.fds.read }
  function Sink(c: Chan, ext: bool): int { if ext then c.fds.err else c.fds.write }

  /** The bytes b, read from the local side, have gone out. */
  function TakeIn(c: Chan, ext: bool, b: seq<byte>): Chan
    requires |b| <= c.win.trans
  {
    c.(win := c.win.(trans := c.win.trans - |b|),
       hist := if ext then c.hist.(takenErr := c.hist.takenErr + b) else c.hist.(taken := c.hist.taken + b))
  }

  /** send_msg_channel_data. */
  function SendData(c: Chan, ext: bool, inp: Input): Result {
    var fd := Source(c, ext);
    var maxlen := MaxLen(c.win, ext);
    if c.fl.sentClose || fd < 0 then Quit(ClosedAssertion)
    else if maxlen == 0 then Done(c, [])
    else if inp.bytes == [] then Done(if inp.eintr then c else CloseFd(c, fd, true), [])
    else
      var b := inp.bytes[..Min(maxlen, |inp.bytes|)];
      var c1 := TakeIn(c, ext, b);
      Done(if c.fl.flushing && |b| < maxlen then CloseFd(c1, fd, true) else c1, [Data(ext, b)])
  }

  function Drop(c: Chan, n: nat): Chan {
    c.(hist := c.hist.(dropped := c.hist.dropped + n))
  }

  /** common_recv_msg_channel_data, for the buffer of either stream. */
  function RecvData(c: Chan, ext: bool, b: seq<byte>): Result {
    if ext && c.bufs.extra.None? then Done(Drop(c, |b|), [])
    else if c.fl.recvEof then Quit(AfterEof)
    else if Sink(c, ext) < 0 then Done(Drop(c, |b|), [])
    else
      var q := Buf(c.bufs, ext);
      if |b| > c.win.window - |q| then Quit(Oversized)
      else if c.win.recv < |b| then Quit(WindowAssertion)
      else Done(c.(win := c.win.(recv := c.win.recv - |b|), bufs := SetBuf(c.bufs, ext, q + b)), [])
  }

  /** cbuf_incrread after write() took the first n bytes of a buffer. */
  function TakeOut(c: Chan, ext: bool, n: nat): Chan
    requires ext ==> c.bufs.extra.Some?
    requires n <= |Buf(c.bufs, ext)|
  {
    var q := Buf(c.bufs, ext);
    c.(bufs := SetBuf(c.bufs, ext, q[n..]),
       hist := if ext then c.hist.(givenErr := c.hist.givenErr + q[..n]) else c.hist.(given := c.hist.given + q[..n]))
  }

  /** The window adjustment of writechannel: delayed until a third of the window is due. */
  function Credited(c: Chan, n: nat): Result {
    var done := c.win.done + n;
    if done >= Extend(c.win) then
      Done(c.(win := c.win.(recv := c.win.recv + done, done := 0),
              hist := c.hist.(granted := c.hist.granted + done)), [Adjust(done)])
    else Done(c.(win := c.win.(done := done)), [])
  }

  /** writechannel when write() took n > 0 bytes. */
  function Wrote(c: Chan, ext: bool, n: nat): Result
    requires ext ==> c.bufs.extra.Some?
    requires n <= |Buf(c.bufs, ext)|
  {
    Credited(TakeOut(c, ext, n), n)
  }

  /** recv_msg_channel_window_adjust. */
  function RecvAdjust(c: Chan, incr: nat): Chan {
    c.(win := c.win.(trans := Min(c.win.trans + Min(incr, TRANS_MAX_WIN_INCR), TRANS_MAX_WINDOW)))
  }

  /** recv_msg_channel_open_confirmation. */
  function RecvConfirm(c: Chan, window: nat, maxpacket: nat): Result {
    if !c.fl.awaitOpen then Quit(UnexpectedReply)
    else Done(c.(win := c.win.(trans := window, maxpacket := maxpacket), fl := c.fl.(awaitOpen := false)), [])
  }

  /** A channel whose opening has failed: its entry is gone. */
  function Fail(c: Chan): Chan {
    c.(fl := c.fl.(awaitOpen := false, removed := true, failed := true))
  }

  /** recv_msg_channel_open_failure. */
  function RecvOpenFailure(c: Chan): Result {
    if !c.fl.awaitOpen then Quit(UnexpectedReply) else Done(Fail(c), [])
  }

  predicate WritePending(c: Chan) {
    (c.fds.write >= 0 && c.bufs.main != []) || (c.fds.err >= 0 && c.bufs.extra.Some? && c.bufs.extra.value != [])
  }

  /** send_msg_channel_close. */
  function SendClose(c: Chan, hasHandler: bool): Chan {
    var c1 := c.(fl := c.fl.(handlerDone := c.fl.handlerDone || hasHandler, sentEof := true, sentClose := true));
    var c2 := CloseFd(c1, c1.fds.read, true);
    var c3 := CloseFd(c2, c2.fds.err, false);
    CloseFd(c3, c3.fds.write, false)
  }

  predicate ReadersClosed(c: Chan) {
    c.fds.read == FD_CLOSED && (!ErrIsRead(c) || c.fds.err == FD_CLOSED)
  }

  /** What check_close asks of the channel type, and what the flushing reads return. */
  datatype Closing = Closing(hasCheck: bool, check: bool, hasHandler: bool, out: Input, err: Input)

  predicate CloseAllowed(c: Chan, k: Closing) {
    !k.hasCheck || c.fl.handlerDone || k.check
  }

  function StartFlushing(c: Chan, k: Closing): Chan {
    c.(fl := c.fl.(flushing := c.fl.flushing || (!c.fl.handlerDone && k.hasCheck && k.check)))
  }

  function ShutWriter(c: Chan): Chan {
    if c.fl.recvEof && !WritePending(c) then CloseFd(c, c.fds.write, false) else c
  }

  function FlushOut(c: Chan, k: Closing): Result {
    if c.fl.flushing && c.fds.read >= 0 && c.win.trans > 0 then SendData(c, false, k.out) else Done(c, [])
  }

  function FlushErr(c: Chan, k: Closing): Result {
    if c.fl.flushing && ErrIsRead(c) && c.fds.err >= 0 && c.win.trans > 0 then SendData(c, true, k.err) else Done(c, [])
  }

  /** EOF and CLOSE, once nothing more can be sent. */
  function SendEof(c: Chan): Result {
    if !c.fl.sentEof && ReadersClosed(c) then Done(c.(fl := c.fl.(sentEof := true)), [Eof]) else Done(c, [])
  }

  function MaybeClose(c: Chan, k: Closing, allowed: bool): Result {
    if ReadersClosed(c) && !c.fl.sentClose && allowed && !WritePending(c)
    then Done(SendClose(c, k.hasHandler), [Close])
    else Done(c, [])
  }

  function Then(r: Result, next: Chan -> Result): Result {
    match r
    case Quit(f) => r
    case Done(c, m) =>
      match next(c)
      case Quit(f) => Quit(f)
      case Done(d, n) => Done(d, m + n)
  }

  function Remove(c: Chan): Chan {
    c.(fl := c.fl.(removed := true))
  }

  /** The flushing reads of check_close. */
  function FlushBoth(c: Chan, k: Closing): Result {
    Then(FlushOut(c, k), d => FlushErr(d, k))
  }

  /** The end of check_close. */
  function Finishing(c: Chan, k: Closing, allowed: bool): Result {
    Then(SendEof(c), d => MaybeClose(d, k, allowed))
  }

  function CheckTail(c: Chan, k: Closing, allowed: bool): Result {
    Then(FlushBoth(c, k), d => Finishing(d, k, allowed))
  }

  /** check_close. */
  function CheckClose(c0: Chan, k: Closing): Result {
    var c := StartFlushing(c0, k);
    var allowed := CloseAllowed(c, k);
    if c.fl.recvClose && !WritePending(c) && allowed then
      if c.fl.sentClose then Done(Remove(c), []) else Done(Remove(SendClose(c, k.hasHandler)), [Close])
    else
      CheckTail(ShutWriter(c), k, allowed)
  }

  /** A message for this channel. */
  function Receive(c: Chan, m: Msg, k: Closing): Result {
    if c.fl.removed then Quit(UnknownChannel)
    else match m
      case Data(ext, b) => RecvData(c, ext, b)
      case Adjust(n) => Done(RecvAdjust(c, n), [])
      case Confirm(w, p) => RecvConfirm(c, w, p)
      case OpenFailure => RecvOpenFailure(c)
      case Eof => CheckClose(c.(fl := c.fl.(recvEof := true)), k)
      case Close => CheckClose(c.(fl := c.fl.(recvEof := true, recvClose := true)), k)
  }

  /** What the event loop may do to a channel besides receiving. */
  datatype Event =
    | Read(ext: bool, inp: Input)
    | Write(ext: bool, n: nat)
    | WriteError(ext: bool)
    | Check(k: Closing)
    | Connected(maxpacket: nat)
    | ConnectFailed
    | Setup(wfd: int, rfd: int, efd: int)

  /** The local side is attached once, before anything was closed. */
  predicate CanSetup(c: Chan, wfd: int, rfd: int, efd: int) {
    && !c.fl.sentClose && !c.fl.initconn && c.fds.read == FD_UNINIT && c.fds.write == FD_UNINIT
    && wfd >= 0 && rfd >= 0 && (efd >= 0 || efd == FD_CLOSED) && (c.fds.separate ==> efd == FD_CLOSED)
  }

  predicate CanRead(c: Chan, ext: bool) {
    Source(c, ext) >= 0 && (ext ==> ErrIsRead(c))
  }

  predicate CanWrite(c: Chan, ext: bool) {
    Sink(c, ext) >= 0 && (if ext then c.bufs.extra.Some? else !c.fl.initconn) && Buf(c.bufs, ext) != []
  }

  /** channelio for one channel: each action under the condition the loop tests. */
  function React(c: Chan, ev: Event): Result {
    if c.fl.removed then Done(c, [])
    else match ev
      case Read(ext, inp) => if CanRead(c, ext) && c.win.trans > 0 then SendData(c, ext, inp) else Done(c, [])
      case Write(ext, n) =>
        if CanWrite(c, ext) && 0 < n <= |Buf(c.bufs, ext)| then Wrote(c, ext, n) else Done(c, [])
      case WriteError(ext) => if CanWrite(c, ext) then Done(CloseFd(c, Sink(c, ext), false), []) else Done(c, [])
      case Check(k) => CheckClose(c, k)
      case Connected(maxpacket) =>
        if c.fl.initconn && c.fds.write >= 0
        then Done(c.(fds := c.fds.(read := c.fds.write), fl := c.fl.(initconn := false)), [Confirm(c.win.recv, maxpacket)])
        else Done(c, [])
      case ConnectFailed => if c.fl.initconn && c.fds.write >= 0 then Done(Fail(c), [OpenFailure]) else Done(c, [])
      case Setup(wfd, rfd, efd) =>
        if CanSetup(c, wfd, rfd, efd) then Done(c.(fds := Fds(wfd, rfd, efd, c.fds.separate)), []) else Done(c, [])
  }
}
