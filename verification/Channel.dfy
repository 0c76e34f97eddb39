/**
  A channel entry as common-channel.c keeps it: counters, descriptors and flags updated in
  place, and two circular buffers. Every method is proved to do to the entry what the
  function it names in ChannelSpec does to the value State().
*/
module Channel {
  import opened Wrappers
  import opened Bytes
  import opened NumberTheory
  import opened CircBuffer
  import opened ChannelSpec
  import opened FlowControl

  class Entry {
    var win: Win
    var fds: Fds
    var fl: Flags
    const writebuf: Circ
    const extrabuf: Circ?
    /** The packets handed to encrypt_packet. */
    var sent: seq<Msg>
    ghost var hist: Hist

    ghost function Repr(): set<object> {
      {this, writebuf, writebuf.data} + if extrabuf == null then {} else {extrabuf, extrabuf.data}
    }

    ghost predicate Valid()
      reads Repr()
    {
      && writebuf.Valid() && writebuf.size == win.window
      && (extrabuf != null ==>
            && extrabuf.Valid() && extrabuf.size == win.window
            && extrabuf != writebuf && extrabuf.data != writebuf.data)
    }

    ghost function Buffers(): Bufs
      requires Valid()
      reads Repr()
    {
      Bufs(writebuf.Contents(), if extrabuf == null then None else Some(extrabuf.Contents()))
    }

    ghost function State(): Chan
      requires Valid()
      reads Repr()
    {
      Chan(win, Buffers(), fds, fl, hist)
    }

    /** What a handler that can exit has done, given what the specification says. */
    ghost predicate Did(fault: Option<Fault>, before: seq<Msg>, spec: ChannelSpec.Result)
      reads Repr()
    {
      match spec
      case Done(c, out) => fault.None? && Valid() && State() == c && sent == before + out
      case Quit(why) => fault == Some(why)
    }

    /** newchannel; the buffer for extended data is made where the channel type wants one. */
    constructor (window: nat, trans: nat, maxpacket: nat, separate: bool, stderr: bool)
      requires 0 < window <= MAX_RECV_WINDOW
      ensures Valid() && fresh(Repr()) && sent == []
      ensures State() == WithErr(NewChan(window, trans, maxpacket, separate), stderr)
    {
      var w := new Circ(window);
      var e: Circ? := null;
      if stderr { e := new Circ(window); }
      writebuf, extrabuf := w, e;
      win := Win(window, window, 0, trans, maxpacket);
      fds := Fds(FD_UNINIT, FD_UNINIT, FD_CLOSED, separate);
      fl := Flags(false, false, false, false, false, false, false, false, false, false);
      sent := [];
      hist := Hist([], [], [], [], 0, window);
    }

    method CloseChanFd(fd: int, rd: bool)
      requires Valid()
      modifies this`fds
      ensures Valid() && State() == CloseFd(old(State()), fd, rd)
    {
      var closein, closeout := false, false;
      if fds.separate {
        if rd { closeout := true; } else { closein := true; }
      } else {
        closein, closeout := true, true;
      }
      var f := fds;
      if closeout && fd == f.read { fds := fds.(read := FD_CLOSED); }
      if closeout && extrabuf == null && fd == f.err { fds := fds.(err := FD_CLOSED); }
      if closein && fd == f.write { fds := fds.(write := FD_CLOSED); }
      if closein && extrabuf != null && fd == f.err { fds := fds.(err := FD_CLOSED); }
    }

    /** send_msg_channel_data, where read() had `inp` to offer. */
    method SendChannelData(ext: bool, inp: Input) returns (fault: Option<Fault>)
      requires Valid()
      modifies this
      ensures Did(fault, old(sent), SendData(old(State()), ext, inp))
    {
      if fl.sentClose { return Some(ClosedAssertion); }
      var fd := if ext then fds.err else fds.read;
      if fd < 0 { return Some(ClosedAssertion); }
      var maxlen := Min(win.trans, win.maxpacket);
      maxlen := Min(maxlen, TRANS_MAX_PAYLOAD_LEN - 1 - 4 - 4 - (if ext then 4 else 0));
      if maxlen == 0 { return None; }
      var len := Min(maxlen, |inp.bytes|);
      if len == 0 {
        if !inp.eintr { CloseChanFd(fd, true); }
        return None;
      }
      var b := inp.bytes[..len];
      win := win.(trans := win.trans - len);
      hist := if ext then hist.(takenErr := hist.takenErr + b) else hist.(taken := hist.taken + b);
      sent := sent + [Data(ext, b)];
      if fl.flushing && len < maxlen { CloseChanFd(fd, true); }
      return None;
    }

    /** common_recv_msg_channel_data. */
    method ReceiveData(ext: bool, b: seq<byte>) returns (fault: Option<Fault>)
      requires Valid()
      modifies Repr()
      ensures Did(fault, old(sent), RecvData(old(State()), ext, b))
    {
      if ext && extrabuf == null {
        hist := hist.(dropped := hist.dropped + |b|);
        return None;
      }
      if fl.recvEof { return Some(AfterEof); }
      if (if ext then fds.err else fds.write) < 0 {
        hist := hist.(dropped := hist.dropped + |b|);
        return None;
      }
      var cbuf := if ext then extrabuf else writebuf;
      var maxdata := cbuf.GetAvail();
      if |b| > maxdata { return Some(Oversized); }
      var passes := Append(cbuf, b);
      assert passes <= 2;
      if win.recv < |b| { return Some(WindowAssertion); }
      win := win.(recv := win.recv - |b|);
      return None;
    }

    /** The first n bytes of a buffer have been written out. */
    method TakeBytes(ext: bool, n: nat)
      requires Valid() && (ext ==> extrabuf != null)
      requires var c := if ext then extrabuf else writebuf; n <= c.used && c.readpos + n <= c.size
      modifies this`hist, writebuf, extrabuf
      ensures Valid() && State() == TakeOut(old(State()), ext, n)
    {
      var cbuf: Circ := if ext then extrabuf else writebuf;
      ghost var q := cbuf.Contents();
      var ok := cbuf.IncrRead(n);
      hist := if ext then hist.(givenErr := hist.givenErr + q[..n]) else hist.(given := hist.given + q[..n]);
    }

    /** Window adjust handling. */
    method CreditWindow(n: nat)
      requires Valid()
      modifies this`win, this`sent, this`hist
      ensures Valid() && State() == Credited(old(State()), n).ch && sent == old(sent) + Credited(old(State()), n).out
    {
      win := win.(done := win.done + n);
      if win.done >= win.window / 3 {
        sent := sent + [Adjust(win.done)];
        hist := hist.(granted := hist.granted + win.done);
        win := win.(recv := win.recv + win.done, done := 0);
      }
    }

    /** writechannel when write() would take `offer` bytes: it takes what is contiguous. With
        no bytes taken nothing changes. The three assertions follow from the conservation law. */
    method WriteOut(ext: bool, offer: nat) returns (n: nat)
      requires Valid() && ChanOK(State()) && CanWrite(State(), ext)
      modifies Repr()
      ensures n <= |Buf(old(State()).bufs, ext)| && (n == 0 <==> offer == 0)
      ensures n == 0 ==> Valid() && State() == old(State()) && sent == old(sent)
      ensures n > 0 ==> Did(None, old(sent), Wrote(old(State()), ext, n)) && ChanOK(State())
    {
      var maxlen: nat;
      if ext { maxlen := extrabuf.ReadLen(); } else { maxlen := writebuf.ReadLen(); }
      n := Min(offer, maxlen);
      if n == 0 { return; }
      WroteWindows(State(), ext, n);
      hide ChanOK, TakeOut, Credited, Ring, Wrap;
      TakeBytes(ext, n);
      CreditWindow(n);
      assert win.recv <= win.window;
      assert win.recv <= win.window - |writebuf.Contents()|;
      assert extrabuf == null || win.recv <= win.window - |extrabuf.Contents()|;
    }

    method ReceiveAdjust(incr: nat)
      requires Valid()
      modifies this`win
      ensures Valid() && State() == RecvAdjust(old(State()), incr)
    {
      var i := Min(incr, TRANS_MAX_WIN_INCR);
      win := win.(trans := win.trans + i);
      win := win.(trans := Min(win.trans, TRANS_MAX_WINDOW));
    }

    method ReceiveConfirmation(window: nat, maxpacket: nat) returns (fault: Option<Fault>)
      requires Valid()
      modifies this
      ensures Did(fault, old(sent), RecvConfirm(old(State()), window, maxpacket))
    {
      if !fl.awaitOpen { return Some(UnexpectedReply); }
      fl := fl.(awaitOpen := false);
      win := win.(trans := window, maxpacket := maxpacket);
      return None;
    }

    /** recv_msg_channel_open_failure. */
    method ReceiveOpenFailure() returns (fault: Option<Fault>)
      requires Valid()
      modifies this
      ensures Did(fault, old(sent), RecvOpenFailure(old(State())))
    {
      if !fl.awaitOpen { return Some(UnexpectedReply); }
      fl := fl.(awaitOpen := false);
      fl := fl.(removed := true, failed := true);
      return None;
    }

    /** check_in_progress, once the socket reports the outcome of its connect(). */
    method CheckInProgress(failed: bool)
      requires Valid() && fl.initconn && fds.write >= 0 && !fl.removed
      modifies this
      ensures Did(None, old(sent), React(old(State()), if failed then ConnectFailed else Connected(RECV_MAX_PAYLOAD_LEN)))
    {
      if failed {
        sent := sent + [OpenFailure];
        fl := fl.(awaitOpen := false, removed := true, failed := true);
      } else {
        sent := sent + [Confirm(win.recv, RECV_MAX_PAYLOAD_LEN)];
        fds := fds.(read := fds.write);
        fl := fl.(initconn := false);
      }
    }

    method IsWritePending() returns (pending: bool)
      requires Valid()
      ensures pending == WritePending(State())
    {
      if fds.write >= 0 {
        var n := writebuf.GetUsed();
        if n > 0 { return true; }
      }
      if fds.err >= 0 && extrabuf != null {
        var n := extrabuf.GetUsed();
        if n > 0 { return true; }
      }
      return false;
    }

    /** send_msg_channel_close. */
    method SendCloseMsg(hasHandler: bool)
      requires Valid()
      modifies this`fds, this`fl, this`sent
      ensures Valid() && State() == SendClose(old(State()), hasHandler) && sent == old(sent) + [Close]
    {
      if hasHandler && !fl.handlerDone { fl := fl.(handlerDone := true); }
      sent := sent + [Close];
      fl := fl.(sentEof := true, sentClose := true);
      CloseChanFd(fds.read, true);
      CloseChanFd(fds.err, false);
      CloseChanFd(fds.write, false);
    }

    /** The flushing reads of check_close. */
    method Flush(k: Closing) returns (fault: Option<Fault>)
      requires Valid()
      modifies this
      ensures Did(fault, old(sent), FlushBoth(old(State()), k))
    {
      hide SendData;
      fault := None;
      if fl.flushing && fds.read >= 0 && win.trans > 0 {
        fault := SendChannelData(false, k.out);
        if fault.Some? { return; }
      }
      if fl.flushing && extrabuf == null && fds.err >= 0 && win.trans > 0 { fault := SendChannelData(true, k.err); }
    }

    /** The end of check_close: EOF and CLOSE. */
    method FinishSending(k: Closing, allowed: bool)
      requires Valid()
      modifies this`fds, this`fl, this`sent
      ensures Did(None, old(sent), Finishing(old(State()), k, allowed))
    {
      hide SendClose, Ring, Wrap;
      if !fl.sentEof && fds.read == FD_CLOSED && (extrabuf != null || fds.err == FD_CLOSED) {
        sent := sent + [Eof];
        fl := fl.(sentEof := true);
      }
      var pending := IsWritePending();
      if fds.read == FD_CLOSED && (extrabuf != null || fds.err == FD_CLOSED) && !fl.sentClose && allowed && !pending {
        SendCloseMsg(k.hasHandler);
      }
    }

    method Tail(k: Closing, allowed: bool) returns (fault: Option<Fault>)
      requires Valid()
      modifies this
      ensures Did(fault, old(sent), CheckTail(old(State()), k, allowed))
    {
      hide FlushBoth, Finishing;
      fault := Flush(k);
      if fault.None? { FinishSending(k, allowed); }
    }

    /** The channel goes once both sides have sent CLOSE. */
    method RemoveChannel(hasHandler: bool)
      requires Valid()
      modifies this`fds, this`fl, this`sent
      ensures Did(None, old(sent), if old(fl).sentClose then Done(Remove(old(State())), [])
                                   else Done(Remove(SendClose(old(State()), hasHandler)), [Close]))
    {
      hide SendClose, Ring, Wrap;
      if !fl.sentClose { SendCloseMsg(hasHandler); }
      fl := fl.(removed := true);
    }

    method ShutAndTail(k: Closing, allowed: bool) returns (fault: Option<Fault>)
      requires Valid()
      modifies this
      ensures Did(fault, old(sent), CheckTail(ShutWriter(old(State())), k, allowed))
    {
      hide CheckTail, CloseFd, WritePending;
      var pending := IsWritePending();
      if fl.recvEof && !pending { CloseChanFd(fds.write, false); }
      fault := Tail(k, allowed);
    }

    method SetFlushing(on: bool)
      requires Valid()
      modifies this`fl
      ensures Valid() && State() == old(State()).(fl := old(fl).(flushing := on)) && fl.handlerDone == old(fl.handlerDone)
    {
      fl := fl.(flushing := on);
    }

    /** The first lines of check_close: the channel type may start the flushing. */
    method BeginClose(k: Closing) returns (allowed: bool)
      requires Valid()
      modifies this`fl
      ensures Valid() && State() == StartFlushing(old(State()), k) && allowed == CloseAllowed(State(), k)
    {
      assert State().fl == fl;
      hide *;
      BeginCloseIs(State(), k);
      SetFlushing(fl.flushing || (!fl.handlerDone && k.hasCheck && k.check));
      allowed := !k.hasCheck || fl.handlerDone || k.check;
    }

    /** check_close. */
    method CheckForClose(k: Closing) returns (fault: Option<Fault>)
      requires Valid()
      modifies this
      ensures Did(fault, old(sent), CheckClose(old(State()), k))
    {
      hide CheckTail, SendClose, WritePending, ShutWriter, Remove, Ring, Wrap, CloseAllowed, StartFlushing;
      var allowed := BeginClose(k);
      var pending := IsWritePending();
      if fl.recvClose && !pending && allowed {
        RemoveChannel(k.hasHandler);
        return None;
      }
      fault := ShutAndTail(k, allowed);
    }
  }

  lemma BeginCloseIs(c: Chan, k: Closing)
    ensures StartFlushing(c, k) == c.(fl := c.fl.(flushing := c.fl.flushing || (!c.fl.handlerDone && k.hasCheck && k.check)))
    ensures CloseAllowed(StartFlushing(c, k), k) == (!k.hasCheck || c.fl.handlerDone || k.check)
  {
  }
}
