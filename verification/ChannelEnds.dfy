/**
  How a channel comes to its end: what a read, a close of a descriptor and check_close do, and
  that every channel whose local readers have ended is closed on both sides, with one EOF and
  one CLOSE each way.
*/
module ChannelEnds {
  import opened Wrappers
  import opened Bytes
  import opened ChannelSpec
  import opened FlowControl

  // ------------------------------------------------------------- one reading

  /** A descriptor that is closed: of one used for both directions everything goes; of a pair, only
      the side that is meant. The stderr of a server's program is read, that of a client written. */
  lemma ClosesExactly(c: Chan, fd: int, rd: bool)
    ensures var d := CloseFd(c, fd, rd);
      && d == c.(fds := d.fds) && d.fds.separate == c.fds.separate
      && (fd != c.fds.write ==> d.fds.write == c.fds.write) && (fd != c.fds.read ==> d.fds.read == c.fds.read)
      && (fd != c.fds.err ==> d.fds.err == c.fds.err)
      && (!c.fds.separate ==>
            && (fd == c.fds.write ==> d.fds.write == FD_CLOSED) && (fd == c.fds.read ==> d.fds.read == FD_CLOSED)
            && (fd == c.fds.err ==> d.fds.err == FD_CLOSED))
      && (c.fds.separate && rd ==>
            && d.fds.write == c.fds.write && (fd == c.fds.read ==> d.fds.read == FD_CLOSED)
            && (fd == c.fds.err ==> d.fds.err == if ErrIsRead(c) then FD_CLOSED else c.fds.err))
      && (c.fds.separate && !rd ==>
            && d.fds.read == c.fds.read && (fd == c.fds.write ==> d.fds.write == FD_CLOSED)
            && (fd == c.fds.err ==> d.fds.err == if ErrIsRead(c) then c.fds.err else FD_CLOSED))
  {
  }

  /** A read that ends the stream closes its descriptor and changes nothing else, and sends nothing;
      an interrupted read changes nothing at all; and without room to send there is no read. */
  lemma EmptyRead(c: Chan, ext: bool)
    requires CanRead(c, ext) && !c.fl.sentClose
    ensures MaxLen(c.win, ext) == 0 ==> forall inp :: SendData(c, ext, inp) == Done(c, [])
    ensures SendData(c, ext, Input([], true)) == Done(c, [])
    ensures MaxLen(c.win, ext) > 0 ==>
      var r := SendData(c, ext, Input([], false));
      && r.Done? && r.out == [] && r.ch == c.(fds := r.ch.fds) && Source(r.ch, ext) == FD_CLOSED
      && (var fd := Source(c, ext);
          && (fd != c.fds.read ==> r.ch.fds.read == c.fds.read) && (fd != c.fds.err ==> r.ch.fds.err == c.fds.err)
          && (fd != c.fds.write || c.fds.separate ==> r.ch.fds.write == c.fds.write))
  {
  }

  /** A read that gives bytes sends the longest beginning of them that the peer's window, its packet
      size and our own payload buffer all have room for, as one message of that stream. */
  lemma FullRead(c: Chan, ext: bool, inp: Input)
    requires CanRead(c, ext) && !c.fl.sentClose && inp.bytes != []
    ensures var r := SendData(c, ext, inp); var head := if ext then 13 else 9;
      && r.Done? && (r.out == [] ==> c.win.trans == 0 || c.win.maxpacket == 0)
      && (r.out != [] ==>
            && r.out == [Data(ext, r.out[0].bytes)] && r.out[0].bytes <= inp.bytes
            && var n := |r.out[0].bytes|;
               && 0 < n <= c.win.trans && n <= c.win.maxpacket && head + n <= TRANS_MAX_PAYLOAD_LEN
               && (n < |inp.bytes| ==> n == c.win.trans || n == c.win.maxpacket || head + n == TRANS_MAX_PAYLOAD_LEN)
               && r.ch.win == c.win.(trans := c.win.trans - n) && r.ch.bufs == c.bufs && r.ch.fl == c.fl
               && (!c.fl.flushing ==> r.ch.fds == c.fds)
               && (c.fl.flushing && n < MaxLen(c.win, ext) ==> Source(r.ch, ext) == FD_CLOSED))
  {
  }

  /** A write that fails closes its descriptor, and a descriptor that served for reading too. */
  lemma FailedWrite(c: Chan, ext: bool)
    requires !c.fl.removed && CanWrite(c, ext)
    ensures var r := React(c, WriteError(ext)); var fd := Sink(c, ext);
      && r.Done? && r.out == [] && r.ch == c.(fds := r.ch.fds)
      && (!ext || !c.fds.separate ==> Sink(r.ch, ext) == FD_CLOSED)
      && (fd != c.fds.read ==> r.ch.fds.read == c.fds.read) && (fd != c.fds.write ==> r.ch.fds.write == c.fds.write)
  {
  }

  // ------------------------------------------------- receiving and crediting

  /** The data is stored after what is held, or refused when the window has no room for it. */
  predicate Taken(c: Chan, held: seq<byte>, ext: bool, b: seq<byte>, r: Result) {
    if |held| + |b| <= c.win.window && |b| <= c.win.recv then
      && r.Done? && r.out == [] && r.ch.win == c.win.(recv := c.win.recv - |b|) && r.ch.fds == c.fds && r.ch.fl == c.fl && r.ch.hist == c.hist
      && r.ch.bufs == (if ext then c.bufs.(extra := Some(held + b)) else c.bufs.(main := held + b))
    else r.Quit?
  }

  /** Data from any peer: dropped when nobody wants it, refused after EOF or beyond the window, and
      otherwise put at the end of its buffer. */
  lemma DataFrom(c: Chan, ext: bool, b: seq<byte>)
    ensures var r := RecvData(c, ext, b);
      var unwanted := ext && c.bufs.extra.None?;
      var closed := (if ext then c.fds.err else c.fds.write) < 0;
      && (unwanted ==> r == Done(Drop(c, |b|), []))
      && (!unwanted && c.fl.recvEof ==> r == Quit(AfterEof))
      && (!unwanted && !c.fl.recvEof && closed ==> r == Done(Drop(c, |b|), []))
      && (!unwanted && !c.fl.recvEof && !closed ==> Taken(c, if ext then c.bufs.extra.value else c.bufs.main, ext, b, r))
  {
  }

  /** Bytes written out come from the front of their buffer; the window is given back in one message
      as soon as a third of it is due, and not before. */
  lemma WrittenOut(c: Chan, ext: bool, n: nat)
    requires CanWrite(c, ext) && 0 < n <= |Buf(c.bufs, ext)|
    ensures var r := Wrote(c, ext, n); var due := c.win.done + n;
      && r.Done? && (r.out == [Adjust(due)] || r.out == []) && (r.out == [Adjust(due)] <==> due >= c.win.window / 3)
      && (if due >= c.win.window / 3 then r.ch.win.done == 0 && r.ch.win.recv == c.win.recv + due
          else r.ch.win.done == due && r.ch.win.recv == c.win.recv)
      && Buf(c.bufs, ext) == Buf(c.bufs, ext)[..n] + Buf(r.ch.bufs, ext)
      && (if ext then r.ch.hist.givenErr == c.hist.givenErr + Buf(c.bufs, ext)[..n] && r.ch.bufs.main == c.bufs.main
          else r.ch.hist.given == c.hist.given + Buf(c.bufs, ext)[..n] && r.ch.bufs.extra == c.bufs.extra)
      && r.ch.fds == c.fds && r.ch.fl == c.fl && r.ch.win.trans == c.win.trans
  {
  }

  /** Any peer's adjustment is cut at the limit and so is the sum; its confirmation gives window and
      packet size, once. */
  lemma AdjustedTo(c: Chan, incr: nat, window: nat, maxpacket: nat)
    ensures var d := RecvAdjust(c, incr);
      && d == c.(win := c.win.(trans := d.win.trans)) && d.win.trans <= 500000000
      && (incr <= 500000000 && c.win.trans + incr <= 500000000 ==> d.win.trans == c.win.trans + incr)
      && (c.win.trans + incr > 500000000 ==> d.win.trans == 500000000)
    ensures var r := RecvConfirm(c, window, maxpacket);
      && (r.Done? <==> c.fl.awaitOpen)
      && (r.Done? ==> r.out == [] && r.ch.win == c.win.(trans := window, maxpacket := maxpacket) && !r.ch.fl.awaitOpen)
  {
  }

  // -------------------------------------------------------------- check_close

  predicate Allows(c: Chan, k: Closing) {
    !k.hasCheck || c.fl.handlerDone || k.check
  }

  /** Closing is mutual: the peer has closed, and nothing that it sent is left to be written. */
  predicate Mutual(c: Chan, k: Closing) {
    c.fl.recvClose && !WritePending(c) && Allows(c, k)
  }

  /** EOF and CLOSE in a list of messages. */
  function Count(f: seq<Msg>, m: Msg): nat
    decreases |f|
  {
    if f == [] then 0 else (if f[0] == m then 1 else 0) + Count(f[1..], m)
  }

  lemma {:induction false} CountConcat(f: seq<Msg>, g: seq<Msg>, m: Msg)
    ensures Count(f + g, m) == Count(f, m) + Count(g, m)
    decreases |f|
  {
    if f == [] { assert f + g == g; } else { assert (f + g)[1..] == f[1..] + g; CountConcat(f[1..], g, m); }
  }

  lemma CountOne(x: Msg, m: Msg)
    ensures Count([x], m) == if x == m then 1 else 0
  {
    assert [x][1..] == [];
  }

  /** Only data is sent by the flushing reads, and they leave the flags and the buffers alone. */
  lemma FlushedOnly(c: Chan, k: Closing)
    ensures var r := FlushBoth(c, k);
      r.Done? ==>
        && (forall i :: 0 <= i < |r.out| ==> r.out[i].Data?) && r.ch.fl == c.fl && r.ch.bufs == c.bufs
        && (!c.fl.flushing ==> r == Done(c, []))
  {
    hide Then;
    FlushOne(c, k);
    var r := FlushOut(c, k);
    if r.Done? {
      FlushOne(r.ch, k);
      ThenIs(r, d => FlushErr(d, k));
    } else {
      ThenIs(r, d => FlushErr(d, k));
    }
  }

  lemma FlushOne(c: Chan, k: Closing)
    ensures var r := FlushOut(c, k);
      r.Done? ==> (forall i :: 0 <= i < |r.out| ==> r.out[i].Data?) && r.ch.fl == c.fl && r.ch.bufs == c.bufs && (!c.fl.flushing ==> r == Done(c, []))
    ensures var r := FlushErr(c, k);
      r.Done? ==> (forall i :: 0 <= i < |r.out| ==> r.out[i].Data?) && r.ch.fl == c.fl && r.ch.bufs == c.bufs && (!c.fl.flushing ==> r == Done(c, []))
  {
  }

  lemma ThenIs(r: Result, next: Chan -> Result)
    ensures r.Quit? ==> Then(r, next) == r
    ensures r.Done? ==> Then(r, next) == match next(r.ch) case Quit(f) => Quit(f) case Done(d, n) => Done(d, r.out + n)
  {
  }

  lemma {:induction false} NoneCounted(f: seq<Msg>, m: Msg)
    requires m !in f
    ensures Count(f, m) == 0
    decreases |f|
  {
    if f != [] { NoneCounted(f[1..], m); }
  }

  predicate Flushing(c: Chan, k: Closing) {
    c.fl.flushing || (!c.fl.handlerDone && k.hasCheck && k.check)
  }

  /** The last part of check_close: EOF exactly when the readers are closed and it has not been sent,
      CLOSE exactly when besides closing is allowed and nothing is left to write. */
  lemma FinishSends(c: Chan, k: Closing, allowed: bool)
    ensures var r := Finishing(c, k, allowed);
      var eof := !c.fl.sentEof && ReadersClosed(c);
      var close := !c.fl.sentClose && ReadersClosed(c) && allowed && !WritePending(c);
      && r.Done? && r.out == (if eof then [Eof] else []) + (if close then [Close] else [])
      && (ReadersClosed(c) ==> ReadersClosed(r.ch)) && (ReadersClosed(r.ch) ==> ReadersClosed(c))
      && r.ch.fl.sentEof == (c.fl.sentEof || eof || close) && r.ch.fl.sentClose == (c.fl.sentClose || close)
      && r.ch.fl.removed == c.fl.removed && r.ch.bufs == c.bufs
      && r.ch.fl.recvEof == c.fl.recvEof && r.ch.fl.recvClose == c.fl.recvClose
      && (!close ==> r.ch.fds == c.fds)
  {
    ThenIs(SendEof(c), d => MaybeClose(d, k, allowed));
    var e := SendEof(c).ch;
    hide Then, SendClose, WritePending;
    assert WritePending(e) == WritePending(c) by { SamePending(e, c); }
    SendCloseFlags(e, k.hasHandler);
    if ReadersClosed(e) { SendCloseReaders(e, k.hasHandler); }
  }

  lemma SendCloseReaders(c: Chan, hasHandler: bool)
    requires ReadersClosed(c)
    ensures ReadersClosed(SendClose(c, hasHandler)) && SendClose(c, hasHandler).bufs == c.bufs
  {
  }

  lemma TailSends(c: Chan, k: Closing, allowed: bool)
    requires CheckTail(c, k, allowed).Done?
    ensures var r, m := CheckTail(c, k, allowed), FlushBoth(c, k);
      && m.Done? && var f := Finishing(m.ch, k, allowed); r.ch == f.ch && r.out == m.out + f.out
  {
    hide Then, FlushBoth, Finishing;
    ThenIs(FlushBoth(c, k), d => Finishing(d, k, allowed));
    FinishSends(FlushBoth(c, k).ch, k, allowed);
  }

  lemma ShutOnly(c: Chan)
    ensures var d := ShutWriter(c); d.fl == c.fl && d.bufs == c.bufs && WritePending(d) == WritePending(c)
  {
  }

  /** check_close, whole. Once the peer has closed and everything is written the entry goes, with a
      CLOSE of our own if there has been none. Otherwise, after what the flushing reads send: the EOF
      is sent if and only if the readers are closed and it has not been; and CLOSE only if the readers
      are closed, closing is allowed and, unless the channel is being flushed, nothing is left to
      write, and always then. */
  lemma CheckSends(c: Chan, k: Closing)
    requires CheckClose(c, k).Done?
    ensures var d := CheckClose(c, k).ch; d.fl.recvEof == c.fl.recvEof && d.fl.recvClose == c.fl.recvClose
    ensures var r := CheckClose(c, k); var d := r.ch;
      if Mutual(c, k) then d.fl.removed && d.fl.sentClose && d.fl.sentEof == (c.fl.sentEof || !c.fl.sentClose)
                           && r.out == if c.fl.sentClose then [] else [Close]
      else
        && d.fl.removed == c.fl.removed
        && Count(r.out, Eof) == (if !c.fl.sentEof && ReadersClosed(d) then 1 else 0)
        && Count(r.out, Close) == (if !c.fl.sentClose && d.fl.sentClose then 1 else 0)
        && (!c.fl.sentClose && d.fl.sentClose ==> ReadersClosed(d) && Allows(c, k) && (Flushing(c, k) || !WritePending(c)))
        && (!d.fl.sentClose && ReadersClosed(d) && Allows(c, k) ==> WritePending(d))
        && (c.fl.sentEof ==> d.fl.sentEof) && (c.fl.sentClose ==> d.fl.sentClose) && (ReadersClosed(d) ==> d.fl.sentEof)
        && (!ReadersClosed(d) ==> forall i :: 0 <= i < |r.out| ==> r.out[i].Data?)
  {
    hide CheckTail, FlushBoth, Finishing, SendClose;
    var c1 := StartFlushing(c, k);
    assert Allows(c, k) == CloseAllowed(c1, k) && WritePending(c1) == WritePending(c);
    if Mutual(c, k) {
      SendCloseFlags(c1, k.hasHandler);
    } else {
      var c2 := ShutWriter(c1);
      ShutOnly(c1);
      TailSends(c2, k, Allows(c, k));
      var m := FlushBoth(c2, k);
      FlushedOnly(c2, k);
      FinishSends(m.ch, k, Allows(c, k));
      var f := Finishing(m.ch, k, Allows(c, k));
      CountConcat(m.out, f.out, Eof);
      CountConcat(m.out, f.out, Close);
      NoneCounted(m.out, Eof);
      NoneCounted(m.out, Close);
      FinishCounts(f.out);
    }
  }

  /** When the channel type says that its program has ended, what is still to be read of it is read and
      sent before anything else. */
  lemma FlushSends(c: Chan, k: Closing)
    requires CheckClose(c, k).Done? && !Mutual(c, k) && Flushing(c, k)
    ensures var c1 := ShutWriter(StartFlushing(c, k)); var first := SendData(c1, false, k.out);
      && c1.fl == c.fl.(flushing := true)
      && (c1.fds.read >= 0 && c1.win.trans > 0 ==> first.Done? && first.out <= CheckClose(c, k).out)
  {
    hide CheckTail, FlushErr, Finishing, SendClose, SendData;
    var c1 := ShutWriter(StartFlushing(c, k));
    ShutOnly(StartFlushing(c, k));
    var allowed := CloseAllowed(StartFlushing(c, k), k);
    assert Allows(c, k) == allowed && WritePending(StartFlushing(c, k)) == WritePending(c);
    assert CheckClose(c, k) == CheckTail(c1, k, allowed);
    TailSends(c1, k, allowed);
    ThenIs(FlushOut(c1, k), d => FlushErr(d, k));
    hide Then;
    assert c1.fl.flushing;
  }

  lemma SendCloseFlags(c: Chan, hasHandler: bool)
    ensures SendClose(c, hasHandler).fl.sentClose && SendClose(c, hasHandler).fl.sentEof
    ensures SendClose(c, hasHandler).fl.removed == c.fl.removed
    ensures SendClose(c, hasHandler).fl.recvEof == c.fl.recvEof && SendClose(c, hasHandler).fl.recvClose == c.fl.recvClose
  {
  }

  lemma FinishCounts(f: seq<Msg>)
    requires f == [] || f == [Eof] || f == [Close] || f == [Eof] + [Close]
    ensures Count(f, Eof) == (if f == [Eof] || f == [Eof] + [Close] then 1 else 0)
    ensures Count(f, Close) == (if f == [Close] || f == [Eof] + [Close] then 1 else 0)
  {
    CountOne(Eof, Eof);
    CountOne(Eof, Close);
    CountOne(Close, Eof);
    CountOne(Close, Close);
    CountConcat([Eof], [Close], Eof);
    CountConcat([Eof], [Close], Close);
  }

  // ------------------------------------------------------- all that was sent

  /** What has been delivered to each end in a run. */
  datatype Log = Log(toA: seq<Msg>, toB: seq<Msg>)

  function Delivered(o: Opening, run: seq<Choice>): Log
    decreases |run|
  {
    if run == [] then Log([], [])
    else
      var before, c := run[..|run| - 1], run[|run| - 1];
      var l, p := Delivered(o, before), Exec(Start(o), before);
      if p.fault.Some? || !c.act.Incoming? then l
      else if c.left then (if p.ba == [] then l else l.(toA := l.toA + [p.ba[0]]))
      else if p.ab == [] then l else l.(toB := l.toB + [p.ab[0]])
  }

  /** Everything the left end has sent, and the right. */
  function SentByA(o: Opening, run: seq<Choice>): seq<Msg> { Delivered(o, run).toB + Exec(Start(o), run).ab }
  function SentByB(o: Opening, run: seq<Choice>): seq<Msg> { Delivered(o, run).toA + Exec(Start(o), run).ba }

  lemma ReactKeepsHeard(x: Chan, ev: Event)
    ensures React(x, ev).Done? ==> React(x, ev).ch.fl.recvEof == x.fl.recvEof && React(x, ev).ch.fl.recvClose == x.fl.recvClose
  {
    match ev
    case Check(k) => CheckKeepsHeard(x, k);
    case _ =>
  }

  lemma CheckKeepsHeard(x: Chan, k: Closing)
    ensures CheckClose(x, k).Done? ==>
      CheckClose(x, k).ch.fl.recvEof == x.fl.recvEof && CheckClose(x, k).ch.fl.recvClose == x.fl.recvClose
  {
    hide CheckClose, Mutual, Allows, Flushing, WritePending, ReadersClosed;
    if CheckClose(x, k).Done? { CheckSends(x, k); }
  }

  lemma DataKeepsFlags(x: Chan, ext: bool, b: seq<byte>)
    ensures RecvData(x, ext, b).Done? ==> RecvData(x, ext, b).ch.fl == x.fl
  {
  }

  lemma ReceiveHears(x: Chan, m: Msg, k: Closing)
    requires Receive(x, m, k).Done?
    ensures var d := Receive(x, m, k).ch;
      && d.fl.recvEof == (x.fl.recvEof || m.Eof? || m.Close?) && d.fl.recvClose == (x.fl.recvClose || m.Close?)
  {
    hide CheckClose, RecvData, RecvAdjust, RecvConfirm, RecvOpenFailure;
    OthersKeepHeard(x, m);
    var e, c := x.(fl := x.fl.(recvEof := true)), x.(fl := x.fl.(recvEof := true, recvClose := true));
    CheckKeepsHeard(e, k);
    CheckKeepsHeard(c, k);
  }

  lemma OthersKeepHeard(x: Chan, m: Msg)
    ensures m.Data? && RecvData(x, m.extended, m.bytes).Done? ==> RecvData(x, m.extended, m.bytes).ch.fl == x.fl
    ensures m.Adjust? ==> RecvAdjust(x, m.incr).fl == x.fl
    ensures m.Confirm? && RecvConfirm(x, m.window, m.maxpacket).Done? ==>
      RecvConfirm(x, m.window, m.maxpacket).ch.fl == x.fl.(awaitOpen := false)
    ensures RecvOpenFailure(x).Done? ==>
      RecvOpenFailure(x).ch.fl.recvEof == x.fl.recvEof && RecvOpenFailure(x).ch.fl.recvClose == x.fl.recvClose
  {
    if m.Data? { DataKeepsFlags(x, m.extended, m.bytes); }
    hide RecvData;
  }

  /** What has been delivered is lawful, and accounts for what the receivers know. */
  predicate Heard(p: Pair, l: Log) {
    && Legal(l.toB, false, false, p.b.fl.recvEof, p.b.fl.recvClose)
    && Legal(l.toA, false, false, p.a.fl.recvEof, p.a.fl.recvClose)
  }

  lemma HeardMore(l: seq<Msg>, x: Chan, y: Chan, f: seq<Msg>, g: seq<Msg>, k: Closing)
    requires Half(x, y, f, g) && g != [] && Legal(l, false, false, x.fl.recvEof, x.fl.recvClose)
    requires Receive(x, g[0], k).Done?
    ensures var d := Receive(x, g[0], k).ch; Legal(l + [g[0]], false, false, d.fl.recvEof, d.fl.recvClose)
  {
    var m := g[0];
    assert !x.fl.recvClose && (m.Data? || m.Eof? ==> !x.fl.recvEof) by { assert Legal(g, x.fl.recvEof, x.fl.recvClose, y.fl.sentEof, y.fl.sentClose); }
    hide Legal, Receive, Half;
    ReceiveHears(x, m, k);
    LegalOne(m, x.fl.recvEof, x.fl.recvClose);
    LegalConcat(l, [m], false, false, x.fl.recvEof, x.fl.recvClose, x.fl.recvEof || m.Eof? || m.Close?, m.Close?);
  }

  lemma {:induction false} RunHeard(o: Opening, run: seq<Choice>)
    requires GoodOpening(o)
    ensures Heard(Exec(Start(o), run), Delivered(o, run))
    decreases |run|
  {
    if run != [] {
      var before, c := run[..|run| - 1], run[|run| - 1];
      var p, l := Exec(Start(o), before), Delivered(o, before);
      RunHeard(o, before);
      RunGood(o, before);
      RunGood(o, run);
      hide Legal, Half, React, Receive;
      var q := if c.left then p else Mirror(p);
      assert Half(p.b, p.a, p.ba, p.ab) by { SwapHalf(p.a, p.b, p.ab, p.ba); }
      if c.act.Local? {
        ReactKeepsHeard(q.a, c.act.ev);
      } else if q.ba != [] {
        if Receive(q.a, q.ba[0], c.act.k).Done? {
          HeardMore(if c.left then l.toA else l.toB, q.a, q.b, q.ab, q.ba, c.act.k);
        }
      }
    }
  }

  lemma SwapHalf(x: Chan, y: Chan, f: seq<Msg>, g: seq<Msg>)
    requires Half(x, y, f, g)
    ensures Half(y, x, g, f)
  {
  }

  lemma {:induction false} LegalMeans(f: seq<Msg>, e: bool, c: bool, e1: bool, c1: bool)
    requires Legal(f, e, c, e1, c1)
    ensures c ==> f == [] && c1 == c && e1 == e
    ensures !c ==> (c1 <==> f != [] && f[|f| - 1].Close?) && (e1 <==> e || Eof in f || Close in f)
    ensures forall i :: 0 <= i < |f| - 1 ==> !f[i].Close?
    ensures e ==> forall i :: 0 <= i < |f| ==> !f[i].Data? && !f[i].Eof?
    ensures forall i, j :: 0 <= i < j < |f| && f[i].Eof? ==> !f[j].Data? && !f[j].Eof?
    decreases |f|
  {
    if f != [] {
      var e0, c0 := e || f[0].Eof? || f[0].Close?, f[0].Close?;
      LegalMeans(f[1..], e0, c0, e1, c1);
      var t := f[1..];
      assert f == [f[0]] + t;
      assert forall i :: 0 < i < |f| ==> f[i] == t[i - 1];
      assert t != [] ==> f[|f| - 1] == t[|t| - 1];
    }
  }

  /** In every run, of all that an end ever sent: CLOSE comes once and last, exactly when the end has
      closed; EOF comes at most once, and no data after it. */
  lemma EndsInOrder(o: Opening, run: seq<Choice>)
    requires GoodOpening(o)
    ensures var p := Exec(Start(o), run);
      Orderly(SentByA(o, run), p.a.fl) && Orderly(SentByB(o, run), p.b.fl)
  {
    var p, l := Exec(Start(o), run), Delivered(o, run);
    RunHeard(o, run);
    RunGood(o, run);
    assert Ordered(p.a.fl, p.b.fl, p.ab) && Ordered(p.b.fl, p.a.fl, p.ba);
    hide *;
    WholeOrder(l.toB, p.ab, p.a.fl, p.b.fl, p, l);
    WholeOrder(l.toA, p.ba, p.b.fl, p.a.fl, p, l);
    SentIs(o, run);
  }

  lemma SentIs(o: Opening, run: seq<Choice>)
    ensures SentByA(o, run) == Delivered(o, run).toB + Exec(Start(o), run).ab && SentByB(o, run) == Delivered(o, run).toA + Exec(Start(o), run).ba
  {
  }

  /** The messages f on their way from x to y, after those that have been delivered. */
  lemma WholeOrder(got: seq<Msg>, f: seq<Msg>, x: Flags, y: Flags, p: Pair, l: Log)
    requires Heard(p, l) && ((x == p.a.fl && y == p.b.fl && got == l.toB) || (x == p.b.fl && y == p.a.fl && got == l.toA))
    requires Ordered(x, y, f)
    ensures Orderly(got + f, x)
  {
    hide Legal;
    LegalConcat(got, f, false, false, y.recvEof, y.recvClose, x.sentEof, x.sentClose);
    LegalMeans(got + f, false, false, x.sentEof, x.sentClose);
  }

  predicate Orderly(f: seq<Msg>, fl: Flags) {
    && (fl.sentClose <==> f != [] && f[|f| - 1].Close?) && (fl.sentEof <==> Eof in f || Close in f)
    && (forall i :: 0 <= i < |f| - 1 ==> !f[i].Close?)
    && (forall i, j :: 0 <= i < j < |f| && f[i].Eof? ==> !f[j].Data? && !f[j].Eof?)
  }

  // ------------------------------------------------------------- closing down

  /** check_close for a channel type that never objects, with nothing to be read. */
  const EASY: Closing := Closing(false, false, false, Input([], true), Input([], true))

  /** Neither opening has failed, and the local readers of both ends have ended. */
  predicate Ended(p: Pair) {
    Good(p) && ReadersClosed(p.a) && ReadersClosed(p.b) && !p.a.fl.failed && !p.b.fl.failed
  }

  function Unsent(x: Flags): nat { (if x.sentEof then 0 else 1) + if x.sentClose then 0 else 1 }

  /** Messages on their way, and twice those still to come. */
  function Mass(p: Pair): nat { |p.ab| + |p.ba| + 2 * (Unsent(p.a.fl) + Unsent(p.b.fl)) }

  predicate NoData(f: seq<Msg>) { forall i :: 0 <= i < |f| ==> !f[i].Data? }

  /** What an end whose readers are closed does to itself: it stays so, sends no data and nothing
      twice, and what it has written stays written. */
  predicate Settles(x: Chan, r: Result) {
    && r.Done? && ReadersClosed(r.ch) && r.ch.fl.failed == x.fl.failed && NoData(r.out)
    && (x.fl.sentEof ==> r.ch.fl.sentEof) && (x.fl.sentClose ==> r.ch.fl.sentClose) && (x.fl.removed ==> r.ch.fl.removed)
    && (x.fl.recvClose ==> r.ch.fl.recvClose)
  }

  /** With nothing to read the flushing reads do nothing. */
  lemma NoFlush(c: Chan)
    requires ReadersClosed(c)
    ensures FlushBoth(c, EASY) == Done(c, [])
  {
    ThenIs(FlushOut(c, EASY), d => FlushErr(d, EASY));
    hide Then;
  }

  /** What check_close then comes to. */
  lemma EasyIs(x: Chan)
    requires ReadersClosed(x)
    ensures CheckClose(x, EASY) ==
      if x.fl.recvClose && !WritePending(x)
      then (if x.fl.sentClose then Done(Remove(x), []) else Done(Remove(SendClose(x, false)), [Close]))
      else Finishing(ShutWriter(x), EASY, true)
  {
    hide SendClose, Finishing, FlushBoth, WritePending, ShutWriter;
    assert StartFlushing(x, EASY) == x;
    var y := ShutWriter(x);
    assert ReadersClosed(y) by { ShutKeeps(x); }
    NoFlush(y);
    ThenIs(FlushBoth(y, EASY), d => Finishing(d, EASY, true));
    FinishSends(y, EASY, true);
    hide Then;
    var f := Finishing(y, EASY, true);
    assert [] + f.out == f.out;
  }

  lemma ShutKeeps(x: Chan)
    requires ReadersClosed(x)
    ensures ReadersClosed(ShutWriter(x)) && ShutWriter(x).fl == x.fl && WritePending(ShutWriter(x)) == WritePending(x)
  {
    ShutOnly(x);
  }

  /** After send_msg_channel_close everything is closed, so nothing is left to write. */
  lemma SendCloseShuts(c: Chan)
    requires FdsOK(c) && ReadersClosed(c)
    ensures var d := SendClose(c, false);
      && ReadersClosed(d) && !WritePending(d) && d.fl == c.fl.(sentEof := true, sentClose := true)
  {
  }

  lemma FinishFlags(c: Chan)
    requires ReadersClosed(c) && FdsOK(c)
    ensures var d := Finishing(c, EASY, true).ch;
      && d.fl.failed == c.fl.failed && (!WritePending(c) ==> !WritePending(d))
  {
    ThenIs(SendEof(c), d => MaybeClose(d, EASY, true));
    var e := SendEof(c).ch;
    hide Then, SendClose, WritePending;
    assert WritePending(e) == WritePending(c) by { SamePending(e, c); }
    SendCloseShuts(e);
  }

  lemma SamePending(e: Chan, c: Chan)
    requires e.fds == c.fds && e.bufs == c.bufs
    ensures WritePending(e) == WritePending(c)
  {
  }

  lemma ShutFds(c: Chan)
    requires FdsOK(c)
    ensures FdsOK(ShutWriter(c)) || c.fl.initconn
  {
  }

  /** A check of an end whose readers are closed: EOF and CLOSE are sent once each, unless something
      is left to write; and the entry goes if the peer has closed. */
  lemma EasyCheck(x: Chan)
    requires ChanOK(x) && ReadersClosed(x)
    ensures var r := CheckClose(x, EASY);
      && Settles(x, r) && (r.ch.fl.sentClose || WritePending(x))
      && |r.out| + Unsent(r.ch.fl) <= Unsent(x.fl) && (!WritePending(x) ==> !WritePending(r.ch))
      && (x.fl.recvClose && !WritePending(x) ==> r.ch.fl.removed)
  {
    hide CheckClose, SendClose, Finishing, WritePending, ShutWriter;
    EasyIs(x);
    if x.fl.recvClose && !WritePending(x) {
      SendCloseShuts(x);
      SamePending(Remove(x), x);
      SamePending(Remove(SendClose(x, false)), SendClose(x, false));
    } else {
      var y := ShutWriter(x);
      ShutKeeps(x);
      ShutFds(x);
      FinishSends(y, EASY, true);
      FinishFlags(y);
    }
  }

  /** A message for an end whose readers are closed: never more is sent than is still owed. */
  lemma TakeOne(x: Chan, y: Chan, f: seq<Msg>, g: seq<Msg>)
    requires Half(x, y, f, g) && g != [] && ReadersClosed(x) && !x.fl.failed
    ensures var r := Receive(x, g[0], EASY);
      && Settles(x, r) && |r.out| + Unsent(r.ch.fl) <= Unsent(x.fl)
      && (!WritePending(x) && !g[0].Data? ==> !WritePending(r.ch))
  {
    ReceiveStep(x, y, f, g, EASY);
    HeadFor(x, y, f, g);
    var m := g[0];
    hide Half, CheckClose, ChanOK, WritePending, Legal, RecvData, ReadersClosed;
    match m
    case Data(ext, b) => DataSettles(x, ext, b);
    case Adjust(n) => AdjustSettles(x, n);
    case Eof =>
      var e := x.(fl := x.fl.(recvEof := true));
      assert ChanOK(e) by { MarkedOK(x); }
      assert ReadersClosed(e) by { SameReaders(e, x); }
      EasyCheck(e);
      SamePending(e, x);
    case Close =>
      var e := x.(fl := x.fl.(recvEof := true, recvClose := true));
      assert ChanOK(e) by { MarkedOK(x); }
      assert ReadersClosed(e) by { SameReaders(e, x); }
      EasyCheck(e);
      SamePending(e, x);
  }

  lemma SameReaders(e: Chan, x: Chan)
    requires e.fds == x.fds && e.bufs == x.bufs
    ensures ReadersClosed(e) == ReadersClosed(x)
  {
  }

  lemma HeadFor(x: Chan, y: Chan, f: seq<Msg>, g: seq<Msg>)
    requires Half(x, y, f, g) && g != [] && ReadersClosed(x)
    ensures ChanOK(x) && !x.fl.removed && !g[0].OpenFailure? && !g[0].Confirm?
  {
    HeadLegal(x, y, f, g);
    hide Total, Legal, Stream, StreamErr, FdsOK, WinOK;
    assert x.fl.awaitOpen ==> Untouched(x);
  }

  lemma MarkedOK(x: Chan)
    requires ChanOK(x)
    ensures ChanOK(x.(fl := x.fl.(recvEof := true))) && ChanOK(x.(fl := x.fl.(recvEof := true, recvClose := true)))
  {
  }

  lemma AdjustSettles(x: Chan, n: nat)
    requires ReadersClosed(x)
    ensures var d := RecvAdjust(x, n); Settles(x, Done(d, [])) && d.fl == x.fl && WritePending(d) == WritePending(x)
  {
  }

  lemma DataSettles(x: Chan, ext: bool, b: seq<byte>)
    requires ReadersClosed(x) && RecvData(x, ext, b).Done?
    ensures Settles(x, RecvData(x, ext, b)) && RecvData(x, ext, b).out == [] && RecvData(x, ext, b).ch.fl == x.fl
  {
  }

  lemma {:induction false} ExecConcat(p: Pair, a: seq<Choice>, b: seq<Choice>)
    ensures Exec(p, a + b) == Exec(Exec(p, a), b)
    decreases |b|
  {
    if b == [] { assert a + b == a; }
    else {
      var k := |b| - 1;
      assert (a + b)[..|a + b| - 1] == a + b[..k] && (a + b)[|a + b| - 1] == b[k];
      ExecConcat(p, a, b[..k]);
    }
  }

  lemma ExecOne(p: Pair, c: Choice)
    ensures Exec(p, [c]) == Step(p, c)
  {
    assert [c][..0] == [] && Exec(p, []) == p;
  }

  /** Nothing is left to write, and no data is on its way. */
  predicate Tidy(p: Pair) {
    !WritePending(p.a) && !WritePending(p.b) && NoData(p.ab) && NoData(p.ba)
  }

  predicate Onward(p: Pair, q: Pair) {
    && (p.a.fl.sentClose ==> q.a.fl.sentClose) && (p.b.fl.sentClose ==> q.b.fl.sentClose)
    && (p.a.fl.removed ==> q.a.fl.removed) && (p.b.fl.removed ==> q.b.fl.removed)
    && (Tidy(p) ==> Tidy(q))
  }

  /** A step of either end, seen from the left. */
  lemma DeliverOne(p: Pair, left: bool)
    requires Ended(p) && (if left then p.ba != [] else p.ab != [])
    ensures var q := Step(p, Choice(left, Incoming(EASY))); Ended(q) && Mass(q) < Mass(p) && Onward(p, q)
  {
    var c := Choice(left, Incoming(EASY));
    StepGood(p, c);
    SwapHalf(p.a, p.b, p.ab, p.ba);
    hide Half, Receive, WritePending, ReadersClosed;
    if left {
      TakeOne(p.a, p.b, p.ab, p.ba);
      var r := Receive(p.a, p.ba[0], EASY);
      NoDataParts(p.ab, r.out, p.ba);
    } else {
      TakeOne(p.b, p.a, p.ba, p.ab);
      var r := Receive(p.b, p.ab[0], EASY);
      NoDataParts(p.ba, r.out, p.ab);
    }
  }

  lemma NoDataParts(f: seq<Msg>, out: seq<Msg>, g: seq<Msg>)
    requires NoData(out) && g != []
    ensures NoData(f) ==> NoData(f + out)
    ensures NoData(g) ==> NoData(g[1..]) && !g[0].Data?
  {
  }

  /** Everything on its way is delivered. */
  lemma {:induction false} DeliverAll(p: Pair) returns (more: seq<Choice>, q: Pair)
    requires Ended(p)
    ensures q == Exec(p, more) && Ended(q) && q.ab == [] && q.ba == [] && Onward(p, q)
    decreases Mass(p)
  {
    hide Ended, Tidy, Mass, Step;
    if p.ab == [] && p.ba == [] {
      more, q := [], p;
    } else {
      var c := Choice(p.ba != [], Incoming(EASY));
      DeliverOne(p, c.left);
      var rest;
      rest, q := DeliverAll(Step(p, c));
      more := [c] + rest;
      ExecOne(p, c);
      ExecConcat(p, [c], rest);
    }
  }

  /** What both ends do to themselves leaves them ended. */
  lemma LocalOne(p: Pair, left: bool, ev: Event)
    requires Ended(p) && var x := if left then p.a else p.b; Settles(x, React(x, ev))
    ensures var q := Step(p, Choice(left, Local(ev)));
      && Ended(q) && (if left then q.b == p.b && q.ba == p.ba && q.a == React(p.a, ev).ch && q.ab == p.ab + React(p.a, ev).out
                      else q.a == p.a && q.ab == p.ab && q.b == React(p.b, ev).ch && q.ba == p.ba + React(p.b, ev).out)
  {
    StepGood(p, Choice(left, Local(ev)));
    hide Half, React, ReadersClosed;
  }

  /** All that can be written of a stream. */
  function AllOf(x: Chan, ext: bool): nat { if CanWrite(x, ext) then |Buf(x.bufs, ext)| else 0 }

  /** A buffer is written out in one go; what cannot be written does not count as pending. */
  lemma WriteSettles(x: Chan, ext: bool)
    requires ChanOK(x) && ReadersClosed(x)
    ensures var r := React(x, Write(ext, AllOf(x, ext)));
      && Settles(x, r) && r.ch.fl == x.fl && r.ch.fds == x.fds
      && (!x.fl.removed ==> !CanWrite(r.ch, ext)) && (!CanWrite(x, !ext) ==> !CanWrite(r.ch, !ext))
  {
  }

  lemma PendingIs(x: Chan)
    requires ChanOK(x) && ReadersClosed(x)
    ensures WritePending(x) ==> CanWrite(x, false) || CanWrite(x, true)
    ensures x.fl.removed && !x.fl.failed ==> !WritePending(x) && x.fl.sentClose
  {
  }

  function End(p: Pair, left: bool): Chan { if left then p.a else p.b }

  lemma EndedGives(p: Pair, left: bool)
    requires Ended(p)
    ensures ChanOK(End(p, left)) && ReadersClosed(End(p, left)) && !End(p, left).fl.failed
  {
  }

  /** What one end does to itself, without data and without ado. */
  predicate Alone(p: Pair, q: Pair, left: bool) {
    && Ended(q) && End(q, !left) == End(p, !left) && (NoData(p.ab) ==> NoData(q.ab)) && (NoData(p.ba) ==> NoData(q.ba))
    && (End(p, left).fl.sentClose ==> End(q, left).fl.sentClose) && (End(p, left).fl.removed ==> End(q, left).fl.removed)
  }

  /** One end writes out both its buffers. */
  lemma WriteAll(p: Pair, left: bool) returns (more: seq<Choice>, q: Pair)
    requires Ended(p)
    ensures q == Exec(p, more) && Alone(p, q, left) && !WritePending(End(q, left))
  {
    hide Ended, CanWrite, React, Step, WritePending, ChanOK;
    EndedGives(p, left);
    var x := End(p, left);
    WriteSettles(x, false);
    var c1 := Choice(left, Local(Write(false, AllOf(x, false))));
    LocalOne(p, left, c1.act.ev);
    var q1 := Step(p, c1);
    EndedGives(q1, left);
    var y := End(q1, left);
    WriteSettles(y, true);
    var c2 := Choice(left, Local(Write(true, AllOf(y, true))));
    LocalOne(q1, left, c2.act.ev);
    q := Step(q1, c2);
    EndedGives(q, left);
    PendingIs(y);
    PendingIs(End(q, left));
    more := [c1] + [c2];
    ExecOne(p, c1);
    ExecOne(q1, c2);
    ExecConcat(p, [c1], [c2]);
  }

  /** One end checks. */
  lemma CheckOne(p: Pair, left: bool) returns (more: seq<Choice>, q: Pair)
    requires Ended(p) && !WritePending(End(p, left))
    ensures q == Exec(p, more) && Alone(p, q, left) && End(q, left).fl.sentClose && !WritePending(End(q, left))
    ensures End(p, left).fl.recvClose ==> End(q, left).fl.removed
    ensures End(p, left).fl.recvClose && End(p, left).fl.sentClose ==> q.ab == p.ab && q.ba == p.ba
  {
    hide Ended, Step, WritePending, ChanOK, CheckClose, Mutual;
    EndedGives(p, left);
    var x := End(p, left);
    PendingIs(x);
    var ev := Check(EASY);
    EasyCheck(x);
    if x.fl.recvClose { CheckSends(x, EASY); MutualIs(x); }
    assert React(x, ev) == if x.fl.removed then Done(x, []) else CheckClose(x, EASY);
    hide React;
    LocalOne(p, left, ev);
    more := [Choice(left, Local(ev))];
    q := Step(p, more[0]);
    ExecOne(p, more[0]);
    if x.fl.removed { assert p.ab + [] == p.ab && p.ba + [] == p.ba; }
    assert p.ab + [] == p.ab && p.ba + [] == p.ba;
  }

  lemma MutualIs(x: Chan)
    requires x.fl.recvClose && !WritePending(x)
    ensures Mutual(x, EASY)
  {
  }

  /** With nothing on its way both know what the other has sent. */
  lemma BothHeard(p: Pair)
    requires Ended(p) && p.ab == [] && p.ba == []
    ensures p.a.fl.recvClose == p.b.fl.sentClose && p.b.fl.recvClose == p.a.fl.sentClose
  {
    assert Legal(p.ab, p.b.fl.recvEof, p.b.fl.recvClose, p.a.fl.sentEof, p.a.fl.sentClose);
    assert Legal(p.ba, p.a.fl.recvEof, p.a.fl.recvClose, p.b.fl.sentEof, p.b.fl.sentClose);
  }

  /** Everything delivered and written, both ends check, and have closed. */
  lemma BothClose(p: Pair) returns (more: seq<Choice>, q: Pair)
    requires Ended(p)
    ensures q == Exec(p, more) && Ended(q) && Tidy(q) && q.a.fl.sentClose && q.b.fl.sentClose
  {
    hide Ended, WritePending, Step;
    var m1, p1 := DeliverAll(p);
    var m2, p2 := WriteAll(p1, true);
    var m3, p3 := WriteAll(p2, false);
    var m4, p4 := CheckOne(p3, true);
    var m5, p5 := CheckOne(p4, false);
    more, q := m1 + (m2 + (m3 + (m4 + m5))), p5;
    ExecConcat(p3, m4, m5);
    ExecConcat(p2, m3, m4 + m5);
    ExecConcat(p1, m2, m3 + (m4 + m5));
    ExecConcat(p, m1, m2 + (m3 + (m4 + m5)));
  }

  /** Then the entries go. */
  lemma BothGo(p: Pair) returns (more: seq<Choice>, q: Pair)
    requires Ended(p) && Tidy(p) && p.a.fl.sentClose && p.b.fl.sentClose
    ensures q == Exec(p, more) && Ended(q) && q.a.fl.removed && q.b.fl.removed && q.ab == [] && q.ba == []
  {
    hide Ended, WritePending, Step;
    var m1, p1 := DeliverAll(p);
    BothHeard(p1);
    var m2, p2 := CheckOne(p1, true);
    var m3, p3 := CheckOne(p2, false);
    more, q := m1 + (m2 + m3), p3;
    ExecConcat(p1, m2, m3);
    ExecConcat(p, m1, m2 + m3);
  }

  /** From every state of every run in which the local readers of both ends have ended, delivering
      what is on its way, writing out what is held and checking closes the channel: both entries go,
      each end having sent one CLOSE, the last of its messages. */
  lemma ClosesDown(o: Opening, run: seq<Choice>) returns (more: seq<Choice>)
    requires GoodOpening(o)
    requires var p := Exec(Start(o), run);
      ReadersClosed(p.a) && ReadersClosed(p.b) && !p.a.fl.failed && !p.b.fl.failed
    ensures var q := Exec(Start(o), run + more);
      && q.fault.None? && q.a.fl.removed && q.b.fl.removed && q.ab == [] && q.ba == []
      && q.a.fl.sentClose && q.b.fl.sentClose
      && Orderly(SentByA(o, run + more), q.a.fl) && Orderly(SentByB(o, run + more), q.b.fl)
  {
    hide Half, Orderly, SentByA, SentByB, Step;
    RunGood(o, run);
    var p := Exec(Start(o), run);
    var m1, p1 := BothClose(p);
    var m2, p2 := BothGo(p1);
    more := m1 + m2;
    ExecConcat(p, m1, m2);
    ExecConcat(Start(o), run, more);
    EndsInOrder(o, run + more);
    EndedGives(p2, true);
    EndedGives(p2, false);
    PendingIs(p2.a);
    PendingIs(p2.b);
  }
}
