/**
  The two ends of a channel joined by FIFO links (section 5.2 of RFC 4254): the window that
  one end has open always covers what the other may still send.
*/
module FlowControl {
  import opened Wrappers
  import opened Bytes
  import opened NumberTheory
  import opened ChannelSpec

  // ------------------------------------------------------- messages in flight

  /** What a stretch of messages carries: data bytes, window granted, and the two streams. */
  datatype Sum = Sum(data: nat, grants: nat, normal: seq<byte>, extended: seq<byte>)

  function Zero(): Sum { Sum(0, 0, [], []) }

  function Plus(a: Sum, b: Sum): Sum {
    Sum(a.data + b.data, a.grants + b.grants, a.normal + b.normal, a.extended + b.extended)
  }

  function Weight(m: Msg): Sum {
    match m
    case Data(ext, b) => if ext then Sum(|b|, 0, [], b) else Sum(|b|, 0, b, [])
    case Adjust(n) => Sum(0, n, [], [])
    case Confirm(w, _) => Sum(0, w, [], [])
    case OpenFailure => Zero()
    case Eof => Zero()
    case Close => Zero()
  }

  function Total(f: seq<Msg>): Sum {
    if f == [] then Zero() else Plus(Weight(f[0]), Total(f[1..]))
  }

  lemma PlusZero(a: Sum)
    ensures Plus(a, Zero()) == a && Plus(Zero(), a) == a
  {
  }

  lemma PlusAssoc(a: Sum, b: Sum, c: Sum)
    ensures Plus(Plus(a, b), c) == Plus(a, Plus(b, c))
  {
    assert a.normal + b.normal + c.normal == a.normal + (b.normal + c.normal);
    assert a.extended + b.extended + c.extended == a.extended + (b.extended + c.extended);
  }

  lemma TotalOne(m: Msg)
    ensures Total([m]) == Weight(m)
  {
    hide Weight, Plus;
    assert [m][1..] == [];
    PlusZero(Weight(m));
  }

  lemma {:induction false} TotalConcat(f: seq<Msg>, g: seq<Msg>)
    ensures Total(f + g) == Plus(Total(f), Total(g))
    decreases |f|
  {
    if f == [] {
      assert f + g == g;
      PlusZero(Total(g));
    } else {
      assert (f + g)[1..] == f[1..] + g;
      TotalConcat(f[1..], g);
      PlusAssoc(Weight(f[0]), Total(f[1..]), Total(g));
    }
  }

  /** Data bytes are the bytes of the two streams. */
  lemma {:induction false} DataIsStreams(f: seq<Msg>)
    ensures Total(f).data == |Total(f).normal| + |Total(f).extended|
    decreases |f|
  {
    if f != [] { DataIsStreams(f[1..]); }
  }

  lemma LegalOne(m: Msg, e: bool, c: bool)
    requires !c && (m.Data? || m.Eof? ==> !e)
    ensures Legal([m], e, c, e || m.Eof? || m.Close?, m.Close?)
  {
    assert [m][1..] == [];
    assert Legal([], e || m.Eof? || m.Close?, m.Close?, e || m.Eof? || m.Close?, m.Close?);
  }

  /** The answers to a request to open a channel. */
  predicate Reply(m: Msg) { m.Confirm? || m.OpenFailure? }

  predicate NoReply(f: seq<Msg>) {
    forall i :: 0 <= i < |f| ==> !Reply(f[i])
  }

  /** No data and no second EOF after EOF, and nothing after CLOSE: f takes a receiver that has seen EOF and
      CLOSE (e, c) to one that has seen (e1, c1). */
  predicate Legal(f: seq<Msg>, e: bool, c: bool, e1: bool, c1: bool)
    decreases |f|
  {
    if f == [] then e == e1 && c == c1
    else
      !c && (f[0].Data? || f[0].Eof? ==> !e)
      && Legal(f[1..], e || f[0].Eof? || f[0].Close?, f[0].Close?, e1, c1)
  }

  lemma {:induction false} LegalConcat(f: seq<Msg>, g: seq<Msg>, e: bool, c: bool, e1: bool, c1: bool, e2: bool, c2: bool)
    requires Legal(f, e, c, e1, c1) && Legal(g, e1, c1, e2, c2)
    ensures Legal(f + g, e, c, e2, c2)
    decreases |f|
  {
    if f == [] {
      assert f + g == g;
    } else {
      assert (f + g)[1..] == f[1..] + g;
      LegalConcat(f[1..], g, e || f[0].Eof? || f[0].Close?, f[0].Close?, e1, c1, e2, c2);
    }
  }

  // -------------------------------------------------------------- invariants

  /** The conservation law of one end: window open, window not yet given back, and bytes
      held add up to the configured window. */
  predicate WinOK(w: Win, b: Bufs) {
    && 0 < w.window <= MAX_RECV_WINDOW && w.recv + w.done + Held(b) == w.window
    && (w.done == 0 || w.done < Extend(w))
  }

  predicate FdsOK(c: Chan) {
    && (c.fl.sentEof ==> ReadersClosed(c))
    && (c.fl.sentClose ==> c.fl.sentEof && c.fds.read == c.fds.write == c.fds.err == FD_CLOSED)
    && (c.fl.removed ==> c.fl.failed || (c.fl.recvClose && c.fl.sentClose)) && (c.fl.recvClose ==> c.fl.recvEof)
    && (c.fl.failed ==> c.fl.removed)
    && (c.fl.initconn ==> c.fds.read == FD_UNINIT && c.fds.err == FD_CLOSED && c.bufs.extra.None?)
    && (c.fds.separate ==> c.fds.err == FD_CLOSED && c.bufs.extra.None?)
  }

  predicate ChanOK(c: Chan) {
    WinOK(c.win, c.bufs) && FdsOK(c)
  }

  /** What an end has received in each stream, and not lost. */
  function Stream(c: Chan): seq<byte> { c.hist.given + c.bufs.main }
  function StreamErr(c: Chan): seq<byte> { c.hist.givenErr + if c.bufs.extra.Some? then c.bufs.extra.value else [] }

  /** Window not yet announced, because the connection is still being made. */
  function Unannounced(c: Chan): nat { if c.fl.initconn then c.win.window else 0 }

  /** The credit law of the direction from x to y, with f on the way to y and g to x. */
  predicate Credit(x: Chan, y: Chan, f: Sum, g: Sum) {
    && y.win.recv == x.win.trans + f.data + g.grants + y.hist.dropped + Unannounced(y)
    && y.hist.granted == |x.hist.taken| + |x.hist.takenErr| + x.win.trans + g.grants + Unannounced(y)
  }

  predicate Intact(x: Chan, y: Chan, f: Sum) {
    y.hist.dropped == 0 ==> Stream(y) + f.normal == x.hist.taken && StreamErr(y) + f.extended == x.hist.takenErr
  }

  predicate Ordered(x: Flags, y: Flags, f: seq<Msg>) {
    Legal(f, y.recvEof, y.recvClose, x.sentEof, x.sentClose)
  }

  /** An opener that still awaits confirmation has neither sent nor received anything. */
  predicate Untouched(x: Chan) {
    && x.win.trans == 0 && !x.fl.recvEof && !x.fl.recvClose && !x.fl.sentEof && !x.fl.sentClose && !x.fl.initconn
    && !x.fl.failed && Held(x.bufs) == 0 && x.fds.read != FD_CLOSED
  }

  predicate Waiting(x: Chan, y: Chan, f: seq<Msg>, g: seq<Msg>) {
    if x.fl.awaitOpen then
      && f == [] && Untouched(x) && y.win.recv == y.win.window && y.hist.dropped == 0
      && if y.fl.failed then g == [OpenFailure]
         else if y.fl.initconn then g == []
         else g != [] && g[0].Confirm? && NoReply(g[1..])
    else NoReply(g) && (y.fl.initconn ==> y.fl.failed)
  }

  /** Nothing is on its way to an end whose channel failed to open, and the other end either
      does not know yet or has given up too. */
  predicate FailedOK(x: Flags, y: Flags, f: seq<Msg>) {
    y.failed ==> f == [] && (x.awaitOpen || x.failed)
  }

  predicate Direction(x: Chan, y: Chan, f: seq<Msg>, g: seq<Msg>) {
    && Credit(x, y, Total(f), Total(g)) && Intact(x, y, Total(f)) && Ordered(x.fl, y.fl, f) && Waiting(x, y, f, g)
    && FailedOK(x.fl, y.fl, f)
  }

  // -------------------------------------------- what one end does by itself

  /** The change from x to z, emitting messages of total t, as its numbers show it. */
  predicate Moves(x: Chan, z: Chan, t: Sum) {
    && z.win.window == x.win.window && z.hist.dropped == x.hist.dropped
    && z.fl.awaitOpen == x.fl.awaitOpen && z.fl.initconn == x.fl.initconn && z.fl.failed == x.fl.failed
    && z.fl.recvEof == x.fl.recvEof && z.fl.recvClose == x.fl.recvClose
    && z.win.trans + t.data == x.win.trans
    && z.hist.taken == x.hist.taken + t.normal && z.hist.takenErr == x.hist.takenErr + t.extended
    && z.win.recv == x.win.recv + t.grants && z.hist.granted == x.hist.granted + t.grants
    && Stream(z) == Stream(x) && StreamErr(z) == StreamErr(x)
    && (t.grants == 0 || Held(x.bufs) > 0)
  }

  predicate Emits(x: Chan, z: Chan, out: seq<Msg>) {
    && Moves(x, z, Total(out)) && NoReply(out)
    && Legal(out, x.fl.sentEof, x.fl.sentClose, z.fl.sentEof, z.fl.sentClose)
  }

  /** A lawful step: it exits never, keeps the end's invariant, and emits what it says. */
  predicate Lawful(x: Chan, r: Result) {
    r.Done? && ChanOK(r.ch) && Emits(x, r.ch, r.out)
  }

  lemma Silent(x: Chan, z: Chan)
    requires Moves(x, z, Zero()) && z.fl.sentEof == x.fl.sentEof && z.fl.sentClose == x.fl.sentClose
    ensures Emits(x, z, [])
  {
  }

  lemma MovesZero(x: Chan)
    ensures Moves(x, x, Zero())
  {
    assert x.hist.taken + [] == x.hist.taken && x.hist.takenErr + [] == x.hist.takenErr;
  }

  lemma LawfulIdle(x: Chan)
    requires ChanOK(x)
    ensures Lawful(x, Done(x, []))
  {
    MovesZero(x);
    Silent(x, x);
  }

  lemma EmitsOne(x: Chan, z: Chan, m: Msg)
    requires Moves(x, z, Weight(m)) && !Reply(m)
    requires !x.fl.sentClose && (m.Data? || m.Eof? ==> !x.fl.sentEof)
    requires z.fl.sentEof == (x.fl.sentEof || m.Eof? || m.Close?) && z.fl.sentClose == m.Close?
    ensures Emits(x, z, [m])
  {
    hide Moves, Weight, Total, Legal;
    TotalOne(m);
    LegalOne(m, x.fl.sentEof, x.fl.sentClose);
  }

  lemma MovesTwice(x: Chan, y: Chan, z: Chan, s: Sum, t: Sum)
    requires Moves(x, y, s) && Moves(y, z, t) && t.grants == 0
    ensures Moves(x, z, Plus(s, t))
  {
    assert x.hist.taken + s.normal + t.normal == x.hist.taken + (s.normal + t.normal);
    assert x.hist.takenErr + s.extended + t.extended == x.hist.takenErr + (s.extended + t.extended);
  }

  lemma EmitsTwice(x: Chan, y: Chan, z: Chan, o: seq<Msg>, p: seq<Msg>)
    requires Emits(x, y, o) && Emits(y, z, p) && Total(p).grants == 0
    ensures Emits(x, z, o + p)
  {
    hide Moves, Total, Legal;
    TotalConcat(o, p);
    MovesTwice(x, y, z, Total(o), Total(p));
    LegalConcat(o, p, x.fl.sentEof, x.fl.sentClose, y.fl.sentEof, y.fl.sentClose, z.fl.sentEof, z.fl.sentClose);
  }

  /** A lawful step that grants no window. */
  predicate Plain(x: Chan, r: Result) {
    Lawful(x, r) && Total(r.out).grants == 0
  }

  lemma ThenPlain(x: Chan, r: Result, next: Chan -> Result)
    requires Plain(x, r) && Plain(r.ch, next(r.ch))
    ensures Plain(x, Then(r, next))
  {
    hide Emits, Total, ChanOK;
    var s := next(r.ch);
    EmitsTwice(x, r.ch, s.ch, r.out, s.out);
    TotalConcat(r.out, s.out);
  }

  lemma PlainIdle(x: Chan)
    requires ChanOK(x)
    ensures Plain(x, Done(x, []))
  {
    LawfulIdle(x);
  }

  lemma PlainOne(x: Chan, z: Chan, m: Msg)
    requires ChanOK(z) && Emits(x, z, [m]) && Weight(m).grants == 0
    ensures Plain(x, Done(z, [m]))
  {
    TotalOne(m);
  }

  lemma ClosedFd(c: Chan, fd: int, rd: bool)
    requires ChanOK(c) && !c.fl.initconn
    ensures Plain(c, Done(CloseFd(c, fd, rd), []))
  {
    MovesZero(c);
    Silent(c, CloseFd(c, fd, rd));
  }

  lemma PlainAfter(a: Chan, b: Chan, r: Result)
    requires Plain(a, Done(b, [])) && Plain(b, r)
    ensures Plain(a, r)
  {
    hide Emits, Total, ChanOK;
    EmitsTwice(a, b, r.ch, [], r.out);
    assert [] + r.out == r.out;
  }

  lemma PlainBefore(a: Chan, r: Result, z: Chan)
    requires Plain(a, r) && Plain(r.ch, Done(z, []))
    ensures Plain(a, Done(z, r.out))
  {
    hide Emits, Total, ChanOK;
    EmitsTwice(a, r.ch, z, r.out, []);
    assert r.out + [] == r.out;
  }

  lemma Taken(c: Chan, ext: bool, b: seq<byte>)
    requires ChanOK(c) && CanRead(c, ext) && |b| <= c.win.trans
    ensures Plain(c, Done(TakeIn(c, ext, b), [Data(ext, b)])) && !c.fl.initconn
  {
    assert c.hist.taken + [] == c.hist.taken && c.hist.takenErr + [] == c.hist.takenErr;
    EmitsOne(c, TakeIn(c, ext, b), Data(ext, b));
    PlainOne(c, TakeIn(c, ext, b), Data(ext, b));
  }

  lemma Sent(c: Chan, ext: bool, inp: Input)
    requires ChanOK(c) && CanRead(c, ext)
    ensures Plain(c, SendData(c, ext, inp))
  {
    hide Plain, CloseFd, TakeIn;
    var fd := Source(c, ext);
    var maxlen := MaxLen(c.win, ext);
    PlainIdle(c);
    if inp.bytes == [] {
      ClosedFd(c, fd, true);
    } else {
      var b := inp.bytes[..Min(maxlen, |inp.bytes|)];
      Taken(c, ext, b);
      ClosedAfter(c, TakeIn(c, ext, b), [Data(ext, b)], fd);
    }
  }

  lemma ClosedAfter(c: Chan, d: Chan, out: seq<Msg>, fd: int)
    requires Plain(c, Done(d, out)) && !c.fl.initconn
    ensures Plain(c, Done(CloseFd(d, fd, true), out))
  {
    hide CloseFd;
    ClosedFd(d, fd, true);
    PlainBefore(c, Done(d, out), CloseFd(d, fd, true));
  }

  lemma SplitMoved(g: seq<byte>, q: seq<byte>, n: nat)
    requires n <= |q|
    ensures (g + q[..n]) + q[n..] == g + q
  {
  }

  lemma TookOut(c: Chan, ext: bool, n: nat)
    requires (ext ==> c.bufs.extra.Some?) && n <= |Buf(c.bufs, ext)|
    ensures var d := TakeOut(c, ext, n);
      && Stream(d) == Stream(c) && StreamErr(d) == StreamErr(c) && Held(d.bufs) + n == Held(c.bufs)
  {
    if ext { SplitMoved(c.hist.givenErr, c.bufs.extra.value, n); } else { SplitMoved(c.hist.given, c.bufs.main, n); }
  }

  /** writechannel keeps the window within the configured size and within the room of both
      buffers: its three assertions. */
  lemma WroteWindows(c: Chan, ext: bool, n: nat)
    requires ChanOK(c) && CanWrite(c, ext) && 0 < n <= |Buf(c.bufs, ext)|
    ensures var r := Wrote(c, ext, n).ch;
      && ChanOK(r) && r.win.recv <= c.win.window && r.win.recv <= c.win.window - |r.bufs.main|
      && (r.bufs.extra.Some? ==> r.win.recv <= c.win.window - |r.bufs.extra.value|)
  {
    TookOut(c, ext, n);
  }

  lemma WroteMoves(c: Chan, ext: bool, n: nat)
    requires (ext ==> c.bufs.extra.Some?) && 0 < n <= |Buf(c.bufs, ext)|
    ensures var done := c.win.done + n;
      Moves(c, Wrote(c, ext, n).ch, if done >= Extend(c.win) then Weight(Adjust(done)) else Zero())
  {
    TookOut(c, ext, n);
    assert c.hist.taken + [] == c.hist.taken && c.hist.takenErr + [] == c.hist.takenErr;
  }

  lemma WroteLawful(c: Chan, ext: bool, n: nat)
    requires ChanOK(c) && CanWrite(c, ext) && 0 < n <= |Buf(c.bufs, ext)|
    ensures Lawful(c, Wrote(c, ext, n))
  {
    hide Moves, TakeOut;
    WroteWindows(c, ext, n);
    WroteMoves(c, ext, n);
    var z := Wrote(c, ext, n).ch;
    assert z.fl == c.fl && c.win == TakeOut(c, ext, n).win && TakeOut(c, ext, n).fl == c.fl by { TakeOutKeeps(c, ext, n); }
    var done := c.win.done + n;
    if done >= Extend(c.win) { EmitsOne(c, z, Adjust(done)); } else { Silent(c, z); }
  }

  lemma TakeOutKeeps(c: Chan, ext: bool, n: nat)
    requires (ext ==> c.bufs.extra.Some?) && n <= |Buf(c.bufs, ext)|
    ensures TakeOut(c, ext, n).fl == c.fl && TakeOut(c, ext, n).win == c.win && Wrote(c, ext, n).ch.fl == c.fl
  {
  }

  lemma SentClose(c: Chan, hasHandler: bool)
    requires ChanOK(c) && !c.fl.sentClose && !c.fl.initconn
    ensures Plain(c, Done(SendClose(c, hasHandler), [Close]))
    ensures SendClose(c, hasHandler).fl.sentClose && SendClose(c, hasHandler).fl.recvClose == c.fl.recvClose
  {
    MovesZero(c);
    EmitsOne(c, SendClose(c, hasHandler), Close);
    PlainOne(c, SendClose(c, hasHandler), Close);
  }

  lemma EofOK(c: Chan)
    requires ChanOK(c)
    ensures Plain(c, SendEof(c))
  {
    PlainIdle(c);
    if !c.fl.sentEof && ReadersClosed(c) {
      MovesZero(c);
      var z := c.(fl := c.fl.(sentEof := true));
      EmitsOne(c, z, Eof);
      PlainOne(c, z, Eof);
    }
  }

  lemma MaybeCloseOK(c: Chan, k: Closing, allowed: bool)
    requires ChanOK(c)
    ensures Plain(c, MaybeClose(c, k, allowed))
  {
    hide Plain, SendClose;
    PlainIdle(c);
    if ReadersClosed(c) && !c.fl.sentClose { SentClose(c, k.hasHandler); }
  }

  lemma Flushed(c: Chan, k: Closing)
    requires ChanOK(c)
    ensures Plain(c, FlushOut(c, k)) && Plain(c, FlushErr(c, k))
  {
    hide Plain, SendData;
    PlainIdle(c);
    if c.fds.read >= 0 { Sent(c, false, k.out); }
    if ErrIsRead(c) && c.fds.err >= 0 { Sent(c, true, k.err); }
  }

  lemma Shut(c: Chan)
    requires ChanOK(c) && (c.fl.initconn ==> !c.fl.recvEof)
    ensures Plain(c, Done(ShutWriter(c), []))
  {
    hide Plain, CloseFd;
    PlainIdle(c);
    if c.fl.recvEof { ClosedFd(c, c.fds.write, false); }
  }

  lemma RemovedOK(c: Chan)
    requires ChanOK(c) && c.fl.recvClose && c.fl.sentClose
    ensures Plain(c, Done(Remove(c), []))
  {
    MovesZero(c);
    Silent(c, Remove(c));
  }

  lemma PlainOK(x: Chan, r: Result)
    requires Plain(x, r)
    ensures r.Done? && ChanOK(r.ch)
  {
  }

  /** check_close never exits, and is a lawful step. */
  lemma CheckedClose(c0: Chan, k: Closing)
    requires ChanOK(c0) && (c0.fl.initconn ==> !c0.fl.recvEof)
    ensures Plain(c0, CheckClose(c0, k))
  {
    hide Plain, CheckTail, SendClose, ShutWriter, WritePending;
    var c := StartFlushing(c0, k);
    assert Plain(c0, Done(c, [])) && ChanOK(c) by { Started(c0, k); }
    var allowed := CloseAllowed(c, k);
    if c.fl.recvClose && !WritePending(c) && allowed {
      CheckedRemove(c, k);
      PlainAfter(c0, c, if c.fl.sentClose then Done(Remove(c), []) else Done(Remove(SendClose(c, k.hasHandler)), [Close]));
    } else {
      CheckedTail(c, k, allowed);
      PlainAfter(c0, c, CheckTail(ShutWriter(c), k, allowed));
    }
  }

  lemma Started(c: Chan, k: Closing)
    requires ChanOK(c)
    ensures Plain(c, Done(StartFlushing(c, k), [])) && ChanOK(StartFlushing(c, k))
  {
    MovesZero(c);
    Silent(c, StartFlushing(c, k));
  }

  lemma CheckedRemove(c: Chan, k: Closing)
    requires ChanOK(c) && c.fl.recvClose && !c.fl.initconn
    ensures Plain(c, if c.fl.sentClose then Done(Remove(c), []) else Done(Remove(SendClose(c, k.hasHandler)), [Close]))
  {
    hide Plain, SendClose;
    if c.fl.sentClose {
      RemovedOK(c);
    } else {
      var d := SendClose(c, k.hasHandler);
      SentClose(c, k.hasHandler);
      PlainOK(c, Done(d, [Close]));
      RemovedOK(d);
      PlainBefore(c, Done(d, [Close]), Remove(d));
    }
  }

  lemma FlushedBoth(c: Chan, k: Closing)
    requires ChanOK(c)
    ensures Plain(c, FlushBoth(c, k))
  {
    hide Plain, FlushOut, FlushErr, Then;
    Flushed(c, k);
    PlainOK(c, FlushOut(c, k));
    Flushed(FlushOut(c, k).ch, k);
    ThenPlain(c, FlushOut(c, k), d => FlushErr(d, k));
  }

  lemma FinishingOK(c: Chan, k: Closing, allowed: bool)
    requires ChanOK(c)
    ensures Plain(c, Finishing(c, k, allowed))
  {
    hide Plain, SendEof, MaybeClose, Then;
    EofOK(c);
    PlainOK(c, SendEof(c));
    MaybeCloseOK(SendEof(c).ch, k, allowed);
    ThenPlain(c, SendEof(c), d => MaybeClose(d, k, allowed));
  }

  lemma CheckedTail(c: Chan, k: Closing, allowed: bool)
    requires ChanOK(c) && (c.fl.initconn ==> !c.fl.recvEof)
    ensures Plain(c, CheckTail(ShutWriter(c), k, allowed))
  {
    hide Plain, FlushBoth, Finishing, ShutWriter, Then;
    var d := ShutWriter(c);
    Shut(c);
    PlainOK(c, Done(d, []));
    FlushedBoth(d, k);
    PlainOK(d, FlushBoth(d, k));
    FinishingOK(FlushBoth(d, k).ch, k, allowed);
    ThenPlain(d, FlushBoth(d, k), x => Finishing(x, k, allowed));
    PlainAfter(c, d, CheckTail(d, k, allowed));
  }

  // ---------------------------------------------------------- the two ends

  /** Everything about a channel, seen from the end x. */
  predicate Half(x: Chan, y: Chan, f: seq<Msg>, g: seq<Msg>) {
    ChanOK(x) && ChanOK(y) && Direction(x, y, f, g) && Direction(y, x, g, f)
  }

  lemma AssocBytes(a: seq<byte>, b: seq<byte>, c: seq<byte>)
    ensures a + (b + c) == (a + b) + c
  {
  }

  lemma EmittedForward(x: Chan, y: Chan, f: seq<Msg>, g: seq<Msg>, z: Chan, out: seq<Msg>)
    requires Direction(x, y, f, g) && Emits(x, z, out) && (x.fl.awaitOpen ==> out == [] && Untouched(z)) && !x.fl.failed
    ensures Direction(z, y, f + out, g)
  {
    hide Legal, Total, Stream, StreamErr, Untouched;
    DataIsStreams(out);
    TotalConcat(f, out);
    LegalConcat(f, out, y.fl.recvEof, y.fl.recvClose, x.fl.sentEof, x.fl.sentClose, z.fl.sentEof, z.fl.sentClose);
    AssocBytes(Stream(y), Total(f).normal, Total(out).normal);
    AssocBytes(StreamErr(y), Total(f).extended, Total(out).extended);
  }

  lemma EmittedBack(x: Chan, y: Chan, f: seq<Msg>, g: seq<Msg>, z: Chan, out: seq<Msg>)
    requires ChanOK(x) && Direction(y, x, g, f) && Emits(x, z, out) && (x.fl.initconn ==> out == []) && !x.fl.failed
    ensures Direction(y, z, g, f + out)
  {
    hide Legal, Total, Stream, StreamErr, Untouched, FdsOK;
    TotalConcat(f, out);
    if y.fl.awaitOpen && !x.fl.initconn { assert (f + out)[1..] == f[1..] + out; }
  }

  lemma Emitted(x: Chan, y: Chan, f: seq<Msg>, g: seq<Msg>, r: Result)
    requires Half(x, y, f, g) && Lawful(x, r)
    requires x.fl.awaitOpen ==> r.out == [] && Untouched(r.ch)
    requires (x.fl.initconn ==> r.out == []) && !x.fl.failed
    ensures Half(r.ch, y, f + r.out, g)
  {
    hide Direction, Emits, ChanOK, Untouched;
    EmittedForward(x, y, f, g, r.ch, r.out);
    EmittedBack(x, y, f, g, r.ch, r.out);
  }

  /** While it awaits confirmation an end sends nothing. */
  lemma AwaitQuiet(x: Chan, k: Closing)
    requires ChanOK(x) && Untouched(x)
    ensures var r := CheckClose(x, k); r.Done? && r.out == [] && Untouched(r.ch)
  {
  }

  /** While a connection is being made an end sends nothing. */
  lemma InitQuiet(x: Chan, k: Closing)
    requires ChanOK(x) && x.fl.initconn && !x.fl.recvEof
    ensures var r := CheckClose(x, k); r.Done? && r.out == []
  {
  }

  lemma InitNotReceived(x: Chan, y: Chan, f: seq<Msg>, g: seq<Msg>)
    requires Half(x, y, f, g) && x.fl.initconn && !x.fl.failed
    ensures !x.fl.recvEof && Held(x.bufs) == 0 && x.win.recv == x.win.window && y.fl.awaitOpen && !x.fl.awaitOpen
  {
    assert g == [] && Legal(g, x.fl.recvEof, x.fl.recvClose, y.fl.sentEof, y.fl.sentClose);
  }

  lemma CheckStep(x: Chan, y: Chan, f: seq<Msg>, g: seq<Msg>, k: Closing)
    requires Half(x, y, f, g) && !x.fl.failed
    ensures var r := CheckClose(x, k); r.Done? && Half(r.ch, y, f + r.out, g)
  {
    hide CheckClose, Emits, FdsOK, WinOK;
    if x.fl.initconn {
      InitNotReceived(x, y, f, g);
      InitQuiet(x, k);
    }
    if x.fl.awaitOpen { AwaitQuiet(x, k); }
    CheckedClose(x, k);
    hide Half;
    Emitted(x, y, f, g, CheckClose(x, k));
  }

  /** The connection is made: the window that was held back is announced. */
  lemma ConnectedStep(x: Chan, y: Chan, f: seq<Msg>, g: seq<Msg>, p: nat)
    requires Half(x, y, f, g) && x.fl.initconn && !x.fl.removed && x.fds.write >= 0
    ensures var r := React(x, Connected(p)); r.Done? && Half(r.ch, y, f + r.out, g)
  {
    InitNotReceived(x, y, f, g);
    assert f == [] && g == [];
    var m := Confirm(x.win.recv, p);
    TotalOne(m);
    LegalOne(m, x.fl.sentEof, x.fl.sentClose);
    assert [] + [m] == [m] && [m][1..] == [];
  }

  /** The connection fails: the opener is told, and the entry goes. */
  lemma ConnectFailedStep(x: Chan, y: Chan, f: seq<Msg>, g: seq<Msg>)
    requires Half(x, y, f, g) && x.fl.initconn && !x.fl.removed && x.fds.write >= 0
    ensures var r := React(x, ConnectFailed); r.Done? && Half(r.ch, y, f + r.out, g)
  {
    hide Total, Legal, Stream, StreamErr, WinOK;
    InitNotReceived(x, y, f, g);
    NotFailed(x, y, f, g);
    assert f == [] && g == [];
    NothingMeans(x.fl.recvEof, x.fl.recvClose, y.fl.sentEof, y.fl.sentClose);
    NothingMeans(y.fl.recvEof, y.fl.recvClose, x.fl.sentEof, x.fl.sentClose);
    TotalOne(OpenFailure);
    LegalOne(OpenFailure, y.fl.recvEof, y.fl.recvClose);
    assert [] + [OpenFailure] == [OpenFailure];
    SameStreams(x, Fail(x));
  }

  lemma NothingMeans(e: bool, c: bool, e1: bool, c1: bool)
    ensures Total([]) == Zero() && (Legal([], e, c, e1, c1) <==> e == e1 && c == c1)
  {
  }

  /** The opener learns of it. */
  lemma OpenFailureStep(x: Chan, y: Chan, f: seq<Msg>, g: seq<Msg>)
    requires Half(x, y, f, g) && g != [] && g[0].OpenFailure?
    ensures var r := RecvOpenFailure(x); r.Done? && r.out == [] && Half(r.ch, y, f, g[1..])
  {
    hide Total, Legal, Stream, StreamErr, WinOK;
    HeadLegal(x, y, f, g);
    LegalTail(g, x.fl.recvEof, x.fl.recvClose, y.fl.sentEof, y.fl.sentClose);
    assert g == [OpenFailure] && g[1..] == [];
    TotalOne(OpenFailure);
    NothingMeans(x.fl.recvEof, x.fl.recvClose, y.fl.sentEof, y.fl.sentClose);
    SameStreams(x, Fail(x));
  }

  lemma SetupLawful(c: Chan, wfd: int, rfd: int, efd: int)
    requires ChanOK(c) && CanSetup(c, wfd, rfd, efd)
    ensures Plain(c, Done(c.(fds := Fds(wfd, rfd, efd, c.fds.separate)), []))
  {
    MovesZero(c);
    Silent(c, c.(fds := Fds(wfd, rfd, efd, c.fds.separate)));
  }

  /** Whatever the event loop does to an end, the laws of both directions hold. */
  lemma ReactStep(x: Chan, y: Chan, f: seq<Msg>, g: seq<Msg>, ev: Event)
    requires Half(x, y, f, g)
    ensures var r := React(x, ev); r.Done? && Half(r.ch, y, f + r.out, g)
  {
    hide Half, ChanOK, Direction, Lawful, CheckClose, SendData, Wrote, CloseFd, Stream, StreamErr, Legal, Total, Emits;
    assert f + [] == f;
    if !x.fl.removed {
      assert !x.fl.failed by { NotFailed(x, y, f, g); }
      match ev
      case Read(ext, inp) => if CanRead(x, ext) && x.win.trans > 0 { ReadStep(x, y, f, g, ext, inp); }
      case Write(ext, n) => if CanWrite(x, ext) && 0 < n <= |Buf(x.bufs, ext)| { WriteStep(x, y, f, g, ext, n); }
      case WriteError(ext) => if CanWrite(x, ext) { ErrorStep(x, y, f, g, ext); }
      case Check(k) => CheckStep(x, y, f, g, k);
      case Connected(p) => if x.fl.initconn && x.fds.write >= 0 { ConnectedStep(x, y, f, g, p); }
      case ConnectFailed => if x.fl.initconn && x.fds.write >= 0 { ConnectFailedStep(x, y, f, g); }
      case Setup(wfd, rfd, efd) => if CanSetup(x, wfd, rfd, efd) { SetupStep(x, y, f, g, wfd, rfd, efd); }
    }
  }

  lemma NotFailed(x: Chan, y: Chan, f: seq<Msg>, g: seq<Msg>)
    requires Half(x, y, f, g) && !x.fl.removed
    ensures !x.fl.failed
  {
  }

  lemma NotWaiting(x: Chan, y: Chan, f: seq<Msg>, g: seq<Msg>)
    requires Half(x, y, f, g) && (x.win.trans > 0 || Held(x.bufs) > 0)
    ensures !x.fl.awaitOpen
  {
  }

  lemma ReadStep(x: Chan, y: Chan, f: seq<Msg>, g: seq<Msg>, ext: bool, inp: Input)
    requires Half(x, y, f, g) && !x.fl.failed && CanRead(x, ext) && x.win.trans > 0
    ensures var r := SendData(x, ext, inp); r.Done? && Half(r.ch, y, f + r.out, g)
  {
    hide Direction, SendData, Emits, Total;
    NotWaiting(x, y, f, g);
    Sent(x, ext, inp);
    Emitted(x, y, f, g, SendData(x, ext, inp));
  }

  lemma WriteStep(x: Chan, y: Chan, f: seq<Msg>, g: seq<Msg>, ext: bool, n: nat)
    requires Half(x, y, f, g) && !x.fl.failed && CanWrite(x, ext) && 0 < n <= |Buf(x.bufs, ext)|
    ensures var r := Wrote(x, ext, n); r.Done? && Half(r.ch, y, f + r.out, g)
  {
    hide Direction, Wrote, Emits, Total;
    NotWaiting(x, y, f, g);
    if x.fl.initconn { InitNotReceived(x, y, f, g); }
    WroteLawful(x, ext, n);
    Emitted(x, y, f, g, Wrote(x, ext, n));
  }

  lemma ErrorStep(x: Chan, y: Chan, f: seq<Msg>, g: seq<Msg>, ext: bool)
    requires Half(x, y, f, g) && !x.fl.failed && CanWrite(x, ext)
    ensures Half(CloseFd(x, Sink(x, ext), false), y, f + [], g)
  {
    hide Direction, CloseFd, Emits, Total;
    NotWaiting(x, y, f, g);
    if x.fl.initconn { InitNotReceived(x, y, f, g); }
    ClosedFd(x, Sink(x, ext), false);
    Emitted(x, y, f, g, Done(CloseFd(x, Sink(x, ext), false), []));
  }

  lemma SetupStep(x: Chan, y: Chan, f: seq<Msg>, g: seq<Msg>, wfd: int, rfd: int, efd: int)
    requires Half(x, y, f, g) && !x.fl.failed && CanSetup(x, wfd, rfd, efd)
    ensures Half(x.(fds := Fds(wfd, rfd, efd, x.fds.separate)), y, f + [], g)
  {
    var z := x.(fds := Fds(wfd, rfd, efd, x.fds.separate));
    SetupLawful(x, wfd, rfd, efd);
    assert x.fl.awaitOpen ==> Untouched(z);
    Emitted(x, y, f, g, Done(z, []));
  }

  // ---------------------------------------------------------------- receiving

  lemma TotalHead(g: seq<Msg>)
    requires g != []
    ensures Total(g) == Plus(Weight(g[0]), Total(g[1..]))
  {
  }

  /** The next message for an end is never out of order, and the end is still there. */
  lemma HeadLegal(x: Chan, y: Chan, f: seq<Msg>, g: seq<Msg>)
    requires Half(x, y, f, g) && g != []
    ensures !x.fl.removed && !x.fl.failed && !x.fl.recvClose && (g[0].Data? ==> !x.fl.recvEof) && !y.fl.awaitOpen
    ensures Reply(g[0]) <==> x.fl.awaitOpen
    ensures NoReply(g[1..])
  {
    if !x.fl.awaitOpen { assert forall i :: 0 <= i < |g| - 1 ==> g[1..][i] == g[i + 1]; }
  }

  lemma DataStored(x: Chan, ext: bool, b: seq<byte>)
    requires ChanOK(x) && (ext ==> x.bufs.extra.Some?) && |b| <= x.win.recv
    ensures var z := x.(win := x.win.(recv := x.win.recv - |b|), bufs := SetBuf(x.bufs, ext, Buf(x.bufs, ext) + b));
      && ChanOK(z)
      && Stream(z) == Stream(x) + (if ext then [] else b) && StreamErr(z) == StreamErr(x) + (if ext then b else [])
  {
    if ext {
      AssocBytes(x.hist.givenErr, x.bufs.extra.value, b);
    } else {
      AssocBytes(x.hist.given, x.bufs.main, b);
    }
    assert Stream(x) + [] == Stream(x) && StreamErr(x) + [] == StreamErr(x);
  }

  /** Incoming data is within the window, so neither the oversize exit nor the assertion fires. */
  lemma DataStep(x: Chan, y: Chan, f: seq<Msg>, g: seq<Msg>)
    requires Half(x, y, f, g) && g != [] && g[0].Data?
    ensures var r := RecvData(x, g[0].extended, g[0].bytes); r.Done? && r.out == [] && Half(r.ch, y, f, g[1..])
  {
    hide Stream, StreamErr, Total, Legal, FdsOK;
    var ext, b := g[0].extended, g[0].bytes;
    HeadLegal(x, y, f, g);
    TotalHead(g);
    LegalTail(g, x.fl.recvEof, x.fl.recvClose, y.fl.sentEof, y.fl.sentClose);
    var r := RecvData(x, ext, b);
    if (ext && x.bufs.extra.None?) || Sink(x, ext) < 0 {
      DroppedStep(x, y, f, g);
    } else {
      assert |b| <= x.win.recv;
      DataStored(x, ext, b);
      StoredStep(x, y, f, g);
    }
  }

  lemma LegalTail(g: seq<Msg>, e: bool, c: bool, e1: bool, c1: bool)
    requires g != [] && Legal(g, e, c, e1, c1)
    ensures !c && Legal(g[1..], e || g[0].Eof? || g[0].Close?, g[0].Close?, e1, c1)
  {
  }

  lemma DroppedStep(x: Chan, y: Chan, f: seq<Msg>, g: seq<Msg>)
    requires Half(x, y, f, g) && g != [] && g[0].Data?
    ensures Half(Drop(x, |g[0].bytes|), y, f, g[1..])
  {
    hide Total, Legal, FdsOK, WinOK, Stream, StreamErr;
    HeadLegal(x, y, f, g);
    TotalHead(g);
    LegalTail(g, x.fl.recvEof, x.fl.recvClose, y.fl.sentEof, y.fl.sentClose);
    var z := Drop(x, |g[0].bytes|);
    assert ChanOK(z) && Stream(z) == Stream(x) && StreamErr(z) == StreamErr(x) by { DropKeeps(x, |g[0].bytes|); }
    if |g[0].bytes| == 0 {
      var t := Total(g[1..]);
      assert [] + t.normal == t.normal && [] + t.extended == t.extended;
    }
  }

  lemma DropKeeps(x: Chan, n: nat)
    requires ChanOK(x)
    ensures ChanOK(Drop(x, n)) && Stream(Drop(x, n)) == Stream(x) && StreamErr(Drop(x, n)) == StreamErr(x)
  {
  }

  lemma StoredStep(x: Chan, y: Chan, f: seq<Msg>, g: seq<Msg>)
    requires Half(x, y, f, g) && g != [] && g[0].Data?
    requires (g[0].extended ==> x.bufs.extra.Some?) && |g[0].bytes| <= x.win.recv
    ensures var b, ext := g[0].bytes, g[0].extended;
      Half(x.(win := x.win.(recv := x.win.recv - |b|), bufs := SetBuf(x.bufs, ext, Buf(x.bufs, ext) + b)), y, f, g[1..])
  {
    hide Total, Legal, FdsOK, WinOK, Stream, StreamErr;
    HeadLegal(x, y, f, g);
    TotalHead(g);
    LegalTail(g, x.fl.recvEof, x.fl.recvClose, y.fl.sentEof, y.fl.sentClose);
    var b, ext, t := g[0].bytes, g[0].extended, Total(g[1..]);
    DataStored(x, ext, b);
    AssocBytes(Stream(x), if ext then [] else b, t.normal);
    AssocBytes(StreamErr(x), if ext then b else [], t.extended);
  }

  /** The caps on the transmit window never bite between two Dropbears. */
  lemma AdjustStep(x: Chan, y: Chan, f: seq<Msg>, g: seq<Msg>)
    requires Half(x, y, f, g) && g != [] && g[0].Adjust?
    ensures RecvAdjust(x, g[0].incr).win.trans == x.win.trans + g[0].incr
    ensures Half(RecvAdjust(x, g[0].incr), y, f, g[1..])
  {
    hide Total, Legal, FdsOK, Stream, StreamErr;
    HeadLegal(x, y, f, g);
    TotalHead(g);
    LegalTail(g, x.fl.recvEof, x.fl.recvClose, y.fl.sentEof, y.fl.sentClose);
    var z, t := RecvAdjust(x, g[0].incr), Total(g[1..]);
    assert FdsOK(z) && Stream(z) == Stream(x) && StreamErr(z) == StreamErr(x) by { WinOnly(x, z); }
    assert [] + t.normal == t.normal && [] + t.extended == t.extended;
  }

  lemma WinOnly(x: Chan, z: Chan)
    requires FdsOK(x) && z == x.(win := z.win)
    ensures FdsOK(z) && Stream(z) == Stream(x) && StreamErr(z) == StreamErr(x)
  {
  }

  lemma ConfirmStep(x: Chan, y: Chan, f: seq<Msg>, g: seq<Msg>)
    requires Half(x, y, f, g) && g != [] && g[0].Confirm?
    ensures var r := RecvConfirm(x, g[0].window, g[0].maxpacket); r.Done? && r.out == [] && Half(r.ch, y, f, g[1..])
  {
    hide Total, Legal, Stream, StreamErr;
    HeadLegal(x, y, f, g);
    TotalHead(g);
    LegalTail(g, x.fl.recvEof, x.fl.recvClose, y.fl.sentEof, y.fl.sentClose);
    var z, t := RecvConfirm(x, g[0].window, g[0].maxpacket).ch, Total(g[1..]);
    assert Stream(z) == Stream(x) && StreamErr(z) == StreamErr(x) by { SameStreams(x, z); }
    assert [] + t.normal == t.normal && [] + t.extended == t.extended;
  }

  lemma SameStreams(x: Chan, z: Chan)
    requires z.hist == x.hist && z.bufs == x.bufs
    ensures Stream(z) == Stream(x) && StreamErr(z) == StreamErr(x)
  {
  }

  lemma EndStep(x: Chan, y: Chan, f: seq<Msg>, g: seq<Msg>)
    requires Half(x, y, f, g) && g != [] && (g[0].Eof? || g[0].Close?)
    ensures Half(x.(fl := x.fl.(recvEof := true, recvClose := g[0].Close?)), y, f, g[1..])
  {
    hide Total, Legal, Stream, StreamErr;
    HeadLegal(x, y, f, g);
    TotalHead(g);
    LegalTail(g, x.fl.recvEof, x.fl.recvClose, y.fl.sentEof, y.fl.sentClose);
    var z, t := x.(fl := x.fl.(recvEof := true, recvClose := g[0].Close?)), Total(g[1..]);
    assert Stream(z) == Stream(x) && StreamErr(z) == StreamErr(x) by { SameStreams(x, z); }
    assert [] + t.normal == t.normal && [] + t.extended == t.extended;
  }

  /** Receiving the next message never exits, and keeps the laws of both directions. */
  lemma ReceiveStep(x: Chan, y: Chan, f: seq<Msg>, g: seq<Msg>, k: Closing)
    requires Half(x, y, f, g) && g != []
    ensures var r := Receive(x, g[0], k); r.Done? && Half(r.ch, y, f + r.out, g[1..])
  {
    hide Half, CheckClose, RecvData, RecvAdjust, RecvConfirm, RecvOpenFailure;
    HeadLegal(x, y, f, g);
    assert f + [] == f;
    match g[0]
    case Data(ext, b) => DataStep(x, y, f, g);
    case Adjust(n) => AdjustStep(x, y, f, g);
    case Confirm(w, p) => ConfirmStep(x, y, f, g);
    case OpenFailure => OpenFailureStep(x, y, f, g);
    case Eof =>
      EndStep(x, y, f, g);
      assert x.(fl := x.fl.(recvEof := true, recvClose := false)) == x.(fl := x.fl.(recvEof := true));
      CheckStep(x.(fl := x.fl.(recvEof := true)), y, f, g[1..], k);
    case Close =>
      EndStep(x, y, f, g);
      CheckStep(x.(fl := x.fl.(recvEof := true, recvClose := true)), y, f, g[1..], k);
  }

  // ---------------------------------------------------------------- all runs

  datatype Pair = Pair(a: Chan, b: Chan, ab: seq<Msg>, ba: seq<Msg>, fault: Option<Fault>)

  datatype Action = Local(ev: Event) | Incoming(k: Closing)

  datatype Choice = Choice(left: bool, act: Action)

  function StepA(p: Pair, act: Action): Pair {
    if act.Incoming? && p.ba == [] then p
    else
      match if act.Local? then React(p.a, act.ev) else Receive(p.a, p.ba[0], act.k)
      case Quit(why) => p.(fault := Some(why))
      case Done(z, out) => p.(a := z, ab := p.ab + out, ba := if act.Incoming? then p.ba[1..] else p.ba)
  }

  function Mirror(p: Pair): Pair { Pair(p.b, p.a, p.ba, p.ab, p.fault) }

  function Step(p: Pair, c: Choice): Pair {
    if p.fault.Some? then p else if c.left then StepA(p, c.act) else Mirror(StepA(Mirror(p), c.act))
  }

  function Exec(p: Pair, run: seq<Choice>): Pair
    decreases |run|
  {
    if run == [] then p else Step(Exec(p, run[..|run| - 1]), run[|run| - 1])
  }

  predicate Good(p: Pair) {
    p.fault.None? && Half(p.a, p.b, p.ab, p.ba)
  }

  /** How a channel starts: the opener waits, and the other end has just made its entry; its
      connection is either still in progress or confirmed, or it has refused the request and
      kept no entry. `stderr` says which end, if any,
      has a buffer for extended data. */
  datatype Opening = Opening(windowA: nat, windowB: nat, maxA: nat, maxB: nat, separateA: bool, separateB: bool,
                             stderrA: bool, stderrB: bool, inProgress: bool, refused: bool, fd: int)

  predicate GoodOpening(o: Opening) {
    && 0 < o.windowA <= MAX_RECV_WINDOW && 0 < o.windowB <= MAX_RECV_WINDOW
    && !(o.separateA && o.stderrA) && !(o.separateB && o.stderrB) && !((o.inProgress || o.refused) && o.stderrB)
  }

  function WithErr(c: Chan, stderr: bool): Chan {
    c.(bufs := c.bufs.(extra := if stderr then Some([]) else None))
  }

  function Start(o: Opening): Pair {
    var a := NewChan(o.windowA, 0, 0, o.separateA);
    var b := NewChan(o.windowB, Min(o.windowA, TRANS_MAX_WINDOW), Min(o.maxB, TRANS_MAX_PAYLOAD_LEN), o.separateB);
    Pair(WithErr(a.(fl := a.fl.(awaitOpen := true)), o.stderrA),
         WithErr(if o.refused then Fail(b.(fl := b.fl.(initconn := true)))
                 else if o.inProgress then b.(fl := b.fl.(initconn := true), fds := b.fds.(write := o.fd))
                 else b, o.stderrB),
         [], if o.refused then [OpenFailure] else if o.inProgress then [] else [Confirm(o.windowB, o.maxA)], None)
  }

  lemma StartGood(o: Opening)
    requires GoodOpening(o)
    ensures Good(Start(o))
  {
    hide Total, Legal;
    var m := if o.refused then OpenFailure else Confirm(o.windowB, o.maxA);
    TotalOne(m);
    LegalOne(m, false, false);
    NothingMeans(false, false, false, false);
    assert [m][1..] == [];
  }

  lemma StepGood(p: Pair, c: Choice)
    requires Good(p)
    ensures Good(Step(p, c))
  {
    hide ChanOK, Direction, React, Receive;
    var q := if c.left then p else Mirror(p);
    assert Good(q);
    if c.act.Local? {
      ReactStep(q.a, q.b, q.ab, q.ba, c.act.ev);
    } else if q.ba != [] {
      ReceiveStep(q.a, q.b, q.ab, q.ba, c.act.k);
    }
    assert Good(StepA(q, c.act));
  }

  /** Every reachable state obeys the laws: no exit and no failed assertion, in any run. */
  lemma {:induction false} RunGood(o: Opening, run: seq<Choice>)
    requires GoodOpening(o)
    ensures Good(Exec(Start(o), run))
    decreases |run|
  {
    hide Good, Step;
    if run == [] {
      StartGood(o);
    } else {
      RunGood(o, run[..|run| - 1]);
      StepGood(Exec(Start(o), run[..|run| - 1]), run[|run| - 1]);
    }
  }

  // ------------------------------------------------------------------ results

  /** In every run neither end ever exits: no data after EOF, no oversized packet, no failed
      window or close assertion, no message for a channel already removed. */
  lemma NeverExits(o: Opening, run: seq<Choice>)
    requires GoodOpening(o)
    ensures Exec(Start(o), run).fault.None?
  {
    RunGood(o, run);
  }

  /** The receiver's open window is exactly what the sender may still send, plus data and
      window adjustments on the way, plus what was dropped. */
  lemma CreditLaw(o: Opening, run: seq<Choice>)
    requires GoodOpening(o)
    ensures var p := Exec(Start(o), run);
      && p.b.win.recv == p.a.win.trans + Total(p.ab).data + Total(p.ba).grants + p.b.hist.dropped + Unannounced(p.b)
      && p.a.win.recv == p.b.win.trans + Total(p.ba).data + Total(p.ab).grants + p.a.hist.dropped + Unannounced(p.a)
  {
    hide ChanOK, Total;
    RunGood(o, run);
  }

  /** Data sent never exceeds the window granted. */
  lemma SentWithinGrants(o: Opening, run: seq<Choice>)
    requires GoodOpening(o)
    ensures var p := Exec(Start(o), run);
      && |p.a.hist.taken| + |p.a.hist.takenErr| <= p.b.hist.granted
      && |p.b.hist.taken| + |p.b.hist.takenErr| <= p.a.hist.granted
  {
    hide ChanOK, Total;
    RunGood(o, run);
  }

  /** Conservation at each end, and at least two thirds of the window open once the buffers
      are drained. */
  lemma WindowConserved(o: Opening, run: seq<Choice>)
    requires GoodOpening(o)
    ensures var p := Exec(Start(o), run);
      && p.b.win.recv + p.b.win.done + Held(p.b.bufs) == p.b.win.window
      && p.a.win.recv + p.a.win.done + Held(p.a.bufs) == p.a.win.window
      && (Held(p.b.bufs) == 0 ==> 3 * p.b.win.recv >= 2 * p.b.win.window)
      && (Held(p.a.bufs) == 0 ==> 3 * p.a.win.recv >= 2 * p.a.win.window)
  {
    hide Direction, FdsOK;
    RunGood(o, run);
  }

  /** While nothing is dropped, what one end took from its local side is, stream by stream,
      what the other has passed on, then what it holds, then what is on the way. */
  lemma DataIntact(o: Opening, run: seq<Choice>)
    requires GoodOpening(o)
    ensures var p := Exec(Start(o), run);
      && (p.b.hist.dropped == 0 ==>
            && p.a.hist.taken == p.b.hist.given + p.b.bufs.main + Total(p.ab).normal
            && p.a.hist.takenErr == StreamErr(p.b) + Total(p.ab).extended)
      && (p.a.hist.dropped == 0 ==>
            && p.b.hist.taken == p.a.hist.given + p.a.bufs.main + Total(p.ba).normal
            && p.b.hist.takenErr == StreamErr(p.a) + Total(p.ba).extended)
  {
    hide ChanOK, Total;
    RunGood(o, run);
  }

  /** No starvation: with nothing on the way, nothing held and nothing dropped, a confirmed
      sender has window. */
  lemma NoStarvation(o: Opening, run: seq<Choice>)
    requires GoodOpening(o)
    ensures var p := Exec(Start(o), run);
      p.ab == [] && p.ba == [] && Held(p.b.bufs) == 0 && p.b.hist.dropped == 0 && !p.a.fl.awaitOpen && !p.a.fl.failed
      ==> 3 * p.a.win.trans >= 2 * p.b.win.window > 0
  {
    hide FdsOK;
    RunGood(o, run);
    WindowConserved(o, run);
  }
}
