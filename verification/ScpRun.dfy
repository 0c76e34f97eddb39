/**
  The procedures of scp.c in the program's own form, and the two processes joined by pipes:
  they never wait for each other, whatever the pipes' capacity and the scheduling.
*/
module ScpRun {
  import opened Wrappers
  import opened Bytes
  import opened NumberTheory
  import opened Scp
  import opened Memory

  // ----------------------------------------------------------- the procedures

  /** allocbuf: the block size of the file system rounded up to a multiple, unless the buffer
      left by an earlier file is as large already. */
  method AllocBuf(had: nat, blksize: nat, unit: nat) returns (cnt: nat)
    requires unit > 0 && had % unit == 0
    ensures cnt > 0 && cnt % unit == 0 && cnt >= had && cnt >= blksize
    ensures cnt > had ==> cnt == unit || cnt < blksize + unit
  {
    var size := (blksize + (unit - 1)) / unit * unit;
    RoundUp(blksize, unit);
    if size == 0 { size := unit; }
    MultipleMod(unit, 1);
    if had >= size { return had; }
    return size;
  }

  lemma RoundUp(b: nat, u: nat)
    requires u > 0
    ensures var c := (b + (u - 1)) / u * u; c % u == 0 && b <= c < b + u && (b > 0 ==> c > 0)
  {
    var q := (b + (u - 1)) / u;
    assert b + (u - 1) == u * q + (b + (u - 1)) % u;
    assert q * u == u * q;
    MultipleMod(u, q);
  }

  /** The file loop of source: the content goes out block by block, whole and in order. */
  method SendContent(content: seq<byte>, cnt: nat) returns (out: seq<byte>)
    requires cnt > 0
    ensures out == content
  {
    out := [];
    var i := 0;
    while i < |content|
      invariant out == content[..if i < |content| then i else |content|]
    {
      var amt := cnt;
      if i + amt > |content| { amt := |content| - i; }
      out := out + content[i..i + amt];
      i := i + cnt;
    }
  }

  /** Below a multiple of 4096 there is room for another 4096. */
  lemma RoomForBlock(count: nat, cnt: nat)
    requires count < cnt && count % 4096 == 0 && cnt % 4096 == 0
    ensures count + 4096 <= cnt
  {
  }

  /** The file loop of sink: 4096 bytes at a time into a buffer that is written out when full.
      Every store is within the buffer, and the file gets exactly the announced bytes. */
  method ReceiveContent(inp: seq<byte>, size: nat, cnt: nat) returns (file: seq<byte>)
    requires size <= |inp| && cnt > 0 && cnt % 4096 == 0
    ensures file == inp[..size]
  {
    file := [];
    var buf := new byte[cnt](_ => 0);
    var count, i := 0, 0;
    while i < size
      invariant 0 <= count < cnt && buf.Length == cnt && fresh(buf)
      invariant i < size ==> count % 4096 == 0
      invariant file + buf[..count] == inp[..if i < size then i else size]
    {
      var amt := 4096;
      RoomForBlock(count, cnt);
      if i + amt > size { amt := size - i; }
      ghost var held := buf[..count];
      CopyBytes(buf, count, inp[i..i + amt]);
      assert file + (held + inp[i..i + amt]) == file + held + inp[i..i + amt];
      assert inp[..i] + inp[i..i + amt] == inp[..i + amt];
      count := count + amt;
      if count == cnt {
        assert buf[..] == buf[..count];
        file := file + buf[..];
        count := 0;
        assert file + buf[..0] == file;
      }
      i := i + 4096;
    }
    if count != 0 { file := file + buf[..count]; }
  }

  /** source and rsource: a node is sent with its records, and a directory's entries one after
      the other. */
  method SendNode(p: bool, n: Node, cnt: nat) returns (acts: seq<Act>)
    requires cnt > 0
    ensures acts == Source(p, n)
    decreases n, 1
  {
    acts := [];
    if p { acts := acts + Send(TimesLine(n.times)); }
    assert acts == SendTimes(p, n.times);
    match n
    case File(_, _, t, c) =>
      var body := Send(FileLine(n));
      var out := SendContent(c, cnt);
      body := body + (Puts(out) + [Put(0), Get(0)]);
      acts := acts + body;
    case Dir(_, _, t, kids) =>
      var body := SendKids(p, kids, cnt);
      acts := acts + (Send(DirLine(n)) + (body + Send(END_LINE)));
  }

  method SendKids(p: bool, kids: seq<Node>, cnt: nat) returns (acts: seq<Act>)
    requires cnt > 0
    ensures acts == SourceAll(p, kids)
    decreases kids, 0
  {
    hide Source, SourceAll;
    acts := [];
    var i := 0;
    assert kids[0..] == kids && [] + SourceAll(p, kids) == SourceAll(p, kids);
    while i < |kids|
      invariant 0 <= i <= |kids| && acts + SourceAll(p, kids[i..]) == SourceAll(p, kids)
    {
      var a := SendNode(p, kids[i], cnt);
      SourceAllStep(p, kids, i);
      assert acts + (a + SourceAll(p, kids[i + 1..])) == acts + a + SourceAll(p, kids[i + 1..]);
      acts := acts + a;
      i := i + 1;
    }
    SourceAllEnd(p, kids);
    assert acts + [] == acts;
  }

  lemma SourceAllStep(p: bool, kids: seq<Node>, i: nat)
    requires i < |kids|
    ensures SourceAll(p, kids[i..]) == Source(p, kids[i]) + SourceAll(p, kids[i + 1..])
  {
    assert kids[i..][0] == kids[i] && kids[i..][1..] == kids[i + 1..];
  }

  lemma SourceAllEnd(p: bool, kids: seq<Node>)
    ensures SourceAll(p, kids[|kids|..]) == []
  {
  }

  /** The four ways a turn of the loop can go, one lemma each. */
  ghost predicate Turn(inp: seq<byte>, line: seq<byte>, rec: Record) {
    && inp != [] && line == LineOf(inp, LINE_SIZE - 1) && line != [] && |line| <= |inp|
    && rec == if Strip(line) == [] then RBad else Parse(Strip(line))
  }

  lemma TurnStops(fl: Flags, inp: seq<byte>, stamp: Option<Times>, line: seq<byte>, rec: Record)
    requires Turn(inp, line, rec) && (rec.RBad? || rec.REnd?)
    ensures SinkLoop(fl, inp, stamp) == if rec.RBad? then Out(Gets(line), [], inp[|line|..], false)
                                        else Out(Gets(line) + [Put(0)], [], inp[|line|..], true)
  {
    hide Parse, LineOf, Strip, Gets;
  }

  lemma TurnTimes(fl: Flags, inp: seq<byte>, stamp: Option<Times>, line: seq<byte>, rec: Record)
    requires Turn(inp, line, rec) && rec.RTimes?
    ensures SinkLoop(fl, inp, stamp) == After(Gets(line) + [Put(0)], [], SinkLoop(fl, inp[|line|..], Some(rec.times)))
  {
    hide Parse, LineOf, Strip, Gets;
  }

  lemma TurnFile(fl: Flags, inp: seq<byte>, stamp: Option<Times>, line: seq<byte>, rec: Record)
    requires Turn(inp, line, rec) && rec.RFile?
    ensures var rest := inp[|line|..];
      SinkLoop(fl, inp, stamp) ==
        if |rest| <= rec.size || rest[rec.size] != 0 then Out(Gets(line) + [Put(0)], [], [], false)
        else After(Gets(line) + ([Put(0)] + (Gets(rest[..rec.size]) + [Get(0), Put(0)])),
                   [FileEntry(rec.name, FileMode(fl, rec.mode), stamp, rest[..rec.size])],
                   SinkLoop(fl, rest[rec.size + 1..], None))
  {
    hide Parse, LineOf, Strip, Gets;
  }

  lemma TurnDir(fl: Flags, inp: seq<byte>, stamp: Option<Times>, line: seq<byte>, rec: Record)
    requires Turn(inp, line, rec) && rec.RDir?
    ensures var k := SinkLoop(fl, inp[|line|..], None);
      SinkLoop(fl, inp, stamp) ==
        if !k.ok then Out(Gets(line) + ([Put(0)] + k.trace), [], k.rest, false)
        else After(Gets(line) + ([Put(0)] + k.trace), [DirEntry(rec.name, rec.mode, stamp, k.got)], SinkLoop(fl, k.rest, None))
  {
    hide Parse, LineOf, Strip, Gets;
  }

  lemma Extend(t0: seq<Act>, line: seq<Act>, more: seq<Act>, g0: seq<Entry>, made: seq<Entry>, r: Out)
    ensures After(t0, g0, After(line + more, made, r)) == After(t0 + line + more, g0 + made, r)
    ensures After(t0, g0, Out(line + more, [], r.rest, r.ok)) == Out(t0 + line + more, g0, r.rest, r.ok)
    ensures After(t0, g0, Out(line, [], r.rest, r.ok)) == Out(t0 + line, g0, r.rest, r.ok)
  {
    AfterAfter(t0, line + more, g0, made, r);
    assert t0 + (line + more) == t0 + line + more && g0 + [] == g0;
  }

  /** sink after its first acknowledgement: one control record per turn, recursively for a
      directory. */
  method ReceiveLoop(fl: Flags, input: seq<byte>, cnt: nat) returns (r: Out)
    requires cnt > 0 && cnt % 4096 == 0
    ensures r == SinkLoop(fl, input, None)
    decreases |input|
  {
    hide Parse, LineOf, Strip, SinkLoop, After;
    var inp, stamp := input, None;
    var trace: seq<Act> := [];
    var got: seq<Entry> := [];
    NothingDone(SinkLoop(fl, inp, stamp));
    while inp != []
      invariant |inp| <= |input|
      invariant SinkLoop(fl, input, None) == After(trace, got, SinkLoop(fl, inp, stamp))
      decreases |inp|
    {
      var line := LineOf(inp, LINE_SIZE - 1);
      var s := Strip(line);
      var rest := inp[|line|..];
      var rec := if s == [] then RBad else Parse(s);
      var took := Gets(line);
      match rec
      case RBad =>
        TurnStops(fl, inp, stamp, line, rec);
        Extend(trace, took, [], got, [], Out([], [], rest, false));
        return Out(trace + took, got, rest, false);
      case REnd =>
        TurnStops(fl, inp, stamp, line, rec);
        Extend(trace, took, [Put(0)], got, [], Out([], [], rest, true));
        return Out(trace + took + [Put(0)], got, rest, true);
      case RTimes(t) =>
        TurnTimes(fl, inp, stamp, line, rec);
        Extend(trace, took, [Put(0)], got, [], SinkLoop(fl, rest, Some(t)));
        assert got + [] == got;
        trace, inp, stamp := trace + took + [Put(0)], rest, Some(t);
      case RFile(mode, size, name) =>
        TurnFile(fl, inp, stamp, line, rec);
        if |rest| <= size || rest[size] != 0 {
          Extend(trace, took, [Put(0)], got, [], Out([], [], [], false));
          return Out(trace + took + [Put(0)], got, [], false);
        }
        var file := ReceiveContent(rest, size, cnt);
        var more := [Put(0)] + (Gets(file) + [Get(0), Put(0)]);
        var made := [FileEntry(name, FileMode(fl, mode), stamp, file)];
        Extend(trace, took, more, got, made, SinkLoop(fl, rest[size + 1..], None));
        trace, got, inp, stamp := trace + took + more, got + made, rest[size + 1..], None;
      case RDir(mode, name) =>
        var k := ReceiveLoop(fl, rest, cnt);
        var more := [Put(0)] + k.trace;
        TurnDir(fl, inp, stamp, line, rec);
        if !k.ok {
          Extend(trace, took, more, got, [], k);
          return Out(trace + took + more, got, k.rest, false);
        }
        var made := [DirEntry(name, mode, stamp, k.got)];
        Extend(trace, took, more, got, made, SinkLoop(fl, k.rest, None));
        trace, got, inp, stamp := trace + took + more, got + made, k.rest, None;
    }
    SinkEnd(fl, stamp);
    NothingMore(trace, got);
    return Out(trace, got, [], true);
  }

  lemma SinkEnd(fl: Flags, stamp: Option<Times>)
    ensures SinkLoop(fl, [], stamp) == Out([], [], [], true)
  {
  }

  lemma NothingMore(t: seq<Act>, g: seq<Entry>)
    ensures After(t, g, Out([], [], [], true)) == Out(t, g, [], true)
  {
    assert t + [] == t && g + [] == g;
  }

  lemma NothingDone(r: Out)
    ensures After([], [], r) == r
  {
    assert [] + r.trace == r.trace && [] + r.got == r.got;
  }

  // ------------------------------------------------------------- the two pipes

  /** The sender has done i steps of the conversation, the receiver j steps of its dual; x
      carries bytes to the receiver and y to the sender. */
  datatype Pair = Pair(i: nat, j: nat, x: seq<byte>, y: seq<byte>)

  /** One step of one process, if it is not blocked: a write needs room in the pipe, a read
      needs a byte, and the byte is the one the conversation expects. */
  predicate CanSend(conv: seq<Act>, cap: nat, s: Pair) {
    s.i < |conv| && if conv[s.i].Put? then |s.x| < cap else s.y != [] && s.y[0] == conv[s.i].b
  }

  predicate CanReceive(conv: seq<Act>, cap: nat, s: Pair) {
    s.j < |conv| && if conv[s.j].Get? then |s.y| < cap else s.x != [] && s.x[0] == conv[s.j].b
  }

  function SenderStep(conv: seq<Act>, s: Pair): Pair
    requires s.i < |conv| && (conv[s.i].Get? ==> s.y != [])
  {
    if conv[s.i].Put? then s.(i := s.i + 1, x := s.x + [conv[s.i].b]) else s.(i := s.i + 1, y := s.y[1..])
  }

  function ReceiverStep(conv: seq<Act>, s: Pair): Pair
    requires s.j < |conv| && (conv[s.j].Put? ==> s.x != [])
  {
    if conv[s.j].Get? then s.(j := s.j + 1, y := s.y + [conv[s.j].b]) else s.(j := s.j + 1, x := s.x[1..])
  }

  /** A blocked process stays where it is. */
  function Step(conv: seq<Act>, cap: nat, s: Pair, sender: bool): Pair {
    if sender then (if CanSend(conv, cap, s) then SenderStep(conv, s) else s)
    else if CanReceive(conv, cap, s) then ReceiverStep(conv, s) else s
  }

  function Exec(conv: seq<Act>, cap: nat, run: seq<bool>): Pair {
    if run == [] then Pair(0, 0, [], []) else Step(conv, cap, Exec(conv, cap, run[..|run| - 1]), run[|run| - 1])
  }

  /** Whoever is ahead is ahead by bytes it has written, and these are in the pipe. */
  predicate Inv(conv: seq<Act>, s: Pair) {
    && s.i <= |conv| && s.j <= |conv|
    && (s.i >= s.j ==> s.y == [] && conv[s.j..s.i] == Puts(s.x))
    && (s.j >= s.i ==> s.x == [] && conv[s.i..s.j] == Gets(s.y))
  }

  lemma PutsMore(x: seq<byte>, b: byte)
    ensures Puts(x) + [Put(b)] == Puts(x + [b]) && Gets(x) + [Get(b)] == Gets(x + [b])
  {
  }

  lemma PutsLess(x: seq<byte>)
    requires x != []
    ensures Puts(x)[1..] == Puts(x[1..]) && Gets(x)[1..] == Gets(x[1..])
    ensures Puts(x)[0] == Put(x[0]) && Gets(x)[0] == Get(x[0])
  {
  }

  lemma StepInv(conv: seq<Act>, cap: nat, s: Pair, sender: bool)
    requires Inv(conv, s) && cap >= 1
    ensures Inv(conv, Step(conv, cap, s, sender))
    ensures CanSend(conv, cap, s) || CanReceive(conv, cap, s) || (s.i == s.j == |conv|)
  {
    if s.i > s.j {
      assert conv[s.j] == conv[s.j..s.i][0];
      PutsLess(s.x);
      if s.i < |conv| {
        PutsMore(s.x, conv[s.i].b);
        assert conv[s.j..s.i] + [conv[s.i]] == conv[s.j..s.i + 1];
      }
      assert conv[s.j..s.i][1..] == conv[s.j + 1..s.i];
    } else if s.j > s.i {
      assert conv[s.i] == conv[s.i..s.j][0];
      PutsLess(s.y);
      if s.j < |conv| {
        PutsMore(s.y, conv[s.j].b);
        assert conv[s.i..s.j] + [conv[s.j]] == conv[s.i..s.j + 1];
      }
      assert conv[s.i..s.j][1..] == conv[s.i + 1..s.j];
    } else if s.i < |conv| {
      assert conv[s.i..s.i + 1] == [conv[s.i]];
      PutsMore([], conv[s.i].b);
    }
  }

  lemma {:induction false} RunInv(conv: seq<Act>, cap: nat, run: seq<bool>)
    requires cap >= 1
    ensures Inv(conv, Exec(conv, cap, run))
    decreases |run|
  {
    if run != [] {
      RunInv(conv, cap, run[..|run| - 1]);
      StepInv(conv, cap, Exec(conv, cap, run[..|run| - 1]), run[|run| - 1]);
    }
  }

  /** For every tree, every capacity of the pipes and every schedule: unless both are done, one
      of the two can go on; so they never wait for each other, and the receiver reads exactly
      the bytes the sender has written, in order. */
  lemma NeverBothWait(fl: Flags, ns: seq<Node>, path: nat, cap: nat, run: seq<bool>)
    requires GoodNodes(ns, path) && AllStatsFit(ns) && cap >= 1
    ensures var conv := SenderActs(fl.p, ns); var s := Exec(conv, cap, run);
      && Sink(fl, Written(conv)).trace == Dual(conv)
      && (CanSend(conv, cap, s) || CanReceive(conv, cap, s) || (s.i == s.j == |conv| && s.x == [] && s.y == []))
  {
    hide SenderActs, Sink, Written;
    var conv := SenderActs(fl.p, ns);
    TransferCorrect(fl, ns, path);
    RunInv(conv, cap, run);
    StepInv(conv, cap, Exec(conv, cap, run), true);
  }

  /** Every step that is taken brings the end nearer. */
  lemma StepAdvances(conv: seq<Act>, cap: nat, s: Pair, sender: bool)
    requires Inv(conv, s) && cap >= 1
    requires if sender then CanSend(conv, cap, s) else CanReceive(conv, cap, s)
    ensures var t := Step(conv, cap, s, sender); t.i + t.j == s.i + s.j + 1 <= 2 * |conv|
  {
  }
}
