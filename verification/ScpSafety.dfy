/**
  What scp never does, whoever is at the other end, and the records byte for byte.
*/
module ScpSafety {
  import opened Wrappers
  import opened Bytes
  import opened Scp

  /** No entry made is outside the target directory: no name has a slash or is "..", at any depth. */
  predicate Inside(e: Entry) {
    && 47 !in e.name && e.name != [46, 46]
    && (e.DirEntry? ==> AllInside(e.kids))
  }

  predicate AllInside(es: seq<Entry>) {
    es == [] || (Inside(es[0]) && AllInside(es[1..]))
  }

  lemma {:induction false} AllInsideConcat(a: seq<Entry>, b: seq<Entry>)
    requires AllInside(a) && AllInside(b)
    ensures AllInside(a + b)
    decreases |a|
  {
    if a == [] { assert a + b == b; } else { assert (a + b)[1..] == a[1..] + b; AllInsideConcat(a[1..], b); }
  }

  lemma OneInside(e: Entry)
    requires Inside(e)
    ensures AllInside([e])
  {
    assert [e][1..] == [];
  }

  /** A file or directory record names nothing but an entry of the directory it comes in. */
  lemma RecordsName(s: seq<byte>)
    requires s != []
    ensures var r := Parse(s); (r.RFile? || r.RDir?) ==> 47 !in r.name && r.name != [46, 46]
  {
    hide ParseDec;
  }

  lemma AfterGot(done: seq<Act>, made: seq<Entry>, r: Out)
    requires AllInside(made) && AllInside(r.got)
    ensures AllInside(After(done, made, r).got)
  {
    AllInsideConcat(made, r.got);
  }

  /** Whatever bytes a sender sends, everything that the receiver makes is inside its target. */
  lemma {:induction false} LoopStaysInside(fl: Flags, inp: seq<byte>, stamp: Option<Times>)
    ensures AllInside(SinkLoop(fl, inp, stamp).got)
    decreases |inp|
  {
    hide Parse, LineOf, Strip, Inside, After;
    assert AllInside([]);
    if inp != [] {
      var line := LineOf(inp, LINE_SIZE - 1);
      var s := Strip(line);
      var rest := inp[|line|..];
      assert |line| > 0;
      if s != [] {
        RecordsName(s);
        match Parse(s)
        case RBad =>
        case REnd =>
        case RTimes(t) =>
          LoopStaysInside(fl, rest, Some(t));
          AfterGot(Gets(line) + [Put(0)], [], SinkLoop(fl, rest, Some(t)));
        case RFile(mode, size, name) =>
          if size < |rest| && rest[size] == 0 {
            var e := FileEntry(name, FileMode(fl, mode), stamp, rest[..size]);
            assert Inside(e) by { FileInside(e); }
            OneInside(e);
            LoopStaysInside(fl, rest[size + 1..], None);
            AfterGot(Gets(line) + ([Put(0)] + (Gets(rest[..size]) + [Get(0), Put(0)])), [e], SinkLoop(fl, rest[size + 1..], None));
          }
        case RDir(mode, name) =>
          LoopStaysInside(fl, rest, None);
          var k := SinkLoop(fl, rest, None);
          if k.ok {
            var e := DirEntry(name, mode, stamp, k.got);
            assert Inside(e) by { DirInside(e); }
            OneInside(e);
            LoopStaysInside(fl, k.rest, None);
            AfterGot(Gets(line) + ([Put(0)] + k.trace), [e], SinkLoop(fl, k.rest, None));
          }
      }
    }
  }

  lemma FileInside(e: Entry)
    requires e.FileEntry? && 47 !in e.name && e.name != [46, 46]
    ensures Inside(e)
  {
  }

  lemma DirInside(e: Entry)
    requires e.DirEntry? && 47 !in e.name && e.name != [46, 46] && AllInside(e.kids)
    ensures Inside(e)
  {
  }

  lemma ReceiverStaysInside(fl: Flags, inp: seq<byte>)
    ensures AllInside(Sink(fl, inp).got)
  {
    hide SinkLoop;
    LoopStaysInside(fl, inp, None);
    AfterGot([Put(0)], [], SinkLoop(fl, inp, None));
  }

  /** Every acknowledgement that the sender waits for is a zero byte. */
  lemma {:induction false} AcknowledgedByZero(p: bool, ns: seq<Node>, i: nat)
    requires i < |SourceAll(p, ns)| && SourceAll(p, ns)[i].Get?
    ensures SourceAll(p, ns)[i] == Get(0)
    decreases ns, 1
  {
    hide Send, Source;
    var n := |Source(p, ns[0])|;
    if i < n { NodeByZero(p, ns[0], i); } else { AcknowledgedByZero(p, ns[1..], i - n); }
  }

  predicate ZeroGets(a: seq<Act>) { forall i :: 0 <= i < |a| && a[i].Get? ==> a[i] == Get(0) }

  lemma ZeroJoin(a: seq<Act>, b: seq<Act>)
    requires ZeroGets(a) && ZeroGets(b)
    ensures ZeroGets(a + b)
  {
  }

  lemma SendZero(line: seq<byte>)
    ensures ZeroGets(Send(line))
  {
  }

  lemma NodeByZero(p: bool, n: Node, i: nat)
    requires i < |Source(p, n)| && Source(p, n)[i].Get?
    ensures Source(p, n)[i] == Get(0)
    decreases n, 0
  {
    hide Send;
    SendZero(TimesLine(n.times));
    assert ZeroGets(SendTimes(p, n.times));
    SendZero(END_LINE);
    SendZero(DirLine(n));
    if n.File? {
      SendZero(FileLine(n));
      assert ZeroGets(Puts(n.content) + [Put(0), Get(0)]);
      ZeroJoin(Send(FileLine(n)), Puts(n.content) + [Put(0), Get(0)]);
      ZeroJoin(SendTimes(p, n.times), Send(FileLine(n)) + (Puts(n.content) + [Put(0), Get(0)]));
    } else {
      assert ZeroGets(SourceAll(p, n.kids)) by {
        forall j | 0 <= j < |SourceAll(p, n.kids)| && SourceAll(p, n.kids)[j].Get? ensures SourceAll(p, n.kids)[j] == Get(0) {
          AcknowledgedByZero(p, n.kids, j);
        }
      }
      ZeroJoin(SourceAll(p, n.kids), Send(END_LINE));
      ZeroJoin(Send(DirLine(n)), SourceAll(p, n.kids) + Send(END_LINE));
      ZeroJoin(SendTimes(p, n.times), Send(DirLine(n)) + (SourceAll(p, n.kids) + Send(END_LINE)));
    }
  }

  lemma ModesSent()
    ensures Masked(420) == 420 && Masked(488) == 488
  {
    hide And, Bit;
    NinthBit(420);
    NinthBit(488);
    MaskedIs(420);
    MaskedIs(488);
  }

  lemma FileRecord(content: seq<byte>, t: Times)
    requires |content| == 12
    ensures FileLine(File([102], 420, t, content)) == Ascii("C0644 12 f")
  {
    hide Masked;
    ModesSent();
    assert Oct4(420) == [48, 54, 52, 52];
    assert Dec(1) == [49] && Dec(12) == [49, 50];
  }

  lemma DirRecord(t: Times)
    ensures DirLine(Dir([100], 488, t, [])) == Ascii("D0750 0 d")
  {
    hide Masked;
    ModesSent();
    assert Oct4(488) == [48, 55, 53, 48];
  }

  lemma TimesRecord()
    ensures TimesLine(Times(7, 13)) == Ascii("T7 0 13 0")
  {
    assert Printed(7) == 7 && Printed(13) == 13;
    assert Dec(7) == [55] && Dec(1) == [49] && Dec(13) == [49, 51];
  }

  /** Four records as the protocol writes them: a file f of mode 644 with 12 bytes, a directory d of mode
      750, two times, and the end of a directory. */
  lemma RecordsAre(content: seq<byte>, t: Times)
    requires |content| == 12
    ensures FileLine(File([102], 420, t, content)) == Ascii("C0644 12 f") && DirLine(Dir([100], 488, t, [])) == Ascii("D0750 0 d")
    ensures TimesLine(Times(7, 13)) == Ascii("T7 0 13 0") && END_LINE == Ascii("E")
  {
    hide FileLine, DirLine, TimesLine;
    FileRecord(content, t);
    DirRecord(t);
    TimesRecord();
  }

  lemma {:induction false} DigitsRead(s: seq<byte>, i: nat, acc: nat)
    requires i <= |s|
    ensures var (v, k) := ParseDec(s, i, acc);
      && (forall j :: i <= j < k ==> Digit(s[j])) && (k < |s| ==> !Digit(s[k]))
    decreases |s| - i
  {
    if i < |s| && Digit(s[i]) { DigitsRead(s, i + 1, acc * 10 + (s[i] - 48)); }
  }

  /** A file or directory record, from any sender, is a letter, four octal digits that give the mode, a
      space, decimal digits, a space and the name; nothing else is taken for one. */
  lemma EntryRecord(s: seq<byte>)
    requires s != []
    ensures var r := Parse(s);
      (r.RFile? || r.RDir?) ==>
        && s[0] == (if r.RFile? then 67 else 68) && |s| >= 7 && r.mode < 4096 && s[1..5] == Oct4(r.mode) && s[5] == 32
        && var (size, k) := ParseDec(s, 6, 0);
           && k < |s| && s[k] == 32 && (forall j :: 6 <= j < k ==> Digit(s[j])) && r.name == s[k + 1..] && (r.RFile? ==> r.size == size)
  {
    var r := Parse(s);
    if r.RFile? || r.RDir? {
      DigitsRead(s, 6, 0);
      OctalBack(s[1], s[2], s[3], s[4]);
      assert s[1..5] == [s[1], s[2], s[3], s[4]];
    }
    hide ParseDec;
  }

  lemma OctalBack(a: byte, b: byte, c: byte, d: byte)
    requires 48 <= a <= 55 && 48 <= b <= 55 && 48 <= c <= 55 && 48 <= d <= 55
    ensures FromOct(a, b, c, d) < 4096 && Oct4(FromOct(a, b, c, d)) == [a, b, c, d]
  {
    var w, x, y, z := a as int - 48, b as int - 48, c as int - 48, d as int - 48;
    var m2 := w * 8 + x;
    var m3 := m2 * 8 + y;
    var m := m3 * 8 + z;
    assert m2 / 8 == w && m2 % 8 == x;
    assert m3 / 8 == m2 && m3 % 8 == y;
    assert m / 8 == m3 && m % 8 == z;
    assert m / 64 == m / 8 / 8 && m / 512 == m / 64 / 8;
  }
}
