/**
  The scp record protocol of scp.c: a sender that walks a directory tree, a receiver that
  rebuilds it, and an acknowledgement after every record. I/O errors are not modelled: every
  acknowledgement is a zero byte.
*/
module Scp {
  import opened Wrappers
  import opened Bytes
  import opened NumberTheory

  const NEWLINE: byte := 10
  const SPACE: byte := 32
  const SLASH: byte := 47
  const LINE_SIZE: nat := 2048
  const PATH_SIZE: nat := 1100
  const NAME_CUT: nat := 1024

  /** The largest long, of 64 bits. */
  const LONG_MAX: int := 0x7FFF_FFFF_FFFF_FFFF

  /** FILEMODEMASK, octal 6777: every permission bit but the sticky one. */
  const FILEMODEMASK: nat := 3583

  // -------------------------------------------------------------------- modes

  /** Bitwise and. */
  function And(a: nat, b: nat): nat {
    if a == 0 || b == 0 then 0 else 2 * And(a / 2, b / 2) + (a % 2) * (b % 2)
  }

  predicate Bit(m: nat, i: nat) {
    if i == 0 then m % 2 == 1 else Bit(m / 2, i - 1)
  }

  predicate Sticky(mode: nat) { Bit(mode, 9) }

  /** The mode as a record carries it. */
  function Masked(mode: nat): nat { And(mode, FILEMODEMASK) }

  /** A process's umask; its complement within the mode bits. */
  type Umask = m: nat | m < 512

  lemma {:induction false} AndBit(a: nat, b: nat, i: nat)
    ensures Bit(And(a, b), i) <==> Bit(a, i) && Bit(b, i)
    decreases i
  {
    if a == 0 || b == 0 { ZeroBit(i); }
    else if i > 0 {
      AndBit(a / 2, b / 2, i - 1);
      assert And(a, b) / 2 == And(a / 2, b / 2);
    }
  }

  lemma {:induction false} ZeroBit(i: nat)
    ensures !Bit(0, i)
    decreases i
  {
    if i > 0 { ZeroBit(i - 1); }
  }

  /** An and with all of a number's own bits changes nothing. */
  lemma {:induction false} AndKeeps(a: nat, b: nat)
    requires forall i: nat :: Bit(a, i) ==> Bit(b, i)
    ensures And(a, b) == a
    decreases a
  {
    if a > 0 {
      forall i: nat ensures Bit(a / 2, i) ==> Bit(b / 2, i) { assert Bit(a, i + 1) ==> Bit(b, i + 1); }
      assert Bit(a, 0) ==> Bit(b, 0);
      AndKeeps(a / 2, b / 2);
    }
  }

  lemma {:induction false} HighBits(m: nat, n: nat, i: nat)
    requires m < Pow(2, n) && i >= n
    ensures !Bit(m, i)
    decreases i
  {
    if n == 0 { ZeroBit(i); }
    else {
      assert Pow(2, n) == 2 * Pow(2, n - 1);
      HighBits(m / 2, n - 1, i - 1);
    }
  }

  /** An and with all of a number's bits but one takes that one away. */
  lemma {:induction false} AndClears(a: nat, b: nat, i: nat)
    requires Bit(a, i) && !Bit(b, i) && forall j: nat :: Bit(a, j) && j != i ==> Bit(b, j)
    ensures And(a, b) + Pow(2, i) == a
    decreases i
  {
    forall j: nat | j + 1 != i ensures Bit(a / 2, j) ==> Bit(b / 2, j) { assert Bit(a, j + 1) ==> Bit(b, j + 1); }
    if i == 0 {
      AndKeeps(a / 2, b / 2);
    } else {
      assert Bit(a, 0) ==> Bit(b, 0);
      AndClears(a / 2, b / 2, i - 1);
    }
  }

  /** The mask takes away the sticky bit and nothing else. */
  lemma MaskedIs(mode: nat)
    requires GoodMode(mode)
    ensures GoodMode(Masked(mode)) && !Sticky(Masked(mode)) && Masked(mode) == if Sticky(mode) then mode - 512 else mode
  {
    assert Pow(2, 12) == 4096 && Pow(2, 9) == 512 by { PowAdd(2, 6, 6); PowAdd(2, 6, 3); }
    AndBit(mode, FILEMODEMASK, 9);
    MaskBits(9);
    forall i: nat ensures Bit(mode, i) && i != 9 ==> Bit(FILEMODEMASK, i) {
      if i >= 12 { HighBits(mode, 12, i); } else { MaskBits(i); }
    }
    if Sticky(mode) { AndClears(mode, FILEMODEMASK, 9); } else { AndKeeps(mode, FILEMODEMASK); }
  }

  lemma MaskBits(i: nat)
    requires i < 12
    ensures Bit(FILEMODEMASK, i) <==> i != 9
  {
    if i >= 3 { Shift3(FILEMODEMASK, i - 3); }
    if i >= 6 { Shift3(447, i - 6); }
    if i >= 9 { Shift3(55, i - 9); }
  }

  lemma Shift3(m: nat, i: nat)
    ensures Bit(m, i + 3) == Bit(m / 8, i)
  {
    assert Bit(m, i + 3) == Bit(m / 2, i + 2) == Bit(m / 2 / 2, i + 1) == Bit(m / 2 / 2 / 2, i);
    assert m / 2 / 2 / 2 == m / 8;
  }

  /** A umask leaves the sticky bit alone. */
  lemma UmaskKeepsSticky(mode: nat, mask: Umask)
    ensures Sticky(And(mode, 4095 - mask)) == Sticky(mode)
  {
    AndBit(mode, 4095 - mask, 9);
    NinthBit(4095 - mask);
  }

  lemma NinthBit(m: nat)
    ensures Bit(m, 9) <==> m / 512 % 2 == 1
  {
    Shift3(m, 6);
    Shift3(m / 8, 3);
    Shift3(m / 8 / 8, 0);
    assert m / 8 / 8 / 8 == m / 512;
  }

  // -------------------------------------------------------------------- trees

  /** Seconds since 1970; earlier times are negative. */
  datatype Times = Times(mtime: int, atime: int)

  datatype Node =
    | File(name: seq<byte>, mode: nat, times: Times, content: seq<byte>)
    | Dir(name: seq<byte>, mode: nat, times: Times, kids: seq<Node>)

  /** What the receiver makes. Times are set only when they were sent. */
  datatype Entry =
    | FileEntry(name: seq<byte>, mode: nat, times: Option<Times>, content: seq<byte>)
    | DirEntry(name: seq<byte>, mode: nat, times: Option<Times>, kids: seq<Entry>)

  /** How a run of the receiver is configured: -p, and the umask. */
  datatype Flags = Flags(p: bool, umask: Umask)

  /** The mode of a new file: with -p the one announced, else without the bits of the umask. */
  function FileMode(fl: Flags, mode: nat): nat { if fl.p then mode else And(mode, 4095 - fl.umask) }

  function Stamp(fl: Flags, t: Times): Option<Times> { if fl.p then Some(t) else None }

  /** The faithful copy of a tree; with -p it keeps modes and times. */
  function Copy(fl: Flags, n: Node): Entry {
    match n
    case File(name, mode, t, c) => FileEntry(name, FileMode(fl, mode), Stamp(fl, t), c)
    case Dir(name, mode, t, kids) => DirEntry(name, mode, Stamp(fl, t), CopyAll(fl, kids))
  }

  function CopyAll(fl: Flags, ns: seq<Node>): seq<Entry> {
    if ns == [] then [] else [Copy(fl, ns[0])] + CopyAll(fl, ns[1..])
  }

  /** A time as it is printed, cast to unsigned long, and as strtol reads it back: numbers
      above the largest long come out as that long. */
  function Printed(t: int): nat { t % (2 * (LONG_MAX + 1)) }
  function Saturated(n: nat): int { if n > LONG_MAX then LONG_MAX else n }
  function Arriving(t: Times): Times { Times(Saturated(Printed(t.mtime)), Saturated(Printed(t.atime))) }

  /** A directory's name as its record carries it. */
  function Cut(name: seq<byte>): seq<byte> { if |name| <= NAME_CUT then name else name[..NAME_CUT] }

  /** What the receiver makes of a tree. */
  function Made(fl: Flags, n: Node): Entry {
    match n
    case File(name, mode, t, c) => FileEntry(name, FileMode(fl, Masked(mode)), Stamp(fl, Arriving(t)), c)
    case Dir(name, mode, t, kids) => DirEntry(Cut(name), Masked(mode), Stamp(fl, Arriving(t)), MadeAll(fl, kids))
  }

  function MadeAll(fl: Flags, ns: seq<Node>): seq<Entry> {
    if ns == [] then [] else [Made(fl, ns[0])] + MadeAll(fl, ns[1..])
  }

  predicate InLong(t: int) { -LONG_MAX - 1 <= t <= LONG_MAX }

  /** No mode has the sticky bit, no directory name is cut and, with -p, no time is before 1970. */
  predicate Exact(fl: Flags, n: Node) {
    && !Sticky(n.mode)
    && (fl.p ==> n.times.mtime >= 0 && n.times.atime >= 0)
    && (n.Dir? ==> |n.name| <= NAME_CUT && ExactAll(fl, n.kids))
  }

  predicate ExactAll(fl: Flags, ns: seq<Node>) {
    ns == [] || (Exact(fl, ns[0]) && ExactAll(fl, ns[1..]))
  }

  /** What stat() can return: times that a long holds, and twelve mode bits. */
  predicate StatFits(n: Node) {
    && GoodMode(n.mode) && InLong(n.times.mtime) && InLong(n.times.atime) && (n.Dir? ==> AllStatsFit(n.kids))
  }

  predicate AllStatsFit(ns: seq<Node>) {
    ns == [] || (StatFits(ns[0]) && AllStatsFit(ns[1..]))
  }

  lemma TimeArrives(t: int)
    requires InLong(t)
    ensures Saturated(Printed(t)) == t <==> t >= 0
  {
    var m := 2 * (LONG_MAX + 1);
    if t >= 0 {
      ModIdem(t, m);
    } else {
      ModIdem(t + m, m);
      AddMultiple(t, m, 1);
    }
  }

  /** The mode a file gets is the right one exactly when the mask has not changed it. */
  lemma FileModeSameIff(fl: Flags, mode: nat)
    requires GoodMode(mode)
    ensures FileMode(fl, Masked(mode)) == FileMode(fl, mode) <==> !Sticky(mode)
  {
    MaskedIs(mode);
    UmaskKeepsSticky(mode, fl.umask);
    UmaskKeepsSticky(Masked(mode), fl.umask);
  }

  /** A directory like /tmp, mode 1777 octal, arrives as 777. */
  lemma StickyLost(fl: Flags)
    ensures var n := Dir([116, 109, 112], 1023, Times(0, 0), []);
      && GoodNodes([n], 0) && AllStatsFit([n]) && Made(fl, n).mode == 511 && Copy(fl, n).mode == 1023
  {
    hide And, Bit;
    NinthBit(1023);
    MaskedIs(1023);
    var n := Dir([116, 109, 112], 1023, Times(0, 0), []);
    assert GoodNode(n, 4) && StatFits(n);
    assert [n][1..] == [] && GoodNodes([], 0);
  }

  /** The receiver makes a faithful copy if and only if no mode loses a bit, no name is cut and
      no time saturates. */
  lemma {:induction false} MadeExactlyIff(fl: Flags, n: Node)
    requires StatFits(n)
    ensures Made(fl, n) == Copy(fl, n) <==> Exact(fl, n)
    decreases n
  {
    hide And, Bit, Printed, Saturated;
    TimeArrives(n.times.mtime);
    TimeArrives(n.times.atime);
    MaskedIs(n.mode);
    FileModeSameIff(fl, n.mode);
    if n.Dir? { AllMadeExactlyIff(fl, n.kids); }
  }

  lemma {:induction false} AllMadeExactlyIff(fl: Flags, ns: seq<Node>)
    requires AllStatsFit(ns)
    ensures MadeAll(fl, ns) == CopyAll(fl, ns) <==> ExactAll(fl, ns)
    decreases ns
  {
    if ns != [] {
      MadeExactlyIff(fl, ns[0]);
      AllMadeExactlyIff(fl, ns[1..]);
      var a, b := MadeAll(fl, ns), CopyAll(fl, ns);
      assert a[0] == Made(fl, ns[0]) && a[1..] == MadeAll(fl, ns[1..]);
      assert b[0] == Copy(fl, ns[0]) && b[1..] == CopyAll(fl, ns[1..]);
      assert a == b <==> a[0] == b[0] && a[1..] == b[1..] by { assert a == [a[0]] + a[1..] && b == [b[0]] + b[1..]; }
    }
  }

  // ------------------------------------------------------------------- records

  function Dec(n: nat): (b: seq<byte>)
    ensures |b| >= 1
  {
    if n < 10 then [48 + n] else Dec(n / 10) + [48 + n % 10]
  }

  /** %04o, for modes of twelve bits. */
  function Oct4(m: nat): (b: seq<byte>)
    ensures |b| == 4
  {
    [48 + m / 512 % 8, 48 + m / 64 % 8, 48 + m / 8 % 8, 48 + m % 8]
  }

  function FileLine(n: Node): seq<byte>
    requires n.File?
  {
    [67] + Oct4(Masked(n.mode)) + [SPACE] + Dec(|n.content|) + [SPACE] + n.name
  }

  function DirLine(n: Node): seq<byte> {
    [68] + Oct4(Masked(n.mode)) + [SPACE, 48, SPACE] + Cut(n.name)
  }

  function TimesLine(t: Times): seq<byte> {
    [84] + Dec(Printed(t.mtime)) + [SPACE, 48, SPACE] + Dec(Printed(t.atime)) + [SPACE, 48]
  }

  const END_LINE: seq<byte> := [69]

  datatype Record = RFile(mode: nat, size: nat, name: seq<byte>) | RDir(mode: nat, name: seq<byte>)
                  | RTimes(times: Times) | REnd | RBad

  predicate Digit(b: byte) { 48 <= b <= 57 }

  /** The decimal number at i, and where it stops. */
  function ParseDec(s: seq<byte>, i: nat, acc: nat): (r: (nat, nat))
    requires i <= |s|
    ensures i <= r.1 <= |s|
    decreases |s| - i
  {
    if i < |s| && Digit(s[i]) then ParseDec(s, i + 1, acc * 10 + (s[i] - 48)) else (acc, i)
  }

  function FromOct(a: byte, b: byte, c: byte, d: byte): nat
    requires a >= 48 && b >= 48 && c >= 48 && d >= 48
  {
    var (w, x, y, z) := (a as int - 48, b as int - 48, c as int - 48, d as int - 48);
    ((w * 8 + x) * 8 + y) * 8 + z
  }

  /** Mode, size and name of a C or D record. */
  function ParseEntry(s: seq<byte>): Record
    requires s != []
  {
    if |s| < 6 || !(forall i :: 1 <= i < 5 ==> 48 <= s[i] <= 55) || s[5] != SPACE then RBad
    else
      var mode := FromOct(s[1], s[2], s[3], s[4]);
      var (size, k) := ParseDec(s, 6, 0);
      if k >= |s| || s[k] != SPACE then RBad
      else
        var name := s[k + 1..];
        if SLASH in name || name == [46, 46] then RBad
        else if s[0] == 67 then RFile(mode, size, name) else RDir(mode, name)
  }

  /** The four numbers of a T record. */
  function ParseTimes(s: seq<byte>): Record
    requires s != []
  {
    var (m, i) := ParseDec(s, 1, 0);
    if i >= |s| || s[i] != SPACE then RBad
    else
      var (_, j) := ParseDec(s, i + 1, 0);
      if j >= |s| || s[j] != SPACE then RBad
      else
        var (a, k) := ParseDec(s, j + 1, 0);
        if k >= |s| || s[k] != SPACE then RBad
        else
          var (_, l) := ParseDec(s, k + 1, 0);
          if l != |s| then RBad else RTimes(Times(Saturated(m), Saturated(a)))
  }

  /** A control record without its newline. */
  function Parse(s: seq<byte>): Record
    requires s != []
  {
    if s[0] == 69 then REnd
    else if s[0] == 84 then ParseTimes(s)
    else if s[0] == 67 || s[0] == 68 then ParseEntry(s)
    else RBad
  }

  lemma {:induction false} DecDigits(s: seq<byte>, i: nat, acc: nat, n: nat)
    requires i + |Dec(n)| <= |s| && s[i..i + |Dec(n)|] == Dec(n)
    ensures ParseDec(s, i, acc) == ParseDec(s, i + |Dec(n)|, acc * Pow(10, |Dec(n)|) + n)
    decreases n
  {
    hide ParseDec, Pow;
    var d := Dec(n);
    assert s[i] == s[i..i + |d|][0];
    if n < 10 {
      ParseDigit(s, i, acc);
      OneMoreDigit(acc, 0, n);
    } else {
      var e := Dec(n / 10);
      var k := |e|;
      assert d[..k] == e && s[i..i + k] == s[i..i + |d|][..k];
      DecDigits(s, i, acc, n / 10);
      assert s[i + k] == s[i..i + |d|][k] == 48 + n % 10;
      ParseDigit(s, i + k, acc * Pow(10, k) + n / 10);
      OneMoreDigit(acc, k, n);
    }
  }

  lemma ParseDigit(s: seq<byte>, i: nat, acc: nat)
    requires i < |s| && Digit(s[i])
    ensures ParseDec(s, i, acc) == ParseDec(s, i + 1, acc * 10 + (s[i] - 48))
  {
  }

  lemma OneMoreDigit(acc: nat, k: nat, n: nat)
    ensures (acc * Pow(10, k) + n / 10) * 10 + n % 10 == acc * Pow(10, k + 1) + n
    ensures k == 0 ==> acc * Pow(10, k) == acc
  {
    var a := acc * Pow(10, k);
    assert Pow(10, k + 1) == 10 * Pow(10, k);
    assert acc * Pow(10, k + 1) == 10 * a by { SwapFactors(acc, 10, Pow(10, k)); }
  }

  /** A number followed by something else parses back. */
  lemma DecParses(s: seq<byte>, i: nat, n: nat)
    requires i + |Dec(n)| <= |s| && s[i..i + |Dec(n)|] == Dec(n)
    requires i + |Dec(n)| == |s| || !Digit(s[i + |Dec(n)|])
    ensures ParseDec(s, i, 0) == (n, i + |Dec(n)|)
  {
    DecDigits(s, i, 0, n);
    assert 0 * Pow(10, |Dec(n)|) == 0;
  }

  predicate GoodName(name: seq<byte>) {
    SLASH !in name && NEWLINE !in name && 0 !in name && name != [46, 46]
  }

  predicate GoodMode(mode: nat) { mode < 4096 }

  lemma Oct4Back(m: nat)
    requires GoodMode(m)
    ensures var o := Oct4(m);
      && (forall i :: 0 <= i < 4 ==> 48 <= o[i] <= 55)
      && FromOct(o[0], o[1], o[2], o[3]) == m
  {
    var a, b, c := m / 8, m / 64, m / 512;
    assert m == 8 * a + m % 8 && a == 8 * b + a % 8 && b == 8 * c + b % 8;
    assert a / 8 == b && b / 8 == c && c < 8;
  }

  lemma FileLineParses(n: Node)
    requires n.File? && GoodName(n.name) && GoodMode(n.mode)
    ensures Parse(FileLine(n)) == RFile(Masked(n.mode), |n.content|, n.name)
  {
    hide And;
    var o, d, s := Oct4(Masked(n.mode)), Dec(|n.content|), FileLine(n);
    MaskedIs(n.mode);
    Oct4Back(Masked(n.mode));
    assert s[1] == o[0] && s[2] == o[1] && s[3] == o[2] && s[4] == o[3] && s[5] == SPACE;
    assert s[6..6 + |d|] == d;
    assert s[6 + |d|] == SPACE;
    DecParses(s, 6, |n.content|);
    assert s[7 + |d|..] == n.name;
  }

  lemma DirLineParses(n: Node)
    requires GoodName(n.name) && GoodMode(n.mode)
    ensures Parse(DirLine(n)) == RDir(Masked(n.mode), Cut(n.name))
  {
    hide And;
    var o, s := Oct4(Masked(n.mode)), DirLine(n);
    MaskedIs(n.mode);
    Oct4Back(Masked(n.mode));
    assert s[1] == o[0] && s[2] == o[1] && s[3] == o[2] && s[4] == o[3] && s[5] == SPACE;
    assert Dec(0) == [48];
    assert s[6..7] == Dec(0) && s[7] == SPACE;
    DecParses(s, 6, 0);
    assert s[8..] == Cut(n.name);
    assert |Cut(n.name)| == NAME_CUT || Cut(n.name) == n.name;
  }

  lemma TimesLineParses(t: Times)
    ensures Parse(TimesLine(t)) == RTimes(Arriving(t))
  {
    hide Dec, ParseDec, Printed, Saturated;
    var m, a, s := Dec(Printed(t.mtime)), Dec(Printed(t.atime)), TimesLine(t);
    var z := Dec(0);
    assert z == [48] by { DecZero(); }
    var p1 := [84];
    var p2 := p1 + m + [SPACE];
    var p3 := p2 + z + [SPACE];
    var p4 := p3 + a + [SPACE];
    assert s == p4 + z + [];
    assert s == p3 + a + ([SPACE] + z);
    assert s == p2 + z + ([SPACE] + a + [SPACE] + z);
    assert s == p1 + m + ([SPACE] + z + [SPACE] + a + [SPACE] + z);
    DecWithin(p1, Printed(t.mtime), [SPACE] + z + [SPACE] + a + [SPACE] + z);
    DecWithin(p2, 0, [SPACE] + a + [SPACE] + z);
    DecWithin(p3, Printed(t.atime), [SPACE] + z);
    DecWithin(p4, 0, []);
  }

  lemma DecZero()
    ensures Dec(0) == [48]
  {
  }

  lemma DecWithin(pre: seq<byte>, n: nat, post: seq<byte>)
    requires post == [] || !Digit(post[0])
    ensures var s := pre + Dec(n) + post;
      && ParseDec(s, |pre|, 0) == (n, |pre| + |Dec(n)|)
      && (post != [] ==> s[|pre| + |Dec(n)|] == post[0])
  {
    hide Dec, ParseDec;
    var s := pre + Dec(n) + post;
    assert s[|pre|..|pre| + |Dec(n)|] == Dec(n);
    DecParses(s, |pre|, n);
  }

  // --------------------------------------------------------------- the sender

  /** One byte written to the other side, or one byte read from it. */
  datatype Act = Put(b: byte) | Get(b: byte)

  function Puts(b: seq<byte>): (a: seq<Act>)
    ensures |a| == |b| && forall i :: 0 <= i < |b| ==> a[i] == Put(b[i])
  {
    seq(|b|, i requires 0 <= i < |b| => Put(b[i]))
  }

  function Gets(b: seq<byte>): (a: seq<Act>)
    ensures |a| == |b| && forall i :: 0 <= i < |b| ==> a[i] == Get(b[i])
  {
    seq(|b|, i requires 0 <= i < |b| => Get(b[i]))
  }

  /** A control record and the wait for its acknowledgement. */
  function Send(line: seq<byte>): seq<Act> {
    Puts(line + [NEWLINE]) + [Get(0)]
  }

  function SendTimes(p: bool, t: Times): seq<Act> {
    if p then Send(TimesLine(t)) else []
  }

  /** source and rsource on one node, when every response is positive. */
  function Source(p: bool, n: Node): seq<Act> {
    match n
    case File(_, _, t, c) => SendTimes(p, t) + (Send(FileLine(n)) + (Puts(c) + [Put(0), Get(0)]))
    case Dir(_, _, t, kids) => SendTimes(p, t) + (Send(DirLine(n)) + (SourceAll(p, kids) + Send(END_LINE)))
  }

  function SourceAll(p: bool, ns: seq<Node>): seq<Act> {
    if ns == [] then [] else Source(p, ns[0]) + SourceAll(p, ns[1..])
  }

  /** The bytes written, in order. */
  function Written(a: seq<Act>): seq<byte> {
    if a == [] then [] else (if a[0].Put? then [a[0].b] else []) + Written(a[1..])
  }

  function Mirror(x: Act): Act { if x.Put? then Get(x.b) else Put(x.b) }

  /** The other side of a conversation. */
  function Dual(a: seq<Act>): (d: seq<Act>)
    ensures |d| == |a| && forall i :: 0 <= i < |a| ==> d[i] == Mirror(a[i])
  {
    seq(|a|, i requires 0 <= i < |a| => Mirror(a[i]))
  }

  // ------------------------------------------------------------- the receiver

  /** What a call of sink did from some point on: its reads and writes, the entries it made,
      and the input it left. `ok` is false after a protocol error. */
  datatype Out = Out(trace: seq<Act>, got: seq<Entry>, rest: seq<byte>, ok: bool)

  /** The next control line with its newline, or as much of it as the line buffer takes. */
  function LineOf(s: seq<byte>, room: nat): (l: seq<byte>)
    ensures |l| <= |s| && l == s[..|l|]
    ensures s != [] && room > 0 ==> |l| > 0
  {
    if s == [] || room == 0 then [] else if s[0] == NEWLINE then [NEWLINE] else [s[0]] + LineOf(s[1..], room - 1)
  }

  function Strip(line: seq<byte>): seq<byte>
    requires line != []
  {
    if line[|line| - 1] == NEWLINE then line[..|line| - 1] else line
  }

  function After(done: seq<Act>, made: seq<Entry>, r: Out): Out {
    Out(done + r.trace, made + r.got, r.rest, r.ok)
  }

  /** The loop of sink; `stamp` is what the last T record announced. */
  function SinkLoop(fl: Flags, inp: seq<byte>, stamp: Option<Times>): (r: Out)
    ensures |r.rest| <= |inp|
    decreases |inp|
  {
    if inp == [] then Out([], [], [], true)
    else
      var line := LineOf(inp, LINE_SIZE - 1);
      var s := Strip(line);
      var rest := inp[|line|..];
      if s == [] then Out(Gets(line), [], rest, false)
      else
        match Parse(s)
        case RBad => Out(Gets(line), [], rest, false)
        case REnd => Out(Gets(line) + [Put(0)], [], rest, true)
        case RTimes(t) => After(Gets(line) + [Put(0)], [], SinkLoop(fl, rest, Some(t)))
        case RFile(mode, size, name) =>
          if |rest| <= size || rest[size] != 0 then Out(Gets(line) + [Put(0)], [], [], false)
          else After(Gets(line) + ([Put(0)] + (Gets(rest[..size]) + [Get(0), Put(0)])),
                     [FileEntry(name, FileMode(fl, mode), stamp, rest[..size])],
                     SinkLoop(fl, rest[size + 1..], None))
        case RDir(mode, name) =>
          var k := SinkLoop(fl, rest, None);
          if !k.ok then Out(Gets(line) + ([Put(0)] + k.trace), [], k.rest, false)
          else After(Gets(line) + ([Put(0)] + k.trace), [DirEntry(name, mode, stamp, k.got)], SinkLoop(fl, k.rest, None))
  }

  /** sink: an acknowledgement first, then the loop. */
  function Sink(fl: Flags, inp: seq<byte>): Out {
    After([Put(0)], [], SinkLoop(fl, inp, None))
  }

  // --------------------------------------------------------------- well formed

  /** A tree the sender can describe and the receiver accepts: names without slash or newline
      and not "..", twelve mode bits, file sizes that an off_t holds, and paths
      that fit the path buffer. */
  predicate GoodNode(n: Node, path: nat) {
    && GoodName(n.name) && GoodMode(n.mode) && |n.name| <= path < PATH_SIZE
    && match n
       case File(_, _, _, c) => |c| < 0x8000_0000_0000_0000
       case Dir(_, _, _, kids) => GoodNodes(kids, path)
  }

  predicate GoodNodes(ns: seq<Node>, path: nat) {
    ns == [] || (path + 1 + |ns[0].name| < PATH_SIZE - 1 && GoodNode(ns[0], path + 1 + |ns[0].name|) && GoodNodes(ns[1..], path))
  }

  // ----------------------------------------------------------------- lemmas

  lemma {:induction false} LineFound(s: seq<byte>, rest: seq<byte>, room: nat)
    requires NEWLINE !in s && |s| < room
    ensures LineOf(s + [NEWLINE] + rest, room) == s + [NEWLINE]
    decreases |s|
  {
    var t := s + [NEWLINE] + rest;
    if s == [] {
      assert t[0] == NEWLINE;
      assert s + [NEWLINE] == [NEWLINE];
    } else {
      assert t[0] == s[0] && t[1..] == s[1..] + [NEWLINE] + rest;
      LineFound(s[1..], rest, room - 1);
      assert [s[0]] + (s[1..] + [NEWLINE]) == s + [NEWLINE];
    }
  }

  lemma {:induction false} WrittenConcat(a: seq<Act>, b: seq<Act>)
    ensures Written(a + b) == Written(a) + Written(b)
    decreases |a|
  {
    if a == [] {
      assert a + b == b;
    } else {
      assert (a + b)[0] == a[0] && (a + b)[1..] == a[1..] + b;
      WrittenConcat(a[1..], b);
      var h := if a[0].Put? then [a[0].b] else [];
      assert h + (Written(a[1..]) + Written(b)) == h + Written(a[1..]) + Written(b);
    }
  }

  lemma {:induction false} WrittenPuts(b: seq<byte>)
    ensures Written(Puts(b)) == b
    decreases |b|
  {
    if b != [] {
      assert Puts(b)[1..] == Puts(b[1..]);
      WrittenPuts(b[1..]);
    }
  }

  lemma DualConcat(a: seq<Act>, b: seq<Act>)
    ensures Dual(a + b) == Dual(a) + Dual(b)
  {
  }

  lemma DualPuts(b: seq<byte>)
    ensures Dual(Puts(b)) == Gets(b)
  {
  }

  lemma SendFacts(line: seq<byte>)
    ensures Written(Send(line)) == line + [NEWLINE]
    ensures Dual(Send(line)) == Gets(line + [NEWLINE]) + [Put(0)]
  {
    var l := line + [NEWLINE];
    WrittenConcat(Puts(l), [Get(0)]);
    WrittenPuts(l);
    assert Written([Get(0)]) == [] by { assert [Get(0)][1..] == []; }
    assert l + [] == l;
    DualConcat(Puts(l), [Get(0)]);
    DualPuts(l);
    assert Dual([Get(0)]) == [Put(0)];
  }

  lemma NoNewline(n: Node)
    requires GoodName(n.name) && GoodMode(n.mode)
    ensures n.File? ==> NEWLINE !in FileLine(n)
    ensures NEWLINE !in DirLine(n)
  {
    MaskedIs(n.mode);
    Oct4Back(Masked(n.mode));
    if n.File? { DecNoNewline(|n.content|); }
  }

  lemma {:induction false} DecNoNewline(n: nat)
    ensures NEWLINE !in Dec(n)
    decreases n
  {
    if n >= 10 { DecNoNewline(n / 10); }
  }

  lemma TimesNoNewline(t: Times)
    ensures NEWLINE !in TimesLine(t)
  {
    DecNoNewline(Printed(t.mtime));
    DecNoNewline(Printed(t.atime));
  }

  /** The receiver meets a line that the sender wrote. */
  lemma MeetsLine(fl: Flags, line: seq<byte>, rest: seq<byte>)
    requires line != [] && NEWLINE !in line && |line| < LINE_SIZE - 1
    ensures var inp := line + [NEWLINE] + rest; var l := LineOf(inp, LINE_SIZE - 1);
      l == line + [NEWLINE] && Strip(l) == line && inp[|l|..] == rest
  {
    LineFound(line, rest, LINE_SIZE - 1);
  }

  lemma AfterAfter(a: seq<Act>, b: seq<Act>, m: seq<Entry>, n: seq<Entry>, r: Out)
    ensures After(a, m, After(b, n, r)) == After(a + b, m + n, r)
  {
    assert a + (b + r.trace) == a + b + r.trace;
    assert m + (n + r.got) == m + n + r.got;
  }

  lemma MeetsTimes(fl: Flags, t: Times, rest: seq<byte>)
    ensures SinkLoop(fl, TimesLine(t) + [NEWLINE] + rest, None)
      == After(Dual(Send(TimesLine(t))), [], SinkLoop(fl, rest, Some(Arriving(t))))
  {
    TimesLineShort(t);
    hide Parse, LineOf, Strip, Dual, Send;
    var line := TimesLine(t);
    TimesNoNewline(t);
    assert line != [];
    hide TimesLine;
    MeetsLine(fl, line, rest);
    TimesLineParses(t);
    SendFacts(line);
  }

  lemma {:induction false} DecLength(n: nat, k: nat)
    requires k > 0 && n < Pow(10, k)
    ensures |Dec(n)| <= k
    decreases k
  {
    assert Pow(10, k) == 10 * Pow(10, k - 1) && Pow(10, 0) == 1;
    if n >= 10 {
      DecLength(n / 10, k - 1);
    }
  }

  /** Twenty decimal digits hold any number of 64 bits. */
  lemma TwentyDigits(n: nat, k: nat)
    requires n < 0x1_0000_0000_0000_0000 && k == 20
    ensures |Dec(n)| <= 20
  {
    var t := 10;
    assert Pow(10, 5) == 100000 by { assert Pow(10, 3) == 1000; }
    PowAdd(t, 5, 5);
    PowAdd(t, 10, 10);
    DecLength(n, k);
  }

  lemma TimesLineShort(t: Times)
    ensures |TimesLine(t)| < PATH_SIZE - 1
  {
    hide Dec;
    CongSelfMod(t.mtime, 2 * (LONG_MAX + 1));
    CongSelfMod(t.atime, 2 * (LONG_MAX + 1));
    TwentyDigits(Printed(t.mtime), 20);
    TwentyDigits(Printed(t.atime), 20);
  }

  lemma MeetsEnd(fl: Flags, rest: seq<byte>)
    ensures SinkLoop(fl, END_LINE + [NEWLINE] + rest, None) == Out(Dual(Send(END_LINE)), [], rest, true)
  {
    hide LineOf, Strip, Dual, Send;
    MeetsLine(fl, END_LINE, rest);
    SendFacts(END_LINE);
  }

  /** What the sender does for a file after the times. */
  function FileActs(n: Node): seq<Act>
    requires n.File?
  {
    Send(FileLine(n)) + (Puts(n.content) + [Put(0), Get(0)])
  }

  lemma FileFacts(n: Node)
    requires n.File?
    ensures Written(FileActs(n)) == FileLine(n) + [NEWLINE] + (n.content + [0])
    ensures Dual(FileActs(n)) == Gets(FileLine(n) + [NEWLINE]) + ([Put(0)] + (Gets(n.content) + [Get(0), Put(0)]))
  {
    hide FileLine, Send;
    var tail := [Put(0), Get(0)];
    SendFacts(FileLine(n));
    WrittenConcat(Send(FileLine(n)), Puts(n.content) + tail);
    WrittenConcat(Puts(n.content), tail);
    WrittenPuts(n.content);
    assert Written(tail) == [0] by { assert tail[1..] == [Get(0)] && [Get(0)][1..] == []; }
    DualConcat(Send(FileLine(n)), Puts(n.content) + tail);
    DualConcat(Puts(n.content), tail);
    DualPuts(n.content);
    assert Dual(tail) == [Get(0), Put(0)];
    var g := Gets(FileLine(n) + [NEWLINE]);
    assert g + [Put(0)] + (Gets(n.content) + [Get(0), Put(0)]) == g + ([Put(0)] + (Gets(n.content) + [Get(0), Put(0)]));
  }

  lemma MeetsFile(fl: Flags, n: Node, path: nat, tail: seq<byte>, stamp: Option<Times>)
    requires n.File? && GoodNode(n, path)
    ensures SinkLoop(fl, Written(FileActs(n)) + tail, stamp)
      == After(Dual(FileActs(n)), [FileEntry(n.name, FileMode(fl, Masked(n.mode)), stamp, n.content)], SinkLoop(fl, tail, None))
  {
    hide Parse, LineOf, Strip, Dual, FileActs, Oct4, Dec;
    var line := FileLine(n);
    TwentyDigits(|n.content|, 20);
    NoNewline(n);
    assert line != [];
    var rest := n.content + [0] + tail;
    FileFacts(n);
    FileLineParses(n);
    hide FileLine;
    MeetsLine(fl, line, rest);
    assert line + [NEWLINE] + (n.content + [0]) + tail == line + [NEWLINE] + rest;
    var size := |n.content|;
    assert rest[size] == 0 && rest[..size] == n.content && rest[size + 1..] == tail;
  }

  /** What the sender does for a directory after the times. */
  function DirActs(p: bool, n: Node): seq<Act>
    requires n.Dir?
  {
    Send(DirLine(n)) + (SourceAll(p, n.kids) + Send(END_LINE))
  }

  lemma DirFacts(p: bool, n: Node)
    requires n.Dir?
    ensures Written(DirActs(p, n)) == DirLine(n) + [NEWLINE] + (Written(SourceAll(p, n.kids)) + (END_LINE + [NEWLINE]))
    ensures Dual(DirActs(p, n)) == Gets(DirLine(n) + [NEWLINE]) + ([Put(0)] + (Dual(SourceAll(p, n.kids)) + Dual(Send(END_LINE))))
  {
    hide DirLine, Send, SourceAll, Dual;
    var k := SourceAll(p, n.kids);
    SendFacts(DirLine(n));
    SendFacts(END_LINE);
    WrittenConcat(Send(DirLine(n)), k + Send(END_LINE));
    WrittenConcat(k, Send(END_LINE));
    DualConcat(Send(DirLine(n)), k + Send(END_LINE));
    DualConcat(k, Send(END_LINE));
    var g, r := Gets(DirLine(n) + [NEWLINE]), Dual(k) + Dual(Send(END_LINE));
    assert g + [Put(0)] + r == g + ([Put(0)] + r);
  }

  lemma MeetsDir(fl: Flags, n: Node, path: nat, tail: seq<byte>, stamp: Option<Times>)
    requires n.Dir? && GoodNode(n, path)
    ensures SinkLoop(fl, Written(DirActs(fl.p, n)) + tail, stamp)
      == After(Dual(DirActs(fl.p, n)), [DirEntry(Cut(n.name), Masked(n.mode), stamp, MadeAll(fl, n.kids))], SinkLoop(fl, tail, None))
    decreases n, 0
  {
    hide Parse, LineOf, Strip, Dual, DirActs, Send, SourceAll, Written;
    var line, kids := DirLine(n), Written(SourceAll(fl.p, n.kids));
    NoNewline(n);
    assert line != [];
    var rest := kids + (END_LINE + [NEWLINE] + tail);
    DirFacts(fl.p, n);
    DirLineParses(n);
    hide DirLine;
    MeetsLine(fl, line, rest);
    assert line + [NEWLINE] + (kids + (END_LINE + [NEWLINE])) + tail == line + [NEWLINE] + rest;
    MeetsAll(fl, n.kids, path, END_LINE + [NEWLINE] + tail);
    MeetsEnd(fl, tail);
    assert MadeAll(fl, n.kids) + [] == MadeAll(fl, n.kids);
  }

  /** The receiver, fed what the sender writes for a node, does the sender's part in reverse and
      makes what the records say of the node. */
  lemma MeetsNode(fl: Flags, n: Node, path: nat, tail: seq<byte>)
    requires GoodNode(n, path)
    ensures SinkLoop(fl, Written(Source(fl.p, n)) + tail, None)
      == After(Dual(Source(fl.p, n)), [Made(fl, n)], SinkLoop(fl, tail, None))
    decreases n, 1
  {
    hide FileActs, DirActs, Send, TimesLine, Dual, Written, SinkLoop, Source, SourceAll;
    var body := if n.File? then FileActs(n) else DirActs(fl.p, n);
    var stamp := Stamp(fl, Arriving(n.times));
    assert Source(fl.p, n) == SendTimes(fl.p, n.times) + body by { SourceIs(fl.p, n); }
    if n.File? { MeetsFile(fl, n, path, tail, stamp); } else { MeetsDir(fl, n, path, tail, stamp); }
    if fl.p {
      var t := TimesLine(n.times);
      WrittenConcat(Send(t), body);
      SendFacts(t);
      assert t + [NEWLINE] + Written(body) + tail == t + [NEWLINE] + (Written(body) + tail);
      MeetsTimes(fl, n.times, Written(body) + tail);
      DualConcat(Send(t), body);
      AfterAfter(Dual(Send(t)), Dual(body), [], [Made(fl, n)], SinkLoop(fl, tail, None));
      assert [] + [Made(fl, n)] == [Made(fl, n)];
    } else {
      assert [] + body == body;
    }
  }

  lemma SourceIs(p: bool, n: Node)
    ensures Source(p, n) == SendTimes(p, n.times) + (if n.File? then FileActs(n) else DirActs(p, n))
  {
  }

  lemma MeetsAll(fl: Flags, ns: seq<Node>, path: nat, tail: seq<byte>)
    requires GoodNodes(ns, path)
    ensures SinkLoop(fl, Written(SourceAll(fl.p, ns)) + tail, None)
      == After(Dual(SourceAll(fl.p, ns)), MadeAll(fl, ns), SinkLoop(fl, tail, None))
    decreases ns, 2
  {
    hide Source, Dual, Written, SinkLoop, Made;
    if ns == [] {
      NothingHappens(SinkLoop(fl, tail, None));
      assert Written([]) + tail == tail by { NothingWritten(); }
    } else {
      var a, b := Source(fl.p, ns[0]), SourceAll(fl.p, ns[1..]);
      WrittenConcat(a, b);
      DualConcat(a, b);
      assert Written(a) + Written(b) + tail == Written(a) + (Written(b) + tail);
      MeetsNode(fl, ns[0], path + 1 + |ns[0].name|, Written(b) + tail);
      MeetsAll(fl, ns[1..], path, tail);
      AfterAfter(Dual(a), Dual(b), [Made(fl, ns[0])], MadeAll(fl, ns[1..]), SinkLoop(fl, tail, None));
    }
  }

  lemma NothingWritten()
    ensures Written([]) == []
  {
  }

  lemma NothingHappens(r: Out)
    ensures After(Dual([]), [], r) == r
  {
    assert Dual([]) + r.trace == r.trace && [] + r.got == r.got;
  }

  /** The whole transfer: the sender waits for the first acknowledgement, then walks its trees. */
  function SenderActs(p: bool, ns: seq<Node>): seq<Act> { [Get(0)] + SourceAll(p, ns) }

  /** The receiver, reading what the sender writes, reads every byte and stops; its reads and
      writes are the sender's, in reverse; and what it makes is an exact copy of every tree if and
      only if no mode has the sticky bit, no directory name is over 1024 bytes and, with -p, no time
      is before 1970. */
  lemma TransferCorrect(fl: Flags, ns: seq<Node>, path: nat)
    requires GoodNodes(ns, path) && AllStatsFit(ns)
    ensures var r := Sink(fl, Written(SenderActs(fl.p, ns)));
      && r.ok && r.rest == [] && r.trace == Dual(SenderActs(fl.p, ns)) && r.got == MadeAll(fl, ns)
      && (r.got == CopyAll(fl, ns) <==> ExactAll(fl, ns))
  {
    hide SourceAll, Dual;
    var a := SourceAll(fl.p, ns);
    assert (SenderActs(fl.p, ns))[0] == Get(0) && SenderActs(fl.p, ns)[1..] == a;
    var w := Written(a);
    assert Written(SenderActs(fl.p, ns)) == [] + w == w;
    MeetsAll(fl, ns, path, []);
    assert w + [] == w;
    DualConcat([Get(0)], a);
    assert Dual([Get(0)]) == [Put(0)] by { DualGet(); }
    assert Dual(a) + [] == Dual(a) && MadeAll(fl, ns) + [] == MadeAll(fl, ns) && [] + MadeAll(fl, ns) == MadeAll(fl, ns);
    AllMadeExactlyIff(fl, ns);
  }

  lemma DualGet()
    ensures Dual([Get(0)]) == [Put(0)]
  {
  }
}
