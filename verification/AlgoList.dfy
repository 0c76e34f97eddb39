/**
  Algorithm name lists on the wire (section 7.1 of RFC 4253): buf_put_algolist writes them,
  and the two matching functions split them in place and search (common-algo.c, svr-algo.c,
  cli-algo.c).
*/
module AlgoList {
  import opened Wrappers
  import opened Bytes
  import opened NumberTheory
  import opened AlgoMatch
  import KeyCodec

  const MAX_PROPOSED_ALGO: nat := 20
  const MAX_NAME_LEN: nat := 64
  const ALGOLIST_SIZE: nat := 160

  // ---------------------------------------------------------------- splitting

  /** The C string that starts at i. */
  function StrAt(s: seq<byte>, i: nat): seq<byte>
    decreases |s| - i
  {
    if i >= |s| || s[i] == 0 then [] else [s[i]] + StrAt(s, i + 1)
  }

  /** The words of a list, where `cur` has been read of the current one and `room` more may be
      started; the last one allowed takes everything to the end. None for a stray zero byte. */
  function Words(s: seq<byte>, cur: Name, room: nat): Option<seq<Name>>
    decreases |s|
  {
    if room == 0 then Some([cur + StrAt(s, 0)])
    else if s == [] then Some([cur])
    else if s[0] == 0 then None
    else if s[0] == COMMA then
      var rest := Words(s[1..], [], room - 1);
      if rest.None? then None else Some([cur] + rest.value)
    else Words(s[1..], cur + [s[0]], room)
  }

  predicate PlainName(n: Name) {
    forall i :: 0 <= i < |n| ==> n[i] != 0 && n[i] != COMMA
  }

  lemma {:induction false} StrAtAll(s: seq<byte>, i: nat)
    requires i <= |s| && forall j :: i <= j < |s| ==> s[j] != 0
    ensures StrAt(s, i) == s[i..]
    decreases |s| - i
  {
    if i < |s| { StrAtAll(s, i + 1); }
  }

  lemma {:induction false} WordEnds(n: Name, cur: Name, rest: seq<byte>, room: nat)
    requires PlainName(n) && room > 0
    ensures Words(n + rest, cur, room) == Words(rest, cur + n, room)
    decreases |n|
  {
    if n == [] {
      assert n + rest == rest && cur + n == cur;
    } else {
      assert (n + rest)[0] == n[0] && (n + rest)[1..] == n[1..] + rest;
      WordEnds(n[1..], cur + [n[0]], rest, room);
      assert cur + [n[0]] + n[1..] == cur + n;
    }
  }

  /** Splitting undoes joining, for up to room + 1 names without commas or zero bytes. */
  lemma {:induction false} SplitJoined(names: seq<Name>, room: nat)
    requires 1 <= |names| <= room + 1 && forall i :: 0 <= i < |names| ==> PlainName(names[i])
    ensures Words(Join(names), [], room) == Some(names)
    decreases |names|
  {
    var n := names[0];
    if |names| == 1 {
      assert names == [n];
      if room == 0 {
        StrAtAll(n, 0);
        assert [] + n == n && n[0..] == n;
      } else {
        WordEnds(n, [], [], room);
        assert n + [] == n && [] + n == n;
      }
    } else {
      var rest := [COMMA] + Join(names[1..]);
      assert Join(names) == n + rest;
      WordEnds(n, [], rest, room);
      assert rest[1..] == Join(names[1..]) && [] + n == n;
      SplitJoined(names[1..], room - 1);
      assert [n] + names[1..] == names;
    }
  }

  ghost function Onto(done: seq<Name>, rest: Option<seq<Name>>): Option<seq<Name>> {
    if rest.None? then None else Some(done + rest.value)
  }

  lemma OntoNothing(r: Option<seq<Name>>)
    ensures Onto([], r) == r
  {
    if r.Some? { assert [] + r.value == r.value; }
  }

  lemma OntoMore(done: seq<Name>, w: Name, r: Option<seq<Name>>)
    ensures Onto(done, if r.None? then None else Some([w] + r.value)) == Onto(done + [w], r)
  {
    if r.Some? { assert done + ([w] + r.value) == done + [w] + r.value; }
  }

  /** The word w stands at b, with a zero byte after it. */
  predicate Is(t: seq<byte>, b: nat, w: Name) {
    && b + |w| < |t| && t[b..b + |w|] == w && t[b + |w|] == 0
    && forall k :: 0 <= k < |w| ==> w[k] != 0
  }

  lemma {:induction false} IsStr(t: seq<byte>, b: nat, w: Name)
    requires Is(t, b, w)
    ensures StrAt(t, b) == w
    decreases |w|
  {
    if w != [] {
      assert t[b] == t[b..b + |w|][0] == w[0];
      assert t[b + 1..b + |w|] == t[b..b + |w|][1..] == w[1..];
      IsStr(t, b + 1, w[1..]);
    }
  }

  /** The unfinished word from b to i is as in the original list s. */
  predicate WordAt(t: seq<byte>, b: nat, i: nat, s: seq<byte>) {
    b <= i <= |s| < |t| && t[b..i] == s[b..i] && forall k :: b <= k < i ==> s[k] != 0
  }

  /** A write at i changes no finished word. */
  lemma KeepsWord(t: seq<byte>, b: nat, w: Name, i: nat)
    requires Is(t, b, w) && b + |w| < i < |t|
    ensures Is(t[i := 0], b, w)
  {
    assert t[i := 0][b..b + |w|] == t[b..b + |w|];
  }

  lemma Terminated(t: seq<byte>, b: nat, i: nat, s: seq<byte>)
    requires WordAt(t, b, i, s) && i < |t|
    ensures Is(t[i := 0], b, s[b..i])
  {
    assert t[i := 0][b..i] == t[b..i];
  }

  /** Where the scan stops, the rest of the array is the last word. */
  lemma LastWord(t: seq<byte>, b: nat, i: nat, s: seq<byte>, room: nat)
    requires WordAt(t, b, i, s) && |t| == |s| + 1 && t[i..] == s[i..] + [0]
    requires i == |s| || (room == 0 && b == i)
    ensures Words(s[i..], s[b..i], room) == Some([StrAt(t, b)])
  {
    if i == |s| {
      assert s[i..] == [];
      assert t[i] == t[i..][0] == 0;
      assert t[i := 0] == t;
      Terminated(t, b, i, s);
      IsStr(t, b, s[b..i]);
      assert s[b..i] + [] == s[b..i];
    } else {
      assert s[b..i] == [];
      SameTail(t, s, i, s[i..], 0);
      assert [] + StrAt(s[i..], 0) == StrAt(s[i..], 0);
    }
  }

  lemma {:induction false} SameTail(t: seq<byte>, s: seq<byte>, i: nat, u: seq<byte>, k: nat)
    requires i + k <= |s| && |t| == |s| + 1 && t[i..] == s[i..] + [0] && u == s[i..]
    ensures StrAt(t, i + k) == StrAt(u, k)
    decreases |s| - i - k
  {
    assert t[i + k] == t[i..][k];
    if i + k < |s| && t[i + k] != 0 { SameTail(t, s, i, u, k + 1); }
  }

  /** What the scan knows after i bytes: the finished words stand in the array, the current one
      is under way, the rest is untouched, and the words to come complete the split. */
  ghost predicate Scanned(t: seq<byte>, s: seq<byte>, i: nat, begins: seq<nat>, done: seq<Name>) {
    && i <= |s| && |t| == |s| + 1 && 1 <= |begins| <= 20 && |done| == |begins| - 1
    && t[i..] == s[i..] + [0] && WordAt(t, begins[|begins| - 1], i, s)
    && (forall j :: 0 <= j < |done| ==> begins[j] + |done[j]| < begins[|begins| - 1] && Is(t, begins[j], done[j]))
    && Words(s, [], 19) == Onto(done, Words(s[i..], s[begins[|begins| - 1]..i], 20 - |begins|))
  }

  lemma ScanStart(s: seq<byte>)
    ensures Scanned(s + [0], s, 0, [0], [])
  {
    assert s[0..] == s && s[0..0] == [] && (s + [0])[0..] == s + [0] && (s + [0])[0..0] == [];
    OntoNothing(Words(s, [], 19));
  }

  lemma ScanOther(t: seq<byte>, s: seq<byte>, i: nat, begins: seq<nat>, done: seq<Name>)
    requires Scanned(t, s, i, begins, done) && i < |s| && |begins| < 20 && t[i] != 0 && t[i] != COMMA
    ensures Scanned(t, s, i + 1, begins, done)
  {
    var b := begins[|begins| - 1];
    assert t[i] == t[i..][0] == s[i] && s[i..][0] == s[i] && s[i..][1..] == s[i + 1..];
    assert t[i + 1..] == t[i..][1..] && (s[i..] + [0])[1..] == s[i + 1..] + [0];
    assert s[b..i] + [s[i]] == s[b..i + 1] && t[b..i] + [t[i]] == t[b..i + 1];
  }

  lemma ScanComma(t: seq<byte>, s: seq<byte>, i: nat, begins: seq<nat>, done: seq<Name>)
    requires Scanned(t, s, i, begins, done) && i < |s| && |begins| < 20 && t[i] == COMMA
    ensures begins[|begins| - 1] <= i
    ensures Scanned(t[i := 0], s, i + 1, begins + [i + 1], done + [s[begins[|begins| - 1]..i]])
  {
    var b := begins[|begins| - 1];
    var cur, t1 := s[b..i], t[i := 0];
    assert t[i] == t[i..][0] == s[i] && s[i..][0] == s[i] && s[i..][1..] == s[i + 1..];
    assert t1[i + 1..] == t[i..][1..] && (s[i..] + [0])[1..] == s[i + 1..] + [0];
    assert s[i + 1..i + 1] == [] && t1[i + 1..i + 1] == [];
    Terminated(t, b, i, s);
    forall j | 0 <= j < |done| ensures Is(t1, begins[j], done[j]) { KeepsWord(t, begins[j], done[j], i); }
    OntoMore(done, cur, Words(s[i + 1..], [], 18 - |done|));
  }

  lemma ScanZero(t: seq<byte>, s: seq<byte>, i: nat, begins: seq<nat>, done: seq<Name>)
    requires Scanned(t, s, i, begins, done) && i < |s| && |begins| < 20 && t[i] == 0
    ensures Words(s, [], 19) == None
  {
    assert t[i] == t[i..][0] == s[i] && s[i..][0] == s[i];
  }

  lemma ScanEnd(t: seq<byte>, s: seq<byte>, i: nat, begins: seq<nat>, done: seq<Name>)
    requires Scanned(t, s, i, begins, done) && (i == |s| || (|begins| == 20 && begins[19] == i))
    ensures var w := Words(s, [], 19);
      w.Some? && |w.value| == |begins| && forall j :: 0 <= j < |begins| ==> StrAt(t, begins[j]) == w.value[j]
  {
    var b := begins[|begins| - 1];
    LastWord(t, b, i, s, 20 - |begins|);
    forall j | 0 <= j < |done| ensures StrAt(t, begins[j]) == done[j] { IsStr(t, begins[j], done[j]); }
  }

  /** The in-place split: commas become zero bytes, and the words are the C strings at the
      positions returned. */
  method SplitInPlace(a: array<byte>, len: nat) returns (starts: Option<seq<nat>>)
    requires a.Length == len + 1 && a[len] == 0
    modifies a
    ensures var w := Words(old(a[..len]), [], MAX_PROPOSED_ALGO - 1);
      && starts.Some? == w.Some?
      && (starts.Some? ==>
            && |starts.value| == |w.value|
            && forall j :: 0 <= j < |w.value| ==> StrAt(a[..], starts.value[j]) == w.value[j])
  {
    hide Scanned, Words, StrAt;
    ghost var s := a[..len];
    var begins: seq<nat> := [0];
    ghost var done: seq<Name> := [];
    assert a[..] == s + [0];
    ScanStart(s);
    var i := 0;
    while i < len && |begins| < MAX_PROPOSED_ALGO
      invariant 0 <= i <= len && 1 <= |begins| <= 20 && Scanned(a[..], s, i, begins, done)
      invariant |begins| == 20 ==> begins[19] == i
    {
      ghost var t := a[..];
      assert t[i] == a[i];
      if a[i] == 0 {
        ScanZero(t, s, i, begins, done);
        return None;
      }
      if a[i] == COMMA {
        ScanComma(t, s, i, begins, done);
        done := done + [s[Last(begins)..i]];
        a[i] := 0;
        assert a[..] == t[i := 0];
        begins := begins + [i + 1];
      } else {
        ScanOther(t, s, i, begins, done);
      }
      i := i + 1;
    }
    ScanEnd(a[..], s, i, begins, done);
    return Some(begins);
  }

  function Last(begins: seq<nat>): nat
    requires begins != []
  {
    begins[|begins| - 1]
  }

  // ----------------------------------------------------------------- matching

  /** The first row of the table, if any, that is usable and has this name. */
  ghost predicate RowOf(local: seq<Algo>, n: Name, j: nat) {
    && j < |local| && local[j].usable && local[j].name == n
    && forall i :: 0 <= i < j ==> !(local[i].usable && local[i].name == n)
  }

  lemma {:induction false} NoneBefore(remote: seq<Name>, local: seq<Algo>, k: nat)
    requires k <= |remote| && forall i :: 0 <= i < k ==> !Offers(local, remote[i])
    ensures ServerPick(remote, local) == ServerPick(remote[k..], local)
    decreases k
  {
    if k > 0 {
      assert forall i :: 0 <= i < k - 1 ==> remote[1..][i] == remote[i + 1];
      NoneBefore(remote[1..], local, k - 1);
      assert remote[1..][k - 1..] == remote[k..];
    } else {
      assert remote[0..] == remote;
    }
  }

  lemma {:induction false} NoRowBefore(local: seq<Algo>, remote: seq<Name>, k: nat)
    requires k <= |local| && forall i :: 0 <= i < k ==> !(local[i].usable && local[i].name in remote)
    ensures ClientPick(local, remote) == ClientPick(local[k..], remote)
    decreases k
  {
    if k > 0 {
      assert forall i :: 0 <= i < k - 1 ==> local[1..][i] == local[i + 1];
      NoRowBefore(local[1..], remote, k - 1);
      assert local[1..][k - 1..] == local[k..];
    } else {
      assert local[0..] == local;
    }
  }

  /** The server's search: the client's words outermost. */
  method ServerMatch(remote: seq<Name>, local: seq<Algo>) returns (row: Option<nat>, goodguess: bool)
    ensures match ServerPick(remote, local)
            case Some(n) => row.Some? && RowOf(local, n, row.value)
            case None => row.None?
    ensures goodguess == GoodGuess(local, remote)
  {
    hide ServerPick;
    var i := 0;
    while i < |remote|
      invariant 0 <= i <= |remote|
      invariant forall k :: 0 <= k < i ==> !Offers(local, remote[k])
    {
      var j := 0;
      while j < |local|
        invariant 0 <= j <= |local|
        invariant forall k :: 0 <= k < j ==> !(local[k].usable && local[k].name == remote[i])
      {
        if local[j].usable && local[j].name == remote[i] {
          NoneBefore(remote, local, i);
          PickHere(remote[i..], local);
          assert i > 0 ==> !Offers(local, remote[0]);
          return Some(j), i == 0 && j == 0;
        }
        j := j + 1;
      }
      i := i + 1;
    }
    NoneBefore(remote, local, |remote|);
    PickNothing(remote[|remote|..], local);
    assert remote != [] ==> !Offers(local, remote[0]);
    return None, false;
  }

  lemma PickHere(remote: seq<Name>, local: seq<Algo>)
    requires remote != [] && Offers(local, remote[0])
    ensures ServerPick(remote, local) == Some(remote[0])
  {
  }

  lemma PickNothing(remote: seq<Name>, local: seq<Algo>)
    requires remote == []
    ensures ServerPick(remote, local) == None
  {
  }

  /** The client's search: our own rows outermost. */
  method ClientMatch(remote: seq<Name>, local: seq<Algo>) returns (row: Option<nat>, goodguess: bool)
    ensures match ClientPick(local, remote)
            case Some(n) => row.Some? && RowOf(local, n, row.value)
            case None => row.None?
    ensures goodguess == GoodGuess(local, remote)
  {
    var j := 0;
    while j < |local|
      invariant 0 <= j <= |local|
      invariant forall k :: 0 <= k < j ==> !(local[k].usable && local[k].name in remote)
    {
      if local[j].usable {
        var i := 0;
        while i < |remote|
          invariant 0 <= i <= |remote|
          invariant forall k :: 0 <= k < i ==> remote[k] != local[j].name
        {
          if local[j].name == remote[i] {
            NoRowBefore(local, remote, j);
            return Some(j), i == 0 && j == 0;
          }
          i := i + 1;
        }
      }
      j := j + 1;
    }
    NoRowBefore(local, remote, |local|);
    return None, false;
  }

  /** The outcome of matching a received list; None is no match. A string too long for
      buf_getstring is an exit. */
  method MatchAlgo(server: bool, list: seq<byte>, local: seq<Algo>) returns (exits: bool, row: Option<nat>, goodguess: bool)
    ensures exits <==> |list| > KeyCodec.MAX_STRING_LEN
    ensures var w := Words(list, [], MAX_PROPOSED_ALGO - 1);
      if |list| > MAX_PROPOSED_ALGO * (MAX_NAME_LEN + 1) || w.None? then row.None? && !goodguess
      else
        var pick := if server then ServerPick(w.value, local) else ClientPick(local, w.value);
        && (pick.Some? ==> row.Some? && RowOf(local, pick.value, row.value))
        && (pick.None? ==> row.None?)
        && goodguess == GoodGuess(local, w.value)
  {
    hide ServerPick, ClientPick, Words, GoodGuess, RowOf;
    var len := |list|;
    if len > KeyCodec.MAX_STRING_LEN { return true, None, false; }
    exits := false;
    if len > MAX_PROPOSED_ALGO * (MAX_NAME_LEN + 1) { return false, None, false; }
    var algolist := new byte[len + 1](i => if 0 <= i < len then list[i] else 0);
    assert algolist[..len] == list;
    var starts := SplitInPlace(algolist, len);
    if starts.None? { return false, None, false; }
    var remote := seq(|starts.value|, i requires 0 <= i < |starts.value| reads algolist => StrAt(algolist[..], starts.value[i]));
    assert remote == Words(list, [], 19).value;
    if server {
      row, goodguess := ServerMatch(remote, local);
    } else {
      row, goodguess := ClientMatch(remote, local);
    }
  }

  /** buf_put_algolist's list: the usable names with commas between; None when it does not fit
      the 160-byte buffer, which is an exit. */
  method PutAlgolist(local: seq<Algo>) returns (list: Option<seq<byte>>)
    ensures list.Some? <==> |Join(UsableNames(local))| <= ALGOLIST_SIZE
    ensures list.Some? ==> list.value == Join(UsableNames(local))
  {
    hide UsableNames, Join;
    var out: seq<byte> := [];
    var donefirst := false;
    ghost var names: seq<Name> := [];
    var i := 0;
    NoNames();
    assert local[0..] == local;
    assert [] + UsableNames(local) == UsableNames(local);
    while i < |local|
      invariant 0 <= i <= |local| && out == Join(names) && |out| <= ALGOLIST_SIZE
      invariant donefirst == (names != [])
      invariant names + UsableNames(local[i..]) == UsableNames(local)
    {
      UsableStep(local, i);
      if local[i].usable {
        JoinMore(names, local[i].name);
        ghost var rest := UsableNames(local[i + 1..]);
        assert names + ([local[i].name] + rest) == (names + [local[i].name]) + rest;
        JoinLonger(names + [local[i].name], rest);
        if donefirst {
          if |out| == ALGOLIST_SIZE { return None; }
          out := out + [COMMA];
        }
        donefirst := true;
        if |out| + |local[i].name| > ALGOLIST_SIZE { return None; }
        out := out + local[i].name;
        names := names + [local[i].name];
      }
      i := i + 1;
    }
    NoRows(local);
    assert names + [] == names;
    return Some(out);
  }

  lemma NoNames()
    ensures Join([]) == []
  {
  }

  lemma NoRows(local: seq<Algo>)
    ensures UsableNames(local[|local|..]) == []
  {
  }

  lemma UsableStep(local: seq<Algo>, i: nat)
    requires i < |local|
    ensures UsableNames(local[i..])
      == (if local[i].usable then [local[i].name] + UsableNames(local[i + 1..]) else UsableNames(local[i + 1..]))
  {
    assert local[i..][0] == local[i] && local[i..][1..] == local[i + 1..];
  }

  lemma {:induction false} JoinMore(names: seq<Name>, n: Name)
    ensures Join(names + [n]) == if names == [] then n else Join(names) + [COMMA] + n
    decreases |names|
  {
    if |names| == 1 {
      assert (names + [n])[1..] == [n];
    } else if |names| > 1 {
      assert (names + [n])[1..] == names[1..] + [n];
      JoinMore(names[1..], n);
      var j := Join(names[1..]);
      assert names[0] + [COMMA] + (j + [COMMA] + n) == names[0] + [COMMA] + j + [COMMA] + n;
    } else {
      assert names + [n] == [n];
    }
  }

  lemma {:induction false} JoinLonger(a: seq<Name>, b: seq<Name>)
    ensures |Join(a)| <= |Join(a + b)|
    decreases |b|
  {
    if b == [] {
      assert a + b == a;
    } else {
      var c, n := b[..|b| - 1], b[|b| - 1];
      assert a + b == (a + c) + [n];
      JoinLonger(a, c);
      JoinMore(a + c, n);
    }
  }

  /** An empty list is read as one empty word, which no table offers. */
  function Received(names: seq<Name>): seq<Name> { if names == [] then [[]] else names }

  lemma ReceivedSplit(names: seq<Name>)
    requires |names| <= 20 && forall i :: 0 <= i < |names| ==> PlainName(names[i])
    ensures Words(Join(names), [], 19) == Some(Received(names))
  {
    if names != [] { SplitJoined(names, 19); }
  }

  lemma {:induction false} EmptyWordIgnored(client: seq<Algo>)
    requires !Offers(client, [])
    ensures ClientPick(client, [[]]) == None
  {
    if client != [] {
      assert !(client[0].usable && client[0].name == []);
      assert forall i :: 0 <= i < |client| - 1 ==> client[1..][i] == client[i + 1];
      EmptyWordIgnored(client[1..]);
    }
  }

  lemma {:induction false} NothingUsable(client: seq<Algo>, remote: seq<Name>)
    requires UsableNames(client) == []
    ensures ClientPick(client, remote) == None
  {
    if client != [] { NothingUsable(client[1..], remote); }
  }

  lemma {:induction false} NothingOffered(client: seq<Algo>)
    ensures ClientPick(client, []) == None
  {
    if client != [] { NothingOffered(client[1..]); }
  }

  /** Two Dropbears pick the same name from each other's lists, or both fail, for tables of at
      most 20 usable names without commas. */
  lemma WireAgreement(client: seq<Algo>, server: seq<Algo>)
    requires |UsableNames(client)| <= 20 && |UsableNames(server)| <= 20
    requires forall n :: n in UsableNames(client) || n in UsableNames(server) ==> PlainName(n) && n != []
    ensures var fromClient, fromServer := Words(Join(UsableNames(client)), [], 19), Words(Join(UsableNames(server)), [], 19);
      && fromClient.Some? && fromServer.Some?
      && ServerPick(fromClient.value, server) == ClientPick(client, fromServer.value)
      && ServerPick(fromClient.value, server) == ServerPick(UsableNames(client), server)
  {
    hide Words, Join;
    var c, s := UsableNames(client), UsableNames(server);
    ReceivedSplit(c);
    ReceivedSplit(s);
    ScansAgree(client, server);
    assert !Offers(client, []) && !Offers(server, []);
    if c == [] { NothingUsable(client, Received(s)); }
    if s == [] {
      EmptyWordIgnored(client);
      NothingOffered(client);
    }
  }

  /** What is picked: the first of the client's names that the server offers. */
  lemma {:induction false} PickIsFirst(remote: seq<Name>, local: seq<Algo>)
    ensures match ServerPick(remote, local)
            case Some(n) => exists i :: 0 <= i < |remote| && remote[i] == n && Offers(local, n)
                                        && forall j :: 0 <= j < i ==> !Offers(local, remote[j])
            case None => forall i :: 0 <= i < |remote| ==> !Offers(local, remote[i])
    decreases |remote|
  {
    if remote != [] && !Offers(local, remote[0]) {
      PickIsFirst(remote[1..], local);
      var p := ServerPick(remote[1..], local);
      if p.Some? {
        var i :| 0 <= i < |remote| - 1 && remote[1..][i] == p.value && forall j :: 0 <= j < i ==> !Offers(local, remote[1..][j]);
        assert remote[i + 1] == p.value;
        assert forall j :: 0 < j < i + 1 ==> remote[j] == remote[1..][j - 1];
      } else {
        assert forall j :: 0 < j < |remote| ==> remote[j] == remote[1..][j - 1];
      }
    }
  }
}
