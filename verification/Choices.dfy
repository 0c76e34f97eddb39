/**
  Which algorithms an end chooses from the lists of any peer (section 7.1 of RFC 4253), and the
  tables that the exchange rests on.
*/
module Choices {
  import opened Wrappers
  import opened Bytes
  import opened AlgoMatch
  import opened Transport

  /** The first name of the client's list that is also on the server's. */
  predicate FirstCommon(client: seq<Name>, server: seq<Name>, n: Name) {
    exists i :: 0 <= i < |client| && client[i] == n && n in server && forall j :: 0 <= j < i ==> client[j] !in server
  }

  predicate NoneCommon(client: seq<Name>, server: seq<Name>) {
    forall i :: 0 <= i < |client| ==> client[i] !in server
  }

  lemma CommonLater(c: Name, client: seq<Name>, server: seq<Name>)
    requires c !in server
    ensures forall n :: FirstCommon(client, server, n) ==> FirstCommon([c] + client, server, n)
    ensures NoneCommon(client, server) ==> NoneCommon([c] + client, server)
  {
    var l := [c] + client;
    forall n | FirstCommon(client, server, n) ensures FirstCommon(l, server, n) {
      var i :| 0 <= i < |client| && client[i] == n && n in server && forall j :: 0 <= j < i ==> client[j] !in server;
      assert l[i + 1] == n;
      assert forall j :: 0 < j < i + 1 ==> l[j] == client[j - 1];
    }
  }

  lemma CommonNow(c: Name, client: seq<Name>, server: seq<Name>)
    requires c in server
    ensures FirstCommon([c] + client, server, c)
  {
    assert ([c] + client)[0] == c;
  }

  lemma {:induction false} ClientPickIs(local: seq<Algo>, remote: seq<Name>)
    ensures match ClientPick(local, remote)
            case Some(n) => FirstCommon(UsableNames(local), remote, n)
            case None => NoneCommon(UsableNames(local), remote)
  {
    if local != [] {
      ClientPickIs(local[1..], remote);
      if local[0].usable {
        var rest := UsableNames(local[1..]);
        if local[0].name in remote { CommonNow(local[0].name, rest, remote); } else { CommonLater(local[0].name, rest, remote); }
      }
    }
  }

  lemma {:induction false} ServerPickIs(remote: seq<Name>, local: seq<Algo>)
    ensures match ServerPick(remote, local)
            case Some(n) => FirstCommon(remote, UsableNames(local), n)
            case None => NoneCommon(remote, UsableNames(local))
  {
    if remote != [] {
      var mine := UsableNames(local);
      ServerPickIs(remote[1..], local);
      assert remote == [remote[0]] + remote[1..];
      if remote[0] in mine { CommonNow(remote[0], remote[1..], mine); } else { CommonLater(remote[0], remote[1..], mine); }
    }
  }

  /** What a name list of ours and one of the peer's must come to. */
  predicate ChoiceOK(role: Role, mine: seq<Name>, theirs: seq<Name>, n: Name) {
    if role == Client then FirstCommon(mine, theirs, n) else FirstCommon(theirs, mine, n)
  }

  predicate Hopeless(role: Role, mine: seq<Name>, theirs: seq<Name>) {
    if role == Client then NoneCommon(mine, theirs) else NoneCommon(theirs, mine)
  }

  lemma PickIs(role: Role, local: seq<Algo>, theirs: seq<Name>)
    ensures match Pick(role, local, theirs)
            case Ok(n) => ChoiceOK(role, UsableNames(local), theirs, n)
            case Exit(_) => Hopeless(role, UsableNames(local), theirs)
  {
    hide FirstCommon, NoneCommon, ClientPick, ServerPick, UsableNames;
    if role == Client { ClientPickIs(local, theirs); } else { ServerPickIs(theirs, local); }
  }

  /** The choice that section 7.1 prescribes, with each direction's own lists; what goes from client
      to server is what the client transmits and the server receives. */
  predicate Prescribed(role: Role, c: Config, q: Lists, nk: NewKeys) {
    var (kex, host, cip, mac, com) := (UsableNames(c.kex), UsableNames(c.hostkeys), UsableNames(c.ciphers), UsableNames(c.macs), UsableNames(c.comps));
    var client := role == Client;
    && ChoiceOK(role, kex, q.kex, nk.kex) && ChoiceOK(role, host, q.hostkey, nk.hostkey)
    && ChoiceOK(role, cip, q.cipherC2S, if client then nk.transCipher else nk.recvCipher)
    && ChoiceOK(role, cip, q.cipherS2C, if client then nk.recvCipher else nk.transCipher)
    && ChoiceOK(role, mac, q.macC2S, if client then nk.transMac else nk.recvMac)
    && ChoiceOK(role, mac, q.macS2C, if client then nk.recvMac else nk.transMac)
    && ChoiceOK(role, com, q.compC2S, if client then nk.transComp else nk.recvComp)
    && ChoiceOK(role, com, q.compS2C, if client then nk.recvComp else nk.transComp)
  }

  /** Some pair of lists has nothing in common. */
  predicate NoChoice(role: Role, c: Config, q: Lists) {
    var (kex, host, cip, mac, com) := (UsableNames(c.kex), UsableNames(c.hostkeys), UsableNames(c.ciphers), UsableNames(c.macs), UsableNames(c.comps));
    || Hopeless(role, kex, q.kex) || Hopeless(role, host, q.hostkey)
    || Hopeless(role, cip, q.cipherC2S) || Hopeless(role, cip, q.cipherS2C)
    || Hopeless(role, mac, q.macC2S) || Hopeless(role, mac, q.macS2C)
    || Hopeless(role, com, q.compC2S) || Hopeless(role, com, q.compS2C)
  }

  /** Whatever lists a peer sends: the choice is the prescribed one, and there is an exit if and only
      if some pair of lists has nothing in common. */
  lemma ChoicesAre(role: Role, c: Config, q: Lists)
    ensures match ReadKexAlgos(role, c, q)
            case Ok(nk) => Prescribed(role, c, q, nk)
            case Exit(_) => NoChoice(role, c, q)
  {
    hide Pick, ChoiceOK, Hopeless, UsableNames;
    PickIs(role, c.kex, q.kex);
    PickIs(role, c.hostkeys, q.hostkey);
    PickIs(role, c.ciphers, q.cipherC2S);
    PickIs(role, c.ciphers, q.cipherS2C);
    PickIs(role, c.macs, q.macC2S);
    PickIs(role, c.macs, q.macS2C);
    PickIs(role, c.comps, q.compC2S);
    PickIs(role, c.comps, q.compS2C);
  }

  lemma NotBoth(client: seq<Name>, server: seq<Name>, n: Name)
    requires FirstCommon(client, server, n)
    ensures !NoneCommon(client, server)
  {
  }

  lemma ChoiceOrHopeless(role: Role, mine: seq<Name>, theirs: seq<Name>, n: Name)
    requires ChoiceOK(role, mine, theirs, n)
    ensures !Hopeless(role, mine, theirs)
  {
    hide FirstCommon, NoneCommon;
    if role == Client { NotBoth(mine, theirs, n); } else { NotBoth(theirs, mine, n); }
  }

  lemma ExitsIff(role: Role, c: Config, q: Lists)
    ensures ReadKexAlgos(role, c, q).Exit? <==> NoChoice(role, c, q)
  {
    hide ChoiceOK, Hopeless, UsableNames, ReadKexAlgos;
    ChoicesAre(role, c, q);
    if ReadKexAlgos(role, c, q).Ok? {
      var nk := ReadKexAlgos(role, c, q).value;
      var client := role == Client;
      ChoiceOrHopeless(role, UsableNames(c.kex), q.kex, nk.kex);
      ChoiceOrHopeless(role, UsableNames(c.hostkeys), q.hostkey, nk.hostkey);
      ChoiceOrHopeless(role, UsableNames(c.ciphers), q.cipherC2S, if client then nk.transCipher else nk.recvCipher);
      ChoiceOrHopeless(role, UsableNames(c.ciphers), q.cipherS2C, if client then nk.recvCipher else nk.transCipher);
      ChoiceOrHopeless(role, UsableNames(c.macs), q.macC2S, if client then nk.transMac else nk.recvMac);
      ChoiceOrHopeless(role, UsableNames(c.macs), q.macS2C, if client then nk.recvMac else nk.transMac);
      ChoiceOrHopeless(role, UsableNames(c.comps), q.compC2S, if client then nk.transComp else nk.recvComp);
      ChoiceOrHopeless(role, UsableNames(c.comps), q.compS2C, if client then nk.recvComp else nk.transComp);
    }
  }

  const TWO_1024: nat := 0x10000000000000000000000000000000000000000000000000000000000000000000000000000000000000000000000000000000000000000000000000000000000000000000000000000000000000000000000000000000000000000000000000000000000000000000000000000000000000000000000000000000000000000

  /** The group of group14 is of 2048 bits (RFC 3526), the other of 1024 (RFC 2409), and both end
      in 64 ones. */
  lemma GroupSizes(kex: Name)
    ensures var p := DhPrime(kex);
      && (if kex == Ascii("diffie-hellman-group14-sha1") then TWO_1024 * TWO_1024 <= 2 * p && p < TWO_1024 * TWO_1024
          else TWO_1024 <= 2 * p && p < TWO_1024)
      && p % 0x1_0000_0000_0000_0000 == 0xFFFF_FFFF_FFFF_FFFF
  {
  }

  /** Section 7.1 of RFC 4253: while an exchange runs an end may send the transport messages 1 to 19
      but the two about services, the negotiation messages 20 to 29 but KEXINIT, and 30 to 49. */
  lemma OkayKexIs(t: byte)
    requires t > 0
    ensures OkayKex(t) <==> (1 <= t <= 19 && t != 5 && t != 6) || (21 <= t <= 29) || (30 <= t <= 49)
  {
  }

  /** Outside the transport layer a client handles the answers to its own authentication and global
      requests, a server the requests, and both the channel messages 90 to 98; extended data comes to
      clients only. */
  lemma HandledIs(role: Role, t: byte)
    ensures Handled(role, t) <==>
      if role == Client then t == 6 || 51 <= t <= 53 || t == 60 || 81 <= t <= 82 || 90 <= t <= 98
      else t == 5 || t == 50 || t == 80 || (90 <= t <= 98 && t != 95)
  {
  }
}
