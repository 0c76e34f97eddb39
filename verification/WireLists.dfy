/**
  The negotiation of the runs, which works on lists of names, and the lists as they are on the
  wire: for tables that fit, reading the lists gives the same choices.
*/
module WireLists {
  import opened Wrappers
  import opened AlgoMatch
  import opened AlgoList
  import opened Transport

  /** At most 20 usable names, none empty or with a comma or a zero byte, in 160 bytes. */
  predicate Fits(t: seq<Algo>) {
    && |UsableNames(t)| <= MAX_PROPOSED_ALGO && |Join(UsableNames(t))| <= ALGOLIST_SIZE
    && forall n :: n in UsableNames(t) ==> PlainName(n) && n != []
  }

  predicate ConfigFits(c: Config) {
    Fits(c.kex) && Fits(c.hostkeys) && Fits(c.ciphers) && Fits(c.macs) && Fits(c.comps)
  }

  /** The words that the receiver of a list finds in it. */
  function Read(names: seq<Name>): seq<Name> {
    var w := Words(Join(names), [], MAX_PROPOSED_ALGO - 1);
    if w.Some? then w.value else []
  }

  function ReadLists(l: Lists): Lists {
    Lists(Read(l.kex), Read(l.hostkey), Read(l.cipherC2S), Read(l.cipherS2C),
          Read(l.macC2S), Read(l.macS2C), Read(l.compC2S), Read(l.compS2C))
  }

  /** Matching what was read is matching what was advertised. */
  lemma SamePick(role: Role, local: seq<Algo>, peer: seq<Algo>)
    requires Fits(local) && Fits(peer)
    ensures Words(Join(UsableNames(peer)), [], MAX_PROPOSED_ALGO - 1).Some?
    ensures |Join(UsableNames(peer))| <= MAX_PROPOSED_ALGO * (MAX_NAME_LEN + 1)
    ensures Pick(role, local, Read(UsableNames(peer))) == Pick(role, local, UsableNames(peer))
  {
    hide Words, Join;
    var names := UsableNames(peer);
    ReceivedSplit(names);
    assert !Offers(local, []);
    if names == [] {
      EmptyWordIgnored(local);
      NothingOffered(local);
      assert ServerPick([[]], local) == None by { OneEmptyWord(local); }
    }
  }

  lemma OneEmptyWord(local: seq<Algo>)
    requires !Offers(local, [])
    ensures ServerPick([[]], local) == None && ServerPick([], local) == None
  {
    var one: seq<Name> := [[]];
    assert one[1..] == [];
  }

  /** So read_kex_algos, on the lists as the peer wrote them, chooses what the runs choose. */
  lemma NegotiationOnWire(role: Role, c: Config, peer: Config)
    requires ConfigFits(c) && ConfigFits(peer)
    ensures ReadKexAlgos(role, c, ReadLists(OwnLists(peer))) == ReadKexAlgos(role, c, OwnLists(peer))
  {
    hide Pick, Read, UsableNames, Fits;
    SamePick(role, c.kex, peer.kex);
    SamePick(role, c.hostkeys, peer.hostkeys);
    SamePick(role, c.ciphers, peer.ciphers);
    SamePick(role, c.macs, peer.macs);
    SamePick(role, c.comps, peer.comps);
  }
}
