/**
  Section 7.2 of RFC 4253, written out with nothing but the hash: which bytes are the IVs and
  keys of the two directions.
*/
module KeyDerivation {
  import opened Wrappers
  import opened Bytes
  import opened Transport
  import opened Network
  import opened SafetyTheorems

  /** The n bytes that section 7.2 derives with letter x from the secret k, the exchange hash h
      and the session id: K1 = HASH(K || H || X || session_id), K2 = HASH(K || H || K1), and the
      beginning of K1 || K2. Two blocks are as many as any algorithm of the program needs. */
  predicate Section72(w: World, k: nat, h: seq<byte>, sid: seq<byte>, x: char, n: nat, b: seq<byte>) {
    var k1 := w.sha1(Mpint(k) + h + [x as int % 256] + sid);
    var k2 := w.sha1(Mpint(k) + h + k1);
    |k1| == 20 && |k2| == 20 && n <= 40 ==> b == (k1 + k2)[..n]
  }

  /** The three strings of one direction: letters A, C, E from client to server, else B, D, F. */
  predicate Lettered(w: World, k: nat, h: seq<byte>, sid: seq<byte>, c2s: bool, keyLen: nat, macLen: nat, m: Material) {
    && Section72(w, k, h, sid, if c2s then 'A' else 'B', 20, m.iv)
    && Section72(w, k, h, sid, if c2s then 'C' else 'D', keyLen, m.key)
    && Section72(w, k, h, sid, if c2s then 'E' else 'F', macLen, m.mackey)
  }

  /** The bytes an end must transmit and receive with after the exchange it is in. */
  predicate TransmitKeys(w: World, k: Kex, m: Material)
    requires CanGenKeys(k)
  {
    Lettered(w, k.dhK.value, k.hash, k.sessionId.value, k.role == Client,
             w.cipherKeySize(k.newkeys.value.transCipher), w.macKeySize(k.newkeys.value.transMac), m)
  }

  predicate ReceiveKeys(w: World, k: Kex, m: Material)
    requires CanGenKeys(k)
  {
    Lettered(w, k.dhK.value, k.hash, k.sessionId.value, k.role == Server,
             w.cipherKeySize(k.newkeys.value.recvCipher), w.macKeySize(k.newkeys.value.recvMac), m)
  }

  /** hashkeys gives those bytes. */
  lemma HashKeysIs(w: World, k: nat, h: seq<byte>, sid: seq<byte>, x: char, n: nat)
    requires x as int < 256
    ensures Section72(w, k, h, sid, x, n, HashKeys(w, Mpint(k) + h, x as int, sid, n))
  {
    var k1 := w.sha1(Mpint(k) + h + [x as int] + sid);
    var k2 := w.sha1(Mpint(k) + h + k1);
    if |k1| == 20 && |k2| == 20 && n <= 40 {
      assert n > 20 ==> (k1 + k2)[..n] == k1 + k2[..n - 20];
      assert n <= 20 ==> (k1 + k2)[..n] == k1[..n];
    }
  }

  lemma MaterialIs(w: World, d: Dir)
    requires d.seed.Seed?
    ensures Lettered(w, d.seed.k, d.seed.hash, d.seed.sid, d.seed.c2s, w.cipherKeySize(d.cipher), w.macKeySize(d.mac), KeyMaterial(w, d))
  {
    hide HashKeys, Section72;
    var s := d.seed;
    HashKeysIs(w, s.k, s.hash, s.sid, 'A', 20);
    HashKeysIs(w, s.k, s.hash, s.sid, 'B', 20);
    HashKeysIs(w, s.k, s.hash, s.sid, 'C', w.cipherKeySize(d.cipher));
    HashKeysIs(w, s.k, s.hash, s.sid, 'D', w.cipherKeySize(d.cipher));
    HashKeysIs(w, s.k, s.hash, s.sid, 'E', w.macKeySize(d.mac));
    HashKeysIs(w, s.k, s.hash, s.sid, 'F', w.macKeySize(d.mac));
  }

  /** The contexts of an end after an exchange hold the bytes of section 7.2. */
  lemma FreshMaterialIs(w: World, k: Kex)
    requires CanGenKeys(k)
    ensures TransmitKeys(w, k, KeyMaterial(w, FreshTrans(k))) && ReceiveKeys(w, k, KeyMaterial(w, FreshRecv(k)))
  {
    hide Lettered, KeyMaterial;
    MaterialIs(w, FreshTrans(k));
    MaterialIs(w, FreshRecv(k));
  }

  /** In every run, once both ends have sent NEWKEYS: the client is about to transmit, and the
      server to receive, with one and the same strings, made with A, C and E from the client's
      secret, hash and session id; and in the other direction with B, D and F. */
  lemma KeysBySection72(w: World, cc: Config, sc: Config, kc: seq<byte>, ks: seq<byte>, run: seq<Choice>)
    requires GoodWorld(w) && GoodRun(run)
    ensures var n := After(w, cc, sc, kc, ks, run); var c, s := n.c.kx, n.s.kx;
      c.sentnewkeys && s.sentnewkeys ==>
        && CanGenKeys(c) && CanGenKeys(s)
        && var (k, h, sid, nk) := (c.dhK.value, c.hash, c.sessionId.value, c.newkeys.value);
           && Lettered(w, k, h, sid, true, w.cipherKeySize(nk.transCipher), w.macKeySize(nk.transMac), KeyMaterial(w, FreshTrans(c)))
           && Lettered(w, k, h, sid, false, w.cipherKeySize(nk.recvCipher), w.macKeySize(nk.recvMac), KeyMaterial(w, FreshRecv(c)))
           && KeyMaterial(w, FreshRecv(s)) == KeyMaterial(w, FreshTrans(c))
           && KeyMaterial(w, FreshTrans(s)) == KeyMaterial(w, FreshRecv(c))
  {
    hide Lettered, KeyMaterial, After;
    RunFacts(w, cc, sc, kc, ks, run);
    KeysAgree(w, cc, sc, kc, ks, run);
    var n := After(w, cc, sc, kc, ks, run);
    if n.c.kx.sentnewkeys && n.s.kx.sentnewkeys { FreshMaterialIs(w, n.c.kx); }
  }
}
