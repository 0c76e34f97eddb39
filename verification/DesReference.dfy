/**
  The DES of FIPS 46-3 as a reference: the bits of the initial permutation by its table, and the
  sixteen rounds by their recurrence, with the key words counted up to encrypt and down to decrypt.
*/
module DesReference {
  import opened Des

  // ------------------------------------------------------------ permutations

  /** The table of the initial permutation, eight to a row: 58 50 42 34 26 18 10 2, then each row two
      more than the one before, and from the fifth on 57 49 41 33 25 17 9 1 and so on. */
  function IpSource(n: nat): (k: nat)
    requires 1 <= n <= 64
    ensures 1 <= k <= 64
  {
    (if n <= 32 then 58 else 49) + 2 * ((n - 1) / 8) - 8 * ((n - 1) % 8)
  }

  function BitOf(w: bv32, i: nat): bool
    requires i < 32
  {
    (w >> i) & 1 == 1
  }

  /** Bit n of a block of eight bytes, counted from 1 at the top of the first byte; c2l has put the
      first byte at the bottom of its word. */
  function InputBit(x: Block, n: nat): bool
    requires 1 <= n <= 64
  {
    BitOf(if n <= 32 then x.a else x.b, 8 * ((n - 1) / 8 % 4) + 7 - (n - 1) % 8)
  }

  /** Bit n of the permuted block: the left half is in the second word, the right half in the first,
      both from the bottom up. */
  function PermutedBit(x: Block, n: nat): bool
    requires 1 <= n <= 64
  {
    if n <= 32 then BitOf(x.b, n - 1) else BitOf(x.a, n - 33)
  }

  lemma Row0(x: Block)
    ensures BitOf(IP(x).b, 0) == BitOf(x.b, 30)
    ensures BitOf(IP(x).b, 1) == BitOf(x.b, 22)
    ensures BitOf(IP(x).b, 2) == BitOf(x.b, 14)
    ensures BitOf(IP(x).b, 3) == BitOf(x.b, 6)
  {
  }

  lemma Row1(x: Block)
    ensures BitOf(IP(x).b, 4) == BitOf(x.a, 30)
    ensures BitOf(IP(x).b, 5) == BitOf(x.a, 22)
    ensures BitOf(IP(x).b, 6) == BitOf(x.a, 14)
    ensures BitOf(IP(x).b, 7) == BitOf(x.a, 6)
  {
  }

  lemma Row2(x: Block)
    ensures BitOf(IP(x).b, 8) == BitOf(x.b, 28)
    ensures BitOf(IP(x).b, 9) == BitOf(x.b, 20)
    ensures BitOf(IP(x).b, 10) == BitOf(x.b, 12)
    ensures BitOf(IP(x).b, 11) == BitOf(x.b, 4)
  {
  }

  lemma Row3(x: Block)
    ensures BitOf(IP(x).b, 12) == BitOf(x.a, 28)
    ensures BitOf(IP(x).b, 13) == BitOf(x.a, 20)
    ensures BitOf(IP(x).b, 14) == BitOf(x.a, 12)
    ensures BitOf(IP(x).b, 15) == BitOf(x.a, 4)
  {
  }

  lemma Row4(x: Block)
    ensures BitOf(IP(x).b, 16) == BitOf(x.b, 26)
    ensures BitOf(IP(x).b, 17) == BitOf(x.b, 18)
    ensures BitOf(IP(x).b, 18) == BitOf(x.b, 10)
    ensures BitOf(IP(x).b, 19) == BitOf(x.b, 2)
  {
  }

  lemma Row5(x: Block)
    ensures BitOf(IP(x).b, 20) == BitOf(x.a, 26)
    ensures BitOf(IP(x).b, 21) == BitOf(x.a, 18)
    ensures BitOf(IP(x).b, 22) == BitOf(x.a, 10)
    ensures BitOf(IP(x).b, 23) == BitOf(x.a, 2)
  {
  }

  lemma Row6(x: Block)
    ensures BitOf(IP(x).b, 24) == BitOf(x.b, 24)
    ensures BitOf(IP(x).b, 25) == BitOf(x.b, 16)
    ensures BitOf(IP(x).b, 26) == BitOf(x.b, 8)
    ensures BitOf(IP(x).b, 27) == BitOf(x.b, 0)
  {
  }

  lemma Row7(x: Block)
    ensures BitOf(IP(x).b, 28) == BitOf(x.a, 24)
    ensures BitOf(IP(x).b, 29) == BitOf(x.a, 16)
    ensures BitOf(IP(x).b, 30) == BitOf(x.a, 8)
    ensures BitOf(IP(x).b, 31) == BitOf(x.a, 0)
  {
  }

  lemma Row8(x: Block)
    ensures BitOf(IP(x).a, 0) == BitOf(x.b, 31)
    ensures BitOf(IP(x).a, 1) == BitOf(x.b, 23)
    ensures BitOf(IP(x).a, 2) == BitOf(x.b, 15)
    ensures BitOf(IP(x).a, 3) == BitOf(x.b, 7)
  {
  }

  lemma Row9(x: Block)
    ensures BitOf(IP(x).a, 4) == BitOf(x.a, 31)
    ensures BitOf(IP(x).a, 5) == BitOf(x.a, 23)
    ensures BitOf(IP(x).a, 6) == BitOf(x.a, 15)
    ensures BitOf(IP(x).a, 7) == BitOf(x.a, 7)
  {
  }

  lemma Row10(x: Block)
    ensures BitOf(IP(x).a, 8) == BitOf(x.b, 29)
    ensures BitOf(IP(x).a, 9) == BitOf(x.b, 21)
    ensures BitOf(IP(x).a, 10) == BitOf(x.b, 13)
    ensures BitOf(IP(x).a, 11) == BitOf(x.b, 5)
  {
  }

  lemma Row11(x: Block)
    ensures BitOf(IP(x).a, 12) == BitOf(x.a, 29)
    ensures BitOf(IP(x).a, 13) == BitOf(x.a, 21)
    ensures BitOf(IP(x).a, 14) == BitOf(x.a, 13)
    ensures BitOf(IP(x).a, 15) == BitOf(x.a, 5)
  {
  }

  lemma Row12(x: Block)
    ensures BitOf(IP(x).a, 16) == BitOf(x.b, 27)
    ensures BitOf(IP(x).a, 17) == BitOf(x.b, 19)
    ensures BitOf(IP(x).a, 18) == BitOf(x.b, 11)
    ensures BitOf(IP(x).a, 19) == BitOf(x.b, 3)
  {
  }

  lemma Row13(x: Block)
    ensures BitOf(IP(x).a, 20) == BitOf(x.a, 27)
    ensures BitOf(IP(x).a, 21) == BitOf(x.a, 19)
    ensures BitOf(IP(x).a, 22) == BitOf(x.a, 11)
    ensures BitOf(IP(x).a, 23) == BitOf(x.a, 3)
  {
  }

  lemma Row14(x: Block)
    ensures BitOf(IP(x).a, 24) == BitOf(x.b, 25)
    ensures BitOf(IP(x).a, 25) == BitOf(x.b, 17)
    ensures BitOf(IP(x).a, 26) == BitOf(x.b, 9)
    ensures BitOf(IP(x).a, 27) == BitOf(x.b, 1)
  {
  }

  lemma Row15(x: Block)
    ensures BitOf(IP(x).a, 28) == BitOf(x.a, 25)
    ensures BitOf(IP(x).a, 29) == BitOf(x.a, 17)
    ensures BitOf(IP(x).a, 30) == BitOf(x.a, 9)
    ensures BitOf(IP(x).a, 31) == BitOf(x.a, 1)
  {
  }

  /** An output bit is the input bit that the table names. */
  predicate FromTable(x: Block, n: nat)
    requires 1 <= n <= 64
  {
    PermutedBit(IP(x), n) == InputBit(x, IpSource(n))
  }

  lemma Group0(x: Block, n: nat)
    requires 1 <= n <= 4
    ensures FromTable(x, n)
  {
    hide BitOf, IP;
    Row0(x);
    if n == 1 { assert IpSource(1) == 58; }
    else if n == 2 { assert IpSource(2) == 50; }
    else if n == 3 { assert IpSource(3) == 42; }
    else { assert IpSource(4) == 34; }
  }

  lemma Group1(x: Block, n: nat)
    requires 5 <= n <= 8
    ensures FromTable(x, n)
  {
    hide BitOf, IP;
    Row1(x);
    if n == 5 { assert IpSource(5) == 26; }
    else if n == 6 { assert IpSource(6) == 18; }
    else if n == 7 { assert IpSource(7) == 10; }
    else { assert IpSource(8) == 2; }
  }

  lemma Group2(x: Block, n: nat)
    requires 9 <= n <= 12
    ensures FromTable(x, n)
  {
    hide BitOf, IP;
    Row2(x);
    if n == 9 { assert IpSource(9) == 60; }
    else if n == 10 { assert IpSource(10) == 52; }
    else if n == 11 { assert IpSource(11) == 44; }
    else { assert IpSource(12) == 36; }
  }

  lemma Group3(x: Block, n: nat)
    requires 13 <= n <= 16
    ensures FromTable(x, n)
  {
    hide BitOf, IP;
    Row3(x);
    if n == 13 { assert IpSource(13) == 28; }
    else if n == 14 { assert IpSource(14) == 20; }
    else if n == 15 { assert IpSource(15) == 12; }
    else { assert IpSource(16) == 4; }
  }

  lemma Group4(x: Block, n: nat)
    requires 17 <= n <= 20
    ensures FromTable(x, n)
  {
    hide BitOf, IP;
    Row4(x);
    if n == 17 { assert IpSource(17) == 62; }
    else if n == 18 { assert IpSource(18) == 54; }
    else if n == 19 { assert IpSource(19) == 46; }
    else { assert IpSource(20) == 38; }
  }

  lemma Group5(x: Block, n: nat)
    requires 21 <= n <= 24
    ensures FromTable(x, n)
  {
    hide BitOf, IP;
    Row5(x);
    if n == 21 { assert IpSource(21) == 30; }
    else if n == 22 { assert IpSource(22) == 22; }
    else if n == 23 { assert IpSource(23) == 14; }
    else { assert IpSource(24) == 6; }
  }

  lemma Group6(x: Block, n: nat)
    requires 25 <= n <= 28
    ensures FromTable(x, n)
  {
    hide BitOf, IP;
    Row6(x);
    if n == 25 { assert IpSource(25) == 64; }
    else if n == 26 { assert IpSource(26) == 56; }
    else if n == 27 { assert IpSource(27) == 48; }
    else { assert IpSource(28) == 40; }
  }

  lemma Group7(x: Block, n: nat)
    requires 29 <= n <= 32
    ensures FromTable(x, n)
  {
    hide BitOf, IP;
    Row7(x);
    if n == 29 { assert IpSource(29) == 32; }
    else if n == 30 { assert IpSource(30) == 24; }
    else if n == 31 { assert IpSource(31) == 16; }
    else { assert IpSource(32) == 8; }
  }

  lemma Group8(x: Block, n: nat)
    requires 33 <= n <= 36
    ensures FromTable(x, n)
  {
    hide BitOf, IP;
    Row8(x);
    if n == 33 { assert IpSource(33) == 57; }
    else if n == 34 { assert IpSource(34) == 49; }
    else if n == 35 { assert IpSource(35) == 41; }
    else { assert IpSource(36) == 33; }
  }

  lemma Group9(x: Block, n: nat)
    requires 37 <= n <= 40
    ensures FromTable(x, n)
  {
    hide BitOf, IP;
    Row9(x);
    if n == 37 { assert IpSource(37) == 25; }
    else if n == 38 { assert IpSource(38) == 17; }
    else if n == 39 { assert IpSource(39) == 9; }
    else { assert IpSource(40) == 1; }
  }

  lemma Group10(x: Block, n: nat)
    requires 41 <= n <= 44
    ensures FromTable(x, n)
  {
    hide BitOf, IP;
    Row10(x);
    if n == 41 { assert IpSource(41) == 59; }
    else if n == 42 { assert IpSource(42) == 51; }
    else if n == 43 { assert IpSource(43) == 43; }
    else { assert IpSource(44) == 35; }
  }

  lemma Group11(x: Block, n: nat)
    requires 45 <= n <= 48
    ensures FromTable(x, n)
  {
    hide BitOf, IP;
    Row11(x);
    if n == 45 { assert IpSource(45) == 27; }
    else if n == 46 { assert IpSource(46) == 19; }
    else if n == 47 { assert IpSource(47) == 11; }
    else { assert IpSource(48) == 3; }
  }

  lemma Group12(x: Block, n: nat)
    requires 49 <= n <= 52
    ensures FromTable(x, n)
  {
    hide BitOf, IP;
    Row12(x);
    if n == 49 { assert IpSource(49) == 61; }
    else if n == 50 { assert IpSource(50) == 53; }
    else if n == 51 { assert IpSource(51) == 45; }
    else { assert IpSource(52) == 37; }
  }

  lemma Group13(x: Block, n: nat)
    requires 53 <= n <= 56
    ensures FromTable(x, n)
  {
    hide BitOf, IP;
    Row13(x);
    if n == 53 { assert IpSource(53) == 29; }
    else if n == 54 { assert IpSource(54) == 21; }
    else if n == 55 { assert IpSource(55) == 13; }
    else { assert IpSource(56) == 5; }
  }

  lemma Group14(x: Block, n: nat)
    requires 57 <= n <= 60
    ensures FromTable(x, n)
  {
    hide BitOf, IP;
    Row14(x);
    if n == 57 { assert IpSource(57) == 63; }
    else if n == 58 { assert IpSource(58) == 55; }
    else if n == 59 { assert IpSource(59) == 47; }
    else { assert IpSource(60) == 39; }
  }

  lemma Group15(x: Block, n: nat)
    requires 61 <= n <= 64
    ensures FromTable(x, n)
  {
    hide BitOf, IP;
    Row15(x);
    if n == 61 { assert IpSource(61) == 31; }
    else if n == 62 { assert IpSource(62) == 23; }
    else if n == 63 { assert IpSource(63) == 15; }
    else { assert IpSource(64) == 7; }
  }

  /** The five swaps between words are the initial permutation of FIPS 46-3. */
  lemma IPIsTable(x: Block, n: nat)
    requires 1 <= n <= 64
    ensures FromTable(x, n)
  {
    hide FromTable;
    if n <= 4 { Group0(x, n); }
    else if n <= 8 { Group1(x, n); }
    else if n <= 12 { Group2(x, n); }
    else if n <= 16 { Group3(x, n); }
    else if n <= 20 { Group4(x, n); }
    else if n <= 24 { Group5(x, n); }
    else if n <= 28 { Group6(x, n); }
    else if n <= 32 { Group7(x, n); }
    else if n <= 36 { Group8(x, n); }
    else if n <= 40 { Group9(x, n); }
    else if n <= 44 { Group10(x, n); }
    else if n <= 48 { Group11(x, n); }
    else if n <= 52 { Group12(x, n); }
    else if n <= 56 { Group13(x, n); }
    else if n <= 60 { Group14(x, n); }
    else { Group15(x, n); }
  }

  /** ROTATE is a rotation to the right. */
  function Left3(x: bv32): bv32 { x.RotateLeft(3) }
  function Right3(x: bv32): bv32 { x.RotateRight(3) }

  lemma RotateIs(x: bv32)
    ensures Rotate(x, 3) == Right3(x) && Rotate(x, 29) == Left3(x)
  {
    assert (x >> 3) + (x << 29) == x.RotateRight(3);
    assert (x >> 29) + (x << 3) == x.RotateLeft(3);
  }

  // ------------------------------------------------------------------ rounds

  datatype Halves = Halves(L: bv32, R: bv32)

  /** L and R after n rounds: L(n) = R(n-1) and R(n) = L(n-1) xor f(R(n-1), K(n)), where K(n) is the n-th
      pair of key words to encrypt, and the n-th from the end to decrypt. */
  function Recurrence(f: RoundFunction, ks: Schedule, enc: bool, start: Halves, n: nat): Halves
    requires n <= 16
  {
    if n == 0 then start
    else
      var h := Recurrence(f, ks, enc, start, n - 1);
      var k := n - 1;
      Halves(h.R, Xor(h.L, if enc then f(h.R, ks[2 * k], ks[2 * k + 1]) else f(h.R, ks[30 - 2 * k], ks[31 - 2 * k])))
  }

  /** The program keeps the halves where they are and changes them in turn. */
  lemma {:induction false} RoundsAre(f: RoundFunction, ks: Schedule, enc: bool, x: Block, n: nat)
    requires n <= 16
    ensures var h := Recurrence(f, ks, enc, Halves(x.a, x.b), n);
      Rounds(f, ks, enc, x, n) == if n % 2 == 0 then Block(h.L, h.R) else Block(h.R, h.L)
  {
    hide Xor;
    if n > 0 { RoundsAre(f, ks, enc, x, n - 1); }
  }

  /** des_encrypt2: from the two words, each rotated left by 3, sixteen rounds of the recurrence, and
      back; the halves come out exchanged, as FIPS 46-3 has them. */
  function ReferenceCore(f: RoundFunction, ks: Schedule, enc: bool, x: Block): Block {
    var h := Recurrence(f, ks, enc, Halves(Left3(x.b), Left3(x.a)), 16);
    Block(Right3(h.L), Right3(h.R))
  }

  /** DES: the initial permutation, the rounds, the final permutation. */
  function ReferenceDes(f: RoundFunction, ks: Schedule, enc: bool, x: Block): Block {
    FP(ReferenceCore(f, ks, enc, IP(x)))
  }

  lemma CoreIs(f: RoundFunction, ks: Schedule, enc: bool, x: Block)
    ensures Core(f, ks, enc, x) == ReferenceCore(f, ks, enc, x)
  {
    hide Rotate, Rounds, Recurrence, Left3, Right3;
    RotateIs(x.a);
    RotateIs(x.b);
    var y := Block(Left3(x.b), Left3(x.a));
    RoundsAre(f, ks, enc, y, 16);
    var z := Rounds(f, ks, enc, y, 16);
    RotateIs(z.a);
    RotateIs(z.b);
  }

  /** The program's DES is that of the reference. */
  lemma SingleIs(f: RoundFunction, ks: Schedule, enc: bool, x: Block)
    ensures Single(f, ks, enc, x) == ReferenceDes(f, ks, enc, x)
  {
    hide Core, ReferenceCore, IP, FP;
    CoreIs(f, ks, enc, IP(x));
  }

  /** Its triple DES encrypts under the first schedule, decrypts under the second and encrypts under the
      third; decryption is the reverse. */
  lemma TripleIs(f: RoundFunction, k1: Schedule, k2: Schedule, k3: Schedule, x: Block)
    ensures Encrypt3(f, k1, k2, k3, x) == ReferenceDes(f, k3, true, ReferenceDes(f, k2, false, ReferenceDes(f, k1, true, x)))
    ensures Decrypt3(f, k1, k2, k3, x) == ReferenceDes(f, k1, false, ReferenceDes(f, k2, true, ReferenceDes(f, k3, false, x)))
  {
    hide Single, ReferenceDes, Encrypt3, Decrypt3;
    TripleIsThreeSingles(f, k1, k2, k3, x);
    SingleIs(f, k1, true, x);
    SingleIs(f, k2, false, Single(f, k1, true, x));
    SingleIs(f, k3, true, Single(f, k2, false, Single(f, k1, true, x)));
    SingleIs(f, k3, false, x);
    SingleIs(f, k2, true, Single(f, k3, false, x));
    SingleIs(f, k1, false, Single(f, k2, true, Single(f, k3, false, x)));
  }
}
