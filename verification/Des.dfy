/**
  The structure of DES in des_enc.c and des_locl.h: initial and final permutation by bit
  swaps between words, sixteen Feistel rounds, and the fused triple form. The contents of
  the S-box tables do not matter: the round function is a parameter.
*/
module Des {
  /** Two 32-bit words, data[0] and data[1]. */
  datatype Block = Block(a: bv32, b: bv32)

  /** What a round xors into one half, given the other half and two words of the schedule. */
  type RoundFunction = (bv32, bv32, bv32) -> bv32

  type Schedule = s: seq<bv32> | |s| == 32 witness seq(32, i => 0)

  // ------------------------------------------------------------- permutations

  function Flip(x: Block): Block { Block(x.b, x.a) }

  function Xor(x: bv32, y: bv32): bv32 { x ^ y }

  lemma XorTwice(x: bv32, y: bv32)
    ensures Xor(Xor(x, y), y) == x
  {
  }

  lemma XorBoth(x: bv32, y: bv32, t: bv32)
    ensures (x ^ t) ^ (y ^ t) == x ^ y
  {
  }

  /** PERM_OP(a, b, t, 4, m): swaps the bits of b under the mask with those of a that lie 4
      places higher. The other four differ in the distance and the mask. */
  function Pick4(a: bv32, b: bv32): bv32 { ((a >> 4) ^ b) & 0x0f0f0f0f }
  function Up4(t: bv32): bv32 { t << 4 }
  function Swap4(x: Block): Block {
    var t := Pick4(x.a, x.b);
    Block(Xor(x.a, Up4(t)), Xor(x.b, t))
  }

  function Pick16(a: bv32, b: bv32): bv32 { ((a >> 16) ^ b) & 0x0000ffff }
  function Up16(t: bv32): bv32 { t << 16 }
  function Swap16(x: Block): Block {
    var t := Pick16(x.a, x.b);
    Block(Xor(x.a, Up16(t)), Xor(x.b, t))
  }

  function Pick2(a: bv32, b: bv32): bv32 { ((a >> 2) ^ b) & 0x33333333 }
  function Up2(t: bv32): bv32 { t << 2 }
  function Swap2(x: Block): Block {
    var t := Pick2(x.a, x.b);
    Block(Xor(x.a, Up2(t)), Xor(x.b, t))
  }

  function Pick8(a: bv32, b: bv32): bv32 { ((a >> 8) ^ b) & 0x00ff00ff }
  function Up8(t: bv32): bv32 { t << 8 }
  function Swap8(x: Block): Block {
    var t := Pick8(x.a, x.b);
    Block(Xor(x.a, Up8(t)), Xor(x.b, t))
  }

  function Pick1(a: bv32, b: bv32): bv32 { ((a >> 1) ^ b) & 0x55555555 }
  function Up1(t: bv32): bv32 { t << 1 }
  function Swap1(x: Block): Block {
    var t := Pick1(x.a, x.b);
    Block(Xor(x.a, Up1(t)), Xor(x.b, t))
  }

  lemma Shifted4(a: bv32, t: bv32)
    requires t & 0x0f0f0f0f == t
    ensures (a ^ (t << 4)) >> 4 == (a >> 4) ^ t
  {
  }

  lemma Picked4(a: bv32, b: bv32)
    ensures var t := Pick4(a, b); Pick4(Xor(a, Up4(t)), Xor(b, t)) == t
  {
    var t := ((a >> 4) ^ b) & 0x0f0f0f0f;
    Shifted4(a, t);
    XorBoth(a >> 4, b, t);
  }

  lemma Swap4Twice(x: Block)
    ensures Swap4(Swap4(x)) == x
  {
    hide Pick4, Up4, Xor;
    var t := Pick4(x.a, x.b);
    Picked4(x.a, x.b);
    XorTwice(x.a, Up4(t));
    XorTwice(x.b, t);
  }

  lemma Shifted16(a: bv32, t: bv32)
    requires t & 0x0000ffff == t
    ensures (a ^ (t << 16)) >> 16 == (a >> 16) ^ t
  {
  }

  lemma Picked16(a: bv32, b: bv32)
    ensures var t := Pick16(a, b); Pick16(Xor(a, Up16(t)), Xor(b, t)) == t
  {
    var t := ((a >> 16) ^ b) & 0x0000ffff;
    Shifted16(a, t);
    XorBoth(a >> 16, b, t);
  }

  lemma Swap16Twice(x: Block)
    ensures Swap16(Swap16(x)) == x
  {
    hide Pick16, Up16, Xor;
    var t := Pick16(x.a, x.b);
    Picked16(x.a, x.b);
    XorTwice(x.a, Up16(t));
    XorTwice(x.b, t);
  }

  lemma Shifted2(a: bv32, t: bv32)
    requires t & 0x33333333 == t
    ensures (a ^ (t << 2)) >> 2 == (a >> 2) ^ t
  {
  }

  lemma Picked2(a: bv32, b: bv32)
    ensures var t := Pick2(a, b); Pick2(Xor(a, Up2(t)), Xor(b, t)) == t
  {
    var t := ((a >> 2) ^ b) & 0x33333333;
    Shifted2(a, t);
    XorBoth(a >> 2, b, t);
  }

  lemma Swap2Twice(x: Block)
    ensures Swap2(Swap2(x)) == x
  {
    hide Pick2, Up2, Xor;
    var t := Pick2(x.a, x.b);
    Picked2(x.a, x.b);
    XorTwice(x.a, Up2(t));
    XorTwice(x.b, t);
  }

  lemma Shifted8(a: bv32, t: bv32)
    requires t & 0x00ff00ff == t
    ensures (a ^ (t << 8)) >> 8 == (a >> 8) ^ t
  {
  }

  lemma Picked8(a: bv32, b: bv32)
    ensures var t := Pick8(a, b); Pick8(Xor(a, Up8(t)), Xor(b, t)) == t
  {
    var t := ((a >> 8) ^ b) & 0x00ff00ff;
    Shifted8(a, t);
    XorBoth(a >> 8, b, t);
  }

  lemma Swap8Twice(x: Block)
    ensures Swap8(Swap8(x)) == x
  {
    hide Pick8, Up8, Xor;
    var t := Pick8(x.a, x.b);
    Picked8(x.a, x.b);
    XorTwice(x.a, Up8(t));
    XorTwice(x.b, t);
  }

  lemma Shifted1(a: bv32, t: bv32)
    requires t & 0x55555555 == t
    ensures (a ^ (t << 1)) >> 1 == (a >> 1) ^ t
  {
  }

  lemma Picked1(a: bv32, b: bv32)
    ensures var t := Pick1(a, b); Pick1(Xor(a, Up1(t)), Xor(b, t)) == t
  {
    var t := ((a >> 1) ^ b) & 0x55555555;
    Shifted1(a, t);
    XorBoth(a >> 1, b, t);
  }

  lemma Swap1Twice(x: Block)
    ensures Swap1(Swap1(x)) == x
  {
    hide Pick1, Up1, Xor;
    var t := Pick1(x.a, x.b);
    Picked1(x.a, x.b);
    XorTwice(x.a, Up1(t));
    XorTwice(x.b, t);
  }

  /** IP(l, r), on Block(l, r). */
  function IP(x: Block): Block {
    var x1 := Flip(Swap4(Flip(x)));
    var x2 := Swap16(x1);
    var x3 := Flip(Swap2(Flip(x2)));
    var x4 := Swap8(x3);
    Flip(Swap1(Flip(x4)))
  }

  /** FP(r, l), on Block(l, r). */
  function FP(x: Block): Block {
    var x1 := Flip(Swap1(Flip(x)));
    var x2 := Swap8(x1);
    var x3 := Flip(Swap2(Flip(x2)));
    var x4 := Swap16(x3);
    Flip(Swap4(Flip(x4)))
  }

  /** The final permutation undoes the initial one, and the other way round. */
  lemma FPInvertsIP(x: Block)
    ensures FP(IP(x)) == x && IP(FP(x)) == x
  {
    hide Swap1, Swap2, Swap4, Swap8, Swap16;
    var x1 := Flip(Swap4(Flip(x)));
    var x2 := Swap16(x1);
    var x3 := Flip(Swap2(Flip(x2)));
    Swap4Twice(Flip(x));
    Swap16Twice(x1);
    Swap2Twice(Flip(x2));
    Swap8Twice(x3);
    Swap1Twice(Flip(Swap8(x3)));
    var y1 := Flip(Swap1(Flip(x)));
    var y2 := Swap8(y1);
    var y3 := Flip(Swap2(Flip(y2)));
    Swap1Twice(Flip(x));
    Swap8Twice(y1);
    Swap2Twice(Flip(y2));
    Swap16Twice(y3);
    Swap4Twice(Flip(Swap16(y3)));
  }

  /** ROTATE: to the right by n. */
  function Rotate(x: bv32, n: nat): bv32
    requires 0 < n < 32
  {
    (x >> n) + (x << (32 - n))
  }

  lemma RotateBack(x: bv32)
    ensures Rotate(Rotate(x, 29), 3) == x && Rotate(Rotate(x, 3), 29) == x
  {
    assert (x >> 29) + (x << 3) == x.RotateLeft(3);
    assert (x >> 3) + (x << 29) == x.RotateRight(3);
    var u, v := x.RotateLeft(3), x.RotateRight(3);
    assert (u >> 3) + (u << 29) == u.RotateRight(3);
    assert (v >> 29) + (v << 3) == v.RotateLeft(3);
  }

  // -------------------------------------------------------------------- rounds

  /** D_ENCRYPT: round i changes the first half when i is even and the second when it is odd. */
  function Round(f: RoundFunction, x: Block, i: nat, k0: bv32, k1: bv32): Block {
    if i % 2 == 0 then Block(Xor(x.a, f(x.b, k0, k1)), x.b) else Block(x.a, Xor(x.b, f(x.a, k0, k1)))
  }

  /** The schedule word pair of round i: in order to encrypt, backwards to decrypt. */
  function KeyAt(i: nat, enc: bool): nat
    requires i < 16
  {
    if enc then 2 * i else 30 - 2 * i
  }

  /** The first n rounds on Block(l, r). */
  function Rounds(f: RoundFunction, ks: Schedule, enc: bool, x: Block, n: nat): Block
    requires n <= 16
  {
    if n == 0 then x
    else Round(f, Rounds(f, ks, enc, x, n - 1), n - 1, ks[KeyAt(n - 1, enc)], ks[KeyAt(n - 1, enc) + 1])
  }

  lemma RoundTwice(f: RoundFunction, x: Block, i: nat, k0: bv32, k1: bv32)
    ensures Round(f, Round(f, x, i, k0, k1), i, k0, k1) == x
  {
    hide Xor;
    if i % 2 == 0 { XorTwice(x.a, f(x.b, k0, k1)); } else { XorTwice(x.b, f(x.a, k0, k1)); }
  }

  /** With the halves exchanged, the rounds of the other direction undo the rounds one by one. */
  lemma {:induction false} RoundsUndo(f: RoundFunction, ks: Schedule, enc: bool, x: Block, n: nat)
    requires n <= 16
    ensures Rounds(f, ks, !enc, Flip(Rounds(f, ks, enc, x, 16)), n) == Flip(Rounds(f, ks, enc, x, 16 - n))
  {
    if n > 0 {
      hide Round, Xor;
      RoundsUndo(f, ks, enc, x, n - 1);
      var y := Rounds(f, ks, enc, x, 16 - n);
      var i, k := 16 - n, KeyAt(16 - n, enc);
      assert Rounds(f, ks, enc, x, i + 1) == Round(f, y, i, ks[k], ks[k + 1]);
      RoundTwice(f, y, i, ks[k], ks[k + 1]);
      assert KeyAt(n - 1, !enc) == k;
      FlipRound(f, Rounds(f, ks, enc, x, i + 1), i, n - 1, ks[k], ks[k + 1]);
    }
  }

  lemma FlipRound(f: RoundFunction, x: Block, i: nat, j: nat, k0: bv32, k1: bv32)
    requires i % 2 != j % 2
    ensures Round(f, Flip(x), j, k0, k1) == Flip(Round(f, x, i, k0, k1))
  {
  }

  // ------------------------------------------------------ single and triple DES

  function RotateBoth(x: Block, n: nat): Block
    requires 0 < n < 32
  {
    Block(Rotate(x.a, n), Rotate(x.b, n))
  }

  /** des_encrypt2: no permutations. The rounds work on l = data[1] and r = data[0]. */
  function Core(f: RoundFunction, ks: Schedule, enc: bool, x: Block): Block {
    RotateBoth(Rounds(f, ks, enc, RotateBoth(Flip(x), 29), 16), 3)
  }

  /** des_encrypt. */
  function Single(f: RoundFunction, ks: Schedule, enc: bool, x: Block): Block {
    FP(Core(f, ks, enc, IP(x)))
  }

  /** des_encrypt3. */
  function Encrypt3(f: RoundFunction, k1: Schedule, k2: Schedule, k3: Schedule, x: Block): Block {
    FP(Core(f, k3, true, Core(f, k2, false, Core(f, k1, true, IP(x)))))
  }

  /** des_decrypt3. */
  function Decrypt3(f: RoundFunction, k1: Schedule, k2: Schedule, k3: Schedule, x: Block): Block {
    FP(Core(f, k1, false, Core(f, k2, true, Core(f, k3, false, IP(x)))))
  }

  /** Each direction undoes the other. */
  lemma CoreInverts(f: RoundFunction, ks: Schedule, enc: bool, x: Block)
    ensures Core(f, ks, !enc, Core(f, ks, enc, x)) == x
  {
    hide Rotate, Rounds;
    var y := RotateBoth(Flip(x), 29);
    var z := Rounds(f, ks, enc, y, 16);
    RotateBack(z.a);
    RotateBack(z.b);
    assert RotateBoth(Flip(RotateBoth(z, 3)), 29) == Flip(z);
    RoundsUndo(f, ks, enc, y, 16);
    assert Rounds(f, ks, enc, y, 0) == y by { NoRounds(f, ks, enc, y); }
    RotateBack(x.a);
    RotateBack(x.b);
  }

  lemma NoRounds(f: RoundFunction, ks: Schedule, enc: bool, x: Block)
    ensures Rounds(f, ks, enc, x, 0) == x
  {
  }

  /** Decryption inverts encryption, for every round function, schedule and block. */
  lemma SingleInverts(f: RoundFunction, ks: Schedule, enc: bool, x: Block)
    ensures Single(f, ks, !enc, Single(f, ks, enc, x)) == x
  {
    hide IP, FP, Core;
    FPInvertsIP(Core(f, ks, enc, IP(x)));
    CoreInverts(f, ks, enc, IP(x));
    FPInvertsIP(x);
  }

  /** The fused triple form is encrypt, decrypt, encrypt: the inner permutations cancel. */
  lemma TripleIsThreeSingles(f: RoundFunction, k1: Schedule, k2: Schedule, k3: Schedule, x: Block)
    ensures Encrypt3(f, k1, k2, k3, x) == Single(f, k3, true, Single(f, k2, false, Single(f, k1, true, x)))
    ensures Decrypt3(f, k1, k2, k3, x) == Single(f, k1, false, Single(f, k2, true, Single(f, k3, false, x)))
  {
    hide IP, FP, Core;
    var a := Core(f, k1, true, IP(x));
    FPInvertsIP(a);
    FPInvertsIP(Core(f, k2, false, a));
    var b := Core(f, k3, false, IP(x));
    FPInvertsIP(b);
    FPInvertsIP(Core(f, k2, true, b));
  }

  lemma TripleInverts(f: RoundFunction, k1: Schedule, k2: Schedule, k3: Schedule, x: Block)
    ensures Decrypt3(f, k1, k2, k3, Encrypt3(f, k1, k2, k3, x)) == x
    ensures Encrypt3(f, k1, k2, k3, Decrypt3(f, k1, k2, k3, x)) == x
  {
    hide IP, FP, Core;
    var a := Core(f, k1, true, IP(x));
    var b := Core(f, k2, false, a);
    FPInvertsIP(Core(f, k3, true, b));
    CoreInverts(f, k3, true, b);
    CoreInverts(f, k2, false, a);
    CoreInverts(f, k1, true, IP(x));
    var c := Core(f, k3, false, IP(x));
    var d := Core(f, k2, true, c);
    FPInvertsIP(Core(f, k1, false, d));
    CoreInverts(f, k1, false, d);
    CoreInverts(f, k2, true, c);
    CoreInverts(f, k3, false, IP(x));
    FPInvertsIP(x);
  }

  lemma OneRound(f: RoundFunction, ks: Schedule, enc: bool, x: Block, i: nat, y: Block)
    requires i < 16 && y == Rounds(f, ks, enc, x, i)
    ensures var k := KeyAt(i, enc); var t := f(if i % 2 == 0 then y.b else y.a, ks[k], ks[k + 1]);
      Rounds(f, ks, enc, x, i + 1) == if i % 2 == 0 then Block(Xor(y.a, t), y.b) else Block(y.a, Xor(y.b, t))
  {
  }

  // --------------------------------------------------------------- in place

  ghost function Words(data: array<bv32>): Block
    requires data.Length == 2
    reads data
  {
    Block(data[0], data[1])
  }

  /** des_encrypt2, in place. */
  method DesEncrypt2(f: RoundFunction, data: array<bv32>, ks: Schedule, enc: bool)
    requires data.Length == 2
    modifies data
    ensures Words(data) == Core(f, ks, enc, old(Words(data)))
  {
    hide Rotate, Rounds, Round, Xor;
    var r, l := data[0], data[1];
    r := Rotate(r, 29);
    l := Rotate(l, 29);
    ghost var x := Block(l, r);
    NoRounds(f, ks, enc, x);
    var i := 0;
    while i < 16
      invariant 0 <= i <= 16 && i % 2 == 0
      invariant Block(l, r) == Rounds(f, ks, enc, x, i)
    {
      var s := if enc then 2 * i else 30 - 2 * i;
      OneRound(f, ks, enc, x, i, Block(l, r));
      l := Xor(l, f(r, ks[s], ks[s + 1]));
      s := if enc then s + 2 else s - 2;
      OneRound(f, ks, enc, x, i + 1, Block(l, r));
      r := Xor(r, f(l, ks[s], ks[s + 1]));
      i := i + 2;
    }
    data[0], data[1] := Rotate(l, 3), Rotate(r, 3);
  }

  method PermuteInitial(data: array<bv32>)
    requires data.Length == 2
    modifies data
    ensures Words(data) == IP(old(Words(data)))
  {
    hide Swap1, Swap2, Swap4, Swap8, Swap16;
    var l, r := data[0], data[1];
    r, l := PermOp4(r, l);
    l, r := PermOp16(l, r);
    r, l := PermOp2(r, l);
    l, r := PermOp8(l, r);
    r, l := PermOp1(r, l);
    data[0], data[1] := l, r;
  }

  method PermuteFinal(data: array<bv32>)
    requires data.Length == 2
    modifies data
    ensures Words(data) == FP(old(Words(data)))
  {
    hide Swap1, Swap2, Swap4, Swap8, Swap16;
    var l, r := data[0], data[1];
    r, l := PermOp1(r, l);
    l, r := PermOp8(l, r);
    r, l := PermOp2(r, l);
    l, r := PermOp16(l, r);
    r, l := PermOp4(r, l);
    data[0], data[1] := l, r;
  }

  method PermOp4(a0: bv32, b0: bv32) returns (a: bv32, b: bv32)
    ensures Block(a, b) == Swap4(Block(a0, b0))
  {
    hide Pick4, Up4, Xor;
    a, b := a0, b0;
    var t := Pick4(a, b);
    b := Xor(b, t);
    a := Xor(a, Up4(t));
  }

  method PermOp16(a0: bv32, b0: bv32) returns (a: bv32, b: bv32)
    ensures Block(a, b) == Swap16(Block(a0, b0))
  {
    hide Pick16, Up16, Xor;
    a, b := a0, b0;
    var t := Pick16(a, b);
    b := Xor(b, t);
    a := Xor(a, Up16(t));
  }

  method PermOp2(a0: bv32, b0: bv32) returns (a: bv32, b: bv32)
    ensures Block(a, b) == Swap2(Block(a0, b0))
  {
    hide Pick2, Up2, Xor;
    a, b := a0, b0;
    var t := Pick2(a, b);
    b := Xor(b, t);
    a := Xor(a, Up2(t));
  }

  method PermOp8(a0: bv32, b0: bv32) returns (a: bv32, b: bv32)
    ensures Block(a, b) == Swap8(Block(a0, b0))
  {
    hide Pick8, Up8, Xor;
    a, b := a0, b0;
    var t := Pick8(a, b);
    b := Xor(b, t);
    a := Xor(a, Up8(t));
  }

  method PermOp1(a0: bv32, b0: bv32) returns (a: bv32, b: bv32)
    ensures Block(a, b) == Swap1(Block(a0, b0))
  {
    hide Pick1, Up1, Xor;
    a, b := a0, b0;
    var t := Pick1(a, b);
    b := Xor(b, t);
    a := Xor(a, Up1(t));
  }

  /** des_encrypt, in place. */
  method DesEncrypt(f: RoundFunction, data: array<bv32>, ks: Schedule, enc: bool)
    requires data.Length == 2
    modifies data
    ensures Words(data) == Single(f, ks, enc, old(Words(data)))
  {
    hide IP, FP, Core;
    PermuteInitial(data);
    DesEncrypt2(f, data, ks, enc);
    PermuteFinal(data);
  }

  /** des_encrypt3, in place. */
  method DesEncrypt3(f: RoundFunction, data: array<bv32>, k1: Schedule, k2: Schedule, k3: Schedule)
    requires data.Length == 2
    modifies data
    ensures Words(data) == Encrypt3(f, k1, k2, k3, old(Words(data)))
  {
    hide IP, FP, Core;
    PermuteInitial(data);
    DesEncrypt2(f, data, k1, true);
    DesEncrypt2(f, data, k2, false);
    DesEncrypt2(f, data, k3, true);
    PermuteFinal(data);
  }

  /** des_decrypt3, in place. */
  method DesDecrypt3(f: RoundFunction, data: array<bv32>, k1: Schedule, k2: Schedule, k3: Schedule)
    requires data.Length == 2
    modifies data
    ensures Words(data) == Decrypt3(f, k1, k2, k3, old(Words(data)))
  {
    hide IP, FP, Core;
    PermuteInitial(data);
    DesEncrypt2(f, data, k3, false);
    DesEncrypt2(f, data, k2, true);
    DesEncrypt2(f, data, k1, false);
    PermuteFinal(data);
  }
}
