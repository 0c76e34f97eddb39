/**
  The cursor buffer of buffer.c. The operations check their bounds and exit when they do not
  hold: the methods return false, or None, for an exit. Only buf_putbyte misses a case
  (OverrunIff). The position may lie above the length after buf_setlen, so the invariant bounds
  both by the size only.
*/
module Buffer {
  import opened Wrappers
  import opened Bytes
  import opened NumberTheory
  import opened Rsa
  import opened Dss
  import opened KeyCodec
  import opened Memory

  const BUF_MAX_INCR: nat := 1000000000
  const BUF_MAX_SIZE: nat := 1000000000

  /** The buffer as a value. */
  datatype View = View(data: seq<byte>, len: nat, pos: nat)

  /** The buffer after writing b at the position. */
  function Written(v: View, b: seq<byte>): View
    requires v.pos + |b| <= |v.data|
  {
    View(v.data[..v.pos] + b + v.data[v.pos + |b|..], Max(v.len, v.pos + |b|), v.pos + |b|)
  }

  /** Writing one string and then another is writing both. */
  lemma WrittenTwice(v: View, a: seq<byte>, b: seq<byte>)
    requires v.pos + |a| + |b| <= |v.data|
    ensures Written(Written(v, a), b) == Written(v, a + b)
  {
    var w := Written(v, a).data;
    assert w[..v.pos + |a|] == v.data[..v.pos] + a;
    assert w[v.pos + |a| + |b|..] == v.data[v.pos + |a| + |b|..];
    assert v.data[..v.pos] + a + b == v.data[..v.pos] + (a + b);
  }

  /** What has been written can be read back from where it was put. */
  lemma ReadBack(v: View, b: seq<byte>)
    requires v.pos <= v.len <= |v.data| && v.pos + |b| <= |v.data|
    ensures var w := Written(v, b); w.len <= |w.data| && b <= w.data[v.pos..w.len]
  {
    var w := Written(v, b);
    assert w.data[v.pos..w.len][..|b|] == b;
  }

  /** What buf_putbyte does: it makes room for one byte when the position is at or above the
      length, and then stores at the position. */
  datatype ByteOutcome = Exits | Stored(v: View) | Overrun

  function ByteStored(v: View, x: byte): ByteOutcome {
    if v.pos >= v.len && v.len + 1 > |v.data| then Exits
    else if v.pos >= |v.data| then Overrun
    else Stored(View(v.data[v.pos := x], if v.pos >= v.len then v.len + 1 else v.len, v.pos + 1))
  }

  /** The store is past the allocation exactly when the position is at the size and the length
      below it, which buf_setlen can bring about; with a position within the length it never is. */
  lemma OverrunIff(v: View, x: byte)
    requires v.len <= |v.data| && v.pos <= |v.data|
    ensures ByteStored(v, x).Overrun? <==> v.pos == |v.data| && v.len < |v.data|
    ensures v.pos <= v.len ==> !ByteStored(v, x).Overrun?
  {
  }

  /** mp_count_bits, from the shortest bytes. */
  function TopBits(b: byte): nat {
    if b < 1 then 0 else if b < 2 then 1 else if b < 4 then 2 else if b < 8 then 3 else if b < 16 then 4
    else if b < 32 then 5 else if b < 64 then 6 else if b < 128 then 7 else 8
  }

  function CountBits(n: nat): nat {
    if n == 0 then 0 else 8 * (Size(n) - 1) + TopBits(NatToBytes(n)[0])
  }

  class Buf {
    const data: array<byte>
    var len: nat
    var pos: nat

    ghost predicate Valid()
      reads this
    {
      data.Length <= BUF_MAX_SIZE && len <= data.Length && pos <= data.Length
    }

    ghost function State(): View
      reads this, data
    {
      View(data[..], len, pos)
    }

    /** buf_new. */
    constructor (size: nat)
      requires size <= BUF_MAX_SIZE
      ensures Valid() && fresh(data) && len == 0 && pos == 0 && data.Length == size
    {
      data := new byte[size](_ => 0);
      len, pos := 0, 0;
    }

    method SetLen(n: nat) returns (ok: bool)
      requires Valid()
      modifies this
      ensures Valid() && ok == (n <= data.Length) && pos == old(pos) && len == if ok then n else old(len)
    {
      ok := n <= data.Length;
      if ok { len := n; }
    }

    method SetPos(n: nat) returns (ok: bool)
      requires Valid()
      modifies this
      ensures Valid() && ok == (n <= len) && len == old(len) && pos == if ok then n else old(pos)
    {
      ok := n <= len;
      if ok { pos := n; }
    }

    method IncrPos(n: int) returns (ok: bool)
      requires Valid()
      modifies this
      ensures Valid() && ok == (n <= BUF_MAX_INCR && 0 <= old(pos) + n <= len)
      ensures len == old(len) && pos == if ok then old(pos) + n else old(pos)
    {
      ok := !(n > BUF_MAX_INCR || pos + n > len || pos + n < 0);
      if ok { pos := pos + n; }
    }

    method IncrWritePos(n: nat) returns (ok: bool)
      requires Valid()
      modifies this
      ensures Valid() && ok == (n <= BUF_MAX_INCR && old(pos) + n <= data.Length)
      ensures pos == (if ok then old(pos) + n else old(pos)) && len == if ok then Max(old(len), pos) else old(len)
    {
      ok := !(n > BUF_MAX_INCR || pos + n > data.Length);
      if ok {
        pos := pos + n;
        if pos > len { len := pos; }
      }
    }

    /** buf_putbytes. */
    method PutBytes(b: seq<byte>) returns (ok: bool)
      requires Valid()
      modifies this, data
      ensures Valid() && ok == (old(pos) + |b| <= data.Length)
      ensures ok ==> State() == Written(old(State()), b)
      ensures !ok ==> State() == old(State())
    {
      if pos + |b| > data.Length { return false; }
      CopyBytes(data, pos, b);
      ok := IncrWritePos(|b|);
    }

    /** buf_putbyte, wherever its store is within the allocation. */
    method PutByte(x: byte) returns (ok: bool)
      requires Valid() && !ByteStored(State(), x).Overrun?
      modifies this, data
      ensures Valid()
      ensures match ByteStored(old(State()), x)
              case Stored(v) => ok && State() == v
              case _ => !ok && State() == old(State())
      ensures ok && old(pos) <= old(len) ==> State() == Written(old(State()), [x])
    {
      if pos >= len {
        if len + 1 > data.Length { return false; }
        len := len + 1;
      }
      ghost var before := data[..];
      CopyBytes(data, pos, [x]);
      assert data[..] == before[pos := x];
      pos := pos + 1;
      return true;
    }

    method PutInt(n: uint32) returns (ok: bool)
      requires Valid()
      modifies this, data
      ensures Valid() && ok == (old(pos) + 4 <= data.Length)
      ensures ok ==> State() == Written(old(State()), Bytes.PutInt(n))
      ensures !ok ==> State() == old(State())
    {
      ok := PutBytes(Bytes.PutInt(n));
    }

    /** buf_getint; None is an exit. */
    method GetInt() returns (n: Option<uint32>)
      requires Valid()
      modifies this
      ensures Valid() && len == old(len)
      ensures n.Some? == (old(pos) + 4 <= len)
      ensures n.Some? ==> pos == old(pos) + 4 && n.value == Bytes.GetInt(data[old(pos)..len])
      ensures n.None? ==> pos == old(pos)
    {
      if pos + 4 > len { return None; }
      n := Some(Bytes.GetInt(data[pos..len]));
      var ok := IncrPos(4);
    }

    /** buf_putmpint: the length from the bit count, a zero byte when the top bit is set. */
    method PutMpint(n: nat) returns (ok: bool)
      requires Valid()
      modifies this, data
      ensures Valid() && ok == (old(pos) + |Mpint(n)| <= data.Length)
      ensures ok ==> State() == Written(old(State()), Mpint(n))
    {
      hide NatToBytes, Written;
      var size, pad := 0, false;
      if n != 0 {
        size := CountBits(n);
        pad := size % 8 == 0;
        size := size / 8 + 1;
      }
      BitsGiveBody(n);
      assert size == |MpintBody(n)|;
      ghost var v := State();
      ok := PutInt(size % WORD);
      if !ok { return; }
      if size > 0 {
        if pad {
          WrittenTwiceIf(v, Bytes.PutInt(size % WORD), [0]);
          OverrunIff(State(), 0);
          ok := PutByte(0);
          if !ok { return; }
        }
        var zero: seq<byte> := if pad then [0] else [];
        var rest := NatToBytes(n);
        assert State() == Written(v, Bytes.PutInt(size % WORD) + zero) by {
          assert Bytes.PutInt(size % WORD) + [] == Bytes.PutInt(size % WORD);
        }
        WrittenTwiceIf(v, Bytes.PutInt(size % WORD) + zero, rest);
        ok := PutBytes(rest);
        assert Bytes.PutInt(size % WORD) + zero + rest == Mpint(n);
      } else {
        assert Bytes.PutInt(size % WORD) == Mpint(n);
      }
    }

    /** buf_getmpint, against its specification on the bytes from the position to the length. */
    method GetMpint() returns (r: Parsed<nat>)
      requires Valid()
      modifies this
      ensures Valid() && len == old(len)
      ensures match KeyCodec.GetMpint(old(if pos <= len then data[pos..len] else []))
              case Got(n, rest) => r.Got? && r.value == n && pos <= len && data[pos..len] == rest
              case Bad => r.Bad?
              case Gone => r.Gone?
    {
      hide BytesToNat, Bytes.GetInt, KeyCodec.GetMpint;
      ghost var b := if pos <= len then data[pos..len] else [];
      DecoderCases(b);
      ghost var d, start := data[..], pos;
      assert pos <= len ==> b == d[start..len];
      var n := GetInt();
      if n.None? { return Gone; }
      Slices(d, start, len, 4, 4);
      assert data[pos..len] == d[start + 4..len];
      if n.value == 0 { return Got(0, []); }
      if n.value > BUF_MAX_MPINT { return Bad; }
      if pos + 1 > len { return Gone; }
      if data[pos] >= 128 { return Bad; }
      if pos + n.value > len { return Gone; }
      var value := BytesToNat(data[pos..pos + n.value]);
      Slices(d, start, len, 4, 4 + n.value);
      assert data[pos..pos + n.value] == d[start + 4..start + 4 + n.value];
      var ok := IncrPos(n.value);
      assert data[pos..len] == d[start + 4 + n.value..len];
      return Got(value, []);
    }
  }

  lemma DecoderCases(b: seq<byte>)
    ensures |b| < 4 ==> KeyCodec.GetMpint(b) == Gone
    ensures |b| >= 4 && Bytes.GetInt(b) == 0 ==> KeyCodec.GetMpint(b) == Got(0, b[4..])
    ensures |b| >= 4 && Bytes.GetInt(b) > BUF_MAX_MPINT ==> KeyCodec.GetMpint(b) == Bad
    ensures |b| >= 4 && 0 < Bytes.GetInt(b) <= BUF_MAX_MPINT ==>
      KeyCodec.GetMpint(b) ==
        if |b| < 5 then Gone else if b[4] >= 128 then Bad else if |b| < 4 + Bytes.GetInt(b) then Gone
        else Got(BytesToNat(b[4..4 + Bytes.GetInt(b)]), b[4 + Bytes.GetInt(b)..])
  {
  }

  lemma Slices(d: seq<byte>, p: nat, l: nat, i: nat, j: nat)
    requires i <= j && p + j <= l <= |d|
    ensures d[p..l][i..j] == d[p + i..p + j] && d[p..l][j..] == d[p + j..l]
    ensures i < j ==> d[p..l][i] == d[p + i]
  {
    var s := d[p..l];
    assert forall k :: 0 <= k < |s| ==> s[k] == d[p + k];
    assert |s[i..j]| == |d[p + i..p + j]| && forall k :: 0 <= k < j - i ==> s[i..j][k] == s[i + k] == d[p + i..p + j][k];
    assert |s[j..]| == |d[p + j..l]| && forall k :: 0 <= k < |s| - j ==> s[j..][k] == s[j + k] == d[p + j..l][k];
  }

  lemma WrittenTwiceIf(v: View, a: seq<byte>, b: seq<byte>)
    requires v.pos + |a| <= |v.data|
    ensures v.pos + |a| + |b| <= |v.data| ==> Written(Written(v, a), b) == Written(v, a + b)
    ensures Written(v, a).pos == v.pos + |a| && |Written(v, a).data| == |v.data|
    ensures Written(v, a).pos <= Written(v, a).len
  {
    if v.pos + |a| + |b| <= |v.data| { WrittenTwice(v, a, b); }
  }

  /** The length and padding that the program computes from the bit count are those of the
      shortest encoding with a clear top bit. */
  lemma BitsGiveBody(n: nat)
    ensures n == 0 ==> |MpintBody(n)| == 0
    ensures n > 0 ==> |MpintBody(n)| == CountBits(n) / 8 + 1
    ensures n > 0 ==> MpintBody(n) == (if CountBits(n) % 8 == 0 then [0] else []) + NatToBytes(n)
  {
    if n > 0 {
      var m := NatToBytes(n);
      assert CountBits(n) == 8 * (|m| - 1) + TopBits(m[0]);
      assert [] + m == m;
    }
  }

  /** The calls that lead there: the position goes to the size, and then the length below it. No
      caller in the program makes them. */
  method OverrunReached(size: nat) returns (b: Buf)
    requires 0 < size <= BUF_MAX_INCR
    ensures b.Valid() && fresh(b) && forall x :: ByteStored(b.State(), x).Overrun?
  {
    b := new Buf(size);
    var moved := b.IncrWritePos(size);
    var cut := b.SetLen(0);
  }
}
