/**
  The circular buffer of circbuffer.c, refining a bounded queue of bytes.
*/
module CircBuffer {
  import opened Wrappers
  import opened Bytes
  import opened NumberTheory

  const MAX_CBUF_SIZE: nat := 100000000

  /** Where index x lies in a buffer of the given size, for x below twice the size. */
  function Wrap(x: nat, size: nat): (r: nat)
    requires x < 2 * size
    ensures r < size
  {
    if x < size then x else x - size
  }

  lemma WrapIsMod(x: nat, size: nat)
    requires x < 2 * size
    ensures x % size == Wrap(x, size)
  {
    if x < size {
      ModIdem(x, size);
    } else {
      ModIdem(x - size, size);
      AddMultiple(x - size, size, 1);
    }
  }

  /** The queue held: n bytes from position r, running over the end to the start. */
  function Ring(d: seq<byte>, r: nat, n: nat): (q: seq<byte>)
    requires r < |d| && n <= |d|
    ensures |q| == n && forall i :: 0 <= i < n ==> q[i] == d[Wrap(r + i, |d|)]
  {
    seq(n, i requires 0 <= i < n => d[Wrap(r + i, |d|)])
  }

  lemma RingRead(d: seq<byte>, r: nat, n: nat, len: nat)
    requires r < |d| && len <= n <= |d| && r + len <= |d|
    ensures Ring(d, r, n)[..len] == d[r..r + len]
    ensures Ring(d, Wrap(r + len, |d|), n - len) == Ring(d, r, n)[len..]
  {
  }

  lemma RingAppend(d: seq<byte>, r: nat, n: nat, len: nat)
    requires r < |d| && n + len <= |d| && Wrap(r + n, |d|) + len <= |d|
    ensures Ring(d, r, n + len) == Ring(d, r, n) + d[Wrap(r + n, |d|)..Wrap(r + n, |d|) + len]
  {
  }

  /** Bytes outside the queue do not matter. */
  lemma RingFrame(d: seq<byte>, d2: seq<byte>, r: nat, n: nat, w: nat, len: nat)
    requires r < |d| == |d2| && n + len <= |d| && w == Wrap(r + n, |d|) && w + len <= |d|
    requires forall i :: 0 <= i < |d| && !(w <= i < w + len) ==> d2[i] == d[i]
    requires r < w || n == 0 || w + len <= r
    ensures Ring(d2, r, n) == Ring(d, r, n)
  {
  }

  class Circ {
    const data: array<byte>
    const size: nat
    var readpos: nat
    var writepos: nat
    var used: nat

    ghost predicate Valid()
      reads this
    {
      && 0 < size == data.Length && size <= MAX_CBUF_SIZE
      && readpos < size && writepos < size && used <= size
      && writepos == Wrap(readpos + used, size)
    }

    ghost function Contents(): (q: seq<byte>)
      requires Valid()
      reads this, data
      ensures |q| == used
    {
      Ring(data[..], readpos, used)
    }

    /** cbuf_new; a size above MAX_CBUF_SIZE is an exit. */
    constructor (size: nat)
      requires 0 < size <= MAX_CBUF_SIZE
      ensures Valid() && fresh(data) && this.size == size && Contents() == []
    {
      this.size := size;
      data := new byte[size](_ => 0);
      used, readpos, writepos := 0, 0, 0;
    }

    method GetUsed() returns (n: nat)
      requires Valid()
      ensures n == |Contents()|
    {
      n := used;
    }

    method GetAvail() returns (n: nat)
      requires Valid()
      ensures n == size - |Contents()|
    {
      n := size - used;
    }

    /** The two modular relations that the program asserts; both always hold, and their
        operands stay below 2^32. */
    lemma PositionsAgree()
      requires Valid()
      ensures 0 <= 2 * size + writepos - readpos < WORD && 0 <= 2 * size + readpos - writepos < WORD
      ensures (2 * size + writepos - readpos) % size == used % size
      ensures (2 * size + readpos - writepos) % size == (size - used) % size
    {
      if readpos + used < size {
        AddMultiple(used, size, 2);
        AddMultiple(size - used, size, 1);
      } else {
        AddMultiple(used, size, 1);
        AddMultiple(size - used, size, 2);
      }
    }

    /** cbuf_readlen: the bytes that can be taken without wrapping. */
    method ReadLen() returns (n: nat)
      requires Valid()
      ensures n <= used && readpos + n <= size && (n == 0 <==> used == 0)
      ensures n == used || readpos + n == size
    {
      PositionsAgree();
      assert (2 * size + writepos - readpos) % size == used % size;
      assert (2 * size + readpos - writepos) % size == (size - used) % size;
      if used == 0 { return 0; }
      if readpos < writepos { return writepos - readpos; }
      return size - readpos;
    }

    /** cbuf_writelen: the room that can be filled without wrapping. */
    method WriteLen() returns (n: nat)
      requires Valid()
      ensures n <= size - used && writepos + n <= size && (n == 0 <==> used == size)
      ensures n == size - used || writepos + n == size
    {
      PositionsAgree();
      assert used <= size;
      assert (2 * size + writepos - readpos) % size == used % size;
      assert (2 * size + readpos - writepos) % size == (size - used) % size;
      if used == size { return 0; }
      if writepos < readpos { return readpos - writepos; }
      return size - writepos;
    }

    /** The bytes behind cbuf_readptr(len); None is an exit. */
    method ReadPtr(len: nat) returns (b: Option<seq<byte>>)
      requires Valid()
      ensures b.Some? ==> len <= used && b.value == Contents()[..len]
      ensures b.None? ==> len > used || readpos + len > size
    {
      var n := ReadLen();
      if len > n { return None; }
      RingRead(data[..], readpos, used, len);
      return Some(data[readpos..readpos + len]);
    }

    /** memcpy to cbuf_writeptr(|b|); false is an exit. The queue does not change yet. */
    method CopyIn(b: seq<byte>) returns (ok: bool)
      requires Valid()
      modifies data
      ensures Valid() && Contents() == old(Contents())
      ensures ok ==> writepos + |b| <= size && data[writepos..writepos + |b|] == b
      ensures !ok ==> |b| > size - used || writepos + |b| > size
    {
      var n := WriteLen();
      if |b| > n { return false; }
      ghost var before := data[..];
      var i := 0;
      while i < |b|
        invariant 0 <= i <= |b|
        invariant forall j :: 0 <= j < i ==> data[writepos + j] == b[j]
        invariant forall j :: 0 <= j < size && !(writepos <= j < writepos + |b|) ==> data[j] == before[j]
      {
        data[writepos + i] := b[i];
        i := i + 1;
      }
      RingFrame(before, data[..], readpos, used, writepos, |b|);
      return true;
    }

    /** cbuf_incrwrite: the bytes after the write position join the queue. */
    method IncrWrite(len: nat) returns (ok: bool)
      requires Valid()
      modifies this
      ensures Valid()
      ensures ok <==> len <= size - old(used) && old(writepos) + len <= size
      ensures ok ==> writepos == Wrap(old(writepos) + len, size)
      ensures Contents() == old(Contents()) + (if ok then old(data[writepos..writepos + len]) else [])
    {
      var n := WriteLen();
      if len > n { return false; }
      RingAppend(data[..], readpos, used, len);
      assert data[..][writepos..writepos + len] == data[writepos..writepos + len];
      used := used + len;
      assert used <= size;
      WrapIsMod(writepos + len, size);
      writepos := (writepos + len) % size;
      return true;
    }

    /** cbuf_incrread: the oldest bytes leave the queue. */
    method IncrRead(len: nat) returns (ok: bool)
      requires Valid()
      modifies this
      ensures Valid()
      ensures ok <==> len <= old(used) && old(readpos) + len <= size
      ensures Contents() == if ok then old(Contents())[len..] else old(Contents())
    {
      var n := ReadLen();
      if len > n { return false; }
      assert used >= len;
      RingRead(data[..], readpos, used, len);
      used := used - len;
      WrapIsMod(readpos + len, size);
      readpos := (readpos + len) % size;
      return true;
    }
  }

  /** One pass: as much as fits before the end of the array. */
  method AppendPiece(c: Circ, piece: seq<byte>)
    requires c.Valid() && |piece| <= c.size - c.used && c.writepos + |piece| <= c.size
    modifies c, c.data
    ensures c.Valid() && c.Contents() == old(c.Contents()) + piece
    ensures c.used == old(c.used) + |piece| && c.writepos == Wrap(old(c.writepos) + |piece|, c.size)
  {
    var ok := c.CopyIn(piece);
    ok := c.IncrWrite(|piece|);
  }

  /** The copy loop for incoming channel data: it appends exactly the message and needs at
      most two passes. */
  method Append(c: Circ, b: seq<byte>) returns (passes: nat)
    requires c.Valid() && |b| <= c.size - c.used
    modifies c, c.data
    ensures c.Valid() && c.Contents() == old(c.Contents()) + b && passes <= 2
  {
    hide Ring;
    ghost var before := c.Contents();
    var len := |b|;
    passes := 0;
    while len > 0
      invariant c.Valid() && 0 <= len <= |b| && len <= c.size - c.used
      invariant c.Contents() == before + b[..|b| - len]
      invariant passes == 0 || len == 0 || (passes == 1 && c.writepos == 0)
      invariant passes <= 2
      decreases len
    {
      var done := |b| - len;
      var buflen := c.WriteLen();
      if buflen > len { buflen := len; }
      AppendPiece(c, b[done..done + buflen]);
      assert before + b[..done] + b[done..done + buflen] == before + b[..done + buflen];
      len := len - buflen;
      passes := passes + 1;
    }
    assert b[..|b|] == b;
  }
}
