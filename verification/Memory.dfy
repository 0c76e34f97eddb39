/**
  Copying bytes into an array.
*/
module Memory {
  import opened Bytes

  /** `dest` with `b` written at `at`. */
  ghost function Patched(dest: seq<byte>, at: nat, b: seq<byte>): seq<byte>
    requires at + |b| <= |dest|
  {
    dest[..at] + b + dest[at + |b|..]
  }

  lemma PatchedMore(dest: seq<byte>, at: nat, b: seq<byte>, x: byte)
    requires at + |b| < |dest|
    ensures |Patched(dest, at, b)| == |dest| && Patched(dest, at, b)[at + |b| := x] == Patched(dest, at, b + [x])
  {
  }

  lemma PatchedNothing(dest: seq<byte>, at: nat)
    requires at <= |dest|
    ensures Patched(dest, at, []) == dest
  {
  }

  lemma PatchedPrefix(before: seq<byte>, at: nat, b: seq<byte>)
    requires at + |b| <= |before|
    ensures Patched(before, at, b)[..at + |b|] == before[..at] + b && |Patched(before, at, b)| == |before|
  {
  }

  /** memcpy. */
  method CopyBytes(a: array<byte>, at: nat, b: seq<byte>)
    requires at + |b| <= a.Length
    modifies a
    ensures a[..] == Patched(old(a[..]), at, b)
    ensures a[..at + |b|] == old(a[..at]) + b
  {
    hide Patched;
    ghost var before := a[..];
    PatchedNothing(before, at);
    assert b[..0] == [];
    var i := 0;
    while i < |b|
      invariant 0 <= i <= |b| && a[..] == Patched(before, at, b[..i])
    {
      PatchedMore(before, at, b[..i], b[i]);
      a[at + i] := b[i];
      assert a[..] == Patched(before, at, b[..i])[at + i := b[i]];
      assert b[..i] + [b[i]] == b[..i + 1];
      i := i + 1;
    }
    assert b[..|b|] == b;
    PatchedPrefix(before, at, b);
    assert a[..at + |b|] == a[..][..at + |b|] && before[..at] == old(a[..at]);
  }
}
