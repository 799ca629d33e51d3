/** In-place operations on page buffers. */
module Buffers {
  import opened Bytes

  /** StoreUint64 */
  method StoreUint64(v: nat, a: array<byte>, at: nat)
    requires at + 8 <= a.Length
    modifies a
    ensures a[..] == Store64(old(a[..]), at, v)
  {
    var bytes := EncodeLe(v, 8);
    for i := 0 to 8
      invariant a[..] == old(a[..at]) + bytes[..i] + old(a[at + i..])
    {
      a[at + i] := bytes[i];
    }
    assert bytes[..8] == bytes;
  }

  /** LoadUint64 */
  method LoadUint64(a: array<byte>, at: nat) returns (v: nat)
    requires at + 8 <= a.Length
    ensures v == Load64(a[..], at)
  {
    v := 0;
    for i := 8 downto 0
      invariant v == DecodeLe(a[at + i..at + 8])
    {
      v := a[at + i] as nat + 256 * v;
      assert a[at + i..at + 8] == [a[at + i]] + a[at + i + 1..at + 8];
    }
    assert a[at..at + 8] == a[..][at..at + 8];
  }

  /** CopySpan, also within one buffer, if the copy does not start inside the span. */
  method CopySpan(from: array<byte>, start: nat, len: nat, to: array<byte>, at: nat)
    requires start + len <= from.Length && at + len <= to.Length
    requires from == to ==> at < start || start + len <= at
    modifies to
    ensures to[..] == Copy(old(from[..]), start, len, old(to[..]), at)
  {
    ghost var source, target := from[..], to[..];
    for i := 0 to len
      invariant forall k :: 0 <= k < to.Length ==>
        to[k] == if at <= k < at + i then source[start + k - at] else target[k]
      invariant from != to ==> from[..] == source
    {
      assert from[start + i] == source[start + i] by {
        if from != to { assert from[..][start + i] == source[start + i]; }
      }
      to[at + i] := from[start + i];
    }
  }

  /** FillSpan */
  method FillSpan(a: array<byte>, x: byte)
    modifies a
    ensures a[..] == seq(a.Length, _ => x)
  {
    for i := 0 to a.Length
      invariant forall k :: 0 <= k < i ==> a[k] == x
    {
      a[i] := x;
    }
  }

  /** What a successful read of a block does to the buffer it is given. */
  method FillFrom(a: array<byte>, block: Block)
    requires |block| == a.Length
    modifies a
    ensures a[..] == block
  {
    for i := 0 to a.Length
      invariant forall k :: 0 <= k < i ==> a[k] == block[k]
    {
      a[i] := block[i];
    }
  }
}
