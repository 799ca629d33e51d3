/** Bytes, page buffers and the 64-bit integer codec used by every on-disk format.

    Integers are stored in little-endian order, which is what a plain 64-bit
    store produces on the platforms the default platform layer targets. */
module Bytes {
  newtype byte = x: int | 0 <= x < 256

  type Block = seq<byte>

  const UINT64_LIMIT: nat := 0x1_0000_0000_0000_0000

  /** The width of a size_t. */
  datatype Machine = Bits32 | Bits64 {
    /** The number of values of a size_t. */
    function Word(): nat {
      if this == Bits32 then 0x1_0000_0000 else UINT64_LIMIT
    }

    /** The conversion of a 64-bit value to size_t. */
    function SizeT(x: nat): nat {
      if this == Bits32 then x % 0x1_0000_0000 else x
    }
  }

  function Pow256(n: nat): (r: nat)
    ensures r >= 1
  {
    if n == 0 then 1 else 256 * Pow256(n - 1)
  }

  /** The n low-order bytes of v, least significant first. */
  function EncodeLe(v: nat, n: nat): (s: seq<byte>)
    ensures |s| == n
  {
    if n == 0 then [] else [(v % 256) as byte] + EncodeLe(v / 256, n - 1)
  }

  function DecodeLe(s: seq<byte>): nat {
    if s == [] then 0 else s[0] as nat + 256 * DecodeLe(s[1..])
  }

  lemma {:induction false} DecodeEncode(v: nat, n: nat)
    requires v < Pow256(n)
    ensures DecodeLe(EncodeLe(v, n)) == v
  {
    if n > 0 {
      DecodeEncode(v / 256, n - 1);
      assert EncodeLe(v, n)[1..] == EncodeLe(v / 256, n - 1);
    }
  }

  lemma {:induction false} EncodeDecode(s: seq<byte>)
    ensures DecodeLe(s) < Pow256(|s|)
    ensures EncodeLe(DecodeLe(s), |s|) == s
  {
    if s != [] {
      EncodeDecode(s[1..]);
      var rest := DecodeLe(s[1..]);
      assert (s[0] as nat + 256 * rest) / 256 == rest;
      assert (s[0] as nat + 256 * rest) % 256 == s[0] as nat;
      assert [s[0]] + s[1..] == s;
    }
  }

  lemma Pow256Of8()
    ensures Pow256(8) == UINT64_LIMIT
  {
    assert Pow256(1) == 256 * Pow256(0);
    assert Pow256(2) == 256 * Pow256(1);
    assert Pow256(3) == 256 * Pow256(2);
    assert Pow256(4) == 256 * Pow256(3);
    assert Pow256(5) == 256 * Pow256(4);
    assert Pow256(6) == 256 * Pow256(5);
    assert Pow256(7) == 256 * Pow256(6);
    assert Pow256(8) == 256 * Pow256(7);
  }

  /** LoadUint64 on the 8 bytes at the given offset. */
  function Load64(b: Block, at: nat): (v: nat)
    requires at + 8 <= |b|
    ensures v < UINT64_LIMIT
  {
    EncodeDecode(b[at..at + 8]);
    Pow256Of8();
    DecodeLe(b[at..at + 8])
  }

  /** StoreUint64 into the 8 bytes at the given offset. */
  function Store64(b: Block, at: nat, v: nat): (r: Block)
    requires at + 8 <= |b|
    ensures |r| == |b|
  {
    b[..at] + EncodeLe(v, 8) + b[at + 8..]
  }

  /** A store is read back by a load of the same 8 bytes. */
  lemma LoadStored(b: Block, at: nat, v: nat)
    requires at + 8 <= |b| && v < UINT64_LIMIT
    ensures Load64(Store64(b, at, v), at) == v
  {
    Pow256Of8();
    DecodeEncode(v, 8);
    assert Store64(b, at, v)[at..at + 8] == EncodeLe(v, 8);
  }

  /** A store is invisible to a load of 8 other bytes. */
  lemma LoadElsewhere(b: Block, at: nat, v: nat, other: nat)
    requires at + 8 <= |b| && other + 8 <= |b|
    requires other + 8 <= at || at + 8 <= other
    ensures Load64(Store64(b, at, v), other) == Load64(b, other)
  {
    assert Store64(b, at, v)[other..other + 8] == b[other..other + 8];
  }

  /** Storing the value that is already there changes nothing. */
  lemma StoreLoaded(b: Block, at: nat)
    requires at + 8 <= |b|
    ensures Store64(b, at, Load64(b, at)) == b
  {
    EncodeDecode(b[at..at + 8]);
    assert b[..at] + b[at..at + 8] + b[at + 8..] == b;
  }

  /** CopySpan of `len` bytes from one buffer into another. */
  function Copy(from: Block, start: nat, len: nat, to: Block, at: nat): (r: Block)
    requires start + len <= |from| && at + len <= |to|
    ensures |r| == |to|
  {
    to[..at] + from[start..start + len] + to[at + len..]
  }

  /** An integer that lies inside the copied range moves with it. */
  lemma LoadCopied(from: Block, start: nat, len: nat, to: Block, at: nat, k: nat)
    requires start + len <= |from| && at + len <= |to|
    requires k + 8 <= len
    ensures Load64(Copy(from, start, len, to, at), at + k) == Load64(from, start + k)
  {
    var x, y := Copy(from, start, len, to, at)[at + k..at + k + 8], from[start + k..start + k + 8];
    forall j | 0 <= j < 8 ensures x[j] == y[j] {
      assert from[start..start + len][k + j] == from[start + k + j];
    }
    assert x == y;
  }

  /** An integer that lies outside the overwritten range stays. */
  lemma LoadNotCopied(from: Block, start: nat, len: nat, to: Block, at: nat, other: nat)
    requires start + len <= |from| && at + len <= |to| && other + 8 <= |to|
    requires other + 8 <= at || at + len <= other
    ensures Load64(Copy(from, start, len, to, at), other) == Load64(to, other)
  {
    var x, y := Copy(from, start, len, to, at)[other..other + 8], to[other..other + 8];
    forall j | 0 <= j < 8 ensures x[j] == y[j] {}
    assert x == y;
  }
}
