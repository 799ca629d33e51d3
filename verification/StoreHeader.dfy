/** The header of a store's data file. */
module StoreHeader {
  import opened Bytes
  import opened Lists
  import opened Buffers

  const GLOBAL_MAGIC: nat := 0x4265727279444220
  const STORE_MAGIC: nat := 0x444253746f726520
  const SERIALIZED_SIZE: nat := 48

  datatype Header = Header(pageCount: nat, freeListHead: nat, pageShift: nat)

  /** The fields are size_t values. */
  predicate FieldsFit(machine: Machine, h: Header) {
    var word := machine.Word();
    h.pageCount < word && h.freeListHead < word && h.pageShift < word
  }

  /** The buffer after StoreHeader::Serialize. */
  function Serialized(h: Header, to: Block): (r: Block)
    requires |to| >= SERIALIZED_SIZE && h.pageShift < 32
    ensures |r| == |to|
  {
    var a := Store64(to, 0, GLOBAL_MAGIC);
    var b := Store64(a, 8, STORE_MAGIC);
    var c := Store64(b, 16, 0);
    var d := Store64(c, 24, h.pageCount);
    var e := Store64(d, 32, h.freeListHead);
    Store64(e, 40, 0)[40 := h.pageShift as byte]
  }

  /** What StoreHeader::Deserialize reads, or None where it returns false. */
  function Deserialized(machine: Machine, from: Block): Option<Header>
    requires |from| >= SERIALIZED_SIZE
  {
    var word := machine.Word();
    if Load64(from, 0) != GLOBAL_MAGIC || Load64(from, 8) != STORE_MAGIC || Load64(from, 16) != 0 then None
    else if Load64(from, 24) >= word || Load64(from, 32) >= word then None
    else if Load64(from, 32) == 0 || from[40] >= 32 then None
    else Some(Header(Load64(from, 24), Load64(from, 32), from[40] as nat))
  }

  /** The fields after StoreHeader::Deserialize, which assigns them one by one and
      stops at the first check that fails. */
  function FieldsRead(machine: Machine, from: Block, was: Header): Header
    requires |from| >= SERIALIZED_SIZE
  {
    if Load64(from, 0) != GLOBAL_MAGIC || Load64(from, 8) != STORE_MAGIC || Load64(from, 16) != 0 then was
    else
      var counted := was.(pageCount := machine.SizeT(Load64(from, 24)));
      if Load64(from, 24) >= machine.Word() then counted
      else
        var headed := counted.(freeListHead := machine.SizeT(Load64(from, 32)));
        if Load64(from, 32) >= machine.Word() || Load64(from, 32) == 0 then headed
        else headed.(pageShift := from[40] as nat)
  }

  /** What each field of a serialized header holds. */
  lemma SerializedFields(h: Header, to: Block)
    requires |to| >= SERIALIZED_SIZE && h.pageShift < 32
    requires h.pageCount < UINT64_LIMIT && h.freeListHead < UINT64_LIMIT
    ensures var r := Serialized(h, to);
      && Load64(r, 0) == GLOBAL_MAGIC && Load64(r, 8) == STORE_MAGIC && Load64(r, 16) == 0
      && Load64(r, 24) == h.pageCount && Load64(r, 32) == h.freeListHead && r[40] as nat == h.pageShift
  {
    var a := Store64(to, 0, GLOBAL_MAGIC);
    var b := Store64(a, 8, STORE_MAGIC);
    var c := Store64(b, 16, 0);
    var d := Store64(c, 24, h.pageCount);
    var e := Store64(d, 32, h.freeListHead);
    var f := Store64(e, 40, 0);
    var r := Serialized(h, to);
    forall at | at in {0, 8, 16, 24, 32} ensures Load64(r, at) == Load64(e, at) {
      assert r[at..at + 8] == f[at..at + 8];
      LoadElsewhere(e, 40, 0, at);
    }
    LoadStored(d, 32, h.freeListHead);
    LoadElsewhere(d, 32, h.freeListHead, 24); LoadStored(c, 24, h.pageCount);
    LoadElsewhere(d, 32, h.freeListHead, 16); LoadElsewhere(c, 24, h.pageCount, 16); LoadStored(b, 16, 0);
    EarlyFields(h, to);
  }

  lemma EarlyFields(h: Header, to: Block)
    requires |to| >= SERIALIZED_SIZE && h.pageShift < 32
    ensures var b := Store64(Store64(to, 0, GLOBAL_MAGIC), 8, STORE_MAGIC);
      var e := Store64(Store64(Store64(b, 16, 0), 24, h.pageCount), 32, h.freeListHead);
      Load64(e, 0) == GLOBAL_MAGIC && Load64(e, 8) == STORE_MAGIC
  {
    var a := Store64(to, 0, GLOBAL_MAGIC);
    var b := Store64(a, 8, STORE_MAGIC);
    var c := Store64(b, 16, 0);
    var d := Store64(c, 24, h.pageCount);
    forall at | at in {0, 8} ensures Load64(Store64(d, 32, h.freeListHead), at) == Load64(b, at) {
      LoadElsewhere(d, 32, h.freeListHead, at);
      LoadElsewhere(c, 24, h.pageCount, at);
      LoadElsewhere(b, 16, 0, at);
    }
    LoadElsewhere(a, 8, STORE_MAGIC, 0);
    LoadStored(to, 0, GLOBAL_MAGIC);
    LoadStored(a, 8, STORE_MAGIC);
  }

  /** A serialized header is read back if and only if it has a free list. */
  lemma RoundTrip(machine: Machine, h: Header, to: Block)
    requires |to| >= SERIALIZED_SIZE && h.pageShift < 32 && FieldsFit(machine, h)
    ensures Deserialized(machine, Serialized(h, to)) == if h.freeListHead != 0 then Some(h) else None
  {
    SerializedFields(h, to);
  }

  lemma StoreKeeps(b: Block, at: nat, v: nat, i: nat)
    requires at + 8 <= i < |b|
    ensures Store64(b, at, v)[i] == b[i]
  {
  }

  /** Serialization leaves the bytes after the header alone. */
  lemma OnlyTheHeader(h: Header, to: Block, i: nat)
    requires SERIALIZED_SIZE <= i < |to| && h.pageShift < 32
    ensures Serialized(h, to)[i] == to[i]
  {
    var a := Store64(to, 0, GLOBAL_MAGIC);
    var b := Store64(a, 8, STORE_MAGIC);
    var c := Store64(b, 16, 0);
    var d := Store64(c, 24, h.pageCount);
    var e := Store64(d, 32, h.freeListHead);
    StoreKeeps(to, 0, GLOBAL_MAGIC, i);
    StoreKeeps(a, 8, STORE_MAGIC, i);
    StoreKeeps(b, 16, 0, i);
    StoreKeeps(c, 24, h.pageCount, i);
    StoreKeeps(d, 32, h.freeListHead, i);
    StoreKeeps(e, 40, 0, i);
  }

  /** Serializing what was read from a buffer gives back the buffer, with the
      padding bytes after the page shift cleared. */
  lemma ReadAndWriteBack(machine: Machine, from: Block)
    requires |from| >= SERIALIZED_SIZE && Deserialized(machine, from).Some?
    ensures var h := Deserialized(machine, from).value;
      Serialized(h, from) == from[..41] + seq(7, _ => 0) + from[48..]
  {
    var h := Deserialized(machine, from).value;
    StoreLoaded(from, 0);
    StoreLoaded(from, 8);
    StoreLoaded(from, 16);
    StoreLoaded(from, 24);
    StoreLoaded(from, 32);
    ZeroBytes(8);
    assert EncodeLe(0, 8) == seq(8, _ => 0);
  }

  lemma {:induction false} ZeroBytes(n: nat)
    ensures EncodeLe(0, n) == seq(n, _ => 0)
  {
    if n > 0 { ZeroBytes(n - 1); }
  }

  lemma WrittenIsRead(machine: Machine, from: Block, h: Header)
    requires |from| >= SERIALIZED_SIZE && FieldsFit(machine, h) && h.freeListHead != 0 && h.pageShift < 32
    requires Serialized(h, from) == from[..41] + seq(7, _ => 0) + from[48..]
    ensures Deserialized(machine, from) == Some(h)
  {
    SerializedFields(h, from);
    FieldKept(from, Serialized(h, from), 0);
    FieldKept(from, Serialized(h, from), 8);
    FieldKept(from, Serialized(h, from), 16);
    FieldKept(from, Serialized(h, from), 24);
    FieldKept(from, Serialized(h, from), 32);
  }

  lemma FieldKept(from: Block, r: Block, at: nat)
    requires |from| >= SERIALIZED_SIZE && r == from[..41] + seq(7, _ => 0) + from[48..] && at <= 32
    ensures Load64(r, at) == Load64(from, at) && r[40] == from[40]
  {
    assert r[at..at + 8] == from[at..at + 8];
  }

  /** Deserialize accepts a buffer, and reads a header from it, if and only if the
      header is one that it may read and the buffer is what Serialize makes of it,
      apart from the padding. */
  lemma AcceptedExactly(machine: Machine, from: Block, h: Header)
    requires |from| >= SERIALIZED_SIZE
    ensures Deserialized(machine, from) == Some(h) <==>
      && FieldsFit(machine, h) && h.freeListHead != 0 && h.pageShift < 32
      && Serialized(h, from) == from[..41] + seq(7, _ => 0) + from[48..]
  {
    if Deserialized(machine, from) == Some(h) {
      ReadAndWriteBack(machine, from);
    }
    if FieldsFit(machine, h) && h.freeListHead != 0 && h.pageShift < 32 &&
       Serialized(h, from) == from[..41] + seq(7, _ => 0) + from[48..]
    {
      WrittenIsRead(machine, from, h);
    }
  }

  lemma DecodeFrom(s: seq<byte>, i: nat)
    requires i < |s|
    ensures DecodeLe(s[i..]) == s[i] as nat + 256 * DecodeLe(s[i + 1..])
  {
    assert s[i..][1..] == s[i + 1..];
  }

  /** An integer is stored with its least significant byte first. */
  lemma EightBytes(v: nat, s: seq<byte>)
    requires |s| == 8
    requires v == s[0] as nat + 0x100 * s[1] as nat + 0x1_0000 * s[2] as nat + 0x100_0000 * s[3] as nat
      + 0x1_0000_0000 * s[4] as nat + 0x100_0000_0000 * s[5] as nat
      + 0x1_0000_0000_0000 * s[6] as nat + 0x100_0000_0000_0000 * s[7] as nat
    ensures EncodeLe(v, 8) == s
  {
    DecodeFrom(s, 0);
    DecodeFrom(s, 1);
    DecodeFrom(s, 2);
    DecodeFrom(s, 3);
    DecodeFrom(s, 4);
    DecodeFrom(s, 5);
    DecodeFrom(s, 6);
    DecodeFrom(s, 7);
    assert s[8..] == [] && s[0..] == s && DecodeLe([]) == 0;
    assert DecodeLe(s) == v;
    EncodeDecode(s);
  }

  /** The fields after a Deserialize that fails: each one is as before if an earlier
      check failed, and else what the buffer holds. */
  lemma FieldsOnFailure(machine: Machine, from: Block, was: Header)
    requires |from| >= SERIALIZED_SIZE
    ensures var r := FieldsRead(machine, from, was);
      var marked := Load64(from, 0) == GLOBAL_MAGIC && Load64(from, 8) == STORE_MAGIC && Load64(from, 16) == 0;
      var counted := marked && Load64(from, 24) < machine.Word();
      var headed := counted && 0 < Load64(from, 32) < machine.Word();
      && r.pageCount == (if marked then machine.SizeT(Load64(from, 24)) else was.pageCount)
      && r.freeListHead == (if counted then machine.SizeT(Load64(from, 32)) else was.freeListHead)
      && r.pageShift == (if headed then from[40] as nat else was.pageShift)
      && (Deserialized(machine, from).Some? ==> Deserialized(machine, from) == Some(r))
  {
  }

  lemma StoreFollows(b: Block, at: nat, v: nat)
    requires at + 8 <= |b|
    ensures Store64(b, at, v)[..at + 8] == b[..at] + EncodeLe(v, 8)
  {
  }

  lemma StoreBeyond(b: Block, at: nat, v: nat)
    requires 16 <= at && at + 8 <= |b|
    ensures Store64(b, at, v)[..16] == b[..16]
  {
  }

  lemma HeaderStarts(h: Header, to: Block)
    requires |to| >= SERIALIZED_SIZE && h.pageShift < 32
    ensures Serialized(h, to)[..16] == EncodeLe(GLOBAL_MAGIC, 8) + EncodeLe(STORE_MAGIC, 8)
  {
    var a := Store64(to, 0, GLOBAL_MAGIC);
    var b := Store64(a, 8, STORE_MAGIC);
    StoreFollows(to, 0, GLOBAL_MAGIC);
    StoreFollows(a, 8, STORE_MAGIC);
    var c := Store64(b, 16, 0);
    var d := Store64(c, 24, h.pageCount);
    var e := Store64(d, 32, h.freeListHead);
    StoreBeyond(b, 16, 0);
    StoreBeyond(c, 24, h.pageCount);
    StoreBeyond(d, 32, h.freeListHead);
    StoreBeyond(e, 40, 0);
    assert Serialized(h, to)[..16] == b[..16];
  }

  /** The first 16 bytes of a header. */
  lemma HeaderBytes(h: Header, to: Block)
    requires |to| >= SERIALIZED_SIZE && h.pageShift < 32
    ensures Serialized(h, to)[..16] ==
      [0x20, 0x42, 0x44, 0x79, 0x72, 0x72, 0x65, 0x42] + [0x20, 0x65, 0x72, 0x6F, 0x74, 0x53, 0x42, 0x44]
  {
    HeaderStarts(h, to);
    EightBytes(GLOBAL_MAGIC, [0x20, 0x42, 0x44, 0x79, 0x72, 0x72, 0x65, 0x42]);
    EightBytes(STORE_MAGIC, [0x20, 0x65, 0x72, 0x6F, 0x74, 0x53, 0x42, 0x44]);
  }

  /** The header that Bootstrap writes has no free list, so it is not accepted
      when the store is opened again. */
  lemma BootstrapHeaderIsRejected(machine: Machine, pageShift: nat, page: Block)
    requires |page| >= SERIALIZED_SIZE && pageShift < 32
    ensures Deserialized(machine, Serialized(Header(2, 0, pageShift), page)) == None
  {
    RoundTrip(machine, Header(2, 0, pageShift), page);
  }

  class StoreHeader {
    var pageCount: nat
    var freeListHeadPage: nat
    var pageShift: nat

    constructor (pageShift: nat, pageCount: nat)
      requires pageShift > 0
      ensures this.pageCount == pageCount && this.freeListHeadPage == 0 && this.pageShift == pageShift
    {
      this.pageCount := pageCount;
      this.freeListHeadPage := 0;
      this.pageShift := pageShift;
    }

    function Value(): Header
      reads this
    {
      Header(pageCount, freeListHeadPage, pageShift)
    }

    method Serialize(to: array<byte>)
      requires to.Length >= SERIALIZED_SIZE && pageShift < 32
      modifies to
      ensures to[..] == Serialized(Value(), old(to[..]))
    {
      StoreUint64(GLOBAL_MAGIC, to, 0);
      StoreUint64(STORE_MAGIC, to, 8);
      StoreUint64(0, to, 16);
      StoreUint64(pageCount, to, 24);
      StoreUint64(freeListHeadPage, to, 32);
      StoreUint64(0, to, 40);
      to[40] := pageShift as byte;
    }

    method Deserialize(machine: Machine, from: array<byte>) returns (ok: bool)
      requires from.Length >= SERIALIZED_SIZE
      modifies this
      ensures ok <==> Deserialized(machine, from[..]).Some?
      ensures ok ==> Deserialized(machine, from[..]) == Some(Value())
      ensures Value() == FieldsRead(machine, from[..], old(Value()))
    {
      var globalMagic := LoadUint64(from, 0);
      if globalMagic != GLOBAL_MAGIC { return false; }
      var storeMagic := LoadUint64(from, 8);
      if storeMagic != STORE_MAGIC { return false; }
      var formatVersion := LoadUint64(from, 16);
      if formatVersion != 0 { return false; }
      var pageCount64 := LoadUint64(from, 24);
      pageCount := machine.SizeT(pageCount64);
      if pageCount != pageCount64 { return false; }
      var head64 := LoadUint64(from, 32);
      freeListHeadPage := machine.SizeT(head64);
      if freeListHeadPage != head64 { return false; }
      if freeListHeadPage == 0 { return false; }
      pageShift := from[40] as nat;
      if pageShift >= 32 { return false; }
      return true;
    }
  }
}
