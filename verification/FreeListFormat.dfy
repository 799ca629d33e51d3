/** The layout of a free list page: the offset of the next entry, the ID of the
    next list page, and then the entries. */
module FreeListFormat {
  import opened Bytes

  const FIRST_ENTRY: nat := 16

  /** Where entry j is stored; entries are 8 bytes each. */
  function EntryOffset(j: nat): nat {
    16 + 8 * j
  }

  /** The page size, and the machine with its size_t. */
  datatype Geometry = Geometry(pageSize: nat, machine: Machine) {
    function Word(): nat {
      machine.Word()
    }

    function SizeT(x: nat): nat {
      machine.SizeT(x)
    }
  }

  /** Page sizes are multiples of 8 with room for the two fields, which every
      power of two from 16 on is, and a size_t holds more than a page size. */
  ghost predicate Usable(g: Geometry) {
    g.pageSize % 8 == 0 && FIRST_ENTRY <= g.pageSize && 2 * g.pageSize <= g.Word()
  }

  /** Number of entries that fit in a page. */
  function Capacity(g: Geometry): nat
    requires g.pageSize >= FIRST_ENTRY
  {
    (g.pageSize - FIRST_ENTRY) / 8
  }

  /** A full page ends where the page ends. */
  lemma FullPageOffset(g: Geometry)
    requires Usable(g)
    ensures EntryOffset(Capacity(g)) == g.pageSize
  {
  }

  function NextEntryOffset(g: Geometry, b: Block): nat
    requires |b| >= 8
  {
    g.SizeT(Load64(b, 0))
  }

  function NextPageId64(b: Block): nat
    requires |b| >= 16
  {
    Load64(b, 8)
  }

  function SetNextEntryOffset(b: Block, offset: nat): (r: Block)
    requires |b| >= 8
    ensures |r| == |b|
  {
    Store64(b, 0, offset)
  }

  function SetNextPageId64(b: Block, id: nat): (r: Block)
    requires |b| >= 16
    ensures |r| == |b|
  {
    Store64(b, 8, id)
  }

  predicate IsCorruptEntryOffset(offset: nat, pageSize: nat) {
    offset >= pageSize || offset % 8 != 0
  }

  /** An offset that is not corrupt is the offset of 8 bytes inside the page. */
  lemma GoodOffsetInPage(g: Geometry, offset: nat)
    requires Usable(g)
    ensures !IsCorruptEntryOffset(offset, g.pageSize) ==> offset + 8 <= g.pageSize
  {
  }

  function Pow2(n: nat): nat {
    if n == 0 then 1 else 2 * Pow2(n - 1)
  }

  lemma {:induction false} Pow2Multiple(n: nat)
    ensures Pow2(n + 4) == 16 * Pow2(n) && Pow2(n) >= 1
  {
    if n > 0 { Pow2Multiple(n - 1); }
    else {
      assert Pow2(2) == 2 * Pow2(1);
      assert Pow2(4) == 2 * Pow2(3);
    }
  }

  /** Every page shift from 4 on gives a usable page size. */
  lemma ShiftedSizes(shift: nat, machine: Machine)
    requires shift >= 4 && 2 * Pow2(shift) <= machine.Word()
    ensures Usable(Geometry(Pow2(shift), machine))
  {
    Pow2Multiple(shift - 4);
  }
}
