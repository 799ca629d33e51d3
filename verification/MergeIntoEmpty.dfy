/** FreePageList::Merge with an empty receiver: it takes page 0, which holds the
    header of the store, for the receiver's head page. */
module MergeIntoEmpty {
  import opened Bytes
  import opened StatusCodes
  import opened FreeListFormat
  import opened FreeList
  import opened FreeListMerge
  import opened FreeListImages
  import StoreHeader

  /** The page starts as the header page of a store does. */
  ghost predicate IsHeaderPage(b: Block) {
    |b| >= FIRST_ENTRY && Load64(b, 0) == StoreHeader.GLOBAL_MAGIC && Load64(b, 8) == StoreHeader.STORE_MAGIC
  }

  /** Serialize writes such a page, and Deserialize accepts no other. */
  lemma HeaderPages(machine: Machine, h: StoreHeader.Header, page: Block)
    requires |page| >= StoreHeader.SERIALIZED_SIZE && h.pageShift < 32 && StoreHeader.FieldsFit(machine, h)
    ensures IsHeaderPage(StoreHeader.Serialized(h, page))
    ensures StoreHeader.Deserialized(machine, page).Some? ==> IsHeaderPage(page)
  {
    StoreHeader.SerializedFields(h, page);
  }

  /** The magic number at the start of a header is no offset inside a page. */
  ghost predicate MagicOutside(g: Geometry) {
    g.pageSize <= g.SizeT(StoreHeader.GLOBAL_MAGIC)
  }

  /** So it is with every page shift that a header can have, up to 30 on a machine
      with a 32-bit size_t. */
  lemma {:induction false} MagicOutsideShifts(shift: nat, machine: Machine)
    requires shift < if machine == Bits64 then 32 else 31
    ensures MagicOutside(Geometry(Pow2(shift), machine))
  {
    Pow2Below(shift, 30);
    Pow2Of30();
  }

  lemma {:induction false} Pow2Below(n: nat, m: nat)
    ensures n <= m ==> Pow2(n) <= Pow2(m)
    ensures n == m + 1 ==> Pow2(n) == 2 * Pow2(m)
    decreases m
  {
    if 0 < m && n <= m - 1 { Pow2Below(n, m - 1); }
  }

  lemma Pow2Of30()
    ensures Pow2(30) == 0x40000000
  {
    Pow2Multiple(26);
    Pow2Multiple(22);
    Pow2Multiple(18);
    Pow2Multiple(14);
    Pow2Multiple(10);
    Pow2Multiple(6);
    Pow2Multiple(2);
    assert Pow2(2) == 2 * Pow2(1);
  }

  /** The magic number, cut to a size_t, has the alignment of an entry offset. */
  lemma MagicOffset(machine: Machine)
    ensures machine.SizeT(StoreHeader.GLOBAL_MAGIC) % 8 == 0
  {
    assert StoreHeader.GLOBAL_MAGIC == 0x42657272 * 0x1_0000_0000 + 0x79444220;
    assert 0x79444220 == 8 * 0xF288844 && StoreHeader.GLOBAL_MAGIC == 8 * 0x84CAE4E4F288844;
  }

  /** What Merge takes the entry offset of page 0 for. */
  lemma HeaderOffset(g: Geometry, b: Block)
    requires Usable(g) && IsHeaderPage(b)
    ensures IsCorruptEntryOffset(NextEntryOffset(g, b), g.pageSize) <==> MagicOutside(g)
  {
    MagicOffset(g.machine);
  }

  lemma FullOffset(g: Geometry, n: nat)
    requires Usable(g) && n <= Capacity(g)
    ensures IsCorruptEntryOffset(EntryOffset(n), g.pageSize) <==> n == Capacity(g)
  {
  }

  lemma ListFacts(g: Geometry, v: Volume, other: ListHead, b: seq<ListPage>)
    requires Represents(g, v, other, b) && b != []
    ensures other.head != 0 && other.tail != 0 && (other.tail == other.head <==> |b| == 1)
    ensures LinkChains(g, v, 0, other)(0) == v(0) && LinkChains(g, v, 0, other)(other.head) == v(other.head)
    ensures NextEntryOffset(g, v(other.head)) == EntryOffset(|b[0].entries|)
  {
    TopOfStack(g, b);
    GoodNoDup(g, Stack(b));
    HeadApart(b);
    PageIdInStack(b, |b| - 1);
    OffsetRead(g, v(other.head), b[0].entries);
  }

  /** Merge reports data corruption if and only if the magic number is no offset
      inside a page or the other head page is full, and then it has done its first
      step only. */
  lemma EmptyReceiver(g: Geometry, v: Volume, other: ListHead, b: seq<ListPage>)
    requires IsHeaderPage(v(0)) && Represents(g, v, other, b) && b != []
    ensures other.head != 0 && NextEntryOffset(g, LinkChains(g, v, 0, other)(other.head)) >= FIRST_ENTRY
    ensures var r := Merge(g, v, 0, other, Success, Success, Success, false);
      var rejected := MagicOutside(g) || |b[0].entries| == Capacity(g);
      && r.status == (if rejected then DataCorrupted else Success)
      && (rejected ==> r.volume == LinkChains(g, v, 0, other))
  {
    ListFacts(g, v, other, b);
    MergeStatus(g, v, 0, other, NextEntryOffset(g, v(0)), EntryOffset(|b[0].entries|));
    HeaderOffset(g, v(0));
    FullOffset(g, |b[0].entries|);
  }

  /** That step keeps all pages if and only if the other list has one page.
      Otherwise the last page of the other list gets the store magic as its next ID,
      the other list goes on there, and its fields are those of no list any more. */
  lemma EmptyReceiverBreaksOther(g: Geometry, v: Volume, other: ListHead, b: seq<ListPage>)
    requires IsHeaderPage(v(0)) && Represents(g, v, other, b) && b != []
    ensures var w := LinkChains(g, v, 0, other);
      && Sized(g, w)
      && ((forall id: nat :: w(id) == v(id)) <==> |b| == 1)
      && (|b| > 1 ==>
            && NextPageId64(w(other.tail)) == StoreHeader.STORE_MAGIC
            && Segment(g, w, other.head, b, StoreHeader.STORE_MAGIC)
            && forall pages :: !Represents(g, w, other, pages))
  {
    ListFacts(g, v, other, b);
    if |b| > 1 {
      var w := LinkChains(g, v, 0, other);
      LastHasNoNext(g, v, other.head, b);
      LoadStored(v(other.tail), 8, StoreHeader.STORE_MAGIC);
      Relinked(g, v, other.head, b, StoreHeader.STORE_MAGIC) by { GoodNoDup(g, Stack(b)); }
      forall pages ensures !Represents(g, w, other, pages) {
        if Represents(g, w, other, pages) { LastHasNoNext(g, w, other.head, pages); }
      }
    }
  }

  /** A store with its header and a list of the given pages. */
  ghost function StoreWith(g: Geometry, v: Volume, h: StoreHeader.Header, b: seq<ListPage>): Volume
    requires Sized(g, v) && WellFormed(g, b) && g.pageSize >= StoreHeader.SERIALIZED_SIZE && h.pageShift < 32
  {
    WellFormedRoomy(g, b);
    Put(ListWritten(g, v, b), 0, StoreHeader.Serialized(h, v(0)))
  }

  lemma HeaderAndList(g: Geometry, v: Volume, h: StoreHeader.Header, b: seq<ListPage>)
    requires Sized(g, v) && WellFormed(g, b) && g.pageSize >= StoreHeader.SERIALIZED_SIZE
    requires h.pageShift < 32 && StoreHeader.FieldsFit(g.machine, h)
    ensures var u := StoreWith(g, v, h, b);
      IsHeaderPage(u(0)) && Represents(g, u, ListHead(b[0].id, LastId(b)), b)
  {
    WellFormedRoomy(g, b);
    var w, u := ListWritten(g, v, b), StoreWith(g, v, h, b);
    HeaderPages(g.machine, h, v(0));
    WrittenSegment(g, v, b);
    GoodNoDup(g, Stack(b));
    forall i | 0 <= i < |b| ensures u(b[i].id) == w(b[i].id) { PageIdInStack(b, i); }
    SegmentFrame(g, w, u, b[0].id, b, 0);
  }

  /** Pages of 64 bytes have room for six entries. */
  function SmallStore(): Geometry {
    Geometry(64, Bits64)
  }

  /** A store without free pages, and a list of an empty page p and a full page q
      which is merged into its free list: the list is rejected and broken. */
  lemma BrokenByEmptyReceiver(v: Volume, pageCount: nat, p: ListPage, q: ListPage)
    requires Sized(SmallStore(), v) && pageCount < SmallStore().Word()
    requires p.entries == [] && |q.entries| == 6 && GoodIds(SmallStore(), Own(q) + Own(p))
    ensures WellFormed(SmallStore(), [p, q])
    ensures var u := StoreWith(SmallStore(), v, StoreHeader.Header(pageCount, 0, 6), [p, q]);
      var other := ListHead(p.id, q.id);
      && Represents(SmallStore(), u, other, [p, q])
      && p.id != 0 && NextEntryOffset(SmallStore(), LinkChains(SmallStore(), u, 0, other)(p.id)) >= FIRST_ENTRY
      && var r := Merge(SmallStore(), u, 0, other, Success, Success, Success, false);
         && r.status == DataCorrupted && |r.volume(q.id)| == 64
         && NextPageId64(r.volume(q.id)) == StoreHeader.STORE_MAGIC
         && forall pages :: !Represents(SmallStore(), r.volume, other, pages)
  {
    assert [p, q][1..] == [q] && [q][1..] == [] && Stack([]) == [] && [] + Own(q) == Own(q);
    var h := StoreHeader.Header(pageCount, 0, 6);
    HeaderAndList(SmallStore(), v, h, [p, q]);
    var u := StoreWith(SmallStore(), v, h, [p, q]);
    EmptyReceiver(SmallStore(), u, ListHead(p.id, q.id), [p, q]);
    EmptyReceiverBreaksOther(SmallStore(), u, ListHead(p.id, q.id), [p, q]);
  }
}
