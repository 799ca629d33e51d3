/** The free page list: an unrolled stack that is stored in the pages it lists. */
module FreeList {
  import opened Bytes
  import opened Lists
  import opened StatusCodes
  import opened FreeListFormat

  /** The contents of the pages of a store. */
  type Volume = nat -> Block

  /** The two fields of a FreePageList; 0 stands for no page. */
  datatype ListHead = ListHead(head: nat, tail: nat)

  ghost predicate Sized(g: Geometry, v: Volume) {
    forall id: nat :: |v(id)| == g.pageSize
  }

  ghost function Put(v: Volume, id: nat, b: Block): Volume {
    (i: nat) => if i == id then b else v(i)
  }

  datatype PopResult = PopResult(status: Status, id: nat, volume: Volume, list: ListHead)
  datatype PushResult = PushResult(status: Status, volume: Volume, list: ListHead)

  /** FreePageList::Pop. `fetch` is the status of fetching the head page. */
  ghost function Pop(g: Geometry, v: Volume, l: ListHead, fetch: Status): PopResult
    requires Usable(g) && Sized(g, v)
  {
    if l.head == 0 then PopResult(Success, 0, v, l)
    else if fetch != Success then PopResult(fetch, 0, v, l)
    else
      var b := v(l.head);
      var offset := NextEntryOffset(g, b);
      if offset == FIRST_ENTRY then
        var next := NextPageId64(b);
        if next >= g.Word() then PopResult(DatabaseTooLarge, 0, v, l)
        else PopResult(Success, l.head, v, ListHead(next, if next == 0 then 0 else l.tail))
      else
        var last := if offset >= 8 then offset - 8 else g.Word() + offset - 8;
        if IsCorruptEntryOffset(last, g.pageSize) then PopResult(DataCorrupted, 0, v, l)
        else if Load64(b, last) >= g.Word() then PopResult(DatabaseTooLarge, 0, v, l)
        else PopResult(Success, Load64(b, last), Put(v, l.head, SetNextEntryOffset(b, last)), l)
  }

  /** FreePageList::Push. `fetch` and `claim` are the statuses of fetching the
      head page and of getting a buffer, which holds `scratch`, for the new page. */
  ghost function Push(g: Geometry, v: Volume, l: ListHead, id: nat,
                      fetch: Status, claim: Status, scratch: Block): PushResult
    requires Usable(g) && Sized(g, v) && |scratch| == g.pageSize
  {
    if l.head != 0 && fetch != Success then PushResult(fetch, v, l)
    else
      var offset := if l.head == 0 then g.pageSize else NextEntryOffset(g, v(l.head));
      if offset < g.pageSize then
        if IsCorruptEntryOffset(offset, g.pageSize) then PushResult(DataCorrupted, v, l)
        else
          var b := SetNextEntryOffset(Store64(v(l.head), offset, id), offset + 8);
          PushResult(Success, Put(v, l.head, b), l)
      else if claim != Success then PushResult(claim, v, l)
      else
        var b := SetNextPageId64(SetNextEntryOffset(scratch, FIRST_ENTRY), l.head);
        PushResult(Success, Put(v, id, b), ListHead(id, if l.head == 0 then id else l.tail))
  }

  /** Pop writes to the head page: it has entries, and the last one can be read. */
  ghost predicate PopWrites(g: Geometry, v: Volume, l: ListHead)
    requires Usable(g) && Sized(g, v)
  {
    var offset := NextEntryOffset(g, v(l.head));
    var last := if offset >= 8 then offset - 8 else g.Word() + offset - 8;
    && l.head != 0 && offset != FIRST_ENTRY
    && !IsCorruptEntryOffset(last, g.pageSize) && Load64(v(l.head), last) < g.Word()
  }

  /** Push needs a new list page: there is no head page or it has no room. */
  ghost predicate PushNeedsPage(g: Geometry, v: Volume, l: ListHead)
    requires Usable(g) && Sized(g, v)
  {
    l.head == 0 || NextEntryOffset(g, v(l.head)) >= g.pageSize
  }

  /** Push writes to the head page: it has room for an entry. */
  ghost predicate PushWrites(g: Geometry, v: Volume, l: ListHead)
    requires Usable(g) && Sized(g, v)
  {
    !PushNeedsPage(g, v, l) && !IsCorruptEntryOffset(NextEntryOffset(g, v(l.head)), g.pageSize)
  }

  /** Whatever the pages hold, an operation that does not succeed changes
      neither the list nor any page. */
  lemma FailureChangesNothing(g: Geometry, v: Volume, l: ListHead, id: nat,
                              fetch: Status, claim: Status, scratch: Block)
    requires Usable(g) && Sized(g, v) && |scratch| == g.pageSize
    ensures var r := Pop(g, v, l, fetch); r.status != Success ==> r.volume == v && r.list == l && r.id == 0
    ensures var r := Push(g, v, l, id, fetch, claim, scratch); r.status != Success ==> r.volume == v && r.list == l
  {
  }

  // ---------------------------------------------------------------------
  // Lists of pages

  /** A list page and the IDs stored in it. */
  datatype ListPage = ListPage(id: nat, entries: seq<nat>)

  /** The IDs of a list from the bottom of the stack to the top: for each page,
      the last one first, its own ID and then its entries. */
  function Stack(pages: seq<ListPage>): seq<nat> {
    if pages == [] then [] else Stack(pages[1..]) + Own(pages[0])
  }

  /** The IDs that a page contributes to the list. */
  function Own(p: ListPage): seq<nat> {
    [p.id] + p.entries
  }

  ghost predicate EntryAt(b: Block, entries: seq<nat>, j: nat)
    requires j < |entries| && EntryOffset(j) + 8 <= |b|
  {
    Load64(b, EntryOffset(j)) == entries[j]
  }

  /** A list page holds the given entries. */
  ghost predicate Holds(g: Geometry, b: Block, entries: seq<nat>)
    requires Usable(g) && |b| == g.pageSize
  {
    && |entries| <= Capacity(g)
    && Load64(b, 0) == EntryOffset(|entries|)
    && forall j :: 0 <= j < |entries| ==> EntryAt(b, entries, j)
  }

  /** Following next IDs from `head` visits the given pages and reaches `end`. */
  ghost predicate Segment(g: Geometry, v: Volume, head: nat, pages: seq<ListPage>, end: nat)
    requires Usable(g) && Sized(g, v)
    decreases |pages|
  {
    if pages == [] then head == end
    else
      && head == pages[0].id
      && Holds(g, v(head), pages[0].entries)
      && Segment(g, v, NextPageId64(v(head)), pages[1..], end)
  }

  /** A page ID that is valid and that the list does not hold below. */
  ghost predicate GoodIdAt(g: Geometry, ids: seq<nat>, i: nat)
    requires i < |ids|
  {
    0 < ids[i] < g.Word() && forall j :: 0 <= j < i ==> ids[j] != ids[i]
  }

  ghost predicate GoodIds(g: Geometry, ids: seq<nat>) {
    forall i :: 0 <= i < |ids| ==> GoodIdAt(g, ids, i)
  }

  ghost predicate Full(g: Geometry, pages: seq<ListPage>)
    requires Usable(g)
  {
    forall i :: 0 <= i < |pages| ==> |pages[i].entries| == Capacity(g)
  }

  /** The chain from `head` is finite, has no ID twice, and every page after the
      first is exactly full. */
  ghost predicate Chain(g: Geometry, v: Volume, head: nat, pages: seq<ListPage>) {
    && Usable(g) && Sized(g, v)
    && Segment(g, v, head, pages, 0)
    && GoodIds(g, Stack(pages))
    && (pages != [] ==> Full(g, pages[1..]))
  }

  function LastId(pages: seq<ListPage>): nat {
    if pages == [] then 0 else pages[|pages| - 1].id
  }

  /** A list with a well-defined tail holds the given pages. */
  ghost predicate Represents(g: Geometry, v: Volume, l: ListHead, pages: seq<ListPage>) {
    Chain(g, v, l.head, pages) && l.tail == LastId(pages)
  }

  // ---------------------------------------------------------------------
  // Push and Pop refine a stack

  lemma {:induction false} PageIdInStack(pages: seq<ListPage>, i: nat)
    requires i < |pages|
    ensures pages[i].id in Stack(pages)
  {
    if i > 0 { PageIdInStack(pages[1..], i - 1); }
  }

  /** Pages that keep their contents keep their place in the chain. */
  lemma {:induction false} SegmentFrame(g: Geometry, v: Volume, w: Volume, head: nat, pages: seq<ListPage>, end: nat)
    requires Usable(g) && Sized(g, v) && Sized(g, w) && Segment(g, v, head, pages, end)
    requires forall i :: 0 <= i < |pages| ==> w(pages[i].id) == v(pages[i].id)
    ensures Segment(g, w, head, pages, end)
    decreases |pages|
  {
    if pages != [] {
      forall i | 0 <= i < |pages[1..]| ensures w(pages[1..][i].id) == v(pages[1..][i].id) {
        assert pages[1..][i] == pages[i + 1];
      }
      SegmentFrame(g, v, w, NextPageId64(v(head)), pages[1..], end);
    }
  }

  /** The first page is not one of the pages after it. */
  lemma HeadApart(pages: seq<ListPage>)
    requires pages != [] && NoDup(Stack(pages))
    ensures forall i :: 0 < i < |pages| ==> pages[i].id != pages[0].id
    ensures NoDup(Stack(pages[1..]))
  {
    var rest, own := Stack(pages[1..]), Own(pages[0]);
    assert Stack(pages) == rest + own;
    NoDupParts(rest, own);
    assert own[0] == pages[0].id && pages[0].id in own;
    forall i | 0 < i < |pages| ensures pages[i].id != pages[0].id {
      PageIdInStack(pages[1..], i - 1);
      assert pages[1..][i - 1] == pages[i] && pages[i].id in rest;
    }
  }

  /** Rewriting the head page leaves the rest of the chain alone. */
  lemma RestStays(g: Geometry, v: Volume, pages: seq<ListPage>, b: Block)
    requires Usable(g) && Sized(g, v) && pages != [] && GoodIds(g, Stack(pages)) && |b| == g.pageSize
    requires Segment(g, v, pages[0].id, pages, 0)
    ensures Sized(g, Put(v, pages[0].id, b))
    ensures Segment(g, Put(v, pages[0].id, b), NextPageId64(v(pages[0].id)), pages[1..], 0)
  {
    HeadApart(pages) by { GoodNoDup(g, Stack(pages)); }
    SegmentFrame(g, v, Put(v, pages[0].id, b), NextPageId64(v(pages[0].id)), pages[1..], 0);
  }

  /** The head page with other entries. */
  function WithHead(pages: seq<ListPage>, entries: seq<nat>): seq<ListPage>
    requires pages != []
  {
    [pages[0].(entries := entries)] + pages[1..]
  }

  function PopPages(pages: seq<ListPage>): seq<ListPage>
    requires pages != []
  {
    if pages[0].entries == [] then pages[1..]
    else WithHead(pages, pages[0].entries[..|pages[0].entries| - 1])
  }

  lemma PopStack(pages: seq<ListPage>)
    requires pages != []
    ensures Stack(pages) != [] && Stack(PopPages(pages)) == Stack(pages)[..|Stack(pages)| - 1]
  {
    var e := pages[0].entries;
    if e != [] {
      assert PopPages(pages)[1..] == pages[1..];
    }
  }

  function PushPages(g: Geometry, pages: seq<ListPage>, id: nat): seq<ListPage>
    requires g.pageSize >= FIRST_ENTRY
  {
    if pages != [] && |pages[0].entries| < Capacity(g)
    then WithHead(pages, pages[0].entries + [id])
    else [ListPage(id, [])] + pages
  }

  lemma PushStack(g: Geometry, pages: seq<ListPage>, id: nat)
    requires g.pageSize >= FIRST_ENTRY
    ensures Stack(PushPages(g, pages, id)) == Stack(pages) + [id]
  {
    var r := PushPages(g, pages, id);
    if pages != [] && |pages[0].entries| < Capacity(g) {
      assert r[1..] == pages[1..];
    } else {
      assert r[1..] == pages;
    }
  }

  /** Changing the offset field drops the last entry. */
  lemma DropEntry(g: Geometry, b: Block, entries: seq<nat>)
    requires Usable(g) && |b| == g.pageSize && Holds(g, b, entries) && entries != []
    ensures var n := |entries| - 1; var r := SetNextEntryOffset(b, EntryOffset(n));
      Holds(g, r, entries[..n]) && NextPageId64(r) == NextPageId64(b)
  {
    var n := |entries| - 1;
    var offset := EntryOffset(n);
    LoadStored(b, 0, offset);
    LoadElsewhere(b, 0, offset, 8);
    forall j | 0 <= j < n ensures EntryAt(Store64(b, 0, offset), entries[..n], j) {
      assert EntryAt(b, entries, j);
      LoadElsewhere(b, 0, offset, EntryOffset(j));
    }
  }

  lemma AddEntry(g: Geometry, b: Block, entries: seq<nat>, id: nat)
    requires Usable(g) && |b| == g.pageSize && Holds(g, b, entries) && |entries| < Capacity(g) && id < UINT64_LIMIT
    ensures var offset := EntryOffset(|entries|);
      && offset + 8 <= g.pageSize
      && var r := SetNextEntryOffset(Store64(b, offset, id), offset + 8);
         Holds(g, r, entries + [id]) && NextPageId64(r) == NextPageId64(b)
  {
    var offset := EntryOffset(|entries|);
    var m := Store64(b, offset, id);
    var r := Store64(m, 0, offset + 8);
    LoadStored(b, offset, id);
    LoadStored(m, 0, offset + 8);
    LoadElsewhere(b, offset, id, 8);
    LoadElsewhere(m, 0, offset + 8, 8);
    forall j | 0 <= j < |entries + [id]| ensures EntryAt(r, entries + [id], j) {
      LoadElsewhere(m, 0, offset + 8, EntryOffset(j));
      if j < |entries| {
        assert EntryAt(b, entries, j);
        LoadElsewhere(b, offset, id, EntryOffset(j));
      }
    }
  }

  lemma FreshPage(g: Geometry, scratch: Block, next: nat)
    requires Usable(g) && |scratch| == g.pageSize && next < UINT64_LIMIT
    ensures var r := SetNextPageId64(SetNextEntryOffset(scratch, FIRST_ENTRY), next);
      Holds(g, r, []) && NextPageId64(r) == next
  {
    var m := Store64(scratch, 0, FIRST_ENTRY);
    LoadStored(scratch, 0, FIRST_ENTRY);
    LoadStored(m, 8, next);
    LoadElsewhere(m, 8, next, 0);
  }

  // What the operations do to the head page

  lemma OffsetRead(g: Geometry, b: Block, entries: seq<nat>)
    requires Usable(g) && |b| == g.pageSize && Holds(g, b, entries)
    ensures NextEntryOffset(g, b) == EntryOffset(|entries|) <= g.pageSize
  {
  }

  lemma PopEntryResult(g: Geometry, v: Volume, l: ListHead, e: seq<nat>)
    requires Usable(g) && Sized(g, v) && l.head != 0 && Holds(g, v(l.head), e)
    requires e != [] && e[|e| - 1] < g.Word()
    ensures Pop(g, v, l, Success) ==
      PopResult(Success, e[|e| - 1], Put(v, l.head, SetNextEntryOffset(v(l.head), EntryOffset(|e| - 1))), l)
  {
    OffsetRead(g, v(l.head), e);
    assert EntryAt(v(l.head), e, |e| - 1);
  }

  lemma PopPageResult(g: Geometry, v: Volume, l: ListHead)
    requires Usable(g) && Sized(g, v) && l.head != 0 && Holds(g, v(l.head), [])
    requires NextPageId64(v(l.head)) < g.Word()
    ensures var next := NextPageId64(v(l.head));
      Pop(g, v, l, Success) == PopResult(Success, l.head, v, ListHead(next, if next == 0 then 0 else l.tail))
  {
    OffsetRead(g, v(l.head), []);
  }

  lemma PushEntryResult(g: Geometry, v: Volume, l: ListHead, e: seq<nat>, id: nat, claim: Status, scratch: Block)
    requires Usable(g) && Sized(g, v) && l.head != 0 && Holds(g, v(l.head), e)
    requires |e| < Capacity(g) && |scratch| == g.pageSize
    ensures EntryOffset(|e|) + 8 <= g.pageSize
    ensures Push(g, v, l, id, Success, claim, scratch) ==
      PushResult(Success, Put(v, l.head,
        SetNextEntryOffset(Store64(v(l.head), EntryOffset(|e|), id), EntryOffset(|e|) + 8)), l)
  {
    OffsetRead(g, v(l.head), e);
  }

  lemma PushPageResult(g: Geometry, v: Volume, l: ListHead, e: seq<nat>, id: nat, scratch: Block)
    requires Usable(g) && Sized(g, v) && |scratch| == g.pageSize
    requires l.head != 0 ==> Holds(g, v(l.head), e) && |e| == Capacity(g)
    ensures Push(g, v, l, id, Success, Success, scratch) ==
      PushResult(Success,
        Put(v, id, SetNextPageId64(SetNextEntryOffset(scratch, FIRST_ENTRY), l.head)),
        ListHead(id, if l.head == 0 then id else l.tail))
  {
    if l.head != 0 { OffsetRead(g, v(l.head), e); }
  }

  // What that does to the chain

  lemma GoodPrefix(g: Geometry, ids: seq<nat>, n: nat)
    requires GoodIds(g, ids) && n <= |ids|
    ensures GoodIds(g, ids[..n])
  {
    forall i | 0 <= i < n ensures GoodIdAt(g, ids[..n], i) { assert GoodIdAt(g, ids, i); }
  }

  lemma GoodMore(g: Geometry, ids: seq<nat>, id: nat)
    requires GoodIds(g, ids) && 0 < id < g.Word() && id !in ids
    ensures GoodIds(g, ids + [id])
  {
    forall i | 0 <= i < |ids + [id]| ensures GoodIdAt(g, ids + [id], i) {
      assert i < |ids| ==> GoodIdAt(g, ids, i);
    }
  }

  lemma GoodNoDup(g: Geometry, ids: seq<nat>)
    requires GoodIds(g, ids)
    ensures NoDup(ids)
    ensures forall x :: x in ids ==> 0 < x < g.Word()
  {
    forall i, j | 0 <= i < j < |ids| ensures ids[i] != ids[j] { assert GoodIdAt(g, ids, j); }
    forall x | x in ids ensures 0 < x < g.Word() {
      var i :| 0 <= i < |ids| && ids[i] == x;
      assert GoodIdAt(g, ids, i);
    }
  }

  lemma TopOfStack(g: Geometry, pages: seq<ListPage>)
    requires GoodIds(g, Stack(pages)) && pages != []
    ensures var ids := Stack(pages); var e := pages[0].entries;
      && ids != [] && 0 < ids[|ids| - 1] < g.Word() && 0 < pages[0].id < g.Word()
      && ids[|ids| - 1] == if e == [] then pages[0].id else e[|e| - 1]
  {
    var ids := Stack(pages);
    var n := |Stack(pages[1..])|;
    assert ids[n] == Own(pages[0])[0] == pages[0].id;
    assert GoodIdAt(g, ids, n) && GoodIdAt(g, ids, |ids| - 1);
    assert ids[|ids| - 1] == Own(pages[0])[|Own(pages[0])| - 1];
  }

  /** The head page may be rewritten as long as its next ID stays. */
  lemma HeadRewritten(g: Geometry, v: Volume, head: nat, pages: seq<ListPage>, b: Block, entries: seq<nat>)
    requires Chain(g, v, head, pages) && pages != []
    requires |b| == g.pageSize && Holds(g, b, entries) && NextPageId64(b) == NextPageId64(v(head))
    requires GoodIds(g, Stack(WithHead(pages, entries)))
    ensures Chain(g, Put(v, head, b), head, WithHead(pages, entries))
  {
    RestStays(g, v, pages, b);
    assert WithHead(pages, entries)[1..] == pages[1..];
  }

  /** The last entry of the head page goes. */
  lemma PopEntryChain(g: Geometry, v: Volume, head: nat, pages: seq<ListPage>)
    requires Chain(g, v, head, pages) && pages != [] && pages[0].entries != []
    ensures var b := SetNextEntryOffset(v(head), EntryOffset(|pages[0].entries| - 1));
      Chain(g, Put(v, head, b), head, PopPages(pages))
  {
    var e := pages[0].entries;
    DropEntry(g, v(head), e);
    assert GoodIds(g, Stack(PopPages(pages))) by {
      PopStack(pages);
      GoodPrefix(g, Stack(pages), |Stack(pages)| - 1);
    }
    HeadRewritten(g, v, head, pages, SetNextEntryOffset(v(head), EntryOffset(|e| - 1)), e[..|e| - 1]);
  }

  /** The head page, without entries, goes. */
  lemma PopPageChain(g: Geometry, v: Volume, head: nat, pages: seq<ListPage>)
    requires Chain(g, v, head, pages) && pages != [] && pages[0].entries == []
    ensures Chain(g, v, NextPageId64(v(head)), PopPages(pages))
    ensures NextPageId64(v(head)) < g.Word()
    ensures NextPageId64(v(head)) == 0 <==> |pages| == 1
  {
    PopStack(pages);
    GoodPrefix(g, Stack(pages), |Stack(pages)| - 1);
    assert Segment(g, v, NextPageId64(v(head)), pages[1..], 0);
    if |pages| > 1 { TopOfStack(g, pages[1..]); }
  }

  /** Pop hands out the top of the stack, or 0 if the stack is empty. */
  lemma PopRefines(g: Geometry, v: Volume, l: ListHead, pages: seq<ListPage>)
    requires Represents(g, v, l, pages)
    ensures var r := Pop(g, v, l, Success);
      && r.status == Success
      && (pages == [] ==> r.id == 0 && r.list == l && r.volume == v)
      && (pages != [] ==>
            && Stack(pages) != [] && r.id == Stack(pages)[|Stack(pages)| - 1]
            && Represents(g, r.volume, r.list, PopPages(pages))
            && Stack(PopPages(pages)) == Stack(pages)[..|Stack(pages)| - 1])
  {
    if pages != [] {
      TopOfStack(g, pages);
      PopStack(pages);
      if pages[0].entries == [] {
        PopPageChain(g, v, l.head, pages);
        PopPageResult(g, v, l);
      } else {
        PopEntryChain(g, v, l.head, pages);
        PopEntryResult(g, v, l, pages[0].entries);
      }
    }
  }

  lemma PushEntryChain(g: Geometry, v: Volume, head: nat, pages: seq<ListPage>, id: nat)
    requires Chain(g, v, head, pages) && pages != [] && |pages[0].entries| < Capacity(g)
    requires 0 < id < g.Word() && id !in Stack(pages)
    ensures var o := EntryOffset(|pages[0].entries|);
      o + 8 <= g.pageSize &&
      Chain(g, Put(v, head, SetNextEntryOffset(Store64(v(head), o, id), o + 8)), head, PushPages(g, pages, id))
  {
    var e := pages[0].entries;
    AddEntry(g, v(head), e, id);
    assert GoodIds(g, Stack(PushPages(g, pages, id))) by {
      PushStack(g, pages, id);
      GoodMore(g, Stack(pages), id);
    }
    HeadRewritten(g, v, head, pages,
      SetNextEntryOffset(Store64(v(head), EntryOffset(|e|), id), EntryOffset(|e|) + 8), e + [id]);
  }

  lemma PushPageChain(g: Geometry, v: Volume, head: nat, pages: seq<ListPage>, id: nat, scratch: Block)
    requires Chain(g, v, head, pages) && (pages != [] ==> |pages[0].entries| == Capacity(g))
    requires |scratch| == g.pageSize && 0 < id < g.Word() && id !in Stack(pages)
    ensures head < g.Word()
    ensures Chain(g, Put(v, id, SetNextPageId64(SetNextEntryOffset(scratch, FIRST_ENTRY), head)), id,
                  PushPages(g, pages, id))
  {
    if pages != [] { TopOfStack(g, pages); }
    FreshPage(g, scratch, head);
    var b := SetNextPageId64(SetNextEntryOffset(scratch, FIRST_ENTRY), head);
    forall i | 0 <= i < |pages| ensures pages[i].id != id { PageIdInStack(pages, i); }
    SegmentFrame(g, v, Put(v, id, b), head, pages, 0);
    assert PushPages(g, pages, id)[1..] == pages;
    PushStack(g, pages, id);
    GoodMore(g, Stack(pages), id);
  }

  /** Push of an ID that is not on the list puts it on top of the stack. */
  lemma PushRefines(g: Geometry, v: Volume, l: ListHead, pages: seq<ListPage>, id: nat, scratch: Block)
    requires Represents(g, v, l, pages) && |scratch| == g.pageSize
    requires 0 < id < g.Word() && id !in Stack(pages)
    ensures var r := Push(g, v, l, id, Success, Success, scratch);
      && r.status == Success
      && Represents(g, r.volume, r.list, PushPages(g, pages, id))
      && Stack(PushPages(g, pages, id)) == Stack(pages) + [id]
  {
    PushStack(g, pages, id);
    if pages != [] { TopOfStack(g, pages); }
    if pages != [] && |pages[0].entries| < Capacity(g) {
      PushEntryChain(g, v, l.head, pages, id);
      PushEntryResult(g, v, l, pages[0].entries, id, Success, scratch);
    } else {
      PushPageChain(g, v, l.head, pages, id, scratch);
      PushPageResult(g, v, l, if pages == [] then [] else pages[0].entries, id, scratch);
    }
  }
}
