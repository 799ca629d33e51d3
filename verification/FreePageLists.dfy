/** The free page list as an object that works on the buffers of a page pool. */
module FreePageLists {
  import opened Bytes
  import opened StatusCodes
  import opened PoolModel
  import opened PageSession
  import opened PageCache
  import opened PageAccess
  import opened FetchRoom
  import opened FreeListFormat
  import opened FreeList
  import FreeListMerge

  /** A head page that has room takes an entry, unless its offset is corrupt. */
  ghost function EntryStatus(g: Geometry, v: Volume, head: nat): Status
    requires Usable(g) && Sized(g, v)
  {
    var offset := NextEntryOffset(g, v(head));
    if offset < g.pageSize && IsCorruptEntryOffset(offset, g.pageSize) then DataCorrupted else Success
  }

  ghost function EntryAdded(g: Geometry, v: Volume, head: nat, id: nat): Volume
    requires Usable(g) && Sized(g, v)
  {
    var offset := NextEntryOffset(g, v(head));
    if IsCorruptEntryOffset(offset, g.pageSize) then v
    else Put(v, head, SetNextEntryOffset(Store64(v(head), offset, id), offset + 8))
  }

  /** A mark without a meaning of its own, as `LookedAt` is for states. */
  ghost predicate Viewed(v: Volume) {
    true
  }

  /** One more pin, and one pin less again. */
  lemma Holding(held: multiset<nat>, q: nat)
    ensures q in held + multiset{q} && (held + multiset{q}) - multiset{q} == held
    ensures forall p :: p in held ==> p in held + multiset{q}
    ensures multiset{} + multiset{q} == multiset{q} && multiset{q} - multiset{q} == multiset{}
  {
    assert multiset{} + multiset{q} == multiset{q};
  }

  /** What the buffer of a new list page holds when Push gets it, after it has
      fetched the head page, if there is one. */
  ghost function PushScratch(m: State, t: nat, head: nat, id: nat, v: Volume, read: Status, files: Files): (b: Block)
    requires t < |m.txns| && |v(id)| == m.pageSize
    ensures |b| == m.pageSize
  {
    Blank(if head == 0 then m else AfterFetch(m, t, head, read, files), m.txns[t].store, id, v)
  }

  lemma EntryCases(g: Geometry, v: Volume, head: nat, id: nat, offset: nat)
    requires Usable(g) && Sized(g, v) && offset == NextEntryOffset(g, v(head))
    ensures offset < g.pageSize && !IsCorruptEntryOffset(offset, g.pageSize) ==>
      && offset + 8 <= g.pageSize && EntryStatus(g, v, head) == Success
      && EntryAdded(g, v, head, id) == Put(v, head, SetNextEntryOffset(Store64(v(head), offset, id), offset + 8))
    ensures offset < g.pageSize && IsCorruptEntryOffset(offset, g.pageSize) ==>
      EntryStatus(g, v, head) == DataCorrupted && EntryAdded(g, v, head, id) == v
    ensures offset >= g.pageSize ==> EntryStatus(g, v, head) == Success && EntryAdded(g, v, head, id) == v
  {
    GoodOffsetInPage(g, offset);
  }

  /** What Push does on a head page that it could fetch. */
  ghost predicate HeadPushed(g: Geometry, v: Volume, head: nat, id: nat, done: bool, status: Status, r: Volume) {
    forall x: Volume :: Viewed(x) && x == v ==>
      && Usable(g) && Sized(g, x) && done == (NextEntryOffset(g, x(head)) < g.pageSize)
      && status == EntryStatus(g, x, head) && r == EntryAdded(g, x, head, id)
  }

  /** The pages that Push writes can be modified. */
  ghost predicate PushReady(g: Geometry, v: Volume, l: ListHead, id: nat, s: State, t: nat) {
    forall x: Volume :: Viewed(x) && x == v ==>
      && Usable(g) && Sized(g, x) && (PushWrites(g, x, l) ==> Modifiable(s, t, l.head))
      && (PushNeedsPage(g, x, l) ==> Modifiable(s, t, id))
  }

  /** Push needs a new list page. */
  ghost predicate PageNeeded(g: Geometry, v: Volume, l: ListHead) {
    forall x: Volume :: Viewed(x) && x == v ==> Usable(g) && Sized(g, x) && PushNeedsPage(g, x, l)
  }

  lemma HeadIsFull(g: Geometry, v: Volume, l: ListHead, id: nat, s: State, t: nat, status: Status, r: Volume)
    requires HeadPushed(g, v, l.head, id, false, status, r) && PushReady(g, v, l, id, s, t)
    ensures PageNeeded(g, v, l) && r == v && Modifiable(s, t, id)
  {
    assert Viewed(v);
  }

  /** Push ends with the given result if its fetches end as given. */
  ghost predicate Pushed(g: Geometry, v: Volume, l: ListHead, id: nat, fetch: Status, claim: Status, scratch: Block,
                         r: PushResult) {
    forall x: Volume :: Viewed(x) && x == v ==>
      Usable(g) && Sized(g, x) && |scratch| == g.pageSize && r == Push(g, x, l, id, fetch, claim, scratch)
  }

  /** Push when the head page takes the entry, or cannot be fetched. */
  lemma PushDone(g: Geometry, v: Volume, l: ListHead, id: nat, fetch: Status, claim: Status, scratch: Block,
                 status: Status, r: Volume)
    requires Usable(g) && Sized(g, v) && |scratch| == g.pageSize && l.head != 0
    requires if fetch == Success then HeadPushed(g, v, l.head, id, true, status, r) else status == fetch && r == v
    ensures Pushed(g, v, l, id, fetch, claim, scratch, PushResult(status, r, l))
  {
    assert Viewed(v);
  }

  /** Push when it needs a new page. */
  lemma PushClaimed(g: Geometry, v: Volume, l: ListHead, id: nat, fetch: Status, claim: Status, scratch: Block,
                    r: PushResult)
    requires PageNeeded(g, v, l) && |scratch| == g.pageSize >= FIRST_ENTRY && (l.head != 0 ==> fetch == Success)
    requires r == if claim != Success then PushResult(claim, v, l)
      else PushResult(Success, Put(v, id, SetNextPageId64(SetNextEntryOffset(scratch, FIRST_ENTRY), l.head)),
                      ListHead(id, if l.head == 0 then id else l.tail))
    ensures Pushed(g, v, l, id, fetch, claim, scratch, r)
  {
    assert Viewed(v);
  }

  ghost predicate CanMergeHeads(g: Geometry, w: Volume, head: nat, other: nat) {
    && Usable(g) && Sized(g, w) && head != other
    && !IsCorruptEntryOffset(NextEntryOffset(g, w(head)), g.pageSize)
    && !IsCorruptEntryOffset(NextEntryOffset(g, w(other)), g.pageSize)
    && NextEntryOffset(g, w(other)) >= FIRST_ENTRY
  }

  /** The head pages that Merge writes to may be modified. */
  ghost predicate HeadsModifiable(g: Geometry, w: Volume, head: nat, other: nat, s: State, t: nat) {
    CanMergeHeads(g, w, head, other) ==>
      && Modifiable(s, t, head)
      && (FreeListMerge.Fits(g.pageSize, NextEntryOffset(g, w(head)), NextEntryOffset(g, w(other))) ||
          Modifiable(s, t, other))
  }

  /** The pages that Merge writes to may be modified. */
  ghost predicate MergeModifiable(g: Geometry, v: Volume, head: nat, other: ListHead, s: State, t: nat)
    requires Usable(g) && Sized(g, v)
  {
    && (other.tail != other.head ==> Modifiable(s, t, other.tail))
    && HeadsModifiable(g, FreeListMerge.LinkChains(g, v, head, other), head, other.head, s, t)
  }

  /** Step 2 of Merge, on pages in which the full pages are already linked. */
  ghost function HeadsMerged(g: Geometry, w: Volume, head: nat, other: nat): Volume
    requires CanMergeHeads(g, w, head, other)
  {
    var offset, otherOffset := NextEntryOffset(g, w(head)), NextEntryOffset(g, w(other));
    var h := FreeListMerge.MergeHeads(g.pageSize, w(head), w(other), other, offset, otherOffset);
    if FreeListMerge.Fits(g.pageSize, offset, otherOffset) then Put(w, head, h.mine)
    else Put(Put(w, other, h.theirs), head, h.mine)
  }

  lemma HeadsMergedFit(g: Geometry, w: Volume, head: nat, other: nat, offset: nat, rest: nat)
    requires CanMergeHeads(g, w, head, other)
    requires offset == NextEntryOffset(g, w(head)) && rest + FIRST_ENTRY == NextEntryOffset(g, w(other))
    requires offset + rest < g.pageSize
    ensures offset + 8 + rest <= g.pageSize
    ensures HeadsMerged(g, w, head, other) == Put(w, head, FreeListMerge.Joined(w(head), w(other), other, offset, rest))
  {
    FreeListMerge.FitHeads(g.pageSize, w(head), w(other), other, offset, rest + FIRST_ENTRY);
  }

  /** Both head pages after the case in which the IDs do not fit. */
  ghost function Overflowed(pageSize: nat, w: Volume, head: nat, other: nat, offset: nat, otherOffset: nat): Volume
    requires |w(head)| == |w(other)| == pageSize && head != other
    requires FIRST_ENTRY <= otherOffset < pageSize && pageSize - otherOffset <= offset <= pageSize
  {
    var from := offset - (pageSize - otherOffset);
    Put(Put(w, other, FreeListMerge.FilledUp(w(head), w(other), from, otherOffset)),
        head, FreeListMerge.Trimmed(w(head), other, from))
  }

  lemma HeadsMergedOverflow(g: Geometry, w: Volume, head: nat, other: nat, offset: nat, otherOffset: nat)
    requires CanMergeHeads(g, w, head, other)
    requires offset == NextEntryOffset(g, w(head)) && otherOffset == NextEntryOffset(g, w(other))
    requires offset + (otherOffset - FIRST_ENTRY) >= g.pageSize
    ensures g.pageSize - otherOffset <= offset
    ensures HeadsMerged(g, w, head, other) == Overflowed(g.pageSize, w, head, other, offset, otherOffset)
  {
  }

  lemma LinkedTail(g: Geometry, v: Volume, head: nat, other: ListHead)
    requires Usable(g) && Sized(g, v) && other.tail != other.head
    ensures FreeListMerge.LinkChains(g, v, head, other) ==
      Put(v, other.tail, SetNextPageId64(v(other.tail), NextPageId64(v(head))))
  {
  }

  lemma MergeLinks(g: Geometry, v: Volume, head: nat, other: ListHead)
    requires Usable(g) && Sized(g, v)
    ensures Sized(g, FreeListMerge.LinkChains(g, v, head, other))
  {
  }

  /** What Merge demands of the other list, which has pages: another head page, with
      an entry offset of at least 16 after step 1. */
  ghost predicate CanMerge(g: Geometry, v: Volume, head: nat, other: ListHead) {
    && Usable(g) && Sized(g, v) && other.head != 0 && head != other.head
    && NextEntryOffset(g, FreeListMerge.LinkChains(g, v, head, other)(other.head)) >= FIRST_ENTRY
  }

  /** The status of fetching the other tail page; there is no such fetch if the
      other list has one page. */
  ghost function TailStatus(m: State, t: nat, other: ListHead, read: Status): Status
    requires t < |m.txns|
  {
    if other.tail == other.head then Success else FetchStatus(m, m.txns[t].store, other.tail, FetchPageData, read)
  }

  /** The states in which Merge fetches its pages. */
  lemma MergeAnswers(g: Geometry, v: Volume, head: nat, other: ListHead, was: State, m: State, n: State, t: nat,
                     read: Status, read2: Status, read3: Status, files: Files)
    requires CanMerge(g, v, head, other) && t < |was.txns| && t < |n.txns|
    requires LeadsTo(was, m, t, head, read, files)
    requires FetchStatus(was, was.txns[t].store, head, FetchPageData, read) == Success ==>
      LeadsTo(m, n, t, other.head, read2, files)
    ensures var st := was.txns[t].store; var fetch := FetchStatus(was, st, head, FetchPageData, read);
      var m' := AfterFetch(was, t, head, read, files); var n' := AfterFetch(m', t, other.head, read2, files);
      var fetchOther := FetchStatus(m, st, other.head, FetchPageData, read2);
      m' == m && FreeListMerge.Merge(g, v, head, other, fetch, fetchOther, TailStatus(n', t, other, read3), false)
        == FreeListMerge.Merge(g, v, head, other, fetch, fetchOther, TailStatus(n, t, other, read3), false)
  {
    LookAt(was, m, t, head, read, files);
    if FetchStatus(was, was.txns[t].store, head, FetchPageData, read) == Success {
      LookAt(m, n, t, other.head, read2, files);
    }
  }

  /** The lists can be merged, and the pages that Merge writes can be modified. */
  ghost predicate MergeReady(g: Geometry, v: Volume, head: nat, other: ListHead, s: State, t: nat) {
    forall x: Volume :: Viewed(x) && x == v ==> CanMerge(g, x, head, other) && MergeModifiable(g, x, head, other, s, t)
  }

  /** Merge ends with the given status and pages if its fetches end as given. */
  ghost predicate Merged(g: Geometry, v: Volume, head: nat, other: ListHead,
                         fetch: Status, fetchOther: Status, fetchTail: Status, status: Status, r: Volume) {
    forall x: Volume :: Viewed(x) && x == v ==>
      CanMerge(g, x, head, other) &&
      FreeListMerge.MergeResult(status, r) ==
        FreeListMerge.Merge(g, x, head, other, fetch, fetchOther, fetchTail, false)
  }

  /** Merge when a head page cannot be fetched. */
  lemma MergeUnfetched(g: Geometry, v: Volume, head: nat, other: ListHead, s: State, t: nat,
                       fetch: Status, fetchOther: Status, fetchTail: Status)
    requires MergeReady(g, v, head, other, s, t) && (fetch != Success || fetchOther != Success)
    ensures Merged(g, v, head, other, fetch, fetchOther, fetchTail, if fetch != Success then fetch else fetchOther, v)
  {
    assert Viewed(v);
  }

  /** Merge from the point where both head pages are pinned. */
  lemma MergeSteps(g: Geometry, v: Volume, head: nat, other: ListHead, fetchTail: Status)
    requires Usable(g) && Sized(g, v) && other.head != 0 && head != other.head
    requires NextEntryOffset(g, FreeListMerge.LinkChains(g, v, head, other)(other.head)) >= FIRST_ENTRY
    ensures var w := FreeListMerge.LinkChains(g, v, head, other);
      FreeListMerge.Merge(g, v, head, other, Success, Success, fetchTail, false) ==
      if other.tail != other.head && fetchTail != Success then FreeListMerge.MergeResult(fetchTail, v)
      else if CanMergeHeads(g, w, head, other.head)
      then FreeListMerge.MergeResult(Success, HeadsMerged(g, w, head, other.head))
      else FreeListMerge.MergeResult(DataCorrupted, w)
  {
  }

  /** Step 1 of Merge leaves the given pages. */
  ghost predicate ChainsLinked(g: Geometry, v: Volume, head: nat, other: ListHead, w: Volume) {
    forall x: Volume :: Viewed(x) && x == v ==>
      Usable(g) && Sized(g, x) && w == FreeListMerge.LinkChains(g, x, head, other)
  }

  /** What step 1 needs, */
  lemma ReadyToLink(g: Geometry, v: Volume, head: nat, other: ListHead, s: State, t: nat)
    requires MergeReady(g, v, head, other, s, t)
    ensures Usable(g) && Sized(g, v)
    ensures other.tail != other.head ==> Modifiable(s, t, other.tail)
  {
    assert Viewed(v);
  }

  /** and what step 2 needs. */
  lemma ReadyHeads(g: Geometry, v: Volume, head: nat, other: ListHead, s: State, t: nat, w: Volume)
    requires MergeReady(g, v, head, other, s, t) && ChainsLinked(g, v, head, other, w)
    ensures Usable(g) && Sized(g, w) && head != other.head && NextEntryOffset(g, w(other.head)) >= FIRST_ENTRY
    ensures HeadsModifiable(g, w, head, other.head, s, t)
  {
    assert Viewed(v);
    MergeLinks(g, v, head, other);
  }

  /** Step 2 of Merge ends with the given status and pages. */
  ghost predicate HeadsDone(g: Geometry, w: Volume, head: nat, other: nat, status: Status, r: Volume) {
    forall x: Volume :: Viewed(x) && x == w ==>
      if CanMergeHeads(g, x, head, other) then status == Success && r == HeadsMerged(g, x, head, other)
      else status == DataCorrupted && r == x
  }

  lemma MergeEnds(g: Geometry, v: Volume, head: nat, other: ListHead, s: State, t: nat,
                  w: Volume, status: Status, r: Volume)
    requires MergeReady(g, v, head, other, s, t) && ChainsLinked(g, v, head, other, w)
    requires HeadsDone(g, w, head, other.head, status, r)
    ensures Merged(g, v, head, other, Success, Success, Success, status, r)
  {
    assert Viewed(v) && Viewed(w);
    MergeSteps(g, v, head, other, Success);
  }

  /** Merge when the other tail page cannot be fetched. */
  lemma MergeStops(g: Geometry, v: Volume, head: nat, other: ListHead, s: State, t: nat, fetchTail: Status)
    requires MergeReady(g, v, head, other, s, t) && other.tail != other.head && fetchTail != Success
    ensures Merged(g, v, head, other, Success, Success, fetchTail, fetchTail, v)
  {
    assert Viewed(v);
  }

  // ---------------------------------------------------------------------
  // Step 2 of Merge, on two pinned pages

  /** The other head page's ID and its entries go behind those of this head page. */
  method JoinEntries(pool: PagePool, t: nat, p: nat, ghost head: nat, q: nat, other: nat, offset: nat, rest: nat,
                     ghost s: State, ghost w: Volume, ghost held: multiset<nat>) returns (ghost b: Block)
    requires pool.Mirrors() && During(s, pool.Model(), t, w, held) && head != other
    requires Caches(pool.Model(), t, p, head) && Caches(pool.Model(), t, q, other)
    requires pool.mPages[p].dirty && offset + 8 + rest <= pool.pageSize && FIRST_ENTRY + rest <= pool.pageSize
    modifies pool`mPages, pool.Buffers()
    ensures pool.Mirrors() && |w(head)| == |w(other)| == pool.pageSize
    ensures b == Copy(w(other), FIRST_ENTRY, rest, Store64(w(head), offset, other), offset + 8)
    ensures During(s, pool.Model(), t, Put(w, head, b), held)
    ensures forall q: nat, i: nat :: Caches(old(pool.Model()), t, q, i) ==> Caches(pool.Model(), t, q, i)
    ensures pool.mPages[p].dirty
  {
    AsPut(s, pool.Model(), t, w, held, p, head);
    b := WritePage64(pool, t, p, head, offset, other, s, w, w(head), held);
    b := CopyPage(pool, t, q, other, FIRST_ENTRY, rest, p, head, offset + 8, s, w, b, held);
  }

  /** All the IDs fit in this list's head page. */
  method JoinHeads(pool: PagePool, t: nat, p: nat, ghost head: nat, q: nat, other: nat, offset: nat, rest: nat,
                   ghost s: State, ghost w: Volume, ghost held: multiset<nat>) returns (ghost r: Volume)
    requires pool.Mirrors() && During(s, pool.Model(), t, w, held) && head != other
    requires Caches(pool.Model(), t, p, head) && Caches(pool.Model(), t, q, other)
    requires pool.mPages[p].dirty && offset + 8 + rest <= pool.pageSize && FIRST_ENTRY + rest <= pool.pageSize
    modifies pool`mPages, pool.Buffers()
    ensures pool.Mirrors() && |w(head)| == |w(other)| == pool.pageSize
    ensures r == Put(w, head, FreeListMerge.Joined(w(head), w(other), other, offset, rest))
    ensures During(s, pool.Model(), t, r, held)
    ensures forall q: nat, i: nat :: Caches(old(pool.Model()), t, q, i) ==> Caches(pool.Model(), t, q, i)
  {
    ghost var b := JoinEntries(pool, t, p, head, q, other, offset, rest, s, w, held);
    b := WritePage64(pool, t, p, head, 0, offset + 8 + rest, s, w, b, held);
    r := Put(w, head, b);
  }

  /** Entries of this list's head page fill up the other head page. */
  method FillOther(pool: PagePool, t: nat, p: nat, ghost head: nat, q: nat, ghost other: nat,
                   from: nat, otherOffset: nat,
                   ghost s: State, ghost w: Volume, ghost held: multiset<nat>) returns (ghost b: Block)
    requires pool.Mirrors() && During(s, pool.Model(), t, w, held) && head != other
    requires Caches(pool.Model(), t, p, head) && Caches(pool.Model(), t, q, other)
    requires pool.mPages[q].dirty && FIRST_ENTRY <= otherOffset <= pool.pageSize
    requires from + (pool.pageSize - otherOffset) <= pool.pageSize
    modifies pool`mPages, pool.Buffers()
    ensures pool.Mirrors() && |w(head)| == |w(other)| == pool.pageSize
    ensures b == FreeListMerge.FilledUp(w(head), w(other), from, otherOffset)
    ensures During(s, pool.Model(), t, Put(w, other, b), held)
    ensures forall q: nat, i: nat :: Caches(old(pool.Model()), t, q, i) ==> Caches(pool.Model(), t, q, i)
    ensures forall q :: 0 <= q < |old(pool.mPages)| ==>
      q < |pool.mPages| && pool.mPages[q].dirty == old(pool.mPages)[q].dirty
  {
    AsPut(s, pool.Model(), t, w, held, q, other);
    var space := pool.pageSize - otherOffset;
    b := CopyPage(pool, t, p, head, from, space, q, other, otherOffset, s, w, w(other), held);
    b := WritePage64(pool, t, q, other, 0, pool.pageSize, s, w, b, held);
  }

  /** This list's head page is cut off and linked to the other head page. */
  method TrimHead(pool: PagePool, t: nat, p: nat, ghost head: nat, other: nat, offset: nat,
                  ghost s: State, ghost w: Volume, ghost held: multiset<nat>) returns (ghost b: Block)
    requires pool.Mirrors() && During(s, pool.Model(), t, w, held) && Caches(pool.Model(), t, p, head)
    requires pool.mPages[p].dirty && FIRST_ENTRY <= pool.pageSize
    modifies pool`mPages, pool.Buffers()
    ensures pool.Mirrors() && |w(head)| == pool.pageSize
    ensures b == FreeListMerge.Trimmed(w(head), other, offset)
    ensures During(s, pool.Model(), t, Put(w, head, b), held)
    ensures forall q: nat, i: nat :: Caches(old(pool.Model()), t, q, i) ==> Caches(pool.Model(), t, q, i)
  {
    AsPut(s, pool.Model(), t, w, held, p, head);
    b := WritePage64(pool, t, p, head, 8, other, s, w, w(head), held);
    b := WritePage64(pool, t, p, head, 0, offset, s, w, b, held);
  }

  /** The case in which this list's head page has no room for all the IDs. */
  method OverflowHeads(pool: PagePool, t: nat, p: nat, ghost head: nat, q: nat, other: nat,
                       offset: nat, otherOffset: nat,
                       ghost s: State, ghost w: Volume, ghost held: multiset<nat>) returns (ghost r: Volume)
    requires pool.Mirrors() && During(s, pool.Model(), t, w, held)
    requires Caches(pool.Model(), t, p, head) && Caches(pool.Model(), t, q, other) && head != other
    requires pool.mPages[p].dirty && pool.mPages[q].dirty
    requires FIRST_ENTRY <= otherOffset < pool.pageSize && offset <= pool.pageSize
    requires pool.pageSize - otherOffset <= offset
    modifies pool`mPages, pool.Buffers()
    ensures pool.Mirrors() && |w(head)| == |w(other)| == pool.pageSize
    ensures r == Overflowed(pool.pageSize, w, head, other, offset, otherOffset)
    ensures During(s, pool.Model(), t, r, held)
    ensures forall q: nat, i: nat :: Caches(old(pool.Model()), t, q, i) ==> Caches(pool.Model(), t, q, i)
  {
    var newOffset := offset - (pool.pageSize - otherOffset);
    ghost var theirs := FillOther(pool, t, p, head, q, other, newOffset, otherOffset, s, w, held);
    ghost var mine := TrimHead(pool, t, p, head, other, newOffset, s, Put(w, other, theirs), held);
    r := Put(Put(w, other, theirs), head, mine);
  }

  class FreePageList {
    const machine: Machine
    var headPageId: nat
    var tailPageId: nat
    var tailPageIsDefined: bool
    var wasMerged: bool

    constructor (machine: Machine)
      ensures this.machine == machine && List() == ListHead(0, 0) && tailPageIsDefined && !wasMerged
    {
      this.machine := machine;
      headPageId, tailPageId, tailPageIsDefined, wasMerged := 0, 0, true, false;
    }

    ghost function List(): ListHead
      reads this
    {
      ListHead(headPageId, tailPageId)
    }

    /** set_head_page_id */
    method SetHeadPageId(id: nat)
      requires !wasMerged
      modifies this
      ensures headPageId == id && !tailPageIsDefined
      ensures tailPageId == old(tailPageId) && !wasMerged
    {
      tailPageIsDefined := false;
      headPageId := id;
    }

    /** The page size of the pool and the machine of the list. */
    function Shape(pool: PagePool): Geometry {
      Geometry(pool.pageSize, machine)
    }

    /** Pop on a head page without entries: the page itself is handed out. */
    method PopPage(pool: PagePool, t: nat, p: nat, ghost s: State, ghost v: Volume) returns (status: Status, id: nat)
      requires pool.Mirrors() && During(s, pool.Model(), t, v, multiset{p}) && Caches(pool.Model(), t, p, headPageId)
      requires Usable(Shape(pool)) && Sized(Shape(pool), v)
      requires headPageId != 0 && NextEntryOffset(Shape(pool), v(headPageId)) == FIRST_ENTRY
      modifies this`headPageId, this`tailPageId
      ensures PopResult(status, id, v, List()) == FreeList.Pop(Shape(pool), v, old(List()), Success)
    {
      var next := ReadPage64(pool, t, p, headPageId, 8, s, v, multiset{p});
      if next >= machine.Word() {
        return DatabaseTooLarge, 0;
      }
      id := headPageId;
      headPageId := next;
      if next == 0 {
        tailPageId := 0;
      }
      return Success, id;
    }

    /** The head page drops its last entry. */
    method DropEntry(pool: PagePool, t: nat, p: nat, last: nat, ghost s: State, ghost v: Volume)
      returns (ghost r: Volume)
      requires pool.Mirrors() && During(s, pool.Model(), t, v, multiset{p}) && Caches(pool.Model(), t, p, headPageId)
      requires FIRST_ENTRY <= pool.pageSize && Modifiable(s, t, headPageId)
      modifies pool`lists, pool`mPages, pool.entries, pool.Buffers()
      ensures pool.Mirrors() && Caches(pool.Model(), t, p, headPageId)
      ensures |v(headPageId)| == pool.pageSize && r == Put(v, headPageId, SetNextEntryOffset(v(headPageId), last))
      ensures During(s, pool.Model(), t, r, multiset{p})
    {
      ModifyPage(pool, t, p, headPageId, s, v, multiset{p});
      AsPut(s, pool.Model(), t, v, multiset{p}, p, headPageId);
      ghost var b := WritePage64(pool, t, p, headPageId, 0, last, s, v, v(headPageId), multiset{p});
      r := Put(v, headPageId, b);
    }

    /** Pop on a head page that has entries: the last one is handed out. */
    method PopEntry(pool: PagePool, t: nat, p: nat, offset: nat, ghost s: State, ghost v: Volume)
      returns (status: Status, id: nat, ghost r: Volume)
      requires pool.Mirrors() && During(s, pool.Model(), t, v, multiset{p}) && Caches(pool.Model(), t, p, headPageId)
      requires Usable(Shape(pool)) && Sized(Shape(pool), v)
      requires headPageId != 0 && offset == NextEntryOffset(Shape(pool), v(headPageId)) != FIRST_ENTRY
      requires PopWrites(Shape(pool), v, List()) ==> Modifiable(s, t, headPageId)
      modifies pool`lists, pool`mPages, pool.entries, pool.Buffers()
      ensures pool.Mirrors() && Caches(pool.Model(), t, p, headPageId)
      ensures PopResult(status, id, r, List()) == FreeList.Pop(Shape(pool), v, List(), Success)
      ensures During(s, pool.Model(), t, r, multiset{p})
    {
      var last := if offset >= 8 then offset - 8 else machine.Word() + offset - 8;
      if IsCorruptEntryOffset(last, pool.pageSize) {
        return DataCorrupted, 0, v;
      }
      status, id, r := PopLast(pool, t, p, last, s, v);
    }

    /** Pop takes the ID at the end of the head page, where its offset is no corrupt one. */
    method PopLast(pool: PagePool, t: nat, p: nat, last: nat, ghost s: State, ghost v: Volume)
      returns (status: Status, id: nat, ghost r: Volume)
      requires pool.Mirrors() && During(s, pool.Model(), t, v, multiset{p}) && Caches(pool.Model(), t, p, headPageId)
      requires Usable(Shape(pool)) && Sized(Shape(pool), v) && !IsCorruptEntryOffset(last, pool.pageSize)
      requires Load64(v(headPageId), last) < machine.Word() ==> Modifiable(s, t, headPageId)
      modifies pool`lists, pool`mPages, pool.entries, pool.Buffers()
      ensures pool.Mirrors() && Caches(pool.Model(), t, p, headPageId)
      ensures During(s, pool.Model(), t, r, multiset{p})
      ensures if Load64(v(headPageId), last) < machine.Word() then
          && status == Success && id == Load64(v(headPageId), last)
          && r == Put(v, headPageId, SetNextEntryOffset(v(headPageId), last))
        else status == DatabaseTooLarge && id == 0 && r == v
    {
      id := ReadPage64(pool, t, p, headPageId, last, s, v, multiset{p});
      if id >= machine.Word() {
        return DatabaseTooLarge, 0, v;
      }
      r := DropEntry(pool, t, p, last, s, v);
      status := Success;
    }

    /** What Pop does with the head page, which is pinned. */
    method PopFrom(pool: PagePool, t: nat, p: nat, ghost s: State, ghost v: Volume)
      returns (status: Status, id: nat, ghost r: Volume)
      requires pool.Mirrors() && During(s, pool.Model(), t, v, multiset{p}) && Caches(pool.Model(), t, p, headPageId)
      requires Usable(Shape(pool)) && Sized(Shape(pool), v) && headPageId != 0
      requires PopWrites(Shape(pool), v, List()) ==> Modifiable(s, t, headPageId)
      modifies this`headPageId, this`tailPageId, pool`lists, pool`mPages, pool.entries, pool.Buffers()
      ensures pool.Mirrors() && Caches(pool.Model(), t, p, old(headPageId))
      ensures PopResult(status, id, r, List()) == FreeList.Pop(Shape(pool), v, old(List()), Success)
      ensures During(s, pool.Model(), t, r, multiset{p})
      ensures pool.stores == old(pool.stores) && pool.pageMap == old(pool.pageMap)
    {
      var offset := ReadPage64(pool, t, p, headPageId, 0, s, v, multiset{p});
      offset := machine.SizeT(offset);
      if offset == FIRST_ENTRY {
        r := v;
        status, id := PopPage(pool, t, p, s, v);
      } else {
        status, id, r := PopEntry(pool, t, p, offset, s, v);
      }
    }

    /** Pop on the head page, which is pinned and then unpinned. */
    method PopAndRelease(pool: PagePool, t: nat, p: nat, ghost s: State, ghost v: Volume)
      returns (status: Status, id: nat, ghost r: Volume)
      requires pool.Mirrors() && During(s, pool.Model(), t, v, multiset{p}) && Caches(pool.Model(), t, p, headPageId)
      requires Usable(Shape(pool)) && Sized(Shape(pool), v) && headPageId != 0
      requires PopWrites(Shape(pool), v, List()) ==> Modifiable(s, t, headPageId)
      modifies this`headPageId, this`tailPageId
      modifies pool`lruList, pool`clock, pool`lists, pool`mPages, pool.entries, pool.Buffers()
      ensures pool.Mirrors() && During(s, pool.Model(), t, r, multiset{})
      ensures PopResult(status, id, r, List()) == FreeList.Pop(Shape(pool), v, old(List()), Success)
      ensures pool.stores == old(pool.stores) && pool.pageMap == old(pool.pageMap)
    {
      ghost var head := headPageId;
      Holding(multiset{}, p);
      status, id, r := PopFrom(pool, t, p, s, v);
      PageAccess.ReleasePage(pool, t, p, head, s, r, multiset{p});
    }

    /** Pop from a list that is not empty. */
    method PopHead(pool: PagePool, t: nat, read: Status, files: Files, ghost s: State, ghost v: Volume)
      returns (status: Status, id: nat, ghost r: Volume)
      requires pool.Mirrors() && During(s, pool.Model(), t, v, multiset{}) && Reliable(s, t, files)
      requires Usable(Shape(pool)) && Sized(Shape(pool), v) && headPageId != 0
      requires PopWrites(Shape(pool), v, List()) ==> Modifiable(s, t, headPageId)
      modifies this`headPageId, this`tailPageId, pool, pool.entries, pool.Buffers()
      ensures pool.Mirrors() && During(s, pool.Model(), t, r, multiset{})
      ensures PopResult(status, id, r, List()) ==
        FreeList.Pop(Shape(pool), v, old(List()),
                     FetchStatus(old(pool.Model()), old(pool.txns)[t].store, old(headPageId), FetchPageData, read))
      ensures OnlyBadClosed(old(pool.stores), pool.stores, files)
    {
      var p;
      status, p := FetchPage(pool, t, headPageId, read, files, s, v, multiset{});
      if status != Success {
        return status, 0, v;
      }
      Holding(multiset{}, p);
      status, id, r := PopAndRelease(pool, t, p, s, v);
    }

    /** FreePageList::Pop. `read` is the answer to reading the head page. */
    method Pop(pool: PagePool, t: nat, read: Status, files: Files) returns (status: Status, id: nat)
      requires !wasMerged && pool.Mirrors() && CanWrite(pool.Model(), t) && Reliable(pool.Model(), t, files)
      requires Usable(Shape(pool))
      requires var v := Vol(pool.Model(), pool.txns[t].store);
        Sized(Shape(pool), v) && PopWrites(Shape(pool), v, List()) ==> Modifiable(pool.Model(), t, headPageId)
      modifies this`headPageId, this`tailPageId, pool, pool.entries, pool.Buffers()
      ensures pool.Mirrors()
      ensures var was := old(pool.Model()); var st := was.txns[t].store;
        Sized(Shape(pool), Vol(was, st)) &&
        var r := FreeList.Pop(Shape(pool), Vol(was, st), old(List()),
                              FetchStatus(was, st, old(headPageId), FetchPageData, read));
        status == r.status && id == r.id && List() == r.list && During(was, pool.Model(), t, r.volume, multiset{})
      ensures old(headPageId) == 0 ==> status == Success && id == 0 && pool.Model() == old(pool.Model())
      ensures OnlyBadClosed(old(pool.stores), pool.stores, files)
    {
      ghost var was := pool.Model();
      Begin(was, t, machine);
      if headPageId == 0 {
        return Success, 0;
      }
      ghost var r;
      status, id, r := PopHead(pool, t, read, files, was, Vol(was, was.txns[t].store));
    }

    /** An entry is added to a head page that has room. */
    method AddEntry(pool: PagePool, t: nat, p: nat, offset: nat, id: nat, ghost s: State, ghost v: Volume)
      returns (ghost r: Volume)
      requires pool.Mirrors() && During(s, pool.Model(), t, v, multiset{p}) && Caches(pool.Model(), t, p, headPageId)
      requires offset + 8 <= pool.pageSize && Modifiable(s, t, headPageId)
      modifies pool`lists, pool`mPages, pool.entries, pool.Buffers()
      ensures pool.Mirrors() && Caches(pool.Model(), t, p, headPageId) && |v(headPageId)| == pool.pageSize
      ensures r == Put(v, headPageId, SetNextEntryOffset(Store64(v(headPageId), offset, id), offset + 8))
      ensures During(s, pool.Model(), t, r, multiset{p})
    {
      ModifyPage(pool, t, p, headPageId, s, v, multiset{p});
      AsPut(s, pool.Model(), t, v, multiset{p}, p, headPageId);
      ghost var b := WritePage64(pool, t, p, headPageId, offset, id, s, v, v(headPageId), multiset{p});
      b := WritePage64(pool, t, p, headPageId, 0, offset + 8, s, v, b, multiset{p});
      r := Put(v, headPageId, b);
    }

    /** Push on the head page, which is pinned. */
    method PushEntry(pool: PagePool, t: nat, p: nat, id: nat, ghost s: State, ghost v: Volume)
      returns (done: bool, status: Status, ghost r: Volume)
      requires pool.Mirrors() && During(s, pool.Model(), t, v, multiset{p}) && Caches(pool.Model(), t, p, headPageId)
      requires Usable(Shape(pool)) && Sized(Shape(pool), v) && headPageId != 0
      requires PushWrites(Shape(pool), v, List()) ==> Modifiable(s, t, headPageId)
      modifies pool`lists, pool`mPages, pool.entries, pool.Buffers()
      ensures pool.Mirrors() && During(s, pool.Model(), t, r, multiset{p}) && Caches(pool.Model(), t, p, headPageId)
      ensures done == (NextEntryOffset(Shape(pool), v(headPageId)) < pool.pageSize)
      ensures status == EntryStatus(Shape(pool), v, headPageId) && r == EntryAdded(Shape(pool), v, headPageId, id)
      ensures pool.stores == old(pool.stores) && pool.pageMap == old(pool.pageMap)
    {
      var offset := ReadPage64(pool, t, p, headPageId, 0, s, v, multiset{p});
      offset := machine.SizeT(offset);
      EntryCases(Shape(pool), v, headPageId, id, offset);
      done, status, r := offset < pool.pageSize, Success, v;
      if done {
        if IsCorruptEntryOffset(offset, pool.pageSize) {
          status := DataCorrupted;
        } else {
          r := AddEntry(pool, t, p, offset, id, s, v);
        }
      }
    }

    /** Push on the head page, which is pinned and then unpinned. */
    method PushInto(pool: PagePool, t: nat, p: nat, id: nat, ghost s: State, ghost v: Volume)
      returns (done: bool, status: Status, ghost r: Volume)
      requires pool.Mirrors() && During(s, pool.Model(), t, v, multiset{p}) && Caches(pool.Model(), t, p, headPageId)
      requires PushReady(Shape(pool), v, List(), id, s, t) && headPageId != 0
      modifies pool`lruList, pool`clock, pool`lists, pool`mPages, pool.entries, pool.Buffers()
      ensures pool.Mirrors() && During(s, pool.Model(), t, r, multiset{})
      ensures HeadPushed(Shape(pool), v, headPageId, id, done, status, r)
      ensures pool.stores == old(pool.stores) && pool.pageMap == old(pool.pageMap)
    {
      assert Viewed(v);
      Holding(multiset{}, p);
      done, status, r := PushEntry(pool, t, p, id, s, v);
      PageAccess.ReleasePage(pool, t, p, headPageId, s, r, multiset{p});
    }

    /** The fields of a new list page are written, and the page is unpinned. */
    method InitPage(pool: PagePool, t: nat, p: nat, ghost id: nat, next: nat,
                    ghost s: State, ghost v: Volume, ghost b: Block) returns (ghost c: Block)
      requires pool.Mirrors() && During(s, pool.Model(), t, Put(v, id, b), multiset{p})
      requires Caches(pool.Model(), t, p, id)
      requires pool.mPages[p].dirty && FIRST_ENTRY <= |b| == pool.pageSize
      modifies pool`lruList, pool`mPages, pool`clock, pool.entries, pool.Buffers()
      ensures pool.Mirrors() && c == SetNextPageId64(SetNextEntryOffset(b, FIRST_ENTRY), next)
      ensures During(s, pool.Model(), t, Put(v, id, c), multiset{})
      ensures pool.stores == old(pool.stores) && pool.pageMap == old(pool.pageMap)
    {
      Holding(multiset{}, p);
      c := WritePage64(pool, t, p, id, 0, FIRST_ENTRY, s, v, b, multiset{p});
      c := WritePage64(pool, t, p, id, 8, next, s, v, c, multiset{p});
      PageAccess.ReleasePage(pool, t, p, id, s, Put(v, id, c), multiset{p});
    }

    method NewHead(id: nat)
      modifies this`headPageId, this`tailPageId
      ensures List() == ListHead(id, if old(headPageId) == 0 then id else old(tailPageId))
    {
      if headPageId == 0 {
        tailPageId := id;
      }
      headPageId := id;
    }

    /** The last part of Push: page `id` becomes the head page. */
    method PushPage(pool: PagePool, t: nat, id: nat, files: Files, ghost s: State, ghost v: Volume)
      returns (status: Status, ghost scratch: Block, ghost r: Volume)
      requires pool.Mirrors() && During(s, pool.Model(), t, v, multiset{}) && Reliable(s, t, files)
      requires id != 0 && Modifiable(s, t, id) && Usable(Shape(pool))
      modifies this`headPageId, this`tailPageId, pool, pool.entries, pool.Buffers()
      ensures pool.Mirrors() && pool.Grown() && |scratch| == pool.pageSize && During(s, pool.Model(), t, r, multiset{})
      ensures status == FetchStatus(old(pool.Model()), old(pool.txns)[t].store, id, IgnorePageData, Success)
      ensures status == Success ==> scratch == Blank(old(pool.Model()), old(pool.txns)[t].store, id, v)
      ensures OnlyBadClosed(old(pool.stores), pool.stores, files)
      ensures status != Success ==> r == v && List() == old(List())
      ensures status == Success ==>
        && r == Put(v, id, SetNextPageId64(SetNextEntryOffset(scratch, FIRST_ENTRY), old(headPageId)))
        && List() == ListHead(id, if old(headPageId) == 0 then id else old(tailPageId))
    {
      var p;
      r := v;
      status, p, scratch := ClaimPage(pool, t, id, files, s, v, multiset{});
      if status == Success {
        Holding(multiset{}, p);
        ghost var c := InitPage(pool, t, p, id, headPageId, s, v, scratch);
        r := Put(v, id, c);
        label Ready:
        NewHead(id);
        pool.NothingChanged@Ready();
      }
    }

    /** Push when the head page has no room. */
    method PushNewPage(pool: PagePool, t: nat, id: nat, files: Files,
                       ghost s: State, ghost v: Volume, ghost fetch: Status)
      returns (status: Status, ghost r: Volume)
      requires pool.Mirrors() && During(s, pool.Model(), t, v, multiset{}) && CanWrite(s, t) && Reliable(s, t, files)
      requires id != 0 && Modifiable(s, t, id) && Usable(Shape(pool)) && |v(id)| == pool.pageSize
      requires PageNeeded(Shape(pool), v, List()) && (headPageId != 0 ==> fetch == Success)
      modifies this`headPageId, this`tailPageId, pool, pool.entries, pool.Buffers()
      ensures pool.Mirrors() && During(s, pool.Model(), t, r, multiset{})
      ensures var st := old(pool.txns)[t].store;
        Pushed(Shape(pool), v, old(List()), id, fetch, FetchStatus(s, st, id, IgnorePageData, Success),
               Blank(old(pool.Model()), st, id, v), PushResult(status, r, List()))
      ensures OnlyBadClosed(old(pool.stores), pool.stores, files)
    {
      ghost var l, m := List(), pool.Model();
      SameRoom(s, m, t, v, id);
      ghost var scratch;
      status, scratch, r := PushPage(pool, t, id, files, s, v);
      PushClaimed(Shape(pool), v, l, id, fetch, status, Blank(m, m.txns[t].store, id, v),
                  PushResult(status, r, List()));
    }

    /** Push on a list whose head page is pinned. */
    method PushFetched(pool: PagePool, t: nat, p: nat, id: nat, files: Files, ghost s: State, ghost v: Volume)
      returns (status: Status, ghost r: Volume)
      requires pool.Mirrors() && During(s, pool.Model(), t, v, multiset{p}) && Caches(pool.Model(), t, p, headPageId)
      requires CanWrite(s, t) && Reliable(s, t, files) && id != 0 && headPageId != 0
      requires Usable(Shape(pool)) && Sized(Shape(pool), v) && PushReady(Shape(pool), v, List(), id, s, t)
      modifies this`headPageId, this`tailPageId, pool, pool.entries, pool.Buffers()
      ensures pool.Mirrors() && During(s, pool.Model(), t, r, multiset{})
      ensures var st := old(pool.txns)[t].store;
        Pushed(Shape(pool), v, old(List()), id, Success, FetchStatus(s, st, id, IgnorePageData, Success),
               Blank(old(pool.Model()), st, id, v), PushResult(status, r, List()))
      ensures OnlyBadClosed(old(pool.stores), pool.stores, files)
    {
      ghost var l, m, st := List(), pool.Model(), pool.txns[t].store;
      var done;
      done, status, r := PushInto(pool, t, p, id, s, v);
      if done {
        PushDone(Shape(pool), v, l, id, Success, FetchStatus(s, st, id, IgnorePageData, Success),
                 Blank(m, st, id, v), status, r);
      } else {
        HeadIsFull(Shape(pool), v, l, id, s, t, status, r);
        status, r := PushNewPage(pool, t, id, files, s, v, Success);
      }
    }

    /** Push on a list that has pages. */
    method PushHeaded(pool: PagePool, t: nat, id: nat, read: Status, files: Files, ghost s: State, ghost v: Volume)
      returns (status: Status, ghost r: Volume, ghost n: State)
      requires pool.Mirrors() && During(s, pool.Model(), t, v, multiset{})
      requires CanWrite(s, t) && Reliable(s, t, files) && id != 0 && headPageId != 0
      requires Usable(Shape(pool)) && Sized(Shape(pool), v) && PushReady(Shape(pool), v, List(), id, s, t)
      modifies this`headPageId, this`tailPageId, pool, pool.entries, pool.Buffers()
      ensures pool.Mirrors() && During(s, pool.Model(), t, r, multiset{})
      ensures LeadsTo(old(pool.Model()), n, t, old(headPageId), read, files)
      ensures var st := old(pool.txns)[t].store;
        Pushed(Shape(pool), v, old(List()), id,
               FetchStatus(old(pool.Model()), st, old(headPageId), FetchPageData, read),
               FetchStatus(s, st, id, IgnorePageData, Success),
               Blank(n, st, id, v), PushResult(status, r, List()))
      ensures OnlyBadClosed(old(pool.stores), pool.stores, files)
    {
      ghost var st := pool.txns[t].store;
      var p;
      status, p := FetchPage(pool, t, headPageId, read, files, s, v, multiset{});
      n := pool.Model();
      if status == Success {
        Holding(multiset{}, p);
        status, r := PushFetched(pool, t, p, id, files, s, v);
      } else {
        r := v;
        PushDone(Shape(pool), v, List(), id, status, FetchStatus(s, st, id, IgnorePageData, Success),
                 Blank(n, st, id, v), status, r);
      }
    }

    /** FreePageList::Push. The head page is fetched first, if there is one, and then
        page `id` is, if that has no room. */
    method Push(pool: PagePool, t: nat, id: nat, read: Status, files: Files) returns (status: Status)
      requires !wasMerged && pool.Mirrors() && CanWrite(pool.Model(), t) && Reliable(pool.Model(), t, files) && id != 0
      requires Usable(Shape(pool))
      requires var v := Vol(pool.Model(), pool.txns[t].store);
        Sized(Shape(pool), v) ==>
          && (PushWrites(Shape(pool), v, List()) ==> Modifiable(pool.Model(), t, headPageId))
          && (PushNeedsPage(Shape(pool), v, List()) ==> Modifiable(pool.Model(), t, id))
      modifies this`headPageId, this`tailPageId, pool, pool.entries, pool.Buffers()
      ensures pool.Mirrors()
      ensures var was := old(pool.Model()); var st := was.txns[t].store; var v := Vol(was, st);
        Sized(Shape(pool), v) &&
        var r := FreeList.Push(Shape(pool), v, old(List()), id,
                               FetchStatus(was, st, old(headPageId), FetchPageData, read),
                               FetchStatus(was, st, id, IgnorePageData, Success),
                               PushScratch(was, t, old(headPageId), id, v, read, files));
        status == r.status && List() == r.list && During(was, pool.Model(), t, r.volume, multiset{})
      ensures OnlyBadClosed(old(pool.stores), pool.stores, files)
    {
      ghost var was := pool.Model();
      Begin(was, t, machine);
      ghost var head, v := headPageId, Vol(was, was.txns[t].store);
      ghost var r, n;
      if headPageId == 0 {
        status, r := PushNewPage(pool, t, id, files, was, v,
                                 FetchStatus(was, was.txns[t].store, head, FetchPageData, read));
      } else {
        status, r, n := PushHeaded(pool, t, id, read, files, was, v);
        LookAt(was, n, t, head, read, files);
      }
      assert Viewed(v);
    }

    // ---------------------------------------------------------------------
    // Merge

    /** Links a page to another one and unpins it. */
    method SetNextOf(pool: PagePool, t: nat, q: nat, ghost id: nat, next: nat,
                     ghost s: State, ghost v: Volume, ghost held: multiset<nat>) returns (ghost r: Volume)
      requires pool.Mirrors() && During(s, pool.Model(), t, v, held + multiset{q}) && Caches(pool.Model(), t, q, id)
      requires FIRST_ENTRY <= pool.pageSize && Modifiable(s, t, id)
      modifies pool`lruList, pool`mPages, pool`clock, pool`lists, pool.entries, pool.Buffers()
      ensures pool.Mirrors() && |v(id)| >= 16 && r == Put(v, id, SetNextPageId64(v(id), next))
      ensures During(s, pool.Model(), t, r, held)
      ensures forall q: nat, i: nat :: Caches(old(pool.Model()), t, q, i) ==> Caches(pool.Model(), t, q, i)
      ensures pool.stores == old(pool.stores) && pool.pageMap == old(pool.pageMap)
    {
      ghost var hold := held + multiset{q};
      Holding(held, q);
      ModifyPage(pool, t, q, id, s, v, hold);
      AsPut(s, pool.Model(), t, v, hold, q, id);
      ghost var b := WritePage64(pool, t, q, id, 8, next, s, v, v(id), hold);
      r := Put(v, id, b);
      PageAccess.ReleasePage(pool, t, q, id, s, r, hold);
    }

    /** Fetches a page and links it to another one. */
    method LinkPage(pool: PagePool, t: nat, id: nat, next: nat, read: Status, files: Files,
                    ghost s: State, ghost v: Volume, ghost held: multiset<nat>)
      returns (status: Status, ghost w: Volume)
      requires pool.Mirrors() && During(s, pool.Model(), t, v, held) && Reliable(s, t, files)
      requires FIRST_ENTRY <= pool.pageSize && Modifiable(s, t, id)
      modifies pool, pool.entries, pool.Buffers()
      ensures pool.Mirrors() && pool.Grown() && During(s, pool.Model(), t, w, held)
      ensures |v(id)| >= 16 || status != Success
      ensures status == FetchStatus(old(pool.Model()), old(pool.txns)[t].store, id, FetchPageData, read)
      ensures OnlyBadClosed(old(pool.stores), pool.stores, files)
      ensures w == if status == Success then Put(v, id, SetNextPageId64(v(id), next)) else v
      ensures forall q: nat, i: nat :: q in held && Caches(old(pool.Model()), t, q, i) ==> Caches(pool.Model(), t, q, i)
    {
      var q;
      w := v;
      status, q := FetchPage(pool, t, id, read, files, s, v, held);
      if status == Success {
        w := SetNextOf(pool, t, q, id, next, s, v, held);
      }
    }

    /** Step 1 of Merge: the other tail page is linked to this list's full pages. */
    method LinkTail(pool: PagePool, t: nat, p: nat, other: ListHead, read: Status, files: Files,
                    ghost s: State, ghost v: Volume, ghost held: multiset<nat>)
      returns (status: Status, ghost w: Volume)
      requires pool.Mirrors() && During(s, pool.Model(), t, v, held) && Reliable(s, t, files)
      requires p in held && Caches(pool.Model(), t, p, headPageId)
      requires Usable(Shape(pool)) && Sized(Shape(pool), v)
      requires other.tail != other.head && Modifiable(s, t, other.tail)
      modifies pool, pool.entries, pool.Buffers()
      ensures pool.Mirrors() && pool.Grown() && During(s, pool.Model(), t, w, held)
      ensures status == FetchStatus(old(pool.Model()), old(pool.txns)[t].store, other.tail, FetchPageData, read)
      ensures OnlyBadClosed(old(pool.stores), pool.stores, files)
      ensures w == if status == Success then FreeListMerge.LinkChains(Shape(pool), v, headPageId, other) else v
      ensures forall q: nat, i: nat :: q in held && Caches(old(pool.Model()), t, q, i) ==> Caches(pool.Model(), t, q, i)
    {
      LinkedTail(Shape(pool), v, headPageId, other);
      var fullChainHead := ReadPage64(pool, t, p, headPageId, 8, s, v, held);
      status, w := LinkPage(pool, t, other.tail, fullChainHead, read, files, s, v, held);
    }

    /** Step 1 of Merge. */
    method LinkFullPages(pool: PagePool, t: nat, p: nat, other: ListHead, read: Status, files: Files,
                         ghost s: State, ghost v: Volume, ghost held: multiset<nat>)
      returns (status: Status, ghost w: Volume)
      requires pool.Mirrors() && During(s, pool.Model(), t, v, held) && Reliable(s, t, files)
      requires p in held && Caches(pool.Model(), t, p, headPageId)
      requires Usable(Shape(pool)) && Sized(Shape(pool), v)
      requires other.tail != other.head ==> Modifiable(s, t, other.tail)
      modifies pool, pool.entries, pool.Buffers()
      ensures pool.Mirrors() && pool.Grown() && During(s, pool.Model(), t, w, held)
      ensures status == TailStatus(old(pool.Model()), t, other, read)
      ensures status != Success ==> other.tail != other.head
      ensures OnlyBadClosed(old(pool.stores), pool.stores, files)
      ensures if status == Success then ChainsLinked(Shape(pool), v, headPageId, other, w) else w == v
      ensures forall q: nat, i: nat :: q in held && Caches(old(pool.Model()), t, q, i) ==> Caches(pool.Model(), t, q, i)
    {
      status, w := Success, v;
      if other.tail != other.head {
        status, w := LinkTail(pool, t, p, other, read, files, s, v, held);
      }
    }

    /** Step 2 of Merge when the IDs fit. */
    method MergeFitting(pool: PagePool, t: nat, p: nat, q: nat, other: nat, offset: nat, otherOffset: nat,
                        ghost s: State, ghost w: Volume, ghost held: multiset<nat>) returns (ghost r: Volume)
      requires pool.Mirrors() && During(s, pool.Model(), t, w, held) && p in held && q in held
      requires Caches(pool.Model(), t, p, headPageId) && Caches(pool.Model(), t, q, other)
      requires CanMergeHeads(Shape(pool), w, headPageId, other) && pool.mPages[p].dirty
      requires offset == NextEntryOffset(Shape(pool), w(headPageId))
      requires otherOffset == NextEntryOffset(Shape(pool), w(other))
      requires FreeListMerge.Fits(pool.pageSize, offset, otherOffset)
      modifies pool`mPages, pool.Buffers()
      ensures pool.Mirrors() && During(s, pool.Model(), t, r, held)
      ensures r == HeadsMerged(Shape(pool), w, headPageId, other)
      ensures forall q: nat, i: nat :: Caches(old(pool.Model()), t, q, i) ==> Caches(pool.Model(), t, q, i)
    {
      HeadsMergedFit(Shape(pool), w, headPageId, other, offset, otherOffset - FIRST_ENTRY);
      r := JoinHeads(pool, t, p, headPageId, q, other, offset, otherOffset - FIRST_ENTRY, s, w, held);
    }

    /** Step 2 of Merge when the IDs do not fit. */
    method MergeOverflowing(pool: PagePool, t: nat, p: nat, q: nat, other: nat, offset: nat, otherOffset: nat,
                            ghost s: State, ghost w: Volume, ghost held: multiset<nat>) returns (ghost r: Volume)
      requires pool.Mirrors() && During(s, pool.Model(), t, w, held) && p in held && q in held
      requires Caches(pool.Model(), t, p, headPageId) && Caches(pool.Model(), t, q, other)
      requires CanMergeHeads(Shape(pool), w, headPageId, other) && pool.mPages[p].dirty && Modifiable(s, t, other)
      requires offset == NextEntryOffset(Shape(pool), w(headPageId))
      requires otherOffset == NextEntryOffset(Shape(pool), w(other))
      requires !FreeListMerge.Fits(pool.pageSize, offset, otherOffset)
      modifies pool`lists, pool`mPages, pool.entries, pool.Buffers()
      ensures pool.Mirrors() && During(s, pool.Model(), t, r, held)
      ensures r == HeadsMerged(Shape(pool), w, headPageId, other)
      ensures forall q: nat, i: nat :: Caches(old(pool.Model()), t, q, i) ==> Caches(pool.Model(), t, q, i)
    {
      HeadsMergedOverflow(Shape(pool), w, headPageId, other, offset, otherOffset);
      ModifyPage(pool, t, q, other, s, w, held);
      r := OverflowHeads(pool, t, p, headPageId, q, other, offset, otherOffset, s, w, held);
    }

    /** Step 2 of Merge when the offsets are good. */
    method MergeHeads(pool: PagePool, t: nat, p: nat, q: nat, other: nat, offset: nat, otherOffset: nat,
                      ghost s: State, ghost w: Volume, ghost held: multiset<nat>) returns (ghost r: Volume)
      requires pool.Mirrors() && During(s, pool.Model(), t, w, held) && p in held && q in held
      requires Caches(pool.Model(), t, p, headPageId) && Caches(pool.Model(), t, q, other)
      requires CanMergeHeads(Shape(pool), w, headPageId, other)
      requires offset == NextEntryOffset(Shape(pool), w(headPageId))
      requires otherOffset == NextEntryOffset(Shape(pool), w(other))
      requires Modifiable(s, t, headPageId)
      requires !FreeListMerge.Fits(pool.pageSize, offset, otherOffset) ==> Modifiable(s, t, other)
      modifies pool`lists, pool`mPages, pool.entries, pool.Buffers()
      ensures pool.Mirrors() && During(s, pool.Model(), t, r, held)
      ensures r == HeadsMerged(Shape(pool), w, headPageId, other)
      ensures forall q: nat, i: nat :: Caches(old(pool.Model()), t, q, i) ==> Caches(pool.Model(), t, q, i)
    {
      ModifyPage(pool, t, p, headPageId, s, w, held);
      if offset + (otherOffset - FIRST_ENTRY) < pool.pageSize {
        r := MergeFitting(pool, t, p, q, other, offset, otherOffset, s, w, held);
      } else {
        r := MergeOverflowing(pool, t, p, q, other, offset, otherOffset, s, w, held);
      }
    }

    /** Step 2 of Merge. */
    method MergePinned(pool: PagePool, t: nat, p: nat, q: nat, other: nat,
                       ghost s: State, ghost w: Volume, ghost held: multiset<nat>)
      returns (status: Status, ghost r: Volume)
      requires pool.Mirrors() && During(s, pool.Model(), t, w, held) && p in held && q in held
      requires Caches(pool.Model(), t, p, headPageId) && Caches(pool.Model(), t, q, other) && headPageId != other
      requires Usable(Shape(pool)) && Sized(Shape(pool), w)
      requires NextEntryOffset(Shape(pool), w(other)) >= FIRST_ENTRY
      requires HeadsModifiable(Shape(pool), w, headPageId, other, s, t)
      modifies pool`lists, pool`mPages, pool.entries, pool.Buffers()
      ensures pool.Mirrors() && During(s, pool.Model(), t, r, held)
      ensures HeadsDone(Shape(pool), w, headPageId, other, status, r)
      ensures forall q: nat, i: nat :: Caches(old(pool.Model()), t, q, i) ==> Caches(pool.Model(), t, q, i)
    {
      var g := Shape(pool);
      var offset := ReadPage64(pool, t, p, headPageId, 0, s, w, held);
      var otherOffset := ReadPage64(pool, t, q, other, 0, s, w, held);
      offset, otherOffset := g.SizeT(offset), g.SizeT(otherOffset);
      if IsCorruptEntryOffset(offset, pool.pageSize) || IsCorruptEntryOffset(otherOffset, pool.pageSize) {
        return DataCorrupted, w;
      }
      r := MergeHeads(pool, t, p, q, other, offset, otherOffset, s, w, held);
      return Success, r;
    }

    /** Merge after step 1, with both head pages pinned. */
    method MergeLinked(pool: PagePool, t: nat, p: nat, q: nat, other: ListHead,
                       ghost s: State, ghost v: Volume, ghost w: Volume, ghost held: multiset<nat>, ghost tail: Status)
      returns (status: Status, ghost r: Volume)
      requires pool.Mirrors() && During(s, pool.Model(), t, w, held) && p in held && q in held && tail == Success
      requires Caches(pool.Model(), t, p, headPageId) && Caches(pool.Model(), t, q, other.head)
      requires MergeReady(Shape(pool), v, headPageId, other, s, t) && ChainsLinked(Shape(pool), v, headPageId, other, w)
      modifies pool`lists, pool`mPages, pool.entries, pool.Buffers()
      ensures pool.Mirrors() && During(s, pool.Model(), t, r, held)
      ensures Merged(Shape(pool), v, headPageId, other, Success, Success, tail, status, r)
      ensures forall q: nat, i: nat :: Caches(old(pool.Model()), t, q, i) ==> Caches(pool.Model(), t, q, i)
      ensures pool.stores == old(pool.stores) && pool.pageMap == old(pool.pageMap)
    {
      ReadyHeads(Shape(pool), v, headPageId, other, s, t, w);
      status, r := MergePinned(pool, t, p, q, other.head, s, w, held);
      MergeEnds(Shape(pool), v, headPageId, other, s, t, w, status, r);
    }

    /** Merge with both head pages pinned. */
    method MergeHeld(pool: PagePool, t: nat, p: nat, q: nat, other: ListHead, read: Status, files: Files,
                     ghost s: State, ghost v: Volume, ghost held: multiset<nat>)
      returns (status: Status, ghost r: Volume)
      requires pool.Mirrors() && During(s, pool.Model(), t, v, held) && p in held && q in held && Reliable(s, t, files)
      requires Caches(pool.Model(), t, p, headPageId) && Caches(pool.Model(), t, q, other.head)
      requires MergeReady(Shape(pool), v, headPageId, other, s, t)
      modifies pool, pool.entries, pool.Buffers()
      ensures pool.Mirrors() && pool.Grown() && During(s, pool.Model(), t, r, held)
      ensures Merged(Shape(pool), v, headPageId, other, Success, Success,
                     TailStatus(old(pool.Model()), t, other, read), status, r)
      ensures forall q: nat, i: nat :: q in held && Caches(old(pool.Model()), t, q, i) ==> Caches(pool.Model(), t, q, i)
      ensures OnlyBadClosed(old(pool.stores), pool.stores, files)
    {
      ghost var tail := TailStatus(pool.Model(), t, other, read);
      ReadyToLink(Shape(pool), v, headPageId, other, s, t);
      status, r := LinkFullPages(pool, t, p, other, read, files, s, v, held);
      if status == Success {
        status, r := MergeLinked(pool, t, p, q, other, s, v, r, held, tail);
      } else {
        MergeStops(Shape(pool), v, headPageId, other, s, t, tail);
      }
    }

    /** Merge with both head pages pinned; the other one is unpinned at the end. */
    method MergeAndRelease(pool: PagePool, t: nat, p: nat, q: nat, other: ListHead, read: Status, files: Files,
                           ghost s: State, ghost v: Volume)
      returns (status: Status, ghost r: Volume)
      requires pool.Mirrors() && During(s, pool.Model(), t, v, multiset{p} + multiset{q}) && Reliable(s, t, files)
      requires Caches(pool.Model(), t, p, headPageId) && Caches(pool.Model(), t, q, other.head)
      requires MergeReady(Shape(pool), v, headPageId, other, s, t)
      modifies pool, pool.entries, pool.Buffers()
      ensures pool.Mirrors() && pool.Grown() && During(s, pool.Model(), t, r, multiset{p})
      ensures Caches(pool.Model(), t, p, headPageId)
      ensures Merged(Shape(pool), v, headPageId, other, Success, Success,
                     TailStatus(old(pool.Model()), t, other, read), status, r)
      ensures OnlyBadClosed(old(pool.stores), pool.stores, files)
    {
      ghost var held := multiset{p} + multiset{q};
      Holding(multiset{p}, q);
      status, r := MergeHeld(pool, t, p, q, other, read, files, s, v, held);
      PageAccess.ReleasePage(pool, t, q, other.head, s, r, held);
    }

    /** Merge with this list's head page pinned. */
    method MergeOther(pool: PagePool, t: nat, p: nat, other: ListHead, read2: Status, read3: Status, files: Files,
                      ghost s: State, ghost v: Volume)
      returns (status: Status, ghost r: Volume, ghost n: State)
      requires pool.Mirrors() && During(s, pool.Model(), t, v, multiset{p}) && Reliable(s, t, files)
      requires Caches(pool.Model(), t, p, headPageId)
      requires MergeReady(Shape(pool), v, headPageId, other, s, t)
      modifies pool, pool.entries, pool.Buffers()
      ensures pool.Mirrors() && pool.Grown() && During(s, pool.Model(), t, r, multiset{p})
      ensures Caches(pool.Model(), t, p, headPageId)
      ensures LeadsTo(old(pool.Model()), n, t, other.head, read2, files) && t < |n.txns|
      ensures Merged(Shape(pool), v, headPageId, other, Success,
                     FetchStatus(old(pool.Model()), old(pool.txns)[t].store, other.head, FetchPageData, read2),
                     TailStatus(n, t, other, read3), status, r)
      ensures OnlyBadClosed(old(pool.stores), pool.stores, files)
    {
      r := v;
      var q;
      status, q := FetchPage(pool, t, other.head, read2, files, s, v, multiset{p});
      n := pool.Model();
      if status == Success {
        ghost var before := pool.entries;
        status, r := MergeAndRelease(pool, t, p, q, other, read3, files, s, v);
        pool.GrownTwice(before);
      } else {
        MergeUnfetched(Shape(pool), v, headPageId, other, s, t, Success, status, TailStatus(n, t, other, read3));
      }
    }

    /** Merge with this list's head page pinned, which is unpinned at the end. */
    method MergeWith(pool: PagePool, t: nat, p: nat, other: ListHead, read2: Status, read3: Status, files: Files,
                     ghost s: State, ghost v: Volume)
      returns (status: Status, ghost r: Volume, ghost n: State)
      requires pool.Mirrors() && During(s, pool.Model(), t, v, multiset{p}) && Reliable(s, t, files)
      requires Caches(pool.Model(), t, p, headPageId)
      requires MergeReady(Shape(pool), v, headPageId, other, s, t)
      modifies pool, pool.entries, pool.Buffers()
      ensures pool.Mirrors() && During(s, pool.Model(), t, r, multiset{})
      ensures LeadsTo(old(pool.Model()), n, t, other.head, read2, files) && t < |n.txns|
      ensures Merged(Shape(pool), v, headPageId, other, Success,
                     FetchStatus(old(pool.Model()), old(pool.txns)[t].store, other.head, FetchPageData, read2),
                     TailStatus(n, t, other, read3), status, r)
      ensures OnlyBadClosed(old(pool.stores), pool.stores, files)
    {
      Holding(multiset{}, p);
      status, r, n := MergeOther(pool, t, p, other, read2, read3, files, s, v);
      PageAccess.ReleasePage(pool, t, p, headPageId, s, r, multiset{p});
    }

    /** FreePageList::Merge with another list that has pages. */
    method MergeLists(pool: PagePool, t: nat, other: ListHead, read: Status, read2: Status, read3: Status, files: Files,
                      ghost s: State, ghost v: Volume)
      returns (status: Status, ghost r: Volume, ghost m: State, ghost n: State)
      requires pool.Mirrors() && During(s, pool.Model(), t, v, multiset{}) && Reliable(s, t, files)
      requires MergeReady(Shape(pool), v, headPageId, other, s, t)
      modifies pool, pool.entries, pool.Buffers()
      ensures pool.Mirrors() && During(s, pool.Model(), t, r, multiset{})
      ensures var st := old(pool.txns)[t].store;
        var fetch := FetchStatus(old(pool.Model()), st, headPageId, FetchPageData, read);
        && LeadsTo(old(pool.Model()), m, t, headPageId, read, files) && t < |n.txns|
        && (fetch == Success ==> LeadsTo(m, n, t, other.head, read2, files))
        && Merged(Shape(pool), v, headPageId, other, fetch,
                  FetchStatus(m, st, other.head, FetchPageData, read2),
                  TailStatus(n, t, other, read3), status, r)
      ensures OnlyBadClosed(old(pool.stores), pool.stores, files)
    {
      r := v;
      var p;
      status, p := FetchPage(pool, t, headPageId, read, files, s, v, multiset{});
      m, n := pool.Model(), pool.Model();
      if status == Success {
        Holding(multiset{}, p);
        status, r, n := MergeWith(pool, t, p, other, read2, read3, files, s, v);
      } else {
        MergeUnfetched(Shape(pool), v, headPageId, other, s, t, status,
                       FetchStatus(m, m.txns[t].store, other.head, FetchPageData, read2),
                       TailStatus(n, t, other, read3));
      }
    }

    /** FreePageList::Merge. The other list must have good offsets, as Merge
        subtracts from them without a check. `read`, `read2` and `read3` are the
        answers to reading the two head pages and the other tail page. */
    method Merge(pool: PagePool, t: nat, other: FreePageList, read: Status, read2: Status, read3: Status, files: Files)
      returns (status: Status)
      requires other != this && !wasMerged && !other.wasMerged && other.tailPageIsDefined
      requires pool.Mirrors() && CanWrite(pool.Model(), t) && Reliable(pool.Model(), t, files)
      requires Usable(Shape(pool))
      requires var g := Shape(pool); var v := Vol(pool.Model(), pool.txns[t].store);
        other.headPageId != 0 ==>
          CanMerge(g, v, headPageId, other.List()) && MergeModifiable(g, v, headPageId, other.List(), pool.Model(), t)
      modifies other`wasMerged, pool, pool.entries, pool.Buffers()
      ensures pool.Mirrors() && other.wasMerged
      ensures var was := old(pool.Model()); var st := was.txns[t].store; var v := Vol(was, st);
        Sized(Shape(pool), v) &&
        var m := AfterFetch(was, t, headPageId, read, files);
        var n := AfterFetch(m, t, other.headPageId, read2, files);
        var r := FreeListMerge.Merge(Shape(pool), v, headPageId, other.List(),
                                     FetchStatus(was, st, headPageId, FetchPageData, read),
                                     FetchStatus(m, st, other.headPageId, FetchPageData, read2),
                                     TailStatus(n, t, other.List(), read3), false);
        status == r.status && During(was, pool.Model(), t, r.volume, multiset{})
      ensures other.headPageId == 0 ==> status == Success && pool.Model() == old(pool.Model())
      ensures OnlyBadClosed(old(pool.stores), pool.stores, files)
    {
      ghost var was := pool.Model();
      Begin(was, t, machine);
      other.wasMerged := true;
      pool.NothingChanged();
      if other.headPageId == 0 {
        return Success;
      }
      ghost var v := Vol(was, was.txns[t].store);
      ghost var r, m, n;
      var l := ListHead(other.headPageId, other.tailPageId);
      status, r, m, n := MergeLists(pool, t, l, read, read2, read3, files, was, v);
      assert Viewed(v);
      MergeAnswers(Shape(pool), v, headPageId, l, was, m, n, t, read, read2, read3, files);
    }
  }

  lemma Begin(s: State, t: nat, machine: Machine)
    requires CanWrite(s, t) && Usable(Geometry(s.pageSize, machine))
    ensures Sized(Geometry(s.pageSize, machine), Vol(s, s.txns[t].store))
    ensures During(s, s, t, Vol(s, s.txns[t].store), multiset{})
  {
    DuringStart(s, t);
    forall id: nat ensures |Vol(s, s.txns[t].store)(id)| == s.pageSize { ViewSized(s, (s.txns[t].store, id)); }
  }

  /** What an operation establishes of a list is what the next one finds. */
  lemma SeenThroughPool(s: State, m: State, t: nat, w: Volume, machine: Machine, l: ListHead, pages: seq<ListPage>)
    requires During(s, m, t, w, multiset{}) && Represents(Geometry(m.pageSize, machine), w, l, pages)
    ensures Represents(Geometry(m.pageSize, machine), Vol(m, m.txns[t].store), l, pages)
  {
    var v := Vol(m, m.txns[t].store);
    forall id: nat ensures v(id) == w(id) { assert ViewIs(m, m.txns[t].store, w, id); }
    SegmentFrame(Geometry(m.pageSize, machine), w, v, l.head, pages, 0);
  }
}
