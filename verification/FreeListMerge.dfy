/** FreePageList::Merge, as written and with the chain of full pages stored. */
module FreeListMerge {
  import opened Bytes
  import opened Lists
  import opened StatusCodes
  import opened FreeListFormat
  import opened FreeList

  datatype MergeResult = MergeResult(status: Status, volume: Volume)

  /** The contents of the two head pages after their IDs were merged. */
  datatype Heads = Heads(mine: Block, theirs: Block)

  predicate Fits(pageSize: nat, offset: nat, otherOffset: nat)
    requires otherOffset >= FIRST_ENTRY
  {
    offset + (otherOffset - FIRST_ENTRY) < pageSize
  }

  /** This head page with the other head page's ID and entries added. */
  function Joined(mine: Block, theirs: Block, otherId: nat, offset: nat, rest: nat): (r: Block)
    requires offset + 8 + rest <= |mine| && FIRST_ENTRY + rest <= |theirs|
    ensures |r| == |mine|
  {
    SetNextEntryOffset(Copy(theirs, FIRST_ENTRY, rest, Store64(mine, offset, otherId), offset + 8), offset + 8 + rest)
  }

  /** The other head page filled up with the entries of this one from an offset on. */
  function FilledUp(mine: Block, theirs: Block, from: nat, otherOffset: nat): (r: Block)
    requires FIRST_ENTRY <= otherOffset <= |theirs| && from + (|theirs| - otherOffset) <= |mine|
    ensures |r| == |theirs|
  {
    SetNextEntryOffset(Copy(mine, from, |theirs| - otherOffset, theirs, otherOffset), |theirs|)
  }

  /** This head page cut off at an offset and linked to the other one. */
  function Trimmed(mine: Block, otherId: nat, offset: nat): (r: Block)
    requires |mine| >= FIRST_ENTRY
    ensures |r| == |mine|
  {
    SetNextEntryOffset(SetNextPageId64(mine, otherId), offset)
  }

  /** Step 2 of Merge: the IDs of the other head page, and the page itself, go to
      this head page if they fit; else this head page fills up the other one,
      which is then linked behind it. Offsets are valid entry offsets. */
  function MergeHeads(pageSize: nat, mine: Block, theirs: Block, otherId: nat,
                      offset: nat, otherOffset: nat): (r: Heads)
    requires |mine| == |theirs| == pageSize && pageSize % 8 == 0 && FIRST_ENTRY <= pageSize
    requires !IsCorruptEntryOffset(offset, pageSize) && !IsCorruptEntryOffset(otherOffset, pageSize)
    requires otherOffset >= FIRST_ENTRY
    ensures |r.mine| == |r.theirs| == pageSize
  {
    if Fits(pageSize, offset, otherOffset) then
      Heads(Joined(mine, theirs, otherId, offset, otherOffset - FIRST_ENTRY), theirs)
    else
      var newOffset := offset - (pageSize - otherOffset);
      Heads(Trimmed(mine, otherId, newOffset), FilledUp(mine, theirs, newOffset, otherOffset))
  }

  /** Step 1 of Merge: hang this list's full pages behind the other list's. */
  ghost function LinkChains(g: Geometry, v: Volume, head: nat, other: ListHead): Volume
    requires Usable(g) && Sized(g, v)
  {
    if other.tail == other.head then v
    else Put(v, other.tail, SetNextPageId64(v(other.tail), NextPageId64(v(head))))
  }

  /** The local variable full_chain_head_id64 after step 1. */
  ghost function FullChainHead(g: Geometry, v: Volume, head: nat, other: ListHead): nat
    requires Usable(g) && Sized(g, v)
  {
    if other.tail == other.head then NextPageId64(v(head))
    else NextPageId64(LinkChains(g, v, head, other)(other.head))
  }

  ghost predicate CanMergePages(g: Geometry, v: Volume, head: nat, other: ListHead) {
    && Usable(g) && Sized(g, v) && head != other.head
    && var w := LinkChains(g, v, head, other);
      && !IsCorruptEntryOffset(NextEntryOffset(g, w(head)), g.pageSize)
      && !IsCorruptEntryOffset(NextEntryOffset(g, w(other.head)), g.pageSize)
      && NextEntryOffset(g, w(other.head)) >= FIRST_ENTRY
  }

  /** What Merge leaves in the pages. `store` selects the variant that also
      stores the head of the chain of full pages behind the merged heads. */
  ghost function MergePages(g: Geometry, v: Volume, head: nat, other: ListHead, store: bool): Volume
    requires CanMergePages(g, v, head, other)
  {
    var w := LinkChains(g, v, head, other);
    var chain := FullChainHead(g, v, head, other);
    var offset, otherOffset := NextEntryOffset(g, w(head)), NextEntryOffset(g, w(other.head));
    var h := MergeHeads(g.pageSize, w(head), w(other.head), other.head, offset, otherOffset);
    if Fits(g.pageSize, offset, otherOffset) then
      Put(w, head, if store then SetNextPageId64(h.mine, chain) else h.mine)
    else
      Put(Put(w, other.head, if store then SetNextPageId64(h.theirs, chain) else h.theirs), head, h.mine)
  }

  /** FreePageList::Merge. The receiver's own fields never change. The arguments
      after `other` are the statuses of fetching the receiver's head page, the
      other head page and the other tail page. */
  ghost function Merge(g: Geometry, v: Volume, head: nat, other: ListHead,
                       fetch: Status, fetchOther: Status, fetchTail: Status, store: bool): MergeResult
    requires Usable(g) && Sized(g, v)
    requires other.head != 0 ==>
      head != other.head && NextEntryOffset(g, LinkChains(g, v, head, other)(other.head)) >= FIRST_ENTRY
  {
    if other.head == 0 then MergeResult(Success, v)
    else if fetch != Success then MergeResult(fetch, v)
    else if fetchOther != Success then MergeResult(fetchOther, v)
    else if other.tail != other.head && fetchTail != Success then MergeResult(fetchTail, v)
    else
      var w := LinkChains(g, v, head, other);
      if IsCorruptEntryOffset(NextEntryOffset(g, w(head)), g.pageSize) ||
         IsCorruptEntryOffset(NextEntryOffset(g, w(other.head)), g.pageSize)
      then MergeResult(DataCorrupted, w)
      else MergeResult(Success, MergePages(g, v, head, other, store))
  }

  // ---------------------------------------------------------------------
  // The two head pages

  ghost predicate HeadsHold(g: Geometry, mine: Block, theirs: Block, a: seq<nat>, b: seq<nat>) {
    && Usable(g) && |mine| == |theirs| == g.pageSize
    && Holds(g, mine, a) && Holds(g, theirs, b) && |a| < Capacity(g) && |b| < Capacity(g)
  }

  /** The arithmetic of Merge, for any two offsets that pass its checks and are
      not below the first entry. If the IDs fit, they end inside the page. If not,
      at least the first entry offset remains of this head page, which is more
      than Merge assumes, and the other head page becomes exactly full. */
  lemma MergeOffsets(pageSize: nat, offset: nat, otherOffset: nat)
    requires pageSize % 8 == 0
    requires !IsCorruptEntryOffset(offset, pageSize) && !IsCorruptEntryOffset(otherOffset, pageSize)
    requires FIRST_ENTRY <= offset && FIRST_ENTRY <= otherOffset
    ensures Fits(pageSize, offset, otherOffset) ==> offset + 8 + (otherOffset - FIRST_ENTRY) <= pageSize
    ensures !Fits(pageSize, offset, otherOffset) ==>
      var space := pageSize - otherOffset;
      && space <= offset - FIRST_ENTRY && (offset - space) % 8 == 0
      && otherOffset + space == pageSize
  {
    if Fits(pageSize, offset, otherOffset) {
      assert (offset + (otherOffset - FIRST_ENTRY)) % 8 == 0;
    }
  }

  lemma FitsMeans(g: Geometry, a: nat, b: nat)
    requires Usable(g) && a < Capacity(g) && b < Capacity(g)
    ensures Fits(g.pageSize, EntryOffset(a), EntryOffset(b)) <==> a + b + 1 <= Capacity(g)
    ensures !IsCorruptEntryOffset(EntryOffset(a), g.pageSize)
  {
  }

  /** Where each integer of the joined page comes from. */
  lemma JoinedLoad(mine: Block, theirs: Block, otherId: nat, offset: nat, rest: nat, k: nat)
    requires 16 <= offset && offset + 8 + rest <= |mine| && 16 + rest <= |theirs| && otherId < UINT64_LIMIT
    requires 8 <= k && k + 8 <= offset + 8 + rest && (k + 8 <= offset || k == offset || offset + 8 <= k)
    ensures Load64(Joined(mine, theirs, otherId, offset, rest), k) ==
      if k < offset then Load64(mine, k) else if k == offset then otherId else Load64(theirs, 16 + (k - offset - 8))
  {
    var m := Store64(mine, offset, otherId);
    var c := Copy(theirs, 16, rest, m, offset + 8);
    LoadElsewhere(c, 0, offset + 8 + rest, k);
    if k <= offset {
      LoadNotCopied(theirs, 16, rest, m, offset + 8, k);
      if k < offset { LoadElsewhere(mine, offset, otherId, k); } else { LoadStored(mine, offset, otherId); }
    } else {
      LoadCopied(theirs, 16, rest, m, offset + 8, k - offset - 8);
    }
  }

  lemma JoinedEntry(g: Geometry, mine: Block, theirs: Block, otherId: nat, a: seq<nat>, b: seq<nat>, j: nat)
    requires HeadsHold(g, mine, theirs, a, b) && |a| + |b| + 1 <= Capacity(g) && otherId < UINT64_LIMIT
    requires j < |a| + 1 + |b|
    ensures EntryAt(Joined(mine, theirs, otherId, EntryOffset(|a|), 8 * |b|), a + ([otherId] + b), j)
  {
    JoinedLoad(mine, theirs, otherId, EntryOffset(|a|), 8 * |b|, EntryOffset(j));
    if j < |a| { assert EntryAt(mine, a, j); }
    if j > |a| { assert EntryAt(theirs, b, j - |a| - 1); }
  }

  /** The IDs fit: the other page's ID and entries follow this page's entries. */
  lemma JoinedHolds(g: Geometry, mine: Block, theirs: Block, otherId: nat, a: seq<nat>, b: seq<nat>)
    requires HeadsHold(g, mine, theirs, a, b) && |a| + |b| + 1 <= Capacity(g) && otherId < UINT64_LIMIT
    ensures var r := Joined(mine, theirs, otherId, EntryOffset(|a|), 8 * |b|);
      Holds(g, r, a + ([otherId] + b)) && NextPageId64(r) == NextPageId64(mine)
  {
    var offset, rest := EntryOffset(|a|), 8 * |b|;
    LoadStored(Copy(theirs, 16, rest, Store64(mine, offset, otherId), offset + 8), 0, offset + 8 + rest);
    JoinedLoad(mine, theirs, otherId, offset, rest, 8);
    forall j | 0 <= j < |a + ([otherId] + b)|
      ensures EntryAt(Joined(mine, theirs, otherId, offset, rest), a + ([otherId] + b), j)
    {
      JoinedEntry(g, mine, theirs, otherId, a, b, j);
    }
  }

  /** The IDs do not fit: this page keeps its first n entries. */
  lemma TrimmedHolds(g: Geometry, mine: Block, otherId: nat, a: seq<nat>, n: nat)
    requires Usable(g) && |mine| == g.pageSize && Holds(g, mine, a) && n <= |a| && otherId < UINT64_LIMIT
    ensures var r := Trimmed(mine, otherId, EntryOffset(n));
      Holds(g, r, a[..n]) && NextPageId64(r) == otherId
  {
    var m := Store64(mine, 8, otherId);
    var r := Store64(m, 0, EntryOffset(n));
    LoadStored(mine, 8, otherId);
    LoadStored(m, 0, EntryOffset(n));
    LoadElsewhere(m, 0, EntryOffset(n), 8);
    forall j | 0 <= j < n ensures EntryAt(r, a[..n], j) {
      assert EntryAt(mine, a, j);
      LoadElsewhere(m, 0, EntryOffset(n), EntryOffset(j));
      LoadElsewhere(mine, 8, otherId, EntryOffset(j));
    }
  }

  /** How many entries stay when the IDs do not fit. */
  function KeptEntries(g: Geometry, a: nat, b: nat): nat
    requires g.pageSize >= FIRST_ENTRY && a + b >= Capacity(g)
  {
    a + b - Capacity(g)
  }

  /** Where each integer of the filled page comes from. */
  lemma FilledLoad(mine: Block, theirs: Block, from: nat, otherOffset: nat, k: nat)
    requires 16 <= otherOffset <= |theirs| && from + (|theirs| - otherOffset) <= |mine|
    requires 8 <= k && k + 8 <= |theirs| && (k + 8 <= otherOffset || otherOffset <= k)
    ensures Load64(FilledUp(mine, theirs, from, otherOffset), k) ==
      if k < otherOffset then Load64(theirs, k) else Load64(mine, from + (k - otherOffset))
  {
    var empty := |theirs| - otherOffset;
    LoadElsewhere(Copy(mine, from, empty, theirs, otherOffset), 0, |theirs|, k);
    if k < otherOffset {
      LoadNotCopied(mine, from, empty, theirs, otherOffset, k);
    } else {
      LoadCopied(mine, from, empty, theirs, otherOffset, k - otherOffset);
    }
  }

  lemma FilledFields(mine: Block, theirs: Block, from: nat, otherOffset: nat)
    requires 16 <= otherOffset <= |theirs| < UINT64_LIMIT && from + (|theirs| - otherOffset) <= |mine|
    ensures var r := FilledUp(mine, theirs, from, otherOffset);
      Load64(r, 0) == |theirs| && NextPageId64(r) == NextPageId64(theirs)
  {
    LoadStored(Copy(mine, from, |theirs| - otherOffset, theirs, otherOffset), 0, |theirs|);
    FilledLoad(mine, theirs, from, otherOffset, 8);
  }

  lemma FilledEntry(g: Geometry, mine: Block, theirs: Block, a: seq<nat>, b: seq<nat>, j: nat)
    requires HeadsHold(g, mine, theirs, a, b) && |a| + |b| >= Capacity(g) && j < Capacity(g)
    ensures var n := KeptEntries(g, |a|, |b|);
      EntryAt(FilledUp(mine, theirs, EntryOffset(n), EntryOffset(|b|)), b + a[n..], j)
  {
    var n := KeptEntries(g, |a|, |b|);
    FilledLoad(mine, theirs, EntryOffset(n), EntryOffset(|b|), EntryOffset(j));
    if j < |b| { assert EntryAt(theirs, b, j); } else { assert EntryAt(mine, a, n + j - |b|); }
  }

  /** The IDs do not fit: the other page ends up exactly full. */
  lemma FilledHolds(g: Geometry, mine: Block, theirs: Block, a: seq<nat>, b: seq<nat>)
    requires HeadsHold(g, mine, theirs, a, b) && |a| + |b| >= Capacity(g)
    ensures var n := KeptEntries(g, |a|, |b|);
      var r := FilledUp(mine, theirs, EntryOffset(n), EntryOffset(|b|));
      Holds(g, r, b + a[n..]) && |b + a[n..]| == Capacity(g) && NextPageId64(r) == NextPageId64(theirs)
  {
    var n := KeptEntries(g, |a|, |b|);
    FilledFields(mine, theirs, EntryOffset(n), EntryOffset(|b|));
    FullPageOffset(g);
    var all := b + a[n..];
    assert |all| == Capacity(g);
    forall j | 0 <= j < |all|
      ensures EntryAt(FilledUp(mine, theirs, EntryOffset(n), EntryOffset(|b|)), all, j)
    {
      FilledEntry(g, mine, theirs, a, b, j);
    }
  }

  // ---------------------------------------------------------------------
  // Chains

  /** The IDs of a list, list pages included, with their multiplicities. */
  ghost function Ids(pages: seq<ListPage>): multiset<nat> {
    multiset(Stack(pages))
  }

  lemma {:induction false} IdsConcat(p: seq<ListPage>, q: seq<ListPage>)
    ensures Ids(p + q) == Ids(p) + Ids(q)
    decreases |p|
  {
    if p == [] {
      assert p + q == q;
    } else {
      assert (p + q)[1..] == p[1..] + q;
      IdsConcat(p[1..], q);
    }
  }

  lemma IdsHead(pages: seq<ListPage>)
    requires pages != []
    ensures Ids(pages) == multiset(Own(pages[0])) + Ids(pages[1..])
  {
  }

  lemma IdsCons(p: ListPage, rest: seq<ListPage>)
    ensures Ids([p] + rest) == multiset(Own(p)) + Ids(rest)
  {
    assert ([p] + rest)[1..] == rest;
  }

  /** IDs taken from a list of good IDs, each at most as often, are good. */
  lemma GoodSubset(g: Geometry, ids: seq<nat>, all: seq<nat>)
    requires GoodIds(g, all) && multiset(ids) <= multiset(all)
    ensures GoodIds(g, ids)
  {
    GoodNoDup(g, all);
    forall i | 0 <= i < |ids| ensures GoodIdAt(g, ids, i) {
      assert ids[i] in multiset(ids) && ids[i] in all;
      if j :| 0 <= j < i && ids[j] == ids[i] {
        TwiceInMultiset(ids, j, i);
        OnceInMultiset(all, ids[i]);
      }
    }
  }

  lemma TwiceInMultiset(s: seq<nat>, i: nat, j: nat)
    requires i < j < |s| && s[i] == s[j]
    ensures multiset(s)[s[i]] >= 2
  {
    assert s == s[..i] + [s[i]] + s[i + 1..j] + [s[j]] + s[j + 1..];
  }

  lemma {:induction false} OnceInMultiset(s: seq<nat>, x: nat)
    requires NoDup(s)
    ensures multiset(s)[x] <= 1
  {
    if s != [] {
      OnceInMultiset(s[1..], x);
      assert s == [s[0]] + s[1..];
      if x == s[0] { assert x !in s[1..]; }
    }
  }

  lemma {:induction false} SegmentConcat(g: Geometry, v: Volume, head: nat, p: seq<ListPage>,
                                         mid: nat, q: seq<ListPage>, end: nat)
    requires Usable(g) && Sized(g, v) && Segment(g, v, head, p, mid) && Segment(g, v, mid, q, end)
    ensures Segment(g, v, head, p + q, end)
    decreases |p|
  {
    if p == [] {
      assert p + q == q;
    } else {
      assert (p + q)[1..] == p[1..] + q;
      SegmentConcat(g, v, NextPageId64(v(head)), p[1..], mid, q, end);
    }
  }

  lemma SetNextKeeps(g: Geometry, b: Block, entries: seq<nat>, next: nat)
    requires Usable(g) && |b| == g.pageSize && Holds(g, b, entries) && next < UINT64_LIMIT
    ensures Holds(g, SetNextPageId64(b, next), entries) && NextPageId64(SetNextPageId64(b, next)) == next
  {
    LoadStored(b, 8, next);
    LoadElsewhere(b, 8, next, 0);
    forall j | 0 <= j < |entries| ensures EntryAt(SetNextPageId64(b, next), entries, j) {
      assert EntryAt(b, entries, j);
      LoadElsewhere(b, 8, next, EntryOffset(j));
    }
  }

  /** A chain whose last page gets a new next ID goes on there. */
  lemma {:induction false} Relinked(g: Geometry, v: Volume, head: nat, pages: seq<ListPage>, next: nat)
    requires Usable(g) && Sized(g, v) && pages != [] && Segment(g, v, head, pages, 0)
    requires NoDup(Stack(pages)) && next < UINT64_LIMIT
    ensures var last := LastId(pages);
      var w := Put(v, last, SetNextPageId64(v(last), next));
      Sized(g, w) && Segment(g, w, head, pages, next)
    decreases |pages|
  {
    var last := LastId(pages);
    var w := Put(v, last, SetNextPageId64(v(last), next));
    HeadApart(pages);
    if |pages| == 1 {
      SetNextKeeps(g, v(head), pages[0].entries, next);
    } else {
      Relinked(g, v, NextPageId64(v(head)), pages[1..], next);
    }
  }

  /** Two well-formed lists without a common ID, the receiver not empty and
      neither head page full. */
  ghost predicate Mergeable(g: Geometry, v: Volume, head: nat, a: seq<ListPage>, other: ListHead, b: seq<ListPage>) {
    && Chain(g, v, head, a) && a != [] && |a[0].entries| < Capacity(g)
    && Represents(g, v, other, b) && b != [] && |b[0].entries| < Capacity(g)
    && GoodIds(g, Stack(a) + Stack(b))
  }

  /** The full pages of both lists, the other list's first. */
  function FullPages(a: seq<ListPage>, b: seq<ListPage>): seq<ListPage>
    requires a != [] && b != []
  {
    b[1..] + a[1..]
  }

  predicate HeadsFit(g: Geometry, a: seq<ListPage>, b: seq<ListPage>)
    requires a != [] && b != [] && g.pageSize >= FIRST_ENTRY
  {
    |a[0].entries| + |b[0].entries| + 1 <= Capacity(g)
  }

  /** The list that the receiver's head leads to after Merge. */
  function MergedPages(g: Geometry, a: seq<ListPage>, b: seq<ListPage>, store: bool): seq<ListPage>
    requires a != [] && b != [] && g.pageSize >= FIRST_ENTRY && |b[0].entries| < Capacity(g)
  {
    if HeadsFit(g, a, b) then
      [a[0].(entries := a[0].entries + Own(b[0]))] + if store then FullPages(a, b) else a[1..]
    else
      var n := KeptEntries(g, |a[0].entries|, |b[0].entries|);
      [a[0].(entries := a[0].entries[..n])] +
      ([b[0].(entries := b[0].entries + a[0].entries[n..])] +
       if store || |b| > 1 then FullPages(a, b) else [])
  }

  /** No page of the list is the given one. */
  ghost predicate Avoids(pages: seq<ListPage>, id: nat) {
    forall i :: 0 <= i < |pages| ==> pages[i].id != id
  }

  lemma PagesApart(g: Geometry, a: seq<ListPage>, b: seq<ListPage>)
    requires a != [] && b != [] && GoodIds(g, Stack(a) + Stack(b))
    ensures NoDup(Stack(a)) && NoDup(Stack(b))
    ensures a[0].id != b[0].id && Avoids(FullPages(a, b), a[0].id) && Avoids(FullPages(a, b), b[0].id)
    ensures forall i :: 0 <= i < |a| ==> Avoids(b, a[i].id)
  {
    GoodNoDup(g, Stack(a) + Stack(b));
    NoDupParts(Stack(a), Stack(b));
    HeadApart(a);
    HeadApart(b);
    forall i, j | 0 <= i < |a| && 0 <= j < |b| ensures a[i].id != b[j].id {
      PageIdInStack(a, i);
      PageIdInStack(b, j);
    }
  }

  /** Step 1 leaves the head pages alone and chains the full pages. */
  lemma ChainsLinked(g: Geometry, v: Volume, head: nat, a: seq<ListPage>, other: ListHead, b: seq<ListPage>)
    requires Mergeable(g, v, head, a, other, b)
    ensures var w := LinkChains(g, v, head, other);
      && Sized(g, w) && w(head) == v(head) && w(other.head) == v(other.head)
      && Segment(g, w, NextPageId64(w(head)), a[1..], 0)
      && Segment(g, w, FullChainHead(g, v, head, other), FullPages(a, b), 0)
      && (|b| > 1 ==> FullChainHead(g, v, head, other) == NextPageId64(w(other.head)))
      && (|b| == 1 ==> NextPageId64(w(other.head)) == 0)
  {
    PagesApart(g, a, b);
    HeadApart(b);
    if |b| == 1 {
      assert Segment(g, v, NextPageId64(v(other.head)), b[1..], 0);
      assert FullPages(a, b) == a[1..];
    } else {
      var w := LinkChains(g, v, head, other);
      var next := NextPageId64(v(head));
      assert LastId(b[1..]) == LastId(b);
      Relinked(g, v, NextPageId64(v(other.head)), b[1..], next);
      SegmentFrame(g, v, w, next, a[1..], 0);
      SegmentConcat(g, w, NextPageId64(v(other.head)), b[1..], next, a[1..], 0);
    }
  }

  /** A page put in front of a chain that does not contain it. */
  lemma InFront(g: Geometry, v: Volume, id: nat, b: Block, entries: seq<nat>, rest: seq<ListPage>)
    requires Usable(g) && Sized(g, v) && |b| == g.pageSize && Holds(g, b, entries)
    requires Segment(g, v, NextPageId64(b), rest, 0) && Avoids(rest, id)
    ensures Sized(g, Put(v, id, b))
    ensures Segment(g, Put(v, id, b), id, [ListPage(id, entries)] + rest, 0)
  {
    SegmentFrame(g, v, Put(v, id, b), NextPageId64(b), rest, 0);
    assert ([ListPage(id, entries)] + rest)[1..] == rest;
  }

  /** Valid offsets in, valid offsets out: nothing in Merge leaves a page. */
  lemma HeadOffsets(g: Geometry, v: Volume, head: nat, a: seq<ListPage>, other: ListHead, b: seq<ListPage>)
    requires Mergeable(g, v, head, a, other, b)
    ensures CanMergePages(g, v, head, other)
    ensures var w := LinkChains(g, v, head, other);
      && HeadsHold(g, w(head), w(other.head), a[0].entries, b[0].entries)
      && NextEntryOffset(g, w(head)) == EntryOffset(|a[0].entries|)
      && NextEntryOffset(g, w(other.head)) == EntryOffset(|b[0].entries|)
      && (Fits(g.pageSize, NextEntryOffset(g, w(head)), NextEntryOffset(g, w(other.head))) <==> HeadsFit(g, a, b))
    ensures 0 < other.head < UINT64_LIMIT
  {
    ChainsLinked(g, v, head, a, other, b);
    PagesApart(g, a, b);
    TopOfStack(g, b);
    var w := LinkChains(g, v, head, other);
    OffsetRead(g, w(head), a[0].entries);
    OffsetRead(g, w(other.head), b[0].entries);
    FitsMeans(g, |a[0].entries|, |b[0].entries|);
    FitsMeans(g, |b[0].entries|, |a[0].entries|);
  }

  /** The joined head page, in front of the full pages. */
  lemma JoinedChain(g: Geometry, v: Volume, head: nat, a: seq<ListPage>, other: ListHead, b: seq<ListPage>, store: bool)
    requires Mergeable(g, v, head, a, other, b) && HeadsFit(g, a, b)
    ensures var w := LinkChains(g, v, head, other);
      && Sized(g, w) && 8 * |b[0].entries| + EntryOffset(|a[0].entries|) + 8 <= g.pageSize
      && var mine := Joined(w(head), w(other.head), other.head, EntryOffset(|a[0].entries|), 8 * |b[0].entries|);
         var u := Put(w, head, if store then SetNextPageId64(mine, FullChainHead(g, v, head, other)) else mine);
         Sized(g, u) && Segment(g, u, head, MergedPages(g, a, b, store), 0)
  {
    ChainsLinked(g, v, head, a, other, b);
    HeadOffsets(g, v, head, a, other, b);
    var w := LinkChains(g, v, head, other);
    var ea, eb := a[0].entries, b[0].entries;
    JoinedHolds(g, w(head), w(other.head), other.head, ea, eb);
    var mine := Joined(w(head), w(other.head), other.head, EntryOffset(|ea|), 8 * |eb|);
    PagesApart(g, a, b);
    FrontChain(g, w, head, mine, ea + Own(b[0]), a, b, FullChainHead(g, v, head, other), store);
  }

  lemma FrontChain(g: Geometry, w: Volume, head: nat, mine: Block, entries: seq<nat>,
                   a: seq<ListPage>, b: seq<ListPage>, chain: nat, store: bool)
    requires Usable(g) && Sized(g, w) && |mine| == g.pageSize && Holds(g, mine, entries) && a != [] && b != []
    requires Segment(g, w, NextPageId64(mine), a[1..], 0) && Segment(g, w, chain, FullPages(a, b), 0)
    requires Avoids(FullPages(a, b), head) && chain < UINT64_LIMIT
    ensures var u := Put(w, head, if store then SetNextPageId64(mine, chain) else mine);
      Sized(g, u) && Segment(g, u, head, [ListPage(head, entries)] + if store then FullPages(a, b) else a[1..], 0)
  {
    if store {
      SetNextKeeps(g, mine, entries, chain);
      InFront(g, w, head, SetNextPageId64(mine, chain), entries, FullPages(a, b));
    } else {
      assert Avoids(a[1..], head) by {
        forall i | 0 <= i < |a[1..]| ensures a[1..][i].id != head {
          assert FullPages(a, b)[|b[1..]| + i] == a[1..][i];
        }
      }
      InFront(g, w, head, mine, entries, a[1..]);
    }
  }

  lemma FitHeads(pageSize: nat, mine: Block, theirs: Block, otherId: nat, offset: nat, otherOffset: nat)
    requires |mine| == |theirs| == pageSize && pageSize % 8 == 0 && FIRST_ENTRY <= pageSize
    requires !IsCorruptEntryOffset(offset, pageSize) && !IsCorruptEntryOffset(otherOffset, pageSize)
    requires otherOffset >= FIRST_ENTRY && Fits(pageSize, offset, otherOffset)
    ensures offset + 8 + (otherOffset - FIRST_ENTRY) <= pageSize
    ensures MergeHeads(pageSize, mine, theirs, otherId, offset, otherOffset) ==
      Heads(Joined(mine, theirs, otherId, offset, otherOffset - FIRST_ENTRY), theirs)
  {
  }

  /** MergePages in terms of the numbers of entries. */
  lemma MergePagesFit(g: Geometry, v: Volume, head: nat, other: ListHead, na: nat, nb: nat, store: bool)
    requires CanMergePages(g, v, head, other)
    requires var w := LinkChains(g, v, head, other);
      && NextEntryOffset(g, w(head)) == EntryOffset(na) && NextEntryOffset(g, w(other.head)) == EntryOffset(nb)
      && Fits(g.pageSize, EntryOffset(na), EntryOffset(nb))
    ensures EntryOffset(na) + 8 + 8 * nb <= g.pageSize
    ensures var w := LinkChains(g, v, head, other);
      var mine := Joined(w(head), w(other.head), other.head, EntryOffset(na), 8 * nb);
      MergePages(g, v, head, other, store) ==
        Put(w, head, if store then SetNextPageId64(mine, FullChainHead(g, v, head, other)) else mine)
  {
    var w := LinkChains(g, v, head, other);
    FitHeads(g.pageSize, w(head), w(other.head), other.head, EntryOffset(na), EntryOffset(nb));
  }

  lemma KeptOffset(g: Geometry, na: nat, nb: nat)
    requires Usable(g) && na + nb >= Capacity(g) && nb <= Capacity(g)
    ensures EntryOffset(nb) <= g.pageSize
    ensures EntryOffset(na) - (g.pageSize - EntryOffset(nb)) == EntryOffset(KeptEntries(g, na, nb))
  {
    FullPageOffset(g);
  }

  lemma OverflowHeads(g: Geometry, mine: Block, theirs: Block, otherId: nat, na: nat, nb: nat)
    requires Usable(g) && |mine| == |theirs| == g.pageSize && na + nb >= Capacity(g)
    requires !IsCorruptEntryOffset(EntryOffset(na), g.pageSize) && !IsCorruptEntryOffset(EntryOffset(nb), g.pageSize)
    requires !Fits(g.pageSize, EntryOffset(na), EntryOffset(nb))
    ensures nb <= Capacity(g) && EntryOffset(nb) <= g.pageSize
    ensures EntryOffset(KeptEntries(g, na, nb)) + (g.pageSize - EntryOffset(nb)) <= g.pageSize
    ensures MergeHeads(g.pageSize, mine, theirs, otherId, EntryOffset(na), EntryOffset(nb)) ==
      Heads(Trimmed(mine, otherId, EntryOffset(KeptEntries(g, na, nb))),
            FilledUp(mine, theirs, EntryOffset(KeptEntries(g, na, nb)), EntryOffset(nb)))
  {
    KeptOffset(g, na, nb);
  }

  lemma MergePagesOverflow(g: Geometry, v: Volume, head: nat, other: ListHead, na: nat, nb: nat, store: bool)
    requires CanMergePages(g, v, head, other) && na + nb >= Capacity(g)
    requires var w := LinkChains(g, v, head, other);
      && NextEntryOffset(g, w(head)) == EntryOffset(na) && NextEntryOffset(g, w(other.head)) == EntryOffset(nb)
      && !Fits(g.pageSize, EntryOffset(na), EntryOffset(nb))
    ensures EntryOffset(nb) <= g.pageSize
    ensures EntryOffset(KeptEntries(g, na, nb)) + (g.pageSize - EntryOffset(nb)) <= g.pageSize
    ensures var w := LinkChains(g, v, head, other);
      var theirs := FilledUp(w(head), w(other.head), EntryOffset(KeptEntries(g, na, nb)), EntryOffset(nb));
      MergePages(g, v, head, other, store) ==
        Put(Put(w, other.head, if store then SetNextPageId64(theirs, FullChainHead(g, v, head, other)) else theirs),
            head, Trimmed(w(head), other.head, EntryOffset(KeptEntries(g, na, nb))))
  {
    var w := LinkChains(g, v, head, other);
    KeptOffset(g, na, nb);
    OverflowHeads(g, w(head), w(other.head), other.head, na, nb);
  }

  lemma MergedFits(g: Geometry, v: Volume, head: nat, a: seq<ListPage>, other: ListHead, b: seq<ListPage>, store: bool)
    requires Mergeable(g, v, head, a, other, b) && HeadsFit(g, a, b)
    ensures CanMergePages(g, v, head, other)
    ensures var u := MergePages(g, v, head, other, store);
      Sized(g, u) && Segment(g, u, head, MergedPages(g, a, b, store), 0)
  {
    HeadOffsets(g, v, head, a, other, b);
    JoinedChain(g, v, head, a, other, b, store);
    MergePagesFit(g, v, head, other, |a[0].entries|, |b[0].entries|, store);
  }

  /** The filled page in front of the full pages, and the trimmed one before it. */
  lemma OverflowChain(g: Geometry, w: Volume, head: nat, mine: Block, a: seq<ListPage>,
                      otherId: nat, theirs: Block, b: seq<ListPage>, chain: nat, store: bool)
    requires Usable(g) && Sized(g, w) && a != [] && b != [] && head == a[0].id && otherId == b[0].id
    requires !HeadsFit(g, a, b) && |b[0].entries| < Capacity(g) && chain < UINT64_LIMIT
    requires var n := KeptEntries(g, |a[0].entries|, |b[0].entries|);
      && |mine| == g.pageSize && Holds(g, mine, a[0].entries[..n]) && NextPageId64(mine) == otherId
      && |theirs| == g.pageSize && Holds(g, theirs, b[0].entries + a[0].entries[n..])
    requires Segment(g, w, chain, FullPages(a, b), 0)
    requires NextPageId64(theirs) == if |b| > 1 then chain else 0
    requires Avoids(FullPages(a, b), head) && Avoids(FullPages(a, b), otherId) && head != otherId
    ensures var u := Put(Put(w, otherId, if store then SetNextPageId64(theirs, chain) else theirs), head, mine);
      Sized(g, u) && Segment(g, u, head, MergedPages(g, a, b, store), 0)
  {
    var n := KeptEntries(g, |a[0].entries|, |b[0].entries|);
    var entries := b[0].entries + a[0].entries[n..];
    var rest := if store || |b| > 1 then FullPages(a, b) else [];
    var second := if store then SetNextPageId64(theirs, chain) else theirs;
    if store { SetNextKeeps(g, theirs, entries, chain); }
    InFront(g, w, otherId, second, entries, rest);
    InFront(g, Put(w, otherId, second), head, mine, a[0].entries[..n], [ListPage(otherId, entries)] + rest);
  }

  lemma MergedOverflow(g: Geometry, v: Volume, head: nat, a: seq<ListPage>,
                       other: ListHead, b: seq<ListPage>, store: bool)
    requires Mergeable(g, v, head, a, other, b) && !HeadsFit(g, a, b)
    ensures CanMergePages(g, v, head, other)
    ensures var u := MergePages(g, v, head, other, store);
      Sized(g, u) && Segment(g, u, head, MergedPages(g, a, b, store), 0)
  {
    HeadOffsets(g, v, head, a, other, b);
    ChainsLinked(g, v, head, a, other, b);
    PagesApart(g, a, b);
    var w := LinkChains(g, v, head, other);
    var ea, eb := a[0].entries, b[0].entries;
    var n := KeptEntries(g, |ea|, |eb|);
    TrimmedHolds(g, w(head), other.head, ea, n);
    FilledHolds(g, w(head), w(other.head), ea, eb);
    OverflowChain(g, w, head, Trimmed(w(head), other.head, EntryOffset(n)), a,
      other.head, FilledUp(w(head), w(other.head), EntryOffset(n), EntryOffset(|eb|)), b,
      FullChainHead(g, v, head, other), store);
    MergePagesOverflow(g, v, head, other, |ea|, |eb|, store);
  }

  // ---------------------------------------------------------------------
  // Conservation

  /** The pages that Merge as written loses sight of. */
  function LostPages(g: Geometry, a: seq<ListPage>, b: seq<ListPage>): seq<ListPage>
    requires a != [] && b != [] && g.pageSize >= FIRST_ENTRY
  {
    if HeadsFit(g, a, b) then b[1..] else if |b| > 1 then [] else a[1..]
  }

  lemma JoinedIds(p: ListPage, q: ListPage)
    ensures multiset(Own(p.(entries := p.entries + Own(q)))) == multiset(Own(p)) + multiset(Own(q))
  {
    assert Own(p.(entries := p.entries + Own(q))) == Own(p) + Own(q);
  }

  lemma ShiftedIds(p: ListPage, q: ListPage, n: nat)
    requires n <= |p.entries|
    ensures multiset(Own(p.(entries := p.entries[..n]))) + multiset(Own(q.(entries := q.entries + p.entries[n..])))
      == multiset(Own(p)) + multiset(Own(q))
  {
    assert Own(p) == Own(p.(entries := p.entries[..n])) + p.entries[n..];
    assert Own(q.(entries := q.entries + p.entries[n..])) == Own(q) + p.entries[n..];
  }

  lemma MergedIdsFit(g: Geometry, a: seq<ListPage>, b: seq<ListPage>, store: bool)
    requires a != [] && b != [] && g.pageSize >= FIRST_ENTRY && HeadsFit(g, a, b)
    ensures Ids(MergedPages(g, a, b, store)) + (if store then multiset{} else Ids(LostPages(g, a, b)))
      == multiset(Own(a[0])) + multiset(Own(b[0])) + Ids(b[1..]) + Ids(a[1..])
  {
    IdsConcat(b[1..], a[1..]);
    JoinedIds(a[0], b[0]);
    IdsCons(a[0].(entries := a[0].entries + Own(b[0])), if store then FullPages(a, b) else a[1..]);
  }

  lemma IdsTwo(p: ListPage, q: ListPage, rest: seq<ListPage>)
    ensures Ids([p] + ([q] + rest)) == multiset(Own(p)) + multiset(Own(q)) + Ids(rest)
  {
    IdsCons(q, rest);
    IdsCons(p, [q] + rest);
  }

  lemma MergedIdsOverflow(g: Geometry, a: seq<ListPage>, b: seq<ListPage>, store: bool)
    requires a != [] && b != [] && g.pageSize >= FIRST_ENTRY && |b[0].entries| < Capacity(g) && !HeadsFit(g, a, b)
    ensures Ids(MergedPages(g, a, b, store)) + (if store then multiset{} else Ids(LostPages(g, a, b)))
      == multiset(Own(a[0])) + multiset(Own(b[0])) + Ids(b[1..]) + Ids(a[1..])
  {
    var n := KeptEntries(g, |a[0].entries|, |b[0].entries|);
    var first, second := a[0].(entries := a[0].entries[..n]), b[0].(entries := b[0].entries + a[0].entries[n..]);
    var rest := if store || |b| > 1 then FullPages(a, b) else [];
    assert MergedPages(g, a, b, store) == [first] + ([second] + rest);
    IdsTwo(first, second, rest);
    ShiftedIds(a[0], b[0], n);
    RestAndLost(a, b, store);
    SumOfSums(multiset(Own(first)), multiset(Own(second)), multiset(Own(a[0])), multiset(Own(b[0])),
              Ids(rest), if store then multiset{} else Ids(LostPages(g, a, b)), Ids(b[1..]), Ids(a[1..]));
  }

  lemma SumOfSums(x: multiset<nat>, y: multiset<nat>, x': multiset<nat>, y': multiset<nat>,
                  z: multiset<nat>, u: multiset<nat>, z': multiset<nat>, u': multiset<nat>)
    requires x + y == x' + y' && z + u == z' + u'
    ensures x + y + z + u == x' + y' + z' + u'
  {
    assert x + y + z + u == (x + y) + (z + u);
  }

  /** What stays behind the two head pages, and what does not. */
  lemma RestAndLost(a: seq<ListPage>, b: seq<ListPage>, store: bool)
    requires a != [] && b != []
    ensures Ids(if store || |b| > 1 then FullPages(a, b) else [])
      + (if store || |b| > 1 then multiset{} else Ids(a[1..]))
      == Ids(b[1..]) + Ids(a[1..])
  {
    IdsConcat(b[1..], a[1..]);
    assert b[1..] + a[1..] == FullPages(a, b);
  }

  lemma MergedIds(g: Geometry, a: seq<ListPage>, b: seq<ListPage>, store: bool)
    requires a != [] && b != [] && g.pageSize >= FIRST_ENTRY && |b[0].entries| < Capacity(g)
    ensures Ids(MergedPages(g, a, b, store)) + (if store then multiset{} else Ids(LostPages(g, a, b)))
      == Ids(a) + Ids(b)
  {
    IdsHead(a);
    IdsHead(b);
    if HeadsFit(g, a, b) { MergedIdsFit(g, a, b, store); } else { MergedIdsOverflow(g, a, b, store); }
  }

  lemma NoIds(pages: seq<ListPage>)
    ensures Ids(pages) == multiset{} <==> pages == []
  {
    if pages != [] {
      IdsHead(pages);
      assert pages[0].id in multiset(Own(pages[0]));
    }
  }

  lemma MergedChain(g: Geometry, v: Volume, head: nat, a: seq<ListPage>, other: ListHead, b: seq<ListPage>, store: bool)
    requires Mergeable(g, v, head, a, other, b)
    ensures CanMergePages(g, v, head, other)
    ensures Chain(g, MergePages(g, v, head, other, store), head, MergedPages(g, a, b, store))
  {
    if HeadsFit(g, a, b) {
      MergedFits(g, v, head, a, other, b, store);
    } else {
      MergedOverflow(g, v, head, a, other, b, store);
    }
    MergedIds(g, a, b, store);
    assert multiset(Stack(a) + Stack(b)) == Ids(a) + Ids(b);
    GoodSubset(g, Stack(MergedPages(g, a, b, store)), Stack(a) + Stack(b));
    MergedFull(g, a, b, store);
  }

  lemma MergedFull(g: Geometry, a: seq<ListPage>, b: seq<ListPage>, store: bool)
    requires Usable(g) && a != [] && b != [] && |b[0].entries| < Capacity(g)
    requires Full(g, a[1..]) && Full(g, b[1..])
    ensures Full(g, MergedPages(g, a, b, store)[1..])
  {
    var pages := MergedPages(g, a, b, store);
    forall i | 0 <= i < |pages[1..]| ensures |pages[1..][i].entries| == Capacity(g) {
      assert pages[1..][i] == pages[i + 1];
    }
  }

  /** When the merged list holds exactly the IDs of both lists. */
  predicate Conserves(g: Geometry, a: seq<ListPage>, b: seq<ListPage>)
    requires a != [] && b != [] && g.pageSize >= FIRST_ENTRY
  {
    if HeadsFit(g, a, b) then |b| == 1 else |b| > 1 || |a| == 1
  }

  lemma NoLostPages(g: Geometry, a: seq<ListPage>, b: seq<ListPage>)
    requires a != [] && b != [] && g.pageSize >= FIRST_ENTRY
    ensures LostPages(g, a, b) == [] <==> Conserves(g, a, b)
  {
  }

  lemma SumIsWhole(part: multiset<nat>, rest: multiset<nat>, whole: multiset<nat>)
    requires part + rest == whole
    ensures part == whole <==> rest == multiset{}
  {
    if part == whole {
      forall x ensures rest[x] == 0 { assert (part + rest)[x] == part[x] + rest[x]; }
    }
  }

  lemma LostNothing(g: Geometry, a: seq<ListPage>, b: seq<ListPage>)
    requires a != [] && b != [] && g.pageSize >= FIRST_ENTRY && |b[0].entries| < Capacity(g)
    ensures Ids(MergedPages(g, a, b, false)) == Ids(a) + Ids(b) <==> Conserves(g, a, b)
  {
    var merged, lost := MergedPages(g, a, b, false), LostPages(g, a, b);
    assert Ids(merged) + Ids(lost) == Ids(a) + Ids(b) by { MergedIds(g, a, b, false); }
    SumIsWhole(Ids(merged), Ids(lost), Ids(a) + Ids(b));
    NoIds(lost);
    NoLostPages(g, a, b);
  }

  lemma MergeSucceeds(g: Geometry, v: Volume, head: nat, a: seq<ListPage>,
                      other: ListHead, b: seq<ListPage>, store: bool)
    requires Mergeable(g, v, head, a, other, b)
    ensures CanMergePages(g, v, head, other)
    ensures Merge(g, v, head, other, Success, Success, Success, store) ==
      MergeResult(Success, MergePages(g, v, head, other, store))
  {
    HeadOffsets(g, v, head, a, other, b);
  }

  /** Merge as written leaves a well-formed list behind the receiver's head. It
      holds all IDs of both lists if and only if the IDs of the heads fit and the
      other list has one page, or they do not fit and the other list has several
      pages or the receiver has one; otherwise exactly the lost pages are missing. */
  lemma MergeTheorem(g: Geometry, v: Volume, head: nat, a: seq<ListPage>, other: ListHead, b: seq<ListPage>)
    requires Mergeable(g, v, head, a, other, b)
    ensures CanMergePages(g, v, head, other)
    ensures var r := Merge(g, v, head, other, Success, Success, Success, false);
      var pages := MergedPages(g, a, b, false);
      && r.status == Success && Chain(g, r.volume, head, pages)
      && Ids(pages) + Ids(LostPages(g, a, b)) == Ids(a) + Ids(b)
      && (Ids(pages) == Ids(a) + Ids(b) <==> Conserves(g, a, b))
  {
    MergeSucceeds(g, v, head, a, other, b, false);
    MergedChain(g, v, head, a, other, b, false);
    MergedIds(g, a, b, false);
    LostNothing(g, a, b);
  }

  /** Merging an empty list succeeds, whatever the receiver and the pages are and
      however fetches would end, and changes no page. */
  lemma MergeNothing(g: Geometry, v: Volume, head: nat, other: ListHead,
                     fetch: Status, fetchOther: Status, fetchTail: Status, store: bool)
    requires Represents(g, v, other, [])
    ensures other.head == 0 && other.tail == 0
    ensures Merge(g, v, head, other, fetch, fetchOther, fetchTail, store) == MergeResult(Success, v)
  {
  }

  /** The list behind the receiver's head after Merge, and whether it holds all IDs of
      both lists, also for an empty other list. */
  function PagesAfterMerge(g: Geometry, a: seq<ListPage>, b: seq<ListPage>): seq<ListPage>
    requires b != [] ==> a != [] && g.pageSize >= FIRST_ENTRY && |b[0].entries| < Capacity(g)
  {
    if b == [] then a else MergedPages(g, a, b, false)
  }

  predicate NothingLost(g: Geometry, a: seq<ListPage>, b: seq<ListPage>)
    requires b != [] ==> a != [] && g.pageSize >= FIRST_ENTRY
  {
    b == [] || Conserves(g, a, b)
  }

  /** Merge of two lists whose head pages are not full, of which the other one may be
      empty, and if it is, the receiver may be any list. */
  lemma MergeConserves(g: Geometry, v: Volume, head: nat, a: seq<ListPage>, other: ListHead, b: seq<ListPage>)
    requires if b == [] then Chain(g, v, head, a) && Represents(g, v, other, b) else Mergeable(g, v, head, a, other, b)
    ensures b == [] ==> other.head == 0
    ensures b != [] ==> CanMergePages(g, v, head, other)
    ensures var r := Merge(g, v, head, other, Success, Success, Success, false);
      var pages := PagesAfterMerge(g, a, b);
      && r.status == Success && Chain(g, r.volume, head, pages)
      && (Ids(pages) == Ids(a) + Ids(b) <==> NothingLost(g, a, b))
  {
    if b == [] {
      MergeNothing(g, v, head, other, Success, Success, Success, false);
    } else {
      MergeTheorem(g, v, head, a, other, b);
    }
  }

  /** With the head of the chain of full pages stored, nothing is ever lost. */
  lemma StoringTheChainConserves(g: Geometry, v: Volume, head: nat, a: seq<ListPage>, other: ListHead, b: seq<ListPage>)
    requires Mergeable(g, v, head, a, other, b)
    ensures CanMergePages(g, v, head, other)
    ensures var r := Merge(g, v, head, other, Success, Success, Success, true);
      var pages := MergedPages(g, a, b, true);
      r.status == Success && Chain(g, r.volume, head, pages) && Ids(pages) == Ids(a) + Ids(b)
  {
    MergeSucceeds(g, v, head, a, other, b, true);
    MergedChain(g, v, head, a, other, b, true);
    MergedIds(g, a, b, true);
  }

  /** Merge does not touch the receiver's fields. Its tail still names the last
      page of the merged list only if the IDs fit or both lists had full pages. */
  lemma TailAfterMerge(g: Geometry, a: seq<ListPage>, b: seq<ListPage>)
    requires Usable(g) && a != [] && b != [] && |b[0].entries| < Capacity(g) && GoodIds(g, Stack(a) + Stack(b))
    ensures LastId(MergedPages(g, a, b, false)) == LastId(a) <==> HeadsFit(g, a, b) || (|a| > 1 && |b| > 1)
  {
    PagesApart(g, a, b);
    var pages := MergedPages(g, a, b, false);
    if HeadsFit(g, a, b) {
      assert pages[1..] == a[1..];
    } else if |b| > 1 {
      assert pages[2..] == FullPages(a, b);
      assert pages[|pages| - 1] == FullPages(a, b)[|FullPages(a, b)| - 1];
    }
  }

  /** Two well-formed lists without a common ID, whose heads may be full. */
  ghost predicate Apart(g: Geometry, v: Volume, head: nat, a: seq<ListPage>, other: ListHead, b: seq<ListPage>) {
    Chain(g, v, head, a) && a != [] && Represents(g, v, other, b) && b != [] && GoodIds(g, Stack(a) + Stack(b))
  }

  lemma ApartFacts(g: Geometry, v: Volume, head: nat, a: seq<ListPage>, other: ListHead, b: seq<ListPage>)
    requires Apart(g, v, head, a, other, b)
    ensures head != other.head && other.head != 0 && (other.tail == other.head <==> |b| == 1)
    ensures var w := LinkChains(g, v, head, other);
      && w(head) == v(head) && w(other.head) == v(other.head)
      && NextEntryOffset(g, w(head)) == EntryOffset(|a[0].entries|)
      && NextEntryOffset(g, w(other.head)) == EntryOffset(|b[0].entries|)
  {
    PagesApart(g, a, b);
    HeadApart(b);
    TopOfStack(g, b);
    OffsetRead(g, v(head), a[0].entries);
    OffsetRead(g, v(other.head), b[0].entries);
  }

  /** When all fetches succeed, the two entry offsets decide. */
  lemma MergeStatus(g: Geometry, v: Volume, head: nat, other: ListHead, offset: nat, otherOffset: nat)
    requires Usable(g) && Sized(g, v) && head != other.head && other.head != 0
    requires offset == NextEntryOffset(g, LinkChains(g, v, head, other)(head))
    requires otherOffset == NextEntryOffset(g, LinkChains(g, v, head, other)(other.head)) >= FIRST_ENTRY
    ensures var r := Merge(g, v, head, other, Success, Success, Success, false);
      if IsCorruptEntryOffset(offset, g.pageSize) || IsCorruptEntryOffset(otherOffset, g.pageSize)
      then r == MergeResult(DataCorrupted, LinkChains(g, v, head, other)) else r.status == Success
  {
  }

  /** Merge takes a full head page for a corrupt one: it succeeds if and only if
      neither head page is full. */
  lemma FullHeadIsRejected(g: Geometry, v: Volume, head: nat, a: seq<ListPage>, other: ListHead, b: seq<ListPage>)
    requires Apart(g, v, head, a, other, b)
    ensures head != other.head && NextEntryOffset(g, LinkChains(g, v, head, other)(other.head)) >= FIRST_ENTRY
    ensures var r := Merge(g, v, head, other, Success, Success, Success, false);
      var full := |a[0].entries| == Capacity(g) || |b[0].entries| == Capacity(g);
      && r.status == (if full then DataCorrupted else Success)
      && (full ==> r.volume == LinkChains(g, v, head, other))
  {
    ApartFacts(g, v, head, a, other, b);
    MergeStatus(g, v, head, other, EntryOffset(|a[0].entries|), EntryOffset(|b[0].entries|));
    FullPageOffset(g);
  }

  /** Where the last page of the other list leads to after step 1: to the second
      page of the receiver. */
  lemma RejectedLeaves(g: Geometry, v: Volume, head: nat, a: seq<ListPage>, other: ListHead, b: seq<ListPage>)
    requires Apart(g, v, head, a, other, b) && |a| > 1 && |b| > 1
    ensures NextPageId64(v(other.tail)) == 0
    ensures |LinkChains(g, v, head, other)(other.tail)| == g.pageSize
    ensures NextPageId64(LinkChains(g, v, head, other)(other.tail)) == a[1].id != 0
  {
    ApartFacts(g, v, head, a, other, b);
    LastHasNoNext(g, v, other.head, b);
    assert Segment(g, v, NextPageId64(v(head)), a[1..], 0) && a[1..][0] == a[1];
    TopOfStack(g, a[1..]) by {
      assert Stack(a) == (Stack(a) + Stack(b))[..|Stack(a)|];
      GoodPrefix(g, Stack(a) + Stack(b), |Stack(a)|);
      GoodRest(g, a);
    }
    LoadStored(v(other.tail), 8, a[1].id);
  }

  /** A rejected merge has nevertheless changed a page, unless one of the lists
      has a single page: the last page of the other list leads to the receiver's
      full pages. */
  lemma RejectedMergeWrites(g: Geometry, v: Volume, head: nat, a: seq<ListPage>, other: ListHead, b: seq<ListPage>)
    requires Apart(g, v, head, a, other, b)
    ensures (forall id: nat :: LinkChains(g, v, head, other)(id) == v(id)) <==> |a| == 1 || |b| == 1
  {
    ApartFacts(g, v, head, a, other, b);
    if |b| > 1 && |a| == 1 {
      assert Segment(g, v, NextPageId64(v(head)), a[1..], 0);
      LastHasNoNext(g, v, other.head, b);
      StoreLoaded(v(other.tail), 8);
    } else if |b| > 1 {
      RejectedLeaves(g, v, head, a, other, b);
    }
  }

  lemma GoodRest(g: Geometry, pages: seq<ListPage>)
    requires pages != [] && GoodIds(g, Stack(pages))
    ensures GoodIds(g, Stack(pages[1..]))
  {
    IdsHead(pages);
    GoodSubset(g, Stack(pages[1..]), Stack(pages));
  }

  lemma {:induction false} LastHasNoNext(g: Geometry, v: Volume, head: nat, pages: seq<ListPage>)
    requires Usable(g) && Sized(g, v) && pages != [] && Segment(g, v, head, pages, 0)
    ensures NextPageId64(v(LastId(pages))) == 0
    decreases |pages|
  {
    if |pages| > 1 { LastHasNoNext(g, v, NextPageId64(v(head)), pages[1..]); }
    else { assert Segment(g, v, NextPageId64(v(head)), pages[1..], 0); }
  }
}
