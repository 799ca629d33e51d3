/** Lists and the volumes that hold them: every well-formed sequence of pages is
    a list of some volume, and a volume holds at most one list behind a head. */
module FreeListImages {
  import opened Bytes
  import opened StatusCodes
  import opened FreeListFormat
  import opened FreeList
  import opened FreeListMerge

  // ---------------------------------------------------------------------
  // Writing a list

  /** A block made into a list page with a next ID and entries. */
  function ListBlock(g: Geometry, b: Block, next: nat, entries: seq<nat>): (r: Block)
    requires Usable(g) && |b| == g.pageSize && |entries| <= Capacity(g)
    ensures |r| == g.pageSize
    decreases |entries|
  {
    if entries == [] then SetNextPageId64(SetNextEntryOffset(b, FIRST_ENTRY), next)
    else
      var n := |entries| - 1;
      var m := ListBlock(g, b, next, entries[..n]);
      WithEntry(g, m, n, entries[n])
  }

  /** The block with one more entry after the first n. */
  function WithEntry(g: Geometry, b: Block, n: nat, id: nat): (r: Block)
    requires Usable(g) && |b| == g.pageSize && n < Capacity(g)
    ensures |r| == g.pageSize
  {
    SetNextEntryOffset(Store64(b, EntryOffset(n), id), EntryOffset(n) + 8)
  }

  lemma LastEntryAdded(g: Geometry, b: Block, entries: seq<nat>, n: nat)
    requires Usable(g) && |b| == g.pageSize && |entries| == n + 1 <= Capacity(g) && entries[n] < UINT64_LIMIT
    requires Holds(g, b, entries[..n])
    ensures var r := WithEntry(g, b, n, entries[n]); Holds(g, r, entries) && NextPageId64(r) == NextPageId64(b)
  {
    AddEntry(g, b, entries[..n], entries[n]);
    assert entries[..n] + [entries[n]] == entries;
  }

  lemma {:induction false} ListBlockHolds(g: Geometry, b: Block, next: nat, entries: seq<nat>)
    requires Usable(g) && |b| == g.pageSize && |entries| <= Capacity(g) && next < UINT64_LIMIT
    requires forall i :: 0 <= i < |entries| ==> entries[i] < UINT64_LIMIT
    ensures var r := ListBlock(g, b, next, entries); Holds(g, r, entries) && NextPageId64(r) == next
    decreases |entries|
  {
    if entries == [] {
      FreshPage(g, b, next);
    } else {
      var n := |entries| - 1;
      ListBlockHolds(g, b, next, entries[..n]);
      LastEntryAdded(g, ListBlock(g, b, next, entries[..n]), entries, n);
    }
  }

  function FirstId(pages: seq<ListPage>): nat {
    if pages == [] then 0 else pages[0].id
  }

  ghost predicate Roomy(g: Geometry, pages: seq<ListPage>)
    requires Usable(g)
  {
    forall i :: 0 <= i < |pages| ==> |pages[i].entries| <= Capacity(g)
  }

  /** The volume with the pages written as a chain. */
  ghost function ListWritten(g: Geometry, v: Volume, pages: seq<ListPage>): (w: Volume)
    requires Usable(g) && Sized(g, v) && Roomy(g, pages)
    ensures Sized(g, w)
    decreases |pages|
  {
    if pages == [] then v
    else
      var rest := pages[1..];
      assert forall i :: 0 <= i < |rest| ==> rest[i] == pages[i + 1];
      Put(ListWritten(g, v, rest), pages[0].id, ListBlock(g, v(pages[0].id), FirstId(rest), pages[0].entries))
  }

  lemma {:induction false} WrittenElsewhere(g: Geometry, v: Volume, pages: seq<ListPage>, id: nat)
    requires Usable(g) && Sized(g, v) && Roomy(g, pages) && Avoids(pages, id)
    ensures ListWritten(g, v, pages)(id) == v(id)
    decreases |pages|
  {
    if pages != [] {
      assert forall i :: 0 <= i < |pages[1..]| ==> pages[1..][i] == pages[i + 1];
      WrittenElsewhere(g, v, pages[1..], id);
    }
  }

  /** IDs are 64-bit values. */
  lemma SmallIds(g: Geometry, p: ListPage, rest: seq<ListPage>)
    requires GoodIds(g, Stack([p] + rest))
    ensures GoodIds(g, Stack(rest)) && FirstId(rest) < UINT64_LIMIT && p.id != FirstId(rest)
    ensures forall i :: 0 <= i < |p.entries| ==> p.entries[i] < UINT64_LIMIT
    ensures Avoids(rest, p.id)
  {
    var pages := [p] + rest;
    assert pages[1..] == rest;
    GoodNoDup(g, Stack(pages));
    HeadApart(pages);
    GoodRest(g, pages);
    if rest != [] { TopOfStack(g, rest); }
    TopOfStack(g, pages);
    forall i | 0 <= i < |p.entries| ensures p.entries[i] < UINT64_LIMIT {
      assert Own(p)[i + 1] == p.entries[i] && p.entries[i] in Stack(pages);
    }
    forall i | 0 <= i < |rest| ensures rest[i].id != p.id { assert rest[i] == pages[i + 1]; }
  }

  lemma {:induction false} WrittenSegment(g: Geometry, v: Volume, pages: seq<ListPage>)
    requires Usable(g) && Sized(g, v) && Roomy(g, pages) && GoodIds(g, Stack(pages))
    ensures Segment(g, ListWritten(g, v, pages), FirstId(pages), pages, 0)
    decreases |pages|
  {
    if pages != [] {
      var p, rest := pages[0], pages[1..];
      assert pages == [p] + rest;
      assert forall i :: 0 <= i < |rest| ==> rest[i] == pages[i + 1];
      SmallIds(g, p, rest);
      WrittenSegment(g, v, rest);
      ListBlockHolds(g, v(p.id), FirstId(rest), p.entries);
      SegmentFrame(g, ListWritten(g, v, rest), ListWritten(g, v, pages), FirstId(rest), rest, 0);
    }
  }

  /** Pages of a list: no ID twice, and all after the first are full. */
  ghost predicate WellFormed(g: Geometry, pages: seq<ListPage>) {
    && Usable(g) && pages != [] && GoodIds(g, Stack(pages))
    && |pages[0].entries| <= Capacity(g) && Full(g, pages[1..])
  }

  lemma WellFormedRoomy(g: Geometry, pages: seq<ListPage>)
    requires WellFormed(g, pages)
    ensures Roomy(g, pages)
  {
    assert forall i :: 0 < i < |pages| ==> pages[i] == pages[1..][i - 1];
  }

  /** The volume with two lists written into it. */
  ghost function WithLists(g: Geometry, v: Volume, a: seq<ListPage>, b: seq<ListPage>): (w: Volume)
    requires Sized(g, v) && WellFormed(g, a) && WellFormed(g, b)
    ensures Sized(g, w)
  {
    WellFormedRoomy(g, a);
    WellFormedRoomy(g, b);
    ListWritten(g, ListWritten(g, v, a), b)
  }

  /** Any two lists of pages without a common ID are lists of some volume. */
  lemma TwoLists(g: Geometry, v: Volume, a: seq<ListPage>, b: seq<ListPage>)
    requires Sized(g, v) && WellFormed(g, a) && WellFormed(g, b) && GoodIds(g, Stack(a) + Stack(b))
    ensures Apart(g, WithLists(g, v, a, b), a[0].id, a, ListHead(b[0].id, LastId(b)), b)
  {
    WellFormedRoomy(g, a);
    WellFormedRoomy(g, b);
    PagesApart(g, a, b);
    WrittenSegment(g, v, a);
    WrittenSegment(g, ListWritten(g, v, a), b);
    forall i | 0 <= i < |a| ensures WithLists(g, v, a, b)(a[i].id) == ListWritten(g, v, a)(a[i].id) {
      WrittenElsewhere(g, ListWritten(g, v, a), b, a[i].id);
    }
    SegmentFrame(g, ListWritten(g, v, a), WithLists(g, v, a, b), a[0].id, a, 0);
  }

  // ---------------------------------------------------------------------
  // Reading a list

  lemma HoldsUnique(g: Geometry, b: Block, x: seq<nat>, y: seq<nat>)
    requires Usable(g) && |b| == g.pageSize && Holds(g, b, x) && Holds(g, b, y)
    ensures x == y
  {
    assert |x| == |y|;
    forall j | 0 <= j < |x| ensures x[j] == y[j] { assert EntryAt(b, x, j) && EntryAt(b, y, j); }
  }

  /** A head page ID and the contents of the pages determine the list. */
  lemma {:induction false} ChainUnique(g: Geometry, v: Volume, head: nat, p: seq<ListPage>, q: seq<ListPage>)
    requires Usable(g) && Sized(g, v) && Segment(g, v, head, p, 0) && Segment(g, v, head, q, 0)
    requires GoodIds(g, Stack(p)) && GoodIds(g, Stack(q))
    ensures p == q
    decreases |p|
  {
    if p != [] { TopOfStack(g, p); }
    if q != [] { TopOfStack(g, q); }
    if p != [] && q != [] {
      HoldsUnique(g, v(head), p[0].entries, q[0].entries);
      GoodRest(g, p);
      GoodRest(g, q);
      ChainUnique(g, v, NextPageId64(v(head)), p[1..], q[1..]);
      assert p == [p[0]] + p[1..] && q == [q[0]] + q[1..];
    }
  }

  /** Two lists written into a volume and then merged: what the receiver's head
      leads to. */
  lemma MergeLeaves(g: Geometry, v: Volume, a: seq<ListPage>, b: seq<ListPage>)
    requires Sized(g, v) && WellFormed(g, a) && WellFormed(g, b) && GoodIds(g, Stack(a) + Stack(b))
    requires |a[0].entries| < Capacity(g) && |b[0].entries| < Capacity(g)
    ensures var w := WithLists(g, v, a, b); var other := ListHead(b[0].id, LastId(b));
      && CanMergePages(g, w, a[0].id, other)
      && var r := Merge(g, w, a[0].id, other, Success, Success, Success, false);
         && r.status == Success && Chain(g, r.volume, a[0].id, MergedPages(g, a, b, false))
         && forall pages :: Chain(g, r.volume, a[0].id, pages) ==> pages == MergedPages(g, a, b, false)
  {
    var w, other := WithLists(g, v, a, b), ListHead(b[0].id, LastId(b));
    TwoLists(g, v, a, b);
    MergeTheorem(g, w, a[0].id, a, other, b);
    var u := Merge(g, w, a[0].id, other, Success, Success, Success, false).volume;
    forall pages | Chain(g, u, a[0].id, pages) ensures pages == MergedPages(g, a, b, false) {
      ChainUnique(g, u, a[0].id, pages, MergedPages(g, a, b, false));
    }
  }
}
