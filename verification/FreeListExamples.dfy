/** Small lists on which Merge fails to do what it is for, written into any
    volume. */
module FreeListExamples {
  import opened Bytes
  import opened StatusCodes
  import opened FreeListFormat
  import opened FreeList
  import opened FreeListMerge
  import opened FreeListImages

  /** Pages of 32 bytes have room for two entries. */
  function Small(): Geometry {
    Geometry(32, Bits64)
  }

  lemma OnePage(p: ListPage)
    requires |p.entries| <= 2 && GoodIds(Small(), Own(p))
    ensures Stack([p]) == Own(p) && WellFormed(Small(), [p])
  {
    assert [p][1..] == [] && Stack([]) == [] && [] + Own(p) == Own(p);
  }

  lemma TwoPages(p: ListPage, q: ListPage)
    requires |p.entries| <= 2 && |q.entries| == 2 && GoodIds(Small(), Own(q) + Own(p))
    ensures Stack([p, q]) == Own(q) + Own(p) && WellFormed(Small(), [p, q])
  {
    assert [p, q][1..] == [q] && [q][1..] == [] && Stack([]) == [] && [] + Own(q) == Own(q);
  }

  lemma GoodParts(x: seq<nat>, y: seq<nat>)
    requires GoodIds(Small(), x + y)
    ensures GoodIds(Small(), x) && GoodIds(Small(), y)
  {
    assert x == (x + y)[..|x|];
    GoodPrefix(Small(), x + y, |x|);
    forall i | 0 <= i < |y| ensures GoodIdAt(Small(), y, i) {
      assert GoodIdAt(Small(), x + y, |x| + i);
      assert (x + y)[|x| + i] == y[i];
      forall j | 0 <= j < i ensures y[j] != y[i] { assert (x + y)[|x| + j] == y[j]; }
    }
  }

  /** Merging a list of the empty page q and the full page r into a list of the
      empty page p succeeds and leaves p with the entry q: r and its entries are
      lost. */
  lemma LossyMerge(v: Volume, p: ListPage, q: ListPage, r: ListPage)
    requires Sized(Small(), v) && p.entries == [] && q.entries == [] && |r.entries| == 2
    requires GoodIds(Small(), Own(p) + (Own(r) + Own(q)))
    ensures WellFormed(Small(), [p]) && WellFormed(Small(), [q, r])
    ensures var w := WithLists(Small(), v, [p], [q, r]); var other := ListHead(q.id, r.id);
      && Apart(Small(), w, p.id, [p], other, [q, r]) && CanMergePages(Small(), w, p.id, other)
      && var m := Merge(Small(), w, p.id, other, Success, Success, Success, false);
         && m.status == Success && Chain(Small(), m.volume, p.id, [ListPage(p.id, [q.id])])
         && forall pages :: Chain(Small(), m.volume, p.id, pages) ==> pages == [ListPage(p.id, [q.id])]
  {
    GoodParts(Own(p), Own(r) + Own(q));
    OnePage(p);
    TwoPages(q, r);
    TwoLists(Small(), v, [p], [q, r]);
    MergeLeaves(Small(), v, [p], [q, r]);
    assert p.entries + Own(q) == [q.id] && [p][1..] == [];
    assert MergedPages(Small(), [p], [q, r], false) == [ListPage(p.id, [q.id])];
  }

  /** Merging a list whose head page q is full reports data corruption, and its
      last page s nevertheless leads to the receiver's full page r afterwards. */
  lemma RejectedMerge(v: Volume, p: ListPage, r: ListPage, q: ListPage, s: ListPage)
    requires Sized(Small(), v) && p.entries == [] && |q.entries| == |r.entries| == |s.entries| == 2
    requires GoodIds(Small(), (Own(r) + Own(p)) + (Own(s) + Own(q)))
    ensures WellFormed(Small(), [p, r]) && WellFormed(Small(), [q, s])
    ensures var w := WithLists(Small(), v, [p, r], [q, s]); var other := ListHead(q.id, s.id);
      && Apart(Small(), w, p.id, [p, r], other, [q, s])
      && p.id != q.id && NextEntryOffset(Small(), LinkChains(Small(), w, p.id, other)(q.id)) >= FIRST_ENTRY
      && var m := Merge(Small(), w, p.id, other, Success, Success, Success, false);
         && m.status == DataCorrupted && |m.volume(s.id)| == 32
         && NextPageId64(w(s.id)) == 0 && NextPageId64(m.volume(s.id)) == r.id != 0
  {
    GoodParts(Own(r) + Own(p), Own(s) + Own(q));
    TwoPages(p, r);
    TwoPages(q, s);
    TwoLists(Small(), v, [p, r], [q, s]);
    var w, other := WithLists(Small(), v, [p, r], [q, s]), ListHead(q.id, s.id);
    FullHeadIsRejected(Small(), w, p.id, [p, r], other, [q, s]);
    RejectedLeaves(Small(), w, p.id, [p, r], other, [q, s]);
  }

  /** Merging a list of page q into a list of page p, whose IDs do not fit in one
      page, succeeds and leaves q behind p. The receiver's tail is still p, so its
      fields are not those of any list. */
  lemma StaleTail(v: Volume, p: ListPage, q: ListPage)
    requires Sized(Small(), v) && |p.entries| == |q.entries| == 1 && GoodIds(Small(), Own(p) + Own(q))
    ensures WellFormed(Small(), [p]) && WellFormed(Small(), [q])
    ensures var w := WithLists(Small(), v, [p], [q]);
      && Represents(Small(), w, ListHead(p.id, p.id), [p]) && Represents(Small(), w, ListHead(q.id, q.id), [q])
      && CanMergePages(Small(), w, p.id, ListHead(q.id, q.id))
      && var m := Merge(Small(), w, p.id, ListHead(q.id, q.id), Success, Success, Success, false);
         && m.status == Success
         && Chain(Small(), m.volume, p.id, [ListPage(p.id, []), ListPage(q.id, q.entries + p.entries)])
         && forall pages :: !Represents(Small(), m.volume, ListHead(p.id, p.id), pages)
  {
    GoodParts(Own(p), Own(q));
    OnePage(p);
    OnePage(q);
    TwoLists(Small(), v, [p], [q]);
    MergeLeaves(Small(), v, [p], [q]);
    assert MergedPages(Small(), [p], [q], false) == [ListPage(p.id, []), ListPage(q.id, q.entries + p.entries)];
    assert Own(p)[0] == p.id && Own(q)[0] == q.id;
    TailAfterMerge(Small(), [p], [q]);
  }
}
