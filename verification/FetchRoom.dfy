/** When the page pool has no room for a further fetch of an operation, in terms
    of the state in which the operation began. */
module FetchRoom {
  import opened StatusCodes
  import opened PoolModel
  import opened PoolClose
  import opened PoolFetch
  import opened PageSession
  import opened FreeList
  import PoolLaws

  /** The page is cached by an entry that is pinned. */
  ghost predicate PinnedPage(s: State, k: (nat, nat)) {
    k in s.pageMap && PinsOf(s, s.pageMap[k]) > 0
  }

  /** How many entries a fetch of the page pins that were not pinned before. */
  ghost function NewPins(s: State, k: (nat, nat)): nat {
    if PinnedPage(s, k) then 0 else 1
  }

  /** A fetch of page k finds the pool full, after n more entries were pinned. */
  ghost predicate NoRoom(s: State, n: nat, k: (nat, nat)) {
    !PinnedPage(s, k) && |PoolLaws.PinnedEntries(s)| + n >= s.capacity
  }

  lemma AllPinnedCount(m: State)
    requires Core(m)
    ensures |PoolLaws.PinnedEntries(m)| <= m.capacity
    ensures AllEntriesPinned(m) <==> |PoolLaws.PinnedEntries(m)| == m.capacity
  {
    var all, pinned := PoolLaws.Below(|m.pages|), PoolLaws.PinnedEntries(m);
    SubsetSize(pinned, all);
    if |pinned| == |all| {
      forall q | 0 <= q < |m.pages| ensures m.pages[q].pins > 0 { assert q in all; }
    }
    if AllEntriesPinned(m) { assert pinned == all; }
  }

  lemma SubsetSize(a: set<nat>, b: set<nat>)
    requires a <= b
    ensures |a| <= |b| && (|a| == |b| ==> a == b)
  {
    assert b == a + (b - a);
  }

  /** The entry that caches page k for the operation was pinned before if and only
      if the page was. */
  lemma HeldBefore(s: State, m: State, t: nat, v: Volume, held: multiset<nat>, p: nat, id: nat)
    requires During(s, m, t, v, held) && Inv(s) && Caches(m, t, p, id)
    ensures p in PoolLaws.PinnedEntries(s) <==> PinnedPage(s, (m.txns[t].store, id))
  {
    var k := (m.txns[t].store, id);
    assert PageOk(m, p);
    if p in PoolLaws.PinnedEntries(s) {
      assert StaysBound(s, m, p) && PageOk(s, p);
    }
    if PinnedPage(s, k) {
      var q := s.pageMap[k];
      assert KeyOk(s, k) && StaysBound(s, m, q);
      assert PinsAre(s, m, held, q) && PageOk(m, q);
    }
  }

  /** The pinned entries are the former ones and those the operation holds. */
  lemma PinnedNow(s: State, m: State, t: nat, v: Volume, held: multiset<nat>, q: nat)
    requires During(s, m, t, v, held)
    ensures q in PoolLaws.PinnedEntries(m) <==> q in PoolLaws.PinnedEntries(s) || q in held
  {
    assert PinsAre(s, m, held, q);
  }

  /** In a full pool, a page that the operation does not hold is cached if and only
      if it was pinned before. */
  lemma CachedInFull(s: State, m: State, t: nat, v: Volume, held: multiset<nat>, id: nat)
    requires During(s, m, t, v, held) && Inv(s) && AllEntriesPinned(m)
    requires forall q :: q in held ==> !Caches(m, t, q, id)
    ensures (m.txns[t].store, id) in m.pageMap <==> PinnedPage(s, (m.txns[t].store, id))
  {
    var k := (m.txns[t].store, id);
    if k in m.pageMap {
      var q := m.pageMap[k];
      assert KeyOk(m, k) && q !in held;
      assert PinsAre(s, m, held, q);
      HeldBefore(s, m, t, v, held, q, id);
    }
    if PinnedPage(s, k) {
      var q := s.pageMap[k];
      assert KeyOk(s, k) && StaysBound(s, m, q);
      assert PinsAre(s, m, held, q) && PageOk(m, q);
    }
  }

  /** An operation that holds no entry finds as much room as when it began. */
  lemma SameRoom(s: State, m: State, t: nat, v: Volume, id: nat)
    requires During(s, m, t, v, multiset{}) && Inv(s)
    ensures var st := m.txns[t].store;
      FetchStatus(m, st, id, IgnorePageData, Success) == FetchStatus(s, st, id, IgnorePageData, Success)
  {
    forall q: nat ensures PinsAre(s, m, multiset{}, q) {}
    assert PoolLaws.PinnedEntries(m) == PoolLaws.PinnedEntries(s) by {
      forall q: nat ensures q in PoolLaws.PinnedEntries(m) <==> q in PoolLaws.PinnedEntries(s) {
        PinnedNow(s, m, t, v, multiset{}, q);
      }
    }
    AllPinnedCount(m);
    AllPinnedCount(s);
    if AllEntriesPinned(m) {
      CachedInFull(s, m, t, v, multiset{}, id);
      assert (m.txns[t].store, id) in s.pageMap ==> KeyOk(s, (m.txns[t].store, id));
    }
  }

  lemma PinnedSet(s: State, m: State, t: nat, v: Volume, held: multiset<nat>, more: set<nat>)
    requires During(s, m, t, v, held) && forall q :: q in held <==> q in more
    ensures PoolLaws.PinnedEntries(m) == PoolLaws.PinnedEntries(s) + more
  {
    var before, now := PoolLaws.PinnedEntries(s), PoolLaws.PinnedEntries(m);
    forall q: nat ensures q in now <==> q in before + more { PinnedNow(s, m, t, v, held, q); }
  }

  /** With one page held. */
  lemma RoomForSecond(s: State, m: State, t: nat, v: Volume, p: nat, head: nat, id: nat)
    requires During(s, m, t, v, multiset{p}) && Inv(s) && Caches(m, t, p, head) && id != head
    ensures var st := m.txns[t].store;
      (st, id) !in m.pageMap && AllEntriesPinned(m) <==> NoRoom(s, NewPins(s, (st, head)), (st, id))
  {
    HeldBefore(s, m, t, v, multiset{p}, p, head);
    PinnedSet(s, m, t, v, multiset{p}, {p});
    WithOne(PoolLaws.PinnedEntries(s), p);
    AllPinnedCount(m);
    if AllEntriesPinned(m) { CachedInFull(s, m, t, v, multiset{p}, id); }
  }

  lemma WithOne(s: set<nat>, p: nat)
    ensures |s + {p}| == |s| + if p in s then 0 else 1
  {
    if p in s { assert s + {p} == s; }
  }

  lemma WithTwo(s: set<nat>, p: nat, q: nat)
    requires p != q
    ensures |s + {p, q}| == |s| + (if p in s then 0 else 1) + (if q in s then 0 else 1)
  {
    assert s + {p, q} == (s + {p}) + {q};
    WithOne(s, p);
    WithOne(s + {p}, q);
  }

  lemma TwoNewPins(s: State, m: State, t: nat, v: Volume, p: nat, head: nat, q: nat, other: nat)
    requires During(s, m, t, v, multiset{p} + multiset{q}) && Inv(s)
    requires Caches(m, t, p, head) && Caches(m, t, q, other) && head != other
    ensures var st := m.txns[t].store;
      |PoolLaws.PinnedEntries(m)| ==
      |PoolLaws.PinnedEntries(s)| + (NewPins(s, (st, head)) + NewPins(s, (st, other)))
  {
    var held := multiset{p} + multiset{q};
    HeldBefore(s, m, t, v, held, p, head);
    HeldBefore(s, m, t, v, held, q, other);
    PinnedSet(s, m, t, v, held, {p, q});
    WithTwo(PoolLaws.PinnedEntries(s), p, q);
  }

  /** With two pages held. */
  lemma RoomForThird(s: State, m: State, t: nat, v: Volume, p: nat, head: nat, q: nat, other: nat, id: nat)
    requires During(s, m, t, v, multiset{p} + multiset{q}) && Inv(s)
    requires Caches(m, t, p, head) && Caches(m, t, q, other) && head != other && id != head && id != other
    ensures var st := m.txns[t].store; var n := NewPins(s, (st, head)) + NewPins(s, (st, other));
      (st, id) !in m.pageMap && AllEntriesPinned(m) <==> NoRoom(s, n, (st, id))
  {
    TwoNewPins(s, m, t, v, p, head, q, other);
    AllPinnedCount(m);
    if AllEntriesPinned(m) { CachedInFull(s, m, t, v, multiset{p} + multiset{q}, id); }
  }

  // ---------------------------------------------------------------------
  // The fetches of Merge

  /** The first fetch succeeded: what the operation holds then. */
  lemma FirstFetched(s: State, t: nat, head: nat, read: Status, files: Files) returns (p: nat)
    requires CanWrite(s, t) && Reliable(s, t, files)
    requires FetchStatus(s, s.txns[t].store, head, FetchPageData, read) == Success
    ensures var m := AfterFetch(s, t, head, read, files);
      During(s, m, t, Vol(s, s.txns[t].store), multiset{p}) && Caches(m, t, p, head)
  {
    var v := Vol(s, s.txns[t].store);
    DuringStart(s, t);
    DuringCanFetch(s, s, t, v, multiset{}, head, read, files);
    DuringFetch(s, s, t, v, multiset{}, head, Answer(s, read, files));
    p := StorePage(s, s.txns[t].store, head, FetchPageData, Answer(s, read, files)).2.value;
    assert multiset{} + multiset{p} == multiset{p};
  }

  /** The second fetch of Merge finds the pool full if and only if its page is not
      pinned and the pinned entries, with the head page, are as many as the pool
      may have. */
  lemma SecondFetch(s: State, t: nat, head: nat, other: nat, read: Status, read2: Status, files: Files)
    requires CanWrite(s, t) && Reliable(s, t, files) && head != other
    requires FetchStatus(s, s.txns[t].store, head, FetchPageData, read) == Success
    ensures var st := s.txns[t].store; var m := AfterFetch(s, t, head, read, files);
      FetchStatus(m, st, other, FetchPageData, read2) ==
        if NoRoom(s, NewPins(s, (st, head)), (st, other)) then PoolFull
        else if (st, other) in m.pageMap then Success else read2
  {
    var p := FirstFetched(s, t, head, read, files);
    RoomForSecond(s, AfterFetch(s, t, head, read, files), t, Vol(s, s.txns[t].store), p, head, other);
  }

  /** The third fetch of Merge, with both head pages held. */
  lemma ThirdFetch(s: State, t: nat, head: nat, other: nat, tail: nat,
                   read: Status, read2: Status, read3: Status, files: Files)
    requires CanWrite(s, t) && Reliable(s, t, files) && head != other && tail != head && tail != other
    requires FetchStatus(s, s.txns[t].store, head, FetchPageData, read) == Success
    requires FetchStatus(AfterFetch(s, t, head, read, files), s.txns[t].store, other, FetchPageData, read2) == Success
    ensures var st := s.txns[t].store; var m := AfterFetch(AfterFetch(s, t, head, read, files), t, other, read2, files);
      FetchStatus(m, st, tail, FetchPageData, read3) ==
        if NoRoom(s, NewPins(s, (st, head)) + NewPins(s, (st, other)), (st, tail)) then PoolFull
        else if (st, tail) in m.pageMap then Success else read3
  {
    var p := FirstFetched(s, t, head, read, files);
    var v, m := Vol(s, s.txns[t].store), AfterFetch(s, t, head, read, files);
    DuringCanFetch(s, m, t, v, multiset{p}, other, read2, files);
    DuringFetch(s, m, t, v, multiset{p}, other, Answer(m, read2, files));
    var q := StorePage(m, m.txns[t].store, other, FetchPageData, Answer(m, read2, files)).2.value;
    RoomForThird(s, AfterFetch(m, t, other, read2, files), t, v, p, head, q, other, tail);
  }
}
