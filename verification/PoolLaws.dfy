/** What the invariant means for the users of a page pool. */
module PoolLaws {
  import opened Lists
  import opened PoolModel
  import opened PoolSteps
  import opened PoolOps
  import opened PoolClose
  import opened PoolFetch
  import opened PoolRuns

  ghost function Below(n: nat): (r: set<nat>)
    ensures |r| == n
    ensures forall q :: q in r <==> 0 <= q < n
  {
    if n == 0 then {} else Below(n - 1) + {n - 1}
  }

  ghost function PinnedEntries(s: State): set<nat> {
    set q | 0 <= q < |s.pages| && s.pages[q].pins > 0
  }

  lemma FreeNoDup(s: State)
    requires Core(s)
    ensures NoDup(s.free)
  {
    forall i, j | 0 <= i < j < |s.free| ensures s.free[i] != s.free[j] { assert FreeAt(s, j); }
  }

  /** Each entry is in the free list, in the LRU list, or pinned, and in one of them only. */
  lemma Partition(s: State)
    requires Inv(s)
    ensures Elems(s.free) !! Elems(s.lru) !! PinnedEntries(s)
    ensures Elems(s.free) + Elems(s.lru) + PinnedEntries(s) == Below(|s.pages|)
  {
    forall q | q in s.free ensures q < |s.pages| && q !in s.lru && q !in PinnedEntries(s) {
      var i :| 0 <= i < |s.free| && s.free[i] == q;
      assert FreeAt(s, i) && PageOk(s, q);
    }
    forall q | q in s.lru ensures q < |s.pages| && q !in PinnedEntries(s) {
      var i :| 0 <= i < |s.lru| && s.lru[i] == q;
      assert LruAt(s, i) && PageOk(s, q);
    }
    forall q | 0 <= q < |s.pages| ensures q in s.free || q in s.lru || q in PinnedEntries(s) {
      assert PageOk(s, q);
    }
  }

  lemma ThreeParts(a: set<nat>, b: set<nat>, c: set<nat>)
    requires a !! b !! c
    ensures |a + b + c| == |a| + |b| + |c|
  {
    assert (a + b) !! c;
  }

  /** pinned_pages() counts exactly the pinned entries, so it never underflows,
      and allocated_pages() never exceeds the capacity. */
  lemma PageCounters(s: State)
    requires Inv(s)
    ensures |s.free| + |s.lru| + |PinnedEntries(s)| == |s.pages| <= s.capacity
  {
    Partition(s);
    ThreeParts(Elems(s.free), Elems(s.lru), PinnedEntries(s));
    FreeNoDup(s);
    SetOfSize(s.free);
    LruNoDup(s);
    SetOfSize(s.lru);
  }

  /** An entry that is neither assigned nor pinned. */
  ghost predicate Unused(s: State, q: nat) {
    q < |s.pages| && s.pages[q].owner.None? && s.pages[q].pins == 0
  }

  /** An entry that becomes unused has the latest stamp of all entries. */
  lemma FreeingPolicy(s: State, p: nat, q: nat)
    requires Inv(s) && p < |s.pages| && s.pages[p].owner.None? && s.pages[p].pins == 1
    requires q < |s.pages| && q != p
    ensures var r := UnpinUnassigned(s, p);
      Unused(r, p) && r.pages[q] == s.pages[q] && r.pages[q].stamp < r.pages[p].stamp
  {
    assert PageOk(s, q);
  }

  /** AllocPage hands out, of all unused entries, the one that became unused first. */
  lemma ReuseOrder(s: State, io: Io, q: nat)
    requires Inv(s) && Unused(s, q)
    ensures var (_, p) := AllocPage(s, io);
      p.Some? && Unused(s, p.value) && (q == p.value || s.pages[p.value].stamp < s.pages[q].stamp)
  {
    assert PageOk(s, q);
    var i :| 0 <= i < |s.free| && s.free[i] == q;
    assert FreeAt(s, i) && FreeAt(s, 0) && PageOk(s, s.free[0]) && s.free[0] in s.free;
  }

  /** The pool grows only if no entry is unused, by one entry and within its
      capacity. An entry loses its page only if, in addition, the pool may not grow. */
  lemma AllocationOrder(s: State, io: Io, q: nat)
    requires Inv(s) && EvictionSafe(s, io)
    ensures var (r, _) := AllocPage(s, io);
      && (|r.pages| != |s.pages| ==> !Unused(s, q) && |r.pages| == |s.pages| + 1 <= s.capacity)
      && (q < |s.pages| && s.pages[q].owner.Some? && r.pages[q].owner != s.pages[q].owner ==>
            |s.pages| == s.capacity && s.pages[q].pins == 0 && forall x: nat :: !Unused(s, x))
  {
    if s.free != [] {
      TakeFreeKeeps(s);
    } else {
      forall x: nat | x < |s.pages| ensures !Unused(s, x) { assert PageOk(s, x); }
      if MustEvict(s) {
        PinVictim(s);
        if EvictionCloses(s, io) { EvictClosing(s, io); } else { EvictQuietly(s, io); }
        AllocTheorem(s, io);
      }
    }
  }

  /** The entry AllocPage evicts comes first among all candidates: the entry that
      was discarded last, if any was, and else the one unpinned longest ago. */
  lemma EvictionPolicy(s: State, io: Io, q: nat)
    requires Inv(s) && MustEvict(s)
    requires q < |s.pages| && s.pages[q].pins == 0 && q != s.lru[0]
    ensures s.lru[0] < |s.pages| && AllocPage(s, io).1 == Some(s.lru[0])
    ensures s.pages[s.lru[0]].stamp < s.pages[q].stamp
  {
    assert PageOk(s, q);
    var j :| 0 <= j < |s.lru| && s.lru[j] == q;
    assert LruAt(s, j) && LruAt(s, 0);
  }

  /** The last pin gone, an entry is the next victim or the last one. */
  lemma UnpinPolicy(s: State, p: nat, mode: UnpinMode, q: nat)
    requires Inv(s) && p < |s.pages| && s.pages[p].owner.Some? && s.pages[p].pins == 1 && !s.pages[p].stale
    requires q < |s.pages| && s.pages[q].pins == 0 && s.pages[q].owner.Some?
    ensures var r := Unpin(s, p, mode);
      if mode == CachePage then r.pages[q].stamp < r.pages[p].stamp else r.pages[p].stamp < r.pages[q].stamp
  {
    assert PageOk(s, q);
  }

  // ---------------------------------------------------------------------
  // Every reachable state

  ghost predicate Maps(s: State, k: (nat, nat), p: nat) {
    k in s.pageMap && s.pageMap[k] == p
  }

  ghost predicate CachesPage(s: State, k: (nat, nat), p: nat) {
    Assigned(s, p) && KeyOf(s, p) == k
  }

  /** The page map relates keys and assigned entries one to one. */
  lemma PageMapLaw(s: State, k: (nat, nat), p: nat)
    requires Inv(s)
    ensures Maps(s, k, p) <==> CachesPage(s, k, p)
  {
    if Maps(s, k, p) { assert KeyOk(s, k); }
    if CachesPage(s, k, p) { assert PageOk(s, p); }
  }

  ghost predicate InList(s: State, t: nat, p: nat) {
    t < |s.lists| && p in s.lists[t]
  }

  ghost predicate Owns(s: State, t: nat, p: nat) {
    t < |s.lists| && p < |s.pages| && s.pages[p].owner == Some(t)
  }

  /** A transaction lists exactly the entries assigned to it, each once. They are
      dirty if and only if it is not an init transaction. */
  lemma OwnershipLaw(s: State, t: nat, p: nat)
    requires Inv(s)
    ensures InList(s, t, p) <==> Owns(s, t, p)
    ensures t < |s.lists| ==> NoDup(s.lists[t])
    ensures Owns(s, t, p) ==> t < |s.txns| && (s.pages[p].dirty <==> !s.txns[t].isInit)
  {
    if t < |s.lists| { assert ListOk(s, t); }
    if Owns(s, t, p) { assert PageOk(s, p); }
  }

  ghost predicate CleanCopy(s: State, k: (nat, nat), p: nat) {
    CachesPage(s, k, p) && !s.pages[p].dirty && !s.pages[p].stale
  }

  ghost predicate Mirrored(s: State, k: (nat, nat), p: nat) {
    k.0 < |s.disks| && p < |s.pages| && s.pages[p].data == DiskBlock(s, k) == View(s, k)
  }

  /** A clean entry that nobody has to overwrite equals its block. */
  lemma CleanLaw(s: State, k: (nat, nat), p: nat)
    requires Inv(s) && CleanCopy(s, k, p)
    ensures Mirrored(s, k, p)
  {
    assert PageOk(s, p);
  }

  ghost predicate Evictable(s: State, q: nat) {
    q < |s.pages| && s.pages[q].owner.Some? && s.pages[q].pins == 0
  }

  ghost predicate NotLater(s: State, p: nat, q: nat) {
    p < |s.pages| && q < |s.pages| && (p == q || s.pages[p].stamp < s.pages[q].stamp)
  }

  /** The heads of the two lists are the first of the entries that belong there. */
  lemma OrderLaw(s: State, q: nat)
    requires Inv(s)
    ensures Evictable(s, q) ==> s.lru != [] && NotLater(s, s.lru[0], q)
    ensures Unused(s, q) ==> s.free != [] && NotLater(s, s.free[0], q)
  {
    if q < |s.pages| {
      assert PageOk(s, q);
      if Evictable(s, q) {
        var i :| 0 <= i < |s.lru| && s.lru[i] == q;
        assert LruAt(s, i) && LruAt(s, 0);
      }
      if Unused(s, q) {
        var i :| 0 <= i < |s.free| && s.free[i] == q;
        assert FreeAt(s, i) && FreeAt(s, 0);
      }
    }
  }

  /** All of this holds after any run of a new pool, whatever writes fail. */
  lemma ReachableStates(capacity: nat, pageSize: nat, run: seq<Event>)
    requires (EmptyInv(capacity, pageSize); Legal(Empty(capacity, pageSize), run))
    ensures var s := After(Empty(capacity, pageSize), run);
      && Inv(s) && s.capacity == capacity && s.pageSize == pageSize
      && Elems(s.free) !! Elems(s.lru) !! PinnedEntries(s)
      && Elems(s.free) + Elems(s.lru) + PinnedEntries(s) == Below(|s.pages|)
      && |s.free| + |s.lru| + |PinnedEntries(s)| == |s.pages| <= s.capacity
      && (forall k: (nat, nat), p: nat :: Maps(s, k, p) <==> CachesPage(s, k, p))
      && (forall k: (nat, nat), p: nat :: CleanCopy(s, k, p) ==> Mirrored(s, k, p))
      && (forall t: nat, p: nat :: InList(s, t, p) <==> Owns(s, t, p))
      && (forall t: nat, p: nat :: Owns(s, t, p) ==> (s.pages[p].dirty <==> t < |s.txns| && !s.txns[t].isInit))
      && (forall t: nat :: t < |s.lists| ==> NoDup(s.lists[t]))
      && (forall q: nat :: Evictable(s, q) ==> s.lru != [] && NotLater(s, s.lru[0], q))
      && (forall q: nat :: Unused(s, q) ==> s.free != [] && NotLater(s, s.free[0], q))
  {
    RunInv(Empty(capacity, pageSize), run);
    RunSizes(Empty(capacity, pageSize), run);
    var s := After(Empty(capacity, pageSize), run);
    Partition(s);
    PageCounters(s);
    forall k: (nat, nat), p: nat ensures Maps(s, k, p) <==> CachesPage(s, k, p) { PageMapLaw(s, k, p); }
    forall k: (nat, nat), p: nat | CleanCopy(s, k, p) ensures Mirrored(s, k, p) { CleanLaw(s, k, p); }
    forall t: nat, p: nat
      ensures InList(s, t, p) <==> Owns(s, t, p)
      ensures Owns(s, t, p) ==> (s.pages[p].dirty <==> t < |s.txns| && !s.txns[t].isInit)
    {
      OwnershipLaw(s, t, p);
    }
    forall t: nat | t < |s.lists| ensures NoDup(s.lists[t]) { OwnershipLaw(s, t, 0); }
    forall q: nat
      ensures Evictable(s, q) ==> s.lru != [] && NotLater(s, s.lru[0], q)
      ensures Unused(s, q) ==> s.free != [] && NotLater(s, s.free[0], q)
    {
      OrderLaw(s, q);
    }
  }

  // ---------------------------------------------------------------------
  // The end of a pool's life

  /** No entry of the pool is pinned. */
  ghost predicate AllUnpinned(s: State) {
    forall q :: 0 <= q < |s.pages| ==> s.pages[q].pins == 0
  }

  /** The loop of PoolImpl's destructor, in whatever order it visits the stores. */
  ghost function CloseAll(s: State, order: seq<nat>, fails: set<nat>): State
    requires Inv(s) && AllUnpinned(s) && forall i :: 0 <= i < |order| ==> order[i] < |s.stores|
    decreases |order|
  {
    if order == [] then s
    else
      CloseOne(s, order[0], fails);
      CloseAll(CloseStore(s, order[0], fails), order[1..], fails)
  }

  lemma CloseOne(s: State, st: nat, fails: set<nat>)
    requires Inv(s) && AllUnpinned(s) && st < |s.stores|
    ensures StoreLife(s, st)
    ensures var r := CloseStore(s, st, fails);
      && Inv(r) && AllUnpinned(r) && |r.pages| == |s.pages| && |r.stores| == |s.stores|
      && r.stores[st].phase == Closed
      && (forall x :: 0 <= x < |s.stores| && x != st ==> r.stores[x] == s.stores[x])
  {
    assert StoreLife(s, st);
    if s.stores[st].phase == Open {
      CloseStoreTheorem(s, st, fails);
      var r := CloseStore(s, st, fails);
      forall q | 0 <= q < |r.pages| ensures r.pages[q].pins == 0 {
        assert PageReleased(s, r, StoreEntries(s, st), q);
      }
    }
  }

  lemma {:induction false} CloseAllPhases(s: State, order: seq<nat>, fails: set<nat>)
    requires Inv(s) && AllUnpinned(s) && forall i :: 0 <= i < |order| ==> order[i] < |s.stores|
    ensures var r := CloseAll(s, order, fails);
      && Inv(r) && AllUnpinned(r) && |r.pages| == |s.pages| && |r.stores| == |s.stores|
      && (forall x :: 0 <= x < |s.stores| ==>
            if x in order then r.stores[x].phase == Closed else r.stores[x] == s.stores[x])
    decreases |order|
  {
    if order != [] {
      CloseOne(s, order[0], fails);
      var m := CloseStore(s, order[0], fails);
      CloseAllPhases(m, order[1..], fails);
      assert order == [order[0]] + order[1..];
      if order[0] in order[1..] {} else {}
    }
  }

  /** Entries are assigned to open stores only. */
  lemma OwnerIsOpen(s: State, q: nat)
    requires Inv(s) && q < |s.pages|
    ensures s.pages[q].owner.Some? ==> Assigned(s, q) && s.stores[KeyOf(s, q).0].phase == Open
  {
    assert PageOk(s, q);
    if s.pages[q].owner.Some? {
      var t := s.pages[q].owner.value;
      assert TxnLife(s, t) && TxnOk(s.txns, s.stores, t) && StoreLife(s, s.txns[t].store);
    }
  }

  lemma EmptyLru(s: State)
    requires Inv(s)
    ensures (forall q :: 0 <= q < |s.pages| ==> s.pages[q].owner.None?) ==> s.lru == [] && s.pageMap == map[]
  {
    if s.lru != [] {
      assert LruAt(s, 0) && s.lru[0] in s.lru && PageOk(s, s.lru[0]);
    }
    if k :| k in s.pageMap { assert KeyOk(s, k); }
  }

  /** When nobody holds a pin, closing every open store, in any order and
      whatever writes fail, leaves no pinned entry and every allocated entry
      unused, as the destructor of the pool expects. */
  lemma EndOfLife(s: State, order: seq<nat>, fails: set<nat>)
    requires Inv(s) && AllUnpinned(s)
    requires forall i :: 0 <= i < |order| ==> order[i] < |s.stores|
    requires forall st :: 0 <= st < |s.stores| && s.stores[st].phase == Open ==> st in order
    ensures var r := CloseAll(s, order, fails);
      && PinnedEntries(r) == {}
      && |r.pages| == |r.free| && r.pageMap == map[]
  {
    CloseAllPhases(s, order, fails);
    var r := CloseAll(s, order, fails);
    forall st | 0 <= st < |r.stores| ensures r.stores[st].phase == Closed { assert StoreLife(r, st); }
    forall q | 0 <= q < |r.pages| ensures r.pages[q].owner.None? && q in r.free {
      OwnerIsOpen(r, q);
      assert PageOk(r, q);
    }
    PageCounters(r);
    EmptyLru(r);
  }
}
