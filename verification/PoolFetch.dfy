/** Allocating entries and fetching store pages. */
module PoolFetch {
  import opened Bytes
  import opened Lists
  import opened StatusCodes
  import opened PoolModel
  import opened PoolSteps
  import opened PoolOps
  import opened PoolClose
  import opened PoolReentry

  /** PagePool::AllocPage; the victim is the front of the LRU list. */
  ghost function AllocPage(s: State, io: Io): (State, Option<nat>)
    requires Inv(s)
  {
    if s.free != [] then
      TakeFreeKeeps(s);
      (TakeFree(s), Some(s.free[0]))
    else if |s.pages| < s.capacity then
      (Create(s), Some(|s.pages|))
    else if s.lru != [] then
      var p := s.lru[0];
      PinVictim(s);
      (UnassignPageFromStore(Pin(s, p), p, io.writeOk, io.fails), Some(p))
    else (s, None)
  }

  lemma SameLifeInv(s: State, r: State)
    requires Inv(s) && Core(r) && r.txns == s.txns && r.stores == s.stores
    requires forall t :: 0 <= t < |s.lists| && s.lists[t] == [] && s.txns[t].closed ==> r.lists[t] == []
    ensures Inv(r)
  {
    forall t | 0 <= t < |r.txns| ensures TxnLife(r, t) { assert TxnLife(s, t); }
    forall st | 0 <= st < |r.stores| ensures StoreLife(r, st) { assert StoreLife(s, st); }
  }

  lemma PinVictim(s: State)
    requires Inv(s) && s.lru != []
    ensures LruAt(s, 0) && PageOk(s, s.lru[0]) && s.pages[s.lru[0]].owner.Some?
    ensures var r := Pin(s, s.lru[0]);
      && Inv(r) && SameView(s, r) && r.lru == s.lru[1..]
      && Assigned(r, s.lru[0]) && Closable(r, KeyOf(r, s.lru[0]).0)
  {
    assert LruAt(s, 0);
    assert PageOk(s, s.lru[0]) && s.lru[0] in s.lru;
    PinKeeps(s, s.lru[0]);
    RemoveHead(s.lru);
    SameLifeInv(s, Pin(s, s.lru[0]));
    assert PageOk(Pin(s, s.lru[0]), s.lru[0]);
    InvClosable(Pin(s, s.lru[0]), KeyOf(s, s.lru[0]).0);
  }

  /** Unassign on a pinned entry keeps the invariant between operations. */
  lemma UnassignInv(s: State, p: nat, ok: bool)
    requires Inv(s) && p < |s.pages| && s.pages[p].owner.Some? && s.pages[p].pins > 0
    ensures PageOk(s, p) && Inv(Unassign(s, p, ok))
  {
    UnassignKeeps(s, p, ok);
    SameLifeInv(s, Unassign(s, p, ok));
  }

  /** Whether AllocPage has to evict an entry. */
  predicate MustEvict(s: State) {
    s.free == [] && |s.pages| >= s.capacity && s.lru != []
  }

  /** The eviction fails to write its victim back, and so closes a store. */
  ghost predicate EvictionCloses(s: State, io: Io) {
    MustEvict(s) && Assigned(s, s.lru[0]) && s.pages[s.lru[0]].dirty && !io.writeOk
  }

  /** If the eviction closes a store, nobody holds a pin on the store's entries. */
  ghost predicate EvictionSafe(s: State, io: Io) {
    EvictionCloses(s, io) ==> StoreIdle(s, KeyOf(s, s.lru[0]).0)
  }

  /** An entry that was evicted by the caller's allocation. */
  function Evicted(e: PageRec): PageRec {
    e.(owner := None, dirty := false, stale := false, pins := 1)
  }

  lemma UnassignedPages(s: State, p: nat, ok: bool)
    requires Core(s) && p < |s.pages| && s.pages[p].owner.Some? && s.pages[p].pins == 0
    ensures PageOk(s, p) && Assigned(Pin(s, p), p)
    ensures var r := Unassign(Pin(s, p), p, ok);
      && |r.pages| == |s.pages| && r.pages[p] == Evicted(s.pages[p])
      && (forall q :: 0 <= q < |s.pages| && q != p ==> r.pages[q] == s.pages[q])
  {
    assert PageOk(s, p);
  }

  lemma EvictQuietly(s: State, io: Io)
    requires Inv(s) && MustEvict(s) && !EvictionCloses(s, io)
    ensures var p := s.lru[0]; var (r, _) := AllocPage(s, io);
      && LruAt(s, 0) && Inv(r) && SameLife(s, r) && SameView(s, r)
      && |r.pages| == |s.pages| && r.pages[p] == Evicted(s.pages[p])
      && (forall q :: 0 <= q < |s.pages| && q != p ==> r.pages[q] == s.pages[q])
  {
    var p := s.lru[0];
    PinVictim(s);
    UnassignKeeps(Pin(s, p), p, io.writeOk);
    UnassignInv(Pin(s, p), p, io.writeOk);
    UnassignedPages(s, p, io.writeOk);
  }

  /** The state in which a failed write-back of the victim closes its store. */
  ghost function Orphaned(s: State): State
    requires Inv(s) && s.lru != []
  {
    PinVictim(s);
    Unassign(Pin(s, s.lru[0]), s.lru[0], false)
  }

  lemma OrphanedInv(s: State, io: Io)
    requires Inv(s) && EvictionCloses(s, io)
    ensures var u := Orphaned(s); var st := KeyOf(s, s.lru[0]).0;
      && Inv(u) && u.stores == s.stores && u.txns == s.txns && u.stores[st].phase == Open
  {
    var p := s.lru[0];
    var st := KeyOf(s, p).0;
    PinVictim(s);
    UnassignInv(Pin(s, p), p, false);
    var t := s.pages[p].owner.value;
    assert StoreLife(s, st) && PageOk(s, p) && TxnLife(s, t) && TxnOk(s.txns, s.stores, t);
    assert t in s.stores[st].txns;
  }

  lemma OrphanedStore(s: State, io: Io)
    requires Inv(s) && EvictionCloses(s, io) && EvictionSafe(s, io)
    ensures var u := Orphaned(s); var st := KeyOf(s, s.lru[0]).0;
      && Inv(u) && StoreLife(u, st) && u.stores == s.stores && u.txns == s.txns
      && u.stores[st].phase == Open && StoreIdle(u, st)
      && StoreEntries(u, st) == StoreEntries(s, st) - {s.lru[0]}
  {
    OrphanedInv(s, io);
    OrphanedPages(s);
    var u := Orphaned(s);
    var st := KeyOf(s, s.lru[0]).0;
    assert StoreLife(u, st);
    assert StoreEntries(u, st) == StoreEntries(s, st) - {s.lru[0]};
  }

  lemma OrphanedPages(s: State)
    requires Inv(s) && s.lru != []
    ensures var u := Orphaned(s); var p := s.lru[0];
      && |u.pages| == |s.pages| && p < |s.pages| && u.pages[p] == Evicted(s.pages[p])
      && (forall q :: 0 <= q < |s.pages| && q != p ==> u.pages[q] == s.pages[q])
      && (forall k :: k in u.pageMap ==> k in s.pageMap)
  {
    PinVictim(s);
  }

  lemma EvictClosing(s: State, io: Io)
    requires Inv(s) && EvictionCloses(s, io) && EvictionSafe(s, io)
    ensures var p := s.lru[0]; var (r, _) := AllocPage(s, io);
      var st := KeyOf(s, p).0;
      && Inv(r)
      && r.stores == s.stores[st := s.stores[st].(phase := Closed, txns := [])]
      && |r.pages| == |s.pages| && r.pages[p] == Evicted(s.pages[p])
      && (forall q :: 0 <= q < |s.pages| && q != p ==>
            r.pages[q] == if q in StoreEntries(s, st) then Freed(s.pages[q], r.pages[q].stamp) else s.pages[q])
      && SameStores(s, r) && (forall k :: k in r.pageMap ==> k in s.pageMap)
  {
    var st := KeyOf(s, s.lru[0]).0;
    OrphanedStore(s, io);
    OrphanedPages(s);
    PinVictim(s);
    var u := Orphaned(s);
    CloseStoreTheorem(u, st, io.fails);
    var r := CloseStore(u, st, io.fails);
    forall q | 0 <= q < |s.pages|
      ensures r.pages[q] == if q in StoreEntries(u, st) then Freed(u.pages[q], r.pages[q].stamp) else u.pages[q]
    {
      assert PageReleased(u, r, StoreEntries(u, st), q);
    }
    forall k | k in r.pageMap ensures k in s.pageMap {
      assert KeyReleased(u, r, StoreEntries(u, st), io.fails, k);
    }
  }

  /** No pinned entry changes. */
  ghost predicate PinnedStay(s: State, r: State) {
    |s.pages| <= |r.pages| &&
    forall q :: 0 <= q < |s.pages| && s.pages[q].pins > 0 ==> r.pages[q] == s.pages[q]
  }

  ghost predicate AllEntriesPinned(s: State) {
    |s.pages| == s.capacity && forall q :: 0 <= q < |s.pages| ==> s.pages[q].pins > 0
  }

  lemma PoolFullMeans(s: State)
    requires Inv(s)
    ensures s.free == [] && |s.pages| >= s.capacity && s.lru == [] <==> AllEntriesPinned(s)
  {
    if s.free == [] && |s.pages| >= s.capacity && s.lru == [] {
      forall q | 0 <= q < |s.pages| ensures s.pages[q].pins > 0 { assert PageOk(s, q); }
    }
    if s.free != [] {
      assert FreeAt(s, 0) && PageOk(s, s.free[0]) && s.free[0] in s.free;
    } else if s.lru != [] {
      assert LruAt(s, 0) && PageOk(s, s.lru[0]) && s.lru[0] in s.lru;
    }
  }

  /** AllocPage fails exactly when every one of the pool's entries is pinned.
      Otherwise it hands out an unassigned entry that nobody else has pinned,
      and no entry that was pinned before changes. */
  lemma AllocTheorem(s: State, io: Io)
    requires Inv(s) && EvictionSafe(s, io)
    ensures var (r, p) := AllocPage(s, io);
      && Inv(r) && PinnedStay(s, r) && SameStores(s, r) && |s.stores| == |r.stores|
      && (forall k :: k in r.pageMap ==> k in s.pageMap)
      && (p.None? <==> AllEntriesPinned(s))
      && (p.None? ==> r == s)
      && (p.Some? ==>
            && p.value < |r.pages| && r.pages[p.value].owner.None? && r.pages[p.value].pins == 1
            && (p.value < |s.pages| ==> s.pages[p.value].pins == 0))
      && (!EvictionCloses(s, io) ==> SameLife(s, r) && SameView(s, r))
      && (EvictionCloses(s, io) ==>
            r.stores == s.stores[KeyOf(s, s.lru[0]).0 :=
              s.stores[KeyOf(s, s.lru[0]).0].(phase := Closed, txns := [])])
  {
    PoolFullMeans(s);
    if s.free != [] {
      TakeFreeKeeps(s);
      SameLifeInv(s, TakeFree(s));
    } else if |s.pages| < s.capacity {
      CreateKeeps(s);
      SameLifeInv(s, Create(s));
    } else if s.lru != [] {
      PinVictim(s);
      if EvictionCloses(s, io) { EvictClosing(s, io); } else { EvictQuietly(s, io); }
    }
  }

  /** The second half of PagePool::StorePage, on the allocated entry. */
  ghost function FinishFetch(a: State, p: nat, st: nat, id: nat, mode: FetchMode, read: Status)
    : (State, Status, Option<nat>)
    requires p < |a.pages| && a.pages[p].pins > 0
    requires st < |a.stores| && st < |a.disks| && a.stores[st].init < |a.lists|
  {
    if mode == FetchPageData && read != Success then
      (UnpinUnassigned(Relabel(a, p, id), p), read, None)
    else if mode == FetchPageData then
      (Assign(a, p, st, id, DiskBlock(a, (st, id)), false), Success, Some(p))
    else
      (Assign(a, p, st, id, Filled(a.pageSize, 0xCD), true), Success, Some(p))
  }

  /** PagePool::StorePage */
  ghost function StorePage(s: State, st: nat, id: nat, mode: FetchMode, io: Io): (State, Status, Option<nat>)
    requires Inv(s) && EvictionSafe(s, io) && st < |s.stores|
  {
    if (st, id) in s.pageMap then
      assert KeyOk(s, (st, id));
      (Pin(s, s.pageMap[(st, id)]), Success, Some(s.pageMap[(st, id)]))
    else
      AllocTheorem(s, io);
      var (a, p) := AllocPage(s, io);
      assert StoreOk(a.txns, a.stores, st);
      if p.None? then (a, PoolFull, None) else FinishFetch(a, p.value, st, id, mode, io.read)
  }

  /** An eviction of this fetch would close the very store it fetches from. */
  ghost predicate ClosesItself(s: State, st: nat, id: nat, io: Io) {
    (st, id) !in s.pageMap && EvictionCloses(s, io) && KeyOf(s, s.lru[0]).0 == st
  }

  lemma FetchCached(s: State, st: nat, id: nat, mode: FetchMode, io: Io)
    requires Inv(s) && EvictionSafe(s, io) && st < |s.stores| && (st, id) in s.pageMap
    ensures var (r, status, p) := StorePage(s, st, id, mode, io);
      && Inv(r) && Kept(s, r) && r.pageMap == s.pageMap && p.value < |s.pages|
      && r.pages == s.pages[p.value := s.pages[p.value].(pins := s.pages[p.value].pins + 1)]
      && Assigned(r, p.value) && KeyOf(r, p.value) == (st, id)
  {
    assert KeyOk(s, (st, id)) && PageOk(s, s.pageMap[(st, id)]);
    PinKeeps(s, s.pageMap[(st, id)]);
    SameLifeInv(s, Pin(s, s.pageMap[(st, id)]));
  }

  ghost predicate CanFetch(s: State, st: nat, id: nat, io: Io) {
    Inv(s) && EvictionSafe(s, io) && st < |s.stores| &&
    s.stores[st].phase == Open && !ClosesItself(s, st, id, io)
  }

  /** The last step of a fetch, on the freshly allocated entry. */
  lemma FetchInto(a: State, p: nat, st: nat, id: nat, mode: FetchMode)
    requires Inv(a) && st < |a.stores| && a.stores[st].phase == Open && (st, id) !in a.pageMap
    requires p < |a.pages| && a.pages[p].owner.None? && a.pages[p].pins == 1
    ensures StoreOk(a.txns, a.stores, st) && st < |a.disks|
    ensures
      var data := if mode == FetchPageData then DiskBlock(a, (st, id)) else Filled(a.pageSize, 0xCD);
      var r := Assign(a, p, st, id, data, mode == IgnorePageData);
      && Inv(r) && SameLife(a, r) && SameView(a, r)
      && Assigned(r, p) && KeyOf(r, p) == (st, id) && r.pages[p].pins == 1
      && (r.pages[p].stale <==> mode == IgnorePageData)
      && (r.pages[p].stale || r.pages[p].data == View(r, (st, id)))
  {
    assert StoreOk(a.txns, a.stores, st) && StoreLife(a, st) && TxnOk(a.txns, a.stores, a.stores[st].init);
    assert DiskOk(a.disks[st], a.pageSize);
    var data := if mode == FetchPageData then DiskBlock(a, (st, id)) else Filled(a.pageSize, 0xCD);
    AssignKeeps(a, p, st, id, data, mode == IgnorePageData);
    SameLifeInv(a, Assign(a, p, st, id, data, mode == IgnorePageData));
  }

  lemma FetchFails(a: State, p: nat, id: nat)
    requires Inv(a) && p < |a.pages| && a.pages[p].owner.None? && a.pages[p].pins > 0
    ensures var r := UnpinUnassigned(Relabel(a, p, id), p);
      Inv(r) && SameLife(a, r) && SameView(a, r)
  {
    RelabelKeeps(a, p, id);
    UnpinUnassignedKeeps(Relabel(a, p, id), p);
    SameLifeInv(a, UnpinUnassigned(Relabel(a, p, id), p));
  }

  /** The second half of a fetch keeps the invariants, the tables and the view. */
  lemma FinishKeeps(a: State, p: nat, st: nat, id: nat, mode: FetchMode, read: Status)
    requires Inv(a) && st < |a.stores| && a.stores[st].phase == Open && (st, id) !in a.pageMap
    requires p < |a.pages| && a.pages[p].owner.None? && a.pages[p].pins == 1
    ensures StoreOk(a.txns, a.stores, st) && st < |a.disks|
    ensures var (r, status, x) := FinishFetch(a, p, st, id, mode, read);
      && Inv(r) && SameLife(a, r) && SameView(a, r) && |r.pages| == |a.pages|
      && status == (if mode == FetchPageData then read else Success)
      && x == (if status == Success then Some(p) else None)
      && (forall q :: 0 <= q < |a.pages| && q != p ==> r.pages[q] == a.pages[q])
      && (x.Some? ==>
            && Assigned(r, p) && KeyOf(r, p) == (st, id) && r.pages[p].pins == 1
            && (r.pages[p].stale <==> mode == IgnorePageData)
            && (r.pages[p].stale || r.pages[p].data == View(r, (st, id))))
  {
    FetchInto(a, p, st, id, mode);
    FetchFails(a, p, id);
  }

  lemma FetchMissing(s: State, st: nat, id: nat, mode: FetchMode, io: Io)
    requires CanFetch(s, st, id, io) && (st, id) !in s.pageMap
    ensures var (r, status, p) := StorePage(s, st, id, mode, io);
      && Inv(r) && PinnedStay(s, r) && SameStores(s, r)
      && status == (if AllEntriesPinned(s) then PoolFull
                    else if mode == FetchPageData then io.read else Success)
      && (p.Some? <==> status == Success)
      && (!EvictionCloses(s, io) ==> SameLife(s, r) && SameView(s, r))
  {
    AllocTheorem(s, io);
    var (a, p) := AllocPage(s, io);
    if p.Some? { FinishKeeps(a, p.value, st, id, mode, io.read); }
  }

  lemma FetchedEntry(s: State, st: nat, id: nat, mode: FetchMode, io: Io)
    requires CanFetch(s, st, id, io) && (st, id) !in s.pageMap
    ensures var (r, status, p) := StorePage(s, st, id, mode, io);
      p.Some? ==>
            && Assigned(r, p.value) && KeyOf(r, p.value) == (st, id)
            && r.pages[p.value].pins == PinsOf(s, p.value) + 1
            && (r.pages[p.value].stale <==> mode == IgnorePageData)
            && (r.pages[p.value].stale || r.pages[p.value].data == View(r, (st, id)))
  {
    AllocTheorem(s, io);
    var (a, p) := AllocPage(s, io);
    if p.Some? { FinishKeeps(a, p.value, st, id, mode, io.read); }
  }

  /** Pins of an entry, which may not exist yet. */
  function PinsOf(s: State, p: nat): nat {
    if p < |s.pages| then s.pages[p].pins else 0
  }

  /** StorePage with an open store keeps the invariants. When it succeeds, the
      caller gets one more pin on the entry that caches the requested page, with
      the page's contents unless the caller asked to ignore them. When it fails,
      the pool is full or the read failed. Nothing else that is pinned changes,
      and the view does not change unless a failed write-back closes a store. */
  lemma StorePageTheorem(s: State, st: nat, id: nat, mode: FetchMode, io: Io)
    requires CanFetch(s, st, id, io)
    ensures var (r, status, p) := StorePage(s, st, id, mode, io);
      && Inv(r) && |s.pages| <= |r.pages|
      && status == (if (st, id) in s.pageMap then Success
                    else if AllEntriesPinned(s) then PoolFull
                    else if mode == FetchPageData then io.read else Success)
      && (p.Some? <==> status == Success)
      && (p.Some? ==>
            && Assigned(r, p.value) && KeyOf(r, p.value) == (st, id)
            && r.pages[p.value].pins == PinsOf(s, p.value) + 1
            && (r.pages[p.value].stale <==>
                  if (st, id) in s.pageMap then p.value < |s.pages| && s.pages[p.value].stale
                  else mode == IgnorePageData)
            && (r.pages[p.value].stale || r.pages[p.value].data == View(r, (st, id))))
      && (forall q :: 0 <= q < |s.pages| && s.pages[q].pins > 0 && p != Some(q) ==> r.pages[q] == s.pages[q])
      && ((st, id) in s.pageMap || !EvictionCloses(s, io) ==> SameLife(s, r) && SameView(s, r))
  {
    if (st, id) in s.pageMap {
      FetchCached(s, st, id, mode, io);
    } else {
      FetchMissing(s, st, id, mode, io);
      FetchedEntry(s, st, id, mode, io);
    }
  }

  /** An eviction that closes the requested store finds an entry for the fetch. */
  lemma ClosingAlloc(s: State, st: nat, id: nat, io: Io)
    requires Inv(s) && EvictionSafe(s, io) && st < |s.stores| && ClosesItself(s, st, id, io)
    ensures var (a, p) := AllocPage(s, io);
      && Inv(a) && p.Some? && p.value < |a.pages| && a.pages[p.value].owner.None? && a.pages[p.value].pins == 1
      && st < |a.stores| && StoreOk(a.txns, a.stores, st) && |a.txns| == |a.lists| && a.txns[a.stores[st].init].closed
  {
    AllocTheorem(s, io);
    PoolFullMeans(s);
    var (a, p) := AllocPage(s, io);
    assert StoreOk(a.txns, a.stores, st) && StoreLife(a, st);
  }

  /** A closed transaction that is given an entry does not meet the invariant. */
  lemma AssignToClosed(a: State, p: nat, st: nat, id: nat, data: Block, stale: bool)
    requires p < |a.pages| && st < |a.stores| && a.stores[st].init < |a.lists| == |a.txns|
    requires a.txns[a.stores[st].init].closed
    ensures !Inv(Assign(a, p, st, id, data, stale))
  {
    var r, init := Assign(a, p, st, id, data, stale), a.stores[st].init;
    assert r.lists[init] == a.lists[init] + [p];
    assert !TxnLife(r, init);
  }

  /** If the eviction closes the requested store itself, a successful fetch
      leaves an entry assigned to a closed store; a failed one does not. */
  lemma FetchFromStoreItCloses(s: State, st: nat, id: nat, mode: FetchMode, io: Io)
    requires Inv(s) && EvictionSafe(s, io) && st < |s.stores| && ClosesItself(s, st, id, io)
    ensures var (r, status, _) := StorePage(s, st, id, mode, io);
      && status == (if mode == FetchPageData then io.read else Success)
      && (Inv(r) <==> status != Success)
  {
    ClosingAlloc(s, st, id, io);
    var (a, p) := AllocPage(s, io);
    if mode == FetchPageData && io.read != Success {
      FetchFails(a, p.value, id);
    } else if mode == FetchPageData {
      AssignToClosed(a, p.value, st, id, DiskBlock(a, (st, id)), false);
    } else {
      AssignToClosed(a, p.value, st, id, Filled(a.pageSize, 0xCD), true);
    }
  }

  /** A fetch from an open store keeps the invariant, unless its eviction cannot
      write a dirty victim of that very store and the page is then read, or need
      not be: exactly then an entry is left to a closed store. */
  lemma FetchKeepsInvariant(s: State, st: nat, id: nat, mode: FetchMode, io: Io)
    requires Inv(s) && EvictionSafe(s, io) && st < |s.stores| && s.stores[st].phase == Open
    ensures Inv(StorePage(s, st, id, mode, io).0) <==>
      !(ClosesItself(s, st, id, io) && (mode == IgnorePageData || io.read == Success))
  {
    if ClosesItself(s, st, id, io) {
      FetchFromStoreItCloses(s, st, id, mode, io);
    } else {
      StorePageTheorem(s, st, id, mode, io);
    }
  }
}
