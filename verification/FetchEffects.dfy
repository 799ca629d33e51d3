/** What fetching a page does to everything but the fetched page. */
module FetchEffects {
  import opened Bytes
  import opened Lists
  import opened StatusCodes
  import opened PoolModel
  import opened PoolSteps
  import opened PoolOps
  import opened PoolClose
  import opened PoolFetch

  /** The eviction that an allocation may need does not close the store. */
  ghost predicate Spared(s: State, io: Io, st: nat) {
    EvictionCloses(s, io) ==> KeyOf(s, s.lru[0]).0 != st
  }

  /** The victim of a failed write-back has lost its page, its store is still open. */
  lemma OrphanedKeys(s: State, k: (nat, nat))
    requires Inv(s) && s.lru != []
    ensures LruAt(s, 0) && Assigned(s, s.lru[0])
    ensures var u := Orphaned(s);
      && |u.disks| == |s.disks|
      && (k in u.pageMap <==> k in s.pageMap && k != KeyOf(s, s.lru[0]))
      && (k in u.pageMap ==> u.pageMap[k] == s.pageMap[k])
      && (k.0 < |s.disks| && k != KeyOf(s, s.lru[0]) ==> View(u, k) == View(s, k))
  {
    PinVictim(s);
    assert PageOk(s, s.lru[0]);
    if k in s.pageMap { assert KeyOk(s, k) && PageOk(s, s.pageMap[k]); }
  }

  /** An allocation leaves the pages of a spared store as they are. */
  lemma AllocView(s: State, io: Io, k: (nat, nat))
    requires Inv(s) && EvictionSafe(s, io) && k.0 < |s.disks| && Spared(s, io, k.0)
    ensures var (a, _) := AllocPage(s, io);
      |a.disks| == |s.disks| && View(a, k) == View(s, k)
  {
    if EvictionCloses(s, io) {
      OrphanedStore(s, io);
      OrphanedKeys(s, k);
      PinVictim(s);
      CloseOtherView(Orphaned(s), KeyOf(s, s.lru[0]).0, io.fails, k);
    } else {
      AllocTheorem(s, io);
    }
  }

  /** It maps no new key, and what it leaves mapped keeps its entry and its owner. */
  lemma AllocKeys(s: State, io: Io, k: (nat, nat))
    requires Inv(s) && EvictionSafe(s, io) && k.0 < |s.disks| && Spared(s, io, k.0)
    ensures var (a, _) := AllocPage(s, io);
      k in a.pageMap ==>
        && k in s.pageMap && a.pageMap[k] == s.pageMap[k] && s.pageMap[k] < |s.pages| && s.pageMap[k] < |a.pages|
        && a.pages[a.pageMap[k]].owner == s.pages[s.pageMap[k]].owner
  {
    if k in AllocPage(s, io).0.pageMap {
      if s.free != [] {
        TakeFreeKeeps(s);
        assert KeyOk(s, k);
      } else if !MustEvict(s) {
        assert KeyOk(s, k);
      } else if EvictionCloses(s, io) {
        AllocTheorem(s, io);
        ClosingKeys(s, io, k);
      } else {
        QuietKeys(s, io, k);
      }
    }
  }

  lemma QuietKeys(s: State, io: Io, k: (nat, nat))
    requires Inv(s) && MustEvict(s) && !EvictionCloses(s, io) && k in AllocPage(s, io).0.pageMap
    ensures var (a, _) := AllocPage(s, io);
      && k in s.pageMap && a.pageMap[k] == s.pageMap[k] && s.pageMap[k] < |s.pages| == |a.pages|
      && a.pages[a.pageMap[k]].owner == s.pages[s.pageMap[k]].owner
  {
    EvictQuietly(s, io);
    PinVictim(s);
    assert KeyOk(AllocPage(s, io).0, k) && KeyOk(s, k);
  }

  lemma ClosingKeys(s: State, io: Io, k: (nat, nat))
    requires Inv(s) && EvictionSafe(s, io) && EvictionCloses(s, io) && k.0 < |s.disks| && Spared(s, io, k.0)
    requires k in s.pageMap && k in AllocPage(s, io).0.pageMap
    ensures var (a, _) := AllocPage(s, io);
      && a.pageMap[k] == s.pageMap[k] && s.pageMap[k] < |s.pages| == |a.pages|
      && a.pages[a.pageMap[k]].owner == s.pages[s.pageMap[k]].owner
  {
    OrphanedStore(s, io);
    OrphanedKeys(s, k);
    PinVictim(s);
    CloseOtherView(Orphaned(s), KeyOf(s, s.lru[0]).0, io.fails, k);
    EvictClosing(s, io);
    assert KeyOk(s, k);
    assert s.pageMap[k] !in StoreEntries(s, KeyOf(s, s.lru[0]).0);
    assert k != KeyOf(s, s.lru[0]);
    assert s.pageMap[k] != s.lru[0];
  }

  /** A store is as it was or closed, and the spared one and its transactions are
      as they were. */
  ghost predicate StoreStays(s: State, r: State, x: nat)
    requires x < |s.stores| == |r.stores|
  {
    r.stores[x] == s.stores[x] || r.stores[x] == s.stores[x].(phase := Closed, txns := [])
  }

  ghost predicate TablesStay(s: State, r: State, st: nat) {
    && |r.txns| == |s.txns| && |r.stores| == |s.stores| && |r.disks| == |s.disks|
    && r.capacity == s.capacity && r.pageSize == s.pageSize && SameStores(s, r)
    && (forall x :: 0 <= x < |s.stores| ==> StoreStays(s, r, x))
    && st < |s.stores| && r.stores[st] == s.stores[st]
    && (forall t :: 0 <= t < |s.txns| && s.txns[t].store == st ==> r.txns[t] == s.txns[t])
    && (forall t :: 0 <= t < |s.txns| ==> r.txns[t].isInit == s.txns[t].isInit)
  }

  lemma AllocTables(s: State, io: Io, st: nat)
    requires Inv(s) && EvictionSafe(s, io) && st < |s.stores| && Spared(s, io, st)
    ensures TablesStay(s, AllocPage(s, io).0, st)
  {
    if EvictionCloses(s, io) { ClosingTables(s, io, st); } else { AllocTheorem(s, io); }
  }

  lemma ClosingTables(s: State, io: Io, st: nat)
    requires Inv(s) && EvictionSafe(s, io) && EvictionCloses(s, io) && st < |s.stores| && Spared(s, io, st)
    ensures TablesStay(s, AllocPage(s, io).0, st)
  {
    OrphanedStore(s, io);
    OrphanedKeys(s, (st, 0));
    PinVictim(s);
    ClosedTables(Orphaned(s), KeyOf(s, s.lru[0]).0, io.fails, st);
    forall x | 0 <= x < |s.stores| ensures StoreStays(s, AllocPage(s, io).0, x) {
      assert StoreStays(Orphaned(s), AllocPage(s, io).0, x);
    }
  }

  lemma ClosedTables(s: State, y: nat, fails: set<nat>, st: nat)
    requires Inv(s) && y < |s.stores| && s.stores[y].phase == Open && StoreLife(s, y) && StoreIdle(s, y)
    requires st < |s.stores| && st != y
    ensures TablesStay(s, CloseStore(s, y, fails), st)
  {
    CloseStoreTables(s, y, fails);
    var r := CloseStore(s, y, fails);
    assert |r.disks| == |s.disks| && r.capacity == s.capacity && r.pageSize == s.pageSize by {
      CloseStoreReleases(s, y, fails);
    }
  }

  /** One more pin on the entry that is handed out, and no other change of pins. */
  lemma AllocPins(s: State, io: Io, q: nat)
    requires Inv(s) && EvictionSafe(s, io)
    ensures var (a, p) := AllocPage(s, io);
      PinsOf(a, q) == PinsOf(s, q) + if p == Some(q) then 1 else 0
  {
    if s.free != [] {
      TakeFreeKeeps(s);
    } else if MustEvict(s) {
      PinVictim(s);
      assert PageOk(s, s.lru[0]);
      if EvictionCloses(s, io) { EvictClosing(s, io); } else { EvictQuietly(s, io); }
    }
  }

  // ---------------------------------------------------------------------
  // StorePage

  lemma FinishPins(a: State, p: nat, st: nat, id: nat, mode: FetchMode, read: Status, q: nat)
    requires p < |a.pages| && a.pages[p].pins == 1
    requires st < |a.stores| && st < |a.disks| && a.stores[st].init < |a.lists|
    ensures var (r, _, x) := FinishFetch(a, p, st, id, mode, read);
      PinsOf(r, q) == if x.None? && q == p then 0 else PinsOf(a, q)
  {
  }

  lemma FinishTables(a: State, p: nat, st: nat, id: nat, mode: FetchMode, read: Status)
    requires p < |a.pages| && a.pages[p].pins > 0
    requires st < |a.stores| && st < |a.disks| && a.stores[st].init < |a.lists|
    ensures var r := FinishFetch(a, p, st, id, mode, read).0;
      && r.txns == a.txns && r.stores == a.stores && r.disks == a.disks
      && r.capacity == a.capacity && r.pageSize == a.pageSize
  {
  }

  /** A fetch of a page that is not cached is an allocation and a second half. */
  lemma FetchHalves(s: State, st: nat, id: nat, mode: FetchMode, io: Io)
    requires CanFetch(s, st, id, io) && (st, id) !in s.pageMap
    ensures var (a, p) := AllocPage(s, io);
      && st < |a.stores| && st < |a.disks| && a.stores[st].init < |a.lists|
      && (p.None? ==> a == s && StorePage(s, st, id, mode, io) == (a, PoolFull, None))
      && (p.Some? ==> p.value < |a.pages| && a.pages[p.value].pins == 1 && PinsOf(s, p.value) == 0 &&
                      StorePage(s, st, id, mode, io) == FinishFetch(a, p.value, st, id, mode, io.read))
  {
    AllocTheorem(s, io);
    var (a, _) := AllocPage(s, io);
    assert StoreOk(a.txns, a.stores, st);
  }

  lemma FetchPins(s: State, st: nat, id: nat, mode: FetchMode, io: Io, q: nat)
    requires CanFetch(s, st, id, io)
    ensures var (r, _, p) := StorePage(s, st, id, mode, io);
      PinsOf(r, q) == PinsOf(s, q) + if p == Some(q) then 1 else 0
  {
    if (st, id) in s.pageMap {
      FetchCached(s, st, id, mode, io);
    } else {
      FetchHalves(s, st, id, mode, io);
      AllocPins(s, io, q);
      var (a, p) := AllocPage(s, io);
      if p.Some? { FinishPins(a, p.value, st, id, mode, io.read, q); }
    }
  }

  /** The second half of a fetch, on the allocated entry, changes no table. */
  lemma FetchSecondHalf(s: State, st: nat, id: nat, mode: FetchMode, io: Io)
    requires CanFetch(s, st, id, io) && (st, id) !in s.pageMap
    ensures var (a, _) := AllocPage(s, io); var r := StorePage(s, st, id, mode, io).0;
      && r.txns == a.txns && r.stores == a.stores && r.disks == a.disks
      && r.capacity == a.capacity && r.pageSize == a.pageSize
  {
    FetchHalves(s, st, id, mode, io);
    var (a, p) := AllocPage(s, io);
    if p.Some? { FinishTables(a, p.value, st, id, mode, io.read); }
  }

  /** The stores after a fetch: as before, unless the eviction could not write its
      victim back and closed the victim's store. */
  ghost function StoresAfter(s: State, st: nat, id: nat, io: Io): seq<StoreRec> {
    if (st, id) !in s.pageMap && EvictionCloses(s, io) && KeyOf(s, s.lru[0]).0 < |s.stores|
    then s.stores[KeyOf(s, s.lru[0]).0 := s.stores[KeyOf(s, s.lru[0]).0].(phase := Closed, txns := [])]
    else s.stores
  }

  lemma FetchStores(s: State, st: nat, id: nat, mode: FetchMode, io: Io)
    requires CanFetch(s, st, id, io)
    ensures StorePage(s, st, id, mode, io).0.stores == StoresAfter(s, st, id, io)
  {
    if (st, id) in s.pageMap {
      FetchCached(s, st, id, mode, io);
    } else {
      AllocTheorem(s, io);
      FetchSecondHalf(s, st, id, mode, io);
    }
  }

  lemma FetchTables(s: State, st: nat, id: nat, mode: FetchMode, io: Io)
    requires CanFetch(s, st, id, io)
    ensures TablesStay(s, StorePage(s, st, id, mode, io).0, st)
  {
    if (st, id) in s.pageMap {
      FetchCached(s, st, id, mode, io);
    } else {
      AllocTables(s, io, st);
      FetchSecondHalf(s, st, id, mode, io);
      SameTablesStay(s, AllocPage(s, io).0, StorePage(s, st, id, mode, io).0, st);
    }
  }

  lemma SameTablesStay(s: State, a: State, r: State, st: nat)
    requires TablesStay(s, a, st) && r.txns == a.txns && r.stores == a.stores && r.disks == a.disks
    requires r.capacity == a.capacity && r.pageSize == a.pageSize
    ensures TablesStay(s, r, st)
  {
    forall x | 0 <= x < |s.stores| ensures StoreStays(s, r, x) { assert StoreStays(s, a, x); }
  }

  lemma FetchView(s: State, st: nat, id: nat, mode: FetchMode, io: Io, k: (nat, nat))
    requires CanFetch(s, st, id, io) && k.0 < |s.disks|
    requires (st, id) !in s.pageMap ==> Spared(s, io, k.0)
    ensures var r := StorePage(s, st, id, mode, io).0;
      |r.disks| == |s.disks| && View(r, k) == View(s, k)
  {
    if (st, id) in s.pageMap {
      FetchCached(s, st, id, mode, io);
    } else {
      AllocView(s, io, k);
      AllocTheorem(s, io);
      var (a, p) := AllocPage(s, io);
      if p.Some? {
        if mode == FetchPageData && io.read != Success {
          FetchFails(a, p.value, id);
        } else {
          FetchInto(a, p.value, st, id, mode);
        }
      }
    }
  }

  /** A key of a spared store that is mapped was mapped before to the same entry
      with the same owner; the fetched page may also be new, and owned by init. */
  ghost predicate KeyStays(s: State, r: State, k: (nat, nat)) {
    k in r.pageMap ==>
      && r.pageMap[k] < |r.pages| && r.pages[r.pageMap[k]].owner.Some?
      && (|| (k in s.pageMap && s.pageMap[k] < |s.pages| &&
              r.pages[r.pageMap[k]].owner == s.pages[s.pageMap[k]].owner)
          || (r.pages[r.pageMap[k]].owner.value < |r.txns| && r.txns[r.pages[r.pageMap[k]].owner.value].isInit))
  }

  lemma FetchKeys(s: State, st: nat, id: nat, mode: FetchMode, io: Io, k: (nat, nat))
    requires CanFetch(s, st, id, io) && k.0 < |s.disks|
    requires (st, id) !in s.pageMap ==> Spared(s, io, k.0)
    ensures KeyStays(s, StorePage(s, st, id, mode, io).0, k)
  {
    if (st, id) in s.pageMap {
      FetchCached(s, st, id, mode, io);
      assert k in s.pageMap ==> KeyOk(s, k);
    } else {
      MissingKeys(s, st, id, mode, io, k);
    }
  }

  /** Assigning an entry maps one key, for init, and leaves the others alone. */
  lemma AssignKeys(a: State, p: nat, st: nat, id: nat, data: Block, stale: bool, k: (nat, nat))
    requires Inv(a) && p < |a.pages| && a.pages[p].owner.None? && st < |a.stores|
    ensures StoreOk(a.txns, a.stores, st) && a.stores[st].init < |a.lists|
    ensures KeyStays(a, Assign(a, p, st, id, data, stale), k)
  {
    assert StoreOk(a.txns, a.stores, st) && TxnOk(a.txns, a.stores, a.stores[st].init);
    if k in a.pageMap { assert KeyOk(a, k); }
  }

  lemma FailKeys(a: State, p: nat, id: nat, k: (nat, nat))
    requires Inv(a) && p < |a.pages| && a.pages[p].owner.None? && a.pages[p].pins > 0
    ensures KeyStays(a, a, k) && KeyStays(a, UnpinUnassigned(Relabel(a, p, id), p), k)
  {
    if k in a.pageMap { assert KeyOk(a, k); }
  }

  lemma SecondHalfKeys(s: State, st: nat, id: nat, mode: FetchMode, io: Io, k: (nat, nat))
    requires CanFetch(s, st, id, io) && (st, id) !in s.pageMap
    ensures KeyStays(AllocPage(s, io).0, StorePage(s, st, id, mode, io).0, k)
  {
    AllocTheorem(s, io);
    var (a, p) := AllocPage(s, io);
    if p.None? {
      if k in a.pageMap { assert KeyOk(a, k); }
    } else {
      FailKeys(a, p.value, id, k);
      var data := if mode == FetchPageData then DiskBlock(a, (st, id)) else Filled(a.pageSize, 0xCD);
      AssignKeys(a, p.value, st, id, data, mode == IgnorePageData, k);
    }
  }

  lemma MissingKeys(s: State, st: nat, id: nat, mode: FetchMode, io: Io, k: (nat, nat))
    requires CanFetch(s, st, id, io) && k.0 < |s.disks| && (st, id) !in s.pageMap && Spared(s, io, k.0)
    ensures KeyStays(s, StorePage(s, st, id, mode, io).0, k)
  {
    AllocKeys(s, io, k);
    SecondHalfKeys(s, st, id, mode, io, k);
  }
}
