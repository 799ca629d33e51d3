/** What a caller sees of the pages of one store while it runs an operation of a
    transaction: fetching, modifying and unpinning. An eviction that fails may
    close another store meanwhile. */
module PageSession {
  import opened Bytes
  import opened Lists
  import opened StatusCodes
  import opened PoolModel
  import opened PoolSteps
  import opened PoolOps
  import opened PoolClose
  import opened PoolFetch
  import opened PoolRuns
  import opened FetchEffects
  import opened FreeList

  /** Transaction t is running, and nobody owes its store the contents of a page. */
  ghost predicate CanWrite(s: State, t: nat) {
    && Inv(s) && t < |s.txns| && !s.txns[t].isInit && !s.txns[t].closed
    && s.txns[t].store < |s.stores| && s.stores[s.txns[t].store].phase == Open
    && forall q :: q in StoreEntries(s, s.txns[t].store) ==> !s.pages[q].stale
  }

  /** Page id of the transaction's store is not being modified by another one. */
  ghost predicate Modifiable(s: State, t: nat, id: nat) {
    && t < |s.txns|
    && var k := (s.txns[t].store, id);
      k in s.pageMap ==>
        && s.pageMap[k] < |s.pages| && s.pages[s.pageMap[k]].owner.Some?
        && var owner := s.pages[s.pageMap[k]].owner.value;
           owner == t || (owner < |s.txns| && s.txns[owner].isInit)
  }

  ghost predicate ViewIs(s: State, st: nat, v: Volume, id: nat)
    requires st < |s.disks|
  {
    View(s, (st, id)) == v(id)
  }

  ghost predicate PinsAre(s: State, r: State, held: multiset<nat>, q: nat) {
    PinsOf(r, q) == PinsOf(s, q) + held[q]
  }

  /** An entry that was pinned is bound to the same page as before, or to none. */
  ghost predicate StaysBound(s: State, r: State, q: nat) {
    PinsOf(s, q) > 0 ==> Binding(r, q) == Binding(s, q)
  }

  /** Pages of other stores stay, unless the store was closed. */
  ghost predicate OtherView(s: State, r: State, st: nat, k: (nat, nat)) {
    && k.0 != st && k.0 < |s.disks| && k.0 < |r.disks| && k.0 < |s.stores| && k.0 < |r.stores|
    && r.stores[k.0] == s.stores[k.0]
    ==> View(r, k) == View(s, k)
  }

  ghost predicate StaysModifiable(s: State, r: State, t: nat, id: nat) {
    Modifiable(s, t, id) ==> Modifiable(r, t, id)
  }

  ghost predicate StaysIdle(s: State, r: State, st: nat, x: nat) {
    x != st && StoreIdle(s, x) ==> StoreIdle(r, x)
  }

  /** What every step of the operation leaves alone. */
  ghost predicate Continued(s: State, r: State, t: nat) {
    && t < |s.txns| && TablesStay(s, r, s.txns[t].store)
    && (forall k: (nat, nat) :: OtherView(s, r, s.txns[t].store, k))
    && (forall id: nat :: StaysModifiable(s, r, t, id))
    && (forall x: nat :: StaysIdle(s, r, s.txns[t].store, x))
  }

  /** An operation of transaction t that began in state s has got to state r: the
      pages of the store hold v, nothing changed in other stores unless they were
      closed, the pins are the former ones and those the operation holds, and the
      entries that others have pinned are bound as before. */
  ghost predicate During(s: State, r: State, t: nat, v: Volume, held: multiset<nat>) {
    && CanWrite(r, t) && Continued(s, r, t)
    && (forall id: nat :: ViewIs(r, r.txns[t].store, v, id))
    && (forall q: nat :: PinsAre(s, r, held, q))
    && (forall q: nat :: StaysBound(s, r, q))
  }

  /** Entry p caches page id of the store of t. */
  ghost predicate Caches(s: State, t: nat, p: nat, id: nat) {
    Assigned(s, p) && t < |s.txns| && KeyOf(s, p) == (s.txns[t].store, id)
  }

  /** A step leaves a pinned entry alone, except for its pins. */
  ghost predicate StaysPut(s: State, r: State, q: nat) {
    q < |s.pages| && q < |r.pages| && r.pages[q] == s.pages[q].(pins := r.pages[q].pins)
  }

  // ---------------------------------------------------------------------
  // Steps that continue an operation

  lemma TablesStayTwice(s: State, m: State, r: State, st: nat)
    requires TablesStay(s, m, st) && TablesStay(m, r, st)
    ensures TablesStay(s, r, st)
  {
    forall x | 0 <= x < |s.stores| ensures StoreStays(s, r, x) {
      assert StoreStays(s, m, x) && StoreStays(m, r, x);
    }
  }

  lemma ContinuedTwice(s: State, m: State, r: State, t: nat)
    requires Continued(s, m, t) && Continued(m, r, t)
    ensures Continued(s, r, t)
  {
    var st := s.txns[t].store;
    TablesStayTwice(s, m, r, st);
    forall k: (nat, nat) ensures OtherView(s, r, st, k) {
      assert OtherView(s, m, st, k) && OtherView(m, r, st, k);
      if k.0 < |s.stores| { assert StoreStays(s, m, k.0) && StoreStays(m, r, k.0); }
    }
    forall id: nat ensures StaysModifiable(s, r, t, id) {
      assert StaysModifiable(s, m, t, id) && StaysModifiable(m, r, t, id);
    }
    forall x: nat ensures StaysIdle(s, r, st, x) { assert StaysIdle(s, m, st, x) && StaysIdle(m, r, st, x); }
  }

  /** A step on an entry of the store that leaves the tables alone. */
  lemma QuietlyContinued(m: State, r: State, t: nat, p: nat, id: nat)
    requires Inv(m) && Caches(m, t, p, id) && r.txns == m.txns && r.stores == m.stores
    requires |r.disks| == |m.disks| && r.capacity == m.capacity && r.pageSize == m.pageSize
    requires r.pageMap == m.pageMap && |r.pages| == |m.pages|
    requires forall q :: 0 <= q < |m.pages| && q != p ==> r.pages[q] == m.pages[q]
    requires r.pages[p].owner == m.pages[p].owner || r.pages[p].owner == Some(t)
    requires forall k: (nat, nat) :: OtherView(m, r, m.txns[t].store, k)
    ensures Continued(m, r, t)
  {
    var st := m.txns[t].store;
    forall x | 0 <= x < |m.stores| ensures StoreStays(m, r, x) {}
    forall i: nat ensures StaysModifiable(m, r, t, i) {}
    forall x: nat ensures StaysIdle(m, r, st, x) {
      if x != st && StoreIdle(m, x) {
        forall q | q in StoreEntries(r, x) ensures r.pages[q].pins == 0 { assert q in StoreEntries(m, x); }
      }
    }
  }

  /** The status of fetching a page. */
  ghost function FetchStatus(s: State, st: nat, id: nat, mode: FetchMode, read: Status): Status {
    if (st, id) in s.pageMap then Success
    else if AllEntriesPinned(s) then PoolFull
    else if mode == FetchPageData then read else Success
  }

  /** What a fetch by the operation does to the entries. */
  lemma FetchAround(s: State, t: nat, id: nat, mode: FetchMode, io: Io)
    requires CanWrite(s, t) && CanFetch(s, s.txns[t].store, id, io)
    ensures var (r, status, p) := StorePage(s, s.txns[t].store, id, mode, io);
      && Inv(r)
      && status == FetchStatus(s, s.txns[t].store, id, mode, io.read) && (p.Some? <==> status == Success)
      && (p.Some? ==> Assigned(r, p.value) && KeyOf(r, p.value) == (s.txns[t].store, id) &&
                      (r.pages[p.value].stale ==> mode == IgnorePageData))
      && (forall q :: 0 <= q < |s.pages| && s.pages[q].pins > 0 ==> StaysPut(s, r, q))
  {
    var st := s.txns[t].store;
    StorePageTheorem(s, st, id, mode, io);
    var (r, status, p) := StorePage(s, st, id, mode, io);
    if (st, id) in s.pageMap {
      FetchCached(s, st, id, mode, io);
      assert p.value in StoreEntries(s, st) by { assert KeyOk(s, (st, id)); }
    }
    assert (st, id) !in s.pageMap ==> PinnedStay(s, r) by {
      if (st, id) !in s.pageMap { FetchMissing(s, st, id, mode, io); }
    }
  }

  /** An entry that stays put stays with its store. */
  lemma StaysWithStore(s: State, r: State, st: nat, x: nat, q: nat)
    requires Core(s) && Core(r) && TablesStay(s, r, st)
    ensures q in StoreEntries(r, x) && StaysPut(s, r, q) ==> q in StoreEntries(s, x)
  {
    assert q < |s.pages| ==> PageOk(s, q);
  }

  lemma FetchIdle(s: State, t: nat, id: nat, mode: FetchMode, io: Io, x: nat)
    requires CanWrite(s, t) && CanFetch(s, s.txns[t].store, id, io)
    ensures StaysIdle(s, StorePage(s, s.txns[t].store, id, mode, io).0, s.txns[t].store, x)
  {
    var st := s.txns[t].store;
    FetchAround(s, t, id, mode, io);
    FetchTables(s, st, id, mode, io);
    var (r, _, p) := StorePage(s, st, id, mode, io);
    if x != st && StoreIdle(s, x) {
      forall q | q in StoreEntries(r, x) ensures r.pages[q].pins == 0 {
        FetchPins(s, st, id, mode, io, q);
        StaysWithStore(s, r, st, x, q);
      }
    }
  }

  /** A store that is as it was is spared by the eviction. */
  lemma FetchSpares(s: State, st: nat, id: nat, mode: FetchMode, io: Io, x: nat)
    requires CanFetch(s, st, id, io) && x < |s.stores|
    requires var r := StorePage(s, st, id, mode, io).0; x < |r.stores| && r.stores[x] == s.stores[x]
    ensures (st, id) !in s.pageMap ==> Spared(s, io, x)
  {
    if (st, id) !in s.pageMap && EvictionCloses(s, io) {
      AllocTheorem(s, io);
      FetchSecondHalf(s, st, id, mode, io);
      OrphanedInv(s, io);
    }
  }

  lemma FetchContinued(s: State, t: nat, id: nat, mode: FetchMode, io: Io)
    requires CanWrite(s, t) && CanFetch(s, s.txns[t].store, id, io)
    ensures Continued(s, StorePage(s, s.txns[t].store, id, mode, io).0, t)
  {
    var st := s.txns[t].store;
    var r := StorePage(s, st, id, mode, io).0;
    FetchTables(s, st, id, mode, io);
    forall k: (nat, nat) ensures OtherView(s, r, st, k) {
      if k.0 < |s.disks| && k.0 < |s.stores| && r.stores[k.0] == s.stores[k.0] {
        FetchSpares(s, st, id, mode, io, k.0);
        FetchView(s, st, id, mode, io, k);
      }
    }
    forall i: nat ensures StaysModifiable(s, r, t, i) {
      FetchSpares(s, st, id, mode, io, st);
      FetchKeys(s, st, id, mode, io, (st, i));
    }
    forall x: nat ensures StaysIdle(s, r, st, x) { FetchIdle(s, t, id, mode, io, x); }
  }

  /** After a fetch, only the fetched entry can be stale. */
  lemma FetchStale(s: State, t: nat, id: nat, mode: FetchMode, io: Io, q: nat)
    requires CanWrite(s, t) && CanFetch(s, s.txns[t].store, id, io)
    ensures var (r, _, p) := StorePage(s, s.txns[t].store, id, mode, io);
      q in StoreEntries(r, s.txns[t].store) && p != Some(q) ==> !r.pages[q].stale
  {
    var st := s.txns[t].store;
    FetchAround(s, t, id, mode, io);
    FetchTables(s, st, id, mode, io);
    FetchPins(s, st, id, mode, io, q);
    var (r, _, p) := StorePage(s, st, id, mode, io);
    if q in StoreEntries(r, st) && p != Some(q) {
      assert PageOk(r, q);
      StaysWithStore(s, r, st, st, q);
    }
  }

  // ---------------------------------------------------------------------
  // The operation, step by step

  /** What the data files do during an operation: those of the stores in `bad`
      refuse the write-back of evicted entries, and the entries in `fails` cannot
      be written while a store closes. */
  datatype Files = Files(bad: set<nat>, fails: set<nat>)

  /** An eviction may close a store only if nobody holds a pin on its entries,
      and not the store that the operation works on. */
  ghost predicate Reliable(s: State, t: nat, files: Files) {
    && t < |s.txns| && s.txns[t].store !in files.bad
    && forall x :: x in files.bad ==> StoreIdle(s, x)
  }

  /** Only stores whose data file refuses write-backs were closed. */
  ghost predicate OnlyBadClosed(was: seq<StoreRec>, now: seq<StoreRec>, files: Files) {
    |now| == |was| && forall x :: 0 <= x < |was| && x !in files.bad ==> now[x] == was[x]
  }

  /** The store of the entry that would be evicted. */
  function VictimStore(m: State): Option<nat> {
    if m.lru != [] && m.lru[0] < |m.pages| && m.pages[m.lru[0]].owner.Some? && m.pages[m.lru[0]].owner.value < |m.txns|
    then Some(m.txns[m.pages[m.lru[0]].owner.value].store) else None
  }

  /** What the file system answers to the next fetch. */
  function Answer(m: State, read: Status, files: Files): Io {
    Io(read, VictimStore(m).None? || VictimStore(m).value !in files.bad, files.fails)
  }

  lemma OnlyBadAnswer(m: State, st: nat, id: nat, read: Status, files: Files)
    requires Inv(m)
    ensures OnlyBadClosed(m.stores, StoresAfter(m, st, id, Answer(m, read, files)), files)
  {
  }

  /** The state after the next fetch, which the data files answer. */
  ghost function AfterFetch(m: State, t: nat, id: nat, read: Status, files: Files): (r: State)
    ensures |r.txns| == |m.txns| && r.pageSize == m.pageSize
  {
    if t < |m.txns| && CanFetch(m, m.txns[t].store, id, Answer(m, read, files)) then
      FetchTables(m, m.txns[t].store, id, FetchPageData, Answer(m, read, files));
      StorePage(m, m.txns[t].store, id, FetchPageData, Answer(m, read, files)).0
    else m
  }

  /** A mark without a meaning of its own. `LeadsTo` is of use only for states that
      carry it, so that most proofs need not look into what a fetch does. */
  ghost predicate LookedAt(m: State) {
    true
  }

  /** The next fetch, in state m, leads to state n. */
  ghost predicate LeadsTo(m: State, n: State, t: nat, id: nat, read: Status, files: Files) {
    forall x: State :: LookedAt(x) && x == m ==> n == AfterFetch(x, t, id, read, files)
  }

  lemma LookAt(m: State, n: State, t: nat, id: nat, read: Status, files: Files)
    requires LeadsTo(m, n, t, id, read, files)
    ensures n == AfterFetch(m, t, id, read, files)
  {
    assert LookedAt(m);
  }

  lemma DuringCanFetch(s: State, m: State, t: nat, v: Volume, held: multiset<nat>, id: nat, read: Status, files: Files)
    requires During(s, m, t, v, held) && Reliable(s, t, files)
    ensures CanFetch(m, m.txns[t].store, id, Answer(m, read, files))
  {
    var io := Answer(m, read, files);
    if EvictionCloses(m, io) {
      var y := KeyOf(m, m.lru[0]).0;
      assert y in files.bad;
      assert StaysIdle(s, m, s.txns[t].store, y);
    }
  }

  /** An entry that the operation holds stays where it is. */
  lemma FetchHeld(s: State, m: State, t: nat, v: Volume, held: multiset<nat>, id: nat, io: Io, q: nat, i: nat)
    requires During(s, m, t, v, held) && CanFetch(m, m.txns[t].store, id, io) && q in held && Caches(m, t, q, i)
    ensures Caches(StorePage(m, m.txns[t].store, id, FetchPageData, io).0, t, q, i)
  {
    FetchAround(m, t, id, FetchPageData, io);
    FetchTables(m, m.txns[t].store, id, FetchPageData, io);
    var r := StorePage(m, m.txns[t].store, id, FetchPageData, io).0;
    assert PinsAre(s, m, held, q);
    assert StaysPut(m, r, q) && PageOk(r, q);
  }

  /** An entry that others hold stays bound. */
  lemma FetchBound(s: State, m: State, t: nat, held: multiset<nat>, id: nat, mode: FetchMode, io: Io, q: nat)
    requires t < |m.txns| && CanFetch(m, m.txns[t].store, id, io) && PinsAre(s, m, held, q) && StaysBound(s, m, q)
    ensures StaysBound(s, StorePage(m, m.txns[t].store, id, mode, io).0, q)
  {
    if PinsOf(m, q) > 0 { PinsBinding(m, m.txns[t].store, id, mode, io, q); }
  }

  lemma DuringFetch(s: State, m: State, t: nat, v: Volume, held: multiset<nat>, id: nat, io: Io)
    requires During(s, m, t, v, held) && CanFetch(m, m.txns[t].store, id, io)
    ensures var (r, status, p) := StorePage(m, m.txns[t].store, id, FetchPageData, io);
      && status == FetchStatus(m, m.txns[t].store, id, FetchPageData, io.read) && (p.Some? <==> status == Success)
      && During(s, r, t, v, if p.Some? then held + multiset{p.value} else held)
      && (p.Some? ==> Caches(r, t, p.value, id))
      && r.stores == StoresAfter(m, m.txns[t].store, id, io)
      && (forall q: nat, i: nat :: q in held && Caches(m, t, q, i) ==> Caches(r, t, q, i))
  {
    var st := m.txns[t].store;
    FetchAround(m, t, id, FetchPageData, io);
    FetchContinued(m, t, id, FetchPageData, io);
    FetchStores(m, st, id, FetchPageData, io);
    var (r, status, p) := StorePage(m, st, id, FetchPageData, io);
    ContinuedTwice(s, m, r, t);
    var hold := if p.Some? then held + multiset{p.value} else held;
    forall q: nat, i: nat | q in held && Caches(m, t, q, i) ensures Caches(r, t, q, i) {
      FetchHeld(s, m, t, v, held, id, io, q, i);
    }
    forall q | q in StoreEntries(r, st) ensures !r.pages[q].stale {
      FetchStale(m, t, id, FetchPageData, io, q);
    }
    forall i: nat ensures ViewIs(r, st, v, i) {
      assert ViewIs(m, st, v, i);
      FetchView(m, st, id, FetchPageData, io, (st, i));
    }
    forall q: nat ensures PinsAre(s, r, hold, q) {
      assert PinsAre(s, m, held, q);
      FetchPins(m, st, id, FetchPageData, io, q);
    }
    forall q: nat ensures StaysBound(s, r, q) { FetchBound(s, m, t, held, id, FetchPageData, io, q); }
  }

  /** What the operation reads from an entry is the contents of the page. */
  lemma DuringRead(s: State, m: State, t: nat, v: Volume, held: multiset<nat>, p: nat, id: nat)
    requires During(s, m, t, v, held) && Caches(m, t, p, id)
    ensures m.pages[p].data == v(id) && |v(id)| == m.pageSize
  {
    assert PageOk(m, p) && ViewIs(m, m.txns[t].store, v, id) && p in StoreEntries(m, m.txns[t].store);
  }

  /** A step on entry p that leaves bindings alone, or moves p to transaction t. */
  lemma BoundStep(s: State, m: State, r: State, t: nat, held: multiset<nat>, p: nat, q: nat)
    requires Core(m) && Core(r) && SameStores(m, r) && |r.pages| == |m.pages| && t < |m.txns|
    requires Assigned(m, p) && m.txns[t].store == KeyOf(m, p).0
    requires forall x :: 0 <= x < |m.pages| && x != p ==> r.pages[x] == m.pages[x]
    requires r.pages[p].owner == m.pages[p].owner || r.pages[p].owner == Some(t)
    requires r.pages[p].id == m.pages[p].id && PinsAre(s, m, held, q) && StaysBound(s, m, q)
    ensures StaysBound(s, r, q)
  {
    if q < |m.pages| {
      if q == p && r.pages[p].owner == Some(t) { MovedBinding(m, r, p, t); } else { SameBinding(m, r, q); }
    }
  }

  lemma UnpinContinued(m: State, t: nat, p: nat, id: nat)
    requires Inv(m) && Caches(m, t, p, id) && m.pages[p].pins > 0 && !m.pages[p].stale
    ensures var r := Unpin(m, p, CachePage);
      Inv(r) && SameView(m, r) && SameLife(m, r) && Continued(m, r, t)
  {
    UnpinKeeps(m, p, CachePage);
    var r := Unpin(m, p, CachePage);
    SameLifeInv(m, r);
    forall k: (nat, nat) ensures OtherView(m, r, m.txns[t].store, k) {}
    QuietlyContinued(m, r, t, p, id);
  }

  lemma DuringUnpin(s: State, m: State, t: nat, v: Volume, held: multiset<nat>, p: nat, id: nat)
    requires During(s, m, t, v, held) && p in held && Caches(m, t, p, id)
    ensures m.pages[p].pins > 0
    ensures var r := Unpin(m, p, CachePage);
      && During(s, r, t, v, held - multiset{p})
      && (forall q: nat, i: nat :: Caches(m, t, q, i) ==> Caches(r, t, q, i))
  {
    var st := m.txns[t].store;
    assert PinsAre(s, m, held, p);
    assert p in StoreEntries(m, st);
    UnpinContinued(m, t, p, id);
    var r := Unpin(m, p, CachePage);
    ContinuedTwice(s, m, r, t);
    forall q | q in StoreEntries(r, st) ensures !r.pages[q].stale { assert q in StoreEntries(m, st); }
    forall i: nat ensures ViewIs(r, st, v, i) { assert ViewIs(m, st, v, i); }
    forall q: nat ensures PinsAre(s, r, held - multiset{p}, q) { assert PinsAre(s, m, held, q); }
    forall q: nat ensures StaysBound(s, r, q) { BoundStep(s, m, r, t, held, p, q); }
  }

  /** WillModifyPage on an entry of the store, which may be stale. */
  lemma ModifyAround(m: State, t: nat, p: nat, id: nat)
    requires Inv(m) && CanModify(m, t, p) && Caches(m, t, p, id)
    ensures var r := WillModify(m, t, p);
      && Inv(r) && SameLife(m, r) && |r.pages| == |m.pages| && r.pageMap == m.pageMap
      && r.pages[p].dirty && !r.pages[p].stale && r.pages[p].data == m.pages[p].data
      && r.pages[p].pins == m.pages[p].pins && r.pages[p].owner == Some(t) && r.pages[p].id == m.pages[p].id
      && (forall q :: 0 <= q < |m.pages| && q != p ==> r.pages[q] == m.pages[q])
      && (forall q: nat, i: nat :: Caches(m, t, q, i) ==> Caches(r, t, q, i))
  {
    ModifyInv(m, t, p);
    WillModifyKeeps(m, t, p);
    assert PageOk(m, p);
  }

  lemma ModifyContinued(m: State, t: nat, p: nat, id: nat)
    requires Inv(m) && CanModify(m, t, p) && Caches(m, t, p, id)
    ensures Continued(m, WillModify(m, t, p), t)
  {
    ModifyAround(m, t, p, id);
    var r := WillModify(m, t, p);
    forall k: (nat, nat) ensures OtherView(m, r, m.txns[t].store, k) {
      if k.0 < |m.disks| { ModifyView(m, t, p, k); }
    }
    QuietlyContinued(m, r, t, p, id);
  }

  /** A pinned entry of a page that the transaction may modify. */
  lemma ModifiableEntry(s: State, m: State, t: nat, p: nat, id: nat)
    requires Continued(s, m, t) && Inv(m) && Modifiable(s, t, id) && Caches(m, t, p, id) && m.pages[p].pins > 0
    requires !m.txns[t].isInit && !m.txns[t].closed
    ensures CanModify(m, t, p)
  {
    assert StaysModifiable(s, m, t, id) && PageOk(m, p);
  }

  /** The pages of the store as they are once a page has been announced as modified. */
  lemma DuringModify(s: State, m: State, t: nat, v: Volume, held: multiset<nat>, p: nat, id: nat)
    requires During(s, m, t, v, held) && p in held && Caches(m, t, p, id) && Modifiable(s, t, id)
    ensures CanModify(m, t, p)
    ensures var r := WillModify(m, t, p);
      && During(s, r, t, v, held) && |r.pages| == |m.pages|
      && r.pages[p].dirty && r.pages[p].data == m.pages[p].data
      && (forall q: nat, i: nat :: Caches(m, t, q, i) ==> Caches(r, t, q, i))
      && (forall q :: 0 <= q < |m.pages| && m.pages[q].dirty ==> r.pages[q].dirty)
  {
    var st := m.txns[t].store;
    assert PinsAre(s, m, held, p);
    ModifiableEntry(s, m, t, p, id);
    ModifyAround(m, t, p, id);
    ModifyContinued(m, t, p, id);
    var r := WillModify(m, t, p);
    ContinuedTwice(s, m, r, t);
    assert p in StoreEntries(m, st);
    forall q | q in StoreEntries(r, st) ensures !r.pages[q].stale { assert q != p ==> q in StoreEntries(m, st); }
    forall i: nat ensures ViewIs(r, st, v, i) { assert ViewIs(m, st, v, i); ModifyView(m, t, p, (st, i)); }
    forall q: nat ensures PinsAre(s, r, held, q) { assert PinsAre(s, m, held, q); }
    forall q: nat ensures StaysBound(s, r, q) { BoundStep(s, m, r, t, held, p, q); }
  }

  lemma WriteContinued(m: State, t: nat, p: nat, id: nat, data: Block)
    requires Inv(m) && Caches(m, t, p, id) && m.pages[p].dirty && |data| == m.pageSize
    ensures var r := Scribble(m, p, data);
      && Inv(r) && SameLife(m, r) && Continued(m, r, t) && m.txns[t].store < |m.disks|
      && forall i: nat :: View(r, (m.txns[t].store, i)) == if i == id then data else View(m, (m.txns[t].store, i))
  {
    ScribbleKeeps(m, p, data);
    var r := Scribble(m, p, data);
    SameLifeInv(m, r);
    forall k: (nat, nat) ensures OtherView(m, r, m.txns[t].store, k) {}
    QuietlyContinued(m, r, t, p, id);
  }

  /** The operation overwrites the buffer of an entry it announced as modified. */
  lemma DuringWrite(s: State, m: State, t: nat, v: Volume, held: multiset<nat>, p: nat, id: nat, data: Block)
    requires During(s, m, t, v, held) && Caches(m, t, p, id) && m.pages[p].dirty && |data| == m.pageSize
    ensures var r := Scribble(m, p, data);
      && During(s, r, t, Put(v, id, data), held)
      && (forall q: nat, i: nat :: Caches(m, t, q, i) ==> Caches(r, t, q, i))
      && (forall q :: 0 <= q < |m.pages| ==> r.pages[q].dirty == m.pages[q].dirty)
  {
    var st := m.txns[t].store;
    WriteContinued(m, t, p, id, data);
    var r := Scribble(m, p, data);
    ContinuedTwice(s, m, r, t);
    forall q | q in StoreEntries(r, st) ensures !r.pages[q].stale { assert q in StoreEntries(m, st); }
    forall i: nat ensures ViewIs(r, st, Put(v, id, data), i) { assert ViewIs(m, st, v, i); }
    forall q: nat ensures PinsAre(s, r, held, q) { assert PinsAre(s, m, held, q); }
    forall q: nat ensures StaysBound(s, r, q) { BoundStep(s, m, r, t, held, p, q); }
  }

  /** Entry p was fetched for page id, and once it is announced as modified, what
      its buffer happens to hold is the contents of the page. */
  ghost predicate Claimed(s: State, n: State, t: nat, v: Volume, held: multiset<nat>, p: nat, id: nat) {
    && Inv(n) && Caches(n, t, p, id) && CanModify(n, t, p) && s.pageSize == n.pageSize == |n.pages[p].data|
    && forall x: State :: LookedAt(x) && x == n ==> ClaimedBy(s, x, t, v, held, p, id)
  }

  ghost predicate ClaimedBy(s: State, n: State, t: nat, v: Volume, held: multiset<nat>, p: nat, id: nat)
    requires Inv(n) && CanModify(n, t, p)
  {
    var r := WillModify(n, t, p);
    && p < |r.pages| && r.pages[p].dirty && r.pages[p].data == n.pages[p].data
    && During(s, r, t, Put(v, id, n.pages[p].data), held + multiset{p}) && Caches(r, t, p, id)
  }

  /** What the buffer of such an entry holds: the page if it was cached, else the
      pattern of FetchStorePage. */
  ghost function Blank(m: State, st: nat, id: nat, v: Volume): Block {
    if (st, id) in m.pageMap then v(id) else Filled(m.pageSize, 0xCD)
  }

  lemma ClaimedData(s: State, m: State, t: nat, v: Volume, held: multiset<nat>, id: nat, io: Io)
    requires During(s, m, t, v, held) && CanFetch(m, m.txns[t].store, id, io)
    ensures var (n, _, p) := StorePage(m, m.txns[t].store, id, IgnorePageData, io);
      p.Some? ==> p.value < |n.pages| && n.pages[p.value].data == Blank(m, m.txns[t].store, id, v)
  {
    var st := m.txns[t].store;
    if (st, id) in m.pageMap {
      FetchCached(m, st, id, IgnorePageData, io);
      assert KeyOk(m, (st, id));
      DuringRead(s, m, t, v, held, m.pageMap[(st, id)], id);
    } else {
      AllocTheorem(m, io);
      FetchTables(m, st, id, IgnorePageData, io);
      FetchSecondHalf(m, st, id, IgnorePageData, io);
    }
  }

  /** Fetching a page without its data, for overwriting. */
  lemma DuringClaim(s: State, m: State, t: nat, v: Volume, held: multiset<nat>, id: nat, io: Io)
    requires During(s, m, t, v, held) && CanFetch(m, m.txns[t].store, id, io) && Modifiable(s, t, id)
    ensures var (n, status, p) := StorePage(m, m.txns[t].store, id, IgnorePageData, io);
      && status == FetchStatus(m, m.txns[t].store, id, IgnorePageData, io.read) && (p.Some? <==> status == Success)
      && (p.None? ==> During(s, n, t, v, held))
      && n.stores == StoresAfter(m, m.txns[t].store, id, io)
      && (p.Some? ==> Claimed(s, n, t, v, held, p.value, id) &&
                      n.pages[p.value].data == Blank(m, m.txns[t].store, id, v))
  {
    var st := m.txns[t].store;
    FetchAround(m, t, id, IgnorePageData, io);
    FetchContinued(m, t, id, IgnorePageData, io);
    FetchStores(m, st, id, IgnorePageData, io);
    var (n, status, p) := StorePage(m, st, id, IgnorePageData, io);
    ContinuedTwice(s, m, n, t);
    forall q | q in StoreEntries(n, st) && p != Some(q) ensures !n.pages[q].stale {
      FetchStale(m, t, id, IgnorePageData, io, q);
    }
    forall i: nat ensures ViewIs(n, st, v, i) {
      assert ViewIs(m, st, v, i);
      FetchView(m, st, id, IgnorePageData, io, (st, i));
    }
    forall q: nat ensures PinsOf(n, q) == PinsOf(s, q) + held[q] + if p == Some(q) then 1 else 0 {
      assert PinsAre(s, m, held, q);
      FetchPins(m, st, id, IgnorePageData, io, q);
    }
    forall q: nat ensures StaysBound(s, n, q) { FetchBound(s, m, t, held, id, IgnorePageData, io, q); }
    if p.None? {
      forall q: nat ensures PinsAre(s, n, held, q) {}
    } else {
      ClaimModify(s, n, t, v, held, p.value, id);
      ClaimedData(s, m, t, v, held, id, io);
    }
  }

  lemma ClaimModify(s: State, n: State, t: nat, v: Volume, held: multiset<nat>, p: nat, id: nat)
    requires Inv(n) && Continued(s, n, t) && Caches(n, t, p, id) && Modifiable(s, t, id)
    requires !n.txns[t].isInit && !n.txns[t].closed && n.stores[n.txns[t].store].phase == Open
    requires forall q :: q in StoreEntries(n, n.txns[t].store) && q != p ==> !n.pages[q].stale
    requires forall i: nat :: ViewIs(n, n.txns[t].store, v, i)
    requires forall q: nat :: PinsAre(s, n, held + multiset{p}, q)
    requires forall q: nat :: StaysBound(s, n, q)
    ensures Claimed(s, n, t, v, held, p, id)
  {
    var st := n.txns[t].store;
    assert PinsAre(s, n, held + multiset{p}, p);
    ModifiableEntry(s, n, t, p, id);
    ModifyAround(n, t, p, id);
    ModifyContinued(n, t, p, id);
    var r := WillModify(n, t, p);
    ContinuedTwice(s, n, r, t);
    forall q | q in StoreEntries(r, st) ensures !r.pages[q].stale { assert q != p ==> q in StoreEntries(n, st); }
    forall i: nat ensures ViewIs(r, st, Put(v, id, r.pages[p].data), i) {
      assert ViewIs(n, st, v, i) && PageOk(n, p);
      ModifyView(n, t, p, (st, i));
    }
    forall q: nat ensures PinsAre(s, r, held + multiset{p}, q) { assert PinsAre(s, n, held + multiset{p}, q); }
    forall q: nat ensures StaysBound(s, r, q) { BoundStep(s, n, r, t, held + multiset{p}, p, q); }
  }

  /** The pages of a store, as a volume. */
  ghost function Vol(s: State, st: nat): Volume {
    (id: nat) => if st < |s.disks| then View(s, (st, id)) else []
  }

  lemma ViewSized(s: State, k: (nat, nat))
    requires Core(s) && k.0 < |s.disks|
    ensures |View(s, k)| == s.pageSize
  {
    assert DiskOk(s.disks[k.0], s.pageSize);
    if k in s.pageMap { assert KeyOk(s, k) && PageOk(s, s.pageMap[k]); }
  }

  lemma DuringStart(s: State, t: nat)
    requires CanWrite(s, t)
    ensures During(s, s, t, Vol(s, s.txns[t].store), multiset{})
  {
    var st := s.txns[t].store;
    forall x | 0 <= x < |s.stores| ensures StoreStays(s, s, x) {}
    forall k: (nat, nat) ensures OtherView(s, s, st, k) {}
    forall id: nat ensures StaysModifiable(s, s, t, id) {}
    forall x: nat ensures StaysIdle(s, s, st, x) {}
    forall id: nat ensures ViewIs(s, st, Vol(s, st), id) {}
    forall q: nat ensures PinsAre(s, s, multiset{}, q) {}
    forall q: nat ensures StaysBound(s, s, q) {}
  }

  lemma DuringEqual(s: State, m: State, t: nat, v: Volume, w: Volume, held: multiset<nat>)
    requires During(s, m, t, v, held) && forall id: nat :: w(id) == v(id)
    ensures During(s, m, t, w, held)
  {
    forall id: nat ensures ViewIs(m, m.txns[t].store, w, id) { assert ViewIs(m, m.txns[t].store, v, id); }
  }
}
