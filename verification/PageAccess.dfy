/** Fetching, modifying and releasing the pages of a store, as an operation of a
    transaction does it. `s`, `v` and `held` say how far the operation has got:
    it began in state s, the pages hold v now, and it has pinned the entries in
    `held`. */
module PageAccess {
  import opened Bytes
  import opened Buffers
  import opened StatusCodes
  import opened PoolModel
  import opened PoolOps
  import opened PageSession
  import opened PageCache
  import opened FreeList

  /** What the file system will answer to the next fetch. */
  method NextAnswer(pool: PagePool, read: Status, files: Files) returns (io: Io)
    requires pool.Mirrors() && Core(pool.Model())
    ensures io == Answer(pool.Model(), read, files)
  {
    var ok := true;
    if pool.lruList != [] {
      var p := pool.lruList[0];
      assert LruAt(pool.Model(), 0) && PageOk(pool.Model(), p) && p in pool.lruList && pool.EntryIs(p);
      ok := pool.txns[pool.entries[p].transaction.value].store !in files.bad;
    }
    return Io(read, ok, files.fails);
  }

  method FetchPage(pool: PagePool, t: nat, id: nat, read: Status, files: Files,
                   ghost s: State, ghost v: Volume, ghost held: multiset<nat>)
    returns (status: Status, p: nat)
    requires pool.Mirrors() && During(s, pool.Model(), t, v, held) && Reliable(s, t, files)
    modifies pool, pool.entries, pool.Buffers()
    ensures pool.Mirrors() && pool.Grown()
    ensures status == FetchStatus(old(pool.Model()), old(pool.txns)[t].store, id, FetchPageData, read)
    ensures status == Success ==>
      During(s, pool.Model(), t, v, held + multiset{p}) && Caches(pool.Model(), t, p, id)
    ensures status != Success ==> During(s, pool.Model(), t, v, held)
    ensures LeadsTo(old(pool.Model()), pool.Model(), t, id, read, files)
    ensures OnlyBadClosed(old(pool.stores), pool.stores, files)
    ensures forall q: nat, i: nat :: q in held && Caches(old(pool.Model()), t, q, i) ==> Caches(pool.Model(), t, q, i)
  {
    var io := NextAnswer(pool, read, files);
    DuringCanFetch(s, pool.Model(), t, v, held, id, read, files);
    DuringFetch(s, pool.Model(), t, v, held, id, io);
    OnlyBadAnswer(pool.Model(), pool.txns[t].store, id, read, files);
    var page;
    status, page := pool.StorePage(pool.txns[t].store, id, FetchPageData, io);
    p := if page.Some? then page.value else 0;
  }

  /** The page stays cached, and if nothing else pins it, it is the last one that
      will be evicted. */
  method ReleasePage(pool: PagePool, t: nat, p: nat, ghost id: nat,
                     ghost s: State, ghost v: Volume, ghost held: multiset<nat>)
    requires pool.Mirrors() && During(s, pool.Model(), t, v, held) && p in held && Caches(pool.Model(), t, p, id)
    modifies pool`lruList, pool`mPages, pool`clock, pool.entries
    ensures pool.Mirrors() && During(s, pool.Model(), t, v, held - multiset{p})
    ensures forall q: nat, i: nat :: Caches(old(pool.Model()), t, q, i) ==> Caches(pool.Model(), t, q, i)
    ensures pool.stores == old(pool.stores) && pool.pageMap == old(pool.pageMap)
    ensures p < |old(pool.mPages)|
    ensures old(pool.mPages)[p].pins == 1 ==> pool.lruList == old(pool.lruList) + [p]
  {
    DuringUnpin(s, pool.Model(), t, v, held, p, id);
    assert pool.EntryIs(p);
    pool.UnpinStorePage(p, CachePage);
  }

  method ModifyPage(pool: PagePool, t: nat, p: nat, ghost id: nat,
                    ghost s: State, ghost v: Volume, ghost held: multiset<nat>)
    requires pool.Mirrors() && During(s, pool.Model(), t, v, held) && p in held && Caches(pool.Model(), t, p, id)
    requires Modifiable(s, t, id)
    modifies pool`lists, pool`mPages, pool.entries
    ensures pool.Mirrors() && During(s, pool.Model(), t, v, held)
    ensures p < |pool.mPages| && pool.mPages[p].dirty
    ensures forall q: nat, i: nat :: Caches(old(pool.Model()), t, q, i) ==> Caches(pool.Model(), t, q, i)
    ensures forall q :: 0 <= q < |old(pool.mPages)| && old(pool.mPages)[q].dirty ==>
      q < |pool.mPages| && pool.mPages[q].dirty
  {
    DuringModify(s, pool.Model(), t, v, held, p, id);
    assert pool.EntryIs(p);
    pool.WillModifyPage(t, p);
  }

  /** The pages hold v, save for page id, which holds b. */
  lemma AsPut(s: State, m: State, t: nat, v: Volume, held: multiset<nat>, p: nat, id: nat)
    requires During(s, m, t, v, held) && Caches(m, t, p, id)
    ensures |v(id)| == m.pageSize && During(s, m, t, Put(v, id, v(id)), held)
  {
    DuringRead(s, m, t, v, held, p, id);
    DuringEqual(s, m, t, v, Put(v, id, v(id)), held);
  }

  /** Stores a value in page id, which holds b while the others hold v. */
  method WritePage64(pool: PagePool, t: nat, p: nat, ghost id: nat, at: nat, x: nat,
                     ghost s: State, ghost v: Volume, ghost b: Block, ghost held: multiset<nat>)
    returns (ghost c: Block)
    requires pool.Mirrors() && During(s, pool.Model(), t, Put(v, id, b), held) && Caches(pool.Model(), t, p, id)
    requires pool.mPages[p].dirty && at + 8 <= |b| == pool.pageSize
    modifies pool`mPages, pool.Buffers()
    ensures pool.Mirrors() && c == Store64(b, at, x) && During(s, pool.Model(), t, Put(v, id, c), held)
    ensures forall q: nat, i: nat :: Caches(old(pool.Model()), t, q, i) ==> Caches(pool.Model(), t, q, i)
    ensures forall q :: 0 <= q < |old(pool.mPages)| ==>
      q < |pool.mPages| && pool.mPages[q].dirty == old(pool.mPages)[q].dirty
  {
    DuringRead(s, pool.Model(), t, Put(v, id, b), held, p, id);
    c := Store64(b, at, x);
    DuringWrite(s, pool.Model(), t, Put(v, id, b), held, p, id, c);
    assert pool.EntryIs(p);
    pool.StoreInPage(p, at, x);
    DuringEqual(s, pool.Model(), t, Put(Put(v, id, b), id, c), Put(v, id, c), held);
  }

  method ReadPage64(pool: PagePool, t: nat, p: nat, ghost id: nat, at: nat,
                    ghost s: State, ghost v: Volume, ghost held: multiset<nat>) returns (x: nat)
    requires pool.Mirrors() && During(s, pool.Model(), t, v, held) && Caches(pool.Model(), t, p, id)
    requires at + 8 <= pool.pageSize
    ensures at + 8 <= |v(id)| && x == Load64(v(id), at)
  {
    DuringRead(s, pool.Model(), t, v, held, p, id);
    assert pool.EntryIs(p);
    x := LoadUint64(pool.entries[p].buffer, at);
  }

  /** Fetches a page without its data, for overwriting. */
  method FetchBlank(pool: PagePool, t: nat, id: nat, files: Files,
                    ghost s: State, ghost v: Volume, ghost held: multiset<nat>)
    returns (status: Status, p: nat)
    requires pool.Mirrors() && During(s, pool.Model(), t, v, held) && Reliable(s, t, files) && Modifiable(s, t, id)
    modifies pool, pool.entries, pool.Buffers()
    ensures pool.Mirrors() && pool.Grown()
    ensures status == FetchStatus(old(pool.Model()), old(pool.txns)[t].store, id, IgnorePageData, Success)
    ensures status == Success ==>
      && Claimed(s, pool.Model(), t, v, held, p, id)
      && pool.mPages[p].data == Blank(old(pool.Model()), old(pool.txns)[t].store, id, v)
    ensures status != Success ==> During(s, pool.Model(), t, v, held)
    ensures OnlyBadClosed(old(pool.stores), pool.stores, files)
  {
    var io := NextAnswer(pool, Success, files);
    DuringCanFetch(s, pool.Model(), t, v, held, id, Success, files);
    DuringClaim(s, pool.Model(), t, v, held, id, io);
    OnlyBadAnswer(pool.Model(), pool.txns[t].store, id, Success, files);
    var page;
    status, page := pool.StorePage(pool.txns[t].store, id, IgnorePageData, io);
    p := if page.Some? then page.value else 0;
  }

  /** Announces a page that was fetched without its data as modified. */
  method ModifyBlank(pool: PagePool, t: nat, p: nat, ghost id: nat,
                     ghost s: State, ghost v: Volume, ghost held: multiset<nat>) returns (ghost scratch: Block)
    requires pool.Mirrors() && Claimed(s, pool.Model(), t, v, held, p, id)
    modifies pool`lists, pool`mPages, pool.entries
    ensures pool.Mirrors() && Caches(pool.Model(), t, p, id)
    ensures |scratch| == pool.pageSize && p < |old(pool.mPages)| && scratch == old(pool.mPages)[p].data
    ensures During(s, pool.Model(), t, Put(v, id, scratch), held + multiset{p})
    ensures p < |pool.mPages| && pool.mPages[p].dirty
    ensures pool.stores == old(pool.stores) && pool.pageMap == old(pool.pageMap)
  {
    scratch := pool.mPages[p].data;
    assert LookedAt(pool.Model()) && pool.EntryIs(p);
    pool.WillModifyPage(t, p);
  }

  /** A page for overwriting. `scratch` is what its buffer holds. */
  method ClaimPage(pool: PagePool, t: nat, id: nat, files: Files,
                   ghost s: State, ghost v: Volume, ghost held: multiset<nat>)
    returns (status: Status, p: nat, ghost scratch: Block)
    requires pool.Mirrors() && During(s, pool.Model(), t, v, held) && Reliable(s, t, files) && Modifiable(s, t, id)
    modifies pool, pool.entries, pool.Buffers()
    ensures pool.Mirrors() && pool.Grown() && |scratch| == pool.pageSize
    ensures status == FetchStatus(old(pool.Model()), old(pool.txns)[t].store, id, IgnorePageData, Success)
    ensures status == Success ==>
      && During(s, pool.Model(), t, Put(v, id, scratch), held + multiset{p}) && Caches(pool.Model(), t, p, id)
      && p < |pool.mPages| && pool.mPages[p].dirty
      && scratch == Blank(old(pool.Model()), old(pool.txns)[t].store, id, v)
    ensures status != Success ==> During(s, pool.Model(), t, v, held)
    ensures OnlyBadClosed(old(pool.stores), pool.stores, files)
  {
    status, p := FetchBlank(pool, t, id, files, s, v, held);
    scratch := Filled(pool.pageSize, 0);
    if status == Success {
      scratch := ModifyBlank(pool, t, p, id, s, v, held);
    }
  }

  /** Copies bytes of page j to page id, which holds b while the others hold v. */
  method CopyPage(pool: PagePool, t: nat, q: nat, ghost j: nat, start: nat, len: nat, p: nat, ghost id: nat, at: nat,
                  ghost s: State, ghost v: Volume, ghost b: Block, ghost held: multiset<nat>)
    returns (ghost c: Block)
    requires pool.Mirrors() && During(s, pool.Model(), t, Put(v, id, b), held)
    requires Caches(pool.Model(), t, p, id) && Caches(pool.Model(), t, q, j) && j != id
    requires pool.mPages[p].dirty && at + len <= |b| == pool.pageSize && start + len <= pool.pageSize
    modifies pool`mPages, pool.Buffers()
    ensures pool.Mirrors() && |v(j)| == pool.pageSize && c == Copy(v(j), start, len, b, at)
    ensures During(s, pool.Model(), t, Put(v, id, c), held)
    ensures forall q: nat, i: nat :: Caches(old(pool.Model()), t, q, i) ==> Caches(pool.Model(), t, q, i)
    ensures forall q :: 0 <= q < |old(pool.mPages)| ==>
      q < |pool.mPages| && pool.mPages[q].dirty == old(pool.mPages)[q].dirty
  {
    DuringRead(s, pool.Model(), t, Put(v, id, b), held, p, id);
    DuringRead(s, pool.Model(), t, Put(v, id, b), held, q, j);
    c := Copy(v(j), start, len, b, at);
    DuringWrite(s, pool.Model(), t, Put(v, id, b), held, p, id, c);
    assert pool.EntryIs(p) && pool.EntryIs(q);
    pool.CopyToPage(q, start, len, p, at);
    DuringEqual(s, pool.Model(), t, Put(Put(v, id, b), id, c), Put(v, id, c), held);
  }
}
