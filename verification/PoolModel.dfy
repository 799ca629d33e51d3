/** The state of a page pool, the stores that use it and their transactions,
    as a value, and the single steps that operations are made of.

    Page pool entries, transactions and stores are named by their position in
    the tables of the state, in order of creation. */
module PoolModel {
  import opened Bytes
  import opened Lists

  /** A page pool entry. `owner` is the transaction the entry is assigned to.

      `stale` and `stamp` are bookkeeping of the model: `stale` marks an entry
      that was assigned with kIgnorePageData and not yet announced as modified,
      and `stamp` records when and how the entry last lost its last pin. */
  datatype PageRec = PageRec(owner: Option<nat>, id: nat, pins: nat, dirty: bool,
                             data: Block, stale: bool, stamp: int)

  /** A transaction, without the list of entries assigned to it. */
  datatype TxnRec = TxnRec(store: nat, isInit: bool, closed: bool, committed: bool)

  datatype Phase = Open | Closing | Closed

  /** A store, without the contents of its data file. */
  datatype StoreRec = StoreRec(init: nat, txns: seq<nat>, phase: Phase)

  /** `lists[t]` holds the entries assigned to transaction t (its pool_pages_),
      and `disks[st]` the blocks of the data file of store st. */
  datatype State = State(capacity: nat, pageSize: nat,
                         pages: seq<PageRec>, lists: seq<seq<nat>>, disks: seq<map<nat, Block>>,
                         txns: seq<TxnRec>, stores: seq<StoreRec>,
                         pageMap: map<(nat, nat), nat>,
                         free: seq<nat>, lru: seq<nat>, clock: nat)

  datatype FetchMode = FetchPageData | IgnorePageData
  datatype UnpinMode = CachePage | DiscardPage

  /** A buffer in which every byte has the same value. */
  function Filled(n: nat, x: byte): (b: Block)
    ensures |b| == n
  {
    seq(n, _ => x)
  }

  /** A block of a data file; blocks that were never written hold zeroes. */
  function BlockOf(disk: map<nat, Block>, id: nat, pageSize: nat): Block {
    if id in disk then disk[id] else Filled(pageSize, 0)
  }

  // ---------------------------------------------------------------------
  // Invariants

  ghost function DiskBlock(s: State, k: (nat, nat)): Block
    requires k.0 < |s.disks|
  {
    BlockOf(s.disks[k.0], k.1, s.pageSize)
  }

  /** The references of an assigned entry are good. */
  ghost predicate Assigned(s: State, p: nat) {
    && p < |s.pages| && s.pages[p].owner.Some?
    && s.pages[p].owner.value < |s.txns| == |s.lists|
    && s.txns[s.pages[p].owner.value].store < |s.stores| == |s.disks|
  }

  /** The store page cached by an assigned entry. */
  ghost function KeyOf(s: State, p: nat): (nat, nat)
    requires Assigned(s, p)
  {
    (s.txns[s.pages[p].owner.value].store, s.pages[p].id)
  }

  /** Each entry is unpinned and in exactly one list, or pinned and in neither.

      An assigned entry is the one its key maps to, is in the list of its owner,
      is dirty exactly when its owner is not an init transaction, and mirrors its
      block if it is clean and has no pending kIgnorePageData obligation. */
  ghost predicate PageOk(s: State, p: nat)
    requires p < |s.pages|
  {
    var e := s.pages[p];
    && |e.data| == s.pageSize
    && -(s.clock as int) <= e.stamp <= s.clock
    && (p in s.free <==> e.pins == 0 && e.owner.None?)
    && (p in s.lru <==> e.pins == 0 && e.owner.Some?)
    && (e.owner.None? ==> !e.dirty && !e.stale)
    && (e.owner.Some? ==>
          && Assigned(s, p)
          && KeyOf(s, p) in s.pageMap && s.pageMap[KeyOf(s, p)] == p
          && p in s.lists[e.owner.value]
          && (e.dirty <==> !s.txns[e.owner.value].isInit)
          && (e.stale ==> !e.dirty && e.pins > 0)
          && (e.dirty || e.stale || e.data == DiskBlock(s, KeyOf(s, p))))
  }

  /** A transaction lists each entry assigned to it once, and no other entry. */
  ghost predicate ListOk(s: State, t: nat)
    requires t < |s.lists|
  {
    && NoDup(s.lists[t])
    && (forall i :: 0 <= i < |s.lists[t]| ==>
          s.lists[t][i] < |s.pages| && s.pages[s.lists[t][i]].owner == Some(t))
  }

  /** Every store has one init transaction, which belongs to it. */
  ghost predicate TxnOk(txns: seq<TxnRec>, stores: seq<StoreRec>, t: nat)
    requires t < |txns|
  {
    txns[t].store < |stores| && (txns[t].isInit <==> stores[txns[t].store].init == t)
  }

  ghost predicate StoreOk(txns: seq<TxnRec>, stores: seq<StoreRec>, st: nat)
    requires st < |stores|
  {
    stores[st].init < |txns| && txns[stores[st].init].store == st
  }

  ghost predicate DiskOk(disk: map<nat, Block>, pageSize: nat) {
    forall id :: id in disk ==> |disk[id]| == pageSize
  }

  ghost predicate KeyOk(s: State, k: (nat, nat))
    requires k in s.pageMap
  {
    Assigned(s, s.pageMap[k]) && KeyOf(s, s.pageMap[k]) == k
  }

  /** The free list is in the order in which the entries became free. */
  ghost predicate FreeAt(s: State, i: nat)
    requires i < |s.free|
  {
    s.free[i] < |s.pages| &&
    forall j :: 0 <= j < i ==>
      s.free[j] < |s.pages| && s.pages[s.free[j]].stamp < s.pages[s.free[i]].stamp
  }

  /** The LRU list is in order of eviction: entries unpinned with kDiscardPage,
      the latest first, and then the others, the least recently unpinned first. */
  ghost predicate LruAt(s: State, i: nat)
    requires i < |s.lru|
  {
    s.lru[i] < |s.pages| &&
    forall j :: 0 <= j < i ==>
      s.lru[j] < |s.pages| && s.pages[s.lru[j]].stamp < s.pages[s.lru[i]].stamp
  }

  ghost predicate Core(s: State) {
    && (forall p :: 0 <= p < |s.pages| ==> PageOk(s, p))
    && |s.lists| == |s.txns| && |s.disks| == |s.stores|
    && (forall t :: 0 <= t < |s.txns| ==> TxnOk(s.txns, s.stores, t))
    && (forall st :: 0 <= st < |s.stores| ==> StoreOk(s.txns, s.stores, st))
    && (forall st :: 0 <= st < |s.disks| ==> DiskOk(s.disks[st], s.pageSize))
    && (forall t :: 0 <= t < |s.lists| ==> ListOk(s, t))
    && (forall k :: k in s.pageMap ==> KeyOk(s, k))
    && |s.pages| <= s.capacity
    && (forall i :: 0 <= i < |s.free| ==> FreeAt(s, i))
    && (forall i :: 0 <= i < |s.lru| ==> LruAt(s, i))
  }

  /** What the stores of the pool hold, seen through the cache. */
  ghost function View(s: State, k: (nat, nat)): Block
    requires k.0 < |s.disks|
  {
    if k in s.pageMap && s.pageMap[k] < |s.pages| && !s.pages[s.pageMap[k]].stale
    then s.pages[s.pageMap[k]].data
    else DiskBlock(s, k)
  }

  /** No transaction and no store was created or changed phase. */
  ghost predicate SameLife(s: State, r: State) {
    && r.txns == s.txns && r.stores == s.stores
    && |r.lists| == |s.lists| && |r.disks| == |s.disks|
    && r.capacity == s.capacity && r.pageSize == s.pageSize
  }

  /** The stores that transactions belong to are the same. */
  ghost predicate SameStores(s: State, r: State) {
    && |s.txns| <= |r.txns| && |s.stores| <= |r.stores|
    && forall t :: 0 <= t < |s.txns| ==> r.txns[t].store == s.txns[t].store
  }

  ghost predicate SameView(s: State, r: State) {
    |r.disks| == |s.disks| &&
    forall k: (nat, nat) :: k.0 < |s.disks| ==> View(r, k) == View(s, k)
  }

  // ---------------------------------------------------------------------
  // Steps

  /** PagePool::PinStorePage */
  function Pin(s: State, p: nat): State
    requires p < |s.pages|
  {
    var e := s.pages[p];
    s.(pages := s.pages[p := e.(pins := e.pins + 1)],
       lru := if e.pins == 0 then Remove(s.lru, p) else s.lru)
  }

  /** PagePool::UnpinStorePage */
  function Unpin(s: State, p: nat, mode: UnpinMode): State
    requires p < |s.pages| && s.pages[p].pins > 0
  {
    var e := s.pages[p];
    if e.pins > 1 then
      s.(pages := s.pages[p := e.(pins := e.pins - 1)])
    else
      var stamp := if mode == CachePage then s.clock + 1 else -(s.clock + 1);
      s.(pages := s.pages[p := e.(pins := 0, stamp := stamp)],
         lru := if mode == CachePage then s.lru + [p] else [p] + s.lru,
         clock := s.clock + 1)
  }

  /** PagePool::UnpinUnassignedPage */
  function UnpinUnassigned(s: State, p: nat): State
    requires p < |s.pages| && s.pages[p].pins > 0
  {
    var e := s.pages[p];
    if e.pins > 1 then
      s.(pages := s.pages[p := e.(pins := e.pins - 1)])
    else
      s.(pages := s.pages[p := e.(pins := 0, stamp := s.clock + 1)],
         free := s.free + [p],
         clock := s.clock + 1)
  }

  /** AllocPage, first case: reuse the entry at the front of the free list. */
  function TakeFree(s: State): State
    requires s.free != [] && s.free[0] < |s.pages|
  {
    var p := s.free[0];
    s.(pages := s.pages[p := s.pages[p].(pins := s.pages[p].pins + 1)], free := s.free[1..])
  }

  /** AllocPage, second case: Page::Create. */
  function Create(s: State): State {
    s.(pages := s.pages + [PageRec(None, 0, 1, false, Filled(s.pageSize, 0), false, 0)])
  }

  /** StoreImpl::WritePage when the write succeeds. */
  ghost function WriteBack(s: State, p: nat): State
    requires Assigned(s, p)
  {
    var (st, id) := KeyOf(s, p);
    s.(disks := s.disks[st := s.disks[st][id := s.pages[p].data]])
  }

  /** The entry leaves the page map and its owner's list. */
  ghost function Detach(s: State, p: nat): State
    requires Assigned(s, p)
  {
    var e := s.pages[p];
    var t := e.owner.value;
    s.(pageMap := s.pageMap - {KeyOf(s, p)},
       pages := s.pages[p := e.(owner := None, dirty := false, stale := false)],
       lists := s.lists[t := Remove(s.lists[t], p)])
  }

  /** PagePool::UnassignPageFromStore up to the point where a failed write
      would close the store. `ok` is the outcome of the write, if there is one. */
  ghost function Unassign(s: State, p: nat, ok: bool): State
    requires Assigned(s, p)
  {
    Detach(if s.pages[p].dirty && ok then WriteBack(s, p) else s, p)
  }

  /** PagePool::AssignPageToStore when the fetch succeeds. */
  function Assign(s: State, p: nat, st: nat, id: nat, data: Block, stale: bool): State
    requires p < |s.pages| && st < |s.stores| && s.stores[st].init < |s.lists|
  {
    var t := s.stores[st].init;
    s.(pageMap := s.pageMap[(st, id) := p],
       pages := s.pages[p := s.pages[p].(owner := Some(t), id := id, data := data, stale := stale)],
       lists := s.lists[t := s.lists[t] + [p]])
  }

  /** What a failed fetch leaves behind on the entry it was meant for. */
  function Relabel(s: State, p: nat, id: nat): State
    requires p < |s.pages|
  {
    s.(pages := s.pages[p := s.pages[p].(id := id)])
  }

  /** Moves an assigned entry to another transaction of its store. */
  function Reassign(s: State, p: nat, t: nat, dirty: bool): State
    requires p < |s.pages| && s.pages[p].owner.Some? && s.pages[p].owner.value < |s.lists|
    requires t < |s.lists| && s.pages[p].owner != Some(t)
  {
    var from := s.pages[p].owner.value;
    s.(pages := s.pages[p := s.pages[p].(owner := Some(t), dirty := dirty, stale := false)],
       lists := s.lists[from := Remove(s.lists[from], p)][t := s.lists[t] + [p]])
  }

  /** TransactionImpl::WillModifyPage */
  function WillModify(s: State, t: nat, p: nat): State
    requires p < |s.pages| && s.pages[p].owner.Some? && s.pages[p].owner.value < |s.lists| && t < |s.lists|
  {
    if s.pages[p].owner == Some(t) then s.(pages := s.pages[p := s.pages[p].(dirty := true)])
    else Reassign(s, p, t, true)
  }

  /** One page of TransactionImpl::Commit: WritePage and PageWasPersisted. */
  ghost function Persist(s: State, p: nat): State
    requires Assigned(s, p) && s.stores[KeyOf(s, p).0].init < |s.lists|
    requires s.pages[p].owner != Some(s.stores[KeyOf(s, p).0].init)
  {
    Reassign(WriteBack(s, p), p, s.stores[KeyOf(s, p).0].init, false)
  }

  /** A pin holder overwrites the buffer of an entry it announced as modified. */
  function Scribble(s: State, p: nat, data: Block): State
    requires p < |s.pages|
  {
    s.(pages := s.pages[p := s.pages[p].(data := data)])
  }
}
