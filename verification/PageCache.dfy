/** The page pool as an object that is updated in place. Its entries are objects
    with a buffer each; transactions and stores are rows of tables. The value of
    the whole is a State of PoolModel, and every method is specified by the
    operation of the model with the same name. */
module PageCache {
  import opened Bytes
  import opened Lists
  import opened Buffers
  import opened StatusCodes
  import opened PoolModel
  import opened PoolSteps
  import opened PoolOps
  import opened PoolClose
  import opened PoolCommit
  import opened PoolReentry
  import opened PoolFetch
  import opened PoolUpdates
  import PoolRuns
  import PoolLaws

  /** A page pool entry: a control block and the buffer behind it. */
  class Page {
    const buffer: array<byte>
    /** The transaction that the entry is assigned to, by its row. */
    var transaction: Option<nat>
    var pageId: nat
    var pinCount: nat
    var isDirty: bool
    ghost var stale: bool
    ghost var stamp: int

    ghost function Rec(): PageRec
      reads this, buffer
    {
      PageRec(transaction, pageId, pinCount, isDirty, buffer[..], stale, stamp)
    }

    /** Page::Create */
    constructor (pageSize: nat)
      ensures fresh(buffer) && buffer.Length == pageSize
      ensures Rec() == PageRec(None, 0, 1, false, Filled(pageSize, 0), false, 0)
    {
      buffer := new byte[pageSize](_ => 0);
      transaction, pageId, pinCount, isDirty := None, 0, 1, false;
      stale, stamp := false, 0;
    }

    method AddPin()
      modifies this`pinCount
      ensures pinCount == old(pinCount) + 1
    {
      pinCount := pinCount + 1;
    }

    method RemovePin()
      requires pinCount != 0
      modifies this`pinCount
      ensures pinCount == old(pinCount) - 1
    {
      pinCount := pinCount - 1;
    }
  }

  class PagePool {
    const pageSize: nat
    const pageCapacity: nat
    var entries: seq<Page>
    var pageMap: map<(nat, nat), nat>
    var freeList: seq<nat>
    var lruList: seq<nat>
    var lists: seq<seq<nat>>
    var disks: seq<map<nat, Block>>
    var txns: seq<TxnRec>
    var stores: seq<StoreRec>

    ghost var mPages: seq<PageRec>
    ghost var clock: nat

    ghost function Model(): State
      reads this
    {
      State(pageCapacity, pageSize, mPages, lists, disks, txns, stores, pageMap, freeList, lruList, clock)
    }

    ghost predicate EntryIs(p: nat)
      requires p < |entries|
      reads this`entries, this`mPages, entries, entries[p].buffer
    {
      && p < |mPages| && entries[p].Rec() == mPages[p]
      && forall q :: 0 <= q < p ==> entries[q] != entries[p] && entries[q].buffer != entries[p].buffer
    }

    /** The entries have the values that the model says, in memory of their own. */
    ghost predicate Mirrors()
      reads this`entries, this`mPages, entries, (set e | e in entries :: e.buffer)
    {
      |entries| == |mPages| && forall p :: 0 <= p < |entries| ==> EntryIs(p)
    }

    twostate lemma OneEntryChanged(p: nat)
      requires old(Mirrors()) && entries == old(entries) && p < |entries|
      requires mPages == old(mPages)[p := entries[p].Rec()]
      requires forall e :: e in entries && e != entries[p] ==> unchanged(e)
      requires forall e :: e in entries && e != entries[p] ==> unchanged(e.buffer)
      ensures Mirrors()
    {
      forall q | 0 <= q < |entries| ensures EntryIs(q) {
        assert old(EntryIs(q)) && old(EntryIs(p));
        if q != p {
          var e := entries[q];
          assert e in entries && e != entries[p];
          assert unchanged(e) && unchanged(e.buffer);
          assert e.Rec() == old(e.Rec());
        }
      }
    }

    /** A step that touches neither the pool nor its entries. */
    twostate lemma NothingChanged()
      requires old(Mirrors()) && unchanged(this)
      requires forall e :: e in entries ==> unchanged(e) && unchanged(e.buffer)
      ensures Mirrors()
    {
      forall p | 0 <= p < |entries| ensures EntryIs(p) { assert old(EntryIs(p)); }
    }

    lemma DistinctBuffers(p: nat)
      requires Mirrors() && p < |entries|
      ensures forall e :: e in entries && e != entries[p] ==> e.buffer != entries[p].buffer
    {
      forall q | 0 <= q < |entries| && entries[q] != entries[p] ensures entries[q].buffer != entries[p].buffer {
        assert EntryIs(q) && EntryIs(p);
      }
    }

    /** PagePool::PinStorePage */
    method PinStorePage(p: nat)
      requires Mirrors() && p < |entries| && entries[p].transaction.Some?
      modifies this`lruList, this`mPages, entries[p]
      ensures Mirrors() && p < |old(mPages)| && Model() == Pin(old(Model()), p)
    {
      assert EntryIs(p);
      if entries[p].pinCount == 0 {
        lruList := Remove(lruList, p);
      }
      entries[p].AddPin();
      mPages := mPages[p := entries[p].Rec()];
      OneEntryChanged(p);
    }

    /** PagePool::UnpinStorePage */
    method UnpinStorePage(p: nat, mode: UnpinMode)
      requires Mirrors() && p < |entries| && entries[p].transaction.Some? && entries[p].pinCount > 0
      modifies this`lruList, this`mPages, this`clock, entries[p]
      ensures Mirrors() && p < |old(mPages)| && old(mPages)[p].pins > 0
      ensures Model() == Unpin(old(Model()), p, mode)
    {
      assert EntryIs(p);
      entries[p].RemovePin();
      if entries[p].pinCount == 0 {
        if mode == CachePage {
          lruList := lruList + [p];
        } else {
          lruList := [p] + lruList;
        }
        clock := clock + 1;
        entries[p].stamp := if mode == CachePage then clock else -(clock as int);
      }
      mPages := mPages[p := entries[p].Rec()];
      OneEntryChanged(p);
    }

    /** PagePool::UnpinUnassignedPage */
    method UnpinUnassignedPage(p: nat)
      requires Mirrors() && p < |entries| && entries[p].transaction.None? && entries[p].pinCount > 0
      modifies this`freeList, this`mPages, this`clock, entries[p]
      ensures Mirrors() && p < |old(mPages)| && old(mPages)[p].pins > 0
      ensures Model() == UnpinUnassigned(old(Model()), p)
    {
      assert EntryIs(p);
      entries[p].RemovePin();
      if entries[p].pinCount == 0 {
        freeList := freeList + [p];
        clock := clock + 1;
        entries[p].stamp := clock;
      }
      mPages := mPages[p := entries[p].Rec()];
      OneEntryChanged(p);
    }

    /** The list work of WillModifyPage and PageWasPersisted. */
    method ReassignToTransaction(p: nat, t: nat, dirty: bool)
      requires Mirrors() && p < |entries| && entries[p].transaction.Some? && entries[p].transaction.value < |lists|
      requires t < |lists| && entries[p].transaction != Some(t)
      modifies this`lists, this`mPages, entries[p]
      ensures Mirrors() && p < |old(mPages)| && old(mPages)[p].owner == old(entries[p].transaction)
      ensures Model() == Reassign(old(Model()), p, t, dirty)
    {
      assert EntryIs(p);
      var from := entries[p].transaction.value;
      lists := lists[from := Remove(lists[from], p)];
      lists := lists[t := lists[t] + [p]];
      entries[p].transaction := Some(t);
      entries[p].isDirty := dirty;
      entries[p].stale := false;
      mPages := mPages[p := entries[p].Rec()];
      OneEntryChanged(p);
    }

    /** TransactionImpl::WillModifyPage */
    method WillModifyPage(t: nat, p: nat)
      requires Mirrors() && p < |entries| && PoolRuns.MayModify(Model(), t, p)
      modifies this`lists, this`mPages, entries[p]
      ensures Mirrors() && Model() == WillModify(old(Model()), t, p)
    {
      assert EntryIs(p);
      if entries[p].transaction != Some(t) {
        ReassignToTransaction(p, t, true);
      } else {
        entries[p].isDirty := true;
        mPages := mPages[p := entries[p].Rec()];
        OneEntryChanged(p);
      }
    }

    /** StoreImpl::WritePage; `ok` is the answer of the file system. */
    method WritePage(p: nat, ok: bool) returns (status: Status)
      requires Mirrors() && p < |entries| && Assigned(Model(), p) && entries[p].isDirty
      modifies this`disks
      ensures Mirrors() && status == if ok then Success else IoError
      ensures Model() == if ok then WriteBack(old(Model()), p) else old(Model())
    {
      assert EntryIs(p);
      if !ok {
        return IoError;
      }
      var st := txns[entries[p].transaction.value].store;
      disks := disks[st := disks[st][entries[p].pageId := entries[p].buffer[..]]];
      return Success;
    }

    /** TransactionImpl::PageWasPersisted, for a transaction that is not init */
    method PageWasPersisted(t: nat, p: nat)
      requires Mirrors() && p < |entries| && entries[p].transaction == Some(t)
      requires t < |txns| && t < |lists| && txns[t].store < |stores|
      requires stores[txns[t].store].init < |lists| && stores[txns[t].store].init != t
      modifies this`lists, this`mPages, entries[p]
      ensures Mirrors() && p < |old(mPages)| && old(mPages)[p].owner == Some(t)
      ensures Model() == Reassign(old(Model()), p, stores[txns[t].store].init, false)
    {
      ReassignToTransaction(p, stores[txns[t].store].init, false);
    }

    /** PagePool::PinTransactionPages */
    method PinTransactionPages(t: nat)
      requires Mirrors() && Core(Model()) && t < |txns|
      modifies this`lruList, this`mPages, entries
      ensures Mirrors() && InTable(old(Model()), lists[t])
      ensures Model() == PinAll(old(Model()), lists[t])
    {
      assert ListOk(Model(), t);
      var i := 0;
      while i < |lists[t]|
        invariant 0 <= i <= |lists[t]| && Mirrors() && |mPages| == |old(mPages)|
        invariant InTable(Model(), lists[t][i..])
        invariant forall k :: i <= k < |lists[t]| ==> mPages[lists[t][k]].owner.Some?
        invariant PinAll(Model(), lists[t][i..]) == PinAll(old(Model()), lists[t])
      {
        var page := lists[t][i];
        assert EntryIs(page);
        assert lists[t][i..][0] == page && lists[t][i..][1..] == lists[t][i + 1..];
        PinStorePage(page);
        i := i + 1;
      }
      assert lists[t][i..] == [];
    }

    /** One round of Commit's loop: write the page, hand it to init, drop the pin. */
    method CommitPage(t: nat, p: nat)
      requires Mirrors() && CanCommitFirst(Model(), t) && p == lists[t][0]
      modifies this`disks, this`lists, this`mPages, this`lruList, this`clock, entries
      ensures Mirrors() && Model() == CommitFirst(old(Model()), t)
    {
      CommitFirstSteps(Model(), t);
      assert EntryIs(p);
      var status := WritePage(p, true);
      PageWasPersisted(t, p);
      assert EntryIs(p);
      UnpinStorePage(p, CachePage);
    }

    /** The loop of TransactionImpl::Commit; its iterator is past `page` before
        PageWasPersisted moves the page to another list. */
    method WriteTransactionPages(t: nat)
      requires Mirrors() && Core(Model()) && AllPinned(Model(), t) && !txns[t].isInit
      modifies this`disks, this`lists, this`mPages, this`lruList, this`clock, entries
      ensures Mirrors() && Model() == CommitAll(old(Model()), t)
    {
      var it := lists[t];
      while it != []
        invariant Mirrors() && Core(Model()) && AllPinned(Model(), t) && it == lists[t]
        invariant CommitAll(Model(), t) == CommitAll(old(Model()), t)
        decreases |it|
      {
        var page := it[0];
        it := it[1..];
        CommitFirstRound(Model(), t);
        CommitPage(t, page);
      }
    }

    /** TransactionImpl::Commit when every write succeeds. */
    method CommitTxn(t: nat) returns (status: Status)
      requires Mirrors() && Inv(Model()) && t < |txns| && !txns[t].isInit
      modifies this`lists, this`disks, this`txns, this`stores, this`lruList, this`mPages, this`clock, entries
      ensures Mirrors() && (Model(), status) == Commit(old(Model()), t)
      ensures status == if old(txns)[t].closed then AlreadyClosed else Success
      ensures old(txns)[t].closed ==> Model() == old(Model())
    {
      if txns[t].closed {
        return AlreadyClosed;
      }
      OpenTxn(Model(), t);
      CommitSteps(Model(), t);
      PinTransactionPages(t);
      WriteTransactionPages(t);
      Committed(t);
      LeaveStore(t);
      return Success;
    }

    /** The flags that Commit sets once its pages are written. */
    method Committed(t: nat)
      requires Mirrors() && t < |txns|
      modifies this`txns
      ensures Mirrors() && Model() == MarkClosed(MarkCommitted(old(Model()), t), t)
    {
      txns := txns[t := txns[t].(committed := true)];
      txns := txns[t := txns[t].(closed := true)];
    }

    /** StoreImpl::TransactionClosed */
    method LeaveStore(t: nat)
      requires Mirrors() && t < |txns| && txns[t].store < |stores| && stores[txns[t].store].phase != Closed
      modifies this`stores
      ensures Mirrors() && Model() == TransactionClosed(old(Model()), t)
    {
      var st := txns[t].store;
      if stores[st].phase == Open {
        stores := stores[st := stores[st].(txns := Remove(stores[st].txns, t))];
      }
    }

    /** TransactionImpl::UnassignPage and UnassignPersistedPage */
    method LeaveTransaction(p: nat)
      requires Mirrors() && p < |entries| && entries[p].transaction.Some? && entries[p].transaction.value < |lists|
      requires entries[p].pinCount == 1
      modifies this`lists, this`mPages, entries[p]
      ensures Mirrors() && p < |old(mPages)| && old(mPages)[p].owner == old(entries[p].transaction)
      ensures var e := old(mPages)[p];
        Model() == old(Model()).(pages := old(mPages)[p := e.(owner := None, dirty := false, stale := false)],
                                 lists := old(lists)[e.owner.value := Remove(old(lists)[e.owner.value], p)])
    {
      assert EntryIs(p);
      var t := entries[p].transaction.value;
      lists := lists[t := Remove(lists[t], p)];
      entries[p].transaction := None;
      entries[p].isDirty := false;
      entries[p].stale := false;
      mPages := mPages[p := entries[p].Rec()];
      OneEntryChanged(p);
    }

    /** UnassignPageFromStore without its last line. */
    method UnassignPage(p: nat, ok: bool) returns (status: Status)
      requires Mirrors() && p < |entries| && Assigned(Model(), p) && mPages[p].pins == 1
      modifies this`pageMap, this`disks, this`lists, this`mPages, entries[p]
      ensures Mirrors() && Model() == Unassign(old(Model()), p, ok)
      ensures status == if old(mPages)[p].dirty && !ok then IoError else Success
    {
      assert EntryIs(p);
      var st := txns[entries[p].transaction.value].store;
      pageMap := pageMap - {(st, entries[p].pageId)};
      status := Success;
      if entries[p].isDirty {
        status := WritePage(p, ok);
      }
      LeaveTransaction(p);
    }

    // The rest of UnassignPageFromStore and the methods that close
    // transactions and stores call each other. They terminate, because a store
    // is open at most once.

    ghost function Rank(st: nat): nat
      reads this`stores
    {
      if st < |stores| && stores[st].phase == Open then 1 else 0
    }

    /** PagePool::UnassignPageFromStore */
    method UnassignPageFromStore(p: nat, ok: bool, fails: set<nat>)
      requires Mirrors() && Core(Model()) && p < |entries| && Assigned(Model(), p)
      requires mPages[p].pins == 1 && Closable(Model(), KeyOf(Model(), p).0)
      requires mPages[p].dirty && !ok && stores[KeyOf(Model(), p).0].phase == Open ==>
        OpenIdle(Unassign(Model(), p, ok), KeyOf(Model(), p).0)
      modifies this`pageMap, this`freeList, this`lruList, this`lists, this`disks, this`txns, this`stores,
               this`mPages, this`clock, entries
      ensures Mirrors() && Model() == PoolReentry.UnassignPageFromStore(old(Model()), p, ok, fails)
      decreases Rank(KeyOf(Model(), p).0), 1
    {
      UnassignClosable(Model(), p, ok);
      assert EntryIs(p);
      var st := txns[entries[p].transaction.value].store;
      var status := UnassignPage(p, ok);
      if status != Success {
        var closed := CloseStore(st, fails);
      }
    }

    /** One round of the loop of TransactionImpl::Close. */
    method ReleasePage(t: nat, p: nat, fails: set<nat>)
      requires Mirrors() && Ending(Model(), t) && PinnedOnce(Model(), t) && Calm(Model(), t, fails)
      requires lists[t] != [] && p == lists[t][0]
      modifies this`pageMap, this`freeList, this`lruList, this`lists, this`disks, this`txns, this`stores,
               this`mPages, this`clock, entries
      ensures Mirrors() && Model() == ReleaseNext(old(Model()), t, fails)
      decreases Rank(txns[t].store), 2
    {
      CalmFront(Model(), t, fails);
      FrontUnassigned(Model(), t, fails);
      UnassignPageFromStore(p, p !in fails, fails);
      assert EntryIs(p);
      UnpinUnassignedPage(p);
    }

    /** TransactionImpl::Close */
    method CloseTxn(t: nat, fails: set<nat>)
      requires Mirrors() && Core(Model()) && t < |txns| && Closable(Model(), txns[t].store)
      requires !txns[t].closed && StorePhase(Model(), t) != Closed && Idle(Model(), t) && Calm(Model(), t, fails)
      modifies this`pageMap, this`freeList, this`lruList, this`lists, this`disks, this`txns, this`stores,
               this`mPages, this`clock, entries
      ensures Mirrors() && Model() == RollBack(old(Model()), t, fails)
      decreases Rank(txns[t].store), 4
    {
      EndingLast(Model(), t, fails);
      BeginEnding(Model(), t);
      BeginCalm(Model(), t, fails);
      SetClosed(t);
      PinTransactionPages(t);
      ReleaseTransactionPages(t, fails);
      LeaveStore(t);
    }

    method SetClosed(t: nat)
      requires Mirrors() && t < |txns|
      modifies this`txns
      ensures Mirrors() && Model() == MarkClosed(old(Model()), t)
    {
      txns := txns[t := txns[t].(closed := true)];
    }

    /** The loop of TransactionImpl::Close; its iterator is past `page` before
        the page leaves the list. */
    method ReleaseTransactionPages(t: nat, fails: set<nat>)
      requires Mirrors() && Ending(Model(), t) && PinnedOnce(Model(), t) && Calm(Model(), t, fails)
      modifies this`pageMap, this`freeList, this`lruList, this`lists, this`disks, this`txns, this`stores,
               this`mPages, this`clock, entries
      ensures Mirrors() && Model() == ReleaseRest(old(Model()), t, fails)
      decreases Rank(txns[t].store), 3
    {
      var it := lists[t];
      while it != []
        invariant Mirrors() && Ending(Model(), t) && PinnedOnce(Model(), t) && Calm(Model(), t, fails)
        invariant it == lists[t] && txns[t] == old(txns[t]) && StorePhase(Model(), t) == StorePhase(old(Model()), t)
        invariant ReleaseRest(Model(), t, fails) == ReleaseRest(old(Model()), t, fails)
        decreases |it|
      {
        var page := it[0];
        it := it[1..];
        CalmRound(Model(), t, fails);
        ReleasePage(t, page, fails);
      }
    }

    /** TransactionImpl::Rollback */
    method RollbackTxn(t: nat, fails: set<nat>) returns (status: Status)
      requires Mirrors() && Core(Model()) && t < |txns| && txns[t].store < |stores|
      requires !txns[t].closed ==>
        && Closable(Model(), txns[t].store) && StorePhase(Model(), t) != Closed
        && Idle(Model(), t) && Calm(Model(), t, fails)
      modifies this`pageMap, this`freeList, this`lruList, this`lists, this`disks, this`txns, this`stores,
               this`mPages, this`clock, entries
      ensures Mirrors() && Model() == RollBack(old(Model()), t, fails)
      ensures status == if old(txns)[t].closed then AlreadyClosed else Success
      ensures old(txns)[t].closed ==> Model() == old(Model())
      decreases Rank(txns[t].store), 5
    {
      if txns[t].closed {
        return AlreadyClosed;
      }
      CloseTxn(t, fails);
      return Success;
    }

    /** StoreImpl::Close. Whatever writes fail, it reports success, unless the
        store was closed before or one of its transactions was. */
    method CloseStore(st: nat, fails: set<nat>) returns (status: Status)
      requires Mirrors() && Core(Model()) && Closable(Model(), st)
      requires stores[st].phase == Open ==> OpenIdle(Model(), st)
      modifies this`pageMap, this`freeList, this`lruList, this`lists, this`disks, this`txns, this`stores,
               this`mPages, this`clock, entries
      ensures Mirrors() && ValidQueue(old(Model()), old(stores)[st].txns)
      ensures Model() == PoolClose.CloseStore(old(Model()), st, fails)
      ensures old(stores)[st].phase == Closed ==> status == AlreadyClosed
      ensures old(stores)[st].phase == Closing ==> status == Success
      ensures old(stores)[st].phase == Open ==>
        status == if NoneClosed(old(Model()), st) then Success else AlreadyClosed
      ensures old(stores)[st].phase != Open ==> Model() == old(Model())
      decreases Rank(st), 0
    {
      ClosableQueue(Model(), st);
      if stores[st].phase != Open {
        return if stores[st].phase == Closed then AlreadyClosed else Success;
      }
      CloseStoreSteps(Model(), st, fails);
      BeginDraining(Model(), st);
      if AllOpen(Model(), stores[st].txns) { InitAfterQueue(Model(), st, fails); }
      var queue := stores[st].txns;
      SetStorePhase(st, Closing);
      status := DrainQueue(st, queue, fails);
      DrainInit(Model(), st, fails);
      var rollbackStatus := RollbackTxn(stores[st].init, fails);
      if status == Success {
        status := rollbackStatus;
      }
      SetStorePhase(st, Closed);
    }

    method SetStorePhase(st: nat, phase: Phase)
      requires Mirrors() && st < |stores|
      modifies this`stores
      ensures Mirrors() && Model() == SetPhase(old(Model()), st, phase)
    {
      stores := stores[st := stores[st].(phase := phase, txns := [])];
    }

    /** The loop of StoreImpl::Close over the rollback queue. */
    method DrainQueue(st: nat, queue: seq<nat>, fails: set<nat>) returns (result: Status)
      requires Mirrors() && Draining(Model(), st, queue)
      modifies this`pageMap, this`freeList, this`lruList, this`lists, this`disks, this`txns, this`stores,
               this`mPages, this`clock, entries
      ensures Mirrors() && Model() == RollbackAll(old(Model()), queue, fails)
      ensures Draining(Model(), st, [])
      ensures result == if AllOpen(old(Model()), queue) then Success else AlreadyClosed
      decreases 0, 6
    {
      result := Success;
      var it := queue;
      while it != []
        invariant Mirrors() && Draining(Model(), st, it)
        invariant RollbackAll(Model(), it, fails) == RollbackAll(old(Model()), queue, fails)
        invariant result == Success ==> (AllOpen(old(Model()), queue) <==> AllOpen(Model(), it))
        invariant result != Success ==> result == AlreadyClosed && !AllOpen(old(Model()), queue)
        decreases |it|
      {
        DrainOne(Model(), st, it, fails);
        DrainOpen(Model(), st, it, fails);
        var status := RollbackTxn(it[0], fails);
        if status != Success && result == Success {
          result := status;
        }
        it := it[1..];
      }
    }

    // ---------------------------------------------------------------------
    // Allocation and fetching

    /** The table of entries only grows, by entries in memory of their own. */
    twostate predicate Grown()
      reads this`entries
    {
      && |old(entries)| <= |entries| && entries[..|old(entries)|] == old(entries)
      && forall i :: |old(entries)| <= i < |entries| ==> fresh(entries[i]) && fresh(entries[i].buffer)
    }

    twostate lemma GrownTwice(new mid: seq<Page>)
      requires |old(entries)| <= |mid| <= |entries|
      requires mid[..|old(entries)|] == old(entries) && entries[..|mid|] == mid
      requires forall i :: |old(entries)| <= i < |mid| ==> fresh(mid[i]) && fresh(mid[i].buffer)
      requires forall i :: |mid| <= i < |entries| ==> fresh(entries[i]) && fresh(entries[i].buffer)
      ensures Grown()
    {
      assert forall i :: 0 <= i < |mid| ==> entries[i] == entries[..|mid|][i];
      assert entries[..|old(entries)|] == mid[..|old(entries)|];
    }

    /** AllocPage, first case. */
    method TakeFreePage() returns (p: nat)
      requires Mirrors() && freeList != [] && freeList[0] < |entries|
      modifies this`freeList, this`mPages, entries[freeList[0]]
      ensures Mirrors() && p == old(freeList)[0] && p < |old(mPages)|
      ensures Model() == TakeFree(old(Model()))
    {
      p := freeList[0];
      assert EntryIs(p);
      freeList := freeList[1..];
      entries[p].AddPin();
      mPages := mPages[p := entries[p].Rec()];
      OneEntryChanged(p);
    }

    /** AllocPage, second case. */
    method CreatePage() returns (p: nat)
      requires Mirrors()
      modifies this`entries, this`mPages
      ensures Mirrors() && Grown() && p == |old(mPages)|
      ensures Model() == Create(old(Model()))
    {
      p := |entries|;
      var page := new Page(pageSize);
      entries := entries + [page];
      mPages := mPages + [page.Rec()];
      forall q | 0 <= q < |entries| ensures EntryIs(q) {
        assert q < p ==> old(EntryIs(q));
      }
    }

    /** AllocPage, third case: the victim leaves the LRU list. */
    method TakeVictim() returns (p: nat)
      requires Mirrors() && lruList != [] && lruList[0] < |entries| && mPages[lruList[0]].pins == 0 && NoDup(lruList)
      modifies this`lruList, this`mPages, entries[lruList[0]]
      ensures Mirrors() && p == old(lruList)[0] && p < |old(mPages)|
      ensures Model() == Pin(old(Model()), p)
    {
      p := lruList[0];
      assert EntryIs(p);
      RemoveHead(lruList);
      entries[p].AddPin();
      lruList := lruList[1..];
      mPages := mPages[p := entries[p].Rec()];
      OneEntryChanged(p);
    }

    method Evict(io: Io) returns (p: nat)
      requires Mirrors() && Inv(Model()) && MustEvict(Model()) && EvictionSafe(Model(), io)
      modifies this`pageMap, this`freeList, this`lruList, this`lists, this`disks, this`txns, this`stores,
               this`mPages, this`clock, entries
      ensures Mirrors() && (Model(), Some(p)) == PoolFetch.AllocPage(old(Model()), io)
    {
      PinVictim(Model());
      VictimIdle(Model(), io);
      LruNoDup(Model());
      p := TakeVictim();
      UnassignPageFromStore(p, io.writeOk, io.fails);
    }

    /** PagePool::AllocPage */
    method AllocPage(io: Io) returns (page: Option<nat>)
      requires Mirrors() && Inv(Model()) && EvictionSafe(Model(), io)
      modifies this, entries
      ensures Mirrors() && Grown()
      ensures (Model(), page) == PoolFetch.AllocPage(old(Model()), io)
    {
      if freeList != [] {
        TakeFreeKeeps(Model());
        var p := TakeFreePage();
        return Some(p);
      }
      if |entries| < pageCapacity {
        var p := CreatePage();
        return Some(p);
      }
      if lruList != [] {
        var p := Evict(io);
        return Some(p);
      }
      return None;
    }

    /** The buffers of the entries. */
    ghost function Buffers(): set<array<byte>>
      reads this`entries
    {
      set e | e in entries :: e.buffer
    }

    /** TransactionImpl::AssignPage, to the init transaction of the store. */
    method AssignPage(p: nat, st: nat, id: nat)
      requires Mirrors() && p < |entries| && entries[p].transaction.None?
      requires st < |stores| && stores[st].init < |lists|
      modifies this`lists, this`mPages, entries[p]
      ensures Mirrors() && p < |old(mPages)|
      ensures var t := stores[st].init;
        Model() == old(Model()).(pages := old(mPages)[p := old(mPages)[p].(owner := Some(t), id := id)],
                                 lists := old(lists)[t := old(lists)[t] + [p]])
    {
      assert EntryIs(p);
      var t := stores[st].init;
      entries[p].transaction := Some(t);
      entries[p].pageId := id;
      lists := lists[t := lists[t] + [p]];
      mPages := mPages[p := entries[p].Rec()];
      OneEntryChanged(p);
    }

    /** PagePool::FetchStorePage; `read` is the answer of the file system. */
    method FetchStorePage(p: nat, st: nat, mode: FetchMode, read: Status) returns (status: Status)
      requires Mirrors() && p < |entries| && st < |disks| && entries[p].buffer.Length == pageSize
      requires DiskOk(disks[st], pageSize)
      modifies this`mPages, entries[p], entries[p].buffer
      ensures Mirrors() && p < |old(mPages)| && status == if mode == FetchPageData then read else Success
      ensures var e := old(mPages)[p];
        var data := if mode == FetchPageData then BlockOf(disks[st], e.id, pageSize) else Filled(pageSize, 0xCD);
        Model() == if status == Success
          then old(Model()).(pages := old(mPages)[p := e.(data := data, stale := mode == IgnorePageData)])
          else old(Model())
    {
      assert EntryIs(p);
      DistinctBuffers(p);
      status := Success;
      if mode == FetchPageData {
        if read != Success {
          return read;
        }
        FillFrom(entries[p].buffer, BlockOf(disks[st], entries[p].pageId, pageSize));
      } else {
        FillSpan(entries[p].buffer, 0xCD);
      }
      entries[p].stale := mode == IgnorePageData;
      mPages := mPages[p := entries[p].Rec()];
      OneEntryChanged(p);
    }

    /** PagePool::AssignPageToStore */
    method AssignPageToStore(p: nat, st: nat, id: nat, mode: FetchMode, read: Status) returns (status: Status)
      requires Mirrors() && p < |entries| && CanAssign(Model(), p, st)
      modifies this`pageMap, this`lists, this`mPages, entries[p], entries[p].buffer
      ensures Mirrors() && status == if mode == FetchPageData then read else Success
      ensures Model() == Assigning(old(Model()), p, st, id, mode, status)
    {
      CanAssignMeans(Model(), p, st);
      assert EntryIs(p);
      AssignPage(p, st, id);
      assert EntryIs(p);
      status := FetchStorePage(p, st, mode, read);
      assert EntryIs(p);
      if status == Success {
        MapPage(p, st, id);
      } else {
        LeaveTransaction(p);
      }
    }

    method MapPage(p: nat, st: nat, id: nat)
      requires Mirrors()
      modifies this`pageMap
      ensures Mirrors() && Model() == old(Model()).(pageMap := old(pageMap)[(st, id) := p])
    {
      pageMap := pageMap[(st, id) := p];
    }

    /** PagePool::StorePage */
    method StorePage(st: nat, id: nat, mode: FetchMode, io: Io) returns (status: Status, page: Option<nat>)
      requires Mirrors() && Inv(Model()) && EvictionSafe(Model(), io) && st < |stores|
      modifies this, entries, Buffers()
      ensures Mirrors() && Grown()
      ensures (Model(), status, page) == PoolFetch.StorePage(old(Model()), st, id, mode, io)
    {
      if (st, id) in pageMap {
        var p := pageMap[(st, id)];
        assert KeyOk(Model(), (st, id)) && EntryIs(p);
        PinStorePage(p);
        return Success, Some(p);
      }
      AllocatedFor(Model(), st, id, io);
      page := AllocPage(io);
      if page.None? {
        return PoolFull, None;
      }
      status := AssignPageToStore(page.value, st, id, mode, io.read);
      if status != Success {
        assert EntryIs(page.value);
        UnpinUnassignedPage(page.value);
        page := None;
      }
    }

    // ---------------------------------------------------------------------
    // The life of a pool

    constructor (pageSize: nat, pageCapacity: nat)
      ensures Mirrors() && Model() == PoolRuns.Empty(pageCapacity, pageSize)
    {
      this.pageSize := pageSize;
      this.pageCapacity := pageCapacity;
      entries, pageMap, freeList, lruList := [], map[], [], [];
      lists, disks, txns, stores := [], [], [], [];
      mPages, clock := [], 0;
    }

    /** StoreImpl::Create and PoolImpl::StoreCreated; `disk` is the data file. */
    method CreateStore(disk: map<nat, Block>)
      requires Mirrors()
      modifies this`lists, this`disks, this`txns, this`stores
      ensures Mirrors() && Model() == PoolRuns.AddStore(old(Model()), disk)
      ensures disks == old(disks) + [disk]
      ensures stores == old(stores) + [StoreRec(|old(txns)|, [], Open)]
    {
      txns, stores := txns + [TxnRec(|stores|, true, false, false)], stores + [StoreRec(|txns|, [], Open)];
      lists := lists + [[]];
      disks := disks + [disk];
    }

    /** StoreImpl::CreateTransaction */
    method CreateTransaction(st: nat)
      requires Mirrors() && st < |stores|
      modifies this`lists, this`txns, this`stores
      ensures Mirrors() && Model() == PoolRuns.AddTxn(old(Model()), st)
      ensures st < |old(stores)| && stores[st].txns == old(stores)[st].txns + [|old(txns)|]
    {
      stores := stores[st := stores[st].(txns := stores[st].txns + [|txns|])];
      txns := txns + [TxnRec(st, false, false, false)];
      lists := lists + [[]];
    }

    /** A pin holder overwrites a buffer. */
    method Overwrite(p: nat, data: Block)
      requires Mirrors() && p < |entries| && |data| == entries[p].buffer.Length
      modifies this`mPages, entries[p].buffer
      ensures Mirrors() && p < |old(mPages)| && Model() == Scribble(old(Model()), p, data)
    {
      assert EntryIs(p);
      DistinctBuffers(p);
      FillFrom(entries[p].buffer, data);
      mPages := mPages[p := entries[p].Rec()];
      OneEntryChanged(p);
    }

    /** A pin holder stores a 64-bit value in a buffer. */
    method StoreInPage(p: nat, at: nat, x: nat)
      requires Mirrors() && p < |entries| && at + 8 <= entries[p].buffer.Length
      modifies this`mPages, entries[p].buffer
      ensures Mirrors() && p < |old(mPages)| && at + 8 <= |old(mPages)[p].data|
      ensures Model() == Scribble(old(Model()), p, Store64(old(mPages)[p].data, at, x))
    {
      assert EntryIs(p);
      DistinctBuffers(p);
      StoreUint64(x, entries[p].buffer, at);
      mPages := mPages[p := entries[p].Rec()];
      OneEntryChanged(p);
    }

    /** A pin holder copies bytes from one buffer to another. */
    method CopyToPage(from: nat, start: nat, len: nat, p: nat, at: nat)
      requires Mirrors() && from < |entries| && p < |entries| && from != p
      requires start + len <= entries[from].buffer.Length && at + len <= entries[p].buffer.Length
      modifies this`mPages, entries[p].buffer
      ensures Mirrors() && from < |old(mPages)| && p < |old(mPages)|
      ensures start + len <= |old(mPages)[from].data| && at + len <= |old(mPages)[p].data|
      ensures Model() == Scribble(old(Model()), p, Copy(old(mPages)[from].data, start, len, old(mPages)[p].data, at))
    {
      assert EntryIs(p) && EntryIs(from);
      DistinctBuffers(p);
      CopySpan(entries[from].buffer, start, len, entries[p].buffer, at);
      mPages := mPages[p := entries[p].Rec()];
      OneEntryChanged(p);
    }

    /** pinned_pages() */
    method PinnedPages() returns (n: nat)
      requires Mirrors() && Inv(Model())
      ensures n == |PoolLaws.PinnedEntries(Model())|
    {
      PoolLaws.PageCounters(Model());
      return |entries| - |freeList| - |lruList|;
    }

    /** The destructor of PoolImpl; `order` is the order in which it visits the
        set of open stores. Its two closing assumptions hold. */
    method CloseAllStores(order: seq<nat>, fails: set<nat>)
      requires Mirrors() && Inv(Model()) && PoolLaws.AllUnpinned(Model())
      requires forall i :: 0 <= i < |order| ==> order[i] < |stores|
      requires forall st :: 0 <= st < |stores| && stores[st].phase == Open ==> st in order
      modifies this`pageMap, this`freeList, this`lruList, this`lists, this`disks, this`txns, this`stores,
               this`mPages, this`clock, entries
      ensures Mirrors() && Model() == PoolLaws.CloseAll(old(Model()), order, fails)
      ensures |entries| - |freeList| - |lruList| == 0 && |entries| == |freeList|
    {
      var it: seq<nat> := order;
      while it != []
        invariant Mirrors() && Inv(Model()) && PoolLaws.AllUnpinned(Model())
        invariant forall i :: 0 <= i < |it| ==> it[i] < |stores|
        invariant PoolLaws.CloseAll(Model(), it, fails) == PoolLaws.CloseAll(old(Model()), order, fails)
        decreases |it|
      {
        PoolLaws.CloseOne(Model(), it[0], fails);
        InvClosable(Model(), it[0]);
        var status := CloseStore(it[0], fails);
        it := it[1..];
      }
      PoolLaws.EndOfLife(old(Model()), order, fails);
      PoolLaws.PageCounters(Model());
    }

    /** The operations on transactions and stores. */
    method PerformOnStores(e: PoolRuns.Event)
      requires Mirrors() && Inv(Model()) && PoolRuns.Enabled(Model(), e)
      requires e.OpenStore? || e.Begin? || e.CommitTxn? || e.RollbackTxn? || e.CloseSt?
      modifies this`pageMap, this`freeList, this`lruList, this`lists, this`disks, this`txns, this`stores,
               this`mPages, this`clock, entries
      ensures Mirrors() && Model() == PoolRuns.Next(old(Model()), e)
    {
      match e {
        case OpenStore(disk) => CreateStore(disk);
        case Begin(st) => CreateTransaction(st);
        case CommitTxn(t) => var status := CommitTxn(t);
        case RollbackTxn(t) =>
          assert TxnOk(txns, stores, t);
          if !txns[t].closed { OpenRollback(Model(), t); }
          var status := RollbackTxn(t, {});
        case CloseSt(st, fails) => InvClosable(Model(), st); var status := CloseStore(st, fails);
      }
    }

    /** The operations on entries that are in the pool. */
    method PerformOnEntry(e: PoolRuns.Event)
      requires Mirrors() && Inv(Model()) && PoolRuns.Enabled(Model(), e)
      requires e.PinAgain? || e.Release? || e.ReleaseUnassigned? || e.Modify? || e.Write?
      modifies this`freeList, this`lruList, this`lists, this`mPages, this`clock, entries, Buffers()
      ensures Mirrors() && Model() == PoolRuns.Next(old(Model()), e)
    {
      assert EntryIs(e.p) && PageOk(Model(), e.p);
      match e {
        case PinAgain(p) => PinStorePage(p);
        case Release(p, unpin) => UnpinStorePage(p, unpin);
        case ReleaseUnassigned(p) => UnpinUnassignedPage(p);
        case Modify(t, p) => WillModifyPage(t, p);
        case Write(p, data) => Overwrite(p, data);
      }
    }

    /** Every operation of the state machine is performed in place. */
    method Perform(e: PoolRuns.Event)
      requires Mirrors() && Inv(Model()) && PoolRuns.Enabled(Model(), e)
      modifies this, entries, Buffers()
      ensures Mirrors() && Grown()
      ensures Model() == PoolRuns.Next(old(Model()), e)
    {
      if e.Fetch? {
        var status, page := StorePage(e.st, e.id, e.mode, e.io);
      } else if e.Alloc? {
        var page := AllocPage(e.io);
      } else if e.OpenStore? || e.Begin? || e.CommitTxn? || e.RollbackTxn? || e.CloseSt? {
        PerformOnStores(e);
      } else {
        PerformOnEntry(e);
      }
    }

    /** And so is every run. */
    method Run(run: seq<PoolRuns.Event>)
      requires Mirrors() && CanRun(Model(), run)
      modifies this, entries, Buffers()
      ensures Mirrors() && Grown()
      ensures Model() == PoolRuns.After(old(Model()), run)
    {
      var rest := run;
      while rest != []
        invariant Mirrors() && Grown() && CanRun(Model(), rest)
        invariant PoolRuns.After(Model(), rest) == PoolRuns.After(old(Model()), run)
        decreases |rest|
      {
        RunStep(Model(), rest);
        ghost var before := entries;
        Perform(rest[0]);
        GrownTwice(before);
        rest := rest[1..];
      }
    }
  }
}
