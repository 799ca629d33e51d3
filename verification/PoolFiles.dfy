/** The data files of stores. StoreImpl::Close closes the file before the store
    counts as closed, so nothing may read or write through the file of a closed
    store. For every operation, a predicate that follows its steps says whether it
    does so. */
module PoolFiles {
  import opened PoolModel
  import opened PoolOps
  import opened PoolClose
  import opened PoolCommit
  import opened PoolReentry
  import opened PoolFetch
  import opened PoolRuns

  /** Writing the entry back goes through the file of a closed store. */
  ghost predicate WritesClosed(s: State, p: nat) {
    Assigned(s, p) && s.pages[p].dirty && s.stores[KeyOf(s, p).0].phase == Closed
  }

  /** So does a write-back in the loop of TransactionImpl::Close while the store is
      closing, */
  ghost predicate ReleaseClosed(s: State, t: nat, fails: set<nat>)
    requires Core(s) && AllPinned(s, t)
    decreases if t < |s.lists| then |s.lists[t]| else 0
  {
    s.lists[t] != [] &&
    (WritesClosed(s, s.lists[t][0]) ||
     (ReleaseFirstKeeps(s, t, fails);
      ReleaseFirstNext(s, t, fails);
      ReleaseClosed(ReleaseFirst(s, t, fails), t, fails)))
  }

  /** in TransactionImpl::Rollback, */
  ghost predicate RollbackClosed(s: State, t: nat, fails: set<nat>)
    requires Core(s) && t < |s.txns|
  {
    !s.txns[t].closed &&
    (BeginEnd(s, t);
     ReleaseClosed(PinAll(MarkClosed(s, t), s.lists[t]), t, fails))
  }

  /** in the loop over the rollback queue, */
  ghost predicate QueueClosed(s: State, queue: seq<nat>, fails: set<nat>)
    requires Core(s) && ValidQueue(s, queue)
    decreases |queue|
  {
    queue != [] &&
    (RollbackClosed(s, queue[0], fails) ||
     (RollbackKeeps(s, queue[0], fails);
      QueueClosed(Rollback(s, queue[0], fails), queue[1..], fails)))
  }

  /** and in StoreImpl::Close. */
  ghost predicate CloseClosed(s: State, st: nat, fails: set<nat>)
    requires Core(s) && Closable(s, st)
  {
    s.stores[st].phase == Open &&
    (CloseStoreSteps(s, st, fails);
     var a := SetPhase(s, st, Closing);
     var b := RollbackAll(a, s.stores[st].txns, fails);
     QueueClosed(a, s.stores[st].txns, fails) || RollbackClosed(b, b.stores[st].init, fails))
  }

  /** The loop of TransactionImpl::Close on a store in any phase. */
  ghost predicate RestClosed(s: State, t: nat, fails: set<nat>)
    requires Ending(s, t)
    decreases if t < |s.lists| then |s.lists[t]| else 0
  {
    s.lists[t] != [] &&
    (|| WritesClosed(s, s.lists[t][0])
     || (FrontFails(s, t, fails) &&
         (UnassignEnding(s, t, fails);
          CloseClosed(Unassign(s, s.lists[t][0], s.lists[t][0] !in fails), s.txns[t].store, fails)))
     || (ReleaseNextKeeps(s, t, fails);
         RestClosed(ReleaseNext(s, t, fails), t, fails)))
  }

  /** The loop of TransactionImpl::Commit. */
  ghost predicate CommitClosed(s: State, t: nat)
    requires Core(s) && AllPinned(s, t) && !s.txns[t].isInit
    decreases if t < |s.lists| then |s.lists[t]| else 0
  {
    s.lists[t] != [] &&
    (WritesClosed(s, s.lists[t][0]) ||
     (CommitFirstKeeps(s, t);
      CommitFirstNext(s, t);
      CommitClosed(CommitFirst(s, t), t)))
  }

  /** The eviction in PagePool::AllocPage. */
  ghost predicate AllocClosed(s: State, io: Io)
    requires Inv(s)
  {
    MustEvict(s) &&
    (WritesClosed(s, s.lru[0]) ||
     (EvictionCloses(s, io) &&
      (OrphanedInv(s, io);
       InvClosable(Orphaned(s), KeyOf(s, s.lru[0]).0);
       CloseClosed(Orphaned(s), KeyOf(s, s.lru[0]).0, io.fails))))
  }

  /** The read of PagePool::StorePage goes through the file of a closed store. */
  ghost predicate ReadsClosed(s: State, st: nat, id: nat, mode: FetchMode, io: Io)
    requires Inv(s)
  {
    (st, id) !in s.pageMap && mode == FetchPageData &&
    var (a, p) := AllocPage(s, io);
    p.Some? && st < |a.stores| && a.stores[st].phase == Closed
  }

  ghost predicate UsesClosed(s: State, e: Event)
    requires Inv(s) && Enabled(s, e)
  {
    match e
    case Fetch(st, id, mode, io) =>
      (st, id) !in s.pageMap && (AllocClosed(s, io) || ReadsClosed(s, st, id, mode, io))
    case Alloc(io) => AllocClosed(s, io)
    case CommitTxn(t) => !s.txns[t].closed && (BeginFlush(s, t); CommitClosed(PinAll(s, s.lists[t]), t))
    case RollbackTxn(t) => RollbackClosed(s, t, {})
    case CloseSt(st, fails) => InvClosable(s, st); CloseClosed(s, st, fails)
    case _ => false
  }

  // ---------------------------------------------------------------------
  // A store that is not closed keeps its file

  lemma {:induction false} ReleaseStays(s: State, t: nat, fails: set<nat>)
    requires Core(s) && AllPinned(s, t) && t < |s.txns| && s.txns[t].store < |s.stores| && StorePhase(s, t) != Closed
    ensures !ReleaseClosed(s, t, fails)
    decreases if t < |s.lists| then |s.lists[t]| else 0
  {
    if s.lists[t] != [] {
      assert ListOk(s, t);
      ReleaseFirstKeeps(s, t, fails);
      ReleaseFirstNext(s, t, fails);
      ReleaseStays(ReleaseFirst(s, t, fails), t, fails);
    }
  }

  lemma RollbackStays(s: State, t: nat, fails: set<nat>)
    requires Core(s) && t < |s.txns| && s.txns[t].store < |s.stores| && StorePhase(s, t) != Closed
    ensures !RollbackClosed(s, t, fails)
  {
    BeginEnd(s, t);
    PinAllMeans(MarkClosed(s, t), s.lists[t]);
    ReleaseStays(PinAll(MarkClosed(s, t), s.lists[t]), t, fails);
  }

  /** Every transaction of the queue belongs to the store. */
  ghost predicate QueueOf(s: State, queue: seq<nat>, st: nat) {
    forall i :: 0 <= i < |queue| ==> queue[i] < |s.txns| && s.txns[queue[i]].store == st
  }

  lemma RollbackSameStores(s: State, t: nat, fails: set<nat>)
    requires Core(s) && t < |s.txns|
    ensures var r := Rollback(s, t, fails);
      && Core(r) && r.stores == s.stores && |r.txns| == |s.txns|
      && forall x :: 0 <= x < |s.txns| ==> r.txns[x].store == s.txns[x].store
  {
    if !s.txns[t].closed { EndTxnKeeps(s, t, fails); }
  }

  lemma {:induction false} QueueStays(s: State, queue: seq<nat>, st: nat, fails: set<nat>)
    requires Core(s) && QueueOf(s, queue, st) && st < |s.stores| && s.stores[st].phase != Closed
    ensures ValidQueue(s, queue) && !QueueClosed(s, queue, fails)
    decreases |queue|
  {
    if queue != [] {
      RollbackStays(s, queue[0], fails);
      RollbackSameStores(s, queue[0], fails);
      QueueStays(Rollback(s, queue[0], fails), queue[1..], st, fails);
    }
  }

  /** While a store closes, its file is open. */
  lemma CloseStays(s: State, st: nat, fails: set<nat>)
    requires Core(s) && Closable(s, st)
    ensures !CloseClosed(s, st, fails)
  {
    if s.stores[st].phase == Open {
      CloseStoreSteps(s, st, fails);
      var a, queue := SetPhase(s, st, Closing), s.stores[st].txns;
      var b := RollbackAll(a, queue, fails);
      forall i | 0 <= i < |queue| ensures a.txns[queue[i]].store == st { assert QueuedAt(s, st, i); }
      QueueStays(a, queue, st, fails);
      assert StoreOk(b.txns, b.stores, st);
      RollbackStays(b, b.stores[st].init, fails);
    }
  }

  lemma {:induction false} CommitStays(s: State, t: nat)
    requires Core(s) && AllPinned(s, t) && t < |s.txns| && !s.txns[t].isInit
    requires s.txns[t].store < |s.stores| && StorePhase(s, t) != Closed
    ensures !CommitClosed(s, t)
    decreases if t < |s.lists| then |s.lists[t]| else 0
  {
    if s.lists[t] != [] {
      assert ListOk(s, t);
      CommitFirstKeeps(s, t);
      CommitFirstNext(s, t);
      CommitStays(CommitFirst(s, t), t);
    }
  }

  /** Between operations, a dirty entry belongs to an open store. */
  lemma DirtyEntryOpen(s: State, p: nat)
    requires Inv(s) && Assigned(s, p) && s.pages[p].dirty
    ensures s.stores[KeyOf(s, p).0].phase == Open
  {
    var t := s.pages[p].owner.value;
    assert PageOk(s, p) && TxnLife(s, t) && TxnOk(s.txns, s.stores, t) && StoreLife(s, KeyOf(s, p).0);
    assert t in s.stores[KeyOf(s, p).0].txns;
  }

  lemma AllocStays(s: State, io: Io)
    requires Inv(s)
    ensures !AllocClosed(s, io)
  {
    if MustEvict(s) {
      if Assigned(s, s.lru[0]) && s.pages[s.lru[0]].dirty { DirtyEntryOpen(s, s.lru[0]); }
      if EvictionCloses(s, io) {
        OrphanedInv(s, io);
        InvClosable(Orphaned(s), KeyOf(s, s.lru[0]).0);
        CloseStays(Orphaned(s), KeyOf(s, s.lru[0]).0, io.fails);
      }
    }
  }

  // ---------------------------------------------------------------------
  // Fetching

  /** A fetch from an open store reads through its closed file if and only if its
      eviction closes that very store and the page has to be read. */
  lemma FetchReadsClosed(s: State, st: nat, id: nat, mode: FetchMode, io: Io)
    requires Inv(s) && EvictionSafe(s, io) && st < |s.stores| && s.stores[st].phase == Open
    ensures ReadsClosed(s, st, id, mode, io) <==> ClosesItself(s, st, id, io) && mode == FetchPageData
  {
    AllocTheorem(s, io);
    PoolFullMeans(s);
  }

  /** A fetch that reads through no closed file keeps the invariant, unless its
      eviction closes the very store it fetches from. */
  lemma FetchWithOpenFile(s: State, st: nat, id: nat, mode: FetchMode, io: Io)
    requires Inv(s) && EvictionSafe(s, io) && st < |s.stores| && s.stores[st].phase == Open
    requires !ReadsClosed(s, st, id, mode, io)
    ensures Inv(StorePage(s, st, id, mode, io).0) <==> !ClosesItself(s, st, id, io)
  {
    FetchReadsClosed(s, st, id, mode, io);
    FetchKeepsInvariant(s, st, id, mode, io);
  }

  // ---------------------------------------------------------------------
  // Legal runs

  lemma TxnOfOpenStore(s: State, t: nat)
    requires Inv(s) && t < |s.txns| && !s.txns[t].isInit && !s.txns[t].closed
    ensures s.txns[t].store < |s.stores| && StorePhase(s, t) == Open
  {
    assert TxnOk(s.txns, s.stores, t) && StoreLife(s, s.txns[t].store);
    assert t in s.stores[s.txns[t].store].txns;
  }

  /** No enabled operation uses the file of a closed store. */
  lemma NoUseOfClosed(s: State, e: Event)
    requires Inv(s) && Enabled(s, e)
    ensures !UsesClosed(s, e)
  {
    match e
    case Fetch(st, id, mode, io) => AllocStays(s, io); FetchReadsClosed(s, st, id, mode, io);
    case Alloc(io) => AllocStays(s, io);
    case CommitTxn(t) =>
      if !s.txns[t].closed {
        TxnOfOpenStore(s, t);
        BeginFlush(s, t);
        CommitStays(PinAll(s, s.lists[t]), t);
      }
    case RollbackTxn(t) => if !s.txns[t].closed { TxnOfOpenStore(s, t); RollbackStays(s, t, {}); }
    case CloseSt(st, fails) => InvClosable(s, st); CloseStays(s, st, fails);
    case _ =>
  }

  ghost predicate RunUsesClosed(s: State, run: seq<Event>)
    requires Inv(s) && Legal(s, run)
    decreases |run|
  {
    run != [] &&
    (UsesClosed(s, run[0]) || (NextInv(s, run[0]); RunUsesClosed(Next(s, run[0]), run[1..])))
  }

  /** And so no legal run does, whatever writes fail in it. */
  lemma {:induction false} RunUsesOpenFiles(s: State, run: seq<Event>)
    requires Inv(s) && Legal(s, run)
    ensures !RunUsesClosed(s, run)
    decreases |run|
  {
    if run != [] {
      NoUseOfClosed(s, run[0]);
      NextInv(s, run[0]);
      RunUsesOpenFiles(Next(s, run[0]), run[1..]);
    }
  }

  // ---------------------------------------------------------------------
  // Rolling back on its own

  /** An entry other than the last one of the list cannot be written. */
  ghost predicate FailsEarly(s: State, t: nat, fails: set<nat>)
    requires t < |s.lists|
  {
    exists i :: 0 <= i < |s.lists[t]| - 1 && FailsAt(s, t, fails, i)
  }

  lemma FrontDirty(s: State, t: nat)
    requires Ending(s, t) && !s.txns[t].isInit && s.lists[t] != []
    ensures Assigned(s, s.lists[t][0]) && s.pages[s.lists[t][0]].dirty && KeyOf(s, s.lists[t][0]).0 == s.txns[t].store
  {
    assert ListOk(s, t) && PageOk(s, s.lists[t][0]);
  }

  lemma QuietRoundEarly(s: State, t: nat, fails: set<nat>)
    requires Ending(s, t) && s.lists[t] != [] && !FrontFails(s, t, fails)
    ensures var r := ReleaseNext(s, t, fails);
      t < |r.lists| && (FailsEarly(s, t, fails) <==> FailsEarly(r, t, fails))
  {
    QuietRound(s, t, fails);
    QuietRoundRest(s, t, fails);
    var r := ReleaseNext(s, t, fails);
    if FailsEarly(s, t, fails) {
      var i :| 0 <= i < |s.lists[t]| - 1 && FailsAt(s, t, fails, i);
      assert FailsAt(r, t, fails, i - 1);
    }
    if FailsEarly(r, t, fails) {
      var i :| 0 <= i < |r.lists[t]| - 1 && FailsAt(r, t, fails, i);
      assert FailsAt(s, t, fails, i + 1);
    }
  }

  /** On an open store, the loop of TransactionImpl::Close writes through the closed
      file if and only if an entry before the last one cannot be written: that
      closes the store, and the loop goes on. */
  lemma {:induction false} RestUsesClosed(s: State, t: nat, fails: set<nat>)
    requires Ending(s, t) && !s.txns[t].isInit && StorePhase(s, t) == Open
    ensures RestClosed(s, t, fails) <==> FailsEarly(s, t, fails)
    decreases if t < |s.lists| then |s.lists[t]| else 0
  {
    if s.lists[t] != [] {
      FrontDirty(s, t);
      UnassignEnding(s, t, fails);
      CloseStays(Unassign(s, s.lists[t][0], s.lists[t][0] !in fails), s.txns[t].store, fails);
      ReleaseNextKeeps(s, t, fails);
      var r := ReleaseNext(s, t, fails);
      if FrontFails(s, t, fails) {
        assert FailsAt(s, t, fails, 0);
        if r.lists[t] != [] { FrontDirty(r, t); }
      } else {
        QuietRoundEarly(s, t, fails);
        RestUsesClosed(r, t, fails);
      }
    }
  }

  /** A transaction that is rolled back on its own writes through the closed file of
      its store if and only if one of its entries, other than the last one of its
      list, cannot be written. */
  lemma RollbackUsesClosed(s: State, t: nat, fails: set<nat>)
    requires Inv(s) && t < |s.txns| && !s.txns[t].isInit && !s.txns[t].closed
    ensures TxnOk(s.txns, s.stores, t) && Closable(s, s.txns[t].store)
    ensures InTable(MarkClosed(s, t), s.lists[t])
    ensures var a := PinAll(MarkClosed(s, t), s.lists[t]);
      && Ending(a, t)
      && (RestClosed(a, t, fails) <==> exists i :: 0 <= i < |s.lists[t]| - 1 && s.lists[t][i] in fails)
  {
    TxnOfOpenStore(s, t);
    InvClosable(s, s.txns[t].store);
    BeginEnding(s, t);
    var a := PinAll(MarkClosed(s, t), s.lists[t]);
    assert TxnOk(a.txns, a.stores, t) && TxnOk(s.txns, s.stores, t);
    RestUsesClosed(a, t, fails);
    forall i | 0 <= i < |s.lists[t]| ensures FailsAt(a, t, fails, i) <==> s.lists[t][i] in fails {
      assert ListOk(s, t) && PageOk(s, s.lists[t][i]);
    }
    if FailsEarly(a, t, fails) {
      var i :| 0 <= i < |a.lists[t]| - 1 && FailsAt(a, t, fails, i);
      assert s.lists[t][i] in fails;
    }
  }
}
