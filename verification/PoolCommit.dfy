/** Committing and rolling back transactions of an open store. */
module PoolCommit {
  import opened Lists
  import opened StatusCodes
  import opened PoolModel
  import opened PoolSteps
  import opened PoolOps
  import opened PoolClose

  /** StoreImpl::TransactionClosed */
  function TransactionClosed(s: State, t: nat): State
    requires t < |s.txns| && s.txns[t].store < |s.stores|
  {
    var st := s.txns[t].store;
    if s.stores[st].phase != Open then s
    else s.(stores := s.stores[st := s.stores[st].(txns := Remove(s.stores[st].txns, t))])
  }

  /** The init transaction of a transaction's store. */
  ghost function InitOf(s: State, t: nat): nat
    requires t < |s.txns| && s.txns[t].store < |s.stores|
  {
    s.stores[s.txns[t].store].init
  }

  /** What a committed entry looks like: clean, handed to init, and with `drop`
      pins fewer than before. */
  ghost predicate EntryCommitted(s: State, r: State, init: nat, drop: nat, q: nat)
    requires q < |s.pages| == |r.pages|
  {
    && r.pages[q].pins + drop == s.pages[q].pins
    && r.pages[q] == s.pages[q].(owner := Some(init), dirty := false, stale := false,
                                 pins := r.pages[q].pins, stamp := r.pages[q].stamp)
  }

  ghost predicate PageCommitted(s: State, r: State, t: nat, drop: nat, q: nat)
    requires t < |s.txns| && s.txns[t].store < |s.stores| && q < |s.pages| == |r.pages|
  {
    if s.pages[q].owner == Some(t) then EntryCommitted(s, r, InitOf(s, t), drop, q)
    else r.pages[q] == s.pages[q]
  }

  lemma CommitFirstPage(s: State, t: nat, q: nat)
    requires Core(s) && AllPinned(s, t) && s.lists[t] != [] && !s.txns[t].isInit && q < |s.pages|
    ensures var r := CommitFirst(s, t);
      && |r.pages| == |s.pages| && TxnOk(s.txns, s.stores, t)
      && if q == s.lists[t][0] then EntryCommitted(s, r, InitOf(s, t), 1, q)
         else r.pages[q] == s.pages[q]
  {
    var p := s.lists[t][0];
    assert TxnOk(s.txns, s.stores, t) && ListOk(s, t) && PageOk(s, p);
    PersistKeeps(s, p);
  }

  /** The loop of Commit visits every entry of the transaction once. */
  lemma {:induction false} CommitAllMeans(s: State, t: nat)
    requires Core(s) && AllPinned(s, t) && !s.txns[t].isInit && TxnOk(s.txns, s.stores, t)
    ensures var r := CommitAll(s, t);
      && Kept(s, r) && |r.pages| == |s.pages| && r.pageMap == s.pageMap && r.free == s.free
      && r.lists[t] == []
      && (forall x :: 0 <= x < |s.lists| && x != t && x != InitOf(s, t) ==> r.lists[x] == s.lists[x])
      && (forall q :: 0 <= q < |s.pages| ==> PageCommitted(s, r, t, 1, q))
    decreases if t < |s.lists| then |s.lists[t]| else 0
  {
    if s.lists[t] == [] {
      forall q | 0 <= q < |s.pages| ensures PageCommitted(s, s, t, 1, q) {
        assert PageOk(s, q);
      }
    } else {
      var p := s.lists[t][0];
      CommitFirstKeeps(s, t);
      CommitFirstNext(s, t);
      var m := CommitFirst(s, t);
      assert ListOk(s, t);
      CommitFirstPage(s, t, p);
      CommitAllMeans(m, t);
      var r := CommitAll(m, t);
      forall q | 0 <= q < |s.pages| ensures PageCommitted(s, r, t, 1, q) {
        CommitFirstPage(s, t, q);
        assert PageCommitted(m, r, t, 1, q);
      }
    }
  }

  lemma BeginFlush(s: State, t: nat)
    requires Core(s) && t < |s.txns|
    ensures ListOk(s, t) && TxnOk(s.txns, s.stores, t)
    ensures var a := PinAll(s, s.lists[t]);
      Core(a) && AllPinned(a, t) && a.txns == s.txns && a.stores == s.stores
  {
    assert ListOk(s, t) && TxnOk(s.txns, s.stores, t);
    PinAllMeans(s, s.lists[t]);
    var a := PinAll(s, s.lists[t]);
    forall q | 0 <= q < |a.pages| && a.pages[q].owner == Some(t) ensures a.pages[q].pins > 0 {
      assert PageOk(s, q);
    }
  }

  /** The first half of Commit: write the entries of the transaction. */
  ghost function Flush(s: State, t: nat): State
    requires Core(s) && t < |s.txns| && !s.txns[t].isInit
  {
    BeginFlush(s, t);
    CommitAll(PinAll(s, s.lists[t]), t)
  }

  lemma FlushKeeps(s: State, t: nat)
    requires Core(s) && t < |s.txns| && !s.txns[t].isInit
    ensures TxnOk(s.txns, s.stores, t)
    ensures var r := Flush(s, t);
      && Core(r) && SameLife(s, r) && r.lists[t] == []
      && r.pageMap == s.pageMap && r.free == s.free
      && (forall x :: 0 <= x < |s.lists| && x != t && x != InitOf(s, t) ==> r.lists[x] == s.lists[x])
  {
    BeginFlush(s, t);
    PinAllMeans(s, s.lists[t]);
    CommitAllMeans(PinAll(s, s.lists[t]), t);
  }

  /** Every entry of the transaction is handed to init, clean, with its pins
      and its data as they were, and no other entry changes. */
  lemma FlushMeans(s: State, t: nat)
    requires Core(s) && t < |s.txns| && !s.txns[t].isInit
    ensures TxnOk(s.txns, s.stores, t)
    ensures var r := Flush(s, t);
      && SameView(s, r) && |r.pages| == |s.pages|
      && (forall q :: 0 <= q < |s.pages| ==> PageCommitted(s, r, t, 0, q))
  {
    BeginFlush(s, t);
    PinAllMeans(s, s.lists[t]);
    var a := PinAll(s, s.lists[t]);
    CommitAllMeans(a, t);
    var r := Flush(s, t);
    forall q | 0 <= q < |s.pages| ensures PageCommitted(s, r, t, 0, q) {
      assert PageCommitted(a, r, t, 1, q) && PageOk(s, q);
    }
  }

  function MarkCommitted(s: State, t: nat): State
    requires t < |s.txns|
  {
    s.(txns := s.txns[t := s.txns[t].(committed := true)])
  }

  lemma FinishCommit(s: State, t: nat)
    requires Core(s) && t < |s.txns| && !s.txns[t].isInit
    ensures |Flush(s, t).txns| == |s.txns|
    ensures var b := MarkCommitted(Flush(s, t), t);
      && Core(b)
      && var c := EndTxn(b, t, {});
         c.stores == s.stores && c.txns == s.txns[t := s.txns[t].(committed := true, closed := true)]
  {
    FlushKeeps(s, t);
    var b := MarkCommitted(Flush(s, t), t);
    TablesMoved(Flush(s, t), b);
    EndTxnKeeps(b, t, {});
  }

  /** TransactionImpl::Commit when every write succeeds. */
  ghost function Commit(s: State, t: nat): (State, Status)
    requires Core(s) && t < |s.txns| && !s.txns[t].isInit
  {
    if s.txns[t].closed then (s, AlreadyClosed)
    else
      FinishCommit(s, t);
      assert TxnOk(s.txns, s.stores, t);
      (TransactionClosed(EndTxn(MarkCommitted(Flush(s, t), t), t, {}), t), Success)
  }

  /** With nothing assigned to it, closing a transaction only sets its flag. */
  lemma EndEmpty(s: State, t: nat)
    requires Core(s) && t < |s.txns| && s.lists[t] == []
    ensures EndTxn(s, t, {}) == MarkClosed(s, t)
  {
    BeginEnd(s, t);
  }

  /** Transaction t is closed and has left the list of its open store. */
  ghost predicate Left(s: State, r: State, t: nat, committed: bool)
    requires t < |s.txns| && s.txns[t].store < |s.stores|
  {
    var st := s.txns[t].store;
    && r.txns == s.txns[t := s.txns[t].(closed := true, committed := committed)]
    && r.stores == s.stores[st := s.stores[st].(txns := Remove(s.stores[st].txns, t))]
  }

  lemma LeaveStoreLife(s: State, r: State, t: nat, committed: bool)
    requires Inv(s) && t < |s.txns| && !s.txns[t].isInit && !s.txns[t].closed
    requires TxnOk(s.txns, s.stores, t) && Left(s, r, t, committed)
    ensures StoreLife(r, s.txns[t].store)
  {
    var st := s.txns[t].store;
    assert StoreLife(s, st) && StoreOk(s.txns, s.stores, st) && TxnOk(s.txns, s.stores, s.stores[st].init);
    RemoveKeeps(s.stores[st].txns, t);
    RemoveIncreasing(s.stores[st].txns, t);
    assert forall i :: 0 <= i < |r.stores[st].txns| ==> r.stores[st].txns[i] in r.stores[st].txns;
  }

  /** A transaction that owns nothing leaves the list of its open store. */
  lemma LeaveLife(s: State, r: State, t: nat, committed: bool)
    requires Inv(s) && t < |s.txns| && !s.txns[t].isInit && !s.txns[t].closed
    requires TxnOk(s.txns, s.stores, t) && InitOf(s, t) < |s.txns| && Left(s, r, t, committed)
    requires |r.lists| == |s.lists| && r.lists[t] == []
    requires forall x :: 0 <= x < |s.lists| && x != t && x != InitOf(s, t) ==> r.lists[x] == s.lists[x]
    ensures Life(r)
  {
    var st := s.txns[t].store;
    assert StoreLife(s, st) && StoreOk(s.txns, s.stores, st) && t in s.stores[st].txns;
    forall x | 0 <= x < |r.txns| ensures TxnLife(r, x) { assert TxnLife(s, x); }
    forall x | 0 <= x < |r.stores| ensures StoreLife(r, x) {
      if x == st { LeaveStoreLife(s, r, t, committed); }
      else { assert StoreLife(s, x) && StoreOk(s.txns, s.stores, x) && TxnOk(s.txns, s.stores, s.stores[x].init); }
    }
  }

  lemma CommitTables(s: State, t: nat)
    requires Inv(s) && t < |s.txns| && !s.txns[t].isInit && !s.txns[t].closed
    ensures var (r, status) := Commit(s, t);
      var f := Flush(s, t);
      && status == Success && TxnOk(s.txns, s.stores, t)
      && r.txns == s.txns[t := s.txns[t].(closed := true, committed := true)]
      && r.stores == s.stores[s.txns[t].store :=
           s.stores[s.txns[t].store].(txns := Remove(s.stores[s.txns[t].store].txns, t))]
      && r == f.(txns := r.txns, stores := r.stores)
  {
    assert TxnOk(s.txns, s.stores, t) && StoreLife(s, s.txns[t].store);
    assert s.stores[s.txns[t].store].phase == Open by {
      assert t in s.stores[s.txns[t].store].txns;
    }
    FlushKeeps(s, t);
    FinishCommit(s, t);
    EndEmpty(MarkCommitted(Flush(s, t), t), t);
  }

  /** Commit with successful writes keeps the invariants, leaves the view, the
      page map, the pins and the free list as they were, and every entry of the
      transaction clean, owned by init and equal to its block on disk. */
  lemma CommitTheorem(s: State, t: nat)
    requires Inv(s) && t < |s.txns| && !s.txns[t].isInit && !s.txns[t].closed
    ensures TxnOk(s.txns, s.stores, t)
    ensures var (r, status) := Commit(s, t);
      && status == Success && Inv(r) && SameView(s, r)
      && r.pageMap == s.pageMap && r.free == s.free && |r.pages| == |s.pages|
      && Left(s, r, t, true) && r.lists[t] == []
      && (forall q :: 0 <= q < |s.pages| ==> PageCommitted(s, r, t, 0, q))
      && (forall q :: 0 <= q < |s.pages| && s.pages[q].owner == Some(t) ==>
            DiskBlock(r, (s.txns[t].store, s.pages[q].id)) == s.pages[q].data)
  {
    var r := Commit(s, t).0;
    var f := Flush(s, t);
    CommitTables(s, t);
    FlushKeeps(s, t);
    FlushMeans(s, t);
    assert StoreOk(s.txns, s.stores, s.txns[t].store);
    TablesMoved(f, r);
    LeaveLife(s, r, t, true);
    forall q | 0 <= q < |s.pages| ensures PageCommitted(s, r, t, 0, q) { assert PageCommitted(s, f, t, 0, q); }
    forall q | 0 <= q < |s.pages| && s.pages[q].owner == Some(t)
      ensures DiskBlock(r, (s.txns[t].store, s.pages[q].id)) == s.pages[q].data
    {
      assert PageCommitted(s, r, t, 0, q) && PageOk(r, q);
    }
  }

  /** TransactionImpl::Rollback on an open store when every write succeeds. */
  ghost function RollbackOpen(s: State, t: nat): (State, Status)
    requires Core(s) && t < |s.txns|
  {
    if s.txns[t].closed then (s, AlreadyClosed)
    else
      EndTxnKeeps(s, t, {});
      assert TxnOk(s.txns, s.stores, t);
      (TransactionClosed(EndTxn(s, t, {}), t), Success)
  }

  /** Rollback keeps the invariants and frees the transaction's entries. It does
      not undo anything: what the transaction wrote stays visible and is on disk. */
  lemma RollbackTheorem(s: State, t: nat)
    requires Inv(s) && t < |s.txns| && !s.txns[t].isInit && !s.txns[t].closed && Idle(s, t)
    ensures TxnOk(s.txns, s.stores, t)
    ensures var (r, status) := RollbackOpen(s, t);
      && status == Success && Inv(r) && SameView(s, r)
      && Released(s, r, EntriesOf(s, {t}), {}) && r.free == s.free + s.lists[t]
      && Left(s, r, t, s.txns[t].committed)
      && (forall q :: 0 <= q < |s.pages| && s.pages[q].owner == Some(t) ==>
            DiskBlock(r, (s.txns[t].store, s.pages[q].id)) == s.pages[q].data)
  {
    var r := RollbackOpen(s, t).0;
    var e := EndTxn(s, t, {});
    var st := s.txns[t].store;
    assert TxnOk(s.txns, s.stores, t) && StoreOk(s.txns, s.stores, st) && StoreLife(s, st) && TxnLife(s, t);
    assert s.stores[st].phase == Open by { assert t in s.stores[st].txns; }
    EndTxnKeeps(s, t, {});
    EndTxnMeans(s, t, {});
    ListedEntries(s, t);
    TablesMoved(e, r);
    LeaveLife(s, r, t, s.txns[t].committed);
    ReleasedSame(s, s, e, r, EntriesOf(s, {t}), {});
    ReleasedSameView(s, r, EntriesOf(s, {t}), {});
    forall q | 0 <= q < |s.pages| && s.pages[q].owner == Some(t)
      ensures DiskBlock(r, (st, s.pages[q].id)) == s.pages[q].data
    {
      assert PageOk(s, q);
      assert KeyReleased(s, r, EntriesOf(s, {t}), {}, (st, s.pages[q].id));
    }
  }
}
