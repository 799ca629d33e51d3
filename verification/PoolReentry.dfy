/** Closing a transaction in full generality. A failed write-back inside the
    loop of TransactionImpl::Close closes the store, and so re-enters the code
    that closes transactions. */
module PoolReentry {
  import opened Lists
  import opened PoolModel
  import opened PoolSteps
  import opened PoolOps
  import opened PoolClose
  import opened PoolCommit

  ghost predicate QueuedAt(s: State, st: nat, i: nat)
    requires st < |s.stores| && i < |s.stores[st].txns|
  {
    s.stores[st].txns[i] < |s.txns| && s.txns[s.stores[st].txns[i]].store == st
  }

  /** The list of running transactions of a store is a list of its transactions. */
  ghost predicate Closable(s: State, st: nat) {
    && st < |s.stores| && NoDup(s.stores[st].txns)
    && forall i :: 0 <= i < |s.stores[st].txns| ==> QueuedAt(s, st, i)
  }

  lemma ClosableQueue(s: State, st: nat)
    requires Closable(s, st)
    ensures ValidQueue(s, s.stores[st].txns)
  {
    forall i | 0 <= i < |s.stores[st].txns| ensures s.stores[st].txns[i] < |s.txns| {
      assert QueuedAt(s, st, i);
    }
  }

  /** No entry that is unassigned or belongs to the transaction changes. */
  ghost predicate Untouched(s: State, r: State, t: nat) {
    |r.pages| == |s.pages| &&
    forall q :: 0 <= q < |s.pages| && (s.pages[q].owner.None? || s.pages[q].owner.value == t) ==>
      r.pages[q] == s.pages[q]
  }

  lemma {:induction false} ReleaseAllOthers(s: State, x: nat, fails: set<nat>, t: nat)
    requires Core(s) && AllPinned(s, x) && x != t
    ensures Untouched(s, ReleaseAll(s, x, fails), t)
    decreases if x < |s.lists| then |s.lists[x]| else 0
  {
    if s.lists[x] != [] {
      ReleaseFirstKeeps(s, x, fails);
      ReleaseFirstNext(s, x, fails);
      var m := ReleaseFirst(s, x, fails);
      assert Untouched(s, m, t) by { assert ListOk(s, x) && PageOk(s, s.lists[x][0]); }
      ReleaseAllOthers(m, x, fails, t);
    }
  }

  /** Closing one transaction leaves the entries of the others alone. */
  lemma EndTxnOthers(s: State, x: nat, fails: set<nat>, t: nat)
    requires Core(s) && x < |s.txns| && x != t
    ensures Untouched(s, EndTxn(s, x, fails), t)
  {
    BeginEnd(s, x);
    var m := MarkClosed(s, x);
    PinAllMeans(m, s.lists[x]);
    var n := PinAll(m, s.lists[x]);
    assert Untouched(m, n, t) by { assert ListOk(m, x); }
    ReleaseAllOthers(n, x, fails, t);
  }

  lemma {:induction false} RollbackAllOthers(s: State, queue: seq<nat>, fails: set<nat>, t: nat)
    requires Core(s) && ValidQueue(s, queue) && t < |s.txns| && s.txns[t].closed
    ensures Untouched(s, RollbackAll(s, queue, fails), t)
    decreases |queue|
  {
    if queue != [] {
      var x := queue[0];
      RollbackKeeps(s, x, fails);
      if !s.txns[x].closed {
        EndTxnKeeps(s, x, fails);
        EndTxnOthers(s, x, fails, t);
      }
      RollbackAllOthers(Rollback(s, x, fails), queue[1..], fails, t);
    }
  }

  /** StoreImpl::Close in terms of its halves. */
  lemma CloseStoreSteps(s: State, st: nat, fails: set<nat>)
    requires Core(s) && Closable(s, st) && s.stores[st].phase == Open
    ensures var a := SetPhase(s, st, Closing); var queue := s.stores[st].txns;
      && Core(a) && ValidQueue(a, queue) && ValidQueue(s, queue)
      && var b := RollbackAll(a, queue, fails);
         && Core(b) && b.stores == a.stores && |b.txns| == |s.txns| && |b.lists| == |s.lists|
         && (forall t :: 0 <= t < |s.txns| && s.txns[t].closed ==> b.txns[t] == s.txns[t] && b.lists[t] == s.lists[t])
         && b.stores[st].init < |b.txns| && Rollback(b, b.stores[st].init, fails).stores == b.stores
         && CloseStore(s, st, fails) == SetPhase(Rollback(b, b.stores[st].init, fails), st, Closed)
  {
    ClosableQueue(s, st);
    var a := SetPhase(s, st, Closing);
    TablesMoved(s, a);
    RollbackAllKeeps(a, s.stores[st].txns, fails);
    var b := RollbackAll(a, s.stores[st].txns, fails);
    assert StoreOk(b.txns, b.stores, st);
    RollbackKeeps(b, b.stores[st].init, fails);
  }

  /** A store that closes in the middle of the loop that closes transaction t
      leaves t and its entries for that loop. */
  lemma CloseNested(s: State, st: nat, fails: set<nat>, t: nat)
    requires Core(s) && Closable(s, st) && s.stores[st].phase == Open
    requires t < |s.txns| && s.txns[t].closed
    ensures ValidQueue(s, s.stores[st].txns)
    ensures var r := CloseStore(s, st, fails);
      && Core(r) && Untouched(s, r, t)
      && r.stores == s.stores[st := s.stores[st].(phase := Closed, txns := [])]
      && |r.txns| == |s.txns| && |r.lists| == |s.lists|
      && r.txns[t] == s.txns[t] && r.lists[t] == s.lists[t]
  {
    CloseStoreSteps(s, st, fails);
    var a := SetPhase(s, st, Closing);
    RollbackAllOthers(a, s.stores[st].txns, fails, t);
    var b := RollbackAll(a, s.stores[st].txns, fails);
    var init := b.stores[st].init;
    RollbackKeeps(b, init, fails);
    if !b.txns[init].closed {
      EndTxnKeeps(b, init, fails);
      EndTxnOthers(b, init, fails, t);
    }
    var c := Rollback(b, init, fails);
    TablesMoved(c, SetPhase(c, st, Closed));
  }

  lemma StillPinned(s: State, r: State, t: nat)
    requires Core(s) && Core(r) && Untouched(s, r, t) && AllPinned(s, t)
    requires |r.lists| == |s.lists| && r.lists[t] == s.lists[t]
    ensures AllPinned(r, t)
  {
    forall q | 0 <= q < |r.pages| && r.pages[q].owner == Some(t) ensures r.pages[q].pins > 0 {
      assert PageOk(r, q) && ListOk(s, t);
    }
  }

  // ---------------------------------------------------------------------
  // The loop of TransactionImpl::Close on a store in any phase

  ghost predicate Ending(s: State, t: nat) {
    && Core(s) && t < |s.txns| && s.txns[t].closed
    && AllPinned(s, t) && Closable(s, s.txns[t].store)
  }

  /** The entry at the front of the list is dirty and cannot be written. */
  ghost predicate FrontFails(s: State, t: nat, fails: set<nat>)
    requires t < |s.lists| && s.lists[t] != []
  {
    s.lists[t][0] < |s.pages| && s.pages[s.lists[t][0]].dirty && s.lists[t][0] in fails
  }

  /** PagePool::UnassignPageFromStore, for an entry pinned by the caller. A
      failed write closes the store, if it is not closing already. */
  ghost function UnassignPageFromStore(s: State, p: nat, ok: bool, fails: set<nat>): State
    requires Core(s) && Assigned(s, p) && s.pages[p].pins > 0 && Closable(s, KeyOf(s, p).0)
  {
    UnassignKeeps(s, p, ok);
    ClosableQueue(s, KeyOf(s, p).0);
    var u := Unassign(s, p, ok);
    if s.pages[p].dirty && !ok then CloseStore(u, KeyOf(s, p).0, fails) else u
  }

  /** One round of the loop. */
  ghost function ReleaseNext(s: State, t: nat, fails: set<nat>): State
    requires Ending(s, t) && s.lists[t] != []
  {
    var p := s.lists[t][0];
    FrontUnassigned(s, t, fails);
    UnpinUnassigned(UnassignPageFromStore(s, p, p !in fails, fails), p)
  }

  /** A failed write closes the store and leaves the loop where it was. */
  lemma FrontCloses(u: State, t: nat, fails: set<nat>)
    requires Ending(u, t) && StorePhase(u, t) == Open
    ensures ValidQueue(u, u.stores[u.txns[t].store].txns)
    ensures var r := CloseStore(u, u.txns[t].store, fails);
      && Ending(r, t) && |r.lists| == |u.lists| && r.lists[t] == u.lists[t]
      && |r.txns| == |u.txns| && r.txns[t] == u.txns[t] && |r.stores| == |u.stores|
      && StorePhase(r, t) == Closed && Untouched(u, r, t)
  {
    CloseNested(u, u.txns[t].store, fails, t);
    StillPinned(u, CloseStore(u, u.txns[t].store, fails), t);
  }

  lemma FrontUnassigned(s: State, t: nat, fails: set<nat>)
    requires Ending(s, t) && s.lists[t] != []
    ensures var p := s.lists[t][0];
      && Assigned(s, p) && s.pages[p].pins > 0 && KeyOf(s, p).0 == s.txns[t].store
      && var u := UnassignPageFromStore(s, p, p !in fails, fails);
         && Ending(u, t) && |u.lists| == |s.lists| && u.lists[t] == s.lists[t][1..]
         && |u.txns| == |s.txns| && u.txns[t] == s.txns[t] && |u.stores| == |s.stores|
         && |u.pages| == |s.pages| && u.pages[p].owner.None? && u.pages[p].pins > 0
         && StorePhase(u, t) == if FrontFails(s, t, fails) && StorePhase(s, t) == Open then Closed else StorePhase(s, t)
  {
    var p := s.lists[t][0];
    UnassignEnding(s, t, fails);
    if FrontFails(s, t, fails) && StorePhase(s, t) == Open {
      FrontCloses(Unassign(s, p, p !in fails), t, fails);
    }
  }

  lemma UnassignEnding(s: State, t: nat, fails: set<nat>)
    requires Ending(s, t) && s.lists[t] != []
    ensures var p := s.lists[t][0];
      && ListOk(s, t) && PageOk(s, p)
      && var u := Unassign(s, p, p !in fails);
         && Ending(u, t) && u.txns == s.txns && u.stores == s.stores
         && u.lists == s.lists[t := s.lists[t][1..]]
         && |u.pages| == |s.pages| && u.pages[p].owner.None? && u.pages[p].pins > 0
  {
    var p := s.lists[t][0];
    assert ListOk(s, t) && PageOk(s, p);
    UnassignKeeps(s, p, p !in fails);
    RemoveHead(s.lists[t]);
    var u := Unassign(s, p, p !in fails);
    assert Closable(u, s.txns[t].store) by {
      forall i | 0 <= i < |u.stores[s.txns[t].store].txns| ensures QueuedAt(u, s.txns[t].store, i) {
        assert QueuedAt(s, s.txns[t].store, i);
      }
    }
  }

  /** The entry that just left the transaction loses the pin of its closing. */
  lemma UnpinEnding(s: State, t: nat, p: nat)
    requires Ending(s, t) && p < |s.pages| && s.pages[p].owner.None? && s.pages[p].pins > 0
    ensures Ending(UnpinUnassigned(s, p), t)
  {
    UnpinUnassignedKeeps(s, p);
    var r := UnpinUnassigned(s, p);
    var st := s.txns[t].store;
    forall i | 0 <= i < |r.stores[st].txns| ensures QueuedAt(r, st, i) { assert QueuedAt(s, st, i); }
  }

  lemma ReleaseNextKeeps(s: State, t: nat, fails: set<nat>)
    requires Ending(s, t) && s.lists[t] != []
    ensures var r := ReleaseNext(s, t, fails);
      && Ending(r, t) && |r.lists| == |s.lists| && r.lists[t] == s.lists[t][1..]
      && |r.txns| == |s.txns| && r.txns[t] == s.txns[t] && |r.stores| == |s.stores|
      && StorePhase(r, t) == if FrontFails(s, t, fails) && StorePhase(s, t) == Open then Closed else StorePhase(s, t)
  {
    var p := s.lists[t][0];
    FrontUnassigned(s, t, fails);
    UnpinEnding(UnassignPageFromStore(s, p, p !in fails, fails), t, p);
  }

  ghost function ReleaseRest(s: State, t: nat, fails: set<nat>): State
    requires Ending(s, t)
    decreases if t < |s.lists| then |s.lists[t]| else 0
  {
    if s.lists[t] == [] then s
    else
      ReleaseNextKeeps(s, t, fails);
      ReleaseRest(ReleaseNext(s, t, fails), t, fails)
  }

  ghost predicate FailsAt(s: State, t: nat, fails: set<nat>, i: nat)
    requires t < |s.lists| && i < |s.lists[t]|
  {
    s.lists[t][i] < |s.pages| && s.pages[s.lists[t][i]].dirty && s.lists[t][i] in fails
  }

  /** Closing the transaction has to write an entry, and cannot. */
  ghost predicate SomeFails(s: State, t: nat, fails: set<nat>)
    requires t < |s.lists|
  {
    exists i :: 0 <= i < |s.lists[t]| && FailsAt(s, t, fails, i)
  }

  ghost function StorePhase(s: State, t: nat): Phase
    requires t < |s.txns| && s.txns[t].store < |s.stores|
  {
    s.stores[s.txns[t].store].phase
  }

  /** A round that closes nothing is a round of the simple loop. */
  lemma QuietRound(s: State, t: nat, fails: set<nat>)
    requires Ending(s, t) && s.lists[t] != [] && !FrontFails(s, t, fails)
    ensures ReleaseNext(s, t, fails) == ReleaseFirst(s, t, {})
  {
    assert ListOk(s, t) && PageOk(s, s.lists[t][0]);
  }

  /** It leaves the rest of the list as it was. */
  lemma QuietRoundRest(s: State, t: nat, fails: set<nat>)
    requires Ending(s, t) && s.lists[t] != []
    ensures var r := ReleaseFirst(s, t, {});
      && |r.lists| == |s.lists| && |r.lists[t]| == |s.lists[t]| - 1
      && forall i :: 0 <= i < |r.lists[t]| ==> FailsAt(r, t, fails, i) == FailsAt(s, t, fails, i + 1)
  {
    ReleaseFirstNext(s, t, {});
    assert ListOk(s, t) && PageOk(s, s.lists[t][0]);
  }

  lemma QuietRoundFails(s: State, t: nat, fails: set<nat>)
    requires Ending(s, t) && s.lists[t] != [] && !FrontFails(s, t, fails)
    ensures var r := ReleaseNext(s, t, fails);
      t < |r.lists| && (SomeFails(s, t, fails) <==> SomeFails(r, t, fails))
  {
    QuietRound(s, t, fails);
    QuietRoundRest(s, t, fails);
    var r := ReleaseNext(s, t, fails);
    if SomeFails(s, t, fails) {
      var i :| 0 <= i < |s.lists[t]| && FailsAt(s, t, fails, i);
      assert FailsAt(r, t, fails, i - 1);
    }
    if SomeFails(r, t, fails) {
      var i :| 0 <= i < |r.lists[t]| && FailsAt(r, t, fails, i);
      assert FailsAt(s, t, fails, i + 1);
    }
  }

  /** The loop goes through the whole list. It closes the store exactly if the
      store is open and one of the entries cannot be written. */
  lemma {:induction false} ReleaseRestPhase(s: State, t: nat, fails: set<nat>)
    requires Ending(s, t)
    ensures var r := ReleaseRest(s, t, fails);
      && Ending(r, t) && r.lists[t] == [] && |r.txns| == |s.txns| && r.txns[t] == s.txns[t]
      && |r.stores| == |s.stores|
      && StorePhase(r, t) == if StorePhase(s, t) == Open && SomeFails(s, t, fails) then Closed else StorePhase(s, t)
    decreases if t < |s.lists| then |s.lists[t]| else 0
  {
    if s.lists[t] != [] {
      ReleaseNextKeeps(s, t, fails);
      if FrontFails(s, t, fails) {
        assert FailsAt(s, t, fails, 0);
      } else {
        QuietRoundFails(s, t, fails);
      }
      ReleaseRestPhase(ReleaseNext(s, t, fails), t, fails);
    }
  }

  /** On a store that is already closing, a failed write is of no consequence. */
  lemma {:induction false} ReleaseRestClosing(s: State, t: nat, fails: set<nat>)
    requires Ending(s, t) && StorePhase(s, t) != Open
    ensures ReleaseRest(s, t, fails) == ReleaseAll(s, t, fails)
    decreases if t < |s.lists| then |s.lists[t]| else 0
  {
    if s.lists[t] != [] {
      ReleaseNextKeeps(s, t, fails);
      assert ListOk(s, t) && PageOk(s, s.lists[t][0]);
      ReleaseRestClosing(ReleaseNext(s, t, fails), t, fails);
    }
  }

  lemma {:induction false} ReleaseRestQuiet(s: State, t: nat, fails: set<nat>)
    requires Ending(s, t) && !SomeFails(s, t, fails)
    ensures ReleaseRest(s, t, fails) == ReleaseAll(s, t, {})
    decreases if t < |s.lists| then |s.lists[t]| else 0
  {
    if s.lists[t] != [] {
      ReleaseNextKeeps(s, t, fails);
      assert !FailsAt(s, t, fails, 0);
      QuietRound(s, t, fails);
      QuietRoundFails(s, t, fails);
      ReleaseRestQuiet(ReleaseNext(s, t, fails), t, fails);
    }
  }

  // ---------------------------------------------------------------------
  // TransactionImpl::Close

  lemma BeginEnding(s: State, t: nat)
    requires Core(s) && t < |s.txns| && Closable(s, s.txns[t].store)
    ensures Core(MarkClosed(s, t)) && InTable(MarkClosed(s, t), s.lists[t])
    ensures var a := PinAll(MarkClosed(s, t), s.lists[t]);
      && Ending(a, t) && |a.lists| == |s.lists| && a.lists[t] == s.lists[t] && |a.pages| == |s.pages|
      && a.stores == s.stores && |a.txns| == |s.txns| && a.txns[t].store == s.txns[t].store
      && (forall q :: 0 <= q < |s.pages| ==> a.pages[q].dirty == s.pages[q].dirty)
  {
    BeginEnd(s, t);
    var m := MarkClosed(s, t);
    PinAllMeans(m, s.lists[t]);
    var a := PinAll(m, s.lists[t]);
    var st := s.txns[t].store;
    forall i | 0 <= i < |a.stores[st].txns| ensures QueuedAt(a, st, i) { assert QueuedAt(s, st, i); }
  }

  /** TransactionImpl::Close up to the call of TransactionClosed, on a store in
      any phase and with any failures. */
  ghost function ReleaseEntries(s: State, t: nat, fails: set<nat>): State
    requires Core(s) && t < |s.txns| && Closable(s, s.txns[t].store)
  {
    BeginEnding(s, t);
    ReleaseRest(PinAll(MarkClosed(s, t), s.lists[t]), t, fails)
  }

  lemma InvClosable(s: State, st: nat)
    requires Inv(s) && st < |s.stores|
    ensures Closable(s, st)
  {
    assert StoreLife(s, st);
    forall i | 0 <= i < |s.stores[st].txns| ensures QueuedAt(s, st, i) {
      assert s.stores[st].txns[i] in s.stores[st].txns;
    }
  }

  lemma SomeEntryFails(s: State, a: State, t: nat, fails: set<nat>)
    requires Core(s) && t < |s.txns| && !s.txns[t].isInit
    requires |a.pages| == |s.pages| && |a.lists| == |s.lists| && a.lists[t] == s.lists[t]
    requires forall q :: 0 <= q < |s.pages| ==> a.pages[q].dirty == s.pages[q].dirty
    ensures SomeFails(a, t, fails) <==> !(EntriesOf(s, {t}) !! fails)
  {
    ListedEntries(s, t);
    if SomeFails(a, t, fails) {
      var i :| 0 <= i < |a.lists[t]| && FailsAt(a, t, fails, i);
      assert a.lists[t][i] in EntriesOf(s, {t}) && a.lists[t][i] in fails;
    }
    if q :| q in EntriesOf(s, {t}) && q in fails {
      assert q in Elems(s.lists[t]) && PageOk(s, q);
      var i :| 0 <= i < |s.lists[t]| && s.lists[t][i] == q;
      assert FailsAt(a, t, fails, i);
    }
  }

  /** A transaction of an open store that is rolled back on its own meets the
      demand of TransactionClosed, that the store is not closed, exactly if each
      of its entries can be written. In that case nothing is closed but the
      transaction. */
  lemma DirectRollback(s: State, t: nat, fails: set<nat>)
    requires Inv(s) && t < |s.txns| && !s.txns[t].isInit && !s.txns[t].closed
    ensures TxnOk(s.txns, s.stores, t) && Closable(s, s.txns[t].store)
    ensures var r := ReleaseEntries(s, t, fails);
      && |r.txns| == |s.txns| && r.txns[t].store == s.txns[t].store && |r.stores| == |s.stores|
      && (StorePhase(r, t) != Closed <==> EntriesOf(s, {t}) !! fails)
      && (EntriesOf(s, {t}) !! fails ==> TransactionClosed(r, t) == RollbackOpen(s, t).0)
  {
    var st := s.txns[t].store;
    assert TxnOk(s.txns, s.stores, t) && StoreLife(s, st);
    assert s.stores[st].phase == Open by { assert t in s.stores[st].txns; }
    InvClosable(s, st);
    BeginEnding(s, t);
    var a := PinAll(MarkClosed(s, t), s.lists[t]);
    SomeEntryFails(s, a, t, fails);
    ReleaseRestPhase(a, t, fails);
    if EntriesOf(s, {t}) !! fails {
      ReleaseRestQuiet(a, t, fails);
    }
  }
}
