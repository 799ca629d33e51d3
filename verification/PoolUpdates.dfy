/** The operations of the model, cut up as the methods of the pool perform them. */
module PoolUpdates {
  import opened Lists
  import opened StatusCodes
  import opened PoolModel
  import opened PoolSteps
  import opened PoolOps
  import opened PoolClose
  import opened PoolCommit
  import opened PoolReentry
  import opened PoolFetch
  import PoolRuns

  ghost predicate CanCommitFirst(s: State, t: nat) {
    Core(s) && AllPinned(s, t) && s.lists[t] != [] && !s.txns[t].isInit
  }

  lemma CommitFirstSteps(s: State, t: nat)
    requires CanCommitFirst(s, t)
    ensures var p := s.lists[t][0];
      && Assigned(s, p) && s.pages[p].dirty && s.pages[p].owner == Some(t) && s.pages[p].pins > 0
      && var init := s.stores[s.txns[t].store].init;
         && init < |s.lists| && init != t
         && CommitFirst(s, t) == Unpin(Reassign(WriteBack(s, p), p, init, false), p, CachePage)
  {
    var p := s.lists[t][0];
    assert ListOk(s, t) && PageOk(s, p);
    PersistKeeps(s, p);
  }

  lemma CommitFirstRound(s: State, t: nat)
    requires CanCommitFirst(s, t)
    ensures var r := CommitFirst(s, t);
      && Core(r) && AllPinned(r, t) && r.lists[t] == s.lists[t][1..] && r.txns == s.txns
      && CommitAll(r, t) == CommitAll(s, t)
  {
    CommitFirstKeeps(s, t);
    CommitFirstNext(s, t);
  }

  lemma CommitSteps(s: State, t: nat)
    requires Core(s) && t < |s.txns| && !s.txns[t].isInit && !s.txns[t].closed
    ensures ListOk(s, t)
    ensures var a := PinAll(s, s.lists[t]);
      && Core(a) && AllPinned(a, t) && a.txns == s.txns
      && var b := CommitAll(a, t);
         && b.txns == s.txns && b.stores == s.stores
         && s.txns[t].store < |s.stores|
         && Commit(s, t).0 == TransactionClosed(MarkClosed(MarkCommitted(b, t), t), t)
  {
    BeginFlush(s, t);
    FlushKeeps(s, t);
    FinishCommit(s, t);
    EndEmpty(MarkCommitted(Flush(s, t), t), t);
  }

  lemma OpenTxn(s: State, t: nat)
    requires Inv(s) && t < |s.txns| && !s.txns[t].isInit && !s.txns[t].closed
    ensures s.txns[t].store < |s.stores| && s.stores[s.txns[t].store].phase == Open
  {
    assert TxnOk(s.txns, s.stores, t) && StoreLife(s, s.txns[t].store);
    assert t in s.stores[s.txns[t].store].txns;
  }

  /** TransactionImpl::Rollback on a store in any phase. */
  ghost function RollBack(s: State, t: nat, fails: set<nat>): State
    requires Core(s) && t < |s.txns| && (!s.txns[t].closed ==> Closable(s, s.txns[t].store))
  {
    if s.txns[t].closed then s
    else
      EndingLast(s, t, fails);
      TransactionClosed(ReleaseEntries(s, t, fails), t)
  }

  lemma EndingLast(s: State, t: nat, fails: set<nat>)
    requires Core(s) && t < |s.txns| && Closable(s, s.txns[t].store)
    ensures var r := ReleaseEntries(s, t, fails);
      && |r.txns| == |s.txns| && r.txns[t].store == s.txns[t].store && |r.stores| == |s.stores|
      && (StorePhase(s, t) != Closed && (StorePhase(s, t) == Open ==> !SomeFails(s, t, fails)) ==>
            StorePhase(r, t) == StorePhase(s, t))
  {
    BeginEnding(s, t);
    var a := PinAll(MarkClosed(s, t), s.lists[t]);
    ReleaseRestPhase(a, t, fails);
    if SomeFails(a, t, fails) {
      var i :| 0 <= i < |a.lists[t]| && FailsAt(a, t, fails, i);
      assert FailsAt(s, t, fails, i);
    }
  }

  /** On an open store, a rollback without failures is the one of the model. */
  lemma OpenRollback(s: State, t: nat)
    requires Inv(s) && t < |s.txns| && !s.txns[t].isInit && !s.txns[t].closed
    ensures s.txns[t].store < |s.stores| && Closable(s, s.txns[t].store)
    ensures StorePhase(s, t) == Open && !SomeFails(s, t, {})
    ensures RollBack(s, t, {}) == RollbackOpen(s, t).0
  {
    OpenTxn(s, t);
    InvClosable(s, s.txns[t].store);
    DirectRollback(s, t, {});
  }

  /** While a store closes, its transactions just leave. */
  lemma RollBackClosing(s: State, t: nat, fails: set<nat>)
    requires Core(s) && t < |s.txns| && Closable(s, s.txns[t].store) && StorePhase(s, t) == Closing
    ensures RollBack(s, t, fails) == Rollback(s, t, fails)
  {
    if !s.txns[t].closed {
      BeginEnding(s, t);
      ReleaseRestClosing(PinAll(MarkClosed(s, t), s.lists[t]), t, fails);
      EndTxnKeeps(s, t, fails);
    }
  }

  // ---------------------------------------------------------------------
  // An entry that is unassigned has no pin but the caller's

  /** No entry of a running transaction of the store is pinned. */
  ghost predicate OpenIdle(s: State, st: nat) {
    forall q :: q in StoreEntries(s, st) && !s.txns[s.pages[q].owner.value].closed ==> s.pages[q].pins == 0
  }

  lemma OpenIdleTxn(s: State, st: nat, t: nat)
    requires OpenIdle(s, st) && t < |s.txns| && s.txns[t].store == st && !s.txns[t].closed
    ensures Idle(s, t)
  {
    forall q | 0 <= q < |s.pages| && s.pages[q].owner == Some(t) ensures s.pages[q].pins == 0 {
      assert q in StoreEntries(s, st);
    }
  }

  lemma IdleOpenIdle(s: State, st: nat)
    requires StoreIdle(s, st)
    ensures OpenIdle(s, st)
  {
  }

  /** Rolling back one transaction leaves the entries of the others unpinned. */
  lemma RollbackOpenIdle(s: State, st: nat, x: nat, fails: set<nat>)
    requires Core(s) && OpenIdle(s, st) && x < |s.txns|
    ensures OpenIdle(Rollback(s, x, fails), st)
  {
    if !s.txns[x].closed {
      EndTxnKeeps(s, x, fails);
      var r := EndTxn(s, x, fails);
      forall q | q in StoreEntries(r, st) && !r.txns[r.pages[q].owner.value].closed ensures r.pages[q].pins == 0 {
        var t := r.pages[q].owner.value;
        EndTxnOthers(s, x, fails, t);
        assert PageOk(r, q) && ListOk(s, t);
        assert q in StoreEntries(s, st);
      }
    }
  }

  /** Closing the transaction does not close the store in the middle. */
  ghost predicate Calm(s: State, t: nat, fails: set<nat>) {
    && t < |s.txns| && s.txns[t].store < |s.stores| && t < |s.lists|
    && (StorePhase(s, t) == Open ==> !SomeFails(s, t, fails))
  }

  lemma CalmFront(s: State, t: nat, fails: set<nat>)
    requires Ending(s, t) && PinnedOnce(s, t) && Calm(s, t, fails) && s.lists[t] != []
    ensures FrontFails(s, t, fails) ==> StorePhase(s, t) != Open
    ensures s.lists[t][0] < |s.pages| && s.pages[s.lists[t][0]].pins == 1
  {
    assert ListOk(s, t);
    if FrontFails(s, t, fails) { assert FailsAt(s, t, fails, 0); }
  }

  lemma CalmRound(s: State, t: nat, fails: set<nat>)
    requires Ending(s, t) && PinnedOnce(s, t) && Calm(s, t, fails) && s.lists[t] != []
    ensures var r := ReleaseNext(s, t, fails);
      && Ending(r, t) && PinnedOnce(r, t) && Calm(r, t, fails)
      && r.lists[t] == s.lists[t][1..] && |r.txns| == |s.txns| && r.txns[t] == s.txns[t]
      && StorePhase(r, t) == StorePhase(s, t)
      && ReleaseRest(r, t, fails) == ReleaseRest(s, t, fails)
  {
    ReleaseNextKeeps(s, t, fails);
    CalmFront(s, t, fails);
    assert ListOk(s, t) && PageOk(s, s.lists[t][0]);
    ReleaseFirstPins(s, t, fails);
    if StorePhase(s, t) == Open { QuietRoundFails(s, t, fails); }
  }

  lemma BeginCalm(s: State, t: nat, fails: set<nat>)
    requires Core(s) && t < |s.txns| && Closable(s, s.txns[t].store) && Idle(s, t) && Calm(s, t, fails)
    ensures Core(MarkClosed(s, t)) && InTable(MarkClosed(s, t), s.lists[t])
    ensures var a := PinAll(MarkClosed(s, t), s.lists[t]); Ending(a, t) && PinnedOnce(a, t) && Calm(a, t, fails)
  {
    BeginEnding(s, t);
    BeginEnd(s, t);
    var a := PinAll(MarkClosed(s, t), s.lists[t]);
    if SomeFails(a, t, fails) {
      var i :| 0 <= i < |a.lists[t]| && FailsAt(a, t, fails, i);
      assert FailsAt(s, t, fails, i);
    }
  }

  /** The first part of UnassignPageFromStore leaves the store closable. */
  lemma UnassignClosable(s: State, p: nat, ok: bool)
    requires Core(s) && Assigned(s, p) && s.pages[p].pins > 0 && Closable(s, KeyOf(s, p).0)
    ensures Core(Unassign(s, p, ok)) && Closable(Unassign(s, p, ok), KeyOf(s, p).0)
  {
    UnassignKeeps(s, p, ok);
    var u := Unassign(s, p, ok);
    var st := KeyOf(s, p).0;
    forall i | 0 <= i < |u.stores[st].txns| ensures QueuedAt(u, st, i) { assert QueuedAt(s, st, i); }
  }

  /** A transaction in the rollback queue of a store that is closing. */
  ghost predicate InQueue(s: State, st: nat, t: nat) {
    t < |s.txns| && s.txns[t].store == st
  }

  /** The rollback queue of a store, during the loop of StoreImpl::Close. */
  ghost predicate Draining(s: State, st: nat, queue: seq<nat>) {
    && Core(s) && st < |s.stores| && s.stores[st].phase == Closing && s.stores[st].txns == []
    && ValidQueue(s, queue) && (forall i :: 0 <= i < |queue| ==> InQueue(s, st, queue[i]))
    && OpenIdle(s, st) && NoDup(queue)
  }

  lemma BeginDraining(s: State, st: nat)
    requires Core(s) && Closable(s, st) && OpenIdle(s, st)
    ensures Draining(SetPhase(s, st, Closing), st, s.stores[st].txns)
  {
    var a := SetPhase(s, st, Closing);
    TablesMoved(s, a);
    forall i | 0 <= i < |s.stores[st].txns| ensures InQueue(a, st, s.stores[st].txns[i]) {
      assert QueuedAt(s, st, i);
    }
    forall q | q in StoreEntries(a, st) && !a.txns[a.pages[q].owner.value].closed ensures a.pages[q].pins == 0 {
      assert q in StoreEntries(s, st);
    }
  }

  lemma DrainOne(s: State, st: nat, queue: seq<nat>, fails: set<nat>)
    requires Draining(s, st, queue) && queue != []
    ensures InQueue(s, st, queue[0]) && Closable(s, st) && (!s.txns[queue[0]].closed ==> Idle(s, queue[0]))
    ensures var r := Rollback(s, queue[0], fails);
      && r == RollBack(s, queue[0], fails)
      && Draining(r, st, queue[1..])
      && RollbackAll(r, queue[1..], fails) == RollbackAll(s, queue, fails)
  {
    var t := queue[0];
    assert InQueue(s, st, queue[0]);
    RollbackKeeps(s, t, fails);
    RollBackClosing(s, t, fails);
    RollbackOpenIdle(s, st, t, fails);
    if !s.txns[t].closed {
      EndTxnKeeps(s, t, fails);
      OpenIdleTxn(s, st, t);
    }
    var r := Rollback(s, t, fails);
    forall i | 0 <= i < |queue[1..]| ensures InQueue(r, st, queue[1..][i]) { assert InQueue(s, st, queue[i + 1]); }
  }

  ghost predicate AllOpen(s: State, queue: seq<nat>) {
    forall i :: 0 <= i < |queue| ==> queue[i] < |s.txns| && !s.txns[queue[i]].closed
  }

  lemma DrainOpen(s: State, st: nat, queue: seq<nat>, fails: set<nat>)
    requires Draining(s, st, queue) && queue != []
    ensures AllOpen(s, queue) <==>
      !s.txns[queue[0]].closed && AllOpen(Rollback(s, queue[0], fails), queue[1..])
  {
    if !s.txns[queue[0]].closed {
      EndTxnKeeps(s, queue[0], fails);
      var r := Rollback(s, queue[0], fails);
      if AllOpen(r, queue[1..]) {
        forall i | 0 < i < |queue| ensures !s.txns[queue[i]].closed { assert !r.txns[queue[1..][i - 1]].closed; }
      }
    }
  }

  /** Every transaction that Close rolls back is open when its turn comes. */
  ghost predicate NoneClosed(s: State, st: nat)
    requires st < |s.stores|
  {
    && AllOpen(s, s.stores[st].txns) && s.stores[st].init !in s.stores[st].txns
    && s.stores[st].init < |s.txns| && !s.txns[s.stores[st].init].closed
  }

  /** The init transaction, after the queue. */
  lemma InitAfterQueue(s: State, st: nat, fails: set<nat>)
    requires Core(s) && Closable(s, st) && AllOpen(s, s.stores[st].txns)
    ensures var a := SetPhase(s, st, Closing); var queue := s.stores[st].txns;
      && AllOpen(a, queue) && Core(a) && ValidQueue(a, queue)
      && var b := RollbackAll(a, queue, fails);
         s.stores[st].init < |b.txns| && (!b.txns[s.stores[st].init].closed <==> NoneClosed(s, st))
  {
    var a := SetPhase(s, st, Closing); var queue := s.stores[st].txns;
    TablesMoved(s, a);
    assert StoreOk(s.txns, s.stores, st);
    RollbackAllKeeps(a, queue, fails);
  }

  /** Between operations, none is closed. */
  lemma InvNoneClosed(s: State, st: nat)
    requires Inv(s) && st < |s.stores| && s.stores[st].phase == Open
    ensures NoneClosed(s, st)
  {
    var queue := s.stores[st].txns;
    assert StoreLife(s, st) && StoreOk(s.txns, s.stores, st) && TxnOk(s.txns, s.stores, s.stores[st].init);
    forall i | 0 <= i < |queue| ensures !s.txns[queue[i]].closed { assert queue[i] in queue; }
  }

  /** The last rollback is that of the init transaction. */
  lemma DrainInit(s: State, st: nat, fails: set<nat>)
    requires Draining(s, st, [])
    ensures InQueue(s, st, s.stores[st].init) && Closable(s, st)
    ensures !s.txns[s.stores[st].init].closed ==> Idle(s, s.stores[st].init)
    ensures RollBack(s, s.stores[st].init, fails) == Rollback(s, s.stores[st].init, fails)
    ensures Rollback(s, s.stores[st].init, fails).stores == s.stores
  {
    assert StoreOk(s.txns, s.stores, st);
    if !s.txns[s.stores[st].init].closed { OpenIdleTxn(s, st, s.stores[st].init); }
    RollBackClosing(s, s.stores[st].init, fails);
    RollbackKeeps(s, s.stores[st].init, fails);
  }

  /** A freshly allocated entry that is about to cache a page of an open store. */
  ghost predicate CanAssign(s: State, p: nat, st: nat) {
    && Core(s) && p < |s.pages| && s.pages[p].owner.None? && s.pages[p].pins == 1 && st < |s.stores|
  }

  lemma CanAssignMeans(s: State, p: nat, st: nat)
    requires CanAssign(s, p, st)
    ensures st < |s.disks| && s.stores[st].init < |s.lists| && DiskOk(s.disks[st], s.pageSize)
    ensures |s.pages[p].data| == s.pageSize && !s.pages[p].dirty && !s.pages[p].stale
    ensures s.lists[s.stores[st].init := Remove(s.lists[s.stores[st].init] + [p], p)] == s.lists
  {
    var t := s.stores[st].init;
    assert StoreOk(s.txns, s.stores, st) && PageOk(s, p) && ListOk(s, t);
    RemoveLast(s.lists[t] + [p]);
  }

  /** The outcome of AssignPageToStore. */
  ghost function Assigning(s: State, p: nat, st: nat, id: nat, mode: FetchMode, status: Status): State
    requires CanAssign(s, p, st)
  {
    CanAssignMeans(s, p, st);
    if status != Success then Relabel(s, p, id)
    else if mode == FetchPageData then Assign(s, p, st, id, DiskBlock(s, (st, id)), false)
    else Assign(s, p, st, id, Filled(s.pageSize, 0xCD), true)
  }

  lemma AllocatedFor(s: State, st: nat, id: nat, io: Io)
    requires Inv(s) && EvictionSafe(s, io) && st < |s.stores|
    ensures var (a, p) := PoolFetch.AllocPage(s, io);
      p.Some? ==> CanAssign(a, p.value, st) && a.pages[p.value].pins == 1
  {
    AllocTheorem(s, io);
  }

  ghost predicate CanRun(s: State, run: seq<PoolRuns.Event>) {
    Inv(s) && PoolRuns.Legal(s, run)
  }

  lemma RunStep(s: State, run: seq<PoolRuns.Event>)
    requires CanRun(s, run) && run != []
    ensures PoolRuns.Enabled(s, run[0])
    ensures var r := PoolRuns.Next(s, run[0]);
      CanRun(r, run[1..]) && PoolRuns.After(r, run[1..]) == PoolRuns.After(s, run)
  {
    PoolRuns.NextInv(s, run[0]);
  }

  /** The store that a failed eviction closes has no pinned entries. */
  lemma VictimIdle(s: State, io: Io)
    requires Inv(s) && MustEvict(s) && EvictionSafe(s, io)
    ensures LruAt(s, 0) && Assigned(Pin(s, s.lru[0]), s.lru[0]) && Pin(s, s.lru[0]).pages[s.lru[0]].pins == 1
    ensures s.pages[s.lru[0]].dirty && !io.writeOk ==>
      OpenIdle(Unassign(Pin(s, s.lru[0]), s.lru[0], io.writeOk), KeyOf(Pin(s, s.lru[0]), s.lru[0]).0)
  {
    PinVictim(s);
    assert PageOk(s, s.lru[0]);
    if s.pages[s.lru[0]].dirty && !io.writeOk {
      OrphanedStore(s, io);
      IdleOpenIdle(Orphaned(s), KeyOf(s, s.lru[0]).0);
    }
  }
}
