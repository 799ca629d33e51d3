/** Closing transactions and stores. */
module PoolClose {
  import opened Lists
  import opened PoolModel
  import opened PoolSteps
  import opened PoolOps

  /** A step that changes flags of transactions and stores only. */
  lemma TablesMoved(s: State, r: State)
    requires Core(s) && r == s.(txns := r.txns, stores := r.stores)
    requires |r.txns| == |s.txns| && |r.stores| == |s.stores|
    requires forall t :: 0 <= t < |s.txns| ==>
      r.txns[t].store == s.txns[t].store && r.txns[t].isInit == s.txns[t].isInit
    requires forall st :: 0 <= st < |s.stores| ==> r.stores[st].init == s.stores[st].init
    ensures Core(r) && SameView(s, r)
  {
    forall t | 0 <= t < |r.txns| ensures TxnOk(r.txns, r.stores, t) { assert TxnOk(s.txns, s.stores, t); }
    forall st | 0 <= st < |r.stores| ensures StoreOk(r.txns, r.stores, st) { assert StoreOk(s.txns, s.stores, st); }
    forall p | 0 <= p < |r.pages| ensures PageOk(r, p) { assert PageOk(s, p); }
    forall t | 0 <= t < |r.lists| ensures ListOk(r, t) { assert ListOk(s, t); }
    forall k | k in r.pageMap ensures KeyOk(r, k) { assert KeyOk(s, k); }
    forall i | 0 <= i < |r.free| ensures FreeAt(r, i) { assert FreeAt(s, i); }
    forall i | 0 <= i < |r.lru| ensures LruAt(r, i) { assert LruAt(s, i); }
  }

  /** PinTransactionPages adds one pin to each listed entry and touches nothing else. */
  lemma {:induction false} PinAllMeans(s: State, list: seq<nat>)
    requires Core(s) && NoDup(list)
    requires forall i :: 0 <= i < |list| ==> list[i] < |s.pages| && s.pages[list[i]].owner.Some?
    ensures var r := PinAll(s, list);
      && Core(r) && SameView(s, r) && |r.pages| == |s.pages|
      && r == s.(pages := r.pages, lru := r.lru)
      && forall q :: 0 <= q < |s.pages| ==>
           r.pages[q] == s.pages[q].(pins := s.pages[q].pins + if q in list then 1 else 0)
    decreases |list|
  {
    if list != [] {
      var m := Pin(s, list[0]);
      PinKeeps(s, list[0]);
      PinAllMeans(m, list[1..]);
      var r := PinAll(m, list[1..]);
      forall q | 0 <= q < |s.pages|
        ensures r.pages[q] == s.pages[q].(pins := s.pages[q].pins + if q in list then 1 else 0)
      {
        assert q in list <==> q == list[0] || q in list[1..];
      }
    }
  }

  function MarkClosed(s: State, t: nat): State
    requires t < |s.txns|
  {
    s.(txns := s.txns[t := s.txns[t].(closed := true)])
  }

  /** No entry assigned to the transaction is pinned. */
  ghost predicate Idle(s: State, t: nat) {
    forall q :: 0 <= q < |s.pages| && s.pages[q].owner == Some(t) ==> s.pages[q].pins == 0
  }

  lemma BeginEnd(s: State, t: nat)
    requires Core(s) && t < |s.txns|
    ensures var m := MarkClosed(s, t);
      Core(m) && ListOk(m, t) && Core(PinAll(m, s.lists[t])) && AllPinned(PinAll(m, s.lists[t]), t)
    ensures Idle(s, t) ==> PinnedOnce(PinAll(MarkClosed(s, t), s.lists[t]), t)
  {
    var m := MarkClosed(s, t);
    TablesMoved(s, m);
    assert ListOk(m, t);
    PinAllMeans(m, m.lists[t]);
    var r := PinAll(m, m.lists[t]);
    forall q | 0 <= q < |r.pages| && r.pages[q].owner == Some(t)
      ensures r.pages[q].pins == m.pages[q].pins + 1
    {
      assert PageOk(m, q);
    }
  }

  /** TransactionImpl::Close, up to the call of TransactionClosed. */
  ghost function EndTxn(s: State, t: nat, fails: set<nat>): State
    requires Core(s) && t < |s.txns|
  {
    BeginEnd(s, t);
    ReleaseAll(PinAll(MarkClosed(s, t), s.lists[t]), t, fails)
  }

  lemma EndTxnKeeps(s: State, t: nat, fails: set<nat>)
    requires Core(s) && t < |s.txns|
    ensures var r := EndTxn(s, t, fails);
      && Core(r) && r.lists == s.lists[t := []]
      && r.txns == s.txns[t := s.txns[t].(closed := true)] && r.stores == s.stores
  {
    BeginEnd(s, t);
    PinAllMeans(MarkClosed(s, t), s.lists[t]);
    ReleaseAllKeeps(PinAll(MarkClosed(s, t), s.lists[t]), t, fails);
  }

  /** Closing an idle transaction frees its entries, in list order. */
  lemma EndTxnMeans(s: State, t: nat, fails: set<nat>)
    requires Core(s) && t < |s.txns| && Idle(s, t)
    ensures var r := EndTxn(s, t, fails);
      Released(s, r, Elems(s.lists[t]), fails) && r.free == s.free + s.lists[t]
  {
    BeginEnd(s, t);
    assert ListOk(s, t);
    var m := MarkClosed(s, t);
    PinAllMeans(m, s.lists[t]);
    var n := PinAll(m, s.lists[t]);
    ReleaseAllMeans(n, t, fails);
    ReleaseAllLists(n, t, fails);
    var r := EndTxn(s, t, fails);
    var gone := Elems(s.lists[t]);
    forall q | 0 <= q < |s.pages| ensures PageReleased(s, r, gone, q) { assert PageReleased(n, r, gone, q); }
    forall k: (nat, nat) ensures KeyReleased(s, r, gone, fails, k) { assert KeyReleased(n, r, gone, fails, k); }
  }

  // ---------------------------------------------------------------------
  // Stores

  ghost predicate ValidQueue(s: State, queue: seq<nat>) {
    forall i :: 0 <= i < |queue| ==> queue[i] < |s.txns|
  }

  /** TransactionImpl::Rollback while the store is closing. */
  ghost function Rollback(s: State, t: nat, fails: set<nat>): State
    requires Core(s) && t < |s.txns|
  {
    if s.txns[t].closed then s else EndTxn(s, t, fails)
  }

  lemma RollbackKeeps(s: State, t: nat, fails: set<nat>)
    requires Core(s) && t < |s.txns|
    ensures var r := Rollback(s, t, fails);
      && Core(r) && r.stores == s.stores && |r.lists| == |s.lists| && |r.txns| == |s.txns|
  {
    if !s.txns[t].closed { EndTxnKeeps(s, t, fails); }
  }

  /** The loop of StoreImpl::Close over the rollback queue. */
  ghost function RollbackAll(s: State, queue: seq<nat>, fails: set<nat>): State
    requires Core(s) && ValidQueue(s, queue)
    decreases |queue|
  {
    if queue == [] then s
    else
      RollbackKeeps(s, queue[0], fails);
      RollbackAll(Rollback(s, queue[0], fails), queue[1..], fails)
  }

  function SetPhase(s: State, st: nat, phase: Phase): State
    requires st < |s.stores|
  {
    s.(stores := s.stores[st := s.stores[st].(phase := phase, txns := [])])
  }

  /** The entries assigned to the given transactions. */
  ghost function EntriesOf(s: State, owners: set<nat>): set<nat> {
    set q | 0 <= q < |s.pages| && s.pages[q].owner.Some? && s.pages[q].owner.value in owners
  }

  lemma ListedEntries(s: State, t: nat)
    requires Core(s) && t < |s.lists|
    ensures Elems(s.lists[t]) == EntriesOf(s, {t})
  {
    assert ListOk(s, t);
    forall q | q in EntriesOf(s, {t}) ensures q in s.lists[t] { assert PageOk(s, q); }
  }

  /** What the queue does to one transaction. */
  ghost predicate RolledBack(s: State, r: State, queue: seq<nat>, t: nat)
    requires t < |s.txns| == |r.txns| && t < |s.lists| == |r.lists|
  {
    && r.txns[t] == (if t in queue then s.txns[t].(closed := true) else s.txns[t])
    && r.lists[t] == (if t in queue && !s.txns[t].closed then [] else s.lists[t])
  }

  lemma {:induction false} RollbackRows(s: State, queue: seq<nat>, fails: set<nat>)
    requires Core(s) && ValidQueue(s, queue) && NoDup(queue)
    ensures var r := RollbackAll(s, queue, fails);
      && Core(r) && r.stores == s.stores
      && |r.txns| == |s.txns| && |r.lists| == |s.lists|
      && (forall t :: 0 <= t < |s.txns| ==> RolledBack(s, r, queue, t))
    decreases |queue|
  {
    if queue != [] {
      RollbackKeeps(s, queue[0], fails);
      if !s.txns[queue[0]].closed { EndTxnKeeps(s, queue[0], fails); }
      var m := Rollback(s, queue[0], fails);
      RollbackRows(m, queue[1..], fails);
      assert queue == [queue[0]] + queue[1..];
      var r := RollbackAll(s, queue, fails);
      forall t | 0 <= t < |s.txns| ensures RolledBack(s, r, queue, t) { assert RolledBack(m, r, queue[1..], t); }
    }
  }

  lemma RollbackAllKeeps(s: State, queue: seq<nat>, fails: set<nat>)
    requires Core(s) && ValidQueue(s, queue) && NoDup(queue)
    ensures var r := RollbackAll(s, queue, fails);
      && Core(r) && r.stores == s.stores
      && |r.txns| == |s.txns| && |r.lists| == |s.lists|
      && (forall t :: 0 <= t < |s.txns| ==>
            r.txns[t] == (if t in queue then s.txns[t].(closed := true) else s.txns[t]))
      && (forall t :: 0 <= t < |s.lists| ==>
            r.lists[t] == (if t in queue && !s.txns[t].closed then [] else s.lists[t]))
  {
    RollbackRows(s, queue, fails);
    var r := RollbackAll(s, queue, fails);
    forall t | 0 <= t < |s.txns|
      ensures r.txns[t] == (if t in queue then s.txns[t].(closed := true) else s.txns[t])
      ensures r.lists[t] == (if t in queue && !s.txns[t].closed then [] else s.lists[t])
    {
      assert RolledBack(s, r, queue, t);
    }
  }

  lemma {:induction false} RollbackAllMeans(s: State, queue: seq<nat>, fails: set<nat>)
    requires Core(s) && ValidQueue(s, queue) && NoDup(queue)
    requires forall i :: 0 <= i < |queue| ==> !s.txns[queue[i]].closed && Idle(s, queue[i])
    ensures Released(s, RollbackAll(s, queue, fails), EntriesOf(s, Elems(queue)), fails)
    decreases |queue|
  {
    if queue == [] {
      assert EntriesOf(s, Elems(queue)) == {};
    } else {
      var t := queue[0];
      EndTxnKeeps(s, t, fails);
      EndTxnMeans(s, t, fails);
      ListedEntries(s, t);
      var m := Rollback(s, t, fails);
      var gone := EntriesOf(s, {t});
      forall i | 0 <= i < |queue[1..]| ensures Idle(m, queue[1..][i]) {
        assert Idle(s, queue[i + 1]);
        forall q | 0 <= q < |m.pages| && m.pages[q].owner == Some(queue[i + 1]) ensures m.pages[q].pins == 0 {
          assert PageReleased(s, m, gone, q);
        }
      }
      RollbackAllMeans(m, queue[1..], fails);
      var rest := EntriesOf(m, Elems(queue[1..]));
      SplitEntries(s, m, queue, fails);
      ReleasedTwice(s, m, RollbackAll(m, queue[1..], fails), gone, rest, fails);
    }
  }

  /** The entries of the given transactions, list after list. */
  function ListsOf(s: State, queue: seq<nat>): seq<nat>
    requires forall i :: 0 <= i < |queue| ==> queue[i] < |s.lists|
    decreases |queue|
  {
    if queue == [] then [] else s.lists[queue[0]] + ListsOf(s, queue[1..])
  }

  lemma {:induction false} SameListsOf(s: State, r: State, queue: seq<nat>)
    requires |r.lists| == |s.lists| && forall i :: 0 <= i < |queue| ==> queue[i] < |s.lists|
    requires forall i :: 0 <= i < |queue| ==> r.lists[queue[i]] == s.lists[queue[i]]
    ensures ListsOf(r, queue) == ListsOf(s, queue)
    decreases |queue|
  {
    if queue != [] { SameListsOf(s, r, queue[1..]); }
  }

  lemma EndTxnIdle(s: State, t: nat, fails: set<nat>, x: nat)
    requires Core(s) && t < |s.txns| && Idle(s, t) && x != t && Idle(s, x)
    ensures Idle(EndTxn(s, t, fails), x)
  {
    EndTxnMeans(s, t, fails);
    var m := EndTxn(s, t, fails);
    forall q | 0 <= q < |m.pages| && m.pages[q].owner == Some(x) ensures m.pages[q].pins == 0 {
      assert PageReleased(s, m, Elems(s.lists[t]), q);
    }
  }

  /** The loop of Close frees the entries of one transaction after the other. */
  lemma {:induction false} RollbackAllOrder(s: State, queue: seq<nat>, fails: set<nat>)
    requires Core(s) && ValidQueue(s, queue) && NoDup(queue)
    requires forall i :: 0 <= i < |queue| ==> !s.txns[queue[i]].closed && Idle(s, queue[i])
    ensures RollbackAll(s, queue, fails).free == s.free + ListsOf(s, queue)
    decreases |queue|
  {
    if queue != [] {
      var t, rest := queue[0], queue[1..];
      EndTxnKeeps(s, t, fails);
      EndTxnMeans(s, t, fails);
      var m := Rollback(s, t, fails);
      forall i | 0 <= i < |rest| ensures Idle(m, rest[i]) && m.lists[rest[i]] == s.lists[rest[i]] {
        assert rest[i] == queue[i + 1];
        EndTxnIdle(s, t, fails, rest[i]);
      }
      RollbackAllOrder(m, rest, fails);
      SameListsOf(s, m, rest);
    }
  }

  lemma SplitEntries(s: State, m: State, queue: seq<nat>, fails: set<nat>)
    requires queue != [] && NoDup(queue) && Released(s, m, EntriesOf(s, {queue[0]}), fails)
    ensures EntriesOf(s, {queue[0]}) !! EntriesOf(m, Elems(queue[1..]))
    ensures EntriesOf(s, Elems(queue)) == EntriesOf(s, {queue[0]}) + EntriesOf(m, Elems(queue[1..]))
  {
    ElemsHead(queue);
    var gone := EntriesOf(s, {queue[0]});
    forall q | 0 <= q < |s.pages|
      ensures q in EntriesOf(s, Elems(queue)) <==> q in gone || q in EntriesOf(m, Elems(queue[1..]))
      ensures !(q in gone && q in EntriesOf(m, Elems(queue[1..])))
    {
      assert PageReleased(s, m, gone, q);
    }
  }

  // ---------------------------------------------------------------------
  // StoreImpl::Close

  ghost function CloseStore(s: State, st: nat, fails: set<nat>): State
    requires Core(s) && st < |s.stores| && ValidQueue(s, s.stores[st].txns)
    requires NoDup(s.stores[st].txns)
  {
    if s.stores[st].phase != Open then s
    else
      var a := SetPhase(s, st, Closing);
      TablesMoved(s, a);
      var b := RollbackAll(a, s.stores[st].txns, fails);
      RollbackAllKeeps(a, s.stores[st].txns, fails);
      assert StoreOk(b.txns, b.stores, st);
      RollbackKeeps(b, b.stores[st].init, fails);
      SetPhase(Rollback(b, b.stores[st].init, fails), st, Closed)
  }

  /** Between operations, a store lists its open transactions in the order in which
      they were created, and its init transaction is open as long as the store is. */
  ghost predicate StoreLife(s: State, st: nat)
    requires st < |s.stores|
  {
    var e := s.stores[st];
    && e.phase != Closing
    && NoDup(e.txns) && Increasing(e.txns) && ValidQueue(s, e.txns)
    && (forall t: nat :: t in e.txns <==>
          t < |s.txns| && s.txns[t].store == st && !s.txns[t].isInit && !s.txns[t].closed)
    && (e.phase == Closed ==> e.txns == [])
    && e.init < |s.txns| && (s.txns[e.init].closed <==> e.phase == Closed)
  }

  /** A committed transaction is closed, and a closed one owns no entries. */
  ghost predicate TxnLife(s: State, t: nat)
    requires t < |s.txns|
  {
    && (s.txns[t].committed ==> s.txns[t].closed)
    && (s.txns[t].closed ==> t < |s.lists| && s.lists[t] == [])
  }

  ghost predicate Life(s: State) {
    && (forall t :: 0 <= t < |s.txns| ==> TxnLife(s, t))
    && (forall st :: 0 <= st < |s.stores| ==> StoreLife(s, st))
  }

  /** The invariant that holds between operations. */
  ghost predicate Inv(s: State) {
    Core(s) && Life(s)
  }

  /** The entries that cache pages of a store. */
  ghost function StoreEntries(s: State, st: nat): set<nat> {
    set q | 0 <= q < |s.pages| && s.pages[q].owner.Some? &&
            s.pages[q].owner.value < |s.txns| && s.txns[s.pages[q].owner.value].store == st
  }

  ghost predicate StoreIdle(s: State, st: nat) {
    forall q :: q in StoreEntries(s, st) ==> s.pages[q].pins == 0
  }

  /** The states that StoreImpl::Close goes through. */
  lemma CloseStoreStages(s: State, st: nat, fails: set<nat>)
    requires Inv(s) && st < |s.stores| && s.stores[st].phase == Open && StoreLife(s, st)
    ensures var a := SetPhase(s, st, Closing); var queue := s.stores[st].txns; var init := s.stores[st].init;
      && Core(a) && ValidQueue(a, queue)
      && var b := RollbackAll(a, queue, fails);
         && Core(b) && init < |b.txns| == |s.txns| && !b.txns[init].closed && init !in queue
         && |b.stores| == |s.stores| && b.stores[st].init == init
         && var c := EndTxn(b, init, fails);
            && Core(c) && |c.stores| == |s.stores|
            && CloseStore(s, st, fails) == SetPhase(c, st, Closed) && Core(SetPhase(c, st, Closed))
            && c.stores == a.stores
  {
    var queue := s.stores[st].txns;
    var a := SetPhase(s, st, Closing);
    TablesMoved(s, a);
    RollbackAllKeeps(a, queue, fails);
    var b := RollbackAll(a, queue, fails);
    var init := b.stores[st].init;
    assert StoreOk(s.txns, s.stores, st) && TxnOk(s.txns, s.stores, init);
    EndTxnKeeps(b, init, fails);
    var c := EndTxn(b, init, fails);
    TablesMoved(c, SetPhase(c, st, Closed));
  }

  /** What becomes of one transaction. */
  lemma CloseStoreRow(s: State, st: nat, fails: set<nat>, t: nat)
    requires Inv(s) && st < |s.stores| && s.stores[st].phase == Open && StoreLife(s, st) && t < |s.txns|
    ensures var r := CloseStore(s, st, fails);
      && |r.txns| == |s.txns| && |r.lists| == |s.lists|
      && r.txns[t] == (if s.txns[t].store == st then s.txns[t].(closed := true) else s.txns[t])
      && r.lists[t] == (if s.txns[t].store == st then [] else s.lists[t])
  {
    CloseStoreStages(s, st, fails);
    var a := SetPhase(s, st, Closing);
    RollbackAllKeeps(a, s.stores[st].txns, fails);
    var b := RollbackAll(a, s.stores[st].txns, fails);
    EndTxnKeeps(b, s.stores[st].init, fails);
    assert StoreOk(s.txns, s.stores, st) && TxnOk(s.txns, s.stores, t) && TxnLife(s, t);
  }

  lemma CloseStoreTables(s: State, st: nat, fails: set<nat>)
    requires Inv(s) && st < |s.stores| && s.stores[st].phase == Open && StoreLife(s, st)
    ensures var r := CloseStore(s, st, fails);
      && Core(r)
      && r.stores == s.stores[st := s.stores[st].(phase := Closed, txns := [])]
      && |r.txns| == |s.txns| && |r.lists| == |s.lists|
      && (forall t :: 0 <= t < |s.txns| ==>
            r.txns[t] == if s.txns[t].store == st then s.txns[t].(closed := true) else s.txns[t])
      && (forall t :: 0 <= t < |s.lists| ==>
            r.lists[t] == if s.txns[t].store == st then [] else s.lists[t])
  {
    CloseStoreStages(s, st, fails);
    CloseStoreRow(s, st, fails, s.stores[st].init);
    forall t | 0 <= t < |s.txns|
      ensures CloseStore(s, st, fails).txns[t] ==
        if s.txns[t].store == st then s.txns[t].(closed := true) else s.txns[t]
      ensures CloseStore(s, st, fails).lists[t] == if s.txns[t].store == st then [] else s.lists[t]
    {
      CloseStoreRow(s, st, fails, t);
    }
  }

  ghost predicate SameCache(s: State, r: State) {
    r.pages == s.pages && r.pageMap == s.pageMap && r.disks == s.disks &&
    r.capacity == s.capacity && r.pageSize == s.pageSize
  }

  lemma ReleasedSame(s: State, s': State, r: State, r': State, gone: set<nat>, fails: set<nat>)
    requires Released(s, r, gone, fails) && SameCache(s, s') && SameCache(r, r')
    ensures Released(s', r', gone, fails)
  {
    forall q | 0 <= q < |s.pages| ensures PageReleased(s', r', gone, q) { assert PageReleased(s, r, gone, q); }
    forall k: (nat, nat) ensures KeyReleased(s', r', gone, fails, k) { assert KeyReleased(s, r, gone, fails, k); }
  }

  /** The first half of Close: the running transactions are rolled back. */
  lemma QueueReleases(s: State, st: nat, fails: set<nat>)
    requires Inv(s) && st < |s.stores| && StoreLife(s, st) && StoreIdle(s, st)
    ensures var a := SetPhase(s, st, Closing);
      && Core(a) && ValidQueue(a, s.stores[st].txns)
      && Released(s, RollbackAll(a, s.stores[st].txns, fails), EntriesOf(s, Elems(s.stores[st].txns)), fails)
  {
    var queue := s.stores[st].txns;
    var a := SetPhase(s, st, Closing);
    TablesMoved(s, a);
    forall i | 0 <= i < |queue| ensures !a.txns[queue[i]].closed && Idle(a, queue[i]) {
      assert queue[i] in queue;
      forall q | 0 <= q < |a.pages| && a.pages[q].owner == Some(queue[i]) ensures a.pages[q].pins == 0 {
        assert q in StoreEntries(s, st);
      }
    }
    RollbackAllMeans(a, queue, fails);
    var b := RollbackAll(a, queue, fails);
    assert EntriesOf(a, Elems(queue)) == EntriesOf(s, Elems(queue));
    ReleasedSame(a, s, b, b, EntriesOf(s, Elems(queue)), fails);
  }

  /** The second half: the init transaction releases what is left. */
  lemma InitReleases(s: State, b: State, st: nat, gone: set<nat>, fails: set<nat>)
    requires Core(s) && Core(b) && st < |s.stores| == |b.stores| && StoreIdle(s, st)
    requires b.stores[st].init == s.stores[st].init && StoreOk(s.txns, s.stores, st)
    requires Released(s, b, gone, fails)
    ensures StoreOk(b.txns, b.stores, st)
    ensures var init := b.stores[st].init;
      Released(b, EndTxn(b, init, fails), EntriesOf(b, {init}), fails)
  {
    assert StoreOk(b.txns, b.stores, st);
    var init := b.stores[st].init;
    forall q | 0 <= q < |b.pages| && b.pages[q].owner == Some(init) ensures b.pages[q].pins == 0 {
      assert PageReleased(s, b, gone, q);
      assert q in StoreEntries(s, st);
    }
    EndTxnMeans(b, init, fails);
    ListedEntries(b, init);
  }

  lemma CloseStoreReleases(s: State, st: nat, fails: set<nat>)
    requires Inv(s) && st < |s.stores| && s.stores[st].phase == Open && StoreLife(s, st)
    requires StoreIdle(s, st)
    ensures Released(s, CloseStore(s, st, fails), StoreEntries(s, st), fails)
  {
    var queue := s.stores[st].txns;
    QueueReleases(s, st, fails);
    var a := SetPhase(s, st, Closing);
    RollbackAllKeeps(a, queue, fails);
    var b := RollbackAll(a, queue, fails);
    var init := b.stores[st].init;
    assert StoreOk(s.txns, s.stores, st) && TxnOk(s.txns, s.stores, init);
    assert init !in queue && !b.txns[init].closed;
    var gone := EntriesOf(s, Elems(queue));
    InitReleases(s, b, st, gone, fails);
    SplitStore(s, b, st, fails);
    var c := Rollback(b, init, fails);
    ReleasedTwice(s, b, c, gone, EntriesOf(b, {init}), fails);
    ReleasedSame(s, s, c, CloseStore(s, st, fails), StoreEntries(s, st), fails);
  }

  /** Every entry of the store belongs to a queued transaction or to init. */
  lemma SplitStore(s: State, b: State, st: nat, fails: set<nat>)
    requires Inv(s) && st < |s.stores| && StoreLife(s, st) && StoreOk(s.txns, s.stores, st)
    requires s.stores[st].phase == Open
    requires Released(s, b, EntriesOf(s, Elems(s.stores[st].txns)), fails)
    ensures var gone := EntriesOf(s, Elems(s.stores[st].txns));
      var rest := EntriesOf(b, {s.stores[st].init});
      gone !! rest && StoreEntries(s, st) == gone + rest
  {
    var gone := EntriesOf(s, Elems(s.stores[st].txns));
    var init := s.stores[st].init;
    assert TxnOk(s.txns, s.stores, init);
    assert init !in s.stores[st].txns;
    forall q | 0 <= q < |s.pages|
      ensures q in StoreEntries(s, st) <==> q in gone || q in EntriesOf(b, {init})
      ensures !(q in gone && q in EntriesOf(b, {init}))
    {
      assert PageReleased(s, b, gone, q);
      assert PageOk(s, q);
      if s.pages[q].owner.Some? {
        var t := s.pages[q].owner.value;
        assert TxnOk(s.txns, s.stores, t) && TxnLife(s, t);
      }
    }
  }

  /** The entries of a store that nobody holds pins on become free in this order:
      those of its running transactions, from the oldest to the newest, and then
      those of init, each in the order in which they were assigned. */
  lemma CloseStoreOrder(s: State, st: nat, fails: set<nat>)
    requires Inv(s) && st < |s.stores| && s.stores[st].phase == Open && StoreLife(s, st) && StoreIdle(s, st)
    ensures Increasing(s.stores[st].txns) && StoreOk(s.txns, s.stores, st)
    ensures CloseStore(s, st, fails).free ==
      s.free + ListsOf(s, s.stores[st].txns) + s.lists[s.stores[st].init]
  {
    var queue, init := s.stores[st].txns, s.stores[st].init;
    assert StoreOk(s.txns, s.stores, st);
    CloseStoreStages(s, st, fails);
    var a := SetPhase(s, st, Closing);
    forall t: nat | t < |s.txns| && s.txns[t].store == st ensures Idle(a, t) { IdleOfStore(s, a, st, t); }
    assert forall i :: 0 <= i < |queue| ==> queue[i] in queue;
    RollbackAllOrder(a, queue, fails);
    SameListsOf(s, a, queue);
    RollbackAllKeeps(a, queue, fails);
    var b := RollbackAll(a, queue, fails);
    QueueReleases(s, st, fails);
    forall q | 0 <= q < |b.pages| && b.pages[q].owner == Some(init) ensures b.pages[q].pins == 0 {
      assert PageReleased(s, b, EntriesOf(s, Elems(queue)), q);
      assert q in StoreEntries(s, st);
    }
    EndTxnMeans(b, init, fails);
  }

  lemma IdleOfStore(s: State, a: State, st: nat, t: nat)
    requires StoreIdle(s, st) && a.pages == s.pages && t < |s.txns| && s.txns[t].store == st
    ensures Idle(a, t)
  {
    forall q | 0 <= q < |a.pages| && a.pages[q].owner == Some(t) ensures a.pages[q].pins == 0 {
      assert q in StoreEntries(s, st);
    }
  }

  lemma ClosedLife(s: State, st: nat, fails: set<nat>)
    requires Inv(s) && st < |s.stores| && s.stores[st].phase == Open && StoreLife(s, st)
    ensures Life(CloseStore(s, st, fails))
  {
    var r := CloseStore(s, st, fails);
    CloseStoreTables(s, st, fails);
    forall t | 0 <= t < |r.txns| ensures TxnLife(r, t) { assert TxnLife(s, t); }
    forall x | 0 <= x < |r.stores| ensures StoreLife(r, x) {
      assert StoreLife(s, x) && StoreOk(s.txns, s.stores, x);
    }
  }

  /** Closing an open store that nobody holds pins on goes through to the end,
      whatever writes fail: the store is closed, its transactions are closed and
      own nothing, the page map has no key for it, its entries are on the free
      list, and nothing that belongs to another store changed. */
  lemma CloseStoreTheorem(s: State, st: nat, fails: set<nat>)
    requires Inv(s) && st < |s.stores| && s.stores[st].phase == Open && StoreLife(s, st)
    requires StoreIdle(s, st)
    ensures var r := CloseStore(s, st, fails);
      && Inv(r)
      && r.stores == s.stores[st := s.stores[st].(phase := Closed, txns := [])]
      && (forall t :: 0 <= t < |r.txns| && r.txns[t].store == st ==> r.txns[t].closed && r.lists[t] == [])
      && (forall k :: k in r.pageMap ==> k.0 != st)
      && (forall q :: q in StoreEntries(s, st) ==> q in r.free)
      && SameStores(s, r)
      && Released(s, r, StoreEntries(s, st), fails)
      && (StoreEntries(s, st) !! fails ==> SameView(s, r))
  {
    var r := CloseStore(s, st, fails);
    var gone := StoreEntries(s, st);
    CloseStoreTables(s, st, fails);
    ClosedLife(s, st, fails);
    CloseStoreReleases(s, st, fails);
    if gone !! fails { ReleasedSameView(s, r, gone, fails); }
    forall k | k in r.pageMap ensures k.0 != st {
      assert KeyReleased(s, r, gone, fails, k) && KeyOk(s, k);
    }
    forall q | q in gone ensures q in r.free {
      assert PageReleased(s, r, gone, q) && PageOk(r, q);
    }
  }

  /** What other stores hold is not affected. */
  lemma CloseOtherView(s: State, st: nat, fails: set<nat>, k: (nat, nat))
    requires Inv(s) && st < |s.stores| && s.stores[st].phase == Open && StoreLife(s, st) && StoreIdle(s, st)
    requires k.0 != st && k.0 < |s.disks|
    ensures var r := CloseStore(s, st, fails);
      && |r.disks| == |s.disks| && View(r, k) == View(s, k)
      && (k in r.pageMap <==> k in s.pageMap) && (k in r.pageMap ==> r.pageMap[k] == s.pageMap[k])
  {
    CloseStoreReleases(s, st, fails);
    var r := CloseStore(s, st, fails);
    assert KeyReleased(s, r, StoreEntries(s, st), fails, k);
    if k in s.pageMap {
      assert KeyOk(s, k);
      assert PageReleased(s, r, StoreEntries(s, st), s.pageMap[k]);
    }
  }
}
