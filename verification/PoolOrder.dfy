/** In which order entries are listed, and evicted after a commit. */
module PoolOrder {
  import opened Lists
  import opened PoolModel
  import opened PoolSteps
  import opened PoolOps
  import opened PoolClose
  import opened PoolCommit
  import opened PoolFetch
  import opened PoolRuns

  // ---------------------------------------------------------------------
  // The order of the lists of transactions

  /** A page that is fetched joins the end of init's list. */
  lemma FetchAppends(s: State, st: nat, id: nat, mode: FetchMode, io: Io)
    requires CanFetch(s, st, id, io) && (st, id) !in s.pageMap && StorePage(s, st, id, mode, io).2.Some?
    ensures var (a, _) := AllocPage(s, io); var (r, _, p) := StorePage(s, st, id, mode, io);
      && st < |a.stores| && a.stores[st].init < |a.lists| == |r.lists|
      && forall x :: 0 <= x < |a.lists| ==>
           r.lists[x] == if x == a.stores[st].init then a.lists[x] + [p.value] else a.lists[x]
  {
    AllocTheorem(s, io);
    var (a, _) := AllocPage(s, io);
    assert StoreOk(a.txns, a.stores, st);
  }

  /** A page that a transaction modifies for the first time leaves init's list and
      joins the end of the transaction's list. */
  lemma ModifyAppends(s: State, t: nat, p: nat)
    requires Inv(s) && CanModify(s, t, p) && s.pages[p].owner != Some(t)
    ensures var r := WillModify(s, t, p); var from := s.pages[p].owner.value;
      && s.txns[from].isInit && |r.lists| == |s.lists|
      && forall x :: 0 <= x < |s.lists| ==>
           r.lists[x] == if x == t then s.lists[t] + [p]
                         else if x == from then Remove(s.lists[from], p) else s.lists[x]
  {
    assert PageOk(s, p);
  }

  lemma {:induction false} CommitAllAppends(s: State, t: nat)
    requires Core(s) && AllPinned(s, t) && !s.txns[t].isInit && TxnOk(s.txns, s.stores, t) && InitOf(s, t) < |s.lists|
    ensures var r := CommitAll(s, t);
      |r.lists| == |s.lists| && r.lists[InitOf(s, t)] == s.lists[InitOf(s, t)] + s.lists[t]
    decreases if t < |s.lists| then |s.lists[t]| else 0
  {
    if s.lists[t] != [] {
      CommitFirstKeeps(s, t);
      CommitFirstNext(s, t);
      CommitAllAppends(CommitFirst(s, t), t);
      assert s.lists[t] == [s.lists[t][0]] + s.lists[t][1..];
    }
  }

  /** The pages of a committed transaction join the end of init's list in order. */
  lemma CommitAppends(s: State, t: nat)
    requires Inv(s) && t < |s.txns| && !s.txns[t].isInit && !s.txns[t].closed
    ensures TxnOk(s.txns, s.stores, t)
    ensures var r := Commit(s, t).0; var init := InitOf(s, t);
      init < |r.lists| == |s.lists| && r.lists[init] == s.lists[init] + s.lists[t]
  {
    CommitTables(s, t);
    assert StoreOk(s.txns, s.stores, s.txns[t].store);
    BeginFlush(s, t);
    PinAllMeans(s, s.lists[t]);
    CommitAllAppends(PinAll(s, s.lists[t]), t);
  }

  // ---------------------------------------------------------------------
  // The order of eviction after a commit

  /** One round of the loop of Commit stamps the entry if it gives back its last pin. */
  lemma CommitFirstStamp(s: State, t: nat)
    requires Core(s) && AllPinned(s, t) && s.lists[t] != [] && !s.txns[t].isInit
    ensures var r := CommitFirst(s, t); var p := s.lists[t][0];
      && p < |s.pages| == |r.pages| && s.clock <= r.clock
      && r.pages[p].stamp == (if s.pages[p].pins == 1 then r.clock else s.pages[p].stamp)
      && (s.pages[p].pins == 1 ==> s.clock < r.clock)
  {
    var p := s.lists[t][0];
    assert ListOk(s, t) && PageOk(s, p);
    PersistKeeps(s, p);
  }

  /** The stamp that the loop leaves on the entry at position i, which has one pin. */
  ghost predicate StampedAt(s: State, r: State, t: nat, i: nat)
    requires t < |s.lists| && i < |s.lists[t]|
  {
    var p := s.lists[t][i];
    && p < |s.pages| == |r.pages|
    && (s.pages[p].pins == 1 ==> s.clock < r.pages[p].stamp <= r.clock)
    && (s.pages[p].pins != 1 ==> r.pages[p].stamp == s.pages[p].stamp)
  }

  ghost predicate StampedBefore(s: State, r: State, t: nat, i: nat, j: nat)
    requires t < |s.lists| && i < |s.lists[t]| && j < |s.lists[t]|
  {
    var p, q := s.lists[t][i], s.lists[t][j];
    && p < |s.pages| == |r.pages| && q < |s.pages|
    && (s.pages[p].pins == 1 && s.pages[q].pins == 1 ==> r.pages[p].stamp < r.pages[q].stamp)
  }

  lemma {:induction false} CommitAllStamps(s: State, t: nat, i: nat, r: State)
    requires Core(s) && AllPinned(s, t) && !s.txns[t].isInit && TxnOk(s.txns, s.stores, t)
    requires i < |s.lists[t]| && r == CommitAll(s, t)
    ensures s.clock <= r.clock && StampedAt(s, r, t, i)
    decreases if t < |s.lists| then |s.lists[t]| else 0
  {
    CommitFirstKeeps(s, t);
    CommitFirstNext(s, t);
    CommitFirstStamp(s, t);
    var m := CommitFirst(s, t);
    assert ListOk(s, t) && r == CommitAll(m, t);
    CommitFirstPage(s, t, s.lists[t][i]);
    CommitAllMeans(m, t);
    assert PageCommitted(m, r, t, 1, s.lists[t][0]);
    if m.lists[t] != [] { CommitAllStamps(m, t, if i > 0 then i - 1 else 0, r); }
  }

  lemma CommitFirstBefore(s: State, t: nat, j: nat, r: State)
    requires Core(s) && AllPinned(s, t) && !s.txns[t].isInit && TxnOk(s.txns, s.stores, t)
    requires 0 < j < |s.lists[t]| && r == CommitAll(s, t)
    ensures StampedBefore(s, r, t, 0, j)
  {
    var m := StampsLater(s, t, j, r);
    CommitFirstStamp(s, t);
    CommitFirstPage(s, t, s.lists[t][0]);
    CommitAllMeans(m, t);
    assert PageCommitted(m, r, t, 1, s.lists[t][0]);
    CommitAllStamps(m, t, j - 1, r);
  }

  /** After the first step of the loop, the other entries are as before. */
  lemma StampsLater(s: State, t: nat, j: nat, r: State) returns (m: State)
    requires Core(s) && AllPinned(s, t) && !s.txns[t].isInit && TxnOk(s.txns, s.stores, t)
    requires 0 < j < |s.lists[t]| && r == CommitAll(s, t)
    ensures m == CommitFirst(s, t) && m.txns == s.txns && m.stores == s.stores
    ensures Core(m) && AllPinned(m, t) && r == CommitAll(m, t)
    ensures m.lists[t] == s.lists[t][1..] && |m.pages| == |s.pages|
    ensures s.lists[t][j] < |s.pages| && m.pages[s.lists[t][j]] == s.pages[s.lists[t][j]]
  {
    CommitFirstKeeps(s, t);
    CommitFirstNext(s, t);
    m := CommitFirst(s, t);
    assert ListOk(s, t);
    CommitFirstPage(s, t, s.lists[t][j]);
  }

  lemma {:induction false} CommitAllOrder(s: State, t: nat, i: nat, j: nat, r: State)
    requires Core(s) && AllPinned(s, t) && !s.txns[t].isInit && TxnOk(s.txns, s.stores, t)
    requires i < j < |s.lists[t]| && r == CommitAll(s, t)
    ensures StampedBefore(s, r, t, i, j)
    decreases i
  {
    if i == 0 {
      CommitFirstBefore(s, t, j, r);
    } else {
      var m := StampsLater(s, t, i, r);
      var _ := StampsLater(s, t, j, r);
      CommitAllOrder(m, t, i - 1, j - 1, r);
    }
  }

  lemma PinnedForCommit(s: State, t: nat)
    requires Inv(s) && t < |s.txns| && !s.txns[t].isInit
    ensures InTable(s, s.lists[t])
    ensures var a := PinAll(s, s.lists[t]);
      && Core(a) && AllPinned(a, t) && a.lists == s.lists && a.clock == s.clock && |a.pages| == |s.pages|
      && a.txns == s.txns && a.stores == s.stores
      && forall i :: 0 <= i < |s.lists[t]| ==>
           s.lists[t][i] < |s.pages| &&
           a.pages[s.lists[t][i]] == s.pages[s.lists[t][i]].(pins := s.pages[s.lists[t][i]].pins + 1)
  {
    BeginFlush(s, t);
    PinAllMeans(s, s.lists[t]);
    assert ListOk(s, t);
  }

  /** An entry of a committed transaction that nobody holds is evicted after every
      entry of other transactions, and after those before it in the list. An entry
      that somebody holds keeps its stamp. */
  lemma CommitEviction(s: State, t: nat, i: nat, q: nat)
    requires Inv(s) && t < |s.txns| && !s.txns[t].isInit && !s.txns[t].closed
    requires i < |s.lists[t]| && q < |s.pages| && s.pages[q].pins == 0
    ensures var r := Commit(s, t).0; var p := s.lists[t][i];
      && p < |s.pages| == |r.pages|
      && (s.pages[p].pins > 0 ==> r.pages[p].stamp == s.pages[p].stamp)
      && (s.pages[p].pins == 0 && s.pages[q].owner != Some(t) ==> r.pages[q].stamp < r.pages[p].stamp)
      && (s.pages[p].pins == 0 && (exists h :: 0 <= h < i && s.lists[t][h] == q) ==>
            r.pages[q].stamp < r.pages[p].stamp)
  {
    CommitTables(s, t);
    CommitTheorem(s, t);
    PinnedForCommit(s, t);
    BeginFlush(s, t);
    var a := PinAll(s, s.lists[t]);
    CommitAllStamps(a, t, i, CommitAll(a, t));
    assert StampedAt(a, CommitAll(a, t), t, i);
    assert PageCommitted(s, Commit(s, t).0, t, 0, q) && PageOk(s, q);
    if h :| 0 <= h < i && s.lists[t][h] == q {
      CommitAllOrder(a, t, h, i, CommitAll(a, t));
      assert StampedBefore(a, CommitAll(a, t), t, h, i);
    }
  }
}
