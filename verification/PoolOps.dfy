/** The operations of the page pool, of transactions and of stores, built from
    the steps of PoolModel in the order in which the source performs them. */
module PoolOps {
  import opened Lists
  import opened StatusCodes
  import opened PoolModel
  import opened PoolSteps

  /** What the file system answers during one operation: the status of a page
      read, whether the write-back of an evicted entry succeeds, and the entries
      whose write-back fails while a store is being closed. */
  datatype Io = Io(read: Status, writeOk: bool, fails: set<nat>)

  // ---------------------------------------------------------------------
  // Loops over the entries of a transaction

  ghost predicate InTable(s: State, list: seq<nat>) {
    forall i :: 0 <= i < |list| ==> list[i] < |s.pages|
  }

  /** Transaction t can go on closing or committing: its entries are pinned. */
  ghost predicate AllPinned(s: State, t: nat) {
    t < |s.lists| &&
    forall q :: 0 <= q < |s.pages| && s.pages[q].owner == Some(t) ==> s.pages[q].pins > 0
  }

  /** Every entry of the transaction carries the one pin of its closing. */
  ghost predicate PinnedOnce(s: State, t: nat) {
    t < |s.lists| &&
    forall q :: 0 <= q < |s.pages| && s.pages[q].owner == Some(t) ==> s.pages[q].pins == 1
  }

  /** PagePool::PinTransactionPages */
  ghost function PinAll(s: State, list: seq<nat>): (r: State)
    requires InTable(s, list)
    decreases |list|
  {
    if list == [] then s else PinAll(Pin(s, list[0]), list[1..])
  }

  /** One round of the loop of TransactionImpl::Close. */
  ghost function ReleaseFirst(s: State, t: nat, fails: set<nat>): (r: State)
    requires Core(s) && AllPinned(s, t) && s.lists[t] != []
  {
    var p := s.lists[t][0];
    assert ListOk(s, t) && PageOk(s, p);
    UnpinUnassigned(Unassign(s, p, p !in fails), p)
  }

  lemma ReleaseFirstKeeps(s: State, t: nat, fails: set<nat>)
    requires Core(s) && AllPinned(s, t) && s.lists[t] != []
    ensures Core(ReleaseFirst(s, t, fails)) && SameLife(s, ReleaseFirst(s, t, fails))
  {
    var p := s.lists[t][0];
    assert ListOk(s, t) && PageOk(s, p);
    UnassignKeeps(s, p, p !in fails);
    UnpinUnassignedKeeps(Unassign(s, p, p !in fails), p);
  }

  lemma ReleaseFirstNext(s: State, t: nat, fails: set<nat>)
    requires Core(s) && AllPinned(s, t) && s.lists[t] != []
    ensures var r := ReleaseFirst(s, t, fails);
      AllPinned(r, t) && r.lists == s.lists[t := s.lists[t][1..]]
  {
    RemoveHead(s.lists[t]);
    assert ListOk(s, t) && PageOk(s, s.lists[t][0]);
  }

  /** The loop of TransactionImpl::Close. */
  ghost function ReleaseAll(s: State, t: nat, fails: set<nat>): (r: State)
    requires Core(s) && AllPinned(s, t)
    decreases if t < |s.lists| then |s.lists[t]| else 0
  {
    if s.lists[t] == [] then s
    else
      ReleaseFirstKeeps(s, t, fails);
      ReleaseFirstNext(s, t, fails);
      ReleaseAll(ReleaseFirst(s, t, fails), t, fails)
  }

  /** One round of the loop of TransactionImpl::Commit. */
  ghost function CommitFirst(s: State, t: nat): (r: State)
    requires Core(s) && AllPinned(s, t) && s.lists[t] != [] && !s.txns[t].isInit
  {
    var p := s.lists[t][0];
    assert ListOk(s, t) && PageOk(s, p);
    PersistKeeps(s, p);
    Unpin(Persist(s, p), p, CachePage)
  }

  lemma CommitFirstKeeps(s: State, t: nat)
    requires Core(s) && AllPinned(s, t) && s.lists[t] != [] && !s.txns[t].isInit
    ensures Kept(s, CommitFirst(s, t))
  {
    var p := s.lists[t][0];
    assert ListOk(s, t) && PageOk(s, p);
    PersistKeeps(s, p);
    UnpinKeeps(Persist(s, p), p, CachePage);
  }

  lemma CommitFirstNext(s: State, t: nat)
    requires Core(s) && AllPinned(s, t) && s.lists[t] != [] && !s.txns[t].isInit
    ensures var r := CommitFirst(s, t);
      && AllPinned(r, t)
      && TxnOk(s.txns, s.stores, t)
      && s.stores[s.txns[t].store].init < |s.lists|
      && s.stores[s.txns[t].store].init != t
      && var i := s.stores[s.txns[t].store].init;
         r.lists == s.lists[t := s.lists[t][1..]][i := s.lists[i] + [s.lists[t][0]]]
  {
    var p := s.lists[t][0];
    RemoveHead(s.lists[t]);
    assert TxnOk(s.txns, s.stores, t) && ListOk(s, t) && PageOk(s, p);
    PersistKeeps(s, p);
  }

  /** The loop of TransactionImpl::Commit. */
  ghost function CommitAll(s: State, t: nat): (r: State)
    requires Core(s) && AllPinned(s, t) && !s.txns[t].isInit
    decreases if t < |s.lists| then |s.lists[t]| else 0
  {
    if s.lists[t] == [] then s
    else
      CommitFirstKeeps(s, t);
      CommitFirstNext(s, t);
      CommitAll(CommitFirst(s, t), t)
  }

  // ---------------------------------------------------------------------
  // What the loops amount to

  function Freed(e: PageRec, stamp: int): PageRec {
    e.(owner := None, dirty := false, stale := false, pins := 0, stamp := stamp)
  }

  function Elems(list: seq<nat>): set<nat> {
    set x | x in list
  }

  /** Whether closing the owner of the entry behind a key writes its block. */
  ghost predicate Written(s: State, k: (nat, nat), gone: set<nat>, fails: set<nat>) {
    k in s.pageMap && s.pageMap[k] in gone && s.pageMap[k] < |s.pages| &&
    s.pages[s.pageMap[k]].dirty && s.pageMap[k] !in fails
  }

  ghost predicate PageReleased(s: State, r: State, gone: set<nat>, q: nat)
    requires q < |s.pages| == |r.pages|
  {
    if q in gone then r.pages[q] == Freed(s.pages[q], r.pages[q].stamp) else r.pages[q] == s.pages[q]
  }

  ghost predicate KeyReleased(s: State, r: State, gone: set<nat>, fails: set<nat>, k: (nat, nat)) {
    && (k in r.pageMap <==> k in s.pageMap && s.pageMap[k] !in gone)
    && (k in r.pageMap ==> r.pageMap[k] == s.pageMap[k])
    && (k.0 < |s.disks| == |r.disks| ==>
          DiskBlock(r, k) ==
          if Written(s, k, gone, fails) then s.pages[s.pageMap[k]].data else DiskBlock(s, k))
  }

  /** From s to r, exactly the entries in `gone` left the page map and became
      unassigned and unpinned, and the dirty ones among them were written, save
      those in `fails`. */
  ghost predicate Released(s: State, r: State, gone: set<nat>, fails: set<nat>) {
    && |r.pages| == |s.pages| && |r.disks| == |s.disks|
    && r.capacity == s.capacity && r.pageSize == s.pageSize
    && (forall q :: 0 <= q < |s.pages| ==> PageReleased(s, r, gone, q))
    && (forall k: (nat, nat) :: KeyReleased(s, r, gone, fails, k))
  }

  lemma ReleasedTwice(s: State, m: State, r: State, g: set<nat>, h: set<nat>, fails: set<nat>)
    requires Core(s) && Released(s, m, g, fails) && Released(m, r, h, fails) && g !! h
    ensures Released(s, r, g + h, fails)
  {
    forall q | 0 <= q < |s.pages| ensures PageReleased(s, r, g + h, q) {
      assert PageReleased(s, m, g, q) && PageReleased(m, r, h, q);
    }
    forall k: (nat, nat) ensures KeyReleased(s, r, g + h, fails, k) {
      assert KeyReleased(s, m, g, fails, k) && KeyReleased(m, r, h, fails, k);
      if k in s.pageMap {
        assert KeyOk(s, k);
        assert PageReleased(s, m, g, s.pageMap[k]);
      }
    }
  }

  /** Without failed writes, releasing entries does not change the view. */
  lemma ReleasedSameView(s: State, r: State, gone: set<nat>, fails: set<nat>)
    requires Core(s) && Released(s, r, gone, fails)
    requires forall q :: q in gone && 0 <= q < |s.pages| && s.pages[q].dirty ==> q !in fails
    ensures SameView(s, r)
  {
    forall k: (nat, nat) | k.0 < |s.disks| ensures View(r, k) == View(s, k) {
      assert KeyReleased(s, r, gone, fails, k);
      if k in s.pageMap {
        assert KeyOk(s, k);
        assert PageOk(s, s.pageMap[k]);
        assert PageReleased(s, r, gone, s.pageMap[k]);
      }
    }
  }

  lemma ReleaseFirstMeans(s: State, t: nat, fails: set<nat>)
    requires Core(s) && PinnedOnce(s, t) && s.lists[t] != []
    ensures Released(s, ReleaseFirst(s, t, fails), {s.lists[t][0]}, fails)
  {
    var p := s.lists[t][0];
    assert ListOk(s, t) && PageOk(s, p);
    var r := ReleaseFirst(s, t, fails);
    forall k: (nat, nat) ensures KeyReleased(s, r, {p}, fails, k) {
      assert k in s.pageMap ==> KeyOk(s, k);
    }
  }

  lemma ReleaseFirstLists(s: State, t: nat, fails: set<nat>)
    requires Core(s) && PinnedOnce(s, t) && s.lists[t] != []
    ensures var r := ReleaseFirst(s, t, fails);
      r.free == s.free + [s.lists[t][0]] && r.lru == s.lru
  {
    assert ListOk(s, t) && PageOk(s, s.lists[t][0]);
  }

  lemma {:induction false} ReleaseAllKeeps(s: State, t: nat, fails: set<nat>)
    requires Core(s) && AllPinned(s, t)
    ensures var r := ReleaseAll(s, t, fails);
      Core(r) && SameLife(s, r) && r.lists == s.lists[t := []]
    decreases if t < |s.lists| then |s.lists[t]| else 0
  {
    if s.lists[t] == [] {
      assert s.lists == s.lists[t := []];
    } else {
      ReleaseFirstKeeps(s, t, fails);
      ReleaseFirstNext(s, t, fails);
      var m := ReleaseFirst(s, t, fails);
      ReleaseAllKeeps(m, t, fails);
      assert m.lists[t := []] == s.lists[t := []];
    }
  }

  lemma ElemsHead(list: seq<nat>)
    requires list != [] && NoDup(list)
    ensures Elems(list) == {list[0]} + Elems(list[1..])
    ensures list[0] !in Elems(list[1..])
  {
    assert list == [list[0]] + list[1..];
  }

  lemma ReleaseFirstPins(s: State, t: nat, fails: set<nat>)
    requires Core(s) && PinnedOnce(s, t) && s.lists[t] != []
    ensures PinnedOnce(ReleaseFirst(s, t, fails), t)
  {
    assert ListOk(s, t) && PageOk(s, s.lists[t][0]);
  }

  lemma {:induction false} ReleaseAllMeans(s: State, t: nat, fails: set<nat>)
    requires Core(s) && PinnedOnce(s, t)
    ensures Released(s, ReleaseAll(s, t, fails), Elems(s.lists[t]), fails)
    decreases if t < |s.lists| then |s.lists[t]| else 0
  {
    if s.lists[t] != [] {
      ReleaseFirstKeeps(s, t, fails);
      ReleaseFirstNext(s, t, fails);
      ReleaseFirstMeans(s, t, fails);
      ReleaseFirstPins(s, t, fails);
      var m := ReleaseFirst(s, t, fails);
      ReleaseAllMeans(m, t, fails);
      ElemsHead(s.lists[t]) by { assert ListOk(s, t); }
      ReleasedTwice(s, m, ReleaseAll(m, t, fails), {s.lists[t][0]}, Elems(m.lists[t]), fails);
    }
  }

  lemma AppendHead(a: seq<nat>, l: seq<nat>)
    requires l != []
    ensures (a + [l[0]]) + l[1..] == a + l
  {
    assert l == [l[0]] + l[1..];
  }

  /** The entries go to the end of the pool's free list in list order. */
  lemma {:induction false} ReleaseAllLists(s: State, t: nat, fails: set<nat>)
    requires Core(s) && PinnedOnce(s, t)
    ensures var r := ReleaseAll(s, t, fails);
      r.free == s.free + s.lists[t] && r.lru == s.lru
    decreases if t < |s.lists| then |s.lists[t]| else 0
  {
    if s.lists[t] == [] {
      assert s.free + [] == s.free;
    } else {
      ReleaseFirstKeeps(s, t, fails);
      ReleaseFirstNext(s, t, fails);
      ReleaseFirstPins(s, t, fails);
      var m := ReleaseFirst(s, t, fails);
      assert m.free == s.free + [s.lists[t][0]] && m.lru == s.lru by { ReleaseFirstLists(s, t, fails); }
      AppendHead(s.free, s.lists[t]);
      ReleaseAllLists(m, t, fails);
    }
  }
}
