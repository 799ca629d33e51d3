/** Every step keeps the invariants of the pool, and its effect on the view. */
module PoolSteps {
  import opened Bytes
  import opened Lists
  import opened PoolModel

  /** The invariants hold after a step that leaves the view alone. */
  ghost predicate Kept(s: State, r: State) {
    Core(r) && SameLife(s, r) && SameView(s, r)
  }

  /** The list memberships of an entry agree with its pins and its owner. */
  ghost predicate Filed(s: State, p: nat)
    requires p < |s.pages|
  {
    var e := s.pages[p];
    && (p in s.free <==> e.pins == 0 && e.owner.None?)
    && (p in s.lru <==> e.pins == 0 && e.owner.Some?)
    && (e.stale ==> e.pins > 0)
    && -(s.clock as int) <= e.stamp <= s.clock
  }

  /** A step that moves pins and list positions only. */
  lemma PinsMoved(s: State, r: State)
    requires Core(s) && |r.pages| == |s.pages|
    requires r == s.(pages := r.pages, free := r.free, lru := r.lru, clock := r.clock)
    requires forall p :: 0 <= p < |s.pages| ==>
      r.pages[p] == s.pages[p].(pins := r.pages[p].pins, stamp := r.pages[p].stamp)
    requires forall p :: 0 <= p < |s.pages| ==> Filed(r, p)
    requires forall i :: 0 <= i < |r.free| ==> FreeAt(r, i)
    requires forall i :: 0 <= i < |r.lru| ==> LruAt(r, i)
    ensures Kept(s, r)
  {
    forall p | 0 <= p < |r.pages| ensures PageOk(r, p) { assert PageOk(s, p) && Filed(r, p); }
    forall t | 0 <= t < |r.lists| ensures ListOk(r, t) { assert ListOk(s, t); }
    forall k | k in r.pageMap ensures KeyOk(r, k) { assert KeyOk(s, k); }
  }

  /** The LRU list has no duplicates. */
  lemma LruNoDup(s: State)
    requires forall i :: 0 <= i < |s.lru| ==> LruAt(s, i)
    ensures NoDup(s.lru)
  {
    forall i, j | 0 <= i < j < |s.lru| ensures s.lru[i] != s.lru[j] { assert LruAt(s, j); }
  }

  lemma PinKeeps(s: State, p: nat)
    requires Core(s) && p < |s.pages| && s.pages[p].owner.Some?
    ensures Kept(s, Pin(s, p))
  {
    var r := Pin(s, p);
    LruNoDup(s);
    RemoveKeeps(s.lru, p);
    forall q | 0 <= q < |r.pages| ensures Filed(r, q) { assert PageOk(s, q); }
    forall i | 0 <= i < |r.free| ensures FreeAt(r, i) { assert FreeAt(s, i); }
    forall i | 0 <= i < |r.lru| ensures LruAt(r, i) {
      assert PageOk(s, p);
      var k := if p in s.lru then IndexOf(s.lru, p) else |s.lru|;
      assert LruAt(s, if i < k then i else i + 1);
    }
    PinsMoved(s, r);
  }

  lemma UnpinLru(s: State, p: nat, mode: UnpinMode, i: nat)
    requires Core(s) && p < |s.pages| && s.pages[p].owner.Some? && s.pages[p].pins > 0
    requires i < |Unpin(s, p, mode).lru|
    ensures LruAt(Unpin(s, p, mode), i)
  {
    forall i | 0 <= i < |s.lru|
      ensures s.lru[i] < |s.pages| && s.lru[i] != p &&
              -(s.clock as int) <= s.pages[s.lru[i]].stamp <= s.clock
    {
      assert LruAt(s, i) && PageOk(s, s.lru[i]) && PageOk(s, p);
    }
    var j := if s.pages[p].pins == 1 && mode == DiscardPage then i - 1 else i;
    assert 0 <= j < |s.lru| ==> LruAt(s, j);
  }

  lemma UnpinKeeps(s: State, p: nat, mode: UnpinMode)
    requires Core(s) && p < |s.pages| && s.pages[p].owner.Some? && s.pages[p].pins > 0
    requires s.pages[p].pins == 1 ==> !s.pages[p].stale
    ensures Kept(s, Unpin(s, p, mode))
  {
    var r := Unpin(s, p, mode);
    forall q | 0 <= q < |r.pages| ensures Filed(r, q) { assert PageOk(s, q); }
    forall i | 0 <= i < |r.free| ensures FreeAt(r, i) { assert FreeAt(s, i) && PageOk(s, p); }
    forall i | 0 <= i < |r.lru| ensures LruAt(r, i) { UnpinLru(s, p, mode, i); }
    PinsMoved(s, r);
  }

  lemma UnpinFree(s: State, p: nat, i: nat)
    requires Core(s) && p < |s.pages| && s.pages[p].owner.None? && s.pages[p].pins > 0
    requires i < |UnpinUnassigned(s, p).free|
    ensures FreeAt(UnpinUnassigned(s, p), i)
  {
    forall i | 0 <= i < |s.free|
      ensures s.free[i] < |s.pages| && s.free[i] != p && s.pages[s.free[i]].stamp <= s.clock
    {
      assert FreeAt(s, i) && PageOk(s, s.free[i]) && PageOk(s, p);
    }
    assert i < |s.free| ==> FreeAt(s, i);
  }

  lemma UnpinUnassignedKeeps(s: State, p: nat)
    requires Core(s) && p < |s.pages| && s.pages[p].owner.None? && s.pages[p].pins > 0
    ensures Kept(s, UnpinUnassigned(s, p))
  {
    var r := UnpinUnassigned(s, p);
    forall q | 0 <= q < |r.pages| ensures Filed(r, q) { assert PageOk(s, q); }
    forall i | 0 <= i < |r.free| ensures FreeAt(r, i) { UnpinFree(s, p, i); }
    forall i | 0 <= i < |r.lru| ensures LruAt(r, i) { assert LruAt(s, i) && PageOk(s, p); }
    PinsMoved(s, r);
  }

  lemma TakeFreeKeeps(s: State)
    requires Core(s) && s.free != []
    ensures FreeAt(s, 0) && PageOk(s, s.free[0])
    ensures Kept(s, TakeFree(s))
  {
    assert FreeAt(s, 0);
    assert PageOk(s, s.free[0]);
    var r := TakeFree(s);
    forall q | 0 <= q < |r.pages| ensures Filed(r, q) {
      assert PageOk(s, q);
      if q in s.free && q != s.free[0] {
        var i :| 0 <= i < |s.free| && s.free[i] == q;
        assert r.free[i - 1] == q;
      }
      if i :| 0 <= i < |r.free| && r.free[i] == q {
        assert FreeAt(s, i + 1);
      }
    }
    forall i | 0 <= i < |r.free| ensures FreeAt(r, i) { assert FreeAt(s, i + 1); }
    forall i | 0 <= i < |r.lru| ensures LruAt(r, i) { assert LruAt(s, i); }
    PinsMoved(s, r);
  }

  lemma CreateKeeps(s: State)
    requires Core(s) && |s.pages| < s.capacity
    ensures Kept(s, Create(s))
  {
    var r := Create(s);
    forall i | 0 <= i < |r.free| ensures FreeAt(r, i) { assert FreeAt(s, i); }
    forall i | 0 <= i < |r.lru| ensures LruAt(r, i) { assert LruAt(s, i); }
    forall p | 0 <= p < |r.pages| ensures PageOk(r, p) {
      if p < |s.pages| {
        assert PageOk(s, p);
      } else {
        forall i | 0 <= i < |s.free| ensures s.free[i] != p { assert FreeAt(s, i); }
        forall i | 0 <= i < |s.lru| ensures s.lru[i] != p { assert LruAt(s, i); }
      }
    }
    forall t | 0 <= t < |r.lists| ensures ListOk(r, t) { assert ListOk(s, t); }
    forall k | k in r.pageMap ensures KeyOk(r, k) { assert KeyOk(s, k); }
  }

  /** The free list and the LRU list survive a step that leaves them, the pins
      and the stamps alone. */
  lemma ListsStay(s: State, r: State)
    requires Core(s) && |r.pages| == |s.pages| && r.free == s.free && r.lru == s.lru
    requires forall p :: 0 <= p < |s.pages| ==> r.pages[p].stamp == s.pages[p].stamp
    ensures forall i :: 0 <= i < |r.free| ==> FreeAt(r, i)
    ensures forall i :: 0 <= i < |r.lru| ==> LruAt(r, i)
  {
    forall i | 0 <= i < |r.free| ensures FreeAt(r, i) { assert FreeAt(s, i); }
    forall i | 0 <= i < |r.lru| ensures LruAt(r, i) { assert LruAt(s, i); }
  }

  lemma DetachPage(s: State, p: nat, q: nat)
    requires Core(s) && Assigned(s, p) && s.pages[p].pins > 0 && q < |s.pages|
    ensures PageOk(Detach(s, p), q)
  {
    assert PageOk(s, p) && PageOk(s, q) && ListOk(s, s.pages[p].owner.value);
    RemoveKeeps(s.lists[s.pages[p].owner.value], p);
  }

  lemma DetachKeeps(s: State, p: nat)
    requires Core(s) && Assigned(s, p) && s.pages[p].pins > 0
    ensures var r := Detach(s, p);
      Core(r) && SameLife(s, r)
  {
    var r := Detach(s, p);
    ListsStay(s, r);
    forall q | 0 <= q < |r.pages| ensures PageOk(r, q) { DetachPage(s, p, q); }
    forall t | 0 <= t < |r.lists| ensures ListOk(r, t) {
      assert ListOk(s, t);
      RemoveKeeps(s.lists[t], p);
    }
    forall k | k in r.pageMap ensures KeyOk(r, k) { assert KeyOk(s, k); }
  }

  lemma DetachSameView(s: State, p: nat)
    requires Core(s) && Assigned(s, p)
    requires s.pages[p].stale || s.pages[p].data == DiskBlock(s, KeyOf(s, p))
    ensures SameView(s, Detach(s, p))
  {
    var r := Detach(s, p);
    forall k: (nat, nat) | k.0 < |s.disks| ensures View(r, k) == View(s, k) {
      if k in s.pageMap {
        assert KeyOk(s, k) && PageOk(s, p);
      }
    }
  }

  lemma UnassignKeeps(s: State, p: nat, ok: bool)
    requires Core(s) && p < |s.pages| && s.pages[p].owner.Some? && s.pages[p].pins > 0
    ensures PageOk(s, p) && Assigned(s, p)
    ensures var r := Unassign(s, p, ok);
      Core(r) && SameLife(s, r) && (ok || !s.pages[p].dirty ==> SameView(s, r))
  {
    assert PageOk(s, p);
    if s.pages[p].dirty && ok {
      WriteBackKeeps(s, p);
      DetachKeeps(WriteBack(s, p), p);
      DetachSameView(WriteBack(s, p), p);
    } else {
      DetachKeeps(s, p);
      if !s.pages[p].dirty { DetachSameView(s, p); }
    }
  }

  lemma AssignPage(s: State, p: nat, st: nat, id: nat, data: Block, stale: bool, q: nat)
    requires Core(s) && p < |s.pages| && s.pages[p].owner.None? && s.pages[p].pins > 0
    requires st < |s.stores| && (st, id) !in s.pageMap && |data| == s.pageSize
    requires stale || data == DiskBlock(s, (st, id))
    requires q < |s.pages|
    ensures StoreOk(s.txns, s.stores, st)
    ensures PageOk(Assign(s, p, st, id, data, stale), q)
  {
    assert StoreOk(s.txns, s.stores, st) && TxnOk(s.txns, s.stores, s.stores[st].init);
    assert PageOk(s, q);
  }

  lemma AssignKeeps(s: State, p: nat, st: nat, id: nat, data: Block, stale: bool)
    requires Core(s) && p < |s.pages| && s.pages[p].owner.None? && s.pages[p].pins > 0
    requires st < |s.stores| && (st, id) !in s.pageMap && |data| == s.pageSize
    requires stale || data == DiskBlock(s, (st, id))
    ensures StoreOk(s.txns, s.stores, st)
    ensures Kept(s, Assign(s, p, st, id, data, stale))
  {
    assert StoreOk(s.txns, s.stores, st);
    var r := Assign(s, p, st, id, data, stale);
    ListsStay(s, r);
    forall q | 0 <= q < |r.pages| ensures PageOk(r, q) { AssignPage(s, p, st, id, data, stale, q); }
    forall t | 0 <= t < |r.lists| ensures ListOk(r, t) { assert ListOk(s, t); }
    forall k | k in r.pageMap ensures KeyOk(r, k) { assert k in s.pageMap ==> KeyOk(s, k); }
  }

  lemma RelabelKeeps(s: State, p: nat, id: nat)
    requires Core(s) && p < |s.pages| && s.pages[p].owner.None?
    ensures Kept(s, Relabel(s, p, id))
  {
    var r := Relabel(s, p, id);
    ListsStay(s, r);
    forall q | 0 <= q < |r.pages| ensures PageOk(r, q) { assert PageOk(s, q); }
    forall t | 0 <= t < |r.lists| ensures ListOk(r, t) { assert ListOk(s, t); }
    forall k | k in r.pageMap ensures KeyOk(r, k) { assert KeyOk(s, k); }
  }

  ghost predicate CanReassign(s: State, p: nat, t: nat, dirty: bool) {
    && Core(s) && Assigned(s, p)
    && t < |s.txns| && s.txns[t].store == KeyOf(s, p).0 && s.pages[p].owner != Some(t)
    && (dirty <==> !s.txns[t].isInit)
    && (dirty || s.pages[p].data == DiskBlock(s, KeyOf(s, p)))
  }

  lemma ReassignPage(s: State, p: nat, t: nat, dirty: bool, q: nat)
    requires CanReassign(s, p, t, dirty) && q < |s.pages|
    ensures PageOk(Reassign(s, p, t, dirty), q)
  {
    assert PageOk(s, p) && PageOk(s, q) && ListOk(s, s.pages[p].owner.value);
    RemoveKeeps(s.lists[s.pages[p].owner.value], p);
  }

  lemma ReassignFrom(s: State, p: nat, t: nat, dirty: bool)
    requires CanReassign(s, p, t, dirty)
    ensures ListOk(Reassign(s, p, t, dirty), s.pages[p].owner.value)
  {
    var from := s.pages[p].owner.value;
    assert ListOk(s, from) && PageOk(s, p);
    RemoveKeeps(s.lists[from], p);
    var r := Reassign(s, p, t, dirty);
    forall i | 0 <= i < |r.lists[from]|
      ensures r.lists[from][i] < |r.pages| && r.pages[r.lists[from][i]].owner == Some(from)
    {
      assert r.lists[from][i] in s.lists[from] && r.lists[from][i] != p;
    }
  }

  lemma ReassignList(s: State, p: nat, t: nat, dirty: bool, x: nat)
    requires CanReassign(s, p, t, dirty) && x < |s.lists| && Some(x) != s.pages[p].owner
    ensures ListOk(Reassign(s, p, t, dirty), x)
  {
    assert ListOk(s, x) && PageOk(s, p);
  }

  lemma ReassignCore(s: State, p: nat, t: nat, dirty: bool)
    requires CanReassign(s, p, t, dirty)
    ensures Core(Reassign(s, p, t, dirty))
  {
    var r := Reassign(s, p, t, dirty);
    ListsStay(s, r);
    forall q | 0 <= q < |r.pages| ensures PageOk(r, q) { ReassignPage(s, p, t, dirty, q); }
    forall x | 0 <= x < |r.lists| ensures ListOk(r, x) {
      if Some(x) == s.pages[p].owner { ReassignFrom(s, p, t, dirty); } else { ReassignList(s, p, t, dirty, x); }
    }
    forall k | k in r.pageMap ensures KeyOk(r, k) { assert KeyOk(s, k); }
  }

  /** The step moves the ownership of an entry within its store. */
  lemma ReassignKeeps(s: State, p: nat, t: nat, dirty: bool)
    requires CanReassign(s, p, t, dirty)
    ensures var r := Reassign(s, p, t, dirty);
      Core(r) && SameLife(s, r) && (!s.pages[p].stale ==> SameView(s, r))
  {
    ReassignCore(s, p, t, dirty);
  }

  lemma WillModifyKeeps(s: State, t: nat, p: nat)
    requires Core(s) && p < |s.pages| && Assigned(s, p)
    requires t < |s.txns| && s.txns[t].store == KeyOf(s, p).0 && !s.txns[t].isInit
    ensures var r := WillModify(s, t, p);
      Core(r) && SameLife(s, r) && (!s.pages[p].stale ==> SameView(s, r))
  {
    assert PageOk(s, p);
    if s.pages[p].owner == Some(t) {
      assert WillModify(s, t, p) == s by {
        assert s.pages[p := s.pages[p].(dirty := true)] == s.pages;
      }
    } else {
      ReassignKeeps(s, p, t, true);
    }
  }

  lemma WriteBackKeeps(s: State, p: nat)
    requires Core(s) && p < |s.pages| && Assigned(s, p) && s.pages[p].dirty
    ensures Kept(s, WriteBack(s, p))
    ensures DiskBlock(WriteBack(s, p), KeyOf(s, p)) == s.pages[p].data
  {
    var r := WriteBack(s, p);
    ListsStay(s, r);
    assert PageOk(s, p);
    forall q | 0 <= q < |r.pages| ensures PageOk(r, q) { assert PageOk(s, q); }
    forall t | 0 <= t < |r.lists| ensures ListOk(r, t) { assert ListOk(s, t); }
    forall k | k in r.pageMap ensures KeyOk(r, k) { assert KeyOk(s, k); }
    forall st | 0 <= st < |r.disks| ensures DiskOk(r.disks[st], r.pageSize) { assert DiskOk(s.disks[st], s.pageSize); }
  }

  lemma PersistKeeps(s: State, p: nat)
    requires Core(s) && p < |s.pages| && Assigned(s, p) && s.pages[p].dirty
    ensures PageOk(s, p) && StoreOk(s.txns, s.stores, KeyOf(s, p).0)
    ensures TxnOk(s.txns, s.stores, s.pages[p].owner.value)
    ensures Kept(s, Persist(s, p))
  {
    assert PageOk(s, p);
    assert StoreOk(s.txns, s.stores, KeyOf(s, p).0);
    assert TxnOk(s.txns, s.stores, s.pages[p].owner.value);
    assert TxnOk(s.txns, s.stores, s.stores[KeyOf(s, p).0].init);
    WriteBackKeeps(s, p);
    ReassignKeeps(WriteBack(s, p), p, s.stores[KeyOf(s, p).0].init, false);
  }

  lemma ScribbleKeeps(s: State, p: nat, data: Block)
    requires Core(s) && p < |s.pages| && s.pages[p].dirty && |data| == s.pageSize
    ensures var r := Scribble(s, p, data);
      PageOk(s, p) && Core(r) && SameLife(s, r) &&
      forall k: (nat, nat) :: k.0 < |s.disks| ==>
        View(r, k) == if k == KeyOf(s, p) then data else View(s, k)
  {
    var r := Scribble(s, p, data);
    ListsStay(s, r);
    assert PageOk(s, p);
    forall q | 0 <= q < |r.pages| ensures PageOk(r, q) { assert PageOk(s, q); }
    forall t | 0 <= t < |r.lists| ensures ListOk(r, t) { assert ListOk(s, t); }
    forall k | k in r.pageMap ensures KeyOk(r, k) { assert KeyOk(s, k); }
    forall k: (nat, nat) | k.0 < |s.disks|
      ensures View(r, k) == if k == KeyOf(s, p) then data else View(s, k)
    {
      assert k in s.pageMap ==> KeyOk(s, k);
    }
  }
}
