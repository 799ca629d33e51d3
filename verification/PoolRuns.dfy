/** Arbitrary runs of pool, transaction and store operations. */
module PoolRuns {
  import opened Bytes
  import opened Lists
  import opened PoolModel
  import opened PoolSteps
  import opened PoolOps
  import opened PoolClose
  import opened PoolCommit
  import opened PoolFetch
  import opened FetchEffects

  datatype Event =
    | OpenStore(disk: map<nat, Block>)
    | Begin(st: nat)
    | Fetch(st: nat, id: nat, mode: FetchMode, io: Io)
    | Alloc(io: Io)
    | PinAgain(p: nat)
    | Release(p: nat, unpin: UnpinMode)
    | ReleaseUnassigned(p: nat)
    | Modify(t: nat, p: nat)
    | Write(p: nat, data: Block)
    | CommitTxn(t: nat)
    | RollbackTxn(t: nat)
    | CloseSt(st: nat, fails: set<nat>)

  /** A page pool before any store uses it. */
  function Empty(capacity: nat, pageSize: nat): State {
    State(capacity, pageSize, [], [], [], [], [], map[], [], [], 0)
  }

  lemma EmptyInv(capacity: nat, pageSize: nat)
    ensures Inv(Empty(capacity, pageSize))
  {
  }

  /** StoreImpl::Create */
  function AddStore(s: State, disk: map<nat, Block>): State {
    s.(txns := s.txns + [TxnRec(|s.stores|, true, false, false)],
       lists := s.lists + [[]],
       stores := s.stores + [StoreRec(|s.txns|, [], Open)],
       disks := s.disks + [disk])
  }

  /** StoreImpl::CreateTransaction */
  function AddTxn(s: State, st: nat): State
    requires st < |s.stores|
  {
    s.(txns := s.txns + [TxnRec(st, false, false, false)],
       lists := s.lists + [[]],
       stores := s.stores[st := s.stores[st].(txns := s.stores[st].txns + [|s.txns|])])
  }

  /** What TransactionImpl::WillModifyPage checks: the entry is pinned and belongs
      to the transaction's store, the transaction is not init, and no other
      transaction has modified the entry. */
  ghost predicate MayModify(s: State, t: nat, p: nat) {
    && t < |s.txns| && !s.txns[t].isInit
    && Assigned(s, p) && s.pages[p].pins > 0 && KeyOf(s, p).0 == s.txns[t].store
    && (s.pages[p].owner == Some(t) || s.txns[s.pages[p].owner.value].isInit)
  }

  /** A running transaction may modify the entry. */
  ghost predicate CanModify(s: State, t: nat, p: nat) {
    MayModify(s, t, p) && !s.txns[t].closed
  }

  /** What the source demands of the caller of an operation, and what it takes for
      granted: that no write fails in a rollback, and that an eviction that fails
      to write closes neither the store that is fetched from nor a store whose
      entries are pinned. */
  ghost predicate Enabled(s: State, e: Event) {
    match e
    case OpenStore(disk) => DiskOk(disk, s.pageSize)
    case Begin(st) => st < |s.stores| && s.stores[st].phase == Open
    case Fetch(st, id, mode, io) =>
      CanFetch(s, st, id, io)
    case Alloc(io) => EvictionSafe(s, io)
    case PinAgain(p) => p < |s.pages| && s.pages[p].owner.Some? && s.pages[p].pins > 0
    case Release(p, unpin) =>
      p < |s.pages| && s.pages[p].owner.Some? && s.pages[p].pins > 0 && (s.pages[p].stale ==> s.pages[p].pins > 1)
    case ReleaseUnassigned(p) => p < |s.pages| && s.pages[p].owner.None? && s.pages[p].pins > 0
    case Modify(t, p) => CanModify(s, t, p)
    case Write(p, data) =>
      Assigned(s, p) && s.pages[p].pins > 0 && s.pages[p].dirty && |data| == s.pageSize
    case CommitTxn(t) => t < |s.txns| && !s.txns[t].isInit
    case RollbackTxn(t) => t < |s.txns| && !s.txns[t].isInit && (s.txns[t].closed || Idle(s, t))
    case CloseSt(st, fails) => st < |s.stores| && (s.stores[st].phase == Open ==> StoreIdle(s, st))
  }

  ghost function Next(s: State, e: Event): State
    requires Inv(s) && Enabled(s, e)
  {
    match e
    case OpenStore(disk) => AddStore(s, disk)
    case Begin(st) => AddTxn(s, st)
    case Fetch(st, id, mode, io) => StorePage(s, st, id, mode, io).0
    case Alloc(io) => AllocPage(s, io).0
    case PinAgain(p) => Pin(s, p)
    case Release(p, unpin) => Unpin(s, p, unpin)
    case ReleaseUnassigned(p) => UnpinUnassigned(s, p)
    case Modify(t, p) => WillModify(s, t, p)
    case Write(p, data) => Scribble(s, p, data)
    case CommitTxn(t) => Commit(s, t).0
    case RollbackTxn(t) => RollbackOpen(s, t).0
    case CloseSt(st, fails) => assert StoreLife(s, st); CloseStore(s, st, fails)
  }

  lemma AddStoreInv(s: State, disk: map<nat, Block>)
    requires Inv(s) && DiskOk(disk, s.pageSize)
    ensures var r := AddStore(s, disk);
      && Inv(r) && (forall k: (nat, nat) :: k.0 < |s.disks| ==> View(r, k) == View(s, k))
      && |r.disks| == |s.disks| + 1
      && forall id: nat :: View(r, (|s.disks|, id)) == BlockOf(disk, id, s.pageSize)
  {
    var r := AddStore(s, disk);
    forall t | 0 <= t < |r.txns| ensures TxnOk(r.txns, r.stores, t) && TxnLife(r, t) {
      assert t < |s.txns| ==> TxnOk(s.txns, s.stores, t) && TxnLife(s, t);
    }
    forall st | 0 <= st < |r.stores| ensures StoreOk(r.txns, r.stores, st) && StoreLife(r, st) {
      if st < |s.stores| {
        assert StoreOk(s.txns, s.stores, st) && StoreLife(s, st);
      } else {
        forall t: nat | t < |s.txns| ensures r.txns[t].store != st { assert TxnOk(s.txns, s.stores, t); }
      }
    }
    GrowCore(s, r);
    forall k | k in s.pageMap ensures k.0 < |s.disks| { assert KeyOk(s, k); }
    assert forall id: nat :: (|s.disks|, id) !in s.pageMap;
  }

  lemma AddTxnInv(s: State, st: nat)
    requires Inv(s) && st < |s.stores| && s.stores[st].phase == Open
    ensures var r := AddTxn(s, st);
      Inv(r) && SameView(s, r)
  {
    var r := AddTxn(s, st);
    forall t | 0 <= t < |r.txns| ensures TxnOk(r.txns, r.stores, t) && TxnLife(r, t) {
      assert StoreOk(s.txns, s.stores, st);
      assert t < |s.txns| ==> TxnOk(s.txns, s.stores, t) && TxnLife(s, t);
    }
    forall x | 0 <= x < |r.stores| ensures StoreOk(r.txns, r.stores, x) && StoreLife(r, x) {
      assert StoreOk(s.txns, s.stores, x) && StoreLife(s, x);
    }
    GrowCore(s, r);
  }

  /** New transactions and stores do not disturb the entries. */
  lemma GrowCore(s: State, r: State)
    requires Core(s)
    requires r == s.(txns := r.txns, stores := r.stores, lists := r.lists, disks := r.disks)
    requires |s.txns| <= |r.txns| == |r.lists| && |s.stores| <= |r.stores| == |r.disks|
    requires forall t :: 0 <= t < |s.txns| ==> r.txns[t] == s.txns[t]
    requires forall t :: 0 <= t < |r.lists| ==> r.lists[t] == if t < |s.lists| then s.lists[t] else []
    requires forall st :: 0 <= st < |s.disks| ==> r.disks[st] == s.disks[st]
    requires forall st :: 0 <= st < |r.disks| ==> DiskOk(r.disks[st], r.pageSize)
    requires forall t :: 0 <= t < |r.txns| ==> TxnOk(r.txns, r.stores, t)
    requires forall st :: 0 <= st < |r.stores| ==> StoreOk(r.txns, r.stores, st)
    ensures Core(r) && forall k: (nat, nat) :: k.0 < |s.disks| ==> View(r, k) == View(s, k)
  {
    forall p | 0 <= p < |r.pages| ensures PageOk(r, p) { assert PageOk(s, p); }
    forall t | 0 <= t < |r.lists| ensures ListOk(r, t) { assert t < |s.lists| ==> ListOk(s, t); }
    forall k | k in r.pageMap ensures KeyOk(r, k) { assert KeyOk(s, k); }
    forall i | 0 <= i < |r.free| ensures FreeAt(r, i) { assert FreeAt(s, i); }
    forall i | 0 <= i < |r.lru| ensures LruAt(r, i) { assert LruAt(s, i); }
  }

  lemma ModifyInv(s: State, t: nat, p: nat)
    requires Inv(s) && CanModify(s, t, p)
    ensures Inv(WillModify(s, t, p))
  {
    WillModifyKeeps(s, t, p);
    var r := WillModify(s, t, p);
    forall x | 0 <= x < |s.lists| && s.lists[x] == [] && s.txns[x].closed ensures r.lists[x] == [] {
      assert PageOk(s, p);
    }
    SameLifeInv(s, r);
  }

  /** Every enabled operation keeps the invariant. */
  lemma NextInv(s: State, e: Event)
    requires Inv(s) && Enabled(s, e)
    ensures Inv(Next(s, e))
  {
    match e
    case OpenStore(disk) => AddStoreInv(s, disk);
    case Begin(st) => AddTxnInv(s, st);
    case Fetch(st, id, mode, io) => StorePageTheorem(s, st, id, mode, io);
    case Alloc(io) => AllocTheorem(s, io);
    case PinAgain(p) => PinKeeps(s, p); SameLifeInv(s, Pin(s, p));
    case Release(p, unpin) => UnpinKeeps(s, p, unpin); SameLifeInv(s, Unpin(s, p, unpin));
    case ReleaseUnassigned(p) => UnpinUnassignedKeeps(s, p); SameLifeInv(s, UnpinUnassigned(s, p));
    case Modify(t, p) => ModifyInv(s, t, p);
    case Write(p, data) => ScribbleKeeps(s, p, data); SameLifeInv(s, Scribble(s, p, data));
    case CommitTxn(t) => if !s.txns[t].closed { CommitTheorem(s, t); }
    case RollbackTxn(t) => if !s.txns[t].closed { RollbackTheorem(s, t); }
    case CloseSt(st, fails) =>
      assert StoreLife(s, st);
      if s.stores[st].phase == Open { CloseStoreTheorem(s, st, fails); }
  }

  // ---------------------------------------------------------------------
  // Runs

  /** Every operation of the run is enabled when it is called. */
  ghost predicate Legal(s: State, run: seq<Event>)
    requires Inv(s)
    decreases |run|
  {
    run == [] ||
    (Enabled(s, run[0]) && (NextInv(s, run[0]); Legal(Next(s, run[0]), run[1..])))
  }

  ghost function After(s: State, run: seq<Event>): State
    requires Inv(s) && Legal(s, run)
    decreases |run|
  {
    if run == [] then s else NextInv(s, run[0]); After(Next(s, run[0]), run[1..])
  }

  /** The invariant holds in every reachable state, also when writes fail. */
  lemma {:induction false} RunInv(s: State, run: seq<Event>)
    requires Inv(s) && Legal(s, run)
    ensures Inv(After(s, run))
    decreases |run|
  {
    if run != [] {
      NextInv(s, run[0]);
      RunInv(Next(s, run[0]), run[1..]);
    }
  }

  // ---------------------------------------------------------------------
  // Runs one after the other

  lemma {:induction false} RunSplit(s: State, a: seq<Event>, b: seq<Event>)
    requires Inv(s) && Legal(s, a + b)
    ensures Legal(s, a) && Inv(After(s, a)) && Legal(After(s, a), b)
    ensures After(s, a + b) == After(After(s, a), b)
    decreases |a|
  {
    if a == [] {
      assert a + b == b;
    } else {
      NextInv(s, a[0]);
      assert (a + b)[0] == a[0] && (a + b)[1..] == a[1..] + b;
      RunSplit(Next(s, a[0]), a[1..], b);
    }
  }

  lemma AllocSize(s: State, io: Io)
    requires Inv(s) && EvictionSafe(s, io)
    ensures AllocPage(s, io).0.pageSize == s.pageSize && AllocPage(s, io).0.capacity == s.capacity
  {
    if EvictionCloses(s, io) {
      OrphanedStore(s, io);
      PinVictim(s);
      CloseStoreReleases(Orphaned(s), KeyOf(s, s.lru[0]).0, io.fails);
    } else {
      AllocTheorem(s, io);
    }
  }

  lemma NextSizes(s: State, e: Event)
    requires Inv(s) && Enabled(s, e)
    ensures Next(s, e).pageSize == s.pageSize && Next(s, e).capacity == s.capacity
  {
    match e
    case Fetch(st, id, mode, io) => FetchTables(s, st, id, mode, io);
    case Alloc(io) => AllocSize(s, io);
    case CommitTxn(t) => if !s.txns[t].closed { CommitTables(s, t); FlushKeeps(s, t); }
    case RollbackTxn(t) => if !s.txns[t].closed { RollbackTheorem(s, t); }
    case CloseSt(st, fails) =>
      assert StoreLife(s, st);
      if s.stores[st].phase == Open { CloseStoreTheorem(s, st, fails); }
    case _ =>
  }

  /** The page size and the capacity of a pool never change. */
  lemma {:induction false} RunSizes(s: State, run: seq<Event>)
    requires Inv(s) && Legal(s, run)
    ensures After(s, run).pageSize == s.pageSize && After(s, run).capacity == s.capacity
    decreases |run|
  {
    if run != [] {
      NextInv(s, run[0]);
      NextSizes(s, run[0]);
      RunSizes(Next(s, run[0]), run[1..]);
    }
  }

  // ---------------------------------------------------------------------
  // Cache transparency

  /** No write-back of an entry of the store fails during the operation. */
  ghost predicate WritesSucceed(s: State, e: Event, st: nat) {
    match e
    case Fetch(x, id, _, io) => (x, id) in s.pageMap || Spared(s, io, st)
    case Alloc(io) => Spared(s, io, st)
    case CloseSt(x, fails) => x == st ==> StoreEntries(s, st) !! fails
    case _ => true
  }

  /** What a pin holder writes: a buffer store, or the announcement that a page
      fetched with kIgnorePageData now counts as modified. */
  ghost function Effect(s: State, e: Event): seq<((nat, nat), Block)>
    requires Enabled(s, e)
  {
    match e
    case Write(p, data) => [(KeyOf(s, p), data)]
    case Modify(_, p) => if s.pages[p].stale then [(KeyOf(s, p), s.pages[p].data)] else []
    case _ => []
  }

  /** A flat map from store pages to contents, under a log of writes. */
  ghost function Flat(v: Block, log: seq<((nat, nat), Block)>, k: (nat, nat)): Block
    decreases |log|
  {
    if log == [] then v
    else Flat(if log[0].0 == k then log[0].1 else v, log[1..], k)
  }

  lemma {:induction false} FlatConcat(v: Block, a: seq<((nat, nat), Block)>, b: seq<((nat, nat), Block)>, k: (nat, nat))
    ensures Flat(v, a + b, k) == Flat(Flat(v, a, k), b, k)
    decreases |a|
  {
    if a == [] {
      assert a + b == b;
    } else {
      assert (a + b)[1..] == a[1..] + b;
      FlatConcat(if a[0].0 == k then a[0].1 else v, a[1..], b, k);
    }
  }

  lemma ModifyView(s: State, t: nat, p: nat, k: (nat, nat))
    requires Inv(s) && CanModify(s, t, p) && k.0 < |s.disks|
    ensures var r := WillModify(s, t, p);
      |r.disks| == |s.disks| &&
      View(r, k) == if k == KeyOf(s, p) && s.pages[p].stale then s.pages[p].data else View(s, k)
  {
    assert PageOk(s, p);
    assert k in s.pageMap ==> KeyOk(s, k);
  }

  lemma StepView(s: State, e: Event, k: (nat, nat))
    requires Inv(s) && Enabled(s, e) && WritesSucceed(s, e, k.0) && k.0 < |s.disks|
    ensures k.0 < |Next(s, e).disks|
    ensures View(Next(s, e), k) == Flat(View(s, k), Effect(s, e), k)
  {
    match e
    case OpenStore(disk) => AddStoreInv(s, disk);
    case Begin(st) => AddTxnInv(s, st);
    case Fetch(st, id, mode, io) => FetchView(s, st, id, mode, io, k);
    case Alloc(io) => AllocView(s, io, k);
    case PinAgain(p) => PinKeeps(s, p);
    case Release(p, unpin) => UnpinKeeps(s, p, unpin);
    case ReleaseUnassigned(p) => UnpinUnassignedKeeps(s, p);
    case Modify(t, p) => ModifyView(s, t, p, k);
    case Write(p, data) => ScribbleKeeps(s, p, data);
    case CommitTxn(t) => if !s.txns[t].closed { CommitTheorem(s, t); }
    case RollbackTxn(t) => if !s.txns[t].closed { RollbackTheorem(s, t); }
    case CloseSt(st, fails) =>
      assert StoreLife(s, st);
      if s.stores[st].phase == Open {
        if st == k.0 { CloseStoreTheorem(s, st, fails); } else { CloseOtherView(s, st, fails, k); }
      }
  }

  ghost predicate AllWritesSucceed(s: State, run: seq<Event>, st: nat)
    requires Inv(s) && Legal(s, run)
    decreases |run|
  {
    run == [] ||
    (WritesSucceed(s, run[0], st) && (NextInv(s, run[0]); AllWritesSucceed(Next(s, run[0]), run[1..], st)))
  }

  ghost function Log(s: State, run: seq<Event>): seq<((nat, nat), Block)>
    requires Inv(s) && Legal(s, run)
    decreases |run|
  {
    if run == [] then []
    else NextInv(s, run[0]); Effect(s, run[0]) + Log(Next(s, run[0]), run[1..])
  }

  /** Over any run in which no write-back to a store fails, the pool behaves as the
      flat map of the store's pages that it caches, whatever happens to other
      stores: fetching, pinning, evicting, committing, rolling back and closing
      never change what a store page holds; only writes of pin holders do. */
  lemma {:induction false} CacheTransparency(s: State, run: seq<Event>, k: (nat, nat))
    requires Inv(s) && Legal(s, run) && AllWritesSucceed(s, run, k.0) && k.0 < |s.disks|
    ensures k.0 < |After(s, run).disks|
    ensures View(After(s, run), k) == Flat(View(s, k), Log(s, run), k)
    decreases |run|
  {
    if run != [] {
      NextInv(s, run[0]);
      StepView(s, run[0], k);
      var m := Next(s, run[0]);
      CacheTransparency(m, run[1..], k);
      FlatConcat(View(s, k), Effect(s, run[0]), Log(m, run[1..]), k);
    }
  }

  /** The same for a store that is opened in the course of the run: at first its
      pages hold the blocks of its data file, and then what the writes of pin
      holders leave. */
  lemma OpenedTransparency(s: State, before: seq<Event>, disk: map<nat, Block>, after: seq<Event>, id: nat)
    requires Inv(s) && Legal(s, before + ([OpenStore(disk)] + after))
    ensures Legal(s, before) && Inv(After(s, before)) && Enabled(After(s, before), OpenStore(disk))
    ensures var m := After(s, before); var n := Next(m, OpenStore(disk)); var k := (|m.disks|, id);
      && Inv(n) && Legal(n, after)
      && (AllWritesSucceed(n, after, k.0) ==>
            var r := After(s, before + ([OpenStore(disk)] + after));
            k.0 < |r.disks| && View(r, k) == Flat(BlockOf(disk, id, s.pageSize), Log(n, after), k))
  {
    var rest := [OpenStore(disk)] + after;
    RunSplit(s, before, rest);
    var m := After(s, before);
    assert rest[0] == OpenStore(disk) && rest[1..] == after;
    NextInv(m, OpenStore(disk));
    RunSizes(s, before);
    AddStoreInv(m, disk);
    var n := Next(m, OpenStore(disk));
    if AllWritesSucceed(n, after, |m.disks|) { CacheTransparency(n, after, (|m.disks|, id)); }
  }

  // ---------------------------------------------------------------------
  // Pins

  /** The store page that an entry is bound to, if any. */
  ghost function Binding(s: State, p: nat): Option<(nat, nat)> {
    if Assigned(s, p) then Some(KeyOf(s, p)) else None
  }

  lemma SameBinding(s: State, r: State, p: nat)
    requires Core(s) && Core(r) && SameStores(s, r) && p < |s.pages| && p < |r.pages|
    requires r.pages[p].owner == s.pages[p].owner && r.pages[p].id == s.pages[p].id
    ensures Binding(r, p) == Binding(s, p)
  {
    assert PageOk(s, p) && PageOk(r, p);
  }

  lemma MovedBinding(s: State, r: State, p: nat, t: nat)
    requires Core(s) && Core(r) && SameStores(s, r) && Assigned(s, p) && p < |r.pages|
    requires r.pages[p].owner == Some(t) && r.pages[p].id == s.pages[p].id
    requires t < |s.txns| && s.txns[t].store == KeyOf(s, p).0
    ensures Binding(r, p) == Binding(s, p)
  {
    assert PageOk(r, p);
  }

  /** Releasing entries that nobody holds leaves the others bound. */
  lemma ReleasedBinding(s: State, r: State, gone: set<nat>, fails: set<nat>, p: nat)
    requires Core(s) && Core(r) && SameStores(s, r) && Released(s, r, gone, fails) && p < |s.pages|
    requires p !in gone
    ensures p < |r.pages| && Binding(r, p) == Binding(s, p) && r.pages[p].data == s.pages[p].data
  {
    assert PageReleased(s, r, gone, p);
    SameBinding(s, r, p);
  }

  /** No operation rebinds an entry that is pinned, and only a write through
      that entry changes its buffer. */
  lemma StepBinding(s: State, e: Event, p: nat)
    requires Inv(s) && Enabled(s, e) && p < |s.pages| && s.pages[p].pins > 0
    ensures p < |Next(s, e).pages|
    ensures Binding(Next(s, e), p) == Binding(s, p)
    ensures !(e.Write? && e.p == p) ==> Next(s, e).pages[p].data == s.pages[p].data
  {
    var r := Next(s, e);
    NextInv(s, e);
    match e
    case Fetch(st, id, mode, io) => PinsBinding(s, st, id, mode, io, p);
    case Alloc(io) => AllocTheorem(s, io); SameBinding(s, r, p);
    case Modify(t, q) =>
      if p == q && s.pages[p].owner != Some(t) { MovedBinding(s, r, p, t); } else { SameBinding(s, r, p); }
    case CommitTxn(t) => if !s.txns[t].closed { CommitBinding(s, t, p); }
    case RollbackTxn(t) => if !s.txns[t].closed { RollbackBinding(s, t, p); }
    case CloseSt(st, fails) =>
      assert StoreLife(s, st);
      if s.stores[st].phase == Open { CloseBinding(s, st, fails, p); }
    case _ => SameBinding(s, r, p);
  }

  lemma RollbackBinding(s: State, t: nat, p: nat)
    requires Inv(s) && Enabled(s, RollbackTxn(t)) && !s.txns[t].closed && p < |s.pages| && s.pages[p].pins > 0
    ensures var r := Next(s, RollbackTxn(t));
      p < |r.pages| && Binding(r, p) == Binding(s, p) && r.pages[p].data == s.pages[p].data
  {
    RollbackTheorem(s, t);
    ReleasedBinding(s, Next(s, RollbackTxn(t)), EntriesOf(s, {t}), {}, p);
  }

  lemma CloseBinding(s: State, st: nat, fails: set<nat>, p: nat)
    requires Inv(s) && Enabled(s, CloseSt(st, fails)) && s.stores[st].phase == Open
    requires p < |s.pages| && s.pages[p].pins > 0
    ensures var r := Next(s, CloseSt(st, fails));
      p < |r.pages| && Binding(r, p) == Binding(s, p) && r.pages[p].data == s.pages[p].data
  {
    assert StoreLife(s, st);
    CloseStoreTheorem(s, st, fails);
    ReleasedBinding(s, Next(s, CloseSt(st, fails)), StoreEntries(s, st), fails, p);
  }

  lemma PinsBinding(s: State, st: nat, id: nat, mode: FetchMode, io: Io, p: nat)
    requires Inv(s) && Enabled(s, Fetch(st, id, mode, io)) && p < |s.pages| && s.pages[p].pins > 0
    ensures var r := StorePage(s, st, id, mode, io).0;
      p < |r.pages| && Binding(r, p) == Binding(s, p) && r.pages[p].data == s.pages[p].data
  {
    StorePageTheorem(s, st, id, mode, io);
    var (r, _, x) := StorePage(s, st, id, mode, io);
    if (st, id) in s.pageMap {
      FetchCached(s, st, id, mode, io);
    } else {
      FetchMissing(s, st, id, mode, io);
    }
    SameBinding(s, r, p);
  }

  lemma CommitBinding(s: State, t: nat, p: nat)
    requires Inv(s) && Enabled(s, CommitTxn(t)) && !s.txns[t].closed && p < |s.pages|
    ensures var r := Commit(s, t).0;
      p < |r.pages| && Binding(r, p) == Binding(s, p) && r.pages[p].data == s.pages[p].data
  {
    CommitTheorem(s, t);
    CommitTables(s, t);
    var r := Commit(s, t).0;
    assert PageCommitted(s, r, t, 0, p) && PageOk(s, p);
    assert StoreOk(s.txns, s.stores, s.txns[t].store);
    if s.pages[p].owner == Some(t) { MovedBinding(s, r, p, InitOf(s, t)); } else { SameBinding(s, r, p); }
  }

  /** The entry is pinned before every operation of the run. */
  ghost predicate Held(s: State, run: seq<Event>, p: nat)
    requires Inv(s) && Legal(s, run)
    decreases |run|
  {
    run == [] ||
    (p < |s.pages| && s.pages[p].pins > 0 &&
     (NextInv(s, run[0]); Held(Next(s, run[0]), run[1..], p)))
  }

  /** As long as an entry is pinned, it stays bound to the same store page,
      whatever else the pool is used for. */
  lemma {:induction false} PinSafety(s: State, run: seq<Event>, p: nat)
    requires Inv(s) && Legal(s, run) && Held(s, run, p)
    ensures Binding(After(s, run), p) == Binding(s, p)
    decreases |run|
  {
    if run != [] {
      NextInv(s, run[0]);
      StepBinding(s, run[0], p);
      PinSafety(Next(s, run[0]), run[1..], p);
    }
  }
}
