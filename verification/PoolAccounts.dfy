/** What adds up over a run: the pins of an entry, and the ends of a transaction. */
module PoolAccounts {
  import opened Bytes
  import opened Lists
  import opened StatusCodes
  import opened PoolModel
  import opened PoolOps
  import opened PoolClose
  import opened PoolCommit
  import opened PoolFetch
  import opened PoolRuns
  import opened FetchEffects

  // ---------------------------------------------------------------------
  // Pins

  /** How many pins of the entry a caller gets from an operation, or gives back. */
  ghost function PinChange(s: State, e: Event, p: nat): int
    requires Inv(s) && Enabled(s, e)
  {
    match e
    case Fetch(st, id, mode, io) => if StorePage(s, st, id, mode, io).2 == Some(p) then 1 else 0
    case Alloc(io) => if AllocPage(s, io).1 == Some(p) then 1 else 0
    case PinAgain(q) => if q == p then 1 else 0
    case Release(q, _) => if q == p then -1 else 0
    case ReleaseUnassigned(q) => if q == p then -1 else 0
    case _ => 0
  }

  lemma CommitPins(s: State, t: nat, p: nat)
    requires Inv(s) && t < |s.txns| && !s.txns[t].isInit && !s.txns[t].closed
    ensures PinsOf(Commit(s, t).0, p) == PinsOf(s, p)
  {
    CommitTheorem(s, t);
    if p < |s.pages| { assert PageCommitted(s, Commit(s, t).0, t, 0, p); }
  }

  lemma ReleasedPins(s: State, r: State, gone: set<nat>, fails: set<nat>, p: nat)
    requires Released(s, r, gone, fails) && forall q :: q in gone && q < |s.pages| ==> s.pages[q].pins == 0
    ensures PinsOf(r, p) == PinsOf(s, p)
  {
    if p < |s.pages| { assert PageReleased(s, r, gone, p); }
  }

  /** The pins of an entry are those that callers hold: committing, rolling back,
      closing stores and evicting leave them alone. */
  lemma NextPins(s: State, e: Event, p: nat)
    requires Inv(s) && Enabled(s, e)
    ensures PinsOf(Next(s, e), p) == PinsOf(s, p) + PinChange(s, e, p)
  {
    match e
    case Fetch(st, id, mode, io) => FetchPins(s, st, id, mode, io, p);
    case Alloc(io) => AllocPins(s, io, p);
    case CommitTxn(t) => if !s.txns[t].closed { CommitPins(s, t, p); }
    case RollbackTxn(t) =>
      if !s.txns[t].closed {
        RollbackTheorem(s, t);
        ReleasedPins(s, Next(s, e), EntriesOf(s, {t}), {}, p);
      }
    case CloseSt(st, fails) =>
      assert StoreLife(s, st);
      if s.stores[st].phase == Open {
        CloseStoreTheorem(s, st, fails);
        ReleasedPins(s, Next(s, e), StoreEntries(s, st), fails, p);
      }
    case _ =>
  }

  ghost function PinBalance(s: State, run: seq<Event>, p: nat): int
    requires Inv(s) && Legal(s, run)
    decreases |run|
  {
    if run == [] then 0
    else NextInv(s, run[0]); PinChange(s, run[0], p) + PinBalance(Next(s, run[0]), run[1..], p)
  }

  /** Over any run, the pins of an entry change by those that callers got and gave
      back, so that an entry stays pinned exactly until its last pin is given back. */
  lemma {:induction false} PinsAddUp(s: State, run: seq<Event>, p: nat)
    requires Inv(s) && Legal(s, run)
    ensures PinsOf(After(s, run), p) == PinsOf(s, p) + PinBalance(s, run, p)
    decreases |run|
  {
    if run != [] {
      NextInv(s, run[0]);
      NextPins(s, run[0], p);
      PinsAddUp(Next(s, run[0]), run[1..], p);
    }
  }

  // ---------------------------------------------------------------------
  // The end of a transaction

  /** The operation commits or rolls back the transaction. */
  predicate Ends(e: Event, t: nat) {
    e == CommitTxn(t) || e == RollbackTxn(t)
  }

  /** What the operation reports. */
  ghost function Reported(s: State, e: Event): Status
    requires Inv(s) && Enabled(s, e) && (e.CommitTxn? || e.RollbackTxn?)
  {
    if e.CommitTxn? then Commit(s, e.t).1 else RollbackOpen(s, e.t).1
  }

  /** A commit or rollback closes an open transaction and reports success. On a
      closed one it does nothing and says so. */
  lemma EndReports(s: State, e: Event, t: nat)
    requires Inv(s) && Enabled(s, e) && Ends(e, t)
    ensures Reported(s, e) == if s.txns[t].closed then AlreadyClosed else Success
    ensures t < |Next(s, e).txns| && Next(s, e).txns[t].closed
    ensures s.txns[t].closed ==> Next(s, e) == s
  {
    if !s.txns[t].closed {
      if e.CommitTxn? { CommitTheorem(s, t); } else { RollbackTheorem(s, t); }
    }
  }

  /** The list of a store loses the transactions that end, and is empty once the
      store is closed. */
  ghost predicate StoreMoves(s: State, r: State, e: Event, y: nat) {
    && y < |s.stores| <= |r.stores| && r.stores[y].init == s.stores[y].init
    && (r.stores[y].phase == Open ==>
          && s.stores[y].phase == Open
          && forall t: nat :: t < |s.txns| ==> (t in r.stores[y].txns <==> t in s.stores[y].txns && !Ends(e, t)))
  }

  lemma LeftMoves(s: State, r: State, e: Event, t: nat, committed: bool, y: nat)
    requires Inv(s) && t < |s.txns| && y < |s.stores| && s.txns[t].store < |s.stores| && Ends(e, t)
    requires Left(s, r, t, committed)
    ensures StoreMoves(s, r, e, y)
  {
    var st := s.txns[t].store;
    assert StoreLife(s, st) && StoreLife(s, y);
    RemoveKeeps(s.stores[st].txns, t);
    assert r.stores[y].phase == s.stores[y].phase && r.stores[y].init == s.stores[y].init;
  }

  lemma NextMoves(s: State, e: Event, y: nat)
    requires Inv(s) && Enabled(s, e) && y < |s.stores|
    ensures StoreMoves(s, Next(s, e), e, y) && SameStores(s, Next(s, e))
  {
    match e
    case Fetch(st, id, mode, io) => FetchMoves(s, st, id, mode, io, y);
    case Alloc(io) => AllocMoves(s, io, y);
    case CommitTxn(t) => EndMoves(s, e, t, y);
    case RollbackTxn(t) => EndMoves(s, e, t, y);
    case CloseSt(st, fails) => CloseMoves(s, st, fails, y);
    case _ =>
  }

  lemma FetchMoves(s: State, st: nat, id: nat, mode: FetchMode, io: Io, y: nat)
    requires CanFetch(s, st, id, io) && y < |s.stores|
    ensures var r := StorePage(s, st, id, mode, io).0;
      StoreMoves(s, r, Fetch(st, id, mode, io), y) && SameStores(s, r)
  {
    FetchStores(s, st, id, mode, io);
    FetchTables(s, st, id, mode, io);
  }

  lemma AllocMoves(s: State, io: Io, y: nat)
    requires Inv(s) && EvictionSafe(s, io) && y < |s.stores|
    ensures var r := AllocPage(s, io).0; StoreMoves(s, r, Alloc(io), y) && SameStores(s, r)
  {
    AllocTheorem(s, io);
  }

  lemma EndMoves(s: State, e: Event, t: nat, y: nat)
    requires Inv(s) && Enabled(s, e) && y < |s.stores| && Ends(e, t)
    ensures StoreMoves(s, Next(s, e), e, y) && SameStores(s, Next(s, e))
  {
    if s.txns[t].closed {
      assert StoreLife(s, y);
    } else if e.CommitTxn? {
      CommitTheorem(s, t);
      LeftMoves(s, Next(s, e), e, t, true, y);
    } else {
      RollbackTheorem(s, t);
      LeftMoves(s, Next(s, e), e, t, s.txns[t].committed, y);
    }
  }

  lemma CloseMoves(s: State, st: nat, fails: set<nat>, y: nat)
    requires Inv(s) && Enabled(s, CloseSt(st, fails)) && y < |s.stores|
    ensures var r := Next(s, CloseSt(st, fails)); StoreMoves(s, r, CloseSt(st, fails), y) && SameStores(s, r)
  {
    assert StoreLife(s, st);
    if s.stores[st].phase == Open { CloseStoreTheorem(s, st, fails); }
  }

  /** A transaction that is not init, of a store that is or was open. */
  ghost predicate Running(s: State, t: nat) {
    t < |s.txns| && !s.txns[t].isInit && !s.txns[t].closed
  }

  ghost predicate StoreOpen(s: State, t: nat) {
    t < |s.txns| && s.txns[t].store < |s.stores| && s.stores[s.txns[t].store].phase == Open
  }

  /** Running transactions are those that their open store lists. */
  lemma RunningMeans(s: State, t: nat)
    requires Inv(s) && t < |s.txns| && !s.txns[t].isInit
    ensures TxnOk(s.txns, s.stores, t)
    ensures Running(s, t) <==> StoreOpen(s, t) && t in s.stores[s.txns[t].store].txns
  {
    assert TxnOk(s.txns, s.stores, t) && StoreLife(s, s.txns[t].store);
  }

  /** An operation ends a running transaction if and only if it commits it, rolls it
      back, or closes its store. No operation makes a closed one run again. */
  lemma NextRunning(s: State, e: Event, t: nat)
    requires Inv(s) && Enabled(s, e) && t < |s.txns| && !s.txns[t].isInit
    ensures var r := Next(s, e);
      && t < |r.txns| && !r.txns[t].isInit && r.txns[t].store == s.txns[t].store
      && (StoreOpen(r, t) ==> StoreOpen(s, t))
      && (Running(r, t) <==> Running(s, t) && !Ends(e, t) && StoreOpen(r, t))
  {
    NextInv(s, e);
    var r := Next(s, e);
    RunningMeans(s, t);
    NextMoves(s, e, s.txns[t].store);
    assert TxnOk(r.txns, r.stores, t);
    RunningMeans(r, t);
  }

  /** A new transaction runs, owns nothing, and is the last one in the list of its
      store, in which all are in the order of their creation. */
  lemma BeginRuns(s: State, st: nat)
    requires Inv(s) && Enabled(s, Begin(st))
    ensures var r := Next(s, Begin(st)); var t := |s.txns|;
      && Inv(r) && Running(r, t) && r.txns[t].store == st && r.lists[t] == []
      && r.stores[st].txns == s.stores[st].txns + [t] && Increasing(r.stores[st].txns)
      && forall x :: 0 <= x < |s.stores| && x != st ==> r.stores[x] == s.stores[x]
  {
    NextInv(s, Begin(st));
    var r := Next(s, Begin(st));
    assert TxnOk(r.txns, r.stores, |s.txns|) && StoreLife(r, st);
  }

  /** A new store is open, has no transaction but init, which owns nothing, and its
      pages are the blocks of its data file. */
  lemma OpenedStore(s: State, disk: map<nat, Block>)
    requires Inv(s) && Enabled(s, OpenStore(disk))
    ensures var r := Next(s, OpenStore(disk)); var st := |s.stores|;
      && Inv(r) && |r.stores| == st + 1 && r.stores[st].phase == Open && r.stores[st].txns == []
      && r.stores[st].init == |s.txns| < |r.txns| == |r.lists| && r.lists[|s.txns|] == []
      && st < |r.disks| && (forall id: nat :: View(r, (st, id)) == BlockOf(disk, id, s.pageSize))
      && (forall x :: 0 <= x < st ==> r.stores[x] == s.stores[x])
  {
    AddStoreInv(s, disk);
  }

  /** The run commits or rolls back the transaction. */
  predicate EndedIn(run: seq<Event>, t: nat) {
    exists i :: 0 <= i < |run| && Ends(run[i], t)
  }

  lemma EndedNext(run: seq<Event>, t: nat)
    requires run != []
    ensures EndedIn(run, t) <==> Ends(run[0], t) || EndedIn(run[1..], t)
  {
    if EndedIn(run[1..], t) {
      var i :| 0 <= i < |run[1..]| && Ends(run[1..][i], t);
      assert Ends(run[i + 1], t);
    }
    if EndedIn(run, t) && !Ends(run[0], t) {
      var i :| 0 <= i < |run| && Ends(run[i], t);
      assert Ends(run[1..][i - 1], t);
    }
  }

  lemma {:induction false} RunRunning(s: State, run: seq<Event>, t: nat)
    requires Inv(s) && Legal(s, run) && t < |s.txns| && !s.txns[t].isInit
    ensures var r := After(s, run);
      && t < |r.txns| && !r.txns[t].isInit
      && (StoreOpen(r, t) ==> StoreOpen(s, t))
      && (Running(r, t) <==> Running(s, t) && !EndedIn(run, t) && StoreOpen(r, t))
    decreases |run|
  {
    if run != [] {
      NextInv(s, run[0]);
      NextRunning(s, run[0], t);
      EndedNext(run, t);
      RunRunning(Next(s, run[0]), run[1..], t);
    } else {
      RunningMeans(s, t);
    }
  }

  /** Of all commits and rollbacks of a running transaction in a run, the first one
      reports success, unless the store was closed before, and all others report
      that the transaction is closed. */
  lemma FirstEndSucceeds(s: State, before: seq<Event>, e: Event, after: seq<Event>, t: nat)
    requires Inv(s) && Legal(s, before + ([e] + after)) && Running(s, t) && Ends(e, t)
    ensures Legal(s, before) && Inv(After(s, before)) && Enabled(After(s, before), e)
    ensures var m := After(s, before);
      Reported(m, e) == if !EndedIn(before, t) && StoreOpen(m, t) then Success else AlreadyClosed
  {
    var rest := [e] + after;
    RunSplit(s, before, rest);
    assert rest[0] == e;
    RunRunning(s, before, t);
    EndReports(After(s, before), e, t);
  }
}
