/** Small states in which a failed write-back leads to what the source rules out. */
module PoolExamples {
  import opened Bytes
  import opened Lists
  import opened StatusCodes
  import opened PoolModel
  import opened PoolOps
  import opened PoolClose
  import opened PoolReentry
  import opened PoolFetch
  import opened PoolRuns
  import opened PoolFiles

  /** A pool with one entry, of c it may have, which caches page id of the only store.
      The entry is dirty, because transaction 1 modified it, and not pinned. */
  ghost function OneDirtyPage(c: nat, id: nat, data: Block): State {
    State(c, |data|, [PageRec(Some(1), id, 0, true, data, false, 1)], [[], [0]], [map[]],
          [TxnRec(0, true, false, false), TxnRec(0, false, false, false)], [StoreRec(0, [1], Open)],
          map[(0, id) := 0], [], [0], 1)
  }

  lemma OneDirtyPageInv(c: nat, id: nat, data: Block)
    requires c > 0
    ensures Inv(OneDirtyPage(c, id, data))
  {
    var s := OneDirtyPage(c, id, data);
    assert Assigned(s, 0) && KeyOf(s, 0) == (0, id);
    assert PageOk(s, 0);
    assert ListOk(s, 0) && ListOk(s, 1);
    assert LruAt(s, 0);
    assert StoreLife(s, 0);
  }

  // The states on the way there from an empty pool: a store is opened, a
  // transaction begins, page id is fetched, modified, written and released.

  ghost function WithStore(c: nat, n: nat): State {
    State(c, n, [], [[]], [map[]], [TxnRec(0, true, false, false)], [StoreRec(0, [], Open)], map[], [], [], 0)
  }

  ghost function WithTxn(c: nat, n: nat): State {
    State(c, n, [], [[], []], [map[]], [TxnRec(0, true, false, false), TxnRec(0, false, false, false)],
          [StoreRec(0, [1], Open)], map[], [], [], 0)
  }

  ghost function WithPage(c: nat, n: nat, page: PageRec, lists: seq<seq<nat>>): State {
    WithTxn(c, n).(pages := [page], lists := lists, pageMap := map[(0, page.id) := 0])
  }

  lemma StoreOpened(c: nat, n: nat)
    ensures Inv(Empty(c, n)) && Enabled(Empty(c, n), OpenStore(map[]))
    ensures Next(Empty(c, n), OpenStore(map[])) == WithStore(c, n) && Inv(WithStore(c, n))
  {
    EmptyInv(c, n);
    NextInv(Empty(c, n), OpenStore(map[]));
  }

  lemma TxnBegun(c: nat, n: nat)
    ensures Inv(WithStore(c, n)) && Enabled(WithStore(c, n), Begin(0))
    ensures Next(WithStore(c, n), Begin(0)) == WithTxn(c, n) && Inv(WithTxn(c, n))
  {
    StoreOpened(c, n);
    NextInv(WithStore(c, n), Begin(0));
    var s, r := WithStore(c, n), Next(WithStore(c, n), Begin(0));
    assert s.stores[0].txns + [|s.txns|] == [1];
    assert r.stores == WithTxn(c, n).stores && r.lists == WithTxn(c, n).lists && r.txns == WithTxn(c, n).txns;
  }

  ghost function FetchEvent(id: nat): Event {
    Fetch(0, id, FetchPageData, Io(Success, true, {}))
  }

  ghost function CleanPage(n: nat, id: nat): PageRec {
    PageRec(Some(0), id, 1, false, Filled(n, 0), false, 0)
  }

  lemma PageFetched(c: nat, n: nat, id: nat)
    requires c > 0
    ensures Inv(WithTxn(c, n)) && Enabled(WithTxn(c, n), FetchEvent(id))
    ensures Next(WithTxn(c, n), FetchEvent(id)) == WithPage(c, n, CleanPage(n, id), [[0], []])
    ensures Inv(WithPage(c, n, CleanPage(n, id), [[0], []]))
  {
    TxnBegun(c, n);
    NextInv(WithTxn(c, n), FetchEvent(id));
    assert [] + [0] == [0];
  }

  lemma PageModified(c: nat, n: nat, id: nat)
    requires c > 0
    ensures var s := WithPage(c, n, CleanPage(n, id), [[0], []]);
      var r := WithPage(c, n, CleanPage(n, id).(owner := Some(1), dirty := true), [[], [0]]);
      Inv(s) && Enabled(s, Modify(1, 0)) && Next(s, Modify(1, 0)) == r && Inv(r)
  {
    PageFetched(c, n, id);
    var s := WithPage(c, n, CleanPage(n, id), [[0], []]);
    NextInv(s, Modify(1, 0));
    assert Remove([0], 0) == [];
  }

  lemma PageWritten(c: nat, id: nat, data: Block)
    requires c > 0
    ensures var n := |data|;
      var s := WithPage(c, n, CleanPage(n, id).(owner := Some(1), dirty := true), [[], [0]]);
      var r := WithPage(c, n, PageRec(Some(1), id, 1, true, data, false, 0), [[], [0]]);
      Inv(s) && Enabled(s, Write(0, data)) && Next(s, Write(0, data)) == r && Inv(r)
  {
    var n := |data|;
    PageModified(c, n, id);
    NextInv(WithPage(c, n, CleanPage(n, id).(owner := Some(1), dirty := true), [[], [0]]), Write(0, data));
  }

  lemma PageReleasedAgain(c: nat, id: nat, data: Block)
    requires c > 0
    ensures var s := WithPage(c, |data|, PageRec(Some(1), id, 1, true, data, false, 0), [[], [0]]);
      Inv(s) && Enabled(s, Release(0, CachePage)) && Next(s, Release(0, CachePage)) == OneDirtyPage(c, id, data)
  {
    PageWritten(c, id, data);
  }

  ghost function ToOneDirtyPage(id: nat, data: Block): seq<Event> {
    [OpenStore(map[]), Begin(0), FetchEvent(id), Modify(1, 0), Write(0, data), Release(0, CachePage)]
  }

  lemma OneMore(s: State, run: seq<Event>, m: State, last: State)
    requires run != [] && Inv(s) && Enabled(s, run[0]) && Next(s, run[0]) == m
    requires Inv(m) && Legal(m, run[1..]) && After(m, run[1..]) == last
    ensures Legal(s, run) && After(s, run) == last
  {
  }

  /** The state is reached by a legal run from an empty pool. */
  lemma OneDirtyPageReached(c: nat, id: nat, data: Block)
    requires c > 0
    ensures Inv(Empty(c, |data|)) && Legal(Empty(c, |data|), ToOneDirtyPage(id, data))
    ensures After(Empty(c, |data|), ToOneDirtyPage(id, data)) == OneDirtyPage(c, id, data)
  {
    var n, last, run := |data|, OneDirtyPage(c, id, data), ToOneDirtyPage(id, data);
    OneDirtyPageInv(c, id, data);
    PageReleasedAgain(c, id, data);
    OneMore(WithPage(c, n, PageRec(Some(1), id, 1, true, data, false, 0), [[], [0]]), run[5..], last, last);
    PageWritten(c, id, data);
    OneMore(WithPage(c, n, CleanPage(n, id).(owner := Some(1), dirty := true), [[], [0]]), run[4..],
            WithPage(c, n, PageRec(Some(1), id, 1, true, data, false, 0), [[], [0]]), last);
    PageModified(c, n, id);
    OneMore(WithPage(c, n, CleanPage(n, id), [[0], []]), run[3..],
            WithPage(c, n, CleanPage(n, id).(owner := Some(1), dirty := true), [[], [0]]), last);
    PageFetched(c, n, id);
    OneMore(WithTxn(c, n), run[2..], WithPage(c, n, CleanPage(n, id), [[0], []]), last);
    TxnBegun(c, n);
    OneMore(WithStore(c, n), run[1..], WithTxn(c, n), last);
    StoreOpened(c, n);
    OneMore(Empty(c, n), run, WithStore(c, n), last);
  }

  /** Another entry, which caches page other and was modified and released later. */
  ghost function TwoDirtyPages(id: nat, data: Block, other: nat, more: Block): State {
    OneDirtyPage(2, id, data).(
      pages := [PageRec(Some(1), id, 0, true, data, false, 1), PageRec(Some(1), other, 0, true, more, false, 2)],
      lists := [[], [0, 1]], pageMap := map[(0, id) := 0, (0, other) := 1], lru := [0, 1], clock := 2)
  }

  // The states on the way there from one dirty page.

  ghost function WithSecond(id: nat, data: Block, page: PageRec, lists: seq<seq<nat>>): State {
    OneDirtyPage(2, id, data).(
      pages := [PageRec(Some(1), id, 0, true, data, false, 1), page],
      lists := lists, pageMap := map[(0, id) := 0, (0, page.id) := 1])
  }

  lemma SecondFetched(id: nat, data: Block, other: nat)
    requires id != other
    ensures var s := OneDirtyPage(2, id, data); var r := WithSecond(id, data, CleanPage(|data|, other), [[1], [0]]);
      Inv(s) && Enabled(s, FetchEvent(other)) && Next(s, FetchEvent(other)) == r && Inv(r)
  {
    OneDirtyPageInv(2, id, data);
    var s := OneDirtyPage(2, id, data);
    NextInv(s, FetchEvent(other));
    assert s.lists[0] + [1] == [1];
  }

  lemma SecondModified(id: nat, data: Block, other: nat)
    requires id != other
    ensures var s := WithSecond(id, data, CleanPage(|data|, other), [[1], [0]]);
      var r := WithSecond(id, data, CleanPage(|data|, other).(owner := Some(1), dirty := true), [[], [0, 1]]);
      Inv(s) && Enabled(s, Modify(1, 1)) && Next(s, Modify(1, 1)) == r && Inv(r)
  {
    SecondFetched(id, data, other);
    NextInv(WithSecond(id, data, CleanPage(|data|, other), [[1], [0]]), Modify(1, 1));
    assert Remove([1], 1) == [] && [0] + [1] == [0, 1];
  }

  lemma SecondWritten(id: nat, data: Block, other: nat, more: Block)
    requires id != other && |more| == |data|
    ensures var s := WithSecond(id, data, CleanPage(|data|, other).(owner := Some(1), dirty := true), [[], [0, 1]]);
      var r := WithSecond(id, data, PageRec(Some(1), other, 1, true, more, false, 0), [[], [0, 1]]);
      Inv(s) && Enabled(s, Write(1, more)) && Next(s, Write(1, more)) == r && Inv(r)
  {
    SecondModified(id, data, other);
    NextInv(WithSecond(id, data, CleanPage(|data|, other).(owner := Some(1), dirty := true), [[], [0, 1]]),
            Write(1, more));
  }

  lemma SecondReleased(id: nat, data: Block, other: nat, more: Block)
    requires id != other && |more| == |data|
    ensures var s := WithSecond(id, data, PageRec(Some(1), other, 1, true, more, false, 0), [[], [0, 1]]);
      && Inv(s) && Enabled(s, Release(1, CachePage))
      && Next(s, Release(1, CachePage)) == TwoDirtyPages(id, data, other, more)
      && Inv(TwoDirtyPages(id, data, other, more))
  {
    SecondWritten(id, data, other, more);
    NextInv(WithSecond(id, data, PageRec(Some(1), other, 1, true, more, false, 0), [[], [0, 1]]),
            Release(1, CachePage));
    assert [0] + [1] == [0, 1];
  }

  /** The state is reached from the one with one dirty page, and so from an empty pool. */
  lemma TwoDirtyPagesReached(id: nat, data: Block, other: nat, more: Block)
    requires id != other && |more| == |data|
    ensures var s := OneDirtyPage(2, id, data);
      var run := [FetchEvent(other), Modify(1, 1), Write(1, more), Release(1, CachePage)];
      Inv(s) && Legal(s, run) && After(s, run) == TwoDirtyPages(id, data, other, more)
  {
    var last := TwoDirtyPages(id, data, other, more);
    var run := [FetchEvent(other), Modify(1, 1), Write(1, more), Release(1, CachePage)];
    SecondReleased(id, data, other, more);
    OneMore(WithSecond(id, data, PageRec(Some(1), other, 1, true, more, false, 0), [[], [0, 1]]), run[3..], last, last);
    SecondWritten(id, data, other, more);
    OneMore(WithSecond(id, data, CleanPage(|data|, other).(owner := Some(1), dirty := true), [[], [0, 1]]), run[2..],
            WithSecond(id, data, PageRec(Some(1), other, 1, true, more, false, 0), [[], [0, 1]]), last);
    SecondModified(id, data, other);
    OneMore(WithSecond(id, data, CleanPage(|data|, other), [[1], [0]]), run[1..],
            WithSecond(id, data, CleanPage(|data|, other).(owner := Some(1), dirty := true), [[], [0, 1]]), last);
    SecondFetched(id, data, other);
    OneMore(OneDirtyPage(2, id, data), run, WithSecond(id, data, CleanPage(|data|, other), [[1], [0]]), last);
  }

  /** Rolling back transaction 1 on its own, when the first of its two entries cannot be
      written, closes the store and then writes the second one through its closed file. */
  lemma RollbackWritesClosedFile(id: nat, data: Block, other: nat, more: Block)
    requires id != other && |more| == |data|
    ensures var s := TwoDirtyPages(id, data, other, more);
      && Inv(s) && InTable(MarkClosed(s, 1), s.lists[1]) && Ending(PinAll(MarkClosed(s, 1), s.lists[1]), 1)
      && RestClosed(PinAll(MarkClosed(s, 1), s.lists[1]), 1, {0})
  {
    SecondReleased(id, data, other, more);
    var s := TwoDirtyPages(id, data, other, more);
    RollbackUsesClosed(s, 1, {0});
    assert s.lists[1][0] in {0};
  }

  /** Rolling back transaction 1 on its own, when its entry cannot be written,
      calls TransactionClosed on a closed store. */
  lemma RollbackMeetsClosedStore(c: nat, id: nat, data: Block)
    requires c > 0
    ensures var s := OneDirtyPage(c, id, data);
      Inv(s) && Closable(s, 0) && StorePhase(s, 1) == Open && |ReleaseEntries(s, 1, {0}).txns| == 2
    ensures var r := ReleaseEntries(OneDirtyPage(c, id, data), 1, {0});
      r.txns[1].store < |r.stores| && StorePhase(r, 1) == Closed
  {
    var s := OneDirtyPage(c, id, data);
    OneDirtyPageInv(c, id, data);
    DirectRollback(s, 1, {0});
    assert 0 in EntriesOf(s, {1});
  }

  /** Fetching another page of the store for overwriting evicts the entry, and with
      it closes the store; the fetch succeeds and leaves the entry to the closed
      store. */
  lemma FetchIntoClosedStore(id: nat, data: Block, other: nat)
    requires other != id
    ensures var s := OneDirtyPage(1, id, data); var io := Io(Success, false, {});
      && Inv(s) && EvictionSafe(s, io) && s.stores[0].phase == Open
      && var (r, status, p) := StorePage(s, 0, other, IgnorePageData, io);
         status == Success && !Inv(r)
  {
    var s, io := OneDirtyPage(1, id, data), Io(Success, false, {});
    EvictsItself(id, data, other);
    AllocTheorem(s, io);
    FetchFromStoreItCloses(s, 0, other, IgnorePageData, io);
  }

  lemma EvictsItself(id: nat, data: Block, other: nat)
    requires other != id
    ensures var s := OneDirtyPage(1, id, data); var io := Io(Success, false, {});
      Inv(s) && EvictionSafe(s, io) && ClosesItself(s, 0, other, io)
  {
    var s := OneDirtyPage(1, id, data);
    OneDirtyPageInv(1, id, data);
    assert Assigned(s, 0) && KeyOf(s, 0) == (0, id);
  }

  /** Fetching the other page with its data reads it through the closed file. */
  lemma FetchReadsClosedFile(id: nat, data: Block, other: nat)
    requires other != id
    ensures var s := OneDirtyPage(1, id, data);
      Inv(s) && ReadsClosed(s, 0, other, FetchPageData, Io(Success, false, {}))
  {
    EvictsItself(id, data, other);
    FetchReadsClosed(OneDirtyPage(1, id, data), 0, other, FetchPageData, Io(Success, false, {}));
  }
}
