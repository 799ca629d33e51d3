# The page layer of BerryDB

A Dafny model of BerryDB's page layer, and proofs about it: the page pool (a
pinning, write-back page cache shared by stores and transactions), the ownership
of cached pages by transactions, the life of stores, the free page list that is
stored inside the free pages, the intrusive list that all of them use, and the
store header. The model is of the build in which `BERRYDB_CHECK_IS_ON()` holds.

`dafny verify dfyconfig.toml` checks the whole project.

## How the project is laid out

The page pool is described twice. `PoolModel.dfy` holds its state as a value:
page pool entries, transactions and stores are rows of tables, and the steps of
the source are functions on the state. `PoolSteps.dfy` to `PoolReentry.dfy` build
the operations from the steps, in the source's order, and prove what they do.
`PoolRuns.dfy` puts them together into a state machine, `PoolFiles.dfy` follows their
use of data files, `PoolAccounts.dfy` adds up pins and the ends of transactions over
runs, `PoolOrder.dfy` is about the order of lists, and `PoolLaws.dfy` says what the
reachable states are like; `FetchEffects.dfy` says what a fetch does to
stores other than the one it fetches from. `PageCache.dfy` is the same pool as an object
that is updated in place: entries are objects with a buffer of their own, loops
are loops, and closing a store and evicting an entry call each other. Every method
is specified by the operation of the value model, and `PagePool.Run` performs
every run of the state machine on the object.

The free page list is described twice as well. `FreeList.dfy` and
`FreeListMerge.dfy` give Push, Pop and Merge as functions on the bytes of pages;
`FreeListRuns.dfy` proves that they refine a stack. `FreeListImages.dfy` writes
lists into volumes and reads them back, for the small lists of
`FreeListExamples.dfy`, and `MergeIntoEmpty.dfy` is about Merge with an empty
receiver. `FreePageLists.dfy` is the class: it fetches pages from the page pool,
writes into their buffers and unpins them. `PageSession.dfy` and `PageAccess.dfy`
say what such an operation sees, `FetchRoom.dfy` when it finds the pool full, and
`ListsInPool.dfy` what happens to a list over whole runs.

`LinkedList.dfy` is the intrusive list on the heap, and `StoreHeader.dfy` the
header codec. `Bytes.dfy` and `Buffers.dfy` hold the 8-byte codec, as functions and
on arrays.

Input and output are parameters: `Io` says how a read ends, whether the write-back
of an evicted entry succeeds, and which entries cannot be written while a store
closes. During an operation of a free page list, `Files` says which stores refuse
write-backs; every fetch of the operation then gets the answer that follows from it.
The view of a store page is the buffer that caches it, or its block if
there is none. An entry that was fetched with kIgnorePageData is `stale` until its
pin holder announces a modification; the view ignores it until then. `stamp`
records when and how an entry lost its last pin, whether it went to the LRU list or
to the free list.

An entry may have no pin but the caller's when it is unassigned (`src/page.h:207`).
So a store may be closed, and a transaction rolled back, only if nobody else holds a
pin on their entries. `StoreIdle`, `Idle` and `EvictionSafe` say that of the
operations, and the methods of the page pool demand it: one pin in
`UnassignPageFromStore` and `LeaveTransaction`, `Idle` in `CloseTxn` and
`RollbackTxn`, `OpenIdle` in `CloseStore`, `EvictionSafe` in `AllocPage`.

## What the proofs say about the code

- The page pool behaves as the flat map of store pages that it caches, over every
  run in which no write-back to the store fails, whatever happens to other stores.
  Its invariants hold over every legal run, in which evictions and the closing of
  stores may fail to write. Legal runs leave out three things that the source does not
  forbid its callers and does not survive: a write that fails in a rollback, and an
  eviction that fails to write and so closes the store that is fetched from, or a
  store with pinned entries. For the first two the proofs say exactly what goes wrong.
  Legal runs do contain commits, rollbacks and Close on what is closed already.
- An entry that belongs to a transaction other than init is always dirty, which
  answers the question in the comment at `src/transaction_impl.h:163-166`.
- The free list of the pool is a queue: `src/page_pool.cc:54` appends and
  `src/page_pool.cc:84` takes from the front, although the comment above says LIFO.
  The model follows the code.
- Pop and Push check less than that the first field of the head page is an entry
  offset, as the comment at `src/free_page_list_format.h:129-138` intends. Pop lets 8
  pass, takes the field itself for an entry and hands out page 8. Push lets 0 and 8
  pass, where it overwrites the fields of the page, and takes everything beyond the
  page for a full page.
- Merge never stores the head of the chain of full pages
  (`src/free_page_list.cc:225-253`). The proofs give the exact condition under which
  no ID is lost, and show that a variant that stores it never loses one.
- Merge reports a full head page as corrupt, and may have changed a page by then.
- Merge may leave the receiver with a tail that is not its last page.
- Merging a list that has pages into an empty list reads the header page of the store
  as a list page. It reports data corruption, because the magic number at the start of
  the header is not an offset inside a page. A list with several pages is broken by
  then: its last page has the second magic number as its next page ID.
- Rollback writes what the transaction modified; it undoes nothing.
- A transaction that is rolled back on its own meets the demand of
  `src/store_impl.cc:242` exactly if all of its entries can be written.
- A fetch from an open store leaves an entry that is assigned to a closed store
  exactly if the page is not cached, its eviction has to write an entry of that very
  store and cannot, and the page is then read or need not be.
- `StoreImpl::Close` deallocates the data file, so nothing may use the file of a closed
  store. No legal run does. The fetch of the previous point does, exactly if it has to
  read its page. So does a transaction that is rolled back on its own, exactly if one
  of its entries, other than the last one of its list, cannot be written: the store is
  closed in the middle of the loop, which goes on to write the next entry.
- Close of an open store reports success whatever writes fail, as Rollback never
  reports an input or output error. The comment at `src/store_impl.cc:186-189`
  expects kIoError.
- The header that Bootstrap writes is rejected when it is read back.

## Model

| member | source | states |
|---|---|---|
| `Bytes.LoadStored` | src/util/endianness.h:24-52 | an 8-byte store is read back by a load at the same place, for every 64-bit value |
| `Bytes.LoadElsewhere` | src/util/endianness.h:24-52 | a store is invisible to a load of 8 other bytes |
| `Bytes.StoreLoaded` | src/util/endianness.h:24-52 | storing what was loaded changes no byte |
| `Bytes.LoadCopied` | src/util/span_util.h:48-55 | an integer inside the copied span moves with it |
| `Bytes.LoadNotCopied` | src/util/span_util.h:48-55 | an integer outside the overwritten span stays |
| `Buffers.StoreUint64` | src/util/endianness.h:45-52 | the loop over the 8 bytes leaves in the array what the codec says, and nothing else changes |
| `Buffers.LoadUint64` | src/util/endianness.h:24-31 | the loop over the 8 bytes computes the decoded value |
| `Buffers.CopySpan` | src/util/span_util.h:48-55 | the destination holds the span and its own bytes around it, also within one buffer, where std::copy allows it |
| `Buffers.FillSpan` | src/util/span_util.h:29-32 | every byte of the buffer has the given value |
| `LinkedLists.Node.InsertBefore` | src/util/linked_list.h:354-380 | the new node and its two neighbours are relinked, and the node knows its list |
| `LinkedLists.Node.Remove` | src/util/linked_list.h:385-402 | the neighbours are joined and the node is free for another list |
| `LinkedLists.LinkedList.Insert` | src/util/linked_list.h:119-128 | insertion before any position acts as on a sequence, and next and prev stay inverse all around the circle; every other list stays as it is |
| `LinkedLists.LinkedList.Erase` | src/util/linked_list.h:130-160 | erasing a node removes it from the sequence, keeps the circle and the size, and frees the node; every other list stays as it is |
| `LinkedLists.LinkedList.PushFront` | src/util/linked_list.h:162 | the node is first, before all others in their order; every other list stays as it is |
| `LinkedLists.LinkedList.PushBack` | src/util/linked_list.h:163 | the node is last, behind all others in their order; every other list stays as it is |
| `LinkedLists.LinkedList.PopFront` | src/util/linked_list.h:164 | the first node leaves and is free, the others keep their order; every other list stays as it is |
| `LinkedLists.LinkedList.PopBack` | src/util/linked_list.h:165 | the last node leaves and is free, the others keep their order; every other list stays as it is |
| `LinkedLists.LinkedList.Empty` | src/util/linked_list.h:104-106 | the test on the sentinel answers whether the sequence is empty |
| `LinkedLists.LinkedList.Move` | src/util/linked_list.h:95-98 | the new list has the nodes of the old one in order, each node knows its new sentinel, and the old list is valid and empty; every other list stays as it is |
| `LinkedLists.LinkedList.TakeLinks` | src/util/linked_list.h:279-299 | the circle is closed through the new sentinel and the old sentinel is alone |
| `LinkedLists.LinkedList.AdoptNodes` | src/util/linked_list.h:304-313 | the walk visits every node of the circle once and gives it the new sentinel |
| `LinkedLists.ListsApart` | src/util/linked_list.h:354-402 | two lists with different sentinels have no node in common, because every node names its sentinel |
| `LinkedLists.EraseThroughOneNode` | src/page.h:301-343 | taking a page off one list leaves the list that holds it through its other node as it is |
| `LinkedLists.MoveOneByOne` | src/transaction_impl.cc:139-153 | an iterator that moves on before the erasure visits every node once and appends all of them, in order, to the other list; every third list stays as it is |
| `PoolSteps.PinKeeps` | src/page_pool.cc:156-168 | pinning keeps every invariant of the pool and the view |
| `PoolSteps.UnpinKeeps` | src/page_pool.h:165-184 | unpinning keeps every invariant, the order of eviction among them, and the view |
| `PoolSteps.UnassignKeeps` | src/page_pool.cc:57-78 | detaching an entry keeps every invariant, and the view unless a write was needed and failed |
| `PoolSteps.AssignKeeps` | src/page_pool.cc:135-154 | assigning an entry to a page that is not cached keeps every invariant and the view |
| `PoolSteps.WillModifyKeeps` | src/transaction_impl.h:141-173 | announcing a modification moves the entry within its store and keeps every invariant |
| `PoolSteps.PersistKeeps` | src/transaction_impl.h:183-205 | writing an entry and handing it to init keeps every invariant and the view |
| `PoolSteps.ScribbleKeeps` | src/page.h:141-147 | overwriting the buffer of a dirty entry changes the view of its page, and of no other page |
| `PoolOps.ReleaseAllMeans` | src/transaction_impl.cc:109-114 | the loop of Close visits each entry of the transaction once: they leave the page map, become free, and are written if they are dirty and can be |
| `PoolOps.ReleaseAllLists` | src/transaction_impl.cc:109-114 | the entries join the end of the pool's free list in list order |
| `PoolClose.CloseStoreTheorem` | src/store_impl.cc:166-209 | closing an open store that has no outside pins goes through to Closed whatever writes fail: its transactions are closed and own nothing, the page map has no key for it, its entries are on the free list, no other store is touched, and without failures the view stays |
| `PoolClose.CloseStoreTables` | src/store_impl.cc:177-205 | exactly the transactions of the store are closed, and exactly their lists are emptied |
| `PoolClose.CloseStoreOrder` | src/store_impl.cc:166-209 | its entries become unused in this order: those of its running transactions, from the oldest to the newest, and then those of init, each in list order |
| `PoolReentry.CloseNested` | src/page_pool.cc:70-74 | a store that closes in the middle of the loop that closes one of its transactions leaves that transaction and its entries for the loop |
| `PoolReentry.ReleaseRestPhase` | src/transaction_impl.cc:97-118 | the loop of Close goes through its whole list in any phase of the store, and closes the store if and only if it is open and an entry cannot be written |
| `PoolReentry.ReleaseRestClosing` | src/store_impl.cc:166-175 | while the store is closing, re-entering Close for a failed write has no effect |
| `PoolReentry.DirectRollback` | src/store_impl.cc:235-247 | a transaction rolled back on its own finds its store not closed if and only if each of its entries can be written, and then nothing but the transaction is closed |
| `PoolFiles.RestUsesClosed` | src/transaction_impl.cc:109-114 | on an open store, the loop of Close writes through the closed data file if and only if an entry before the last one cannot be written |
| `PoolFiles.RollbackUsesClosed` | src/transaction_impl.cc:97-118 | so a rollback on its own does if and only if one of the transaction's entries, other than the last one of its list, cannot be written |
| `PoolFiles.CloseStays` | src/store_impl.cc:177-205 | no write of a closing store goes through a closed file, whatever writes fail |
| `PoolFiles.NoUseOfClosed` | src/store_impl.cc:202-233 | no operation whose demands are met reads or writes through the file of a closed store |
| `PoolFiles.RunUsesOpenFiles` | src/store_impl.cc:202-233 | and so no legal run does |
| `PoolExamples.OneDirtyPageReached` | src/page_pool.cc:45-222 | the state of the next example is reached from an empty pool by opening a store, beginning a transaction, and fetching, modifying, writing and releasing a page |
| `PoolExamples.RollbackMeetsClosedStore` | src/store_impl.cc:242 | a reachable state in which the demand that the store is not closed fails |
| `PoolExamples.TwoDirtyPagesReached` | src/page_pool.cc:45-222 | a state with two modified pages is reached from it by a further fetch, modification, write and release |
| `PoolExamples.RollbackWritesClosedFile` | src/transaction_impl.cc:109-114 | in that state, a rollback whose first write fails makes its second write through the closed file |
| `PoolCommit.CommitTheorem` | src/transaction_impl.cc:120-160 | with successful writes, every entry of the transaction ends clean, owned by init, equal to its block, with the pins it had; the view, the page map and the free list are unchanged; the transaction's list is empty |
| `PoolCommit.CommitAllMeans` | src/transaction_impl.cc:139-153 | the loop of Commit visits each entry of the transaction once, although it erases it, and no other entry |
| `PoolCommit.RollbackTheorem` | src/transaction_impl.cc:162-167 | rolling back frees the entries of the transaction and undoes nothing: what it wrote stays visible and is on disk |
| `PoolAccounts.EndReports` | src/transaction_impl.cc:120-167 | a commit or rollback closes an open transaction and reports success; on a closed one it reports kAlreadyClosed and changes nothing |
| `PoolAccounts.NextRunning` | src/transaction_impl.cc:97-167 | an operation ends a running transaction if and only if it commits it, rolls it back, or closes its store; no operation makes a closed one run again |
| `PoolAccounts.FirstEndSucceeds` | src/transaction_impl.cc:120-167 | over every legal run, of all commits and rollbacks of one transaction exactly the first reports success, unless its store was closed before it, and all others report kAlreadyClosed |
| `PoolAccounts.NextPins` | src/page_pool.h:165-184 | an operation adds to the pins of an entry exactly those that its caller gets or gives back: one for a fetch or allocation that hands it out, one less for an unpin in either mode; commits, rollbacks, closing and evicting leave the pins of others alone |
| `PoolAccounts.PinsAddUp` | src/page_pool.h:165-184 | so after every legal run an entry has the pins that callers got and have not given back |
| `PoolOrder.FetchAppends` | src/transaction_impl.h:100-107 | a fetched page joins the end of init's list, and no other list changes after the allocation |
| `PoolOrder.ModifyAppends` | src/transaction_impl.h:141-173 | a page modified for the first time leaves init's list and joins the end of the transaction's list |
| `PoolOrder.CommitAppends` | src/transaction_impl.cc:139-153 | the pages of a committed transaction join the end of init's list in their order |
| `PoolOrder.CommitEviction` | src/transaction_impl.cc:139-153 | a committed page that nobody holds is evicted after every unpinned page of other transactions and after those before it in the list; one that somebody holds keeps its place |
| `PoolFetch.AllocTheorem` | src/page_pool.cc:80-107 | allocation fails if and only if the pool has all the entries it may have and every one is pinned; otherwise it hands out an unassigned entry that nobody else has pinned, no pinned entry changes, and the view changes only if a failed write-back closes a store |
| `PoolFetch.StorePageTheorem` | src/page_pool.cc:183-222 | the status is determined by the cache, the pins and the read; on success the caller has one more pin on the entry that caches the page, with the page's contents; on failure nothing that is pinned changed; the invariants hold either way |
| `PoolFetch.FetchKeepsInvariant` | src/page_pool.cc:183-222 | a fetch from an open store keeps the invariant unless the page is not cached, the eviction closes that very store, and the page is read successfully or need not be read; then and only then it breaks it |
| `PoolFiles.FetchReadsClosed` | src/store_impl.cc:202-221 | a fetch from an open store reads through a closed data file if and only if its eviction closes that very store and the page has to be read |
| `PoolFiles.FetchWithOpenFile` | src/page_pool.cc:183-222 | a fetch that reads through no closed file keeps the invariant if and only if its eviction does not close the store it fetches from |
| `FetchEffects.FetchTables` | src/page_pool.cc:183-222 | a fetch changes no transaction and no field of its own store, and any other store is as it was or is closed |
| `FetchEffects.FetchView` | src/page_pool.cc:183-222 | a fetch changes no page of a store that its eviction does not close |
| `PoolExamples.FetchIntoClosedStore` | src/page_pool.cc:204-222 | a reachable state in which a fetch for overwriting succeeds and leaves an entry to a closed store |
| `PoolExamples.FetchReadsClosedFile` | src/store_impl.cc:211-221 | in that state, a fetch with the page's data reads it through the closed file |
| `PoolRuns.NextInv` | src/page_pool.cc:45-222 | every operation whose demands are met keeps the invariant |
| `PoolRuns.RunInv` | src/page_pool.cc:45-222 | the invariant holds after every legal run, in which evictions and the closing of stores may fail to write |
| `PoolRuns.CacheTransparency` | src/page_pool.cc:57-222 | over every legal run in which no write-back to a store fails, each page of the store holds what a flat map would hold after the writes of pin holders, also when other stores are closed by failed writes |
| `PoolRuns.AddStoreInv` | src/store_impl.cc:73-87 | opening a store keeps the invariant and the view of all other stores, and every page of the new store holds its block of the data file |
| `PoolRuns.OpenedTransparency` | src/page_pool.cc:57-222 | the same for a store that is opened in the course of the run: at first its pages hold the blocks of its data file, and then what a flat map would hold after the writes of pin holders |
| `PoolAccounts.OpenedStore` | src/store_impl.cc:73-87 | a new store is open, has no transaction but init, which owns nothing, holds its data file, and leaves all other stores as they are |
| `PoolAccounts.BeginRuns` | src/store_impl.cc:160-164 | a new transaction runs, owns nothing, and is behind all others in its store's list, which is in the order of creation |
| `PoolRuns.StepBinding` | src/page_pool.cc:98-104 | no operation rebinds a pinned entry, and only a write through it changes its buffer |
| `PoolRuns.PinSafety` | src/page_pool.cc:98-104 | over every run, an entry that stays pinned stays bound to the same store page |
| `PoolLaws.Partition` | src/page_pool.cc:45-107 | the free list, the LRU list and the pinned entries are disjoint and together are all entries |
| `PoolLaws.PageCounters` | src/page_pool.h:209-231 | pinned_pages() counts exactly the entries with pins, never underflows, and the number of entries never exceeds the capacity |
| `PoolLaws.PageMapLaw` | src/page_pool.cc:65-77 | a key maps to an entry if and only if the entry is assigned to that page of that store |
| `PoolLaws.OwnershipLaw` | src/transaction_impl.h:100-228 | an entry is in a transaction's list if and only if it is assigned to the transaction, once, and it is dirty if and only if the transaction is not init |
| `PoolLaws.CleanLaw` | src/page_pool.cc:109-133 | a clean entry without a kIgnorePageData obligation equals its block |
| `PoolLaws.OrderLaw` | src/page_pool.cc:80-107 | the front of the LRU list comes before every unpinned assigned entry in the order of eviction, and the front of the free list became unused before every other unused entry |
| `PoolLaws.ReachableStates` | src/page_pool.cc:15-22 | after every legal run of a new pool the invariant holds, the capacity and page size are those it was made with, and the laws hold of the partition, the counters, the page map, clean entries, ownership, lists without duplicates, and both orders |
| `PoolLaws.FreeingPolicy` | src/page_pool.cc:45-55 | an entry that becomes unused is stamped later than every other entry |
| `PoolLaws.ReuseOrder` | src/page_pool.cc:80-89 | if any entry is unused, allocation hands out the one that became unused first |
| `PoolLaws.AllocationOrder` | src/page_pool.cc:80-107 | the pool grows only if no entry is unused, by one and within its capacity; an entry loses its page only if it has no pin, no entry is unused and the pool may not grow |
| `PoolLaws.EvictionPolicy` | src/page_pool.cc:98-104 | the victim comes before every other unpinned entry in the order of eviction |
| `PoolLaws.UnpinPolicy` | src/page_pool.h:174-183 | an entry unpinned with kCachePage is evicted after every other candidate, one unpinned with kDiscardPage before every other |
| `PoolLaws.EndOfLife` | src/pool_impl.cc:24-39 | closing the open stores of a pool without pins, in any order and whatever writes fail, leaves no pinned entry and every entry unused |
| `PageCache.Page.constructor` | src/page.cc:16-28 | a new entry has one pin, no owner and a buffer of its own |
| `PageCache.PagePool.PinStorePage` | src/page_pool.cc:156-168 | the object moves as the model pins; nothing else changes |
| `PageCache.PagePool.UnpinStorePage` | src/page_pool.h:165-184 | the object moves as the model unpins, at either end of the LRU list |
| `PageCache.PagePool.UnpinUnassignedPage` | src/page_pool.cc:45-55 | an entry that loses its last pin joins the end of the free list |
| `PageCache.PagePool.PinTransactionPages` | src/page_pool.cc:170-181 | the loop adds a pin to each entry of the transaction |
| `PageCache.PagePool.WillModifyPage` | src/transaction_impl.h:141-173 | the entry moves to the end of the transaction's list and is dirty, under all checks of the source: pinned, of the same store, not by init, not modified by another transaction |
| `PageCache.PagePool.PageWasPersisted` | src/transaction_impl.h:183-205 | the entry moves to the end of init's list and is clean |
| `PageCache.PagePool.WritePage` | src/store_impl.cc:223-233 | a successful write puts the buffer into the block of the page, a failed one changes nothing |
| `PageCache.PagePool.LeaveTransaction` | src/transaction_impl.h:118-130 | the entry, which has one pin, leaves its owner's list and has no owner |
| `PageCache.PagePool.UnassignPageFromStore` | src/page_pool.cc:57-78 | the entry, which has one pin, leaves the page map and its owner, and a failed write closes the store, as in the model; the recursion through CloseStore terminates |
| `PageCache.PagePool.AllocPage` | src/page_pool.cc:80-107 | the three sources of entries in their order, as in the model; new entries have memory of their own |
| `PageCache.PagePool.FetchStorePage` | src/page_pool.cc:109-133 | the buffer holds the block, or 0xCD in every byte, and a failed read leaves it |
| `PageCache.PagePool.AssignPageToStore` | src/page_pool.cc:135-154 | on success the page is mapped and owned by init; a failed read leaves the map and the lists as they were |
| `PageCache.PagePool.StorePage` | src/page_pool.cc:183-222 | result, status and new state are those of the model, for cached and missing pages and for every failure |
| `PageCache.PagePool.WriteTransactionPages` | src/transaction_impl.cc:139-153 | the loop with the iterator that moves on first does what the model's loop does |
| `PageCache.PagePool.CommitTxn` | src/transaction_impl.cc:120-160 | kAlreadyClosed and no change if the transaction is closed; else success, and the new state is that of the model |
| `PageCache.PagePool.ReleaseTransactionPages` | src/transaction_impl.cc:109-114 | the loop does what the model's loop does, in any phase of the store |
| `PageCache.PagePool.CloseTxn` | src/transaction_impl.cc:97-118 | closes the transaction as the model does, if the demand of TransactionClosed will be met |
| `PageCache.PagePool.RollbackTxn` | src/transaction_impl.cc:162-167 | kAlreadyClosed and no change if the transaction is closed, else as CloseTxn |
| `PageCache.PagePool.LeaveStore` | src/store_impl.cc:235-247 | the transaction leaves the list of an open store, and nothing happens while the store closes |
| `PageCache.PagePool.DrainQueue` | src/store_impl.cc:182-195 | the loop rolls back each queued transaction once and reports success if all were open, else kAlreadyClosed |
| `PageCache.PagePool.CloseStore` | src/store_impl.cc:166-209 | new state as in the model, and no change unless the store is open; kAlreadyClosed if closed, success if closing; if open, success whatever writes fail, unless one of its transactions was already closed; terminates although failed writes re-enter it |
| `PoolUpdates.InvNoneClosed` | src/store_impl.cc:182-202 | between operations no transaction of an open store is closed, so Close of an open store reports success |
| `PageCache.PagePool.constructor` | src/page_pool.cc:15-22 | a new pool is the empty state of the model |
| `PageCache.PagePool.CreateStore` | src/store_impl.cc:73-87 | an open store with an open init transaction, no other transaction, and the given blocks |
| `PageCache.PagePool.CreateTransaction` | src/store_impl.cc:160-164 | a new open transaction at the end of the store's list |
| `PageCache.PagePool.PinnedPages` | src/page_pool.h:229-231 | the subtraction counts the entries that have pins |
| `PageCache.PagePool.CloseAllStores` | src/pool_impl.cc:24-39 | after the loop both closing assumptions of the destructor hold |
| `PageCache.PagePool.Perform` | src/page_pool.cc:45-222 | the object performs every operation of the state machine |
| `PageCache.PagePool.Run` | src/page_pool.cc:45-222 | the object performs every run of the state machine |
| `PageSession.DuringFetch` | src/page_pool.cc:183-222 | a fetch inside an operation changes no page of its store, adds one pin, leaves the entries the operation holds in place and the pinned entries of others bound, and changes no store, save that of an evicted entry that had to be written and could not |
| `PageSession.DuringWrite` | src/page.h:141-147 | a write to a modified entry changes exactly its page |
| `PageSession.DuringClaim` | src/page_pool.cc:118-132 | after kIgnorePageData and WillModifyPage the page holds what was in the buffer: its contents if it was cached, else 0xCD in every byte; no store changes, save that of an evicted entry that could not be written |
| `PageAccess.ReleasePage` | src/pinned_page.h:28-39 | going out of scope drops the one pin of the operation and changes no page; an entry that loses its last pin goes to the end of the LRU list |
| `FreeListFormat.ShiftedSizes` | src/free_page_list_format.h:143-155 | every page size that is a power of two from 16 on has the properties the format needs |
| `FreeListFormat.GoodOffsetInPage` | src/free_page_list_format.h:123-139 | an offset that passes the corruption check is that of 8 bytes inside the page |
| `FreeList.PopRefines` | src/free_page_list.cc:19-90 | on a well-formed list, Pop returns the top of the stack, or 0 if it is empty, and leaves a well-formed list of the rest |
| `FreeList.PushRefines` | src/free_page_list.cc:92-173 | on a well-formed list, Push of an ID that is not in it leaves a well-formed list with the ID on top |
| `FreeListRuns.DoRefines` | src/free_page_list.cc:19-173 | one call with any answers of the page pool keeps the list well-formed and answers as a stack |
| `FreeListRuns.RunRefines` | src/free_page_list.cc:19-173 | so does every run that pushes only IDs not in the list |
| `FreeListRuns.RunHandsOutOnce` | src/free_page_list.cc:19-173 | over every such run, between two Pops of one ID there is a Push of it |
| `FreeListRuns.PushThenPop` | src/free_page_list.cc:19-173 | Pop returns what Push added and restores the list |
| `FreeListRuns.ListShape` | src/free_page_list.h:31-46 | pages are linked from head to tail, the tail's next ID is 0, no ID occurs twice, offsets are aligned and in the page, and every page after the head is exactly full |
| `FreeListRuns.TailIsNeverRead` | src/free_page_list.cc:19-173 | Push and Pop do the same whatever the tail field holds |
| `FreeListRuns.EntryOffsets` | src/free_page_list_format.h:123-139 | the offsets that list pages have are the multiples of 8 from 16 to the page size |
| `FreeListRuns.PopAnswers` | src/free_page_list.cc:19-90 | for every contents of the pages: Pop of an empty list succeeds without an ID; a failed fetch is reported as it is; corruption is reported if and only if the first field is neither an entry offset nor 8; else the database is too large if and only if the ID to read is no size_t; unless Pop succeeds it changes nothing |
| `FreeListRuns.PopHandsOut` | src/free_page_list.cc:45-89 | a successful Pop hands out the head page if it has no entries, and moves the head to its next page, or else the last entry, and then only the first field of the head page changes |
| `FreeListRuns.PopCorruption` | src/free_page_list.cc:74-78 | with size_t arithmetic, Pop reports corruption if and only if the first field is not 16 and 8 less than it, modulo the word, is not a multiple of 8 inside the page |
| `FreeListRuns.PopMissesEight` | src/free_page_list.cc:74-89 | a head page whose first field is 8 is no list page, and Pop succeeds and hands out page 8 |
| `FreeListRuns.PopErrors` | src/free_page_list.cc:19-90 | Pop reports corruption only of a page that is no list page, and too large IDs only where a size_t has 32 bits |
| `FreeListRuns.PushAnswers` | src/free_page_list.cc:92-173 | for every contents of the pages: a failed fetch is reported as it is; corruption if and only if the first field is inside the page and no multiple of 8; if a new list page is needed, the status of getting it; unless Push succeeds it changes nothing |
| `FreeListRuns.PushMisses` | src/free_page_list.cc:92-173 | Push takes a page for a list page that is none if and only if its first field is 0, 8 or beyond the page |
| `FreeListRuns.PushErrors` | src/free_page_list.cc:92-173 | Push reports corruption only of a page that is no list page |
| `FreeListMerge.MergeOffsets` | src/free_page_list.cc:279-322 | for all offsets that pass the checks, the copied IDs end inside the page, and otherwise the new head offset is at least 16 and aligned and the other page exactly full |
| `FreeListMerge.MergeTheorem` | src/free_page_list.cc:175-325 | on two well-formed lists with heads that are not full, Merge leaves a well-formed list with the IDs of both but the lost pages; it holds all IDs if and only if they fit and the other list has one page, or they do not fit and the other list has several or the receiver one |
| `FreeListMerge.MergeNothing` | src/free_page_list.cc:186-187 | merging an empty list succeeds for every receiver, every contents of the pages and every outcome of fetches, and changes no page |
| `FreeListMerge.MergeConserves` | src/free_page_list.cc:175-325 | for an empty other list as well: Merge succeeds, and the receiver holds the IDs of both if and only if the other list is empty or the condition of the previous theorem holds |
| `FreeListMerge.StoringTheChainConserves` | src/free_page_list.cc:218-322 | the variant that stores full_chain_head_id64 leaves exactly the IDs of both lists in all cases |
| `FreeListMerge.TailAfterMerge` | src/free_page_list.cc:175-325 | the receiver's tail, which Merge does not update, is still the last page if and only if the IDs fit or both lists have full pages |
| `FreeListMerge.FullHeadIsRejected` | src/free_page_list.cc:262-270 | Merge succeeds if and only if neither head page is full |
| `FreeListMerge.RejectedMergeWrites` | src/free_page_list.cc:229-253 | a rejected Merge leaves all pages as they were if and only if one of the lists has a single page |
| `FreeListImages.TwoLists` | src/free_page_list.h:31-46 | any two sequences of list pages without a common ID are lists of some volume |
| `FreeListImages.ChainUnique` | src/free_page_list.h:31-46 | a head page ID and the pages determine the list |
| `FreeListExamples.LossyMerge` | src/free_page_list.cc:218-322 | two well-formed lists: Merge succeeds, and the only list behind the receiver's head lacks a page and its two entries |
| `FreeListExamples.RejectedMerge` | src/free_page_list.cc:229-270 | two well-formed lists of several pages: Merge reports corruption, and the other list's last page, which led nowhere, leads to the receiver's second page |
| `FreeListExamples.StaleTail` | src/free_page_list.cc:297-322 | two well-formed lists of one page: Merge succeeds, and the receiver's head and tail are those of no list |
| `MergeIntoEmpty.EmptyReceiver` | src/free_page_list.cc:185-270 | with the header in page 0, Merge into an empty list reports corruption if and only if the magic number is no offset inside a page or the other head page is full, and then only its first step is done |
| `MergeIntoEmpty.MagicOutsideShifts` | src/format/store_header.cc:36-47 | the magic number is no offset inside a page for every page shift below 32, or below 31 with a 32-bit size_t |
| `MergeIntoEmpty.EmptyReceiverBreaksOther` | src/free_page_list.cc:225-253 | that step keeps all pages if and only if the other list has one page; else its last page leads to the page numbered by the store magic, and its fields are those of no list |
| `MergeIntoEmpty.HeaderPages` | src/format/store_header.cc:36-91 | every header page starts with the two magic numbers |
| `MergeIntoEmpty.BrokenByEmptyReceiver` | src/free_page_list.cc:185-270 | a store without free pages and a list of two pages that Merge rejects and breaks |
| `FreePageLists.FreePageList.constructor` | src/free_page_list.h:31-32 | a new list is empty, has a defined tail and was not merged |
| `FreePageLists.FreePageList.SetHeadPageId` | src/free_page_list.h:111-117 | the head is set and the tail is no longer defined |
| `FreePageLists.FreePageList.Pop` | src/free_page_list.cc:19-90 | status, ID, fields and pages are those of the byte-level Pop, for every contents of the pages and every answer to the read; an empty list yields success, no ID and no change at all; all pins are as before on every return path, and so is every store whose file takes write-backs |
| `FreePageLists.FreePageList.Push` | src/free_page_list.cc:92-173 | the same for Push; a new list page is refused if and only if the pool was full of pinned entries at the start and did not cache the page, and its unused bytes are determined, too |
| `FreePageLists.FreePageList.Merge` | src/free_page_list.cc:175-325 | the same for Merge, whose three fetches have the statuses they have in the states that the fetches before them lead to; an empty other list yields success and no change at all; the receiver's fields stay and the other list is marked as merged |
| `FetchRoom.SameRoom` | src/page_pool.cc:80-107 | between its fetches, an operation that holds no pin finds room in the pool exactly if it did at the start |
| `FetchRoom.SecondFetch` | src/free_page_list.cc:204-214 | the second fetch of Merge finds the pool full if and only if its page was not pinned and the pinned entries, with the first page, are as many as the pool may have; else it succeeds or ends as its read does |
| `FetchRoom.ThirdFetch` | src/free_page_list.cc:229-243 | the same for the third fetch, with two pages held |
| `FreePageLists.FreePageList.LinkTail` | src/free_page_list.cc:229-253 | the other tail page leads to this list's full pages, or nothing changed if it could not be fetched, which the pool and the read decide |
| `FreePageLists.FreePageList.MergeHeads` | src/free_page_list.cc:272-322 | the two head buffers end as the byte-level merge says, in both cases |
| `FreePageLists.SeenThroughPool` | src/free_page_list.cc:19-325 | what an operation establishes of a list is what the next one finds through the cache |
| `ListsInPool.ListSurvives` | src/page_pool.cc:45-222 | a list survives every legal run in which no write-back to its store fails and nobody writes to its pages |
| `ListsInPool.StackInPool` | src/free_page_list.cc:19-173 | over every run of Push and Pop on a list in the pool, interleaved with other operations that spare its pages, the list stays well-formed and answers as a stack |
| `StoreHeader.RoundTrip` | src/format/store_header.cc:36-91 | a serialized header is read back, equal, if and only if its free list head is not 0 |
| `StoreHeader.AcceptedExactly` | src/format/store_header.cc:49-91 | a buffer is accepted and read as a header if and only if the header has a free list and fits a size_t, and serializing it gives the buffer, apart from the padding |
| `StoreHeader.HeaderBytes` | src/format/store_header.cc:36-47 | the first 16 bytes of every serialized header, one by one |
| `StoreHeader.FieldsOnFailure` | src/format/store_header.cc:49-91 | each field is as before if an earlier check failed, and else what the buffer holds, cut to a size_t |
| `StoreHeader.OnlyTheHeader` | src/format/store_header.cc:36-47 | no byte from 48 on changes |
| `StoreHeader.ReadAndWriteBack` | src/format/store_header.cc:36-91 | serializing what was read gives the same bytes back with the padding cleared |
| `StoreHeader.BootstrapHeaderIsRejected` | src/store_impl.cc:126-131 | the header that Bootstrap writes is not accepted |
| `StoreHeader.StoreHeader.Serialize` | src/format/store_header.cc:36-47 | the buffer holds the serialized header, on top of what was there |
| `StoreHeader.StoreHeader.Deserialize` | src/format/store_header.cc:49-91 | succeeds exactly on an acceptable header, reads it, and on failure has assigned the fields before the failed check |

## Left out

- Transactions and stores as objects: in `PageCache.PagePool` they are rows of tables that the methods reassign, so the model does not capture their aliasing; entries and their buffers are objects.
- The intrusive list inside the page pool: the pool's lists are sequences of entries, and the list itself is proved separately to act as a sequence.
- Releasing transactions and stores: `Release` and the destructors of single objects.
- FreePageLists.FreePageList.Merge: requires offsets of at least 16 in the other list's head page, because the source subtracts 16 from them without a check.
- FreePageLists.FreePageList.Pop: requires, as Push and Merge do, that the transaction is running and its store open, that no other transaction is modifying the list pages it writes, and that no pin holder owes a page of the store its contents after kIgnorePageData, because the list would read that buffer.
- Evictions during Push, Pop and Merge that fail to write an entry of the list's own store: they close that store under the operation. Evictions that close other stores are covered, if nobody holds a pin on entries of those stores.
- Failing writes in Commit: the source assumes that they succeed.
- Runs after a rollback that failed to write, or an eviction that closed the store it was made for: the source meets a failing check or a deallocated file there, so legal runs do not contain them.
- The buffer of a new entry is not initialised in the source; it holds zeroes here, and nothing reads it before it is filled.
- A read that fails is modelled as leaving the buffer of the unassigned entry alone.
- `StoreImpl::Initialize` and the sequence of `StoreImpl::Bootstrap`: only the header that it writes.
- `PoolImpl::OpenStore`, `LogFilePath`, file handles and the Vfs interface: input and output, which is a map of blocks here.
- `CatalogImpl`, `SpaceImpl`, `FreePageManager` and Get, Put, Delete and Create of transactions: stubs that return fixed errors.
- `src/api`, casts between implementation and interface classes, allocators, hashing and check macros: no behaviour of their own; checks became preconditions or assertions.
- Undo, log recovery and durability after a crash: not implemented in the source.
- `size_t` overflow of pin counts and list sizes: they are unbounded numbers here; offsets and page IDs of the free list have the width of a `size_t`.
