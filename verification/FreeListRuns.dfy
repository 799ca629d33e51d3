/** Arbitrary runs of Push and Pop on one free page list. */
module FreeListRuns {
  import opened Bytes
  import opened Lists
  import opened StatusCodes
  import opened FreeListFormat
  import opened FreeList

  /** A call, with what the page pool answers to it. */
  datatype Call = PushCall(id: nat, fetch: Status, claim: Status, scratch: Block)
                | PopCall(fetch: Status)

  /** What the caller sees of a call. */
  datatype Outcome = Pushed(id: nat) | Popped(id: nat) | FoundEmpty | Failed(status: Status)

  // ---------------------------------------------------------------------
  // The specification: a stack of IDs

  function Shift(stack: seq<nat>, o: Outcome): seq<nat> {
    match o
    case Pushed(id) => stack + [id]
    case Popped(_) => if stack == [] then [] else stack[..|stack| - 1]
    case _ => stack
  }

  /** A stack may answer like this. */
  predicate Answers(stack: seq<nat>, o: Outcome) {
    match o
    case Popped(id) => stack != [] && id == stack[|stack| - 1]
    case FoundEmpty => stack == []
    case _ => true
  }

  function StackAfter(stack: seq<nat>, history: seq<Outcome>): seq<nat>
    decreases |history|
  {
    if history == [] then stack else StackAfter(Shift(stack, history[0]), history[1..])
  }

  predicate IsStackHistory(stack: seq<nat>, history: seq<Outcome>)
    decreases |history|
  {
    history == [] || (Answers(stack, history[0]) && IsStackHistory(Shift(stack, history[0]), history[1..]))
  }

  // ---------------------------------------------------------------------
  // The implementation

  ghost predicate Callable(g: Geometry, v: Volume, c: Call) {
    Usable(g) && Sized(g, v) && (c.PushCall? ==> |c.scratch| == g.pageSize && 0 < c.id < g.Word())
  }

  ghost function Do(g: Geometry, v: Volume, l: ListHead, c: Call): (r: (Volume, ListHead, Outcome))
    requires Callable(g, v, c)
    ensures Sized(g, r.0)
  {
    match c
    case PushCall(id, fetch, claim, scratch) =>
      var r := Push(g, v, l, id, fetch, claim, scratch);
      (r.volume, r.list, if r.status == Success then Pushed(id) else Failed(r.status))
    case PopCall(fetch) =>
      var r := Pop(g, v, l, fetch);
      (r.volume, r.list, if r.status != Success then Failed(r.status)
                         else if r.id == 0 then FoundEmpty else Popped(r.id))
  }

  /** The run pushes only IDs that are not on the list at that time. */
  ghost predicate LegalRun(g: Geometry, v: Volume, l: ListHead, stack: seq<nat>, run: seq<Call>)
    decreases |run|
  {
    run == [] ||
    (&& Callable(g, v, run[0])
     && (run[0].PushCall? ==> run[0].id !in stack)
     && var (v', l', o) := Do(g, v, l, run[0]);
        LegalRun(g, v', l', Shift(stack, o), run[1..]))
  }

  ghost function History(g: Geometry, v: Volume, l: ListHead, stack: seq<nat>, run: seq<Call>): seq<Outcome>
    requires LegalRun(g, v, l, stack, run)
    decreases |run|
  {
    if run == [] then []
    else
      var (v', l', o) := Do(g, v, l, run[0]);
      [o] + History(g, v', l', Shift(stack, o), run[1..])
  }

  ghost function Final(g: Geometry, v: Volume, l: ListHead, stack: seq<nat>, run: seq<Call>): (Volume, ListHead)
    requires LegalRun(g, v, l, stack, run)
    decreases |run|
  {
    if run == [] then (v, l)
    else
      var (v', l', o) := Do(g, v, l, run[0]);
      Final(g, v', l', Shift(stack, o), run[1..])
  }

  lemma PushOutcome(g: Geometry, v: Volume, l: ListHead, pages: seq<ListPage>,
                    id: nat, fetch: Status, claim: Status, scratch: Block)
    requires Represents(g, v, l, pages) && |scratch| == g.pageSize && 0 < id < g.Word()
    ensures var r := Push(g, v, l, id, fetch, claim, scratch);
      r.status == Success ==> r == Push(g, v, l, id, Success, Success, scratch)
  {
  }

  /** One call takes a well-formed list to a well-formed list and answers as a stack. */
  lemma DoRefines(g: Geometry, v: Volume, l: ListHead, pages: seq<ListPage>, c: Call) returns (next: seq<ListPage>)
    requires Represents(g, v, l, pages) && Callable(g, v, c)
    requires c.PushCall? ==> c.id !in Stack(pages)
    ensures var (v', l', o) := Do(g, v, l, c);
      && Represents(g, v', l', next)
      && Answers(Stack(pages), o) && Stack(next) == Shift(Stack(pages), o)
  {
    next := pages;
    match c
    case PushCall(id, fetch, claim, scratch) =>
      FailureChangesNothing(g, v, l, id, fetch, claim, scratch);
      PushOutcome(g, v, l, pages, id, fetch, claim, scratch);
      if Push(g, v, l, id, fetch, claim, scratch).status == Success {
        PushRefines(g, v, l, pages, id, scratch);
        next := PushPages(g, pages, id);
      }
    case PopCall(fetch) =>
      var r := Pop(g, v, l, fetch);
      if r.status == Success {
        assert r == Pop(g, v, l, Success);
        PopRefines(g, v, l, pages);
        if pages != [] {
          TopOfStack(g, pages);
          next := PopPages(pages);
        }
      }
  }

  /** Over any run, whatever the page pool answers, the list stays well-formed
      and its answers are those of a stack. */
  lemma {:induction false} RunRefines(g: Geometry, v: Volume, l: ListHead, pages: seq<ListPage>, run: seq<Call>)
    returns (last: seq<ListPage>)
    requires Represents(g, v, l, pages) && LegalRun(g, v, l, Stack(pages), run)
    ensures var history := History(g, v, l, Stack(pages), run);
      var (v', l') := Final(g, v, l, Stack(pages), run);
      && IsStackHistory(Stack(pages), history)
      && Represents(g, v', l', last)
      && Stack(last) == StackAfter(Stack(pages), history)
    decreases |run|
  {
    if run == [] {
      last := pages;
    } else {
      var (v', l', o) := Do(g, v, l, run[0]);
      var next := DoRefines(g, v, l, pages, run[0]);
      last := RunRefines(g, v', l', next, run[1..]);
      var rest := History(g, v', l', Stack(next), run[1..]);
      assert ([o] + rest)[1..] == rest;
    }
  }

  // ---------------------------------------------------------------------
  // No page is handed out twice

  /** Whatever is pushed is not on the stack at that time. */
  predicate PushesFresh(stack: seq<nat>, history: seq<Outcome>)
    decreases |history|
  {
    history == [] ||
    ((history[0].Pushed? ==> history[0].id !in stack) && PushesFresh(Shift(stack, history[0]), history[1..]))
  }

  lemma {:induction false} LegalPushesFresh(g: Geometry, v: Volume, l: ListHead, stack: seq<nat>, run: seq<Call>)
    requires LegalRun(g, v, l, stack, run)
    ensures PushesFresh(stack, History(g, v, l, stack, run))
    decreases |run|
  {
    if run != [] {
      var (v', l', o) := Do(g, v, l, run[0]);
      LegalPushesFresh(g, v', l', Shift(stack, o), run[1..]);
      var rest := History(g, v', l', Shift(stack, o), run[1..]);
      assert ([o] + rest)[1..] == rest;
    }
  }

  lemma ShiftNoDup(stack: seq<nat>, o: Outcome)
    requires NoDup(stack) && Answers(stack, o) && (o.Pushed? ==> o.id !in stack)
    ensures NoDup(Shift(stack, o))
    ensures o.Popped? ==> o.id !in Shift(stack, o)
  {
  }

  /** What is popped was on the stack or was pushed before. */
  lemma {:induction false} PoppedWasThere(stack: seq<nat>, history: seq<Outcome>, j: nat) returns (k: nat)
    requires IsStackHistory(stack, history) && j < |history| && history[j].Popped?
    ensures history[j].id in stack || (k < j && history[k] == Pushed(history[j].id))
    decreases |history|
  {
    k := 0;
    if j > 0 {
      k := PoppedWasThere(Shift(stack, history[0]), history[1..], j - 1);
      k := if history[j].id in Shift(stack, history[0]) then 0 else k + 1;
    }
  }

  /** Between two pops of one ID there is a push of it. */
  lemma {:induction false} NoDoubleHandout(stack: seq<nat>, history: seq<Outcome>, i: nat, j: nat) returns (k: nat)
    requires NoDup(stack) && IsStackHistory(stack, history) && PushesFresh(stack, history)
    requires i < j < |history| && history[i].Popped? && history[j] == history[i]
    ensures i < k < j && history[k] == Pushed(history[i].id)
    decreases |history|
  {
    ShiftNoDup(stack, history[0]);
    if i == 0 {
      k := PoppedWasThere(Shift(stack, history[0]), history[1..], j - 1);
      k := k + 1;
    } else {
      k := NoDoubleHandout(Shift(stack, history[0]), history[1..], i - 1, j - 1);
      k := k + 1;
    }
  }

  /** No run hands out a page twice without a push of it in between. */
  lemma RunHandsOutOnce(g: Geometry, v: Volume, l: ListHead, pages: seq<ListPage>, run: seq<Call>, i: nat, j: nat)
    returns (k: nat)
    requires Represents(g, v, l, pages) && LegalRun(g, v, l, Stack(pages), run)
    requires var history := History(g, v, l, Stack(pages), run);
      i < j < |history| && history[i].Popped? && history[j] == history[i]
    ensures var history := History(g, v, l, Stack(pages), run);
      i < k < j && history[k] == Pushed(history[i].id)
  {
    var last := RunRefines(g, v, l, pages, run);
    LegalPushesFresh(g, v, l, Stack(pages), run);
    GoodNoDup(g, Stack(pages));
    k := NoDoubleHandout(Stack(pages), History(g, v, l, Stack(pages), run), i, j);
  }

  lemma PopPushed(g: Geometry, pages: seq<ListPage>, id: nat)
    requires g.pageSize >= FIRST_ENTRY
    ensures PushPages(g, pages, id) != [] && PopPages(PushPages(g, pages, id)) == pages
  {
    if pages != [] && |pages[0].entries| < Capacity(g) {
      var e := pages[0].entries + [id];
      assert e[..|e| - 1] == pages[0].entries;
      assert WithHead(WithHead(pages, e), pages[0].entries) == pages;
    }
  }

  /** Pop undoes Push. */
  lemma PushThenPop(g: Geometry, v: Volume, l: ListHead, pages: seq<ListPage>, id: nat, scratch: Block)
    requires Represents(g, v, l, pages) && |scratch| == g.pageSize
    requires 0 < id < g.Word() && id !in Stack(pages)
    ensures var pushed := Push(g, v, l, id, Success, Success, scratch);
      && Sized(g, pushed.volume)
      && var popped := Pop(g, pushed.volume, pushed.list, Success);
         popped.status == Success && popped.id == id && Represents(g, popped.volume, popped.list, pages)
  {
    PushRefines(g, v, l, pages, id, scratch);
    PopPushed(g, pages, id);
    var r := Push(g, v, l, id, Success, Success, scratch);
    PopRefines(g, r.volume, r.list, PushPages(g, pages, id));
  }

  lemma PushIgnoresTail(g: Geometry, v: Volume, l: ListHead, tail: nat, id: nat,
                        fetch: Status, claim: Status, scratch: Block)
    requires Usable(g) && Sized(g, v) && |scratch| == g.pageSize
    ensures var r, r' := Push(g, v, l, id, fetch, claim, scratch),
                         Push(g, v, l.(tail := tail), id, fetch, claim, scratch);
      r'.status == r.status && r'.volume == r.volume && r'.list.head == r.list.head
  {
  }

  lemma PopIgnoresTail(g: Geometry, v: Volume, l: ListHead, tail: nat, fetch: Status)
    requires Usable(g) && Sized(g, v)
    ensures var r, r' := Pop(g, v, l, fetch), Pop(g, v, l.(tail := tail), fetch);
      r'.status == r.status && r'.id == r.id && r'.volume == r.volume && r'.list.head == r.list.head
  {
  }

  /** The tail field is never read, so lists that do not track it, such as those
      of stores, behave in the same way. */
  lemma TailIsNeverRead(g: Geometry, v: Volume, l: ListHead, tail: nat, c: Call)
    requires Callable(g, v, c)
    ensures var (v', l', o) := Do(g, v, l, c);
      var (w, m, o') := Do(g, v, l.(tail := tail), c);
      w == v' && m.head == l'.head && o' == o
  {
    match c
    case PushCall(id, fetch, claim, scratch) => PushIgnoresTail(g, v, l, tail, id, fetch, claim, scratch);
    case PopCall(fetch) => PopIgnoresTail(g, v, l, tail, fetch);
  }

  // ---------------------------------------------------------------------
  // What a well-formed list looks like

  lemma {:induction false} SegmentAt(g: Geometry, v: Volume, head: nat, pages: seq<ListPage>, i: nat)
    requires Usable(g) && Sized(g, v) && Segment(g, v, head, pages, 0) && i < |pages|
    ensures Holds(g, v(pages[i].id), pages[i].entries)
    ensures NextPageId64(v(pages[i].id)) == if i + 1 < |pages| then pages[i + 1].id else 0
    decreases |pages|
  {
    var next := NextPageId64(v(head));
    assert Segment(g, v, next, pages[1..], 0);
    if i > 0 {
      SegmentAt(g, v, next, pages[1..], i - 1);
    } else if |pages| > 1 {
      assert pages[1..][0] == pages[1];
    }
  }

  /** The pages are linked from the head to the tail, whose next ID is 0. No ID
      occurs twice. The head page has an aligned offset inside the page or at its
      end, and every other page is exactly full. */
  lemma ListShape(g: Geometry, v: Volume, l: ListHead, pages: seq<ListPage>, i: nat)
    requires Represents(g, v, l, pages) && i < |pages|
    ensures l.head == pages[0].id && l.tail == pages[|pages| - 1].id && NoDup(Stack(pages))
    ensures NextPageId64(v(pages[i].id)) == if i + 1 < |pages| then pages[i + 1].id else 0
    ensures var offset := NextEntryOffset(g, v(pages[i].id));
      FIRST_ENTRY <= offset <= g.pageSize && offset % 8 == 0 && (i > 0 ==> offset == g.pageSize)
  {
    SegmentAt(g, v, l.head, pages, i);
    GoodNoDup(g, Stack(pages));
    OffsetRead(g, v(pages[i].id), pages[i].entries);
    FullPageOffset(g);
    if i > 0 { assert pages[1..][i - 1] == pages[i]; }
  }

  // ---------------------------------------------------------------------
  // Answers on pages with any contents

  /** An offset that a list page can have in its first field. */
  predicate IsEntryOffset(g: Geometry, offset: nat)
    requires g.pageSize >= FIRST_ENTRY
  {
    16 <= offset <= g.pageSize && offset % 8 == 0
  }

  lemma EntryOffsets(g: Geometry, offset: nat)
    requires Usable(g)
    ensures IsEntryOffset(g, offset) <==> exists n: nat :: n <= Capacity(g) && EntryOffset(n) == offset
  {
    if IsEntryOffset(g, offset) {
      var n := (offset - 16) / 8;
      assert EntryOffset(n) == offset && n <= Capacity(g);
    }
  }

  /** What a page hands out next: its own ID if it has no entries, and then its next
      ID must be a size_t, or its last entry, which must be one itself. */
  function LastField(b: Block, offset: nat): nat
    requires |b| >= 16 && 8 <= offset <= |b|
  {
    if offset == 16 then Load64(b, 8) else Load64(b, offset - 8)
  }

  /** The offset that Pop checks is that of the last entry, as a size_t. */
  lemma LastOffset(g: Geometry, offset: nat)
    requires Usable(g) && offset != 16
    ensures var last := if offset >= 8 then offset - 8 else g.Word() + offset - 8;
      IsCorruptEntryOffset(last, g.pageSize) <==> !IsEntryOffset(g, offset) && offset != 8
  {
    if offset >= 8 {
      assert (offset - 8) % 8 == offset % 8 && g.pageSize % 8 == 0;
    }
  }

  /** Whatever the pages hold, Pop of an empty list succeeds with no page; else it
      reports how the fetch failed; else it reports corruption if and only if the
      first field of the head page is neither an entry offset nor 8; else it reports
      that the database is too large if and only if the ID it needs is no size_t;
      else it succeeds with a page. Unless it does, it changes nothing. */
  lemma PopAnswers(g: Geometry, v: Volume, l: ListHead, fetch: Status)
    requires Usable(g) && Sized(g, v)
    ensures var r := Pop(g, v, l, fetch); var offset := NextEntryOffset(g, v(l.head));
      && (l.head == 0 ==> r.status == Success && r.id == 0)
      && (l.head != 0 && fetch != Success ==> r.status == fetch)
      && (l.head != 0 && fetch == Success ==>
            && (r.status == DataCorrupted <==> !IsEntryOffset(g, offset) && offset != 8)
            && (IsEntryOffset(g, offset) || offset == 8 ==>
                  r.status == if LastField(v(l.head), offset) < g.Word() then Success else DatabaseTooLarge))
      && (r.status != Success || l.head == 0 ==> r.volume == v && r.list == l && r.id == 0)
  {
    var offset := NextEntryOffset(g, v(l.head));
    if offset != 16 { LastOffset(g, offset); }
  }

  /** The page that a successful Pop hands out: the head page, if it has no entries, or
      else its last entry. Only the head page's first field changes, if any. */
  lemma PopHandsOut(g: Geometry, v: Volume, l: ListHead)
    requires Usable(g) && Sized(g, v) && l.head != 0 && Pop(g, v, l, Success).status == Success
    ensures var r := Pop(g, v, l, Success); var offset := NextEntryOffset(g, v(l.head));
      && 8 <= offset <= g.pageSize
      && if offset == 16 then r.id == l.head && r.volume == v && r.list.head == Load64(v(l.head), 8)
         else r.id == Load64(v(l.head), offset - 8) && r.list == l &&
              forall id: nat :: r.volume(id) == if id == l.head then Store64(v(id), 0, offset - 8) else v(id)
  {
    PopAnswers(g, v, l, Success);
  }

  /** The corruption check, as a size_t computes it. */
  lemma PopCorruption(g: Geometry, v: Volume, l: ListHead)
    requires Usable(g) && Sized(g, v)
    ensures var offset := NextEntryOffset(g, v(l.head)); var last := (offset + g.Word() - 8) % g.Word();
      Pop(g, v, l, Success).status == DataCorrupted <==>
        l.head != 0 && offset != 16 && !(last % 8 == 0 && last < g.pageSize)
  {
    var offset := NextEntryOffset(g, v(l.head));
    PopAnswers(g, v, l, Success);
    Wrapped(g.Word(), offset);
    if offset != 16 { LastOffset(g, offset); }
  }

  lemma Wrapped(word: nat, x: nat)
    requires 8 <= word && x < word
    ensures (x + word - 8) % word == if x >= 8 then x - 8 else word + x - 8
  {
    if x >= 8 {
      assert x + word - 8 == word * 1 + (x - 8);
    }
  }

  /** A first field of 8 is no entry offset, and Pop does not see it: it takes the
      field itself for an entry and hands out page 8. */
  lemma PopMissesEight(g: Geometry, v: Volume, l: ListHead)
    requires Usable(g) && Sized(g, v) && l.head != 0 && Load64(v(l.head), 0) == 8
    ensures var r := Pop(g, v, l, Success); r.status == Success && r.id == 8
    ensures forall entries :: !Holds(g, v(l.head), entries)
  {
    assert NextEntryOffset(g, v(l.head)) == 8 && LastField(v(l.head), 8) == 8;
    PopAnswers(g, v, l, Success);
    PopHandsOut(g, v, l);
    forall entries ensures !Holds(g, v(l.head), entries) { assert EntryOffset(|entries|) != 8; }
  }

  /** Whatever the pages hold, Push reports how the fetch of the head page failed;
      else it reports corruption if and only if the first field of the head page is
      less than the page size and no multiple of 8; else, if that field is not less
      than the page size or there is no head page, it reports how the claim of the
      new page ends; else it succeeds. Unless it does, it changes nothing. */
  lemma PushAnswers(g: Geometry, v: Volume, l: ListHead, id: nat, fetch: Status, claim: Status, scratch: Block)
    requires Usable(g) && Sized(g, v) && |scratch| == g.pageSize
    ensures var r := Push(g, v, l, id, fetch, claim, scratch); var offset := NextEntryOffset(g, v(l.head));
      && (l.head != 0 && fetch != Success ==> r.status == fetch)
      && (l.head != 0 && fetch == Success && offset < g.pageSize ==>
            r.status == if offset % 8 == 0 then Success else DataCorrupted)
      && (l.head == 0 || (fetch == Success && offset >= g.pageSize) ==> r.status == claim)
      && (r.status != Success ==> r.volume == v && r.list == l)
  {
  }

  /** So Push takes a page that is no list page for one if and only if its first field
      is 0 or 8, whose bytes it then overwrites, or is beyond the page. */
  lemma PushMisses(g: Geometry, v: Volume, l: ListHead, id: nat, scratch: Block)
    requires Usable(g) && Sized(g, v) && |scratch| == g.pageSize && l.head != 0
    requires !IsEntryOffset(g, NextEntryOffset(g, v(l.head)))
    ensures var offset := NextEntryOffset(g, v(l.head));
      Push(g, v, l, id, Success, Success, scratch).status == Success <==> offset in {0, 8} || offset > g.pageSize
  {
  }

  /** Pop reports corruption only of a page that is not a list page, and IDs that
      are too large only on machines with a small size_t. */
  lemma PopErrors(g: Geometry, v: Volume, l: ListHead)
    requires Usable(g) && Sized(g, v)
    ensures var r := Pop(g, v, l, Success);
      && (r.status == DataCorrupted ==> forall entries :: !Holds(g, v(l.head), entries))
      && (r.status == DatabaseTooLarge ==> g.machine == Bits32)
      && r.status in {Success, DataCorrupted, DatabaseTooLarge}
  {
    forall entries | Holds(g, v(l.head), entries) ensures Pop(g, v, l, Success).status != DataCorrupted {
      OffsetRead(g, v(l.head), entries);
    }
  }

  /** Push reports corruption only of a page that is not a list page. */
  lemma PushErrors(g: Geometry, v: Volume, l: ListHead, id: nat, scratch: Block)
    requires Usable(g) && Sized(g, v) && |scratch| == g.pageSize
    ensures var r := Push(g, v, l, id, Success, Success, scratch);
      && (r.status == DataCorrupted ==> l.head != 0 && forall entries :: !Holds(g, v(l.head), entries))
      && r.status in {Success, DataCorrupted}
  {
    forall entries | Holds(g, v(l.head), entries)
      ensures Push(g, v, l, id, Success, Success, scratch).status != DataCorrupted
    {
      OffsetRead(g, v(l.head), entries);
    }
  }
}
