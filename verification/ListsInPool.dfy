/** A free page list between its operations, while the page pool is used for
    other things. */
module ListsInPool {
  import opened Bytes
  import opened PoolModel
  import opened PoolClose
  import opened PoolRuns
  import opened PageSession
  import opened FreeListFormat
  import opened FreeList
  import opened FreeListRuns
  import FreePageLists

  /** The log has no write to the store page. */
  ghost predicate Spares(log: seq<((nat, nat), Block)>, k: (nat, nat)) {
    forall i :: 0 <= i < |log| ==> log[i].0 != k
  }

  lemma {:induction false} FlatSpared(v: Block, log: seq<((nat, nat), Block)>, k: (nat, nat))
    requires Spares(log, k)
    ensures Flat(v, log, k) == v
    decreases |log|
  {
    if log != [] { FlatSpared(v, log[1..], k); }
  }

  /** A list, seen through the cache, survives every run of operations on the
      pool, its stores and their transactions in which no write-back to its store
      fails and no pin holder writes to a page of the list. */
  lemma ListSurvives(s: State, run: seq<Event>, st: nat, machine: Machine, l: ListHead, pages: seq<ListPage>)
    requires Inv(s) && Legal(s, run) && AllWritesSucceed(s, run, st) && st < |s.disks|
    requires Represents(Geometry(s.pageSize, machine), Vol(s, st), l, pages)
    requires forall i :: 0 <= i < |pages| ==> Spares(Log(s, run), (st, pages[i].id))
    ensures Represents(Geometry(s.pageSize, machine), Vol(After(s, run), st), l, pages)
  {
    var g, r := Geometry(s.pageSize, machine), After(s, run);
    RunInv(s, run);
    RunSizes(s, run);
    forall id: nat ensures |Vol(r, st)(id)| == s.pageSize {
      CacheTransparency(s, run, (st, id));
      ViewSized(r, (st, id));
    }
    forall i | 0 <= i < |pages| ensures Vol(r, st)(pages[i].id) == Vol(s, st)(pages[i].id) {
      CacheTransparency(s, run, (st, pages[i].id));
      FlatSpared(View(s, (st, pages[i].id)), Log(s, run), (st, pages[i].id));
    }
    SegmentFrame(g, Vol(s, st), Vol(r, st), l.head, pages, 0);
  }

  // ---------------------------------------------------------------------
  // Runs of list operations and other operations

  /** A call of Push or Pop by a transaction, which takes the pool to a state that
      the methods of FreePageList allow, or another operation on the pool. */
  datatype Step = ListCall(c: Call, t: nat, after: State) | PoolEvent(e: Event)

  ghost function ShapeOf(s: State, machine: Machine): Geometry {
    Geometry(s.pageSize, machine)
  }

  /** What the call leaves is what Push and Pop of FreePageList ensure. */
  ghost predicate CallAllowed(s: State, st: nat, machine: Machine, l: ListHead, stack: seq<nat>, x: Step)
    requires x.ListCall?
  {
    && x.t < |s.txns| && s.txns[x.t].store == st && Callable(ShapeOf(s, machine), Vol(s, st), x.c)
    && (x.c.PushCall? ==> x.c.id !in stack)
    && During(s, x.after, x.t, Do(ShapeOf(s, machine), Vol(s, st), l, x.c).0, multiset{})
  }

  /** The operation writes to no page of the list and no write-back to its store fails. */
  ghost predicate EventAllowed(s: State, st: nat, stack: seq<nat>, e: Event) {
    && Enabled(s, e) && WritesSucceed(s, e, st)
    && forall id :: id in stack ==> Spares(Effect(s, e), (st, id))
  }

  ghost predicate StepAllowed(s: State, st: nat, machine: Machine, l: ListHead, stack: seq<nat>, x: Step)
    requires Inv(s)
  {
    match x
    case ListCall(_, _, _) => CallAllowed(s, st, machine, l, stack, x)
    case PoolEvent(e) => EventAllowed(s, st, stack, e)
  }

  /** The state, the list and what the caller sees after a step. */
  ghost function Taken(s: State, st: nat, machine: Machine, l: ListHead, stack: seq<nat>, x: Step)
    : (r: (State, ListHead, seq<Outcome>))
    requires Inv(s) && StepAllowed(s, st, machine, l, stack, x)
    ensures Inv(r.0)
  {
    match x
    case ListCall(c, t, after) =>
      var (_, l', o) := Do(ShapeOf(s, machine), Vol(s, st), l, c);
      (after, l', [o])
    case PoolEvent(e) => NextInv(s, e); (Next(s, e), l, [])
  }

  ghost predicate Allowed(s: State, st: nat, machine: Machine, l: ListHead, stack: seq<nat>, steps: seq<Step>)
    requires Inv(s)
    decreases |steps|
  {
    steps == [] ||
    (&& StepAllowed(s, st, machine, l, stack, steps[0])
     && var (s', l', seen) := Taken(s, st, machine, l, stack, steps[0]);
        Allowed(s', st, machine, l', StackAfter(stack, seen), steps[1..]))
  }

  /** What the caller of Push and Pop sees over a run, and the state and list it ends in. */
  ghost function Seen(s: State, st: nat, machine: Machine, l: ListHead, stack: seq<nat>, steps: seq<Step>)
    : (State, ListHead, seq<Outcome>)
    requires Inv(s) && Allowed(s, st, machine, l, stack, steps)
    decreases |steps|
  {
    if steps == [] then (s, l, [])
    else
      var (s', l', seen) := Taken(s, st, machine, l, stack, steps[0]);
      var (last, end, rest) := Seen(s', st, machine, l', StackAfter(stack, seen), steps[1..]);
      (last, end, seen + rest)
  }

  lemma OneOutcome(stack: seq<nat>, o: Outcome, rest: seq<Outcome>)
    ensures StackAfter(stack, [o]) == Shift(stack, o)
    ensures IsStackHistory(stack, [o] + rest) <==> Answers(stack, o) && IsStackHistory(Shift(stack, o), rest)
    ensures StackAfter(stack, [o] + rest) == StackAfter(Shift(stack, o), rest)
  {
    assert [o][1..] == [] && ([o] + rest)[1..] == rest;
  }

  /** An operation on the pool that spares the list leaves it as it is. */
  lemma EventKeepsList(s: State, st: nat, machine: Machine, l: ListHead, pages: seq<ListPage>, e: Event)
    requires Inv(s) && st < |s.disks| && Represents(ShapeOf(s, machine), Vol(s, st), l, pages)
    requires EventAllowed(s, st, Stack(pages), e)
    ensures Inv(Next(s, e)) && st < |Next(s, e).disks| && Next(s, e).pageSize == s.pageSize
    ensures Represents(ShapeOf(s, machine), Vol(Next(s, e), st), l, pages)
  {
    var r := Next(s, e);
    NextInv(s, e);
    NextSizes(s, e);
    StepView(s, e, (st, 0));
    forall id: nat ensures |Vol(r, st)(id)| == s.pageSize { ViewSized(r, (st, id)); }
    forall i | 0 <= i < |pages| ensures Vol(r, st)(pages[i].id) == Vol(s, st)(pages[i].id) {
      PageIdInStack(pages, i);
      StepView(s, e, (st, pages[i].id));
      FlatSpared(View(s, (st, pages[i].id)), Effect(s, e), (st, pages[i].id));
    }
    SegmentFrame(ShapeOf(s, machine), Vol(s, st), Vol(r, st), l.head, pages, 0);
  }

  lemma CallRefines(s: State, st: nat, machine: Machine, l: ListHead, pages: seq<ListPage>, x: Step)
    returns (next: seq<ListPage>)
    requires Inv(s) && st < |s.disks| && Represents(ShapeOf(s, machine), Vol(s, st), l, pages)
    requires x.ListCall? && CallAllowed(s, st, machine, l, Stack(pages), x)
    ensures var (_, l', o) := Do(ShapeOf(s, machine), Vol(s, st), l, x.c);
      && Inv(x.after) && st < |x.after.disks| && x.after.pageSize == s.pageSize
      && Represents(ShapeOf(s, machine), Vol(x.after, st), l', next)
      && Answers(Stack(pages), o) && Stack(next) == Shift(Stack(pages), o)
  {
    next := DoRefines(ShapeOf(s, machine), Vol(s, st), l, pages, x.c);
    var (w, l', _) := Do(ShapeOf(s, machine), Vol(s, st), l, x.c);
    FreePageLists.SeenThroughPool(s, x.after, x.t, w, machine, l', next);
  }

  /** Over any run of Push and Pop on a list in the pool, interleaved with any other
      operations that spare the pages of the list, the list stays well-formed and its
      answers are those of a stack. */
  lemma {:induction false} StackInPool(s: State, st: nat, machine: Machine, l: ListHead, pages: seq<ListPage>,
                                       steps: seq<Step>) returns (last: seq<ListPage>)
    requires Inv(s) && st < |s.disks| && Represents(ShapeOf(s, machine), Vol(s, st), l, pages)
    requires Allowed(s, st, machine, l, Stack(pages), steps)
    ensures var (r, end, history) := Seen(s, st, machine, l, Stack(pages), steps);
      && IsStackHistory(Stack(pages), history)
      && Represents(ShapeOf(s, machine), Vol(r, st), end, last) && Stack(last) == StackAfter(Stack(pages), history)
    decreases |steps|
  {
    last := pages;
    if steps != [] {
      var (s', l', seen) := Taken(s, st, machine, l, Stack(pages), steps[0]);
      var (_, _, rest) := Seen(s', st, machine, l', StackAfter(Stack(pages), seen), steps[1..]);
      if steps[0].ListCall? {
        var next := CallRefines(s, st, machine, l, pages, steps[0]);
        OneOutcome(Stack(pages), seen[0], rest);
        last := StackInPool(s', st, machine, l', next, steps[1..]);
      } else {
        EventKeepsList(s, st, machine, l, pages, steps[0].e);
        assert seen + rest == rest;
        last := StackInPool(s', st, machine, l', pages, steps[1..]);
      }
    }
  }
}
