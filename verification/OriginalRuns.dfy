/**
 Whole runs of the original allocator (tlsf_ori.c:513-697): calls of malloc_ex, free_ex and
 realloc_ex on a heap and its bitmaps. Index and lists agree throughout a run if and only if
 every block that a call lists is of one of the first 32 lists of its row.
 */
module OriginalRuns {
  import opened SizeClasses
  import opened Heaps
  import opened HeapSteps
  import opened HeapOps
  import opened HeapFrames
  import opened HeapCalls
  import opened Original
  import opened OriginalIndex
  import opened OriginalLists
  import opened OriginalHeap
  import opened OriginalCalls
  import opened OriginalResults

  // realloc_ex for NULL is malloc_ex, and for 0 bytes free_ex.
  datatype Call =
    | MallocCall(size: nat)
    | FreeCall(block: int)
    | ReallocCall(block: int, size: nat)

  datatype State = State(heap: Heap, bits: Bitmaps)

  // What holds between calls, whatever the bits.
  ghost predicate Sound(s: State) {
    Whole(s.heap) && Sized(s.bits)
  }

  ghost predicate Agreeing(s: State) {
    Tuned(s.bits, s.heap)
  }

  // ---------------------------------------------------------------- one call

  // A request that can be searched for, where the search is defined.
  ghost predicate CanSearch(s: State, size: nat)
    requires Sound(s)
  {
    CanRound(size) && !Find(s.bits, ListOf(Wanted(size))).Undefined?
  }

  // What a call may be given. Each search must be defined.
  ghost predicate Allowed(s: State, call: Call)
    requires Sound(s)
  {
    match call
    case MallocCall(size) => CanSearch(s, size)
    case FreeCall(b) => Live(s.heap, b)
    case ReallocCall(b, size) =>
      && Live(s.heap, b) && Next(s.heap, b) in s.heap.blocks && 0 < size
      && (MustMove(s.heap, b, Adjusted(size)) ==> CanSearch(s, size))
  }

  // malloc_ex(size) finds block d, which is not NULL.
  ghost predicate Finds(s: State, size: nat, d: int)
    requires Sound(s) && CanRound(size)
  {
    d == Chosen(s.bits, s.heap, Wanted(size)) && d != NULL
  }

  ghost function Take(s: State, size: nat, d: int): (s': State)
    requires Sound(s) && CanRound(size) && Finds(s, size, d)
    ensures Sound(s') && CanTake(s.heap, d, Wanted(size)) && s'.heap == MallocEx(s.heap, d, Wanted(size))
  {
    ChosenFits(s.bits, s.heap, Wanted(size));
    State(MallocEx(s.heap, d, Wanted(size)), TakeBits(s.bits, s.heap, d, Wanted(size)))
  }

  // realloc_ex(b, size) must move and finds block d.
  ghost predicate MovesTo(s: State, b: int, size: nat, d: int)
    requires Sound(s)
  {
    && Live(s.heap, b) && Next(s.heap, b) in s.heap.blocks && MustMove(s.heap, b, Adjusted(size))
    && CanRound(size) && Finds(s, size, d)
  }

  ghost function MoveTo(s: State, b: int, size: nat, d: int): (s': State)
    requires Sound(s) && MovesTo(s, b, size, d)
    ensures Sound(s') && CanRelocate(s.heap, b, d, Wanted(size))
  {
    ChosenFits(s.bits, s.heap, Wanted(size));
    RoundedStarts(Adjusted(size));
    State(Move(s.heap, b, d, Wanted(size)), MoveBits(s.bits, s.heap, b, d, Wanted(size)))
  }

  // The path of realloc_ex that keeps the block in place.
  ghost function ResizeTo(s: State, b: int, n: nat): (s': State)
    requires Sound(s) && Live(s.heap, b) && Next(s.heap, b) in s.heap.blocks && RequestOk(n) && !MustMove(s.heap, b, n)
    ensures Sound(s')
  {
    var g, x := s.heap, s.bits;
    if n <= g.blocks[b].size then State(Shrink(g, b, n), ShrinkBits(x, g, b, n))
    else State(Grow(g, b, n), GrowBits(x, g, b, n))
  }

  ghost function Apply(s: State, call: Call): (s': State)
    requires Sound(s) && Allowed(s, call)
    ensures Sound(s')
  {
    match call
    case MallocCall(size) =>
      var d := Chosen(s.bits, s.heap, Wanted(size));
      if d == NULL then s else Take(s, size, d)
    case FreeCall(b) => State(FreeEx(s.heap, b), FreeBits(s.bits, s.heap, b))
    case ReallocCall(b, size) =>
      if !MustMove(s.heap, b, Adjusted(size)) then ResizeTo(s, b, Adjusted(size))
      else
        var d := Chosen(s.bits, s.heap, Wanted(size));
        if d == NULL then s else MoveTo(s, b, size, d)
  }

  // The address that a call returns, or NULL.
  ghost function Answer(s: State, call: Call): int
    requires Sound(s) && Allowed(s, call)
  {
    match call
    case MallocCall(size) => PayloadOf(Chosen(s.bits, s.heap, Wanted(size)))
    case FreeCall(_) => NULL
    case ReallocCall(b, size) =>
      if !MustMove(s.heap, b, Adjusted(size)) then PayloadOf(b) else PayloadOf(Chosen(s.bits, s.heap, Wanted(size)))
  }

  function PayloadOf(b: int): int {
    if b == NULL then NULL else b + METADATA_SIZE
  }

  // n is the least multiple of 16 from 16 on that holds size bytes.
  predicate Rounds16(size: nat, n: nat) {
    n % 16 == 0 && 16 <= n && size <= n && (n == 16 || n < size + 16)
  }

  lemma OneRounding(size: nat, n: nat)
    requires Rounds16(size, n)
    ensures Adjusted(size) == n
  {
    SameRounding(size, n, Adjusted(size));
  }

  lemma SameRounding(size: nat, n: nat, k: nat)
    requires Rounds16(size, n) && Rounds16(size, k)
    ensures n == k
  {
  }

  // Block b has stayed in place and has n to n + 16 bytes now.
  ghost predicate StaysAs(s': State, p: int, b: int, n: nat) {
    p == b + 16 && Live(s'.heap, b) && n <= s'.heap.blocks[b].size <= n + 16
  }

  // Address p is not that of block b, and b is live no more, or p is NULL and nothing has changed.
  ghost predicate LeavesAs(s: State, s': State, p: int, b: int) {
    p != b + 16 && if p == NULL then s' == s else !Live(s'.heap, b)
  }

  // Which path realloc_ex takes: the block stays where it is if and only if it holds the
  // request, or its size and that of a free block behind do. Otherwise what is returned is what
  // malloc_ex returns.
  lemma ReallocWhere(s: State, b: int, size: nat, n: nat)
    requires Sound(s) && Allowed(s, ReallocCall(b, size)) && Rounds16(size, n)
    ensures var cur, q := s.heap.blocks[b].size, s.heap.blocks[b + 16 + s.heap.blocks[b].size];
            if n <= cur || (q.free && n <= cur + q.size) then
              StaysAs(Apply(s, ReallocCall(b, size)), Answer(s, ReallocCall(b, size)), b, n)
            else
              && Allowed(s, MallocCall(size)) && Answer(s, ReallocCall(b, size)) == Answer(s, MallocCall(size))
              && LeavesAs(s, Apply(s, ReallocCall(b, size)), Answer(s, ReallocCall(b, size)), b)
  {
    OneRounding(size, n);
    MoveTold(s.heap, b, n, s.heap.blocks[b].size, s.heap.blocks[b + 16 + s.heap.blocks[b].size]);
    PathTold(s, b, size, n, Apply(s, ReallocCall(b, size)), Answer(s, ReallocCall(b, size)));
  }

  lemma MoveTold(g: Heap, b: int, n: nat, cur: nat, q: Block)
    requires b in g.blocks && Next(g, b) in g.blocks && cur == g.blocks[b].size && q == g.blocks[b + 16 + cur]
    ensures MustMove(g, b, n) <==> !(n <= cur || (q.free && n <= cur + q.size))
  {
  }

  lemma PathTold(s: State, b: int, size: nat, n: nat, s': State, p: int)
    requires Sound(s) && Allowed(s, ReallocCall(b, size)) && n == Adjusted(size)
    requires s' == Apply(s, ReallocCall(b, size)) && p == Answer(s, ReallocCall(b, size))
    ensures !MustMove(s.heap, b, n) ==> StaysAs(s', p, b, n)
    ensures MustMove(s.heap, b, n) ==> Allowed(s, MallocCall(size)) && p == Answer(s, MallocCall(size)) && LeavesAs(s, s', p, b)
  {
    if MustMove(s.heap, b, n) {
      ReallocLeaves(s, b, size, n);
    } else {
      ReallocStays(s, b, size, n);
    }
  }

  lemma ReallocStays(s: State, b: int, size: nat, n: nat)
    requires Sound(s) && Allowed(s, ReallocCall(b, size)) && n == Adjusted(size) && !MustMove(s.heap, b, n)
    ensures StaysAs(Apply(s, ReallocCall(b, size)), Answer(s, ReallocCall(b, size)), b, n)
  {
    assert SizedAt(s.heap, b);
    ResizedTo(s, b, n);
  }

  lemma ResizedTo(s: State, b: int, n: nat)
    requires Sound(s) && Live(s.heap, b) && Next(s.heap, b) in s.heap.blocks && RequestOk(n) && !MustMove(s.heap, b, n)
    ensures Live(ResizeTo(s, b, n).heap, b) && n <= ResizeTo(s, b, n).heap.blocks[b].size <= n + 16
  {
  }

  lemma ReallocLeaves(s: State, b: int, size: nat, n: nat)
    requires Sound(s) && Allowed(s, ReallocCall(b, size)) && n == Adjusted(size) && MustMove(s.heap, b, n)
    ensures Allowed(s, MallocCall(size)) && Answer(s, ReallocCall(b, size)) == Answer(s, MallocCall(size))
    ensures LeavesAs(s, Apply(s, ReallocCall(b, size)), Answer(s, ReallocCall(b, size)), b)
  {
    var d := Chosen(s.bits, s.heap, Wanted(size));
    assert SizedAt(s.heap, b);
    if d != NULL {
      MovedAway(s, b, size, d);
    }
  }

  lemma MovedAway(s: State, b: int, size: nat, d: int)
    requires Sound(s) && MovesTo(s, b, size, d)
    ensures 0 < d && d != b && !Live(MoveTo(s, b, size, d).heap, b)
  {
    ChosenFits(s.bits, s.heap, Wanted(size));
    assert SizedAt(s.heap, d);
  }

  // malloc_ex returns NULL and changes nothing, or the payload of a block that was free and is
  // live now, of n to n + 16 bytes, n the least size that it may search for.
  lemma MallocWhere(s: State, size: nat, n: nat)
    requires Sound(s) && Allowed(s, MallocCall(size)) && LeastGiven(size, n)
    ensures var p, s' := Answer(s, MallocCall(size)), Apply(s, MallocCall(size));
            if p == NULL then s' == s
            else
              && p - 16 in s.heap.blocks && s.heap.blocks[p - 16].free && n <= s.heap.blocks[p - 16].size
              && Live(s'.heap, p - 16) && n <= s'.heap.blocks[p - 16].size <= n + 16
  {
    OneLeast(size, n);
    if Chosen(s.bits, s.heap, n) != NULL {
      ChosenFits(s.bits, s.heap, n);
      assert SizedAt(s.heap, Chosen(s.bits, s.heap, n));
    }
  }

  // Index and lists agree after the call and, if it moves a block, when it has allocated.
  ghost predicate AgreesAfter(s: State, call: Call)
    requires Sound(s) && Allowed(s, call)
  {
    && (call.ReallocCall? && MustMove(s.heap, call.block, Adjusted(call.size)) ==>
          var d := Chosen(s.bits, s.heap, Wanted(call.size));
          d != NULL ==> Agreeing(Take(s, call.size, d)))
    && Agreeing(Apply(s, call))
  }

  // The blocks that the call lists, if any, are of lists that have a bit of their own. This
  // can be told from the sizes before the call.
  ghost predicate Narrowly(s: State, call: Call)
    requires Sound(s) && Allowed(s, call)
  {
    var g := s.heap;
    match call
    case MallocCall(size) =>
      var d := Chosen(s.bits, g, Wanted(size));
      d != NULL ==> d in g.blocks && NarrowTail(g.blocks[d].size, Wanted(size))
    case FreeCall(b) => CanMerge(g, b) && NarrowSize(MergedSize(g, b))
    case ReallocCall(b, size) =>
      if !MustMove(g, b, Adjusted(size)) then NarrowTail(Reach(g, b), Adjusted(size))
      else
        var d, n := Chosen(s.bits, g, Wanted(size)), Wanted(size);
        d != NULL ==>
          && CanTake(g, d, n) && NarrowTail(g.blocks[d].size, n)
          && CanMerge(g, b) && NarrowSize(MovedSize(g, b, d, n))
  }

  // One call keeps index and lists in agreement if and only if it does.
  lemma StepAgrees(s: State, call: Call)
    requires Sound(s) && Allowed(s, call) && Agreeing(s)
    ensures AgreesAfter(s, call) <==> Narrowly(s, call)
  {
    match call
    case MallocCall(size) =>
      var d := Chosen(s.bits, s.heap, Wanted(size));
      if d != NULL {
        TakeAgrees(s, size, d);
      }
    case FreeCall(b) =>
      MergedSizeIs(s.heap, b);
      FreeTuned(s.bits, s.heap, b, MergedSize(s.heap, b));
    case ReallocCall(b, size) =>
      if !MustMove(s.heap, b, Adjusted(size)) {
        ResizeAgrees(s, b, Adjusted(size));
      } else {
        var d := Chosen(s.bits, s.heap, Wanted(size));
        if d != NULL {
          MoveAgrees(s, b, size, d);
        }
      }
  }

  lemma TakeAgrees(s: State, size: nat, d: int)
    requires Sound(s) && CanRound(size) && Finds(s, size, d) && Agreeing(s)
    ensures CanTake(s.heap, d, Wanted(size))
    ensures Agreeing(Take(s, size, d)) <==> NarrowTail(s.heap.blocks[d].size, Wanted(size))
  {
    ChosenFits(s.bits, s.heap, Wanted(size));
    TakeTuned(s.bits, s.heap, d, Wanted(size));
  }

  lemma ResizeAgrees(s: State, b: int, n: nat)
    requires Sound(s) && Live(s.heap, b) && Next(s.heap, b) in s.heap.blocks && RequestOk(n) && !MustMove(s.heap, b, n)
    requires Agreeing(s)
    ensures Agreeing(ResizeTo(s, b, n)) <==> NarrowTail(Reach(s.heap, b), n)
  {
    if n <= s.heap.blocks[b].size {
      ShrinkTuned(s.bits, s.heap, b, n, Reach(s.heap, b));
    } else {
      GrowTuned(s.bits, s.heap, b, n, Reach(s.heap, b));
    }
  }

  lemma MoveAgrees(s: State, b: int, size: nat, d: int)
    requires Sound(s) && MovesTo(s, b, size, d) && Agreeing(s)
    ensures var g, n := s.heap, Wanted(size);
            && CanTake(g, d, n) && CanMerge(g, b)
            && (Agreeing(Take(s, size, d)) <==> NarrowTail(g.blocks[d].size, n))
            && (Agreeing(Take(s, size, d)) ==> (Agreeing(MoveTo(s, b, size, d)) <==> NarrowSize(MovedSize(g, b, d, n))))
  {
    TakeAgrees(s, size, d);
    var g, n, s' := s.heap, Wanted(size), MoveTo(s, b, size, d);
    MovedSizeIs(g, b, d, n);
    if NarrowTail(g.blocks[d].size, n) {
      MoveTuned(s.bits, g, b, d, n, MallocEx(g, d, n), MovedSize(g, b, d, n));
    }
  }

  // ---------------------------------------------------------------- runs

  ghost predicate Possible(s: State, calls: seq<Call>)
    requires Sound(s)
    decreases |calls|
  {
    calls == [] || (Allowed(s, calls[0]) && Possible(Apply(s, calls[0]), calls[1..]))
  }

  // What the calls of a run return, one after the other.
  ghost function Answers(s: State, calls: seq<Call>): (rs: seq<int>)
    requires Sound(s) && Possible(s, calls)
    ensures |rs| == |calls|
    decreases |calls|
  {
    if calls == [] then [] else [Answer(s, calls[0])] + Answers(Apply(s, calls[0]), calls[1..])
  }

  // The state after a run: whatever the bits, areas are tiled, flags and lists are right.
  ghost function Run(s: State, calls: seq<Call>): (s': State)
    requires Sound(s) && Possible(s, calls)
    ensures Sound(s')
    decreases |calls|
  {
    if calls == [] then s else Run(Apply(s, calls[0]), calls[1..])
  }

  // Index and lists agree before, between and after the calls.
  ghost predicate AgreeThroughout(s: State, calls: seq<Call>)
    requires Sound(s) && Possible(s, calls)
    decreases |calls|
  {
    Agreeing(s) && (calls == [] || (AgreesAfter(s, calls[0]) && AgreeThroughout(Apply(s, calls[0]), calls[1..])))
  }

  ghost predicate NarrowThroughout(s: State, calls: seq<Call>)
    requires Sound(s) && Possible(s, calls)
    decreases |calls|
  {
    calls == [] || (Narrowly(s, calls[0]) && NarrowThroughout(Apply(s, calls[0]), calls[1..]))
  }

  lemma {:induction false} RunAgrees(s: State, calls: seq<Call>)
    requires Sound(s) && Possible(s, calls)
    ensures AgreeThroughout(s, calls) <==> Agreeing(s) && NarrowThroughout(s, calls)
    decreases |calls|
  {
    if calls == [] {
    } else if Agreeing(s) {
      StepAgrees(s, calls[0]);
      RunAgrees(Apply(s, calls[0]), calls[1..]);
    }
  }

  // The state of a new pool.
  ghost function New(f: int, s: nat): (n: State)
    requires AreaOk(f, s)
    ensures Sound(n)
  {
    FreshIs(f, s, ListOf(s));
    State(FreshPool(f, s), FreshBits(f, s))
  }

  // From a new pool of one free block of s bytes on: if and only if that block, too, is of
  // one of the first 32 lists of its row.
  lemma AgreesFromNew(f: int, s: nat, calls: seq<Call>)
    requires AreaOk(f, s) && Possible(New(f, s), calls)
    ensures AgreeThroughout(New(f, s), calls) <==> NarrowSize(s) && NarrowThroughout(New(f, s), calls)
  {
    FreshAgrees(f, s);
    RunAgrees(New(f, s), calls);
  }

  // After such a run a request is served if and only if some free block has n bytes, n the
  // least multiple of 16 from 16 on that holds the request and starts a class, if the class of
  // n has a bit of its own.
  lemma ServedAfterRun(s: State, calls: seq<Call>, size: nat, n: nat)
    requires Sound(s) && Possible(s, calls) && Agreeing(s) && NarrowThroughout(s, calls)
    requires size <= 0xff00_0000 && LeastGiven(size, n) && NarrowSize(n)
    ensures var s' := Run(s, calls);
            && Allowed(s', MallocCall(size))
            && (Answer(s', MallocCall(size)) == NULL
                <==> forall b | b in s'.heap.blocks && s'.heap.blocks[b].free :: s'.heap.blocks[b].size < n)
  {
    CanRoundSizes(size);
    OneLeast(size, n);
    RunAgrees(s, calls);
    AgreesAtEnd(s, calls);
    var s' := Run(s, calls);
    FindDefined(s'.bits, s'.heap.lists, ListOf(n));
    ChosenIffRoom(s'.bits, s'.heap, n);
    MallocWhere(s', size, n);
  }

  lemma {:induction false} AgreesAtEnd(s: State, calls: seq<Call>)
    requires Sound(s) && Possible(s, calls) && AgreeThroughout(s, calls)
    ensures Agreeing(Run(s, calls))
    decreases |calls|
  {
    if calls == [] {
    } else {
      AgreesAtEnd(Apply(s, calls[0]), calls[1..]);
    }
  }
}
