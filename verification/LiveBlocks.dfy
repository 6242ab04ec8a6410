/**
 Which blocks clients hold after a call: exactly those they held before, less the block
 given up, plus the block returned.
 */
module LiveBlocks {
  import opened SizeClasses
  import opened Alignment
  import opened Heaps
  import opened HeapSteps
  import opened HeapOps
  import opened HeapFrames
  import opened HeapCalls
  import opened Requests
  import opened CallFrames

  ghost predicate OldAt(g: Heap, g': Heap, x: int) {
    Live(g', x) ==> Live(g, x)
  }

  // No block but y becomes live.
  ghost predicate NoneNew(g: Heap, g': Heap, y: int) {
    forall x {:trigger OldAt(g, g', x)} | x != y :: OldAt(g, g', x)
  }

  lemma NoneNewTwice(g: Heap, g1: Heap, g2: Heap, y: int)
    requires NoneNew(g, g1, y) && NoneNew(g1, g2, y)
    ensures NoneNew(g, g2, y)
  {
    forall x | x != y
      ensures OldAt(g, g2, x)
    {
      assert OldAt(g, g1, x) && OldAt(g1, g2, x);
    }
  }

  lemma SplitNew(g: Heap, b: int, n: nat, pf: bool, y: int)
    requires SplitOk(g, b, n)
    ensures NoneNew(g, Split(g, b, n, pf), y)
  {
    forall x | x != y
      ensures OldAt(g, Split(g, b, n, pf), x)
    {
    }
  }

  lemma AbsorbNew(g: Heap, p: int, y: int)
    requires AbsorbOk(g, p)
    ensures NoneNew(g, Absorb(g, p), y)
  {
    forall x | x != y
      ensures OldAt(g, Absorb(g, p), x)
    {
    }
  }

  lemma MarkNew(g: Heap, b: int, free: bool, y: int)
    requires b in g.blocks && Next(g, b) in g.blocks && (free || y == b || !g.blocks[b].free)
    ensures NoneNew(g, Mark(g, b, free), y)
  {
    forall x | x != y
      ensures OldAt(g, Mark(g, b, free), x)
    {
    }
  }

  lemma SameBlocksNew(g: Heap, g': Heap, y: int)
    requires g'.blocks == g.blocks
    ensures NoneNew(g, g', y)
  {
    forall x | x != y
      ensures OldAt(g, g', x)
    {
    }
  }

  // ---------------------------------------------------------------- the operations

  lemma TrimFreeNew(g: Heap, b: int, n: nat, y: int)
    requires Pending(g, b, {b}) && SizeOk(n)
    ensures NoneNew(g, TrimFree(g, b, n), y)
  {
    if CanSplit(g, b, n) {
      SplitTail(g, b, n);
      var g1 := Split(g, b, n, true);
      SplitNew(g, b, n, true, y);
      SameBlocksNew(g1, TrimFree(g, b, n), y);
      NoneNewTwice(g, g1, TrimFree(g, b, n), y);
    } else {
      SameBlocksNew(g, TrimFree(g, b, n), y);
    }
  }

  lemma PrepareUsedNew(g: Heap, b: int, n: nat)
    requires Pending(g, b, {b}) && SizeOk(n)
    ensures NoneNew(g, PrepareUsed(g, b, n), b)
  {
    var t := TrimFree(g, b, n);
    TrimFreeNew(g, b, n, b);
    MarkUsedInv(t, b);
    MarkNew(t, b, false, b);
    NoneNewTwice(g, t, PrepareUsed(g, b, n), b);
  }

  lemma MergePrevNew(g: Heap, b: int, y: int)
    requires b in g.blocks && Pending(g, b, {b, Next(g, b)})
    ensures NoneNew(g, MergePrev(g, b).0, y)
  {
    if g.blocks[b].prevFree {
      MergePrevStep(g, b);
      var p := g.blocks[b].prev;
      var g1 := Remove(g, p);
      SameBlocksNew(g, g1, y);
      AbsorbNew(g1, p, y);
      NoneNewTwice(g, g1, MergePrev(g, b).0, y);
    } else {
      SameBlocksNew(g, g, y);
    }
  }

  lemma MergeNextNew(g: Heap, b: int, y: int)
    requires b in g.blocks && Pending(g, b, {Next(g, b)})
    ensures NoneNew(g, MergeNext(g, b), y)
  {
    assert ChainedAt(g, b);
    if g.blocks[Next(g, b)].free {
      MergeNextPending(g, b);
      var g1 := Remove(g, Next(g, b));
      SameBlocksNew(g, g1, y);
      AbsorbNew(g1, b, y);
      NoneNewTwice(g, g1, MergeNext(g, b), y);
    } else {
      SameBlocksNew(g, g, y);
    }
  }

  // The freed block itself is no longer live, and none becomes live.
  lemma FreeNew(g: Heap, b: int, y: int)
    requires Inv(g) && Live(g, b)
    ensures NoneNew(g, Free(g, b), y) && !Live(Free(g, b), b)
  {
    DropUserInv(g, b, 0);
    var g0 := DropUser(g, b, 0);
    MarkFreePending(g0, b);
    var g1 := Mark(g0, b, true);
    var (g2, p) := MergePrev(g1, b);
    var g3, g4 := MergeNext(g2, p), Free(g, b);
    SameBlocksNew(g, g0, y);
    MarkNew(g0, b, true, y);
    NoneNewTwice(g, g0, g1, y);
    AfterMark(g1, b, g2, p, g3, g4, y);
    NoneNewTwice(g, g1, g4, y);
  }

  lemma AfterMark(g1: Heap, b: int, g2: Heap, p: int, g3: Heap, g4: Heap, y: int)
    requires b in g1.blocks && Pending(g1, b, {b, Next(g1, b)}) && (g2, p) == MergePrev(g1, b) && g3 == MergeNext(g2, p)
    requires g4.blocks == g3.blocks
    ensures NoneNew(g1, g4, y) && !Live(g4, b)
  {
    MergedNew(g1, b, g2, p, g3, g4, y);
    MergedNew(g1, b, g2, p, g3, g4, b + 1);
    assert OldAt(g1, g4, b);
  }

  lemma MergedNew(g1: Heap, b: int, g2: Heap, p: int, g3: Heap, g4: Heap, y: int)
    requires b in g1.blocks && Pending(g1, b, {b, Next(g1, b)}) && (g2, p) == MergePrev(g1, b) && g3 == MergeNext(g2, p)
    requires g4.blocks == g3.blocks
    ensures NoneNew(g1, g4, y)
  {
    MergePrevNew(g1, b, y);
    MergeNextNew(g2, p, y);
    SameBlocksNew(g3, g4, y);
    NoneNewTwice(g1, g2, g3, y);
    NoneNewTwice(g1, g3, g4, y);
  }

  lemma TrimUsedNew(g: Heap, b: int, n: nat, y: int)
    requires Inv(g) && Live(g, b) && SizeOk(n) && NoUserAbove(g, b, n)
    ensures NoneNew(g, TrimUsed(g, b, n), y)
  {
    if CanSplit(g, b, n) {
      SplitUsedStep(g, b, n);
      var g1, r := Split(g, b, n, false), Rest(b, n);
      var g2 := MergeNext(g1, r);
      SplitNew(g, b, n, false, y);
      MergeNextNew(g1, r, y);
      NoneNewTwice(g, g1, g2, y);
      SameBlocksNew(g2, TrimUsed(g, b, n), y);
      NoneNewTwice(g, g2, TrimUsed(g, b, n), y);
    } else {
      SameBlocksNew(g, g, y);
    }
  }

  lemma ExpandNew(g: Heap, b: int, y: int)
    requires Inv(g) && Live(g, b) && Next(g, b) in g.blocks && g.blocks[Next(g, b)].free
    ensures NoneNew(g, Expand(g, b), y)
  {
    ExpandStep(g, b);
    var g1 := Remove(g, Next(g, b));
    var g2 := Absorb(g1, b);
    SameBlocksNew(g, g1, y);
    AbsorbNew(g1, b, y);
    MarkNew(g2, b, false, y);
    NoneNewTwice(g, g1, g2, y);
    NoneNewTwice(g, g2, Expand(g, b), y);
  }

  lemma ResizeNew(g: Heap, b: int, adjust: nat, y: int)
    requires Inv(g) && Live(g, b) && SizeOk(adjust) && Next(g, b) in g.blocks && FitsInPlace(g, b, adjust)
    ensures NoneNew(g, Resize(g, b, adjust), y)
  {
    if adjust > g.blocks[b].size {
      OwnDataBelow(g, b, adjust);
      var g1 := Expand(g, b);
      ExpandNew(g, b, y);
      TrimUsedNew(g1, b, adjust, y);
      NoneNewTwice(g, g1, TrimUsed(g1, b, adjust), y);
    } else {
      DropUserInv(g, b, adjust);
      var g1 := DropUser(g, b, adjust);
      SameBlocksNew(g, g1, y);
      TrimUsedNew(g1, b, adjust, y);
      NoneNewTwice(g, g1, TrimUsed(g1, b, adjust), y);
    }
  }

  // ---------------------------------------------------------------- what clients hold

  // The blocks that clients hold.
  ghost function Held(g: Heap): set<int> {
    set b | b in g.blocks && Live(g, b)
  }

  // The block that a call returned, if any.
  ghost function Returned(o: Outcome): set<int> {
    if o.ptr == NULL then {} else {o.ptr - BLOCK_START_OFFSET}
  }

  // All live blocks are kept, and only y is new.
  lemma HeldPlus(g: Heap, g': Heap, y: int)
    requires Kept(g, g', y) && NoneNew(g, g', y) && Live(g', y)
    ensures Held(g') == Held(g) + {y}
  {
    forall x
      ensures x in Held(g') <==> x == y || x in Held(g)
    {
      assert x != y ==> KeptAt(g, g', x) && OldAt(g, g', x);
    }
  }

  lemma HeldMinus(g: Heap, g': Heap, y: int)
    requires Kept(g, g', y) && NoneNew(g, g', y) && !Live(g', y)
    ensures Held(g') == Held(g) - {y}
  {
    forall x
      ensures x in Held(g') <==> x != y && x in Held(g)
    {
      assert x != y ==> KeptAt(g, g', x) && OldAt(g, g', x);
    }
  }

  lemma FreeHeld(g: Heap, b: int)
    requires Inv(g) && Live(g, b)
    ensures Held(Free(g, b)) == Held(g) - {b}
  {
    FreeFrame(g, b);
    FreeNew(g, b, b);
    HeldMinus(g, Free(g, b), b);
  }

  lemma MallocHeld(g: Heap, size: nat)
    requires Inv(g)
    ensures Held(Malloc(g, size).heap) == Held(g) + Returned(Malloc(g, size))
  {
    var n := AdjustRequest(size, ALIGN_SIZE);
    match Locate(g, n) {
      case Nothing =>
      case At(c) =>
        LocatedBlock(g, n);
        PreparedHeld(g, g.lists[c][0], n, Malloc(g, size));
    }
  }

  lemma PreparedHeld(g: Heap, b: int, n: nat, o: Outcome)
    requires b in g.blocks && ClassOf(g.blocks[b].size) in g.lists && Pending(Remove(g, b), b, {b}) && SizeOk(n)
    requires o == Outcome(PrepareUsed(Remove(g, b), b, n), b + BLOCK_START_OFFSET) && o.ptr != NULL && Holds(o, n)
    ensures Held(o.heap) == Held(g) + Returned(o)
  {
    var g1 := Remove(g, b);
    SameBlocksKeep(g, g1, b);
    SameBlocksNew(g, g1, b);
    PrepareUsedKeeps(g1, b, n, b);
    PrepareUsedNew(g1, b, n);
    KeptTwice(g, g1, o.heap, b);
    NoneNewTwice(g, g1, o.heap, b);
    HeldPlus(g, o.heap, b);
  }

  lemma TrimLeadingNew(g: Heap, b: int, gap: nat, y: int)
    requires Pending(g, b, {}) && gap % ALIGN_SIZE == 0 && BLOCK_HEADER_SIZE <= gap
    ensures NoneNew(g, TrimLeading(g, b, gap).0, y)
  {
    var g' := TrimLeading(g, b, gap).0;
    if CanSplit(g, b, gap) {
      SplitLeadStep(g, b, gap);
      var n := gap - METADATA_SIZE;
      var g1 := Split(g, b, n, true);
      SplitNew(g, b, n, true, y);
      SameBlocksNew(g1, g', y);
      NoneNewTwice(g, g1, g', y);
    } else {
      SameBlocksNew(g, g', y);
    }
  }

  lemma MemalignHeld(g: Heap, align: nat, size: nat)
    requires Inv(g) && PowerOfTwo(align)
    ensures Held(Memalign(g, align, size).heap) == Held(g) + Returned(Memalign(g, align, size))
  {
    var adjust := AdjustRequest(size, ALIGN_SIZE);
    match Locate(g, AlignedNeed(align, adjust)) {
      case Nothing =>
      case At(c) =>
        LocatedAligned(g, align, adjust);
        var b := g.lists[c][0];
        MemalignIs(g, c, b, align, adjust, size);
        AlignedHeld(g, b, align, adjust);
    }
  }

  lemma AlignedHeld(g: Heap, b: int, align: nat, adjust: nat)
    requires b in g.blocks && ClassOf(g.blocks[b].size) in g.lists
    requires Pending(Remove(g, b), b, {}) && align > 0 && 0 <= b
    requires GapGood(b + BLOCK_START_OFFSET, align, adjust, g.blocks[b].size) && SizeOk(adjust)
    ensures var o := PrepareAligned(Remove(g, b), b, align, adjust); Held(o.heap) == Held(g) + Returned(o)
  {
    var g1 := Remove(g, b);
    var (g2, r) := AlignBlock(g1, b, align, adjust);
    var o := PrepareAligned(g1, b, align, adjust);
    var gap := Gap(b + BLOCK_START_OFFSET, align);
    if gap > 0 {
      TrimLeadingNew(g1, b, gap, r);
    } else {
      SameBlocksNew(g1, g2, r);
    }
    SameBlocksNew(g, g1, r);
    NoneNewTwice(g, g1, g2, r);
    PrepareUsedNew(g2, r, adjust);
    NoneNewTwice(g, g2, o.heap, r);
    RemovedFrame(g, b, align, adjust, r);
    HeldPlus(g, o.heap, r);
  }

  // A reallocation gives up the block and returns one, or fails and gives up nothing.
  lemma ReallocHeld(g: Heap, b: int, size: nat)
    requires Inv(g) && Live(g, b) && AdjustRequest(size, ALIGN_SIZE) > 0
    ensures var o := Realloc(g, b, size); o.ptr != NULL ==> Held(o.heap) == Held(g) - {b} + Returned(o)
  {
    var adjust := AdjustRequest(size, ALIGN_SIZE);
    assert ShapedAt(g, b) && ChainedAt(g, b);
    if FitsInPlace(g, b, adjust) {
      InPlaceHeld(g, b, adjust, Realloc(g, b, size));
    } else {
      RelocatedHeld(g, b, size, Realloc(g, b, size));
    }
  }

  lemma InPlaceHeld(g: Heap, b: int, adjust: nat, o: Outcome)
    requires Inv(g) && Live(g, b) && SizeOk(adjust) && Next(g, b) in g.blocks && FitsInPlace(g, b, adjust)
    requires o == Outcome(Resize(g, b, adjust), b + BLOCK_START_OFFSET)
    ensures Held(o.heap) == Held(g) - {b} + Returned(o)
  {
    ResizedHeld(g, b, adjust);
    assert ShapedAt(g, b);
  }

  lemma RelocatedHeld(g: Heap, b: int, size: nat, o: Outcome)
    requires Inv(g) && Live(g, b) && g.blocks[b].size < AdjustRequest(size, ALIGN_SIZE) && o == Relocate(g, b, size)
    ensures o.ptr != NULL ==> Held(o.heap) == Held(g) - {b} + Returned(o)
  {
    MoveReady(g, b, size);
    MovedOutcome(g, b, size, Malloc(g, size), o);
  }

  lemma MovedOutcome(g: Heap, b: int, size: nat, o: Outcome, o': Outcome)
    requires Inv(g) && o == Malloc(g, size) && MoveOk(o, b) && o' == MoveInto(o, b)
    ensures o'.ptr != NULL ==> Held(o'.heap) == Held(g) - {b} + Returned(o')
  {
    MovedTo(g, b, size, o);
    HeldReturned(o, MoveInto(o, b), o', Held(g) - {b});
  }

  lemma HeldReturned(o: Outcome, o1: Outcome, o': Outcome, s: set<int>)
    requires o1 == o' && o1.ptr == o.ptr && (o.ptr != NULL ==> Held(o1.heap) == s + Returned(o))
    ensures o'.ptr != NULL ==> Held(o'.heap) == s + Returned(o')
  {
  }

  lemma MovedTo(g: Heap, b: int, size: nat, o: Outcome)
    requires Inv(g) && o == Malloc(g, size) && MoveOk(o, b)
    ensures o.ptr != NULL ==> Held(MoveInto(o, b).heap) == Held(g) - {b} + Returned(o)
  {
    HeldAfter(g, size, o);
    MovedHeld(g, o, b);
  }

  lemma HeldAfter(g: Heap, size: nat, o: Outcome)
    requires Inv(g) && o == Malloc(g, size)
    ensures Held(o.heap) == Held(g) + Returned(o)
  {
    MallocHeld(g, size);
  }

  lemma ResizedHeld(g: Heap, b: int, adjust: nat)
    requires Inv(g) && Live(g, b) && SizeOk(adjust) && Next(g, b) in g.blocks && FitsInPlace(g, b, adjust)
    ensures Held(Resize(g, b, adjust)) == Held(g) - {b} + {b}
  {
    ResizedOnly(g, b, adjust);
    HeldStill(g, Resize(g, b, adjust), b);
  }

  lemma ResizedOnly(g: Heap, b: int, adjust: nat)
    requires Inv(g) && Live(g, b) && SizeOk(adjust) && Next(g, b) in g.blocks && FitsInPlace(g, b, adjust)
    ensures Only(g, Resize(g, b, adjust), b)
  {
    ResizeFrame(g, b, adjust);
    ResizeNew(g, b, adjust, b);
    ResizeLive(g, b, adjust);
  }

  lemma ResizeLive(g: Heap, b: int, adjust: nat)
    requires Inv(g) && Live(g, b) && SizeOk(adjust) && Next(g, b) in g.blocks && FitsInPlace(g, b, adjust)
    ensures Live(Resize(g, b, adjust), b)
  {
    ResizeHolds(g, b, adjust);
    HoldsLive(Outcome(Resize(g, b, adjust), b + BLOCK_START_OFFSET), adjust, b);
  }

  lemma HoldsLive(o: Outcome, n: int, b: int)
    requires Holds(o, n) && o.ptr == b + BLOCK_START_OFFSET
    ensures Live(o.heap, b)
  {
  }

  // Block b is live, and all others are as before.
  ghost predicate Only(g: Heap, g': Heap, b: int) {
    Kept(g, g', b) && NoneNew(g, g', b) && Live(g', b)
  }

  lemma HeldStill(g: Heap, g': Heap, b: int)
    requires Only(g, g', b)
    ensures Held(g') == Held(g) - {b} + {b}
  {
    HeldPlus(g, g', b);
  }

  lemma MovedHeld(g: Heap, o: Outcome, b: int)
    requires MoveOk(o, b) && Held(o.heap) == Held(g) + Returned(o)
    ensures o.ptr != NULL ==> Held(MoveInto(o, b).heap) == Held(g) - {b} + Returned(o)
  {
    if o.ptr != NULL {
      MoveGivesUp(o, b, o.ptr - BLOCK_START_OFFSET);
      Exchange(Held(g), b, o.ptr - BLOCK_START_OFFSET);
    }
  }

  lemma MoveGivesUp(o: Outcome, b: int, d: int)
    requires MoveOk(o, b) && o.ptr != NULL && d == o.ptr - BLOCK_START_OFFSET
    ensures b != d && Held(MoveInto(o, b).heap) == Held(o.heap) - {b}
  {
    MoveIntoIs(o, b, d);
    CopiedHeld(o.heap, b, d);
  }

  lemma CopiedHeld(g: Heap, b: int, d: int)
    requires Inv(CopyUser(g, b, d)) && Live(CopyUser(g, b, d), b)
    ensures Held(Free(CopyUser(g, b, d), b)) == Held(g) - {b}
  {
    FreeHeld(CopyUser(g, b, d), b);
    assert Held(CopyUser(g, b, d)) == Held(g);
  }

  lemma Exchange(s: set<int>, b: int, d: int)
    requires b != d
    ensures s + {d} - {b} == s - {b} + {d}
  {
  }
}
