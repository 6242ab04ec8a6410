/**
 Non-interference of the public calls: whatever a call does, the live blocks that it was
 not given stay live where they are, at their size, with the data their owners put there.
 */
module CallFrames {
  import opened SizeClasses
  import opened Alignment
  import opened Heaps
  import opened HeapSteps
  import opened HeapOps
  import opened HeapFrames
  import opened HeapCalls
  import opened Requests

  lemma SameUser(g: Heap, g': Heap, b: int)
    requires g'.user == g.user
    ensures OthersData(g, g', b)
  {
    forall a | a in g.user && g.user[a].owner != b
      ensures KeptWord(g, g', a)
    {
    }
  }

  lemma MallocFrame(g: Heap, size: nat, y: int)
    requires Inv(g)
    ensures Leaves(g, Malloc(g, size).heap, y) && SameClaims(g, Malloc(g, size).heap)
    ensures Malloc(g, size).ptr != NULL ==> !Live(g, Malloc(g, size).ptr - BLOCK_START_OFFSET)
  {
    var n := AdjustRequest(size, ALIGN_SIZE);
    AllocateKeeps(g, n, y);
    AllocateUser(g, n);
    SameUser(g, Malloc(g, size).heap, y);
  }

  lemma FreeFrame(g: Heap, b: int)
    requires Inv(g) && Live(g, b)
    ensures Leaves(g, Free(g, b), b) && SameClaims(g, Free(g, b))
  {
    FreeKeeps(g, b);
    FreeUser(g, b);
    forall a | a in g.user && g.user[a].owner != b
      ensures KeptWord(g, Free(g, b), a)
    {
    }
  }

  // ---------------------------------------------------------------- tlsf_memalign

  lemma TrimLeadingFrame(g: Heap, b: int, gap: nat, y: int)
    requires Pending(g, b, {}) && gap % ALIGN_SIZE == 0 && BLOCK_HEADER_SIZE <= gap
    ensures var g' := TrimLeading(g, b, gap).0; Kept(g, g', y) && g'.user == g.user && SameClaims(g, g')
  {
    var g' := TrimLeading(g, b, gap).0;
    if CanSplit(g, b, gap) {
      SplitLeadStep(g, b, gap);
      var g1 := Split(g, b, gap - METADATA_SIZE, true);
      SplitKeeps(g, b, gap - METADATA_SIZE, true, y);
      SameBlocksKeep(g1, g', y);
      KeptTwice(g, g1, g', y);
    } else {
      SameBlocksKeep(g, g', y);
    }
  }

  lemma PrepareAlignedFrame(g: Heap, b: int, align: nat, adjust: nat, y: int)
    requires Pending(g, b, {}) && align > 0 && 0 <= b
    requires GapGood(b + BLOCK_START_OFFSET, align, adjust, g.blocks[b].size)
    requires SizeOk(adjust)
    ensures var g' := PrepareAligned(g, b, align, adjust).heap; Kept(g, g', y) && g'.user == g.user && SameClaims(g, g')
  {
    var (g1, b1) := AlignBlock(g, b, align, adjust);
    var gap := Gap(b + BLOCK_START_OFFSET, align);
    if gap > 0 {
      TrimLeadingFrame(g, b, gap, y);
    } else {
      SameBlocksKeep(g, g1, y);
    }
    PrepareUsedKeeps(g1, b1, adjust, y);
    PrepareUsedUser(g1, b1, adjust);
    KeptTwice(g, g1, PrepareUsed(g1, b1, adjust), y);
  }

  lemma MemalignFrame(g: Heap, align: nat, size: nat, y: int)
    requires Inv(g) && PowerOfTwo(align)
    ensures Leaves(g, Memalign(g, align, size).heap, y) && SameClaims(g, Memalign(g, align, size).heap)
  {
    var adjust := AdjustRequest(size, ALIGN_SIZE);
    match Locate(g, AlignedNeed(align, adjust)) {
      case Nothing =>
        SameBlocksKeep(g, g, y);
        SameUser(g, g, y);
      case At(c) =>
        LocatedAligned(g, align, adjust);
        var b := g.lists[c][0];
        MemalignIs(g, c, b, align, adjust, size);
        RemovedFrame(g, b, align, adjust, y);
    }
  }

  lemma RemovedFrame(g: Heap, b: int, align: nat, adjust: nat, y: int)
    requires b in g.blocks && ClassOf(g.blocks[b].size) in g.lists
    requires Pending(Remove(g, b), b, {}) && align > 0 && 0 <= b
    requires GapGood(b + BLOCK_START_OFFSET, align, adjust, g.blocks[b].size) && SizeOk(adjust)
    ensures var g' := PrepareAligned(Remove(g, b), b, align, adjust).heap; Leaves(g, g', y) && SameClaims(g, g')
  {
    var g1 := Remove(g, b);
    var g' := PrepareAligned(g1, b, align, adjust).heap;
    PrepareAlignedFrame(g1, b, align, adjust, y);
    SameBlocksKeep(g, g1, y);
    KeptTwice(g, g1, g', y);
    SameUser(g, g', y);
  }

  // ---------------------------------------------------------------- tlsf_realloc

  lemma ResizeFrame(g: Heap, b: int, adjust: nat)
    requires Inv(g) && Live(g, b) && SizeOk(adjust) && Next(g, b) in g.blocks && FitsInPlace(g, b, adjust)
    ensures Kept(g, Resize(g, b, adjust), b) && SameClaims(g, Resize(g, b, adjust))
  {
    if adjust > g.blocks[b].size {
      OwnDataBelow(g, b, adjust);
      var g1 := Expand(g, b);
      ExpandKeeps(g, b);
      TrimUsedKeeps(g1, b, adjust);
      TrimUsedUser(g1, b, adjust);
      KeptTwice(g, g1, TrimUsed(g1, b, adjust), b);
    } else {
      DropUserInv(g, b, adjust);
      var g1 := DropUser(g, b, adjust);
      SameBlocksKeep(g, g1, b);
      TrimUsedKeeps(g1, b, adjust);
      TrimUsedUser(g1, b, adjust);
      KeptTwice(g, g1, TrimUsed(g1, b, adjust), b);
    }
  }

  lemma MoveIntoFrame(g: Heap, o: Outcome, b: int)
    requires MoveOk(o, b) && Kept(g, o.heap, b) && SameClaims(g, o.heap)
    ensures Kept(g, MoveInto(o, b).heap, b) && SameClaims(g, MoveInto(o, b).heap)
  {
    if o.ptr != NULL {
      var d := o.ptr - BLOCK_START_OFFSET;
      MoveIntoAt(o, b, d);
      MoveUserFrame(o.heap, b, d);
      KeptTwice(g, o.heap, MoveInto(o, b).heap, b);
    }
  }

  lemma MoveUserFrame(g: Heap, b: int, d: int)
    requires Inv(g) && b in g.blocks && CanMove(g, b, d, g.blocks[b].size)
    ensures Kept(g, MoveUser(g, b, d), b) && SameClaims(g, MoveUser(g, b, d))
  {
    MoveUserIs(g, b, d);
    var g1 := CopyUser(g, b, d);
    SameBlocksKeep(g, g1, b);
    FreeKeeps(g1, b);
    FreeUser(g1, b);
    KeptTwice(g, g1, MoveUser(g, b, d), b);
  }

  lemma ReallocFrame(g: Heap, b: int, size: nat)
    requires Inv(g) && Live(g, b) && AdjustRequest(size, ALIGN_SIZE) > 0
    ensures Leaves(g, Realloc(g, b, size).heap, b) && SameClaims(g, Realloc(g, b, size).heap)
  {
    var adjust := AdjustRequest(size, ALIGN_SIZE);
    ReallocKeepsData(g, b, size);
    assert ShapedAt(g, b) && ChainedAt(g, b);
    if FitsInPlace(g, b, adjust) {
      ResizeFrame(g, b, adjust);
    } else {
      MoveReady(g, b, size);
      MallocFrame(g, size, b);
      MoveIntoFrame(g, Malloc(g, size), b);
    }
  }

  // ---------------------------------------------------------------- pools and client accesses

  lemma AddPoolFrame(g: Heap, mem: int, bytes: nat, y: int)
    requires Inv(g) && (PoolSizeOk(mem, bytes) ==> PoolReady(g, mem, bytes))
    ensures Leaves(g, AddPool(g, mem, bytes).heap, y)
    ensures forall f | f in g.pools :: f in AddPool(g, mem, bytes).heap.pools && AddPool(g, mem, bytes).heap.pools[f] == g.pools[f]
  {
    var g' := AddPool(g, mem, bytes).heap;
    forall x | x in g.blocks
      ensures PoolSizeOk(mem, bytes) ==> x in g'.blocks && g'.blocks[x] == g.blocks[x] && (x in g.pools ==> g'.pools[x] == g.pools[x])
    {
      if PoolSizeOk(mem, bytes) {
        PlacePoolPending(g, mem, bytes);
        PlacePoolFresh(g, mem, bytes, x);
      }
    }
    forall f | f in g.pools
      ensures f in g.blocks
    {
      assert PooledAt(g, f);
    }
    forall x | x != y
      ensures KeptAt(g, g', x)
    {
    }
    SameUser(g, g', y);
  }

  lemma RemovePoolFrame(g: Heap, f: int, y: int)
    requires Inv(g) && Vacant(g, f)
    ensures Leaves(g, RemovePool(g, f), y)
  {
    assert PooledAt(g, f) && ShapedAt(g, g.pools[f]);
    forall x | x != y
      ensures KeptAt(g, RemovePool(g, f), x)
    {
    }
    SameUser(g, RemovePool(g, f), y);
  }

  lemma WriteFrame(g: Heap, b: int, a: int, w: nat)
    requires Inv(g) && InPayload(g, b, a)
    ensures Leaves(g, Write(g, b, a, w), b) && SameClaims(g, Write(g, b, a, w))
  {
    SameBlocksKeep(g, Write(g, b, a, w), b);
    forall x | x in g.user && g.user[x].owner != b
      ensures KeptWord(g, Write(g, b, a, w), x)
    {
      assert UserAt(g, x) && Apart(g, g.user[x].owner, b);
    }
  }

  // ---------------------------------------------------------------- results are apart from what is live

  // The payload that the call returned shares no byte with that of block x, which is live
  // before and after the call.
  ghost predicate ApartFrom(g: Heap, o: Outcome, x: int)
    requires x in g.blocks
  {
    var p := o.ptr - BLOCK_START_OFFSET;
    && p != x && Live(o.heap, p) && Live(o.heap, x) && o.heap.blocks[x].size == g.blocks[x].size
    && (p + BLOCK_START_OFFSET + o.heap.blocks[p].size <= x + BLOCK_START_OFFSET
        || x + BLOCK_START_OFFSET + o.heap.blocks[x].size <= p + BLOCK_START_OFFSET)
  }

  // The call returned a block that was not live before and kept all that were.
  ghost predicate NewBlock(g: Heap, o: Outcome) {
    var p := o.ptr - BLOCK_START_OFFSET;
    Ordered(o.heap) && !Live(g, p) && Live(o.heap, p) && Kept(g, o.heap, p)
  }

  lemma NewBlockApart(g: Heap, o: Outcome, x: int)
    requires NewBlock(g, o) && Live(g, x)
    ensures ApartFrom(g, o, x)
  {
    assert KeptAt(g, o.heap, x);
    assert Apart(o.heap, o.ptr - BLOCK_START_OFFSET, x);
  }

  lemma MallocIsNew(g: Heap, size: nat)
    requires Inv(g) && Malloc(g, size).ptr != NULL
    ensures NewBlock(g, Malloc(g, size))
  {
    MallocFrame(g, size, Malloc(g, size).ptr - BLOCK_START_OFFSET);
  }

  lemma MallocApart(g: Heap, size: nat, x: int)
    requires Inv(g) && Malloc(g, size).ptr != NULL && Live(g, x)
    ensures ApartFrom(g, Malloc(g, size), x)
  {
    MallocIsNew(g, size);
    NewBlockApart(g, Malloc(g, size), x);
  }

  lemma MemalignApart(g: Heap, align: nat, size: nat, x: int)
    requires Inv(g) && PowerOfTwo(align) && Memalign(g, align, size).ptr != NULL && Live(g, x)
    ensures ApartFrom(g, Memalign(g, align, size), x)
  {
    var adjust := AdjustRequest(size, ALIGN_SIZE);
    match Locate(g, AlignedNeed(align, adjust)) {
      case Nothing =>
      case At(c) =>
        LocatedAligned(g, align, adjust);
        HeadAlignedApart(g, c, align, adjust, size, x);
    }
  }

  lemma HeadAlignedApart(g: Heap, c: Class, align: nat, adjust: nat, size: nat, x: int)
    requires Inv(g) && PowerOfTwo(align) && adjust == AdjustRequest(size, ALIGN_SIZE) && Live(g, x)
    requires Locate(g, AlignedNeed(align, adjust)) == At(c) && LocatedOk(g, c, AlignedNeed(align, adjust))
    ensures ApartFrom(g, Memalign(g, align, size), x)
  {
    var b := g.lists[c][0];
    MemalignIs(g, c, b, align, adjust, size);
    AlignedIsNew(g, b, align, adjust);
    NewBlockApart(g, PrepareAligned(Remove(g, b), b, align, adjust), x);
  }

  // An address inside a free block is no live block.
  lemma AlignedIsNew(g: Heap, b: int, align: nat, adjust: nat)
    requires Ordered(g) && b in g.blocks && g.blocks[b].free && ClassOf(g.blocks[b].size) in g.lists
    requires Pending(Remove(g, b), b, {}) && align > 0 && 0 <= b && SizeOk(adjust)
    requires GapGood(b + BLOCK_START_OFFSET, align, adjust, g.blocks[b].size)
    ensures NewBlock(g, PrepareAligned(Remove(g, b), b, align, adjust))
  {
    PreparedWhere(Remove(g, b), b, align, adjust);
    RemovedFrame(g, b, align, adjust, PrepareAligned(Remove(g, b), b, align, adjust).ptr - BLOCK_START_OFFSET);
    var r := b + Gap(b + BLOCK_START_OFFSET, align);
    assert Live(g, r) ==> Apart(g, b, r);
  }
}
