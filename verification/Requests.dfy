/**
 What a request gets: when it succeeds, how large and how well aligned the block is, and
 what a reallocation keeps (tlsf.c:700-749, 1081-1244).
 */
module Requests {
  import opened Bits
  import opened SizeClasses
  import opened Alignment
  import opened Heaps
  import opened HeapSteps
  import opened HeapOps
  import opened HeapFrames
  import opened HeapCalls

  // ---------------------------------------------------------------- completeness of the search

  // A request of n bytes that fails although n is a block size finds every free block
  // smaller than n and less than one part in 32 more.
  lemma FailureBound(g: Heap, n: nat, b: int)
    requires Inv(g) && SizeOk(n) && Allocate(g, n).ptr == NULL
    requires b in g.blocks && g.blocks[b].free
    ensures n < SMALL_BLOCK_SIZE ==> g.blocks[b].size < n
    ensures n >= SMALL_BLOCK_SIZE ==> g.blocks[b].size < n + Pow2(Log2(n) - SL_INDEX_COUNT_LOG2) - 1
    ensures 32 * g.blocks[b].size < 33 * n
  {
    NothingFits(g, n, b);
    BelowRounded(g.blocks[b].size, n);
  }

  lemma BelowRounded(s: nat, n: nat)
    requires s < RoundUp(n) && n > 0
    ensures n < SMALL_BLOCK_SIZE ==> s < n
    ensures n >= SMALL_BLOCK_SIZE ==> Log2(n) >= 8 && s < n + Pow2(Log2(n) - SL_INDEX_COUNT_LOG2) - 1
    ensures 32 * s < 33 * n
  {
    RoundUpWaste(n);
    if n >= SMALL_BLOCK_SIZE {
      LogAtLeast(n, 8);
    }
  }

  // So a free block with that much room guarantees success, and a block that is too small
  // for the request never makes it succeed.
  lemma RoomGuaranteesSuccess(g: Heap, n: nat, b: int)
    requires Inv(g) && SizeOk(n) && b in g.blocks && g.blocks[b].free && 33 * n <= 32 * g.blocks[b].size
    ensures Allocate(g, n).ptr != NULL
  {
    if Allocate(g, n).ptr == NULL {
      FailureBound(g, n, b);
    }
  }

  lemma SuccessNeedsRoom(g: Heap, n: nat)
    requires Inv(g) && SizeOk(n) && Allocate(g, n).ptr != NULL
    ensures exists b :: b in g.blocks && g.blocks[b].free && n <= g.blocks[b].size
  {
    LocatedFits(g, n);
  }

  // The block that is chosen lies in the first class that has any block of the rounded
  // size or more: no such block is in an earlier class, and the chosen one is smaller than
  // the upper end of the class of each.
  lemma ChosenIsTight(g: Heap, n: nat, x: int)
    requires Inv(g) && SizeOk(n) && Locate(g, n).At?
    requires x in g.blocks && g.blocks[x].free && RoundUp(n) <= g.blocks[x].size
    ensures LocatedOk(g, Locate(g, n).list, n)
    ensures var c, d := Locate(g, n).list, ClassOf(g.blocks[x].size);
            !Before(d, c) && g.blocks[g.lists[c][0]].size < High(d)
  {
    LocatedBlock(g, n);
    var k, c, d := ClassOf(RoundUp(n)), Locate(g, n).list, ClassOf(g.blocks[x].size);
    ClassBounds(RoundUp(n));
    ClassMonotone(RoundUp(n), g.blocks[x].size);
    assert ListedAt(g, {}, x);
    ScanFirst(g.lists, k.fl, k.sl, d);
    ClassBounds(g.blocks[x].size);
    ClassBounds(g.blocks[g.lists[c][0]].size);
    if c != d {
      ClassesOrdered(c, d);
    }
  }

  // ---------------------------------------------------------------- alignment

  // A successful memalign prepares the head of the list it has found.
  lemma MemalignIs(g: Heap, c: Class, b: int, align: nat, adjust: nat, size: nat)
    requires Inv(g) && PowerOfTwo(align) && adjust == AdjustRequest(size, ALIGN_SIZE)
    requires Locate(g, AlignedNeed(align, adjust)) == At(c)
    requires LocatedOk(g, c, AlignedNeed(align, adjust)) && g.lists[c][0] == b
    ensures SizeOk(adjust) && GapGood(b + BLOCK_START_OFFSET, align, adjust, g.blocks[b].size)
    ensures Memalign(g, align, size) == PrepareAligned(Remove(g, b), b, align, adjust)
  {
    LocatedAligned(g, align, adjust);
  }

  // The block from which memalign takes its result.
  ghost function Source(g: Heap, align: nat, size: nat): (b: int)
    requires Inv(g) && PowerOfTwo(align) && Memalign(g, align, size).ptr != NULL
    ensures b in g.blocks && 0 < b
  {
    var adjust := AdjustRequest(size, ALIGN_SIZE);
    LocatedAligned(g, align, adjust);
    var b := g.lists[Locate(g, AlignedNeed(align, adjust)).list][0];
    assert ShapedAt(g, b);
    b
  }

  // The result ptr taken from a block of so many bytes with payload at start is aligned
  // except in the cramped case.
  ghost predicate AlignedUnless(ptr: int, align: nat, adjust: nat, start: nat, size: nat)
    requires align > 0
  {
    ptr % align == 0 <==> !Cramped(align, adjust, start, size)
  }

  // A successful memalign returns an aligned address if and only if the block it found is
  // not the one cramped case: 24 bytes at alignment 64 from a block of exactly 128 bytes
  // whose payload starts 32 bytes past a multiple of 64.
  lemma AlignedUnlessCramped(g: Heap, align: nat, size: nat)
    requires Inv(g) && PowerOfTwo(align) && Memalign(g, align, size).ptr != NULL
    ensures var b := Source(g, align, size);
            AlignedUnless(Memalign(g, align, size).ptr, align, AdjustRequest(size, ALIGN_SIZE), b + BLOCK_START_OFFSET, g.blocks[b].size)
  {
    var b, adjust := Source(g, align, size), AdjustRequest(size, ALIGN_SIZE);
    LocatedAligned(g, align, adjust);
    MemalignIs(g, Locate(g, AlignedNeed(align, adjust)).list, b, align, adjust, size);
    PreparedAligned(Remove(g, b), b, align, adjust);
  }

  lemma PreparedAligned(g: Heap, b: int, align: nat, adjust: nat)
    requires Pending(g, b, {}) && align > 0 && 0 <= b
    requires GapGood(b + BLOCK_START_OFFSET, align, adjust, g.blocks[b].size)
    requires SizeOk(adjust)
    ensures AlignedUnless(PrepareAligned(g, b, align, adjust).ptr, align, adjust, b + BLOCK_START_OFFSET, g.blocks[b].size)
  {
    PreparedWhere(g, b, align, adjust);
    GapMisaligned(b + BLOCK_START_OFFSET, align);
  }

  lemma MemalignCramped(g: Heap, c: Class, b: int, align: nat, adjust: nat, size: nat)
    requires Inv(g) && PowerOfTwo(align) && adjust == AdjustRequest(size, ALIGN_SIZE)
    requires Locate(g, AlignedNeed(align, adjust)) == At(c)
    requires LocatedOk(g, c, AlignedNeed(align, adjust)) && g.lists[c][0] == b
    requires Cramped(align, adjust, b + BLOCK_START_OFFSET, g.blocks[b].size)
    ensures Memalign(g, align, size).ptr == b + BLOCK_START_OFFSET
  {
    MemalignIs(g, c, b, align, adjust, size);
    PreparedWhere(Remove(g, b), b, align, adjust);
  }

  lemma PreparedWhere(g: Heap, b: int, align: nat, adjust: nat)
    requires Pending(g, b, {}) && align > 0 && 0 <= b
    requires GapGood(b + BLOCK_START_OFFSET, align, adjust, g.blocks[b].size)
    requires SizeOk(adjust)
    ensures var p, gap := b + BLOCK_START_OFFSET, Gap(b + BLOCK_START_OFFSET, align);
            PrepareAligned(g, b, align, adjust).ptr == if Cramped(align, adjust, p, g.blocks[b].size) then p else p + gap
  {
  }

  // Where a gap is needed, the start itself is not aligned.
  lemma GapMisaligned(ptr: nat, align: nat)
    requires align > 0
    ensures Gap(ptr, align) == 0 <==> ptr % align == 0
    ensures (ptr + Gap(ptr, align)) % align == 0
  {
    GapValue(ptr, align);
    if ptr % align == 0 {
      AlignUpExact(ptr, align);
    }
  }

  // For every other alignment and size the result is aligned whatever block is found.
  lemma AlignedOtherwise(g: Heap, align: nat, size: nat)
    requires Inv(g) && PowerOfTwo(align) && Memalign(g, align, size).ptr != NULL
    requires align != 64 || AdjustRequest(size, ALIGN_SIZE) != 24
    ensures Memalign(g, align, size).ptr % align == 0
  {
    AlignedUnlessCramped(g, align, size);
  }

  // A control structure at address 0x10000, a pool of 160 bytes at address 1040, and
  // memalign(64, 24) in it.
  const CRAMPED_POOL := 1040

  ghost function BeforeCramped(): Heap {
    EmptyHeap(0x10000, 0x20000, map[])
  }

  ghost function CrampedHeap(): Heap {
    AddPool(BeforeCramped(), CRAMPED_POOL, 160).heap
  }

  // What a new pool adds to the heap.
  lemma NewPoolIs(g: Heap, mem: int, bytes: nat, n: nat)
    requires Inv(g) && PoolReady(g, mem, bytes) && PoolPayload(bytes) == n && ClassOf(n) in g.lists
    ensures var g', f := AddPool(g, mem, bytes).heap, mem - 8;
            && f in g'.blocks && g'.blocks[f] == Block(n, true, false, f, f)
            && g'.lists == g.lists[ClassOf(n) := [f] + g.lists[ClassOf(n)]]
  {
    PlacePoolPending(g, mem, bytes);
  }

  lemma CrampedHeapIs()
    ensures Inv(BeforeCramped()) && PoolReady(BeforeCramped(), CRAMPED_POOL, 160)
    ensures var g, b := CrampedHeap(), CRAMPED_POOL - 8;
            && Inv(g) && b in g.blocks && g.blocks[b] == Block(128, true, false, b, b)
            && g.lists == BeforeCramped().lists[Class(0, 16) := [b]]
  {
    var g0 := BeforeCramped();
    EmptyHeapInv(0x10000, 0x20000, map[]);
    assert ClassOf(128) == Class(0, 16);
    assert g0.lists[Class(0, 16)] == [] && [CRAMPED_POOL - 8] + [] == [CRAMPED_POOL - 8];
    NewPoolIs(g0, CRAMPED_POOL, 160, 128);
  }

  lemma CrampedFound()
    ensures Inv(CrampedHeap()) && PowerOfTwo(64)
    ensures AdjustRequest(24, ALIGN_SIZE) == 24 && AlignedNeed(64, 24) == 128
    ensures Locate(CrampedHeap(), 128) == At(Class(0, 16)) && Class(0, 16) in CrampedHeap().lists
    ensures CrampedHeap().lists[Class(0, 16)] == [CRAMPED_POOL - 8]
  {
    CrampedHeapIs();
    CrampedNeed();
    FirstListed(CrampedHeap(), 128, 16);
  }

  lemma CrampedNeed()
    ensures PowerOfTwo(64) && AdjustRequest(24, ALIGN_SIZE) == 24 && AlignedNeed(64, 24) == 128
  {
    assert Pow2(6) == 64;
    assert AlignUp(24, 8) == 24 && AlignUp(128, 64) == 128;
  }

  // A small request whose own list has a block is served from that list.
  lemma FirstListed(g: Heap, n: nat, sl: nat)
    requires 0 < n < SMALL_BLOCK_SIZE && sl == n / 8 && Class(0, sl) in g.lists && g.lists[Class(0, sl)] != []
    ensures Locate(g, n) == At(Class(0, sl))
  {
    assert RoundUp(n) == n && ClassOf(n) == Class(0, sl);
  }

  // There it returns an address that is no multiple of 64.
  lemma CrampedExample()
    ensures Inv(CrampedHeap()) && PowerOfTwo(64)
    ensures Memalign(CrampedHeap(), 64, 24).ptr == 1056 && 1056 % 64 == 32
  {
    CrampedFound();
    CrampedHeapIs();
    CrampedResult(CrampedHeap(), CRAMPED_POOL - 8, 64, 24);
  }

  lemma CrampedResult(g: Heap, b: int, align: nat, size: nat)
    requires Inv(g) && PowerOfTwo(align) && align == 64 && AdjustRequest(size, ALIGN_SIZE) == 24
    requires AlignedNeed(align, 24) == 128
    requires Locate(g, 128) == At(Class(0, 16)) && Class(0, 16) in g.lists && g.lists[Class(0, 16)] == [b]
    requires b in g.blocks && b == CRAMPED_POOL - 8 && g.blocks[b].size == 128
    ensures Memalign(g, align, size).ptr == b + BLOCK_START_OFFSET
  {
    LocatedBlock(g, 128);
    MemalignCramped(g, Class(0, 16), b, align, 24, size);
  }

  // ---------------------------------------------------------------- realloc

  // A reallocation that fails changes nothing; one that succeeds returns a live block of
  // at least the requested size and at most 32 bytes more than its block size.
  lemma ReallocResult(g: Heap, b: int, size: nat)
    requires Inv(g) && Live(g, b) && AdjustRequest(size, ALIGN_SIZE) > 0
    ensures var o := Realloc(g, b, size);
            && (o.ptr == NULL ==> o.heap == g)
            && (o.ptr != NULL ==> Holds(o, AdjustRequest(size, ALIGN_SIZE)) && size <= o.heap.blocks[o.ptr - BLOCK_START_OFFSET].size)
  {
    var adjust := AdjustRequest(size, ALIGN_SIZE);
    assert ShapedAt(g, b) && ChainedAt(g, b);
    if FitsInPlace(g, b, adjust) {
      ResizeHolds(g, b, adjust);
    } else {
      MoveReady(g, b, size);
      MoveIntoHolds(Malloc(g, size), b, adjust);
    }
  }

  lemma TrimUsedHolds(g: Heap, b: int, n: nat)
    requires Inv(g) && Live(g, b) && SizeOk(n) && NoUserAbove(g, b, n) && n <= g.blocks[b].size
    ensures Holds(Outcome(TrimUsed(g, b, n), b + BLOCK_START_OFFSET), n)
  {
    assert ShapedAt(g, b);
    if CanSplit(g, b, n) {
      SplitUsedStep(g, b, n);
      var g1, r := Split(g, b, n, false), Rest(b, n);
      MergeNextKeeps(g1, r, r);
      assert KeptAt(g1, MergeNext(g1, r), b);
    }
  }

  lemma ResizeHolds(g: Heap, b: int, adjust: nat)
    requires Inv(g) && Live(g, b) && SizeOk(adjust) && Next(g, b) in g.blocks && FitsInPlace(g, b, adjust)
    ensures Holds(Outcome(Resize(g, b, adjust), b + BLOCK_START_OFFSET), adjust)
  {
    if adjust > g.blocks[b].size {
      OwnDataBelow(g, b, adjust);
      TrimUsedHolds(Expand(g, b), b, adjust);
    } else {
      DropUserInv(g, b, adjust);
      TrimUsedHolds(DropUser(g, b, adjust), b, adjust);
    }
  }

  lemma MoveIntoHolds(o: Outcome, b: int, n: int)
    requires MoveOk(o, b) && (o.ptr != NULL ==> Holds(o, n))
    ensures o.ptr != NULL ==> Holds(MoveInto(o, b), n)
  {
    if o.ptr != NULL {
      MoveIntoAtHolds(o, b, n, o.ptr - BLOCK_START_OFFSET, MoveInto(o, b));
    }
  }

  lemma MoveIntoAtHolds(o: Outcome, b: int, n: int, d: int, o': Outcome)
    requires MoveOk(o, b) && o.ptr != NULL && d == o.ptr - BLOCK_START_OFFSET && Holds(o, n) && o' == MoveInto(o, b)
    ensures Holds(o', n)
  {
    MoveIntoAt(o, b, d);
    MoveUserKeepsNew(o.heap, b, d);
    HoldsAt(o, o', d, n);
  }

  lemma HoldsAt(o: Outcome, o': Outcome, d: int, n: int)
    requires Holds(o, n) && d == o.ptr - BLOCK_START_OFFSET && o'.ptr == o.ptr
    requires Live(o'.heap, d) && o'.heap.blocks[d].size == o.heap.blocks[d].size
    ensures Holds(o', n)
  {
  }

  // The new block stays as it was allocated.
  lemma MoveUserKeepsNew(g: Heap, b: int, d: int)
    requires Inv(g) && b in g.blocks && CanMove(g, b, d, g.blocks[b].size)
    ensures Live(MoveUser(g, b, d), d) && MoveUser(g, b, d).blocks[d].size == g.blocks[d].size
  {
    MoveUserIs(g, b, d);
    FreeKeeps(CopyUser(g, b, d), b);
    assert KeptAt(CopyUser(g, b, d), MoveUser(g, b, d), d);
  }

  ghost predicate SameWord(g: Heap, b: int, g': Heap, d: int, a: int)
    requires a in g.user
  {
    a + (d - b) in g'.user && g'.user[a + (d - b)] == UserWord(d, g.user[a].value)
  }

  // The client's data in the first n bytes of block b is in the first n bytes of block d.
  ghost predicate SameData(g: Heap, b: int, g': Heap, d: int, n: int) {
    forall a {:trigger SameWord(g, b, g', d, a)} | a in g.user && g.user[a].owner == b && a < b + BLOCK_START_OFFSET + n ::
      SameWord(g, b, g', d, a)
  }

  // The call that returned o has kept the first n bytes of block b, unless it failed, and
  // all data of other blocks.
  ghost predicate DataKept(g: Heap, b: int, o: Outcome, n: int) {
    (o.ptr != NULL ==> SameData(g, b, o.heap, o.ptr - BLOCK_START_OFFSET, n)) && OthersData(g, o.heap, b)
  }

  // A successful reallocation keeps the data in the first bytes of the block, up to the
  // smaller of its old and its requested size, on each of the three paths.
  lemma ReallocKeepsData(g: Heap, b: int, size: nat)
    requires Inv(g) && Live(g, b) && AdjustRequest(size, ALIGN_SIZE) > 0
    ensures DataKept(g, b, Realloc(g, b, size), if size < g.blocks[b].size then size else g.blocks[b].size)
  {
    var adjust := AdjustRequest(size, ALIGN_SIZE);
    var k := if size < g.blocks[b].size then size else g.blocks[b].size;
    assert ShapedAt(g, b) && ChainedAt(g, b);
    if FitsInPlace(g, b, adjust) {
      ResizeData(g, b, adjust);
      LessKept(g, b, Realloc(g, b, size), adjust, k);
    } else {
      RelocateData(g, b, size);
      LessKept(g, b, Realloc(g, b, size), g.blocks[b].size, k);
    }
  }

  lemma LessKept(g: Heap, b: int, o: Outcome, n: int, k: int)
    requires DataKept(g, b, o, n) && k <= n
    ensures DataKept(g, b, o, k)
  {
    if o.ptr != NULL {
      ShorterData(g, b, o.heap, o.ptr - BLOCK_START_OFFSET, n, k);
    }
  }

  lemma RelocateData(g: Heap, b: int, size: nat)
    requires Inv(g) && Live(g, b) && g.blocks[b].size < AdjustRequest(size, ALIGN_SIZE)
    ensures DataKept(g, b, Relocate(g, b, size), g.blocks[b].size)
  {
    MoveReady(g, b, size);
    MallocUser(g, size);
    MovedOutcome(g, Malloc(g, size), b);
  }

  lemma MovedOutcome(g: Heap, o: Outcome, b: int)
    requires MoveOk(o, b) && o.heap.user == g.user && b in g.blocks
    requires o.ptr != NULL ==> o.heap.blocks[b].size == g.blocks[b].size
    ensures DataKept(g, b, MoveInto(o, b), g.blocks[b].size)
  {
    if o.ptr != NULL {
      MoveIntoData(o, b);
      SameUserData(g, o.heap, b, MoveInto(o, b).heap, o.ptr - BLOCK_START_OFFSET, g.blocks[b].size);
    }
  }

  // Keeping more keeps less.
  lemma ShorterData(g: Heap, b: int, g': Heap, d: int, n: int, k: int)
    requires SameData(g, b, g', d, n) && k <= n
    ensures SameData(g, b, g', d, k)
  {
    forall a | a in g.user && g.user[a].owner == b && a < b + BLOCK_START_OFFSET + k
      ensures SameWord(g, b, g', d, a)
    {
      assert SameWord(g, b, g', d, a);
    }
  }

  lemma SameUserData(g: Heap, g1: Heap, b: int, g': Heap, d: int, n: int)
    requires g1.user == g.user && SameData(g1, b, g', d, n) && OthersData(g1, g', b)
    ensures SameData(g, b, g', d, n) && OthersData(g, g', b)
  {
    forall a | a in g.user
      ensures g.user[a].owner == b && a < b + BLOCK_START_OFFSET + n ==> SameWord(g, b, g', d, a)
      ensures g.user[a].owner != b ==> KeptWord(g, g', a)
    {
      assert g.user[a].owner == b && a < b + BLOCK_START_OFFSET + n ==> SameWord(g1, b, g', d, a);
      assert g.user[a].owner != b ==> KeptWord(g1, g', a);
    }
  }

  lemma MallocUser(g: Heap, size: nat)
    requires Inv(g)
    ensures Malloc(g, size).heap.user == g.user
  {
    AllocateUser(g, AdjustRequest(size, ALIGN_SIZE));
  }

  lemma ResizeData(g: Heap, b: int, adjust: nat)
    requires Inv(g) && Live(g, b) && SizeOk(adjust) && Next(g, b) in g.blocks && FitsInPlace(g, b, adjust)
    ensures SameData(g, b, Resize(g, b, adjust), b, adjust)
    ensures OthersData(g, Resize(g, b, adjust), b)
  {
    if adjust > g.blocks[b].size {
      OwnDataBelow(g, b, adjust);
      TrimUsedUser(Expand(g, b), b, adjust);
    } else {
      DropUserInv(g, b, adjust);
      TrimUsedUser(DropUser(g, b, adjust), b, adjust);
    }
  }

  lemma MoveIntoData(o: Outcome, b: int)
    requires MoveOk(o, b) && o.ptr != NULL
    ensures SameData(o.heap, b, MoveInto(o, b).heap, o.ptr - BLOCK_START_OFFSET, o.heap.blocks[b].size)
    ensures OthersData(o.heap, MoveInto(o, b).heap, b)
  {
    var d := o.ptr - BLOCK_START_OFFSET;
    MoveIntoAt(o, b, d);
    MoveUserData(o.heap, b, d);
  }

  lemma MoveUserData(g: Heap, b: int, d: int)
    requires Inv(g) && b in g.blocks && CanMove(g, b, d, g.blocks[b].size)
    ensures SameData(g, b, MoveUser(g, b, d), d, g.blocks[b].size) && OthersData(g, MoveUser(g, b, d), b)
  {
    MoveUserIs(g, b, d);
    FreeUser(CopyUser(g, b, d), b);
    MovedData(g, MoveUser(g, b, d), b, d);
  }

  // Copying the data and forgetting the old block's.
  lemma MovedData(g: Heap, g': Heap, b: int, d: int)
    requires UserOk(g) && Live(g, b) && Live(g, d) && b != d && NoUserAbove(g, d, 0) && Ordered(g)
    requires g.blocks[b].size <= g.blocks[d].size && g'.user == DropUser(CopyUser(g, b, d), b, 0).user
    ensures SameData(g, b, g', d, g.blocks[b].size) && OthersData(g, g', b)
  {
    forall a | a in g.user
      ensures g.user[a].owner == b ==> SameWord(g, b, g', d, a)
      ensures g.user[a].owner != b ==> KeptWord(g, g', a)
    {
      CopiedWord(g, b, d, a);
    }
  }

  // A word of the new block is nobody's before the copy.
  lemma ShiftedIsNew(g: Heap, b: int, d: int, a: int)
    requires UserOk(g) && Live(g, b) && Live(g, d) && b != d && a in g.user && NoUserAbove(g, d, 0) && Ordered(g)
    requires g.blocks[b].size <= g.blocks[d].size
    ensures a !in Shifted(g, b, d)
  {
    assert UserAt(g, a) && Apart(g, g.user[a].owner, d);
    forall o | o in g.user && g.user[o].owner == b
      ensures o + (d - b) != a
    {
      assert UserAt(g, o);
    }
  }

  lemma CopiedWord(g: Heap, b: int, d: int, a: int)
    requires UserOk(g) && Live(g, b) && Live(g, d) && b != d && a in g.user && NoUserAbove(g, d, 0) && Ordered(g)
    requires g.blocks[b].size <= g.blocks[d].size
    ensures var g1 := CopyUser(g, b, d);
            && a in g1.user && g1.user[a] == g.user[a]
            && (g.user[a].owner == b ==> a + (d - b) in g1.user && g1.user[a + (d - b)] == UserWord(d, g.user[a].value))
  {
    ShiftedIsNew(g, b, d, a);
    assert g.user[a].owner == b ==> a + (d - b) in Shifted(g, b, d);
  }
}
