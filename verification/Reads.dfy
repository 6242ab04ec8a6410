/**
 The allocator does not read memory that it was not given: two memories that agree on the
 words that it may write are told apart by no call and no run. `Foreign` says the same of
 its stores.
 */
module Reads {
  import opened SizeClasses
  import opened Alignment
  import opened Memory
  import opened Heaps
  import opened HeapSteps
  import opened HeapOps
  import opened HeapCalls
  import opened Layout
  import opened FreeIndex
  import opened Foreign
  import opened Represents
  import opened Coalescing
  import opened Runs

  // The same heap among other foreign words.
  function Among(g: Heap, w: map<int, nat>): Heap {
    g.(foreign := w)
  }

  // ---------------------------------------------------------------- memory

  // The foreign words that memory m holds.
  function ForeignIn(m: map<int, nat>, g: Heap): map<int, nat>
    requires forall a | a in g.foreign :: a in m
  {
    map a | a in g.foreign :: m[a]
  }

  // Both memories hold the same claimed words.
  ghost predicate SameClaimed(m: map<int, nat>, m': map<int, nat>, g: Heap) {
    m'.Keys == m.Keys && forall a | a in m && Claimed(g, a) :: m'[a] == m[a]
  }

  // What is represented is the same heap.
  lemma SameState(m: map<int, nat>, m': map<int, nat>, x: Index, g: Heap)
    requires State(m, x, g, {}, {}) && SameClaimed(m, m', g)
    ensures forall a | a in g.foreign :: a in m'
    ensures State(m', x, Among(g, ForeignIn(m', g)), {}, {})
  {
    forall a | a in g.foreign
      ensures a in m' && !Claimed(g, a)
    {
      assert ForeignAt(m, g, a);
    }
    var h := Among(g, ForeignIn(m', g));
    SoundAmong(g, {}, h.foreign);
    SameHeaders(m, m', g, h);
    SameLinks(m, m', g, h);
    SameStored(m, m', g, h);
    forall a | a in h.foreign
      ensures ForeignAt(m', h, a)
    {
      assert !Claimed(g, a);
      assert forall f | f in h.pools :: InPool(h, f, a) ==> InPool(g, f, a);
    }
  }

  lemma SameHeaders(m: map<int, nat>, m': map<int, nat>, g: Heap, h: Heap)
    requires Tiled(g) && Headed(m, g) && Trailed(m, g, {}) && SameClaimed(m, m', g) && h == Among(g, h.foreign)
    ensures Headed(m', h) && Trailed(m', h, {})
  {
    forall b | b in h.blocks
      ensures HeaderAt(m', h, b) && TrailerAt(m', h, b)
    {
      assert HeaderAt(m, g, b) && TrailerAt(m, g, b) && ShapedAt(g, b);
      BlockClaims(g, b);
    }
  }

  lemma SameLinks(m: map<int, nat>, m': map<int, nat>, g: Heap, h: Heap)
    requires Sound(g, {}) && Linked(m, g) && SameClaimed(m, m', g) && h == Among(g, h.foreign)
    ensures Linked(m', h)
  {
    forall c, i | c in h.lists && 0 <= i < |h.lists[c]|
      ensures LinkAt(m', h, c, i)
    {
      assert LinkAt(m, g, c, i) && EntryAt(g, {}, c, i) && ShapedAt(g, g.lists[c][i]);
      BlockClaims(g, g.lists[c][i]);
    }
  }

  lemma SameStored(m: map<int, nat>, m': map<int, nat>, g: Heap, h: Heap)
    requires Tiled(g) && UserOk(g) && Stored(m, g) && SameClaimed(m, m', g) && h == Among(g, h.foreign)
    ensures Stored(m', h)
  {
    forall a | a in h.user
      ensures StoredAt(m', h, a)
    {
      assert StoredAt(m, g, a) && UserAt(g, a);
      BlockClaims(g, g.user[a].owner);
    }
  }

  // ---------------------------------------------------------------- invariants

  lemma SoundAmong(g: Heap, pend: set<int>, w: map<int, nat>)
    requires Sound(g, pend)
    ensures Sound(Among(g, w), pend)
  {
    var h := Among(g, w);
    forall b | b in g.blocks
      ensures (g.blocks[b].size == 0 ==> !g.blocks[b].free) && (b in g.pools ==> !g.blocks[b].prevFree)
    {
      assert ShapedAt(g, b) && (b in g.pools ==> PooledAt(g, b));
    }
    SameGeometryTiled(g, h);
    SameListed(g, h, pend);
    forall a | a in h.user
      ensures UserAt(h, a)
    {
      assert UserAt(g, a);
    }
  }

  lemma FlagsAmong(g: Heap, xs: set<int>, w: map<int, nat>)
    requires FlagsOk(g, {}) && Coalesced(g, xs)
    ensures FlagsOk(Among(g, w), {}) && Coalesced(Among(g, w), xs)
  {
    var h := Among(g, w);
    forall x | x in h.blocks
      ensures FlagAt(h, x) && (x !in xs ==> CoalescedAt(h, x))
    {
      assert FlagAt(g, x) && (x !in xs ==> CoalescedAt(g, x));
    }
  }

  lemma InvAmong(g: Heap, w: map<int, nat>)
    requires Inv(g)
    ensures Inv(Among(g, w))
  {
    SoundAmong(g, {}, w);
    FlagsAmong(g, {}, w);
  }

  lemma PendingAmong(g: Heap, b: int, xs: set<int>, w: map<int, nat>)
    requires Pending(g, b, xs)
    ensures Pending(Among(g, w), b, xs)
  {
    SoundAmong(g, {b}, w);
    FlagsAmong(g, xs, w);
  }

  // ---------------------------------------------------------------- steps

  lemma SplitAmong(g: Heap, b: int, n: nat, pf: bool, w: map<int, nat>)
    requires CanCut(g, b, n) && Next(g, b) in g.blocks
    ensures Split(Among(g, w), b, n, pf) == Among(Split(g, b, n, pf), w)
  {
  }

  lemma TrimFreeAmong(g: Heap, b: int, n: nat, w: map<int, nat>)
    requires Pending(g, b, {b}) && SizeOk(n)
    ensures Pending(Among(g, w), b, {b}) && TrimFree(Among(g, w), b, n) == Among(TrimFree(g, b, n), w)
  {
    PendingAmong(g, b, {b}, w);
    if CanSplit(g, b, n) {
      SplitTail(g, b, n);
      SplitAmong(g, b, n, true, w);
    }
  }

  lemma PrepareAmong(g: Heap, b: int, n: nat, w: map<int, nat>)
    requires Pending(g, b, {b}) && SizeOk(n)
    ensures Pending(Among(g, w), b, {b}) && PrepareUsed(Among(g, w), b, n) == Among(PrepareUsed(g, b, n), w)
  {
    TrimFreeAmong(g, b, n, w);
    MarkUsedInv(TrimFree(g, b, n), b);
  }

  lemma MergePrevAmong(g: Heap, b: int, w: map<int, nat>)
    requires b in g.blocks && Pending(g, b, {b, Next(g, b)})
    ensures var r := MergePrev(g, b);
            && Pending(Among(g, w), b, {b, Next(g, b)}) && Next(Among(g, w), b) == Next(g, b)
            && MergePrev(Among(g, w), b) == (Among(r.0, w), r.1)
  {
    PendingAmong(g, b, {b, Next(g, b)}, w);
    if g.blocks[b].prevFree {
      MergePrevStep(g, b);
    }
  }

  lemma MergeNextAmong(g: Heap, b: int, w: map<int, nat>)
    requires b in g.blocks && Pending(g, b, {Next(g, b)})
    ensures Pending(Among(g, w), b, {Next(g, b)}) && Next(Among(g, w), b) == Next(g, b)
    ensures MergeNext(Among(g, w), b) == Among(MergeNext(g, b), w)
  {
    PendingAmong(g, b, {Next(g, b)}, w);
    assert ChainedAt(g, b);
    if g.blocks[Next(g, b)].free {
      MergeNextPending(g, b);
    }
  }

  lemma RelistAmong(g: Heap, b: int, w: map<int, nat>)
    requires Pending(g, b, {})
    ensures Pending(Among(g, w), b, {}) && Relist(Among(g, w), b) == Among(Relist(g, b), w)
  {
    PendingAmong(g, b, {}, w);
  }

  // Merging with the block behind, and listing what that leaves.
  lemma FinishAmong(g: Heap, b: int, w: map<int, nat>)
    requires b in g.blocks && Pending(g, b, {Next(g, b)})
    ensures Pending(Among(g, w), b, {Next(g, b)}) && Next(Among(g, w), b) == Next(g, b)
    ensures Relist(MergeNext(Among(g, w), b), b) == Among(Relist(MergeNext(g, b), b), w)
  {
    MergeNextAmong(g, b, w);
    RelistAmong(MergeNext(g, b), b, w);
  }

  lemma DropAmong(g: Heap, b: int, n: int, w: map<int, nat>)
    ensures DropUser(Among(g, w), b, n) == Among(DropUser(g, b, n), w)
  {
    assert DropUser(Among(g, w), b, n).user == DropUser(g, b, n).user;
  }

  // tlsf_free of block b as far as its first merge, which leaves heap g2 and block p.
  ghost predicate FreeSteps(g: Heap, b: int, g1: Heap, g2: Heap, p: int) {
    && Inv(g) && Live(g, b) && Next(g, b) in g.blocks && g1 == Mark(DropUser(g, b, 0), b, true)
    && b in g1.blocks && Pending(g1, b, {b, Next(g1, b)}) && (g2, p) == MergePrev(g1, b)
  }

  lemma FreeStarts(g: Heap, b: int) returns (g1: Heap, g2: Heap, p: int)
    requires Inv(g) && Live(g, b)
    ensures FreeSteps(g, b, g1, g2, p)
  {
    DropUserInv(g, b, 0);
    MarkFreePending(DropUser(g, b, 0), b);
    g1 := Mark(DropUser(g, b, 0), b, true);
    var r := MergePrev(g1, b);
    g2, p := r.0, r.1;
  }

  lemma FreeEnds(g: Heap, b: int, g1: Heap, g2: Heap, p: int)
    requires FreeSteps(g, b, g1, g2, p)
    ensures p in g2.blocks && Pending(g2, p, {Next(g2, p)}) && Free(g, b) == Relist(MergeNext(g2, p), p)
  {
    FreeIs(g, b, g1, g2, p);
  }

  lemma FreeStepsAmong(g: Heap, b: int, g1: Heap, g2: Heap, p: int, w: map<int, nat>)
    requires FreeSteps(g, b, g1, g2, p)
    ensures FreeSteps(Among(g, w), b, Among(g1, w), Among(g2, w), p)
  {
    InvAmong(g, w);
    DropAmong(g, b, 0, w);
    MergePrevAmong(g1, b, w);
  }

  lemma FreeAmong(g: Heap, b: int, w: map<int, nat>)
    requires Inv(g) && Live(g, b)
    ensures Inv(Among(g, w)) && Free(Among(g, w), b) == Among(Free(g, b), w)
  {
    var g1, g2, p := FreeStarts(g, b);
    FreeStepsAmong(g, b, g1, g2, p, w);
    FreeEnds(g, b, g1, g2, p);
    FreeEnds(Among(g, w), b, Among(g1, w), Among(g2, w), p);
    FinishAmong(g2, p, w);
  }

  // block_trim_used as far as the merge: it leaves heap g1 and the new block r.
  ghost predicate TrimSteps(g: Heap, b: int, n: nat, g1: Heap, r: int) {
    && Inv(g) && Live(g, b) && SizeOk(n) && NoUserAbove(g, b, n) && CanSplit(g, b, n) && Next(g, b) in g.blocks
    && g1 == Split(g, b, n, false) && r == Rest(b, n) && r in g1.blocks && Pending(g1, r, {Next(g1, r)})
  }

  lemma TrimStepsAmong(g: Heap, b: int, n: nat, g1: Heap, r: int, w: map<int, nat>)
    requires TrimSteps(g, b, n, g1, r)
    ensures TrimSteps(Among(g, w), b, n, Among(g1, w), r)
  {
    InvAmong(g, w);
    SplitAmong(g, b, n, false, w);
    PendingAmong(g1, r, {Next(g1, r)}, w);
  }

  lemma TrimEnds(g: Heap, b: int, n: nat, g1: Heap, r: int)
    requires TrimSteps(g, b, n, g1, r)
    ensures TrimUsed(g, b, n) == Relist(MergeNext(g1, r), r)
  {
  }

  lemma TrimCutAmong(g: Heap, b: int, n: nat, g1: Heap, r: int, w: map<int, nat>)
    requires TrimSteps(g, b, n, g1, r) && TrimSteps(Among(g, w), b, n, Among(g1, w), r)
    ensures TrimUsed(Among(g, w), b, n) == Among(TrimUsed(g, b, n), w)
  {
    TrimEnds(g, b, n, g1, r);
    TrimEnds(Among(g, w), b, n, Among(g1, w), r);
    FinishAmong(g1, r, w);
  }

  lemma TrimUsedAmong(g: Heap, b: int, n: nat, w: map<int, nat>)
    requires Inv(g) && Live(g, b) && SizeOk(n) && NoUserAbove(g, b, n)
    ensures Inv(Among(g, w)) && NoUserAbove(Among(g, w), b, n)
    ensures TrimUsed(Among(g, w), b, n) == Among(TrimUsed(g, b, n), w)
  {
    InvAmong(g, w);
    if CanSplit(g, b, n) {
      SplitUsedStep(g, b, n);
      var g1, r := Split(g, b, n, false), Rest(b, n);
      TrimStepsAmong(g, b, n, g1, r, w);
      TrimCutAmong(g, b, n, g1, r, w);
    }
  }

  lemma ResizeAmong(g: Heap, b: int, adjust: nat, w: map<int, nat>)
    requires Inv(g) && Live(g, b) && SizeOk(adjust) && Next(g, b) in g.blocks && FitsInPlace(g, b, adjust)
    ensures Inv(Among(g, w)) && Resize(Among(g, w), b, adjust) == Among(Resize(g, b, adjust), w)
  {
    InvAmong(g, w);
    if adjust > g.blocks[b].size {
      OwnDataBelow(g, b, adjust);
      ExpandAmong(g, b, w);
      TrimUsedAmong(Expand(g, b), b, adjust, w);
    } else {
      DropUserInv(g, b, adjust);
      DropAmong(g, b, adjust, w);
      TrimUsedAmong(DropUser(g, b, adjust), b, adjust, w);
    }
  }

  // block_merge_next and block_mark_as_used: the heaps in between.
  ghost predicate ExpandSteps(g: Heap, b: int, q: int, g1: Heap, g2: Heap) {
    && Inv(g) && Live(g, b) && q == Next(g, b) && q in g.blocks && g.blocks[q].free && ClassOf(g.blocks[q].size) in g.lists
    && g1 == Remove(g, q) && AbsorbOk(g1, b) && g2 == Absorb(g1, b) && b in g2.blocks && Next(g2, b) in g2.blocks
  }

  lemma ExpandEnds(g: Heap, b: int, q: int, g1: Heap, g2: Heap)
    requires ExpandSteps(g, b, q, g1, g2)
    ensures Expand(g, b) == Mark(g2, b, false)
  {
  }

  lemma ExpandStepsAmong(g: Heap, b: int, q: int, g1: Heap, g2: Heap, w: map<int, nat>)
    requires ExpandSteps(g, b, q, g1, g2)
    ensures ExpandSteps(Among(g, w), b, q, Among(g1, w), Among(g2, w))
  {
    InvAmong(g, w);
    assert ChainedAt(Among(g1, w), b) && ChainedAt(Among(g1, w), Next(g1, b));
  }

  lemma ExpandAmong(g: Heap, b: int, w: map<int, nat>)
    requires Inv(g) && Live(g, b) && Next(g, b) in g.blocks && g.blocks[Next(g, b)].free
    ensures Inv(Among(g, w)) && Expand(Among(g, w), b) == Among(Expand(g, b), w)
  {
    ExpandStep(g, b);
    var q := Next(g, b);
    var g1 := Remove(g, q);
    var g2 := Absorb(g1, b);
    ExpandStepsAmong(g, b, q, g1, g2, w);
    ExpandEnds(g, b, q, g1, g2);
    ExpandEnds(Among(g, w), b, q, Among(g1, w), Among(g2, w));
  }

  // ---------------------------------------------------------------- calls

  // The same result, and the same heap among the words w.
  ghost predicate Alike(o: Outcome, o': Outcome, w: map<int, nat>) {
    o'.ptr == o.ptr && o'.heap == Among(o.heap, w)
  }

  lemma AllocateAmong(g: Heap, n: nat, w: map<int, nat>)
    requires Inv(g) && (n == 0 || SizeOk(n))
    ensures Inv(Among(g, w)) && Alike(Allocate(g, n), Allocate(Among(g, w), n), w)
  {
    InvAmong(g, w);
    match Locate(g, n) {
      case Nothing =>
      case At(c) =>
        LocatedBlock(g, n);
        PrepareAmong(Remove(g, g.lists[c][0]), g.lists[c][0], n, w);
    }
  }

  lemma MallocAmong(g: Heap, size: nat, w: map<int, nat>)
    requires Inv(g)
    ensures Inv(Among(g, w)) && Alike(Malloc(g, size), Malloc(Among(g, w), size), w)
  {
    AllocateAmong(g, AdjustRequest(size, ALIGN_SIZE), w);
  }

  lemma TrimLeadingAmong(g: Heap, b: int, gap: nat, w: map<int, nat>)
    requires Pending(g, b, {}) && gap % ALIGN_SIZE == 0 && BLOCK_HEADER_SIZE <= gap
    ensures var r := TrimLeading(g, b, gap);
            Pending(Among(g, w), b, {}) && TrimLeading(Among(g, w), b, gap) == (Among(r.0, w), r.1)
  {
    PendingAmong(g, b, {}, w);
    if CanSplit(g, b, gap) {
      SplitLeadStep(g, b, gap);
      SplitAmong(g, b, gap - METADATA_SIZE, true, w);
    }
  }

  lemma FrontAmong(g: Heap, b: int, align: nat, adjust: nat, w: map<int, nat>)
    requires CanFront(g, b, align, adjust)
    ensures CanFront(Among(g, w), b, align, adjust)
    ensures Alike(PrepareAligned(g, b, align, adjust), PrepareAligned(Among(g, w), b, align, adjust), w)
  {
    PendingAmong(g, b, {}, w);
    var gap := Gap(b + BLOCK_START_OFFSET, align);
    if gap > 0 {
      TrimLeadingAmong(g, b, gap, w);
    }
    var (g1, b1) := AlignBlock(g, b, align, adjust);
    PrepareAmong(g1, b1, adjust, w);
  }

  lemma MemalignAmong(g: Heap, align: nat, size: nat, w: map<int, nat>)
    requires Inv(g) && PowerOfTwo(align)
    ensures Inv(Among(g, w)) && Alike(Memalign(g, align, size), Memalign(Among(g, w), align, size), w)
  {
    InvAmong(g, w);
    var adjust := AdjustRequest(size, ALIGN_SIZE);
    match Locate(g, AlignedNeed(align, adjust)) {
      case Nothing =>
      case At(c) =>
        LocatedAligned(g, align, adjust);
        FrontAmong(Remove(g, g.lists[c][0]), g.lists[c][0], align, adjust, w);
    }
  }

  lemma CopyAmong(g: Heap, b: int, d: int, w: map<int, nat>)
    ensures CopyUser(Among(g, w), b, d) == Among(CopyUser(g, b, d), w)
  {
    assert Shifted(Among(g, w), b, d) == Shifted(g, b, d);
    assert CopyUser(Among(g, w), b, d).user == CopyUser(g, b, d).user;
  }

  lemma MoveUserAmong(g: Heap, b: int, d: int, w: map<int, nat>)
    requires Inv(g) && b in g.blocks && CanMove(g, b, d, g.blocks[b].size)
    ensures Inv(Among(g, w)) && MoveUser(Among(g, w), b, d) == Among(MoveUser(g, b, d), w)
  {
    InvAmong(g, w);
    MoveUserIs(g, b, d);
    CopyAmong(g, b, d, w);
    FreeAmong(CopyUser(g, b, d), b, w);
  }

  lemma MoveIntoAmong(o: Outcome, o': Outcome, b: int, w: map<int, nat>)
    requires MoveOk(o, b) && MoveOk(o', b) && Alike(o, o', w)
    ensures Alike(MoveInto(o, b), MoveInto(o', b), w)
  {
    if o.ptr != NULL {
      MoveIntoAmongAt(o, o', b, o.ptr - BLOCK_START_OFFSET, w);
    }
  }

  lemma MoveIntoAmongAt(o: Outcome, o': Outcome, b: int, d: int, w: map<int, nat>)
    requires MoveOk(o, b) && MoveOk(o', b) && Alike(o, o', w) && o.ptr != NULL && d == o.ptr - BLOCK_START_OFFSET
    ensures Alike(MoveInto(o, b), MoveInto(o', b), w)
  {
    MoveIntoAt(o, b, d);
    MoveIntoAt(o', b, d);
    MoveUserAmong(o.heap, b, d, w);
  }

  lemma RelocateAmong(g: Heap, b: int, size: nat, w: map<int, nat>)
    requires Inv(g) && Live(g, b) && g.blocks[b].size < AdjustRequest(size, ALIGN_SIZE)
    ensures Inv(Among(g, w)) && Alike(Relocate(g, b, size), Relocate(Among(g, w), b, size), w)
  {
    MallocAmong(g, size, w);
    MoveReady(g, b, size);
    MoveReady(Among(g, w), b, size);
    MoveIntoAmong(Malloc(g, size), Malloc(Among(g, w), size), b, w);
  }

  lemma ReallocAmong(g: Heap, b: int, size: nat, w: map<int, nat>)
    requires Inv(g) && Live(g, b) && AdjustRequest(size, ALIGN_SIZE) > 0
    ensures Inv(Among(g, w)) && Alike(Realloc(g, b, size), Realloc(Among(g, w), b, size), w)
  {
    InvAmong(g, w);
    assert ChainedAt(g, b);
    var h, adjust, fits := Among(g, w), AdjustRequest(size, ALIGN_SIZE), FitsInPlace(g, b, AdjustRequest(size, ALIGN_SIZE));
    FitsAmong(g, b, adjust, w);
    TakesOnePath(g, b, size, adjust, fits, Realloc(g, b, size));
    TakesOnePath(h, b, size, adjust, fits, Realloc(h, b, size));
    PathsAlike(g, h, b, size, adjust, fits, Realloc(g, b, size), Realloc(h, b, size), w);
  }

  lemma FitsAmong(g: Heap, b: int, adjust: nat, w: map<int, nat>)
    requires Live(g, b) && Next(g, b) in g.blocks
    ensures FitsInPlace(Among(g, w), b, adjust) == FitsInPlace(g, b, adjust)
  {
  }

  // The path of tlsf_realloc that leads to outcome o, in place or not.
  ghost predicate TakesPath(g: Heap, b: int, size: nat, adjust: nat, fits: bool, o: Outcome) {
    && Inv(g) && Live(g, b) && Next(g, b) in g.blocks && SizeOk(adjust) && adjust == AdjustRequest(size, ALIGN_SIZE)
    && fits == FitsInPlace(g, b, adjust)
    && if fits then o == Outcome(Resize(g, b, adjust), b + BLOCK_START_OFFSET) else g.blocks[b].size < adjust && o == Relocate(g, b, size)
  }

  lemma TakesOnePath(g: Heap, b: int, size: nat, adjust: nat, fits: bool, o: Outcome)
    requires Inv(g) && Live(g, b) && adjust == AdjustRequest(size, ALIGN_SIZE) && adjust > 0 && Next(g, b) in g.blocks
    requires fits == FitsInPlace(g, b, adjust) && o == Realloc(g, b, size)
    ensures TakesPath(g, b, size, adjust, fits, o)
  {
    assert ShapedAt(g, b) && ChainedAt(g, b);
  }

  lemma PathsAlike(g: Heap, h: Heap, b: int, size: nat, adjust: nat, fits: bool, o: Outcome, o': Outcome, w: map<int, nat>)
    requires TakesPath(g, b, size, adjust, fits, o) && TakesPath(h, b, size, adjust, fits, o') && h == Among(g, w)
    ensures Alike(o, o', w)
  {
    if fits {
      InPlaceAmong(g, h, b, adjust, o, o', w);
    } else {
      MovedAmong(g, h, b, size, o, o', w);
    }
  }

  lemma InPlaceAmong(g: Heap, h: Heap, b: int, adjust: nat, o: Outcome, o': Outcome, w: map<int, nat>)
    requires Inv(g) && Live(g, b) && SizeOk(adjust) && Next(g, b) in g.blocks && FitsInPlace(g, b, adjust) && h == Among(g, w) && Inv(h)
    requires o == Outcome(Resize(g, b, adjust), b + BLOCK_START_OFFSET) && o' == Outcome(Resize(h, b, adjust), b + BLOCK_START_OFFSET)
    ensures Alike(o, o', w)
  {
    ResizeAmong(g, b, adjust, w);
  }

  lemma MovedAmong(g: Heap, h: Heap, b: int, size: nat, o: Outcome, o': Outcome, w: map<int, nat>)
    requires Inv(g) && Live(g, b) && g.blocks[b].size < AdjustRequest(size, ALIGN_SIZE) && h == Among(g, w) && Inv(h)
    requires o == Relocate(g, b, size) && o' == Relocate(h, b, size)
    ensures Alike(o, o', w)
  {
    RelocateAmong(g, b, size, w);
  }

  // The words that a new pool does not take stay foreign.
  lemma AddPoolAmong(g: Heap, mem: int, bytes: nat, w: map<int, nat>)
    requires Inv(g) && (PoolSizeOk(mem, bytes) ==> PoolReady(g, mem, bytes)) && w.Keys == g.foreign.Keys
    ensures Inv(Among(g, w)) && (PoolSizeOk(mem, bytes) ==> PoolReady(Among(g, w), mem, bytes))
    ensures var o, o' := AddPool(g, mem, bytes), AddPool(Among(g, w), mem, bytes);
            Alike(o, o', o'.heap.foreign) && o'.heap.foreign.Keys == o.heap.foreign.Keys
  {
    InvAmong(g, w);
    if PoolSizeOk(mem, bytes) {
      PlacePoolPending(g, mem, bytes);
      PlacePoolPending(Among(g, w), mem, bytes);
    }
  }

  lemma RemovePoolAmong(g: Heap, f: int, w: map<int, nat>)
    requires Inv(g) && Vacant(g, f)
    ensures Inv(Among(g, w)) && RemovePool(Among(g, w), f) == Among(RemovePool(g, f), w)
  {
    InvAmong(g, w);
    RemoveSound(g, f, {});
  }

  // ---------------------------------------------------------------- runs

  // The same heap but for what its foreign words hold.
  ghost predicate Same(g: Heap, h: Heap) {
    h == Among(g, h.foreign) && h.foreign.Keys == g.foreign.Keys
  }

  lemma AllowedAmong(g: Heap, op: Op, w: map<int, nat>)
    requires Inv(g) && Allowed(g, op)
    ensures Inv(Among(g, w)) && Allowed(Among(g, w), op)
  {
    InvAmong(g, w);
  }

  // Among any other foreign words, a call but for tlsf_add_pool has the same result and effect.
  lemma ApplyAmong(g: Heap, op: Op, w: map<int, nat>)
    requires Inv(g) && Allowed(g, op) && !op.AddPoolOp?
    ensures Inv(Among(g, w)) && Allowed(Among(g, w), op)
    ensures Result(Among(g, w), op) == Result(g, op) && Apply(Among(g, w), op) == Among(Apply(g, op), w)
  {
    AllowedAmong(g, op, w);
    match op
    case RemovePoolOp(f) => DrainedIsVacant(g, f); RemovePoolAmong(g, f, w);
    case MallocOp(size) => MallocAmong(g, size, w);
    case MemalignOp(align, size) => MemalignAmong(g, align, size, w);
    case ReallocOp(b, size) => ReallocAmong(g, b, size, w);
    case FreeOp(b) => FreeAmong(g, b, w);
    case WriteOp(b, a, v) =>
  }

  lemma StepAlike(g: Heap, h: Heap, op: Op)
    requires Inv(g) && Allowed(g, op) && Same(g, h)
    ensures Inv(h) && Allowed(h, op) && Result(h, op) == Result(g, op) && Same(Apply(g, op), Apply(h, op))
  {
    if op.AddPoolOp? {
      AddPoolAmong(g, op.mem, op.bytes, h.foreign);
    } else {
      ApplyAmong(g, op, h.foreign);
      ApplyAmong(g, op, g.foreign);
      assert Among(g, g.foreign) == g;
    }
  }

  lemma {:induction false} RunAlike(g: Heap, h: Heap, ops: seq<Op>)
    requires Inv(g) && Possible(g, ops) && Same(g, h)
    ensures Inv(h) && Possible(h, ops) && Results(h, ops) == Results(g, ops) && Same(Run(g, ops), Run(h, ops))
    decreases |ops|
  {
    InvAmong(g, h.foreign);
    if ops == [] {
    } else {
      StepAlike(g, h, ops[0]);
      RunAlike(Apply(g, ops[0]), Apply(h, ops[0]), ops[1..]);
    }
  }

  // From two memories that agree on the claimed words, a run has the same results and leads to
  // the same heap.
  lemma NothingElseRead(m: map<int, nat>, m': map<int, nat>, x: Index, g: Heap, ops: seq<Op>)
    requires Inv(g) && State(m, x, g, {}, {}) && SameClaimed(m, m', g) && Possible(g, ops)
    ensures forall a | a in g.foreign :: a in m'
    ensures var h := Among(g, ForeignIn(m', g));
            && Inv(h) && State(m', x, h, {}, {}) && Possible(h, ops)
            && Results(h, ops) == Results(g, ops) && Same(Run(g, ops), Run(h, ops))
  {
    SameState(m, m', x, g);
    RunAlike(g, Among(g, ForeignIn(m', g)), ops);
  }
}
