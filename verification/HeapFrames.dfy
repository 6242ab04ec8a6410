/** What the operations leave alone: every other live block stays live, where it is and as large as it is. */
module HeapFrames {
  import opened SizeClasses
  import opened Heaps
  import opened HeapSteps
  import opened HeapOps

  ghost predicate KeptAt(g: Heap, g': Heap, x: int) {
    Live(g, x) ==> Live(g', x) && g'.blocks[x].size == g.blocks[x].size
  }

  // Every live block but b.
  ghost predicate Kept(g: Heap, g': Heap, b: int) {
    forall x {:trigger KeptAt(g, g', x)} | x != b :: KeptAt(g, g', x)
  }

  ghost predicate KeptWord(g: Heap, g': Heap, a: int)
    requires a in g.user
  {
    a in g'.user && g'.user[a] == g.user[a]
  }

  // Other blocks' data is untouched.
  ghost predicate OthersData(g: Heap, g': Heap, b: int) {
    forall a {:trigger KeptWord(g, g', a)} | a in g.user && g.user[a].owner != b :: KeptWord(g, g', a)
  }

  // All that a call that concerns block b must leave alone.
  ghost predicate Leaves(g: Heap, g': Heap, b: int) {
    Kept(g, g', b) && OthersData(g, g', b)
  }

  lemma KeptTwice(g: Heap, g1: Heap, g2: Heap, b: int)
    requires Kept(g, g1, b) && Kept(g1, g2, b)
    ensures Kept(g, g2, b)
  {
    forall x | x != b
      ensures KeptAt(g, g2, x)
    {
      assert KeptAt(g, g1, x) && KeptAt(g1, g2, x);
    }
  }

  lemma SplitKeeps(g: Heap, b: int, n: nat, pf: bool, y: int)
    requires Ordered(g) && CutOk(g, b, n) && (y == b || g.blocks[b].free)
    ensures Kept(g, Split(g, b, n, pf), y)
  {
    RestIsNew(g, b, n);
    forall x | x != y
      ensures KeptAt(g, Split(g, b, n, pf), x)
    {
    }
  }

  lemma AbsorbKeeps(g: Heap, p: int, y: int)
    requires AbsorbOk(g, p) && (y == p || g.blocks[p].free) && g.blocks[Next(g, p)].free
    ensures Kept(g, Absorb(g, p), y)
  {
    forall x | x != y
      ensures KeptAt(g, Absorb(g, p), x)
    {
    }
  }

  lemma MarkKeeps(g: Heap, b: int, free: bool, y: int)
    requires b in g.blocks && Next(g, b) in g.blocks && (y == b || g.blocks[b].free)
    ensures Kept(g, Mark(g, b, free), y)
  {
    forall x | x != y
      ensures KeptAt(g, Mark(g, b, free), x)
    {
    }
  }

  lemma SameBlocksKeep(g: Heap, g': Heap, y: int)
    requires g'.blocks == g.blocks
    ensures Kept(g, g', y)
  {
    forall x | x != y
      ensures KeptAt(g, g', x)
    {
    }
  }

  // ---------------------------------------------------------------- the operations

  lemma TrimFreeKeeps(g: Heap, b: int, n: nat, y: int)
    requires Pending(g, b, {b}) && SizeOk(n)
    ensures Kept(g, TrimFree(g, b, n), y)
  {
    if CanSplit(g, b, n) {
      SplitTail(g, b, n);
      var g1 := Split(g, b, n, true);
      SplitKeeps(g, b, n, true, y);
      SameBlocksKeep(g1, TrimFree(g, b, n), y);
      KeptTwice(g, g1, TrimFree(g, b, n), y);
    } else {
      SameBlocksKeep(g, TrimFree(g, b, n), y);
    }
  }

  lemma PrepareUsedKeeps(g: Heap, b: int, n: nat, y: int)
    requires Pending(g, b, {b}) && SizeOk(n)
    ensures Kept(g, PrepareUsed(g, b, n), y)
  {
    var t := TrimFree(g, b, n);
    TrimFreeKeeps(g, b, n, y);
    MarkUsedInv(t, b);
    MarkKeeps(t, b, false, y);
    KeptTwice(g, t, PrepareUsed(g, b, n), y);
  }

  lemma AllocateKeeps(g: Heap, n: nat, y: int)
    requires Inv(g) && (n == 0 || SizeOk(n))
    ensures Kept(g, Allocate(g, n).heap, y)
    ensures Allocate(g, n).ptr != NULL ==> !Live(g, Allocate(g, n).ptr - BLOCK_START_OFFSET)
  {
    match Locate(g, n) {
      case Nothing => SameBlocksKeep(g, g, y);
      case At(c) =>
        LocatedBlock(g, n);
        var b := g.lists[c][0];
        SameBlocksKeep(g, Remove(g, b), y);
        PrepareUsedKeeps(Remove(g, b), b, n, y);
        KeptTwice(g, Remove(g, b), Allocate(g, n).heap, y);
    }
  }

  lemma MergePrevKeeps(g: Heap, b: int, y: int)
    requires b in g.blocks && Pending(g, b, {b, Next(g, b)})
    ensures Kept(g, MergePrev(g, b).0, y)
  {
    if g.blocks[b].prevFree {
      MergePrevStep(g, b);
      PrevOf(g, b);
      var g1 := Remove(g, g.blocks[b].prev);
      SameBlocksKeep(g, g1, y);
      AbsorbKeeps(g1, g.blocks[b].prev, y);
      KeptTwice(g, g1, MergePrev(g, b).0, y);
    } else {
      SameBlocksKeep(g, g, y);
    }
  }

  lemma MergeNextKeeps(g: Heap, b: int, y: int)
    requires b in g.blocks && Pending(g, b, {Next(g, b)})
    ensures Kept(g, MergeNext(g, b), y)
  {
    assert ChainedAt(g, b);
    if g.blocks[Next(g, b)].free {
      MergeNextPending(g, b);
      var g1 := Remove(g, Next(g, b));
      SameBlocksKeep(g, g1, y);
      AbsorbKeeps(g1, b, y);
      KeptTwice(g, g1, MergeNext(g, b), y);
    } else {
      SameBlocksKeep(g, g, y);
    }
  }

  lemma FreeKeeps(g: Heap, b: int)
    requires Inv(g) && Live(g, b)
    ensures Kept(g, Free(g, b), b)
  {
    DropUserInv(g, b, 0);
    var g0 := DropUser(g, b, 0);
    SameBlocksKeep(g, g0, b);
    MarkFreePending(g0, b);
    var g1 := Mark(g0, b, true);
    MarkKeeps(g0, b, true, b);
    KeptTwice(g, g0, g1, b);
    MergePrevKeeps(g1, b, b);
    var (g2, p) := MergePrev(g1, b);
    KeptTwice(g, g1, g2, b);
    MergeNextKeeps(g2, p, b);
    KeptTwice(g, g2, MergeNext(g2, p), b);
    SameBlocksKeep(MergeNext(g2, p), Free(g, b), b);
    KeptTwice(g, MergeNext(g2, p), Free(g, b), b);
  }

  lemma ExpandKeeps(g: Heap, b: int)
    requires Inv(g) && Live(g, b) && Next(g, b) in g.blocks && g.blocks[Next(g, b)].free
    ensures Kept(g, Expand(g, b), b)
  {
    ExpandStep(g, b);
    var g1 := Remove(g, Next(g, b));
    var g2 := Absorb(g1, b);
    SameBlocksKeep(g, g1, b);
    AbsorbKeeps(g1, b, b);
    MarkKeeps(g2, b, false, b);
    KeptTwice(g, g1, g2, b);
    KeptTwice(g, g2, Expand(g, b), b);
  }

  lemma TrimUsedKeeps(g: Heap, b: int, n: nat)
    requires Inv(g) && Live(g, b) && SizeOk(n) && NoUserAbove(g, b, n)
    ensures Kept(g, TrimUsed(g, b, n), b)
  {
    if CanSplit(g, b, n) {
      SplitUsedStep(g, b, n);
      var g1, r := Split(g, b, n, false), Rest(b, n);
      SplitKeeps(g, b, n, false, b);
      MergeNextKeeps(g1, r, b);
      KeptTwice(g, g1, MergeNext(g1, r), b);
      SameBlocksKeep(MergeNext(g1, r), TrimUsed(g, b, n), b);
      KeptTwice(g, MergeNext(g1, r), TrimUsed(g, b, n), b);
    } else {
      SameBlocksKeep(g, g, b);
    }
  }

  // ---------------------------------------------------------------- client data

  // Allocation leaves all client data and the pools alone.
  lemma AllocateUser(g: Heap, n: nat)
    requires Inv(g) && (n == 0 || SizeOk(n))
    ensures Allocate(g, n).heap.user == g.user && SameClaims(g, Allocate(g, n).heap)
  {
    match Locate(g, n) {
      case Nothing =>
      case At(c) =>
        LocatedBlock(g, n);
        PrepareUsedUser(Remove(g, g.lists[c][0]), g.lists[c][0], n);
    }
  }

  lemma PrepareUsedUser(g: Heap, b: int, n: nat)
    requires Pending(g, b, {b}) && SizeOk(n)
    ensures PrepareUsed(g, b, n).user == g.user && SameClaims(g, PrepareUsed(g, b, n))
  {
    var t := TrimFree(g, b, n);
    assert t.user == g.user && SameClaims(g, t) by {
      if CanSplit(g, b, n) {
        SplitTail(g, b, n);
      }
    }
    MarkUsedInv(t, b);
  }

  // A block that is not live owns no client data.
  lemma NoUserUnlessLive(g: Heap, b: int)
    requires UserOk(g) && !Live(g, b)
    ensures NoUserAbove(g, b, 0)
  {
    forall a | a in g.user
      ensures g.user[a].owner == b ==> a < b + BLOCK_START_OFFSET + 0
    {
      assert UserAt(g, a);
    }
  }

  // Freeing forgets the freed block's data and no other.
  lemma FreeUser(g: Heap, b: int)
    requires Inv(g) && Live(g, b)
    ensures Free(g, b).user == DropUser(g, b, 0).user && SameClaims(g, Free(g, b))
  {
    DropUserInv(g, b, 0);
    var g0 := DropUser(g, b, 0);
    MarkFreePending(g0, b);
    var g1 := Mark(g0, b, true);
    var (g2, p) := MergePrev(g1, b);
    assert g2.user == g0.user && SameClaims(g0, g2) by {
      if g1.blocks[b].prevFree {
        MergePrevStep(g1, b);
      }
    }
    assert ChainedAt(g2, p);
    assert MergeNext(g2, p).user == g2.user && SameClaims(g2, MergeNext(g2, p)) by {
      if g2.blocks[Next(g2, p)].free {
        MergeNextPending(g2, p);
      }
    }
  }

  lemma TrimUsedUser(g: Heap, b: int, n: nat)
    requires Inv(g) && Live(g, b) && SizeOk(n) && NoUserAbove(g, b, n)
    ensures TrimUsed(g, b, n).user == g.user && SameClaims(g, TrimUsed(g, b, n))
  {
    if CanSplit(g, b, n) {
      SplitUsedStep(g, b, n);
      var g1, r := Split(g, b, n, false), Rest(b, n);
      assert ChainedAt(g1, r);
      if g1.blocks[Next(g1, r)].free {
        MergeNextPending(g1, r);
      }
    }
  }
}
