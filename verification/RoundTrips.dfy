/**
 Freeing at once what was just allocated restores the heap exactly: the same blocks, the
 same lists in the same order, the same client data, and therefore the same index
 (tlsf.c:1081-1163).
 */
module RoundTrips {
  import opened Bits
  import opened SizeClasses
  import opened Alignment
  import opened Heaps
  import opened HeapSteps
  import opened HeapOps
  import opened HeapFrames
  import opened HeapCalls
  import opened Layout
  import opened FreeIndex
  import opened Represents
  import opened Requests

  // ---------------------------------------------------------------- steps that cancel

  // A free block cut in two and joined again.
  lemma AbsorbSplit(g: Heap, b: int, n: nat)
    requires Ordered(g) && SplitOk(g, b, n) && g.blocks[Next(g, b)].prevFree
    ensures var g1 := Split(g, b, n, true);
            && b in g1.blocks && Next(g1, b) == Rest(b, n) && Rest(b, n) in g1.blocks
            && Next(g1, Rest(b, n)) == Next(g, b)
            && Next(g, b) in g1.blocks && Absorb(g1, b) == g
  {
    RestIsNew(g, b, n);
    var g1 := Split(g, b, n, true);
    assert Absorb(g1, b).blocks == g.blocks;
  }

  lemma RemoveInsert(g: Heap, b: int)
    requires b in g.blocks && ClassOf(g.blocks[b].size) in g.lists
    ensures Remove(Insert(g, b), b) == g
  {
    var c := ClassOf(g.blocks[b].size);
    assert ([b] + g.lists[c])[1..] == g.lists[c];
    assert Remove(Insert(g, b), b).lists == g.lists;
  }

  // Inserting a block that headed its list.
  lemma InsertRemove(g: Heap, c: Class, b: int)
    requires c in g.lists && g.lists[c] != [] && g.lists[c][0] == b && b in g.blocks && ClassOf(g.blocks[b].size) == c
    ensures Insert(Remove(g, b), b) == g
  {
    assert [b] + g.lists[c][1..] == g.lists[c];
    assert Insert(Remove(g, b), b).lists == g.lists;
  }

  // Removing one block and inserting another can be done in either order.
  lemma RemovePastInsert(g: Heap, b: int, q: int)
    requires b in g.blocks && q in g.blocks && b != q
    requires ClassOf(g.blocks[b].size) in g.lists && ClassOf(g.blocks[q].size) in g.lists
    ensures Remove(Insert(g, q), b) == Insert(Remove(g, b), q)
  {
    var c, d := ClassOf(g.blocks[b].size), ClassOf(g.blocks[q].size);
    assert ([q] + g.lists[d])[1..] == g.lists[d];
    assert Without([q] + g.lists[d], b) == [q] + Without(g.lists[d], b);
    assert Remove(Insert(g, q), b).lists == Insert(Remove(g, b), q).lists;
  }

  // A pending block marked used and free again.
  lemma MarkTwice(g: Heap, b: int)
    requires b in g.blocks && Pending(g, b, {b, Next(g, b)})
    ensures Next(g, b) in g.blocks
    ensures var u := Mark(g, b, false);
            Inv(u) && Live(u, b) && DropUser(u, b, 0) == u && Mark(u, b, true) == g
  {
    MarkUsedInv(g, b);
    assert FlagAt(g, b);
    FreeHasNoUser(g, b, 0, {});
    var u := Mark(g, b, false);
    assert DropUser(u, b, 0).user == u.user;
    assert Mark(u, b, true).blocks == g.blocks;
  }

  // ---------------------------------------------------------------- malloc, then free

  // Trimming a pending block and merging it with the block behind it.
  lemma MergeTrimmed(g: Heap, b: int, n: nat)
    requires Pending(g, b, {}) && Pending(g, b, {b}) && SizeOk(n)
    ensures var t := TrimFree(g, b, n);
            && !t.blocks[b].prevFree && Pending(t, b, {Next(t, b)}) && MergeNext(t, b) == g
  {
    NextNotFree(g, b);
    assert CoalescedAt(g, b) && FlagAt(g, b);
    var t := TrimFree(g, b, n);
    if CanSplit(g, b, n) {
      SplitTail(g, b, n);
      ForgetCoalesced(t, b, {b, Next(t, b)});
      WeakenCoalesced(t, {b, Next(t, b)} - {b}, {Next(t, b)});
      RemoveInsert(Split(g, b, n, true), Rest(b, n));
      AbsorbSplit(g, b, n);
    } else {
      WeakenCoalesced(g, {}, {Next(g, b)});
    }
  }

  // Freeing the block that a call returned leads to heap g.
  ghost predicate FreesTo(o: Outcome, g: Heap) {
    var b := o.ptr - BLOCK_START_OFFSET;
    Inv(o.heap) && Live(o.heap, b) && Free(o.heap, b) == g
  }

  lemma FreePrepared(g: Heap, b: int, n: nat)
    requires Pending(g, b, {}) && Pending(g, b, {b}) && SizeOk(n)
    ensures ClassOf(g.blocks[b].size) in g.lists
    ensures FreesTo(Outcome(PrepareUsed(g, b, n), b + BLOCK_START_OFFSET), Insert(g, b))
  {
    var t := TrimFree(g, b, n);
    MarkTwice(t, b);
    MergeTrimmed(g, b, n);
    FreeUnmerged(Mark(t, b, false), t, b);
  }

  // tlsf_free of a block whose predecessor is used.
  lemma FreeUnmerged(u: Heap, t: Heap, b: int)
    requires Inv(u) && Live(u, b) && DropUser(u, b, 0) == u && Next(u, b) in u.blocks && Mark(u, b, true) == t
    requires b in t.blocks && !t.blocks[b].prevFree && Pending(t, b, {Next(t, b)})
    ensures Pending(MergeNext(t, b), b, {}) && Free(u, b) == Relist(MergeNext(t, b), b)
  {
    DropUserInv(u, b, 0);
    MarkFreePending(u, b);
    assert MergePrev(t, b) == (t, b);
  }

  // A successful malloc followed by a free of its result.
  lemma MallocThenFree(g: Heap, size: nat)
    requires Inv(g) && Malloc(g, size).ptr != NULL
    ensures FreesTo(Malloc(g, size), g)
  {
    var n := AdjustRequest(size, ALIGN_SIZE);
    match Locate(g, n) {
      case Nothing =>
      case At(c) =>
        LocatedBlock(g, n);
        HeadMallocFreesTo(g, c, n, size);
    }
  }

  lemma HeadMallocFreesTo(g: Heap, c: Class, n: nat, size: nat)
    requires Inv(g) && n == AdjustRequest(size, ALIGN_SIZE) && Locate(g, n) == At(c) && LocatedOk(g, c, n)
    ensures FreesTo(Malloc(g, size), g)
  {
    MallocIs(g, c, n, size);
    HeadFreesTo(g, c, n);
  }

  lemma MallocIs(g: Heap, c: Class, n: nat, size: nat)
    requires Inv(g) && n == AdjustRequest(size, ALIGN_SIZE) && Locate(g, n) == At(c) && LocatedOk(g, c, n)
    ensures SizeOk(n)
    ensures var b := g.lists[c][0]; Malloc(g, size) == Outcome(PrepareUsed(Remove(g, b), b, n), b + BLOCK_START_OFFSET)
  {
  }

  lemma HeadFreesTo(g: Heap, c: Class, n: nat)
    requires Inv(g) && LocatedOk(g, c, n) && SizeOk(n)
    ensures var b := g.lists[c][0]; FreesTo(Outcome(PrepareUsed(Remove(g, b), b, n), b + BLOCK_START_OFFSET), g)
  {
    var b := g.lists[c][0];
    FreePrepared(Remove(g, b), b, n);
    InsertRemove(g, c, b);
  }

  // ---------------------------------------------------------------- memalign, then free

  // Cutting a block in three and joining the first two pieces is cutting it in two.
  lemma SplitSplitAbsorb(g: Heap, b: int, gap: nat, n: nat)
    requires Ordered(g) && Chained(g) && gap >= METADATA_SIZE
    requires SplitOk(g, b, gap - METADATA_SIZE) && SplitOk(g, b, gap + n)
    requires n % ALIGN_SIZE == 0 && BLOCK_SIZE_MIN <= n
    ensures var s, r := Split(g, b, gap - METADATA_SIZE, true), b + gap;
            && CanSplit(s, r, n) && Next(s, r) in s.blocks
            && var s2 := Split(s, r, n, true);
               && b in s2.blocks && Next(s2, b) == r && r in s2.blocks && Next(s2, r) in s2.blocks
               && Absorb(s2, b) == Split(g, b, gap + n, true)
  {
    RestIsNew(g, b, gap - METADATA_SIZE);
    RestIsNew(g, b, gap + n);
    var s, r := Split(g, b, gap - METADATA_SIZE, true), b + gap;
    var s2 := Split(s, r, n, true);
    assert Absorb(s2, b).blocks == Split(g, b, gap + n, true).blocks;
  }

  // Taking block b out of its list and joining it with block r behind it leads to heap v.
  ghost predicate Joined(t: Heap, b: int, r: int, v: Heap) {
    && b in t.blocks && ClassOf(t.blocks[b].size) in t.lists
    && Next(t, b) == r && r in t.blocks && Next(t, r) in t.blocks
    && Absorb(Remove(t, b), b) == v
  }

  // Listing b and q and joining b with the block behind it is joining and listing q.
  lemma JoinListed(g: Heap, b: int, q: int)
    requires b in g.blocks && Next(g, b) in g.blocks && Next(g, Next(g, b)) in g.blocks && b < Next(g, b)
    requires q in g.blocks && q > Next(g, b)
    requires ClassOf(g.blocks[b].size) in g.lists && ClassOf(g.blocks[q].size) in g.lists
    ensures Joined(Insert(Insert(g, b), q), b, Next(g, b), Insert(Absorb(g, b), q))
  {
    RemovePastInsert(Insert(g, b), b, q);
    RemoveInsert(g, b);
  }

  // The block behind the cut remembers the leading block, and joined with it makes up the
  // block that trimming without a cut leaves.
  ghost predicate LeadJoins(t: Heap, b: int, r: int, v: Heap) {
    && r in t.blocks && t.blocks[r].prevFree && t.blocks[r].prev == b && Joined(t, b, r, v)
  }

  lemma SplitPastInsert(g: Heap, b: int, r: int, n: nat)
    requires b in g.blocks && r in g.blocks && b != r && CanSplit(g, r, n)
    requires Next(g, r) in g.blocks && Next(g, r) != b && Rest(r, n) != b
    requires ClassOf(g.blocks[b].size) in g.lists
    ensures var x := Split(g, r, n, true);
            b in x.blocks && ClassOf(x.blocks[b].size) in x.lists && Split(Insert(g, b), r, n, true) == Insert(x, b)
  {
  }

  // The leading block b, once listed, is merged again with block r behind it, from which
  // block q has been cut and listed.
  lemma JoinLead(g: Heap, b: int, gap: nat, n: nat, m: nat, s: Heap, h: Heap, r: int, q: int)
    requires Ordered(g) && Chained(g) && gap >= METADATA_SIZE && m == gap + n
    requires SplitOk(g, b, gap - METADATA_SIZE) && SplitOk(g, b, m)
    requires n % ALIGN_SIZE == 0 && BLOCK_SIZE_MIN <= n
    requires s == Split(g, b, gap - METADATA_SIZE, true) && r == b + gap && q == Rest(b, m) == Rest(r, n)
    requires b in s.blocks && ClassOf(s.blocks[b].size) in s.lists && h == Insert(s, b)
    requires var x := Split(g, b, m, true); q in x.blocks && ClassOf(x.blocks[q].size) in x.lists
    ensures CanSplit(h, r, n) && Next(h, r) in h.blocks
    ensures var x, t := Split(g, b, m, true), Split(h, r, n, true);
            q in t.blocks && ClassOf(t.blocks[q].size) in t.lists && LeadJoins(Insert(t, q), b, r, Insert(x, q))
  {
    SplitSplitAbsorb(g, b, gap, n);
    RestIsNew(g, b, gap - METADATA_SIZE);
    RestIsNew(g, b, m);
    SplitPastInsert(s, b, r, n);
    JoinListed(Split(s, r, n, true), b, q);
  }

  // What a front cut asks of a block and what it then leaves behind.
  ghost predicate LeadOk(g: Heap, b: int, gap: nat, n: nat) {
    && Pending(g, b, {}) && Pending(g, b, {b}) && SizeOk(n)
    && gap % ALIGN_SIZE == 0 && BLOCK_HEADER_SIZE <= gap && CanSplit(g, b, gap) && gap + n <= g.blocks[b].size
  }

  ghost predicate TrimsTo(h: Heap, r: int, n: nat, t: Heap) {
    Pending(h, r, {r}) && SizeOk(n) && TrimFree(h, r, n) == t
  }

  // Trimming r behind the front cut gives heap t, trimming b without a cut gives v, and t
  // joins up to v.
  ghost predicate CutTrims(g: Heap, b: int, m: nat, h: Heap, r: int, n: nat, t: Heap, v: Heap) {
    TrimsTo(h, r, n, t) && TrimsTo(g, b, m, v) && LeadJoins(t, b, r, v)
  }

  lemma TrimsCut(h: Heap, r: int, n: nat)
    requires Pending(h, r, {r}) && SizeOk(n) && CanSplit(h, r, n)
    ensures ChainedAt(h, r) && Next(h, r) in h.blocks
    ensures var q, x := Rest(r, n), Split(h, r, n, true);
            q in x.blocks && ClassOf(x.blocks[q].size) in x.lists && TrimsTo(h, r, n, Insert(x, q))
  {
    SplitTail(h, r, n);
  }

  lemma LeadKept(g: Heap, b: int, gap: nat, n: nat, m: nat, h: Heap, r: int)
    requires LeadOk(g, b, gap, n) && m == gap + n && !CanSplit(g, b, m) && (h, r) == TrimLeading(g, b, gap)
    ensures r == b + gap && CutTrims(g, b, m, h, r, n, h, g)
  {
    SplitLeadStep(g, b, gap);
    NextNotFree(g, b);
    assert FlagAt(g, b);
    var s := Split(g, b, gap - METADATA_SIZE, true);
    RemoveInsert(s, b);
    AbsorbSplit(g, b, gap - METADATA_SIZE);
  }

  lemma LeadCut(g: Heap, b: int, gap: nat, n: nat, m: nat, h: Heap, r: int) returns (t: Heap, v: Heap)
    requires LeadOk(g, b, gap, n) && m == gap + n && CanSplit(g, b, m) && (h, r) == TrimLeading(g, b, gap)
    ensures r == b + gap && CutTrims(g, b, m, h, r, n, t, v)
  {
    SplitLeadStep(g, b, gap);
    TrimsCut(g, b, m);
    TrimsCut(h, r, n);
    var q := Rest(r, n);
    assert q == Rest(b, m);
    JoinLead(g, b, gap, n, m, Split(g, b, gap - METADATA_SIZE, true), h, r, q);
    t, v := Insert(Split(h, r, n, true), q), Insert(Split(g, b, m, true), q);
  }

  lemma LeadTrims(g: Heap, b: int, gap: nat, n: nat, m: nat, h: Heap, r: int) returns (t: Heap, v: Heap)
    requires LeadOk(g, b, gap, n) && m == gap + n && (h, r) == TrimLeading(g, b, gap)
    ensures CutTrims(g, b, m, h, r, n, t, v)
  {
    if CanSplit(g, b, m) {
      t, v := LeadCut(g, b, gap, n, m, h, r);
    } else {
      t, v := h, g;
      LeadKept(g, b, gap, n, m, h, r);
    }
  }

  // Preparing the block behind a front cut and freeing it.
  lemma FreeCut(g: Heap, b: int, gap: nat, n: nat, m: nat, h: Heap, r: int)
    requires LeadOk(g, b, gap, n) && m == gap + n && (h, r) == TrimLeading(g, b, gap)
    ensures ClassOf(g.blocks[b].size) in g.lists
    ensures SizeOk(n) && Pending(h, r, {r}) && FreesTo(Outcome(PrepareUsed(h, r, n), r + BLOCK_START_OFFSET), Insert(g, b))
  {
    var t, v := LeadTrims(g, b, gap, n, m, h, r);
    FreeLed(g, b, r, h, m, n, t, v);
  }

  lemma FreeLed(g: Heap, b: int, r: int, h: Heap, m: nat, n: nat, t: Heap, v: Heap)
    requires Pending(g, b, {}) && Pending(g, b, {b}) && CutTrims(g, b, m, h, r, n, t, v)
    ensures ClassOf(g.blocks[b].size) in g.lists
    ensures FreesTo(Outcome(PrepareUsed(h, r, n), r + BLOCK_START_OFFSET), Insert(g, b))
  {
    MarkTwice(t, r);
    MergeTrimmed(g, b, m);
    FreeMerged(Mark(t, r, false), t, r, b, v);
  }

  // tlsf_free of a block r whose predecessor b is free.
  lemma FreeMerged(u: Heap, t: Heap, r: int, b: int, v: Heap)
    requires Inv(u) && Live(u, r) && DropUser(u, r, 0) == u && Next(u, r) in u.blocks && Mark(u, r, true) == t
    requires LeadJoins(t, b, r, v) && b in v.blocks && Pending(v, b, {Next(v, b)})
    ensures Pending(MergeNext(v, b), b, {}) && Free(u, r) == Relist(MergeNext(v, b), b)
  {
    DropUserInv(u, r, 0);
    MarkFreePending(u, r);
    assert MergePrev(t, r) == (v, b);
  }

  lemma AlignedFreesTo(g: Heap, b: int, align: nat, adjust: nat)
    requires Pending(g, b, {}) && Pending(g, b, {b}) && align > 0 && 0 <= b && SizeOk(adjust)
    requires GapGood(b + BLOCK_START_OFFSET, align, adjust, g.blocks[b].size)
    ensures ClassOf(g.blocks[b].size) in g.lists
    ensures FreesTo(PrepareAligned(g, b, align, adjust), Insert(g, b))
  {
    var (h, r) := AlignBlock(g, b, align, adjust);
    CutFreesTo(g, b, Gap(b + BLOCK_START_OFFSET, align), adjust, h, r);
  }

  // Preparing what a front cut of gap bytes leaves, if there is one, and freeing it.
  lemma CutFreesTo(g: Heap, b: int, gap: nat, n: nat, h: Heap, r: int)
    requires Pending(g, b, {}) && Pending(g, b, {b}) && SizeOk(n) && gap + n <= g.blocks[b].size
    requires gap > 0 ==> gap % ALIGN_SIZE == 0 && BLOCK_HEADER_SIZE <= gap
    requires (h, r) == if gap > 0 then TrimLeading(g, b, gap) else (g, b)
    ensures ClassOf(g.blocks[b].size) in g.lists
    ensures Pending(h, r, {r}) && FreesTo(Outcome(PrepareUsed(h, r, n), r + BLOCK_START_OFFSET), Insert(g, b))
  {
    if gap > 0 && CanSplit(g, b, gap) {
      FreeCut(g, b, gap, n, gap + n, h, r);
    } else {
      FreePrepared(g, b, n);
    }
  }

  // A successful memalign followed by a free of its result.
  lemma MemalignThenFree(g: Heap, align: nat, size: nat)
    requires Inv(g) && PowerOfTwo(align) && Memalign(g, align, size).ptr != NULL
    ensures FreesTo(Memalign(g, align, size), g)
  {
    var adjust := AdjustRequest(size, ALIGN_SIZE);
    match Locate(g, AlignedNeed(align, adjust)) {
      case Nothing =>
      case At(c) =>
        LocatedAligned(g, align, adjust);
        HeadMemalignFreesTo(g, c, align, adjust, size);
    }
  }

  lemma HeadMemalignFreesTo(g: Heap, c: Class, align: nat, adjust: nat, size: nat)
    requires Inv(g) && PowerOfTwo(align) && adjust == AdjustRequest(size, ALIGN_SIZE)
    requires Locate(g, AlignedNeed(align, adjust)) == At(c) && LocatedOk(g, c, AlignedNeed(align, adjust))
    ensures FreesTo(Memalign(g, align, size), g)
  {
    var b := g.lists[c][0];
    MemalignIs(g, c, b, align, adjust, size);
    AlignedFreesTo(Remove(g, b), b, align, adjust);
    InsertRemove(g, c, b);
  }

  // ---------------------------------------------------------------- the same index again

  // The lists determine the bitmaps and the heads.
  lemma IndexDetermined(x: Index, y: Index, lists: map<Class, seq<int>>, ctl: int)
    requires Indexed(x, lists, ctl) && Indexed(y, lists, ctl)
    ensures x == y
  {
    forall i | 0 <= i < FL_INDEX_COUNT * SL_INDEX_COUNT
      ensures x.heads[i] == y.heads[i]
    {
      var c := Class(i / SL_INDEX_COUNT, i % SL_INDEX_COUNT);
      assert Slot(c) == i;
      assert ClassAt(x, lists, ctl, c) && ClassAt(y, lists, ctl, c);
    }
    forall f | 0 <= f < FL_INDEX_COUNT
      ensures x.slBitmap[f] == y.slBitmap[f]
    {
      RowDetermined(x, y, lists, ctl, f);
    }
    forall f | 0 <= f < 32
      ensures Bit(x.flBitmap, f) == Bit(y.flBitmap, f)
    {
      assert RowAt(x, f) && RowAt(y, f);
    }
    SameBits(x.flBitmap, y.flBitmap);
  }

  lemma RowDetermined(x: Index, y: Index, lists: map<Class, seq<int>>, ctl: int, f: int)
    requires Indexed(x, lists, ctl) && Indexed(y, lists, ctl) && 0 <= f < FL_INDEX_COUNT
    ensures x.slBitmap[f] == y.slBitmap[f]
  {
    forall j | 0 <= j < SL_INDEX_COUNT
      ensures Bit(x.slBitmap[f], j) == Bit(y.slBitmap[f], j)
    {
      assert ClassAt(x, lists, ctl, Class(f, j)) && ClassAt(y, lists, ctl, Class(f, j));
    }
    SameBits(x.slBitmap[f], y.slBitmap[f]);
  }

  // Two memories that describe the same heap have the same index, headers, trailers, links
  // and client data.
  lemma RepresentationDetermined(m: map<int, nat>, x: Index, m': map<int, nat>, y: Index, g: Heap)
    requires State(m, x, g, {}, {}) && State(m', y, g, {}, {})
    ensures x == y
    ensures forall b | b in g.blocks :: SameHeader(m, m', g, b)
    ensures forall c, i | c in g.lists && 0 <= i < |g.lists[c]| :: SameLinks(m, m', g.lists[c][i])
    ensures forall a | a in g.user :: SameAt(m, m', a)
  {
    IndexDetermined(x, y, g.lists, g.ctl);
    forall b | b in g.blocks
      ensures SameHeader(m, m', g, b)
    {
      assert HeaderAt(m, g, b) && HeaderAt(m', g, b) && TrailerAt(m, g, b) && TrailerAt(m', g, b);
    }
    forall c, i | c in g.lists && 0 <= i < |g.lists[c]|
      ensures SameLinks(m, m', g.lists[c][i])
    {
      assert LinkAt(m, g, c, i) && LinkAt(m', g, c, i);
    }
    forall a | a in g.user
      ensures SameAt(m, m', a)
    {
      assert StoredAt(m, g, a) && StoredAt(m', g, a);
    }
  }

  ghost predicate SameAt(m: map<int, nat>, m': map<int, nat>, a: int) {
    a in m && a in m' && m[a] == m'[a]
  }

  ghost predicate SameHeader(m: map<int, nat>, m': map<int, nat>, g: Heap, b: int)
    requires b in g.blocks
  {
    SameAt(m, m', b + 8) && SameAt(m, m', b + 16) && (g.blocks[b].free ==> SameAt(m, m', Next(g, b)))
  }

  ghost predicate SameLinks(m: map<int, nat>, m': map<int, nat>, b: int) {
    SameAt(m, m', b + 24) && SameAt(m, m', b + 32)
  }
}
