/**
 The allocator's operations on a heap value, built from the elementary steps in the
 order in which tlsf.c takes them (tlsf.c:602-749, 943-1244). Each is proved to lead
 from a heap that satisfies Inv to one that does.
 */
module HeapOps {
  import opened SizeClasses
  import opened Heaps
  import opened HeapSteps

  // ---------------------------------------------------------------- search

  datatype Found = Nothing | At(list: Class)

  // Looks at one list after the other, in order, from (fl, sl) on.
  function Scan(lists: map<Class, seq<int>>, fl: int, sl: int): Found
    decreases FL_INDEX_COUNT - fl, SL_INDEX_COUNT - sl
  {
    if fl >= FL_INDEX_COUNT then Nothing
    else if sl >= SL_INDEX_COUNT then Scan(lists, fl + 1, 0)
    else if Class(fl, sl) in lists && lists[Class(fl, sl)] != [] then At(Class(fl, sl))
    else Scan(lists, fl, sl + 1)
  }

  ghost predicate EmptyAt(lists: map<Class, seq<int>>, c: Class) {
    c in lists ==> lists[c] == []
  }

  // The scan finds the first non-empty list that does not come before (fl, sl), if any.
  lemma {:induction false} ScanFirst(lists: map<Class, seq<int>>, fl: int, sl: int, d: Class)
    requires 0 <= fl && 0 <= sl && (forall c | c in lists :: ValidClass(c))
    requires !Before(d, Class(fl, sl))
    ensures match Scan(lists, fl, sl)
            case Nothing => EmptyAt(lists, d)
            case At(c) => c in lists && lists[c] != [] && !Before(c, Class(fl, sl)) && (Before(d, c) ==> EmptyAt(lists, d))
    decreases FL_INDEX_COUNT - fl, SL_INDEX_COUNT - sl
  {
    if fl >= FL_INDEX_COUNT {
    } else if sl >= SL_INDEX_COUNT {
      if !Before(d, Class(fl + 1, 0)) {
        ScanFirst(lists, fl + 1, 0, d);
      } else {
        ScanFirst(lists, fl + 1, 0, Class(fl + 1, 0));
      }
    } else if Class(fl, sl) in lists && lists[Class(fl, sl)] != [] {
    } else {
      if d != Class(fl, sl) {
        ScanFirst(lists, fl, sl + 1, d);
      } else {
        ScanFirst(lists, fl, sl + 1, Class(fl, sl + 1));
      }
    }
  }

  // Where block_locate_free finds a block for n bytes.
  function Locate(g: Heap, n: nat): Found {
    if n == 0 then Nothing
    else var c := ClassOf(RoundUp(n)); Scan(g.lists, c.fl, c.sl)
  }

  // A located block heads its list, is free and has room for the request.
  lemma LocatedFits(g: Heap, n: nat)
    requires Listed(g, {}) && n % ALIGN_SIZE == 0 && Locate(g, n).At?
    ensures var c := Locate(g, n).list;
            && c in g.lists && g.lists[c] != []
            && var b := g.lists[c][0];
               b in g.blocks && g.blocks[b].free && ClassOf(g.blocks[b].size) == c && n <= g.blocks[b].size
  {
    var k := ClassOf(RoundUp(n));
    ClassBounds(RoundUp(n));
    ScanFirst(g.lists, k.fl, k.sl, k);
    var c := Locate(g, n).list;
    assert EntryAt(g, {}, c, 0);
    GoodFit(n, g.blocks[g.lists[c][0]].size);
  }

  // When nothing is located, every free block is smaller than the rounded request.
  lemma NothingFits(g: Heap, n: nat, b: int)
    requires Listed(g, {}) && n > 0 && Locate(g, n).Nothing?
    requires b in g.blocks && g.blocks[b].free
    ensures g.blocks[b].size < RoundUp(n)
  {
    var k, c := ClassOf(RoundUp(n)), ClassOf(g.blocks[b].size);
    ClassBounds(RoundUp(n));
    assert ListedAt(g, {}, b);
    if !Before(c, k) {
      ScanFirst(g.lists, k.fl, k.sl, c);
    } else {
      SkippedIsSmall(n, g.blocks[b].size);
    }
  }

  // ---------------------------------------------------------------- trimming

  ghost predicate SizeOk(n: int) {
    BLOCK_SIZE_MIN <= n && n % ALIGN_SIZE == 0
  }

  // Block b is free but in no list; a block behind the blocks in xs may follow a free one.
  ghost predicate Pending(g: Heap, b: int, xs: set<int>) {
    && Sound(g, {b}) && FlagsOk(g, {}) && Coalesced(g, xs)
    && b in g.blocks && g.blocks[b].free && g.blocks[b].size > 0
  }

  // The heap with the head of list c taken out.
  lemma TakeHead(g: Heap, c: Class)
    requires Inv(g) && c in g.lists && g.lists[c] != []
    ensures var b := g.lists[c][0];
            && b in g.blocks && g.blocks[b].free && ClassOf(g.blocks[b].size) == c
            && Remove(g, b).lists == g.lists[c := g.lists[c][1..]]
            && Pending(Remove(g, b), b, {}) && Pending(Remove(g, b), b, {b})
  {
    var b := g.lists[c][0];
    assert EntryAt(g, {}, c, 0);
    assert ShapedAt(g, b);
    RemoveSound(g, b, {});
    assert {} + {b} == {b};
    ListsFlags(g, Remove(g, b));
    WeakenCoalesced(Remove(g, b), {}, {b});
  }

  lemma WeakenCoalesced(g: Heap, xs: set<int>, ys: set<int>)
    requires Coalesced(g, xs) && xs <= ys
    ensures Coalesced(g, ys)
  {
    forall x | x in g.blocks && x !in ys
      ensures CoalescedAt(g, x)
    {
      assert CoalescedAt(g, x);
    }
  }

  // The block behind a pending block is used or a sentinel.
  lemma NextNotFree(g: Heap, b: int)
    requires Pending(g, b, {b})
    ensures ChainedAt(g, b) && Next(g, b) in g.blocks && !g.blocks[Next(g, b)].free && Next(g, b) != b
  {
    assert ChainedAt(g, b) && FlagAt(g, b);
    assert CoalescedAt(g, Next(g, b));
  }

  lemma SplitCoalesced(g: Heap, b: int, n: nat, pf: bool, xs: set<int>)
    requires Ordered(g) && Coalesced(g, xs) && CutOk(g, b, n)
    ensures Coalesced(Split(g, b, n, pf), xs + (if pf then {Rest(b, n)} else {}) + (if g.blocks[Next(g, b)].free then {Next(g, b)} else {}))
  {
    var g' := Split(g, b, n, pf);
    RestIsNew(g, b, n);
    forall x | x in g'.blocks && x !in xs && (x == Rest(b, n) ==> !pf) && (x == Next(g, b) ==> !g.blocks[x].free)
      ensures CoalescedAt(g', x)
    {
      if x != Rest(b, n) {
        assert CoalescedAt(g, x);
      }
    }
  }

  // Splitting a pending block and listing the tail.
  lemma SplitTail(g: Heap, b: int, n: nat)
    requires Pending(g, b, {b}) && SizeOk(n) && CanSplit(g, b, n)
    ensures SplitOk(g, b, n)
    ensures var r, g1 := Rest(b, n), Split(g, b, n, true);
            && r in g1.blocks && ClassOf(g1.blocks[r].size) in g1.lists
            && Sound(g1, {b, r})
            && Pending(Insert(g1, r), b, {b, r}) && Next(g1, b) == r
  {
    var r := Rest(b, n);
    NextNotFree(g, b);
    var g1 := Split(g, b, n, true);
    FreeHasNoUser(g, b, n, {b});
    SplitSound(g, b, n, true, {b});
    SplitFlags(g, b, n, true);
    SplitCoalesced(g, b, n, true, {b});
    assert {b} + {r} == {b, r};
    InsertSound(g1, r, {b, r});
    assert {b, r} - {r} == {b};
    ListsFlags(g1, Insert(g1, r));
    assert {b} + {r} + {} == {b, r};
  }

  // A free block holds no client data.
  lemma FreeHasNoUser(g: Heap, b: int, n: int, pend: set<int>)
    requires UserOk(g) && b in g.blocks && g.blocks[b].free
    ensures NoUserAbove(g, b, n)
  {
    forall a | a in g.user
      ensures g.user[a].owner == b ==> a < b + BLOCK_START_OFFSET + n
    {
      assert UserAt(g, a);
    }
  }

  // block_trim_free
  ghost function TrimFree(g: Heap, b: int, n: nat): (g': Heap)
    requires Pending(g, b, {b}) && SizeOk(n)
    ensures b in g'.blocks && Pending(g', b, {b, Next(g', b)})
    ensures g.blocks[b].size >= n ==> n <= g'.blocks[b].size <= n + BLOCK_HEADER_SIZE - ALIGN_SIZE
  {
    if CanSplit(g, b, n) then
      SplitTail(g, b, n);
      Insert(Split(g, b, n, true), Rest(b, n))
    else
      WeakenCoalesced(g, {b}, {b, Next(g, b)});
      assert ShapedAt(g, b);
      g
  }

  // Marking a pending block used makes the heap whole.
  lemma MarkUsedInv(g: Heap, b: int)
    requires b in g.blocks && Pending(g, b, {b, Next(g, b)})
    ensures ChainedAt(g, b) && Next(g, b) in g.blocks && Inv(Mark(g, b, false))
  {
    assert ChainedAt(g, b);
    MarkSound(g, b, false, {b});
    assert {b} - {b} == {};
    WeakenFlags(g, {}, {b});
    MarkFlags(g, b, false);
    forall x | x in Mark(g, b, false).blocks
      ensures CoalescedAt(Mark(g, b, false), x)
    {
      assert x != b && x != Next(g, b) ==> CoalescedAt(g, x);
    }
  }

  lemma WeakenFlags(g: Heap, xs: set<int>, ys: set<int>)
    requires FlagsOk(g, xs) && xs <= ys
    ensures FlagsOk(g, ys)
  {
    forall x | x in g.blocks && x !in ys
      ensures FlagAt(g, x)
    {
      assert FlagAt(g, x);
    }
  }

  // block_prepare_used
  ghost function PrepareUsed(g: Heap, b: int, n: nat): (g': Heap)
    requires Pending(g, b, {b}) && SizeOk(n)
    ensures Inv(g') && b in g'.blocks && !g'.blocks[b].free
    ensures g.blocks[b].size >= n ==> n <= g'.blocks[b].size <= n + BLOCK_HEADER_SIZE - ALIGN_SIZE
  {
    var t := TrimFree(g, b, n);
    MarkUsedInv(t, b);
    Mark(t, b, false)
  }

  // ---------------------------------------------------------------- merging and freeing

  // A block that a client holds.
  ghost predicate Live(g: Heap, b: int) {
    b in g.blocks && !g.blocks[b].free && g.blocks[b].size > 0
  }

  // Forgets the client data that block b holds from its byte n on.
  ghost function DropUser(g: Heap, b: int, n: int): Heap {
    g.(user := map a | a in g.user && (g.user[a].owner == b ==> a < b + BLOCK_START_OFFSET + n) :: g.user[a])
  }

  lemma DropUserInv(g: Heap, b: int, n: int)
    requires Inv(g)
    ensures Inv(DropUser(g, b, n)) && NoUserAbove(DropUser(g, b, n), b, n)
  {
    var g' := DropUser(g, b, n);
    forall a | a in g'.user
      ensures UserAt(g', a)
    {
      assert UserAt(g, a);
    }
    OnlyUserInv(g, g');
  }

  // Another set of client data that lies in used blocks.
  lemma OnlyUserInv(g: Heap, g': Heap)
    requires Inv(g) && g' == g.(user := g'.user) && UserOk(g')
    ensures Inv(g')
  {
    FlagsOfAll(g);
    SameGeometryTiled(g, g');
    SameListed(g, g', {});
    forall x | x in g'.blocks
      ensures FlagAt(g', x) && CoalescedAt(g', x)
    {
      assert FlagAt(g, x) && CoalescedAt(g, x);
    }
  }

  lemma SameListed(g: Heap, g': Heap, pend: set<int>)
    requires Listed(g, pend) && g'.blocks == g.blocks && g'.lists == g.lists
    ensures Listed(g', pend)
  {
    forall c, i | c in g'.lists && 0 <= i < |g'.lists[c]|
      ensures EntryAt(g', pend, c, i)
    {
      assert EntryAt(g, pend, c, i);
    }
    forall c | c in g'.lists
      ensures DistinctAt(g', c)
    {
      assert DistinctAt(g, c);
    }
    forall x | x in g'.blocks
      ensures ListedAt(g', pend, x)
    {
      assert ListedAt(g, pend, x);
    }
  }

  // A live block, its client data forgotten, once it is marked free.
  lemma MarkFreePending(g: Heap, b: int)
    requires Inv(g) && Live(g, b) && NoUserAbove(g, b, 0)
    ensures ChainedAt(g, b) && Next(g, b) in g.blocks
    ensures Pending(Mark(g, b, true), b, {b, Next(g, b)}) && Next(Mark(g, b, true), b) == Next(g, b)
  {
    assert ChainedAt(g, b);
    MarkSound(g, b, true, {});
    assert {} + {b} == {b};
    WeakenFlags(g, {}, {b});
    MarkFlags(g, b, true);
    forall x | x in Mark(g, b, true).blocks && x !in {b, Next(g, b)}
      ensures CoalescedAt(Mark(g, b, true), x)
    {
      assert CoalescedAt(g, x);
    }
  }

  lemma AbsorbCoalesced(g: Heap, p: int, xs: set<int>)
    requires Coalesced(g, xs) && AbsorbOk(g, p)
    ensures Coalesced(Absorb(g, p), xs - {Next(g, p)})
  {
    forall x | x in Absorb(g, p).blocks && x !in xs
      ensures CoalescedAt(Absorb(g, p), x)
    {
      assert CoalescedAt(g, x);
    }
  }

  // The free block in front of one whose prev-free bit is set.
  lemma PrevOf(g: Heap, b: int)
    requires Tiled(g) && FlagsOk(g, {}) && b in g.blocks && g.blocks[b].prevFree
    ensures var p := g.blocks[b].prev;
            && p in g.blocks && g.blocks[p].size > 0 && ChainedAt(g, p) && Next(g, p) == b && g.blocks[p].free
            && p < b && b !in g.pools
  {
    assert b in g.pools ==> PooledAt(g, b);
    assert BackedAt(g, b);
    assert ChainedAt(g, g.blocks[b].prev) && FlagAt(g, g.blocks[b].prev);
  }

  lemma MergePrevStep(g: Heap, b: int)
    requires b in g.blocks && Pending(g, b, {b, Next(g, b)}) && g.blocks[b].prevFree
    ensures var p := g.blocks[b].prev;
            && p in g.blocks && ClassOf(g.blocks[p].size) in g.lists
            && Sound(Remove(g, p), {b, p}) && AbsorbOk(Remove(g, p), p) && Next(Remove(g, p), p) == b
            && p in Absorb(Remove(g, p), p).blocks
            && Next(Absorb(Remove(g, p), p), p) == Next(g, b)
            && Pending(Absorb(Remove(g, p), p), p, {Next(g, b)})
  {
    PrevOf(g, b);
    var p := g.blocks[b].prev;
    RemoveSound(g, p, {b});
    var g1 := Remove(g, p);
    assert {b} + {p} == {b, p};
    ListsFlags(g, g1);
    assert ChainedAt(g1, p) && ChainedAt(g1, b);
    AbsorbSound(g1, p, {b, p}) by { FreeHasNoUser(g1, b, 0, {}); }
    assert {b, p} - {b} == {p};
    AbsorbFlags(g1, p);
    AbsorbCoalesced(g1, p, {b, Next(g, b)});
    WeakenCoalesced(Absorb(g1, p), {b, Next(g, b)} - {b}, {Next(g, b)});
  }

  // block_merge_prev; the result names the merged block.
  ghost function MergePrev(g: Heap, b: int): (r: (Heap, int))
    requires b in g.blocks && Pending(g, b, {b, Next(g, b)})
    ensures r.1 in r.0.blocks && Pending(r.0, r.1, {Next(r.0, r.1)})
  {
    if g.blocks[b].prevFree then
      MergePrevStep(g, b);
      var p := g.blocks[b].prev;
      (Absorb(Remove(g, p), p), p)
    else
      ForgetCoalesced(g, b, {b, Next(g, b)});
      (g, b)
  }

  // A block whose prev-free bit is clear follows no free block.
  lemma ForgetCoalesced(g: Heap, b: int, xs: set<int>)
    requires Coalesced(g, xs) && b in g.blocks && CoalescedAt(g, b)
    ensures Coalesced(g, xs - {b})
  {
    forall x | x in g.blocks && x !in xs - {b}
      ensures CoalescedAt(g, x)
    {
    }
  }

  // Taking the free block behind b out of its list and into b.
  lemma MergeNextStep(g: Heap, b: int, pend: set<int>)
    requires Sound(g, pend) && b in g.blocks && g.blocks[b].size > 0 && (b in pend || !g.blocks[b].free)
    requires Next(g, b) in g.blocks && g.blocks[Next(g, b)].free && Next(g, b) !in pend
    ensures var q := Next(g, b);
            && ClassOf(g.blocks[q].size) in g.lists
            && AbsorbOk(Remove(g, q), b) && Next(Remove(g, q), b) == q && b < q < Next(g, q)
            && Sound(Remove(g, q), pend + {q})
            && Sound(Absorb(Remove(g, q), b), pend)
  {
    var q := Next(g, b);
    assert ShapedAt(g, q) && ChainedAt(g, q) && ChainedAt(g, b);
    RemoveSound(g, q, pend);
    var g1 := Remove(g, q);
    assert ChainedAt(g1, q) && ChainedAt(g1, b);
    FreeHasNoUser(g1, q, 0, {});
    AbsorbSound(g1, b, pend + {q});
    assert pend + {q} - {q} == pend;
  }

  lemma MergeNextPending(g: Heap, b: int)
    requires b in g.blocks && Pending(g, b, {Next(g, b)})
    requires Next(g, b) in g.blocks && g.blocks[Next(g, b)].free
    ensures var q := Next(g, b);
            && ClassOf(g.blocks[q].size) in g.lists
            && AbsorbOk(Remove(g, q), b)
            && Pending(Absorb(Remove(g, q), b), b, {})
  {
    MergeNextStep(g, b, {b});
    var q := Next(g, b);
    var g1 := Remove(g, q);
    ListsFlags(g, g1);
    AbsorbFlags(g1, b);
    AbsorbCoalesced(g1, b, {q});
    assert {q} - {q} == {};
  }

  // block_merge_next on a free block
  ghost function MergeNext(g: Heap, b: int): (g': Heap)
    requires b in g.blocks && Pending(g, b, {Next(g, b)})
    ensures Pending(g', b, {})
  {
    assert ChainedAt(g, b);
    if g.blocks[Next(g, b)].free then
      MergeNextPending(g, b);
      Absorb(Remove(g, Next(g, b)), b)
    else
      ForgetCoalesced(g, Next(g, b), {Next(g, b)});
      assert {Next(g, b)} - {Next(g, b)} == {};
      g
  }

  // block_insert of the block that a merge leaves
  ghost function Relist(g: Heap, b: int): (g': Heap)
    requires Pending(g, b, {})
    ensures ClassOf(g.blocks[b].size) in g.lists && g' == Insert(g, b) && Inv(g')
  {
    InsertSound(g, b, {b});
    assert {b} - {b} == {};
    ListsFlags(g, Insert(g, b));
    Insert(g, b)
  }

  // tlsf_free
  ghost function Free(g: Heap, b: int): (g': Heap)
    requires Inv(g) && Live(g, b)
    ensures Inv(g')
  {
    DropUserInv(g, b, 0);
    var g0 := DropUser(g, b, 0);
    MarkFreePending(g0, b);
    var (g1, p) := MergePrev(Mark(g0, b, true), b);
    Relist(MergeNext(g1, p), p)
  }

  // The steps of tlsf_free, one after the other.
  lemma FreeIs(g: Heap, b: int, g1: Heap, g2: Heap, p: int)
    requires Inv(g) && Live(g, b) && Next(g, b) in g.blocks && g1 == Mark(DropUser(g, b, 0), b, true)
    requires b in g1.blocks && Pending(g1, b, {b, Next(g1, b)}) && (g2, p) == MergePrev(g1, b)
    ensures Free(g, b) == Relist(MergeNext(g2, p), p)
  {
    DropUserInv(g, b, 0);
    MarkFreePending(DropUser(g, b, 0), b);
  }

  // ---------------------------------------------------------------- trimming a used block

  lemma SplitUsedStep(g: Heap, b: int, n: nat)
    requires Inv(g) && Live(g, b) && SizeOk(n) && CanSplit(g, b, n) && NoUserAbove(g, b, n)
    ensures SplitOk(g, b, n)
    ensures var r, g1 := Rest(b, n), Split(g, b, n, false);
            r in g1.blocks && Next(g1, r) == Next(g, b) && Pending(g1, r, {Next(g1, r)})
  {
    assert ChainedAt(g, b);
    var r, g1 := Rest(b, n), Split(g, b, n, false);
    RestIsNew(g, b, n);
    SplitSound(g, b, n, false, {});
    assert {} + {r} == {r};
    SplitFlags(g, b, n, false);
    SplitCoalesced(g, b, n, false, {});
    WeakenCoalesced(g1, {} + {} + (if g.blocks[Next(g, b)].free then {Next(g, b)} else {}), {Next(g, b)});
  }

  // block_trim_used
  ghost function TrimUsed(g: Heap, b: int, n: nat): (g': Heap)
    requires Inv(g) && Live(g, b) && SizeOk(n) && NoUserAbove(g, b, n)
    ensures Inv(g')
  {
    if CanSplit(g, b, n) then
      SplitUsedStep(g, b, n);
      Relist(MergeNext(Split(g, b, n, false), Rest(b, n)), Rest(b, n))
    else g
  }

  // A live block with a free block behind it, once it has taken that block over.
  lemma ExpandStep(g: Heap, b: int)
    requires Inv(g) && Live(g, b) && Next(g, b) in g.blocks && g.blocks[Next(g, b)].free
    ensures var q := Next(g, b);
            && ClassOf(g.blocks[q].size) in g.lists && AbsorbOk(Remove(g, q), b) && Next(Remove(g, q), b) == q
            && Sound(Remove(g, q), {q}) && Sound(Absorb(Remove(g, q), b), {})
            && b in Absorb(Remove(g, q), b).blocks && ChainedAt(Absorb(Remove(g, q), b), b)
            && Inv(Mark(Absorb(Remove(g, q), b), b, false))
  {
    var q := Next(g, b);
    MergeNextStep(g, b, {});
    assert {} + {q} == {q};
    var g1 := Remove(g, q);
    var g2 := Absorb(g1, b);
    ListsFlags(g, g1);
    AbsorbFlags(g1, b);
    AbsorbCoalesced(g1, b, {});
    assert ChainedAt(g2, b);
    MarkSound(g2, b, false, {});
    assert {} - {b} == {} && {} - {q} == {};
    MarkFlags(g2, b, false);
    forall x | x in Mark(g2, b, false).blocks
      ensures CoalescedAt(Mark(g2, b, false), x)
    {
      assert CoalescedAt(g2, x);
    }
  }

  // block_merge_next and block_mark_as_used on a live block
  ghost function Expand(g: Heap, b: int): (g': Heap)
    requires Inv(g) && Live(g, b) && Next(g, b) in g.blocks && g.blocks[Next(g, b)].free
    ensures Inv(g') && Live(g', b)
    ensures g'.blocks[b].size == g.blocks[b].size + g.blocks[Next(g, b)].size + METADATA_SIZE
    ensures g'.user == g.user && SameClaims(g, g')
  {
    ExpandStep(g, b);
    Mark(Absorb(Remove(g, Next(g, b)), b), b, false)
  }

  // ---------------------------------------------------------------- allocation

  // What a call returns: the heap it leaves, and a payload address or 0 for NULL.
  datatype Outcome = Outcome(heap: Heap, ptr: int)

  const NULL := 0

  // The call returned a live block of at least n bytes and at most 32 more.
  ghost predicate Holds(o: Outcome, n: int) {
    var b := o.ptr - BLOCK_START_OFFSET;
    0 <= b && Live(o.heap, b) && n <= o.heap.blocks[b].size <= n + BLOCK_HEADER_SIZE - ALIGN_SIZE
  }

  // Everything the calls need to know of a located block.
  ghost predicate LocatedOk(g: Heap, c: Class, n: nat) {
    && c in g.lists && g.lists[c] != []
    && var b := g.lists[c][0];
       && b in g.blocks && g.blocks[b].free && ClassOf(g.blocks[b].size) == c && n <= g.blocks[b].size
       && 0 <= b && b % ALIGN_SIZE == 0 && g.blocks[b].size % ALIGN_SIZE == 0
       && Remove(g, b).lists == g.lists[c := g.lists[c][1..]]
       && Pending(Remove(g, b), b, {}) && Pending(Remove(g, b), b, {b})
  }

  lemma LocatedBlock(g: Heap, n: nat)
    requires Inv(g) && n % ALIGN_SIZE == 0 && Locate(g, n).At?
    ensures LocatedOk(g, Locate(g, n).list, n)
  {
    LocatedFits(g, n);
    var c := Locate(g, n).list;
    TakeHead(g, c);
    assert ShapedAt(g, g.lists[c][0]);
  }

  // block_locate_free and block_prepare_used
  ghost function Allocate(g: Heap, n: nat): (o: Outcome)
    requires Inv(g) && (n == 0 || SizeOk(n))
    ensures Inv(o.heap)
    ensures o.ptr == NULL <==> Locate(g, n).Nothing?
    ensures o.ptr == NULL ==> o.heap == g
    ensures o.ptr != NULL ==> Holds(o, n)
  {
    match Locate(g, n)
    case Nothing => Outcome(g, NULL)
    case At(c) =>
      LocatedBlock(g, n);
      var b := g.lists[c][0];
      Outcome(PrepareUsed(Remove(g, b), b, n), b + BLOCK_START_OFFSET)
  }

  // tlsf_malloc
  ghost function Malloc(g: Heap, size: nat): (o: Outcome)
    requires Inv(g)
    ensures Inv(o.heap)
    ensures o.ptr == NULL ==> o.heap == g
    ensures o.ptr != NULL ==> Holds(o, AdjustRequest(size, ALIGN_SIZE))
  {
    Allocate(g, AdjustRequest(size, ALIGN_SIZE))
  }

  // ---------------------------------------------------------------- aligned allocation

  lemma SplitLeadSound(g: Heap, b: int, gap: nat)
    requires Pending(g, b, {}) && gap % ALIGN_SIZE == 0 && BLOCK_HEADER_SIZE <= gap && CanSplit(g, b, gap)
    ensures SplitOk(g, b, gap - METADATA_SIZE)
    ensures var r, g1 := b + gap, Split(g, b, gap - METADATA_SIZE, true);
            Sound(g1, {b, r}) && FlagsOk(g1, {}) && Coalesced(g1, {r})
  {
    var n := gap - METADATA_SIZE;
    var r := Rest(b, n);
    WeakenCoalesced(g, {}, {b});
    NextNotFree(g, b);
    FreeHasNoUser(g, b, n, {b});
    SplitSound(g, b, n, true, {b});
    assert {b} + {r} == {b, r};
    SplitFlags(g, b, n, true);
    SplitCoalesced(g, b, n, true, {});
    assert {} + {r} + {} == {r};
  }

  lemma SplitLeadStep(g: Heap, b: int, gap: nat)
    requires Pending(g, b, {}) && gap % ALIGN_SIZE == 0 && BLOCK_HEADER_SIZE <= gap && CanSplit(g, b, gap)
    ensures SplitOk(g, b, gap - METADATA_SIZE)
    ensures var r, g1 := b + gap, Split(g, b, gap - METADATA_SIZE, true);
            && b in g1.blocks && ClassOf(g1.blocks[b].size) in g1.lists && Sound(g1, {b, r})
            && Pending(Insert(g1, b), r, {r})
            && r in Insert(g1, b).blocks && Insert(g1, b).blocks[r].size == g.blocks[b].size - gap
  {
    SplitLeadSound(g, b, gap);
    var r, g1 := b + gap, Split(g, b, gap - METADATA_SIZE, true);
    InsertSound(g1, b, {b, r});
    assert {b, r} - {b} == {r};
    ListsFlags(g1, Insert(g1, b));
  }

  // block_trim_free_leading; the result names the block that the caller goes on with.
  ghost function TrimLeading(g: Heap, b: int, gap: nat): (r: (Heap, int))
    requires Pending(g, b, {}) && gap % ALIGN_SIZE == 0 && BLOCK_HEADER_SIZE <= gap
    ensures Pending(r.0, r.1, {r.1})
  {
    if CanSplit(g, b, gap) then
      SplitLeadStep(g, b, gap);
      (Insert(Split(g, b, gap - METADATA_SIZE, true), b), b + gap)
    else
      WeakenCoalesced(g, {}, {b});
      (g, b)
  }
}
