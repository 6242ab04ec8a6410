/** The public calls of tlsf.c on a heap value (tlsf.c:943-1244). */
module HeapCalls {
  import opened SizeClasses
  import opened Alignment
  import opened Heaps
  import opened HeapSteps
  import opened HeapOps
  import opened HeapFrames

  // ---------------------------------------------------------------- tlsf_memalign

  // The located block b, cut at the front so that its payload is aligned if it can be.
  ghost function AlignBlock(g: Heap, b: int, align: nat, adjust: nat): (r: (Heap, int))
    requires Pending(g, b, {}) && align > 0 && 0 <= b
    requires GapGood(b + BLOCK_START_OFFSET, align, adjust, g.blocks[b].size)
    ensures Pending(r.0, r.1, {r.1}) && b <= r.1 && adjust <= r.0.blocks[r.1].size
  {
    var gap := Gap(b + BLOCK_START_OFFSET, align);
    if gap > 0 then TrimLeading(g, b, gap) else (WeakenCoalesced(g, {}, {b}); (g, b))
  }

  // A located block with room for the gap in front and the request.
  ghost predicate CanFront(g: Heap, b: int, align: nat, adjust: nat) {
    && Pending(g, b, {}) && align > 0 && 0 <= b && SizeOk(adjust)
    && GapGood(b + BLOCK_START_OFFSET, align, adjust, g.blocks[b].size)
  }

  ghost function PrepareAligned(g: Heap, b: int, align: nat, adjust: nat): (o: Outcome)
    requires Pending(g, b, {}) && align > 0 && 0 <= b
    requires GapGood(b + BLOCK_START_OFFSET, align, adjust, g.blocks[b].size)
    requires SizeOk(adjust)
    ensures Inv(o.heap) && o.ptr != NULL && Holds(o, adjust)
  {
    var (g1, b1) := AlignBlock(g, b, align, adjust);
    Outcome(PrepareUsed(g1, b1, adjust), b1 + BLOCK_START_OFFSET)
  }

  // tlsf_memalign
  ghost function Memalign(g: Heap, align: nat, size: nat): (o: Outcome)
    requires Inv(g) && PowerOfTwo(align)
    ensures Inv(o.heap)
    ensures o.ptr == NULL ==> o.heap == g
    ensures o.ptr != NULL ==> Holds(o, AdjustRequest(size, ALIGN_SIZE))
  {
    var adjust := AdjustRequest(size, ALIGN_SIZE);
    match Locate(g, AlignedNeed(align, adjust))
    case Nothing => Outcome(g, NULL)
    case At(c) =>
      LocatedAligned(g, align, adjust);
      PrepareAligned(Remove(g, g.lists[c][0]), g.lists[c][0], align, adjust)
  }

  // A block located for an aligned request can be cut at the front.
  lemma LocatedAligned(g: Heap, align: nat, adjust: nat)
    requires Inv(g) && PowerOfTwo(align) && (adjust == 0 || SizeOk(adjust))
    requires Locate(g, AlignedNeed(align, adjust)).At?
    ensures SizeOk(adjust) && LocatedOk(g, Locate(g, AlignedNeed(align, adjust)).list, AlignedNeed(align, adjust))
    ensures var b := g.lists[Locate(g, AlignedNeed(align, adjust)).list][0];
            GapGood(b + BLOCK_START_OFFSET, align, adjust, g.blocks[b].size)
  {
    NeedOk(align, adjust);
    var need := AlignedNeed(align, adjust);
    LocatedBlock(g, need);
    var b := g.lists[Locate(g, need).list][0];
    LocatedGap(g, Locate(g, need).list, b, need, b + BLOCK_START_OFFSET, align, adjust);
  }

  // What tlsf_memalign goes on with: the heap h in which the located block b is in no list.
  lemma FrontOf(g: Heap, c: Class, b: int, h: Heap, align: nat, size: nat, adjust: nat, need: nat)
    requires Inv(g) && PowerOfTwo(align) && adjust == AdjustRequest(size, ALIGN_SIZE) && need == AlignedNeed(align, adjust)
    requires Locate(g, need) == At(c) && LocatedOk(g, c, need) && b == g.lists[c][0]
    requires b in g.blocks && ClassOf(g.blocks[b].size) == c && h == Remove(g, b)
    ensures CanFront(h, b, align, adjust) && Memalign(g, align, size) == PrepareAligned(h, b, align, adjust)
  {
    LocatedAligned(g, align, adjust);
  }

  lemma LocatedGap(g: Heap, c: Class, b: int, need: nat, ptr: nat, align: nat, adjust: nat)
    requires LocatedOk(g, c, need) && b == g.lists[c][0] && ptr == b + BLOCK_START_OFFSET
    requires PowerOfTwo(align) && SizeOk(adjust) && need == AlignedNeed(align, adjust) && 0 < need
    ensures GapGood(ptr, align, adjust, g.blocks[b].size)
  {
    var size := g.blocks[b].size;
    PayloadAligned(b, ptr);
    GapFits(ptr, align, adjust, size);
  }

  lemma PayloadAligned(b: int, ptr: int)
    requires b % ALIGN_SIZE == 0 && ptr == b + BLOCK_START_OFFSET
    ensures ptr % ALIGN_SIZE == 0
  {
  }

  // What is searched for is a block size, and large enough for the request.
  lemma NeedOk(align: nat, adjust: nat)
    requires PowerOfTwo(align) && (adjust == 0 || SizeOk(adjust))
    ensures AlignedNeed(align, adjust) == 0 || (SizeOk(AlignedNeed(align, adjust)) && adjust > 0)
  {
    if align > ALIGN_SIZE && AlignedNeed(align, adjust) > 0 {
      var k: nat :| align == Bits.Pow2(k);
      NeedValue(align, adjust);
      Pow2AtLeast8(k);
      MultipleOf8(AlignedNeed(align, adjust), align, k);
    }
  }

  lemma Pow2AtLeast8(k: nat)
    requires Bits.Pow2(k) > 8
    ensures k >= 3
  {
    assert Bits.Pow2(3) == 8;
    Bits.Pow2Less(3, k);
  }

  // ---------------------------------------------------------------- tlsf_realloc

  // Copies the client data of block b to the same offsets of block d.
  ghost function CopyUser(g: Heap, b: int, d: int): Heap {
    g.(user := g.user + map a | a in Shifted(g, b, d) :: UserWord(d, Origin(g, b, d, a)))
  }

  ghost function Shifted(g: Heap, b: int, d: int): set<int> {
    set a | a in g.user && g.user[a].owner == b :: a + (d - b)
  }

  ghost function Origin(g: Heap, b: int, d: int, a: int): nat
    requires a in Shifted(g, b, d)
  {
    g.user[a - (d - b)].value
  }

  lemma CopyUserInv(g: Heap, b: int, d: int)
    requires Inv(g) && Live(g, b) && Live(g, d) && g.blocks[b].size <= g.blocks[d].size
    ensures Inv(CopyUser(g, b, d))
  {
    var g' := CopyUser(g, b, d);
    assert ShapedAt(g, b) && ShapedAt(g, d);
    forall a | a in g'.user
      ensures UserAt(g', a)
    {
      if a in Shifted(g, b, d) {
        assert UserAt(g, a - (d - b));
        SameResidue(a - (d - b), b, d);
      } else {
        assert UserAt(g, a);
      }
    }
    OnlyUserInv(g, g');
  }

  lemma SameResidue(a: int, b: int, d: int)
    requires a % ALIGN_SIZE == 0 && b % ALIGN_SIZE == 0 && d % ALIGN_SIZE == 0
    ensures (a + (d - b)) % ALIGN_SIZE == 0
  {
  }

  // Whether the request can be met where the block is.
  ghost predicate FitsInPlace(g: Heap, b: int, adjust: nat)
    requires Live(g, b) && Next(g, b) in g.blocks
  {
    var cur, nx := g.blocks[b].size, Next(g, b);
    adjust <= cur || (g.blocks[nx].free && adjust <= cur + g.blocks[nx].size + METADATA_SIZE)
  }

  // Block b grows over a free neighbour if it must, and gives back what it does not need.
  ghost function Resize(g: Heap, b: int, adjust: nat): (g': Heap)
    requires Inv(g) && Live(g, b) && SizeOk(adjust) && Next(g, b) in g.blocks && FitsInPlace(g, b, adjust)
    ensures Inv(g')
  {
    if adjust > g.blocks[b].size then
      OwnDataBelow(g, b, adjust);
      TrimUsed(Expand(g, b), b, adjust)
    else
      DropUserInv(g, b, adjust);
      TrimUsed(DropUser(g, b, adjust), b, adjust)
  }

  lemma OwnDataBelow(g: Heap, b: int, n: nat)
    requires UserOk(g) && b in g.blocks && g.blocks[b].size <= n
    ensures NoUserAbove(g, b, n)
  {
    forall a | a in g.user
      ensures g.user[a].owner == b ==> a < b + BLOCK_START_OFFSET + n
    {
      assert UserAt(g, a);
    }
  }

  // After a successful allocation, both blocks are live, the new one is larger and holds
  // no client data yet.
  ghost predicate CanMove(g: Heap, b: int, d: int, size: nat) {
    && Live(g, b) && Live(g, d) && b != d && g.blocks[b].size == size <= g.blocks[d].size
    && NoUserAbove(g, d, 0)
  }

  lemma MoveReady(g: Heap, b: int, size: nat)
    requires Inv(g) && Live(g, b) && g.blocks[b].size < AdjustRequest(size, ALIGN_SIZE)
    ensures MoveOk(Malloc(g, size), b)
    ensures Malloc(g, size).ptr != NULL ==> Malloc(g, size).heap.blocks[b].size == g.blocks[b].size
  {
    var adjust := AdjustRequest(size, ALIGN_SIZE);
    var o := Allocate(g, adjust);
    if o.ptr != NULL {
      var d := o.ptr - BLOCK_START_OFFSET;
      AllocatedApart(g, adjust, o, d);
      NewToMove(g, o, b, d, adjust);
    }
  }

  lemma AllocatedApart(g: Heap, adjust: nat, o: Outcome, d: int)
    requires Inv(g) && SizeOk(adjust) && o == Allocate(g, adjust) && o.ptr != NULL && d == o.ptr - BLOCK_START_OFFSET
    ensures !Live(g, d) && Kept(g, o.heap, d) && o.heap.user == g.user && Holds(o, adjust)
  {
    AllocateKeeps(g, adjust, d);
    AllocateUser(g, adjust);
  }

  lemma NewToMove(g: Heap, o: Outcome, b: int, d: int, n: int)
    requires UserOk(g) && Live(g, b) && !Live(g, d) && Kept(g, o.heap, d) && o.heap.user == g.user
    requires Holds(o, n) && d == o.ptr - BLOCK_START_OFFSET && g.blocks[b].size < n
    ensures Live(o.heap, b) && CanMove(o.heap, b, d, o.heap.blocks[b].size) && o.heap.blocks[b].size == g.blocks[b].size
  {
    NoUserUnlessLive(g, d);
    assert KeptAt(g, o.heap, b);
  }

  lemma LiveSize(g: Heap, b: int)
    requires Shaped(g) && Live(g, b)
    ensures 0 < b && g.blocks[b].size % ALIGN_SIZE == 0 && BLOCK_SIZE_MIN <= g.blocks[b].size
  {
    assert ShapedAt(g, b);
  }

  // A request that outgrows a block asks for more bytes than the block holds, so that the
  // whole of it is copied.
  lemma WholeBlockCopied(cursize: nat, size: nat)
    requires cursize % ALIGN_SIZE == 0 && BLOCK_SIZE_MIN <= cursize < AdjustRequest(size, ALIGN_SIZE)
    ensures cursize < size
  {
    assert AlignUp(size, ALIGN_SIZE) % ALIGN_SIZE == 0;
  }

  // Copying block b's data to block d and freeing b.
  ghost function MoveUser(g: Heap, b: int, d: int): (g': Heap)
    requires Inv(g) && Live(g, b) && Live(g, d) && g.blocks[b].size <= g.blocks[d].size
    ensures Inv(g')
  {
    CopyUserInv(g, b, d);
    Free(CopyUser(g, b, d), b)
  }

  // An allocation that returned a block to which b's data can be moved, or no block.
  ghost predicate MoveOk(o: Outcome, b: int) {
    Inv(o.heap) && (o.ptr != NULL ==> b in o.heap.blocks && CanMove(o.heap, b, o.ptr - BLOCK_START_OFFSET, o.heap.blocks[b].size))
  }

  // What the allocation o becomes when b's data is moved to the new block.
  ghost function MoveInto(o: Outcome, b: int): (o': Outcome)
    requires MoveOk(o, b)
    ensures Inv(o'.heap) && o'.ptr == o.ptr && (o.ptr == NULL ==> o' == o)
  {
    if o.ptr == NULL then o else Outcome(MoveUser(o.heap, b, o.ptr - BLOCK_START_OFFSET), o.ptr)
  }

  // The block that the allocation returned, by its header.
  lemma MoveIntoAt(o: Outcome, b: int, d: int)
    requires MoveOk(o, b) && o.ptr != NULL && d == o.ptr - BLOCK_START_OFFSET
    ensures CanMove(o.heap, b, d, o.heap.blocks[b].size) && MoveInto(o, b) == Outcome(MoveUser(o.heap, b, d), o.ptr)
  {
  }

  lemma MoveUserIs(g: Heap, b: int, d: int)
    requires Inv(g) && b in g.blocks && CanMove(g, b, d, g.blocks[b].size)
    ensures Inv(CopyUser(g, b, d)) && Live(CopyUser(g, b, d), b) && Live(CopyUser(g, b, d), d)
    ensures MoveUser(g, b, d) == Free(CopyUser(g, b, d), b)
  {
    CopyUserInv(g, b, d);
  }

  lemma MoveIntoIs(o: Outcome, b: int, d: int)
    requires MoveOk(o, b) && o.ptr != NULL && d == o.ptr - BLOCK_START_OFFSET
    ensures Inv(CopyUser(o.heap, b, d)) && Live(CopyUser(o.heap, b, d), b)
    ensures MoveInto(o, b) == Outcome(Free(CopyUser(o.heap, b, d), b), o.ptr)
  {
    MoveIntoAt(o, b, d);
    MoveUserIs(o.heap, b, d);
  }

  // The path that allocates elsewhere, copies and frees.
  ghost function Relocate(g: Heap, b: int, size: nat): (o: Outcome)
    requires Inv(g) && Live(g, b) && g.blocks[b].size < AdjustRequest(size, ALIGN_SIZE)
    ensures Inv(o.heap)
    ensures o.ptr == NULL ==> o.heap == g
  {
    MoveReady(g, b, size);
    MoveInto(Malloc(g, size), b)
  }

  // tlsf_realloc of a live block, for a request that has a block size
  ghost function Realloc(g: Heap, b: int, size: nat): (o: Outcome)
    requires Inv(g) && Live(g, b) && AdjustRequest(size, ALIGN_SIZE) > 0
    ensures Inv(o.heap)
    ensures o.ptr == NULL ==> o.heap == g
  {
    var adjust := AdjustRequest(size, ALIGN_SIZE);
    assert ShapedAt(g, b) && ChainedAt(g, b);
    if FitsInPlace(g, b, adjust) then Outcome(Resize(g, b, adjust), b + BLOCK_START_OFFSET)
    else Relocate(g, b, size)
  }

  // ---------------------------------------------------------------- pools

  // The payload of a pool of so many bytes; `bytes - 32` wraps around.
  function PoolPayload(bytes: nat): int {
    var rest := if bytes >= 2 * METADATA_SIZE then bytes - 2 * METADATA_SIZE else bytes - 2 * METADATA_SIZE + 0x1_0000_0000_0000_0000;
    rest - rest % ALIGN_SIZE
  }

  predicate PoolSizeOk(mem: int, bytes: nat) {
    mem % ALIGN_SIZE == 0 && BLOCK_SIZE_MIN <= PoolPayload(bytes) <= BLOCK_SIZE_MAX
  }

  // The memory handed over is mapped and belongs to no other pool.
  ghost predicate Unclaimed(g: Heap, mem: int, bytes: nat) {
    && 8 < mem && mem + bytes <= g.limit
    && (mem + bytes <= g.ctl || g.ctl + BLOCK_HEADER_SIZE <= mem)
    && forall b | b in g.blocks :: b + BLOCK_START_OFFSET + g.blocks[b].size <= mem || mem + bytes <= b + 8
  }

  // The header of the pool's only block and its sentinel, before the block is listed.
  ghost function PlacePool(g: Heap, mem: int, bytes: nat): Heap
    requires PoolSizeOk(mem, bytes)
  {
    var f, n := mem - 8, PoolPayload(bytes);
    g.(blocks := g.blocks[f := Block(n, true, false, f, f)][Rest(f, n) := Block(0, false, true, f, f)],
       pools := g.pools[f := Rest(f, n)],
       foreign := Outside(g.foreign, f + 8, Rest(f, n) + BLOCK_START_OFFSET))
  }

  // The words of m that do not lie from address lo to below address hi.
  function Outside(m: map<int, nat>, lo: int, hi: int): map<int, nat> {
    map a | a in m && !(lo <= a < hi) :: m[a]
  }

  ghost predicate PoolReady(g: Heap, mem: int, bytes: nat) {
    PoolSizeOk(mem, bytes) && PoolPayload(bytes) < POOL_LIMIT && Unclaimed(g, mem, bytes)
  }

  lemma PoolFits(g: Heap, mem: int, bytes: nat)
    requires PoolReady(g, mem, bytes)
    ensures bytes >= 2 * METADATA_SIZE && PoolPayload(bytes) + 2 * METADATA_SIZE <= bytes && PoolPayload(bytes) % ALIGN_SIZE == 0
  {
  }

  // The new blocks lie apart from every old one.
  lemma PlacePoolFresh(g: Heap, mem: int, bytes: nat, b: int)
    requires Tiled(g) && PoolReady(g, mem, bytes) && b in g.blocks
    ensures var f := mem - 8; var s := Rest(f, PoolPayload(bytes));
            && (b + METADATA_SIZE + g.blocks[b].size <= f || s + METADATA_SIZE <= b)
            && b != f && b != s && f !in g.pools
  {
    PoolFits(g, mem, bytes);
    assert ShapedAt(g, b);
    assert mem - 8 in g.pools ==> PooledAt(g, mem - 8);
  }

  lemma PlacePoolShaped(g: Heap, mem: int, bytes: nat)
    requires Tiled(g) && PoolReady(g, mem, bytes)
    ensures Shaped(PlacePool(g, mem, bytes))
  {
    var g' := PlacePool(g, mem, bytes);
    PoolFits(g, mem, bytes);
    RestAligned(mem - 8, PoolPayload(bytes));
    forall x | x in g'.blocks
      ensures ShapedAt(g', x)
    {
      if x in g.blocks {
        assert ShapedAt(g, x);
        PlacePoolFresh(g, mem, bytes, x);
      }
    }
  }

  lemma PlacePoolOrdered(g: Heap, mem: int, bytes: nat)
    requires Tiled(g) && PoolReady(g, mem, bytes)
    ensures Ordered(PlacePool(g, mem, bytes))
  {
    var g' := PlacePool(g, mem, bytes);
    forall x, y | x in g'.blocks && y in g'.blocks
      ensures Apart(g', x, y)
    {
      if x in g.blocks {
        PlacePoolFresh(g, mem, bytes, x);
      }
      if y in g.blocks {
        PlacePoolFresh(g, mem, bytes, y);
      }
      assert x in g.blocks && y in g.blocks ==> Apart(g, x, y);
    }
  }

  lemma PlacePoolLinked(g: Heap, mem: int, bytes: nat)
    requires Tiled(g) && PoolReady(g, mem, bytes)
    ensures Chained(PlacePool(g, mem, bytes)) && Backed(PlacePool(g, mem, bytes))
  {
    var g' := PlacePool(g, mem, bytes);
    forall x | x in g'.blocks
      ensures ChainedAt(g', x) && BackedAt(g', x)
    {
      if x in g.blocks {
        PlacePoolFresh(g, mem, bytes, x);
        assert ChainedAt(g, x) && BackedAt(g, x);
        if g.blocks[x].size > 0 {
          PlacePoolFresh(g, mem, bytes, Next(g, x));
        }
        if x !in g.pools {
          PlacePoolFresh(g, mem, bytes, g.blocks[x].prev);
        }
      }
    }
  }

  lemma PlacePoolPooled(g: Heap, mem: int, bytes: nat)
    requires Tiled(g) && PoolReady(g, mem, bytes)
    ensures Pooled(PlacePool(g, mem, bytes))
  {
    var g' := PlacePool(g, mem, bytes);
    forall f | f in g'.pools
      ensures PooledAt(g', f)
    {
      if f != mem - 8 {
        assert PooledAt(g, f);
        PlacePoolFresh(g, mem, bytes, f);
        PlacePoolFresh(g, mem, bytes, g.pools[f]);
      }
    }
  }

  lemma PlacePoolListed(g: Heap, mem: int, bytes: nat)
    requires Tiled(g) && Listed(g, {}) && PoolReady(g, mem, bytes)
    ensures Listed(PlacePool(g, mem, bytes), {mem - 8})
  {
    var g', pend' := PlacePool(g, mem, bytes), {mem - 8};
    forall c, i | c in g'.lists && 0 <= i < |g'.lists[c]|
      ensures EntryAt(g', pend', c, i)
    {
      assert EntryAt(g, {}, c, i);
      PlacePoolFresh(g, mem, bytes, g.lists[c][i]);
    }
    forall c | c in g'.lists
      ensures DistinctAt(g', c)
    {
      assert DistinctAt(g, c);
    }
    forall x | x in g'.blocks
      ensures ListedAt(g', pend', x)
    {
      if x in g.blocks {
        assert ListedAt(g, {}, x);
        PlacePoolFresh(g, mem, bytes, x);
      }
    }
  }

  lemma PlacePoolFlags(g: Heap, mem: int, bytes: nat)
    requires Inv(g) && PoolReady(g, mem, bytes)
    ensures FlagsOk(PlacePool(g, mem, bytes), {}) && Coalesced(PlacePool(g, mem, bytes), {})
    ensures UserOk(PlacePool(g, mem, bytes))
  {
    var g' := PlacePool(g, mem, bytes);
    forall x | x in g'.blocks
      ensures FlagAt(g', x) && CoalescedAt(g', x)
    {
      if x in g.blocks {
        assert FlagAt(g, x) && CoalescedAt(g, x);
        PlacePoolFresh(g, mem, bytes, x);
        if g.blocks[x].size > 0 {
          PlacePoolFresh(g, mem, bytes, Next(g, x));
        }
      }
    }
    forall a | a in g'.user
      ensures UserAt(g', a)
    {
      assert UserAt(g, a);
      PlacePoolFresh(g, mem, bytes, g.user[a].owner);
    }
  }

  lemma PlacePoolPending(g: Heap, mem: int, bytes: nat)
    requires Inv(g) && PoolReady(g, mem, bytes)
    ensures Pending(PlacePool(g, mem, bytes), mem - 8, {})
  {
    PlacePoolShaped(g, mem, bytes);
    PlacePoolOrdered(g, mem, bytes);
    PlacePoolLinked(g, mem, bytes);
    PlacePoolPooled(g, mem, bytes);
    PlacePoolListed(g, mem, bytes);
    PlacePoolFlags(g, mem, bytes);
  }

  // tlsf_add_pool
  ghost function AddPool(g: Heap, mem: int, bytes: nat): (o: Outcome)
    requires Inv(g) && (PoolSizeOk(mem, bytes) ==> PoolReady(g, mem, bytes))
    ensures Inv(o.heap)
    ensures o.ptr == NULL ==> o.heap == g
  {
    if PoolSizeOk(mem, bytes) then
      PlacePoolPending(g, mem, bytes);
      Outcome(Relist(PlacePool(g, mem, bytes), mem - 8), mem)
    else Outcome(g, NULL)
  }

  // A pool that is one free block in front of its sentinel.
  ghost predicate Vacant(g: Heap, f: int) {
    f in g.pools && f in g.blocks && g.blocks[f].free && Next(g, f) == g.pools[f]
  }

  // tlsf_remove_pool
  ghost function RemovePool(g: Heap, f: int): Heap
    requires Inv(g) && Vacant(g, f)
  {
    RemoveSound(g, f, {});
    var g1 := Remove(g, f);
    g1.(blocks := g1.blocks - {f, g.pools[f]}, pools := g1.pools - {f})
  }

  // The blocks of a vacant pool are its first block and its sentinel, and no other
  // block's neighbour.
  lemma VacantAlone(g: Heap, f: int, x: int)
    requires Inv(g) && Vacant(g, f) && x in g.blocks && x != f && x != g.pools[f]
    ensures g.blocks[x].pool != f
    ensures g.blocks[x].size > 0 ==> Next(g, x) != f && Next(g, x) != g.pools[f]
    ensures x !in g.pools ==> g.blocks[x].prev != f && g.blocks[x].prev != g.pools[f]
    ensures x in g.pools ==> g.pools[x] != g.pools[f]
  {
    assert PooledAt(g, f) && ShapedAt(g, x) && ShapedAt(g, f) && ShapedAt(g, g.pools[f]) && Apart(g, f, x);
    assert ChainedAt(g, x) && ChainedAt(g, f) && BackedAt(g, x);
    assert x in g.pools ==> PooledAt(g, x);
  }

  lemma RemovePoolTiled(g: Heap, f: int)
    requires Inv(g) && Vacant(g, f)
    ensures Tiled(RemovePool(g, f))
  {
    var g' := RemovePool(g, f);
    forall x | x in g'.blocks
      ensures ShapedAt(g', x) && ChainedAt(g', x) && BackedAt(g', x)
    {
      VacantAlone(g, f, x);
      assert ShapedAt(g, x) && ChainedAt(g, x) && BackedAt(g, x);
    }
    forall x, y | x in g'.blocks && y in g'.blocks
      ensures Apart(g', x, y)
    {
      assert Apart(g, x, y);
    }
    forall y | y in g'.pools
      ensures PooledAt(g', y)
    {
      assert PooledAt(g, y) && PooledAt(g, f);
      VacantAlone(g, f, y);
    }
  }

  lemma RemovePoolInv(g: Heap, f: int)
    requires Inv(g) && Vacant(g, f)
    ensures Inv(RemovePool(g, f))
  {
    var g' := RemovePool(g, f);
    RemovePoolTiled(g, f);
    RemovePoolListed(g, f);
    assert PooledAt(g, f) && ShapedAt(g, g.pools[f]);
    forall x | x in g'.blocks
      ensures FlagAt(g', x) && CoalescedAt(g', x)
    {
      VacantAlone(g, f, x);
      assert FlagAt(g, x) && CoalescedAt(g, x);
    }
    forall a | a in g'.user
      ensures UserAt(g', a)
    {
      assert UserAt(g, a);
    }
  }

  lemma RemovePoolListed(g: Heap, f: int)
    requires Inv(g) && Vacant(g, f)
    ensures Listed(RemovePool(g, f), {})
  {
    RemoveSound(g, f, {});
    assert {} + {f} == {f};
    assert PooledAt(g, f) && ShapedAt(g, g.pools[f]);
    DropListed(Remove(g, f), RemovePool(g, f), f, g.pools[f]);
  }

  // Taking a pending block and a sentinel out of the heap.
  lemma DropListed(g: Heap, g': Heap, f: int, s: int)
    requires Listed(g, {f}) && g'.blocks == g.blocks - {f, s} && g'.lists == g.lists
    requires s in g.blocks && !g.blocks[s].free
    ensures Listed(g', {})
  {
    var pend: set<int> := {};
    forall c, i | c in g'.lists && 0 <= i < |g'.lists[c]|
      ensures EntryAt(g', pend, c, i)
    {
      assert EntryAt(g, {f}, c, i);
    }
    forall c | c in g'.lists
      ensures DistinctAt(g', c)
    {
      assert DistinctAt(g, c);
    }
    forall x | x in g'.blocks
      ensures ListedAt(g', pend, x)
    {
      assert ListedAt(g, {f}, x);
    }
  }

  // ---------------------------------------------------------------- tlsf_create

  // A heap without pools in memory m; the links of block_null are the allocator's.
  ghost function EmptyHeap(ctl: int, limit: int, m: map<int, nat>): Heap {
    Heap(ctl, limit, map[], map[], map fl, sl | 0 <= fl < FL_INDEX_COUNT && 0 <= sl < SL_INDEX_COUNT :: Class(fl, sl) := [], map[],
         Outside(m, ctl + 24, ctl + BLOCK_HEADER_SIZE))
  }

  lemma EmptyHeapInv(ctl: int, limit: int, m: map<int, nat>)
    requires ctl % ALIGN_SIZE == 0 && 0 < ctl && ctl + BLOCK_HEADER_SIZE <= limit
    ensures Inv(EmptyHeap(ctl, limit, m))
  {
    var g := EmptyHeap(ctl, limit, m);
    forall c
      ensures c in g.lists <==> ValidClass(c)
    {
      assert c == Class(c.fl, c.sl);
    }
    forall c | c in g.lists
      ensures DistinctAt(g, c)
    {
    }
  }

  // ---------------------------------------------------------------- client accesses

  // The client stores w at address a of its block b.
  ghost function Write(g: Heap, b: int, a: int, w: nat): Heap {
    g.(user := g.user[a := UserWord(b, w)])
  }

  // Address a is a word of live block b's payload.
  ghost predicate InPayload(g: Heap, b: int, a: int) {
    Live(g, b) && a % ALIGN_SIZE == 0 && b + BLOCK_START_OFFSET <= a < b + BLOCK_START_OFFSET + g.blocks[b].size
  }

  lemma WriteInv(g: Heap, b: int, a: int, w: nat)
    requires Inv(g) && InPayload(g, b, a)
    ensures Inv(Write(g, b, a, w))
  {
    var g' := Write(g, b, a, w);
    forall y | y in g'.user
      ensures UserAt(g', y)
    {
      assert y != a ==> UserAt(g, y);
    }
    OnlyUserInv(g, g');
  }

  // ---------------------------------------------------------------- walking a pool

  ghost predicate AllBlocks(g: Heap, w: seq<int>) {
    forall i | 0 <= i < |w| :: w[i] in g.blocks
  }

  // The blocks from b on, up to but without the sentinel, as block_next reaches them.
  ghost function Walk(g: Heap, b: int): (w: seq<int>)
    requires Tiled(g) && b in g.blocks
    ensures AllBlocks(g, w)
    decreases g.limit - b
  {
    if g.blocks[b].size == 0 then []
    else
      WalkStep(g, b);
      [b] + Walk(g, Next(g, b))
  }

  lemma WalkStep(g: Heap, b: int)
    requires Tiled(g) && b in g.blocks && g.blocks[b].size > 0
    ensures ChainedAt(g, b) && Next(g, b) in g.blocks && b < Next(g, b) < g.limit && 0 < b
    ensures g.blocks[Next(g, b)].pool == g.blocks[b].pool
  {
    assert ChainedAt(g, b) && ShapedAt(g, b) && ShapedAt(g, Next(g, b));
  }

  // What the walker is told of a block.
  datatype Visit = Visit(ptr: int, size: nat, used: bool)

  ghost predicate Tells(g: Heap, w: seq<int>, visits: seq<Visit>)
    requires AllBlocks(g, w)
  {
    && |visits| == |w|
    && forall i | 0 <= i < |w| ::
         w[i] in g.blocks && visits[i] == Visit(w[i] + BLOCK_START_OFFSET, g.blocks[w[i]].size, !g.blocks[w[i]].free)
  }

  // A walk in progress: what has been visited, told of, and is still ahead.
  ghost predicate Walking(g: Heap, f: int, walked: seq<int>, visits: seq<Visit>, b: int)
    requires Tiled(g) && f in g.blocks
  {
    && b in g.blocks && walked + Walk(g, b) == Walk(g, f)
    && AllBlocks(g, walked) && Tells(g, walked, visits)
  }

  lemma WalkOn(g: Heap, f: int, walked: seq<int>, visits: seq<Visit>, b: int)
    requires Tiled(g) && f in g.blocks && Walking(g, f, walked, visits, b) && g.blocks[b].size > 0
    ensures Next(g, b) in g.blocks
    ensures Walking(g, f, walked + [b], visits + [Visit(b + BLOCK_START_OFFSET, g.blocks[b].size, !g.blocks[b].free)], Next(g, b))
  {
    WalkStep(g, b);
    assert walked + [b] + Walk(g, Next(g, b)) == walked + Walk(g, b);
  }

  // The prev-free bit of each walked block tells whether the one before is free.
  ghost predicate PrevTold(g: Heap, w: seq<int>)
    requires AllBlocks(g, w)
  {
    forall i {:trigger ToldAt(g, w, i)} | 0 <= i < |w| :: ToldAt(g, w, i)
  }

  ghost predicate ToldAt(g: Heap, w: seq<int>, i: int)
    requires AllBlocks(g, w) && 0 <= i < |w|
  {
    g.blocks[w[i]].prevFree == (i > 0 && g.blocks[w[i - 1]].free)
  }

  ghost predicate LastFree(g: Heap, w: seq<int>)
    requires AllBlocks(g, w)
  {
    w != [] && g.blocks[w[|w| - 1]].free
  }

  // A walk in progress.
  ghost predicate WalkedSoFar(g: Heap, f: int, walked: seq<int>, b: int)
    requires Tiled(g) && f in g.blocks
  {
    b in g.blocks && walked + Walk(g, b) == Walk(g, f) && AllBlocks(g, walked)
  }

  lemma WalkFurther(g: Heap, f: int, walked: seq<int>, b: int)
    requires Tiled(g) && f in g.blocks && WalkedSoFar(g, f, walked, b) && g.blocks[b].size > 0
    ensures Next(g, b) in g.blocks && b < Next(g, b) < g.limit && WalkedSoFar(g, f, walked + [b], Next(g, b))
    ensures PrevTold(g, walked + [b]) <==> PrevTold(g, walked) && g.blocks[b].prevFree == LastFree(g, walked)
    ensures LastFree(g, walked + [b]) == g.blocks[b].free
  {
    WalkStep(g, b);
    assert walked + [b] + Walk(g, Next(g, b)) == walked + Walk(g, b);
    var w := walked + [b];
    forall i | 0 <= i < |walked|
      ensures ToldAt(g, w, i) == ToldAt(g, walked, i)
    {
    }
    assert ToldAt(g, w, |walked|) == (g.blocks[b].prevFree == LastFree(g, walked));
    assert PrevTold(g, w) ==> forall i | 0 <= i < |walked| :: ToldAt(g, w, i);
  }

  // The bytes of the walked blocks, each with its header.
  ghost function Bytes(g: Heap, w: seq<int>): int
    requires AllBlocks(g, w)
  {
    if w == [] then 0
    else
      g.blocks[w[0]].size + METADATA_SIZE + Bytes(g, w[1..])
  }

  ghost predicate Follows(g: Heap, w: seq<int>, i: int)
    requires 0 < i < |w|
  {
    w[i - 1] in g.blocks && w[i] == Next(g, w[i - 1])
  }

  // A walk visits, in ascending order, exactly the blocks of the pool from b on, each
  // where the one before it ends, and their bytes reach up to the sentinel.
  lemma {:induction false} WalkTiles(g: Heap, b: int)
    requires Tiled(g) && b in g.blocks
    ensures var f, w := g.blocks[b].pool, Walk(g, b);
            && f in g.pools
            && Bytes(g, w) == g.pools[f] - b
            && (w != [] ==> w[0] == b)
            && (forall i {:trigger Follows(g, w, i)} | 0 < i < |w| :: Follows(g, w, i))
            && (forall x :: x in w <==> x in g.blocks && g.blocks[x].pool == f && b <= x < g.pools[f])
    decreases g.limit - b
  {
    assert ShapedAt(g, b);
    if g.blocks[b].size == 0 {
    } else {
      WalkStep(g, b);
      WalkTiles(g, Next(g, b));
      var f, w := g.blocks[b].pool, Walk(g, b);
      forall x
        ensures x in w <==> x in g.blocks && g.blocks[x].pool == f && b <= x < g.pools[f]
      {
        assert x in g.blocks ==> Apart(g, b, x);
        assert x in w <==> x == b || x in Walk(g, Next(g, b));
      }
      forall i | 0 < i < |w|
        ensures Follows(g, w, i)
      {
        assert i > 1 ==> Follows(g, Walk(g, Next(g, b)), i - 1);
      }
    }
  }

  // The blocks of a pool and their headers always make up the same number of bytes.
  lemma PoolBytes(g: Heap, f: int)
    requires Tiled(g) && f in g.pools
    ensures f in g.blocks && Bytes(g, Walk(g, f)) == g.pools[f] - f
  {
    assert PooledAt(g, f);
    WalkTiles(g, f);
  }

  // The block behind b, unless it is a sentinel, knows whether b is free.
  ghost predicate TellsNext(g: Heap, b: int)
    requires b in g.blocks
  {
    g.blocks[b].size > 0 && Next(g, b) in g.blocks && g.blocks[Next(g, b)].size > 0 ==>
      g.blocks[Next(g, b)].prevFree == g.blocks[b].free
  }

  // What the walk of tlsf_check_pool finds: it misses a wrong bit of the sentinel only.
  lemma PrevToldIff(g: Heap, f: int)
    requires Tiled(g) && f in g.pools
    ensures f in g.blocks
    ensures PrevTold(g, Walk(g, f)) <==> forall b {:trigger TellsNext(g, b)} | b in g.blocks && g.blocks[b].pool == f :: TellsNext(g, b)
  {
    assert PooledAt(g, f);
    WalkTiles(g, f);
    var w := Walk(g, f);
    if PrevTold(g, w) {
      forall b | b in g.blocks && g.blocks[b].pool == f
        ensures TellsNext(g, b)
      {
        NextIsTold(g, f, w, b);
      }
    } else {
      var i :| 0 <= i < |w| && !ToldAt(g, w, i);
      assert w[i] in w && ShapedAt(g, w[i]);
      if i > 0 {
        assert Follows(g, w, i) && w[i - 1] in w && ShapedAt(g, w[i - 1]);
        assert !TellsNext(g, w[i - 1]);
      }
    }
  }

  lemma NextIsTold(g: Heap, f: int, w: seq<int>, b: int)
    requires Tiled(g) && f in g.pools && AllBlocks(g, w) && PrevTold(g, w) && b in g.blocks && g.blocks[b].pool == f
    requires (w != [] ==> w[0] == f) && (forall i {:trigger Follows(g, w, i)} | 0 < i < |w| :: Follows(g, w, i))
    requires forall x :: x in w <==> x in g.blocks && g.blocks[x].pool == f && f <= x < g.pools[f]
    ensures TellsNext(g, b)
  {
    assert ShapedAt(g, b) && ChainedAt(g, b);
    var q := Next(g, b);
    if g.blocks[b].size > 0 && g.blocks[q].size > 0 {
      assert ShapedAt(g, q) && q in w;
      var i :| 0 <= i < |w| && w[i] == q;
      assert i > 0 && Follows(g, w, i) && ToldAt(g, w, i);
      assert ShapedAt(g, w[i - 1]) && ChainedAt(g, w[i - 1]);
    }
  }

  // Between any two calls it finds nothing.
  lemma PrevToldAlways(g: Heap, f: int)
    requires Inv(g) && f in g.pools
    ensures f in g.blocks && PrevTold(g, Walk(g, f))
  {
    PrevToldIff(g, f);
    forall b | b in g.blocks && g.blocks[b].pool == f
      ensures TellsNext(g, b)
    {
      assert FlagAt(g, b);
    }
  }
}
