/**
 tlsf_realloc of a live block for a request that is so large that it has no block size
 (tlsf.c:1198-1238). adjust_request_size answers 0 for it, and the call goes on with that:
 it trims the block to no bytes at all, if it can be split. block_split stores the size 0
 and calls block_next, which asserts that the block is not the last of its pool (tlsf.c:352).
 The repository is built with assertions (Makefile.am:9, tlsf.c:158-160), so that the program
 stops there: `ReallocStops`.

 The rest is about a build with assertions compiled out, in which the call goes on and returns
 the block's address. `Hollow` is what becomes of the headers: the block has the size of a
 sentinel in the middle of its pool. What then works as a heap is the pool cut in two there,
 `Severed`: the block's header ends the first part, and the second starts inside the client's
 former payload.
 */
module Oversized {
  import opened SizeClasses
  import opened Memory
  import opened Heaps
  import opened HeapSteps
  import opened HeapOps
  import opened HeapFrames
  import opened HeapCalls
  import opened Layout
  import opened FreeIndex
  import opened Foreign
  import opened Represents
  import opened Requests

  // ---------------------------------------------------------------- the assertion

  // The headers when block_split calls block_next: block b has its new size.
  function Shortened(g: Heap, b: int, n: nat): Heap
    requires b in g.blocks
  {
    g.(blocks := g.blocks[b := g.blocks[b].(size := n)])
  }

  // block_is_last
  predicate IsLast(g: Heap, b: int)
    requires b in g.blocks
  {
    g.blocks[b].size == 0
  }

  // Trimming block b to n bytes fails the assertion of block_next.
  predicate TrimStops(g: Heap, b: int, n: nat) {
    CanSplit(g, b, n) && IsLast(Shortened(g, b, n), b)
  }

  // So does tlsf_realloc of live block b to size bytes, which trims the block, grown or not,
  // unless it has to move.
  ghost predicate ReallocStops(g: Heap, b: int, size: nat)
    requires Inv(g) && Live(g, b)
  {
    var adjust := AdjustRequest(size, ALIGN_SIZE);
    assert ChainedAt(g, b);
    FitsInPlace(g, b, adjust) && TrimStops(if adjust > g.blocks[b].size then Expand(g, b) else g, b, adjust)
  }

  // For any request but 0 bytes: the assertion fails if and only if the request has no block
  // size and the block can be split. Where it holds for such a request, the call returns the
  // block although it is smaller.
  lemma OversizedRequest(g: Heap, b: int, size: nat)
    requires Inv(g) && Live(g, b) && size > 0
    ensures ReallocStops(g, b, size) <==> AdjustRequest(size, ALIGN_SIZE) == 0 && g.blocks[b].size >= BLOCK_HEADER_SIZE
    ensures AdjustRequest(size, ALIGN_SIZE) == 0 ==> g.blocks[b].size < size
  {
    SizeInRange(g, b);
    assert ChainedAt(g, b);
  }

  // For instance: a pool whose one block of 128 bytes a client holds, and a request of 2^41.
  lemma OversizedExample()
    ensures Inv(CrampedHeap())
    ensures var o := Malloc(CrampedHeap(), 100);
            && o.ptr == 1056 && Live(o.heap, 1032) && o.heap.blocks[1032].size == 128
            && AdjustRequest(0x200_0000_0000, ALIGN_SIZE) == 0 && ReallocStops(o.heap, 1032, 0x200_0000_0000)
  {
    CrampedHeapIs();
    var g := CrampedHeap();
    assert AlignUp(100, 8) == 104 && AlignUp(0x200_0000_0000, 8) == 0x200_0000_0000;
    assert RoundUp(104) == 104 && ClassOf(104) == Class(0, 13);
    assert Locate(g, 104) == At(Class(0, 16));
    LocatedBlock(g, 104);
    OversizedRequest(Malloc(g, 100).heap, 1032, 0x200_0000_0000);
  }

  // ---------------------------------------------------------------- the headers

  // What the call makes of live block b without assertions: the block is trimmed to no bytes
  // at all if it can be split.
  ghost function Hollow(g: Heap, b: int): Heap
    requires Inv(g) && Live(g, b)
  {
    if CanSplit(g, b, 0) then
      HollowReady(g, b);
      var r, q, g1 := Rest(b, 0), Next(g, b), Split(g, b, 0, false);
      var g2 := if g1.blocks[q].free then Absorb(Remove(g1, q), r) else g1;
      Insert(g2, r)
    else g
  }

  lemma HollowReady(g: Heap, b: int)
    requires Inv(g) && Live(g, b) && CanSplit(g, b, 0)
    ensures Next(g, b) in g.blocks
    ensures var r, q, g1 := Rest(b, 0), Next(g, b), Split(g, b, 0, false);
            && r in g1.blocks && Next(g1, r) == q && q in g1.blocks && b < r < q
            && ClassOf(g1.blocks[q].size) in g1.lists && ClassOf(g1.blocks[r].size) in g1.lists
            && (g1.blocks[q].free ==>
                 Next(g1, q) in g1.blocks && q < Next(g1, q)
                 && ClassOf(g1.blocks[r].size + g1.blocks[q].size + METADATA_SIZE) in g1.lists)
  {
    SizesBehind(g, b, Next(g, b));
    HollowAt(g, b, Rest(b, 0), Next(g, b), Split(g, b, 0, false));
  }

  lemma HollowAt(g: Heap, b: int, r: int, q: int, g1: Heap)
    requires Listed(g, {}) && q in g.blocks && CanSplit(g, b, 0) && r == Rest(b, 0) && q == Next(g, b)
    requires g1 == Split(g, b, 0, false) && 0 <= g.blocks[q].size < POOL_LIMIT && g.blocks[b].size < POOL_LIMIT
    requires g.blocks[q].free ==> Next(g, q) in g.blocks && q < Next(g, q) && g.blocks[b].size + g.blocks[q].size < POOL_LIMIT
    ensures r in g1.blocks && Next(g1, r) == q && q in g1.blocks && b < r < q
    ensures ClassOf(g1.blocks[q].size) in g1.lists && ClassOf(g1.blocks[r].size) in g1.lists
    ensures g1.blocks[q].free ==>
              && Next(g1, q) in g1.blocks && q < Next(g1, q)
              && ClassOf(g1.blocks[r].size + g1.blocks[q].size + METADATA_SIZE) in g1.lists
  {
    SizeListed(g.lists, g1.blocks[q].size);
    SizeListed(g.lists, g1.blocks[r].size);
    if g.blocks[q].free {
      SizeListed(g.lists, g1.blocks[r].size + g1.blocks[q].size + METADATA_SIZE);
    }
  }

  lemma SizeListed(lists: map<Class, seq<int>>, n: nat)
    requires (forall c :: c in lists <==> ValidClass(c)) && n < POOL_LIMIT
    ensures ClassOf(n) in lists
  {
    ClassInRange(n);
  }

  // The block q behind live block b, and that their sizes are in range.
  lemma SizesBehind(g: Heap, b: int, q: int)
    requires Tiled(g) && Live(g, b) && q == Next(g, b)
    ensures q in g.blocks && 0 <= g.blocks[q].size < POOL_LIMIT && g.blocks[b].size < POOL_LIMIT
    ensures g.blocks[q].free ==> Next(g, q) in g.blocks && q < Next(g, q) && g.blocks[b].size + g.blocks[q].size < POOL_LIMIT
  {
    assert ChainedAt(g, b) && ShapedAt(g, b) && PooledAt(g, g.blocks[b].pool);
    assert ShapedAt(g, q) && ChainedAt(g, q);
    assert g.blocks[q].size > 0 ==> ShapedAt(g, Next(g, q));
  }

  // Without assertions, the headers are well formed after the call if and only if the block
  // is too small to be split; otherwise the block is left with the size of a sentinel, in
  // front of the end of its pool.
  lemma HollowIsBroken(g: Heap, b: int)
    requires Inv(g) && Live(g, b)
    ensures Inv(Hollow(g, b)) <==> g.blocks[b].size < BLOCK_HEADER_SIZE
  {
    assert ShapedAt(g, b);
    if CanSplit(g, b, 0) {
      HollowReady(g, b);
      var g' := Hollow(g, b);
      assert g'.blocks[b].size == 0 && g'.pools == g.pools;
      assert !ShapedAt(g', b);
    }
  }

  // ---------------------------------------------------------------- the pool cut in two

  // Live block b can be trimmed to nothing, and its client's data have been given up.
  ghost predicate CanSever(g: Heap, b: int) {
    Inv(g) && Live(g, b) && CanSplit(g, b, 0) && NoUserAbove(g, b, 0)
  }

  // A block of b's pool that stands behind b now belongs to a pool that starts at r.
  function Moved(k: Block, x: int, f: int, r: int): Block {
    if k.pool == f && r <= x then k.(pool := r) else k
  }

  // b ends its pool, and what stood behind b's header is a pool of its own. If b is the
  // first block, there is no pool in front.
  ghost function Sever(g: Heap, b: int): Heap
    requires CanCut(g, b, 0) && Next(g, b) in g.blocks && g.blocks[b].pool in g.pools
  {
    var f, r, g1 := g.blocks[b].pool, Rest(b, 0), Split(g, b, 0, false);
    g1.(blocks := map x | x in g1.blocks && (x == b ==> b != f) :: Moved(g1.blocks[x], x, f, r),
        pools := (if b == f then g.pools - {f} else g.pools[f := b])[r := g.pools[f]])
  }

  // What is known of b, its pool f and its end e, the new header r and the block nx behind.
  ghost predicate SeverAt(g: Heap, b: int, f: int, e: int, r: int, nx: int) {
    && Tiled(g) && Live(g, b) && CutOk(g, b, 0) && CanSplit(g, b, 0)
    && f == g.blocks[b].pool && f in g.pools && e == g.pools[f] && r == Rest(b, 0) && nx == Next(g, b)
    && r !in g.blocks && r !in g.pools && nx in g.blocks && nx !in g.pools && g.blocks[nx].pool == f && f <= b < r < nx <= e
    && e in g.blocks && g.blocks[e].pool == f && f in g.blocks
  }

  lemma SeverPlace(g: Heap, b: int)
    requires CanSever(g, b)
    ensures var f := g.blocks[b].pool; f in g.pools && SeverAt(g, b, f, g.pools[f], Rest(b, 0), Next(g, b))
  {
    assert ShapedAt(g, b) && ChainedAt(g, b);
    var f := g.blocks[b].pool;
    assert PooledAt(g, f);
    RestIsNew(g, b, 0);
    NextIsNotFirst(g, b);
    assert ShapedAt(g, Next(g, b));
    assert Rest(b, 0) in g.pools ==> PooledAt(g, Rest(b, 0));
  }

  // What becomes of block x.
  ghost predicate BlockAs(g: Heap, h: Heap, b: int, f: int, r: int, nx: int, x: int)
    requires b in g.blocks
  {
    && (x in h.blocks <==> x == r || (x in g.blocks && (x == b ==> b != f)))
    && (x in g.blocks ==> Apart(g, x, b))
    && (x in h.blocks && x != r ==>
          var k, k' := g.blocks[x], h.blocks[x];
          && k'.size == (if x == b then 0 else k.size) && k'.free == k.free
          && k'.prevFree == (x == nx || k.prevFree) && k'.prev == (if x == nx then r else k.prev)
          && k'.pool == (if k.pool == f && r <= x then r else k.pool))
  }

  ghost predicate SeveredAs(g: Heap, h: Heap, b: int, f: int, e: int, r: int, nx: int) {
    && SeverAt(g, b, f, e, r, nx)
    && h == g.(blocks := h.blocks, pools := h.pools)
    && h.pools == (if b == f then g.pools - {f} else g.pools[f := b])[r := e]
    && (forall x {:trigger BlockAs(g, h, b, f, r, nx, x)} :: BlockAs(g, h, b, f, r, nx, x))
    && r in h.blocks && h.blocks[r] == Block(g.blocks[b].size - METADATA_SIZE, true, false, b, r)
  }

  lemma SeverIs(g: Heap, b: int, f: int, e: int, r: int, nx: int)
    requires SeverAt(g, b, f, e, r, nx)
    ensures SeveredAs(g, Sever(g, b), b, f, e, r, nx)
  {
    var h := Sever(g, b);
    forall x
      ensures BlockAs(g, h, b, f, r, nx, x)
    {
      assert x in g.blocks ==> Apart(g, x, b);
    }
    assert r in Split(g, b, 0, false).blocks && r in h.blocks;
    assert h.pools == (if b == f then g.pools - {f} else g.pools[f := b])[r := e];
  }

  lemma SeverShaped(g: Heap, h: Heap, b: int, f: int, e: int, r: int, nx: int)
    requires SeveredAs(g, h, b, f, e, r, nx)
    ensures Shaped(h)
  {
    assert ShapedAt(g, b);
    RestAligned(b, 0);
    RestSized(g.blocks[b].size, 0);
    forall x | x in h.blocks
      ensures ShapedAt(h, x)
    {
      assert BlockAs(g, h, b, f, r, nx, x);
      if x != r {
        assert ShapedAt(g, x);
      }
    }
  }

  lemma SeverOrdered(g: Heap, h: Heap, b: int, f: int, e: int, r: int, nx: int)
    requires SeveredAs(g, h, b, f, e, r, nx)
    ensures Ordered(h)
  {
    forall x, y | x in h.blocks && y in h.blocks
      ensures Apart(h, x, y)
    {
      assert BlockAs(g, h, b, f, r, nx, x) && BlockAs(g, h, b, f, r, nx, y);
      assert Apart(g, if x == r then b else x, if y == r then b else y);
    }
  }

  lemma SeverLinked(g: Heap, h: Heap, b: int, f: int, e: int, r: int, nx: int)
    requires SeveredAs(g, h, b, f, e, r, nx)
    ensures Chained(h) && Backed(h)
  {
    forall x | x in h.blocks
      ensures ChainedAt(h, x) && BackedAt(h, x)
    {
      assert BlockAs(g, h, b, f, r, nx, x);
      if x != r {
        SeverLinkedAt(g, h, b, f, e, r, nx, x);
      } else {
        assert BlockAs(g, h, b, f, r, nx, nx);
      }
    }
  }

  lemma SeverLinkedAt(g: Heap, h: Heap, b: int, f: int, e: int, r: int, nx: int, x: int)
    requires SeveredAs(g, h, b, f, e, r, nx) && x in h.blocks && x != r
    ensures ChainedAt(h, x) && BackedAt(h, x)
  {
    assert BlockAs(g, h, b, f, r, nx, x) && ChainedAt(g, x) && BackedAt(g, x);
    assert PooledAt(g, f);
    if g.blocks[x].size > 0 {
      NextIsNotFirst(g, x);
    }
    var p, q := g.blocks[x].prev, Next(g, x);
    assert BlockAs(g, h, b, f, r, nx, p) && BlockAs(g, h, b, f, r, nx, q);
    assert p in g.blocks ==> ChainedAt(g, p);
    assert x in g.pools ==> PooledAt(g, x);
  }

  lemma SeverPooled(g: Heap, h: Heap, b: int, f: int, e: int, r: int, nx: int)
    requires SeveredAs(g, h, b, f, e, r, nx)
    ensures Pooled(h)
  {
    assert PooledAt(g, f) && BlockAs(g, h, b, f, r, nx, e) && BlockAs(g, h, b, f, r, nx, b);
    forall p | p in h.pools
      ensures PooledAt(h, p)
    {
      assert p in g.pools ==> PooledAt(g, p);
      assert BlockAs(g, h, b, f, r, nx, p) && BlockAs(g, h, b, f, r, nx, h.pools[p]);
    }
  }

  lemma SeverListed(g: Heap, h: Heap, b: int, f: int, e: int, r: int, nx: int)
    requires SeveredAs(g, h, b, f, e, r, nx) && Listed(g, {})
    ensures Listed(h, {r})
  {
    forall c, i | c in h.lists && 0 <= i < |h.lists[c]|
      ensures EntryAt(h, {r}, c, i)
    {
      assert EntryAt(g, {}, c, i) && BlockAs(g, h, b, f, r, nx, g.lists[c][i]);
    }
    forall c | c in h.lists
      ensures DistinctAt(h, c)
    {
      assert DistinctAt(g, c);
    }
    forall x | x in h.blocks
      ensures ListedAt(h, {r}, x)
    {
      assert BlockAs(g, h, b, f, r, nx, x);
      assert x in g.blocks ==> ListedAt(g, {}, x);
    }
  }

  lemma SeverUser(g: Heap, h: Heap, b: int, f: int, e: int, r: int, nx: int)
    requires SeveredAs(g, h, b, f, e, r, nx) && UserOk(g) && NoUserAbove(g, b, 0)
    ensures UserOk(h)
  {
    forall a | a in h.user
      ensures UserAt(h, a)
    {
      assert UserAt(g, a) && BlockAs(g, h, b, f, r, nx, g.user[a].owner);
    }
  }

  lemma SeverFlags(g: Heap, h: Heap, b: int, f: int, e: int, r: int, nx: int)
    requires SeveredAs(g, h, b, f, e, r, nx) && FlagsOk(g, {}) && Coalesced(g, {}) && Chained(h)
    ensures FlagsOk(h, {}) && Coalesced(h, {nx})
  {
    forall x | x in h.blocks
      ensures FlagAt(h, x) && (x != nx ==> CoalescedAt(h, x))
    {
      assert BlockAs(g, h, b, f, r, nx, x) && ChainedAt(h, x);
      assert x in g.blocks ==> FlagAt(g, x) && CoalescedAt(g, x);
      var q := Next(h, x);
      assert BlockAs(g, h, b, f, r, nx, q) && BlockAs(g, h, b, f, r, nx, nx);
    }
  }

  // What works as a heap after the cut: only the first block of the second pool is still to
  // be merged and listed.
  lemma SeverPending(g: Heap, b: int)
    requires CanSever(g, b)
    ensures var f, r := g.blocks[b].pool, Rest(b, 0);
            Next(g, b) in g.blocks && f in g.pools && r in Sever(g, b).blocks
            && Pending(Sever(g, b), r, {Next(Sever(g, b), r)}) && Next(Sever(g, b), r) == Next(g, b)
  {
    SeverPlace(g, b);
    var f, r, nx := g.blocks[b].pool, Rest(b, 0), Next(g, b);
    var e, h := g.pools[f], Sever(g, b);
    SeverIs(g, b, f, e, r, nx);
    SeverShaped(g, h, b, f, e, r, nx);
    SeverOrdered(g, h, b, f, e, r, nx);
    SeverLinked(g, h, b, f, e, r, nx);
    SeverPooled(g, h, b, f, e, r, nx);
    SeverListed(g, h, b, f, e, r, nx);
    SeverUser(g, h, b, f, e, r, nx);
    SeverFlags(g, h, b, f, e, r, nx);
  }

  // ---------------------------------------------------------------- its representation

  // The stores of block_split, of block_set_prev_used and of nothing else lead to memory m'.
  lemma SeverEncodes(m: map<int, nat>, m': map<int, nat>, g: Heap, b: int)
    requires Encodes(m, g, {}) && CanSever(g, b) && Next(g, b) in g.blocks && g.blocks[b].pool in g.pools
    requires SplitWords(m, m', g, b, 0, false) && 0 <= g.ctl
    ensures Encodes(m', Sever(g, b), {})
  {
    assert ChainedAt(g, b);
    WeakenTrailed(m, g, {}, {b});
    SplitEncodes(m, m', g, b, 0, false, {});
    Repooled(m', Split(g, b, 0, false), Sever(g, b), b);
  }

  // Memory does not tell to which pool a block belongs.
  lemma Repooled(m: map<int, nat>, g: Heap, h: Heap, b: int)
    requires Encodes(m, g, {b}) && b in g.blocks && !g.blocks[b].free && h == g.(blocks := h.blocks, pools := h.pools)
    requires forall x | x in h.blocks :: x in g.blocks && h.blocks[x] == g.blocks[x].(pool := h.blocks[x].pool)
    ensures Encodes(m, h, {})
  {
    forall x | x in h.blocks
      ensures HeaderAt(m, h, x) && TrailerAt(m, h, x)
    {
      assert HeaderAt(m, g, x);
      assert x != b ==> TrailerAt(m, g, x);
    }
    forall c, i | c in h.lists && 0 <= i < |h.lists[c]|
      ensures LinkAt(m, h, c, i)
    {
      assert LinkAt(m, g, c, i);
    }
    forall a | a in h.user
      ensures StoredAt(m, h, a)
    {
      assert StoredAt(m, g, a);
    }
  }

  // Nothing is claimed that was not claimed before.
  lemma SeverSpares(m: map<int, nat>, m': map<int, nat>, g: Heap, b: int)
    requires Spared(m, g) && CanSever(g, b) && Next(g, b) in g.blocks && g.blocks[b].pool in g.pools
    requires SplitWords(m, m', g, b, 0, false)
    ensures Spared(m', Sever(g, b))
  {
    SeverPlace(g, b);
    SplitSpares(m, m', g, b, 0, false);
    var f, r, g1, h := g.blocks[b].pool, Rest(b, 0), Split(g, b, 0, false), Sever(g, b);
    forall a | a in h.foreign
      ensures ForeignAt(m', h, a)
    {
      assert ForeignAt(m', g1, a);
      forall p | p in h.pools
        ensures !InPool(h, p, a)
      {
        assert !InPool(g1, f, a) && (p in g1.pools ==> !InPool(g1, p, a));
      }
    }
  }

  lemma SeverState(m: map<int, nat>, m': map<int, nat>, x: Index, g: Heap, b: int)
    requires State(m, x, g, {}, {}) && CanSever(g, b) && Next(g, b) in g.blocks && g.blocks[b].pool in g.pools
    requires SplitWords(m, m', g, b, 0, false) && 0 <= g.ctl
    ensures State(m', x, Sever(g, b), {}, {Rest(b, 0)})
  {
    SeverPending(g, b);
    SeverEncodes(m, m', g, b);
    SeverSpares(m, m', g, b);
  }

  // The heap that works after the call.
  ghost function Severed(g: Heap, b: int): (g': Heap)
    requires CanSever(g, b)
    ensures Inv(g') && !Live(g', b)
  {
    SeverPending(g, b);
    var h, r := Sever(g, b), Rest(b, 0);
    Relist(MergeNext(h, r), r)
  }

  // What block_trim_used makes of live block b that can be split, up to the merge.
  ghost function CutOff(g: Heap, b: int, n: nat): Heap
    requires CanTrim(g, b, n)
  {
    TrimPending(g, b, n);
    if n == 0 then Sever(g, b) else Split(g, b, n, false)
  }

  // A live block, no client data of which lies past n bytes, and a size that is 0 or good.
  ghost predicate CanTrim(g: Heap, b: int, n: nat) {
    Inv(g) && Live(g, b) && CanSplit(g, b, n) && NoUserAbove(g, b, n) && (n == 0 || SizeOk(n))
  }

  lemma TrimPending(g: Heap, b: int, n: nat)
    requires CanTrim(g, b, n)
    ensures CutOk(g, b, n) && Next(g, b) in g.blocks && g.blocks[b].pool in g.pools && n % ALIGN_SIZE == 0
    ensures var h, r := if n == 0 then Sever(g, b) else Split(g, b, n, false), Rest(b, n);
            r in h.blocks && Pending(h, r, {Next(h, r)})
  {
    assert ShapedAt(g, b) && ChainedAt(g, b);
    if n == 0 {
      SeverPending(g, b);
    } else {
      SplitUsedStep(g, b, n);
    }
  }

  // What block_trim_used makes of the heap.
  ghost function Trimmed(g: Heap, b: int, n: nat): (g': Heap)
    requires CanTrim(g, b, n)
    ensures Inv(g')
    ensures g' == if n == 0 then Severed(g, b) else TrimUsed(g, b, n)
  {
    TrimPending(g, b, n);
    Relist(MergeNext(CutOff(g, b, n), Rest(b, n)), Rest(b, n))
  }

  // What block_split and block_set_prev_used store, whatever block s the word at the new
  // header spelled.
  lemma CutStores(m: map<int, nat>, g: Heap, b: int, n: nat, s: Block, s': Block)
    requires CutOk(g, b, n) && 0 <= b && 0 <= g.ctl && s.size == g.blocks[b].size - (n + METADATA_SIZE)
    requires s'.size == s.size && s'.free && !s'.prevFree
    ensures SplitWords(m, PutBlock(SplitStores(m, b, Rest(b, n), g.blocks[b].(size := n), g.blocks[Next(g, b)], s, g.ctl), Rest(b, n), s'),
                       g, b, n, false)
  {
  }

  lemma CutOffState(m: map<int, nat>, m': map<int, nat>, x: Index, g: Heap, b: int, n: nat)
    requires State(m, x, g, {}, {}) && CanTrim(g, b, n) && CutOk(g, b, n) && Next(g, b) in g.blocks
    requires SplitWords(m, m', g, b, n, false) && 0 <= g.ctl
    ensures State(m', x, CutOff(g, b, n), {}, {Rest(b, n)})
  {
    TrimPending(g, b, n);
    if n == 0 {
      SeverState(m, m', x, g, b);
    } else {
      SplitUsedStep(g, b, n);
      SplitState(m, m', x, g, b, n, false, {});
      assert {} + {Rest(b, n)} == {Rest(b, n)};
      UsedTrailed(m', x, Split(g, b, n, false), b, {Rest(b, n)});
    }
  }

  // What block_split reads and writes is mapped.
  lemma TrimMapped(m: map<int, nat>, x: Index, g: Heap, b: int, n: nat)
    requires State(m, x, g, {}, {}) && Live(g, b) && CanSplit(g, b, n) && (n == 0 || SizeOk(n))
    ensures Next(g, b) in g.blocks
    ensures var r, nx := Rest(b, n), Next(g, b);
            && 0 <= b && r % ALIGN_SIZE == 0 && b + 8 in m && m[b + 8] == Encode(g.blocks[b])
            && b + 16 in m && m[b + 16] == g.ctl && 0 <= g.ctl
            && g.blocks[b].size % 4 == 0 && n % 4 == 0
            && r + 8 in m && r + 16 in m && nx in m
            && nx + 8 in m && m[nx + 8] == Encode(g.blocks[nx]) && g.blocks[nx].size % 4 == 0
  {
    assert ShapedAt(g, b) && ChainedAt(g, b);
    SplitMapped(m, x, g, b, n, {});
  }

  lemma CutOffStep(m: map<int, nat>, m': map<int, nat>, x: Index, g: Heap, b: int, n: nat, s: Block, s': Block)
    requires State(m, x, g, {}, {}) && CanTrim(g, b, n) && Next(g, b) in g.blocks && 0 <= b && 0 <= g.ctl
    requires s.size == g.blocks[b].size - (n + METADATA_SIZE) && s' == s.(free := true, prevFree := false)
    requires m' == PutBlock(SplitStores(m, b, Rest(b, n), g.blocks[b].(size := n), g.blocks[Next(g, b)], s, g.ctl), Rest(b, n), s')
    ensures State(m', x, CutOff(g, b, n), {}, {Rest(b, n)})
  {
    TrimPending(g, b, n);
    CutStores(m, g, b, n, s, s');
    CutOffState(m, m', x, g, b, n);
  }

  // ---------------------------------------------------------------- the call

  // What the call makes of the heap without assertions: it cuts the pool in two at b if it
  // can, and what the client had stored in b is lost.
  ghost function Emptied(g: Heap, b: int): (g': Heap)
    requires Inv(g) && Live(g, b)
    ensures Inv(g') && (Live(g', b) <==> g.blocks[b].size < BLOCK_HEADER_SIZE)
  {
    if CanSplit(g, b, 0) then
      DropUserInv(g, b, 0);
      Severed(DropUser(g, b, 0), b)
    else g
  }

  // The same headers and lists, whatever the pools.
  ghost predicate SameButPools(g: Heap, h: Heap, b: int) {
    && h.lists == g.lists && b in g.blocks && g.blocks[b].size == 0
    && (forall x :: x in g.blocks <==> x in h.blocks || x == b)
    && (forall x | x in h.blocks :: g.blocks[x] == h.blocks[x].(pool := g.blocks[x].pool))
  }

  // The headers that the heap has then are those of Hollow; only to whom the blocks belong
  // is told differently.
  lemma HollowIsSevered(g: Heap, b: int)
    requires Inv(g) && Live(g, b) && CanSplit(g, b, 0)
    ensures SameButPools(Hollow(g, b), Emptied(g, b), b)
  {
    DropUserInv(g, b, 0);
    SeverPlace(DropUser(g, b, 0), b);
    SeverPending(DropUser(g, b, 0), b);
    SeverAlike(g, b);
    MergeAlike(g, b, Sever(DropUser(g, b, 0), b), Rest(b, 0), Next(g, b));
  }

  lemma MergeAlike(g: Heap, b: int, h: Heap, r: int, q: int)
    requires Inv(g) && Live(g, b) && CanSplit(g, b, 0) && r == Rest(b, 0) && q == Next(g, b) && q in g.blocks
    requires SameButPools(Split(g, b, 0, false), h, b) && r in h.blocks && Next(h, r) == q && Pending(h, r, {q})
    ensures SameButPools(Hollow(g, b), Relist(MergeNext(h, r), r), b)
  {
    HollowReady(g, b);
    var g1 := Split(g, b, 0, false);
    assert ChainedAt(h, r);
    if g.blocks[q].free {
      MergeNextPending(h, r);
      AbsorbAlike(g1, h, b, r, q);
      InsertAlike(Absorb(Remove(g1, q), r), Absorb(Remove(h, q), r), b, r);
    } else {
      InsertAlike(g1, h, b, r);
    }
  }

  lemma InsertAlike(g: Heap, h: Heap, b: int, r: int)
    requires SameButPools(g, h, b) && r in h.blocks && ClassOf(h.blocks[r].size) in h.lists
    ensures r in g.blocks && ClassOf(g.blocks[r].size) in g.lists && SameButPools(Insert(g, r), Insert(h, r), b)
  {
  }

  lemma SeverAlike(g: Heap, b: int)
    requires Inv(g) && Live(g, b) && CanSplit(g, b, 0) && Next(g, b) in g.blocks && g.blocks[b].pool in g.pools
    ensures SameButPools(Split(g, b, 0, false), Sever(DropUser(g, b, 0), b), b)
  {
  }

  lemma AbsorbAlike(g: Heap, h: Heap, b: int, r: int, q: int)
    requires SameButPools(g, h, b) && r in h.blocks && q == Next(h, r) && b < r < q && q in h.blocks && h.blocks[q].free
    requires Next(h, q) in h.blocks && q < Next(h, q) && ClassOf(h.blocks[q].size) in h.lists
    ensures r in g.blocks && Next(g, r) == q && Next(g, q) in g.blocks && g.blocks[q] == h.blocks[q].(pool := g.blocks[q].pool)
    ensures SameButPools(Absorb(Remove(g, q), r), Absorb(Remove(h, q), r), b)
  {
  }
}
