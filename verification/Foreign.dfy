/**
 Memory that the allocator was not given: no call writes a word outside the pools and the
 links of block_null. In particular the prev_phys word of a pool's first header, which
 lies just in front of the pool, is left alone.
 */
module Foreign {
  import opened SizeClasses
  import opened Heaps
  import opened HeapSteps
  import opened HeapCalls

  // Address a lies in the pool of first header f, headers included but for the trailer
  // word in front of the first.
  ghost predicate InPool(g: Heap, f: int, a: int)
    requires f in g.pools
  {
    f + 8 <= a < g.pools[f] + BLOCK_START_OFFSET
  }

  ghost predicate IsNullLink(g: Heap, a: int) {
    a == g.ctl + 24 || a == g.ctl + 32
  }

  // The addresses that the allocator may write.
  ghost predicate Claimed(g: Heap, a: int) {
    IsNullLink(g, a) || exists f :: f in g.pools && InPool(g, f, a)
  }

  ghost predicate ForeignAt(m: map<int, nat>, g: Heap, a: int)
    requires a in g.foreign
  {
    a in m && m[a] == g.foreign[a] && !Claimed(g, a)
  }

  // Memory holds the foreign words, and none of them is claimed.
  ghost predicate Spared(m: map<int, nat>, g: Heap) {
    forall a {:trigger ForeignAt(m, g, a)} | a in g.foreign :: ForeignAt(m, g, a)
  }

  // Stores to claimed addresses only.
  lemma SparedBy(m: map<int, nat>, m': map<int, nat>, g: Heap, g': Heap, ws: set<int>)
    requires Spared(m, g) && SameClaims(g, g')
    requires forall w | w in ws :: Claimed(g, w)
    requires forall a | a in m && a !in ws :: a in m' && m'[a] == m[a]
    ensures Spared(m', g')
  {
    forall a | a in g'.foreign
      ensures ForeignAt(m', g', a)
    {
      assert ForeignAt(m, g, a);
    }
  }

  // The words that belong to a block.
  lemma BlockClaims(g: Heap, b: int)
    requires Tiled(g) && b in g.blocks
    ensures Claimed(g, b + 8) && Claimed(g, b + 16)
    ensures forall a | b + 8 <= a < b + BLOCK_START_OFFSET + g.blocks[b].size :: Claimed(g, a)
    ensures g.blocks[b].size > 0 ==> Claimed(g, b + 24) && Claimed(g, b + 32) && Claimed(g, Next(g, b)) && Claimed(g, Next(g, b) + 8)
  {
    var f := g.blocks[b].pool;
    assert ShapedAt(g, b) && ChainedAt(g, b);
    assert g.blocks[b].size > 0 ==> ShapedAt(g, Next(g, b));
    forall a | b + 8 <= a < b + BLOCK_START_OFFSET + g.blocks[b].size
      ensures Claimed(g, a)
    {
      assert InPool(g, f, a);
    }
    assert g.blocks[b].size > 0 ==> InPool(g, f, Next(g, b)) && InPool(g, f, Next(g, b) + 8);
  }

  // Between a block and the end of its pool stand only blocks of that pool.
  lemma {:induction false} NoStranger(g: Heap, b: int, x: int)
    requires Tiled(g) && b in g.blocks && x in g.blocks && g.blocks[b].pool in g.pools && b <= x <= g.pools[g.blocks[b].pool]
    ensures g.blocks[x].pool == g.blocks[b].pool
    decreases x - b
  {
    assert ShapedAt(g, b) && ChainedAt(g, b) && Apart(g, b, x);
    if x == b {
    } else {
      NoStranger(g, Next(g, b), x);
    }
  }

  // The word in front of a pool, the trailer word of its first header, is claimed only as a
  // link of block_null or as the last word of a pool that ends right there.
  lemma TrailerClaimed(g: Heap, f: int)
    requires Tiled(g) && f in g.pools
    ensures Claimed(g, f) <==> IsNullLink(g, f) || exists x :: x in g.pools && g.pools[x] + METADATA_SIZE == f
  {
    assert PooledAt(g, f) && ShapedAt(g, f);
    forall x | x in g.pools
      ensures InPool(g, x, f) <==> g.pools[x] + METADATA_SIZE == f
    {
      assert PooledAt(g, x) && ShapedAt(g, g.pools[x]) && Apart(g, g.pools[x], f);
      if x <= f <= g.pools[x] {
        NoStranger(g, x, f);
      }
    }
  }

  // A new pool takes its memory out of the foreign words.
  lemma PoolClaims(m: map<int, nat>, m': map<int, nat>, g: Heap, mem: int, bytes: nat)
    requires Spared(m, g) && PoolReady(g, mem, bytes) && mem - 8 !in g.pools
    requires forall a | a in m && !(mem <= a < Rest(mem - 8, PoolPayload(bytes)) + BLOCK_START_OFFSET) :: a in m' && m'[a] == m[a]
    ensures Spared(m', PlacePool(g, mem, bytes))
  {
    var g' := PlacePool(g, mem, bytes);
    forall a | a in g'.foreign
      ensures ForeignAt(m', g', a)
    {
      assert ForeignAt(m, g, a);
      forall f | f in g'.pools
        ensures !InPool(g', f, a)
      {
        assert f in g.pools ==> !InPool(g, f, a);
      }
    }
  }

  // Giving a pool back.
  lemma PoolReleased(m: map<int, nat>, g: Heap, g': Heap, f: int)
    requires Spared(m, g) && f in g.pools && g'.pools == g.pools - {f} && g'.ctl == g.ctl && g'.foreign == g.foreign
    ensures Spared(m, g')
  {
    forall a | a in g'.foreign
      ensures ForeignAt(m, g', a)
    {
      assert ForeignAt(m, g, a);
      forall x | x in g'.pools
        ensures !InPool(g', x, a)
      {
        assert !InPool(g, x, a);
      }
    }
  }
}
