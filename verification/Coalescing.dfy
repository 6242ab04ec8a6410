/**
 Complete coalescing: a pool none of whose blocks is live is one free block in front of
 its sentinel, whatever calls led there (tlsf.c:943-1009).
 */
module Coalescing {
  import opened SizeClasses
  import opened Heaps
  import opened HeapSteps
  import opened HeapOps
  import opened HeapFrames
  import opened HeapCalls

  // A client holds no block of the pool.
  ghost predicate Drained(g: Heap, f: int) {
    forall b | b in g.blocks && g.blocks[b].pool == f :: !Live(g, b)
  }

  lemma FirstIsBlock(g: Heap, f: int)
    requires Tiled(g) && f in g.pools
    ensures f in g.blocks && g.blocks[f].size > 0 && ChainedAt(g, f)
  {
    assert PooledAt(g, f) && ShapedAt(g, f) && ChainedAt(g, f);
  }

  // A pool that no client uses is vacant.
  lemma DrainedIsVacant(g: Heap, f: int)
    requires Inv(g) && f in g.pools && Drained(g, f)
    ensures Vacant(g, f)
  {
    FirstIsBlock(g, f);
    assert PooledAt(g, f) && FlagAt(g, f) && !Live(g, f);
    var q := Next(g, f);
    assert CoalescedAt(g, q) && !Live(g, q) && ShapedAt(g, q);
  }

  lemma VacantIsDrained(g: Heap, f: int)
    requires Inv(g) && Vacant(g, f)
    ensures Drained(g, f)
  {
    assert PooledAt(g, f) && ShapedAt(g, g.pools[f]);
    forall b | b in g.blocks && g.blocks[b].pool == f
      ensures !Live(g, b)
    {
      if b != f && b != g.pools[f] {
        VacantAlone(g, f, b);
      }
    }
  }

  // A pool can be removed if and only if no client holds a block of it. Its one block then
  // has all of the pool's bytes but the two headers.
  lemma RemovableIffDrained(g: Heap, f: int)
    requires Inv(g) && f in g.pools
    ensures Vacant(g, f) <==> Drained(g, f)
    ensures Drained(g, f) ==> g.blocks[f].size == g.pools[f] - f - METADATA_SIZE
  {
    if Drained(g, f) {
      DrainedIsVacant(g, f);
    }
    if Vacant(g, f) {
      VacantIsDrained(g, f);
    }
  }

  // A new pool is vacant, its size is that of the memory given, rounded down to a multiple
  // of 8, less the two headers, and no other block changes.
  lemma NewPoolVacant(g: Heap, mem: int, bytes: nat)
    requires Inv(g) && PoolSizeOk(mem, bytes) && PoolReady(g, mem, bytes)
    ensures var g', f := AddPool(g, mem, bytes).heap, mem - 8;
            Vacant(g', f) && g'.pools == g.pools[f := g'.pools[f]]
            && g'.blocks[f].size == bytes - 2 * METADATA_SIZE - bytes % ALIGN_SIZE
            && forall b | b in g.blocks :: b in g'.blocks && g'.blocks[b] == g.blocks[b]
  {
    PlacePoolPending(g, mem, bytes);
    PoolFits(g, mem, bytes);
    forall b | b in g.blocks
      ensures b != mem - 8 && b != Rest(mem - 8, PoolPayload(bytes))
    {
      PlacePoolFresh(g, mem, bytes, b);
    }
  }

  // Removing a pool leaves every other pool with its blocks, in the lists as before.
  lemma RemovePoolKeepsOthers(g: Heap, f: int)
    requires Inv(g) && Vacant(g, f)
    ensures Inv(RemovePool(g, f)) && RemovePool(g, f).pools == g.pools - {f}
    ensures forall b | b in g.blocks && g.blocks[b].pool != f :: b in RemovePool(g, f).blocks && RemovePool(g, f).blocks[b] == g.blocks[b]
    ensures forall b | b in RemovePool(g, f).blocks :: g.blocks[b].pool != f
    ensures forall c | c in g.lists :: RemovePool(g, f).lists[c] == Without(g.lists[c], f)
  {
    RemovePoolInv(g, f);
    assert PooledAt(g, f);
    forall b | b in RemovePool(g, f).blocks
      ensures g.blocks[b].pool != f
    {
      VacantAlone(g, f, b);
    }
    forall c | c in g.lists
      ensures RemovePool(g, f).lists[c] == Without(g.lists[c], f)
    {
      if c != ClassOf(g.blocks[f].size) {
        forall i | 0 <= i < |g.lists[c]|
          ensures g.lists[c][i] != f
        {
          assert EntryAt(g, {}, c, i);
        }
        WithoutAbsent(g.lists[c], f);
      }
    }
  }

  lemma {:induction false} WithoutAbsent(s: seq<int>, b: int)
    requires b !in s
    ensures Without(s, b) == s
  {
    if s == [] {
    } else {
      WithoutAbsent(s[1..], b);
    }
  }

  // Giving a pool and taking it back at once.
  lemma AddThenRemove(g: Heap, mem: int, bytes: nat)
    requires Inv(g) && PoolSizeOk(mem, bytes) && PoolReady(g, mem, bytes)
    ensures var g' := AddPool(g, mem, bytes).heap;
            Vacant(g', mem - 8) && RemovePool(g', mem - 8) == g.(foreign := g'.foreign)
  {
    NewPoolVacant(g, mem, bytes);
    PlacePoolPending(g, mem, bytes);
    var f := mem - 8;
    var g1 := AddPool(g, mem, bytes).heap;
    var g2 := RemovePool(g1, f);
    forall b | b in g.blocks
      ensures b != f && b != g1.pools[f]
    {
      PlacePoolFresh(g, mem, bytes, b);
    }
    assert f in g.pools ==> PooledAt(g, f);
    assert g2.blocks == g.blocks && g2.pools == g.pools && g2.lists == g.lists;
  }
}
