/**
 The heap as a value: what the block headers, free lists and pools of tlsf.c describe
 when read together. `blocks` maps the address of each block header (sentinels included)
 to what the header says; `lists` gives each free list, head first; `pools` maps the
 first header of each pool to its sentinel; `user` holds the words that clients have
 stored in live allocations, and `foreign` the words that lie outside every pool.

 The functions below are the elementary steps of the allocator on such a value. They do
 to it what block_split, block_absorb, block_mark_as_*, insert_free_block and
 remove_free_block do to memory.
 */
module Heaps {
  import opened SizeClasses

  // The pool is not stored in memory, and `prev` only behind a free block.
  datatype Block = Block(size: nat, free: bool, prevFree: bool, prev: int, pool: int)

  datatype UserWord = UserWord(owner: int, value: nat)

  datatype Heap = Heap(
    ctl: int,    // address of the control structure, whose first member is block_null
    limit: int,  // end of addressable memory
    blocks: map<int, Block>,
    pools: map<int, int>,
    lists: map<Class, seq<int>>,
    user: map<int, UserWord>,
    foreign: map<int, nat>)

  // ---------------------------------------------------------------- geometry

  function Next(g: Heap, b: int): int
    requires b in g.blocks
  {
    b + METADATA_SIZE + g.blocks[b].size
  }

  // Each invariant below is a predicate on one address, claimed of all addresses.

  ghost predicate ShapedAt(g: Heap, b: int)
    requires b in g.blocks
  {
    var k := g.blocks[b];
    && b % ALIGN_SIZE == 0 && 0 < b
    && k.size % ALIGN_SIZE == 0
    && b + BLOCK_START_OFFSET + k.size <= g.limit
    // apart from block_null
    && (b + BLOCK_START_OFFSET + k.size <= g.ctl + BLOCK_START_OFFSET || g.ctl + BLOCK_HEADER_SIZE <= b + 8)
    // inside its pool, and empty exactly when it is the pool's sentinel
    && k.pool in g.pools && k.pool <= b <= g.pools[k.pool]
    && (k.size == 0 <==> b == g.pools[k.pool])
    && (k.size == 0 ==> !k.free)
    && (k.size != 0 ==> BLOCK_SIZE_MIN <= k.size)
  }

  ghost predicate Shaped(g: Heap) {
    && g.ctl % ALIGN_SIZE == 0 && 0 < g.ctl && g.ctl + BLOCK_HEADER_SIZE <= g.limit
    && forall b {:trigger ShapedAt(g, b)} | b in g.blocks :: ShapedAt(g, b)
  }

  // Blocks do not overlap.
  ghost predicate Apart(g: Heap, a: int, b: int)
    requires a in g.blocks && b in g.blocks
  {
    && (a < b ==> a + METADATA_SIZE + g.blocks[a].size <= b)
    && (b < a ==> b + METADATA_SIZE + g.blocks[b].size <= a)
  }

  ghost predicate Ordered(g: Heap) {
    forall a, b {:trigger Apart(g, a, b)} | a in g.blocks && b in g.blocks :: Apart(g, a, b)
  }

  // Behind every block but a sentinel stands another block of the same pool.
  ghost predicate ChainedAt(g: Heap, b: int)
    requires b in g.blocks
  {
    g.blocks[b].size > 0 ==>
      && Next(g, b) in g.blocks
      && g.blocks[Next(g, b)].prev == b
      && g.blocks[Next(g, b)].pool == g.blocks[b].pool
  }

  ghost predicate Chained(g: Heap) {
    forall b {:trigger ChainedAt(g, b)} | b in g.blocks :: ChainedAt(g, b)
  }

  // In front of every block but a pool's first stands the block its `prev` names.
  ghost predicate BackedAt(g: Heap, b: int)
    requires b in g.blocks
  {
    b !in g.pools ==>
      && g.blocks[b].prev in g.blocks
      && g.blocks[g.blocks[b].prev].size > 0
      && Next(g, g.blocks[b].prev) == b
  }

  ghost predicate Backed(g: Heap) {
    forall b {:trigger BackedAt(g, b)} | b in g.blocks :: BackedAt(g, b)
  }

  ghost predicate PooledAt(g: Heap, f: int)
    requires f in g.pools
  {
    && f in g.blocks && g.blocks[f].pool == f && !g.blocks[f].prevFree
    && g.pools[f] in g.blocks && g.blocks[g.pools[f]].pool == f
    && f < g.pools[f] && g.pools[f] - f - METADATA_SIZE < POOL_LIMIT
  }

  ghost predicate Pooled(g: Heap) {
    forall f {:trigger PooledAt(g, f)} | f in g.pools :: PooledAt(g, f)
  }

  // The blocks of each pool tile it without gap or overlap up to the sentinel.
  ghost predicate Tiled(g: Heap) {
    Shaped(g) && Ordered(g) && Chained(g) && Backed(g) && Pooled(g)
  }

  // Every block's prev-free bit says whether the block in front of it is free, except
  // that the neighbours of the blocks in xs may be out of date.
  ghost predicate FlagAt(g: Heap, b: int)
    requires b in g.blocks
  {
    g.blocks[b].size > 0 ==> Next(g, b) in g.blocks && g.blocks[Next(g, b)].prevFree == g.blocks[b].free
  }

  ghost predicate FlagsOk(g: Heap, xs: set<int>) {
    forall b {:trigger FlagAt(g, b)} | b in g.blocks && b !in xs :: FlagAt(g, b)
  }

  // No two neighbours are both free, except that blocks in xs may follow a free block.
  ghost predicate CoalescedAt(g: Heap, b: int)
    requires b in g.blocks
  {
    g.blocks[b].prevFree ==> !g.blocks[b].free
  }

  ghost predicate Coalesced(g: Heap, xs: set<int>) {
    forall b {:trigger CoalescedAt(g, b)} | b in g.blocks && b !in xs :: CoalescedAt(g, b)
  }

  // ---------------------------------------------------------------- free lists

  ghost predicate EntryAt(g: Heap, pend: set<int>, c: Class, i: int)
    requires c in g.lists && 0 <= i < |g.lists[c]|
  {
    var b := g.lists[c][i];
    b in g.blocks && g.blocks[b].free && b !in pend && ClassOf(g.blocks[b].size) == c
  }

  ghost predicate ListedAt(g: Heap, pend: set<int>, b: int)
    requires b in g.blocks
  {
    g.blocks[b].free && b !in pend ==>
      var c := ClassOf(g.blocks[b].size);
      c in g.lists && b in g.lists[c]
  }

  ghost predicate DistinctAt(g: Heap, c: Class)
    requires c in g.lists
  {
    Distinct(g.lists[c])
  }

  ghost predicate Distinct(s: seq<int>) {
    forall i, j | 0 <= i < j < |s| :: s[i] != s[j]
  }

  // The lists hold exactly the free blocks, but for those in pend, each once and in the
  // list of its size class.
  ghost predicate Listed(g: Heap, pend: set<int>) {
    && (forall c :: c in g.lists <==> ValidClass(c))
    && (forall c, i {:trigger EntryAt(g, pend, c, i)} | c in g.lists && 0 <= i < |g.lists[c]| :: EntryAt(g, pend, c, i))
    && (forall c {:trigger DistinctAt(g, c)} | c in g.lists :: DistinctAt(g, c))
    && (forall b {:trigger ListedAt(g, pend, b)} | b in g.blocks :: ListedAt(g, pend, b))
  }

  // ---------------------------------------------------------------- client data

  // Client data lies in the payload of a used block.
  ghost predicate UserAt(g: Heap, a: int)
    requires a in g.user
  {
    var o := g.user[a].owner;
    && a % ALIGN_SIZE == 0
    && o in g.blocks && !g.blocks[o].free
    && o + BLOCK_START_OFFSET <= a < o + BLOCK_START_OFFSET + g.blocks[o].size
  }

  ghost predicate UserOk(g: Heap) {
    forall a {:trigger UserAt(g, a)} | a in g.user :: UserAt(g, a)
  }

  // The same pools in the same memory.
  ghost predicate SameClaims(g: Heap, g': Heap) {
    g'.ctl == g.ctl && g'.limit == g.limit && g'.pools == g.pools && g'.foreign == g.foreign
  }

  // What holds between any two steps; the free blocks in pend are in no list.
  ghost predicate Sound(g: Heap, pend: set<int>) {
    Tiled(g) && Listed(g, pend) && UserOk(g)
  }

  // What holds between any two calls.
  ghost predicate Inv(g: Heap) {
    Sound(g, {}) && FlagsOk(g, {}) && Coalesced(g, {})
  }

  // ---------------------------------------------------------------- elementary steps

  // Behind n bytes there is room for another header and more.
  predicate CanCut(g: Heap, b: int, n: int) {
    b in g.blocks && n + METADATA_SIZE < g.blocks[b].size
  }

  // block_can_split
  predicate CanSplit(g: Heap, b: int, n: int) {
    b in g.blocks && g.blocks[b].size >= BLOCK_HEADER_SIZE + n
  }

  function Rest(b: int, n: nat): int {
    b + METADATA_SIZE + n
  }

  // b keeps n bytes; the rest becomes a free block whose prev-free bit is pf.
  function Split(g: Heap, b: int, n: nat, pf: bool): Heap
    requires CanCut(g, b, n) && Next(g, b) in g.blocks
  {
    var k, nx := g.blocks[b], Next(g, b);
    g.(blocks := g.blocks
       [b := k.(size := n)]
       [Rest(b, n) := Block(k.size - n - METADATA_SIZE, true, pf, b, k.pool)]
       [nx := g.blocks[nx].(prevFree := true, prev := Rest(b, n))])
  }

  // p takes over the block behind it; no flag changes.
  function Absorb(g: Heap, p: int): Heap
    requires p in g.blocks && Next(g, p) in g.blocks && Next(g, Next(g, p)) in g.blocks
  {
    var q := Next(g, p);
    var nx := Next(g, q);
    g.(blocks := (g.blocks - {q})
       [p := g.blocks[p].(size := g.blocks[p].size + g.blocks[q].size + METADATA_SIZE)]
       [nx := g.blocks[nx].(prev := p)])
  }

  // b becomes free or used, and the block behind it is told.
  function Mark(g: Heap, b: int, free: bool): Heap
    requires b in g.blocks && Next(g, b) in g.blocks
  {
    var nx := Next(g, b);
    g.(blocks := g.blocks[b := g.blocks[b].(free := free)][nx := g.blocks[nx].(prevFree := free)])
  }

  function SetPrevFree(g: Heap, b: int, v: bool): Heap
    requires b in g.blocks
  {
    g.(blocks := g.blocks[b := g.blocks[b].(prevFree := v)])
  }

  function Insert(g: Heap, b: int): Heap
    requires b in g.blocks && ClassOf(g.blocks[b].size) in g.lists
  {
    var c := ClassOf(g.blocks[b].size);
    g.(lists := g.lists[c := [b] + g.lists[c]])
  }

  function Remove(g: Heap, b: int): Heap
    requires b in g.blocks && ClassOf(g.blocks[b].size) in g.lists
  {
    var c := ClassOf(g.blocks[b].size);
    g.(lists := g.lists[c := Without(g.lists[c], b)])
  }

  function Without(s: seq<int>, b: int): seq<int> {
    if s == [] then [] else if s[0] == b then s[1..] else [s[0]] + Without(s[1..], b)
  }
}
