/**
 The calls of the original allocator on a heap value (tlsf_ori.c:513-697). Its headers are
 those of `Heaps` with other limits: blocks and sizes are multiples of 16, a block has 16
 bytes or more, and a remainder is cut off from 32 bytes on. prev_hdr has a word of its own;
 the model's `prev` is what it holds wherever the prev-free bit is set.

 The block that malloc_ex finds is a parameter here, any free block that is large enough;
 `OriginalPool` takes it from the search.
 */
module OriginalHeap {
  import opened Bits
  import opened SizeClasses
  import opened Heaps
  import opened HeapSteps
  import opened HeapOps
  import opened HeapFrames
  import opened HeapCalls
  import opened OriginalLists
  import Original

  const BLOCK_ALIGN := 16
  const MIN_BLOCK_SIZE := 16
  const HEADER_SIZE := 32 // of bhdr_t

  // ---------------------------------------------------------------- the invariant

  ghost predicate SizedAt(g: Heap, b: int)
    requires b in g.blocks
  {
    var k := g.blocks[b];
    && 0 < b && b % ALIGN_SIZE == 0 && k.size % BLOCK_ALIGN == 0
    && k.pool in g.pools && k.pool <= b <= g.pools[k.pool]
    && (k.size == 0 <==> b == g.pools[k.pool]) && (k.size == 0 ==> !k.free)
  }

  ghost predicate SizedAll(g: Heap) {
    forall b {:trigger SizedAt(g, b)} | b in g.blocks :: SizedAt(g, b)
  }

  ghost predicate AreaAt(g: Heap, f: int)
    requires f in g.pools
  {
    && f in g.blocks && g.blocks[f].pool == f && !g.blocks[f].prevFree
    && g.pools[f] in g.blocks && g.blocks[g.pools[f]].pool == f && f < g.pools[f]
    && g.pools[f] - f < Original.AREA_LIMIT
  }

  ghost predicate Areas(g: Heap) {
    forall f {:trigger AreaAt(g, f)} | f in g.pools :: AreaAt(g, f)
  }

  // The blocks of each area tile it up to its sentinel.
  ghost predicate TiledAreas(g: Heap) {
    SizedAll(g) && Ordered(g) && Chained(g) && Backed(g) && Areas(g)
  }

  // Besides, the prev-free bits are right and no two neighbours are free.
  ghost predicate Settled(g: Heap) {
    TiledAreas(g) && FlagsOk(g, {}) && Coalesced(g, {})
  }

  // What holds between calls: besides, each free block is in the list of its size, and client
  // data lie in used blocks.
  ghost predicate Whole(g: Heap) {
    Settled(g) && Homed(g, {}) && DataOk(g)
  }

  // A block size that a request can be rounded to.
  predicate RequestOk(n: nat) {
    n % BLOCK_ALIGN == 0 && MIN_BLOCK_SIZE <= n
  }

  // The size that malloc_ex and realloc_ex start from.
  function Adjusted(size: nat): (n: nat)
    ensures RequestOk(n) && size <= n
    ensures n > MIN_BLOCK_SIZE ==> n < size + BLOCK_ALIGN
  {
    if size < MIN_BLOCK_SIZE then MIN_BLOCK_SIZE else size + 15 - (size + 15) % BLOCK_ALIGN
  }

  // The rounding of MAPPING_SEARCH leads from one such size to another.
  lemma RoundedOk(n: nat)
    requires RequestOk(n)
    ensures RequestOk(Original.Rounded(n))
  {
    Original.RoundedBounds(n);
    if n >= Original.SMALL_BLOCK {
      LargeRoundedOk(n);
    }
  }

  lemma LargeRoundedOk(n: nat)
    requires RequestOk(n) && n >= Original.SMALL_BLOCK && n <= Original.Rounded(n)
    ensures RequestOk(Original.Rounded(n))
  {
    var l, u, q := Original.RoundedQuotient(n);
    RoundedIs(n, u);
    MultipleOk(n, l, u, q, Original.Rounded(n));
  }

  lemma RoundedIs(n: nat, u: nat)
    requires u == Original.Unit(n)
    ensures u > 0 && Original.Rounded(n) == n + (u - 1) - (n + (u - 1)) % u
  {
  }

  lemma MultipleOk(n: nat, l: nat, u: nat, q: nat, z: nat)
    requires RequestOk(n) && l >= 7 && u == Pow2(l - 7) && n <= z == q * u
    requires z == n + (u - 1) - (n + (u - 1)) % u
    ensures RequestOk(z)
  {
    if l <= 11 {
      SmallUnit(l, u);
      NothingToRound(n, u);
    } else {
      LargeUnit(l);
      Multiples16(q, u);
    }
  }

  lemma SmallUnit(l: nat, u: nat)
    requires 7 <= l <= 11 && u == Pow2(l - 7)
    ensures u == 1 || u == 2 || u == 4 || u == 8 || u == 16
  {
    assert Pow2(0) == 1 && Pow2(1) == 2 && Pow2(2) == 4 && Pow2(3) == 8 && Pow2(4) == 16;
  }

  lemma LargeUnit(l: nat)
    requires l >= 12
    ensures Pow2(l - 7) % 16 == 0
  {
    Pow2Sum(l - 11, 4);
    assert Pow2(4) == 16;
    Multiples16(Pow2(l - 11), 16);
  }

  lemma NothingToRound(n: nat, u: nat)
    requires n % 16 == 0 && (u == 1 || u == 2 || u == 4 || u == 8 || u == 16)
    ensures n + (u - 1) - (n + (u - 1)) % u == n
  {
    var k := n / 16;
    DivBounds(n, 16);
    if u == 1 {
      DivUnique(n, 1, 16 * k, 0);
    } else if u == 2 {
      DivUnique(n + 1, 2, 8 * k, 1);
    } else if u == 4 {
      DivUnique(n + 3, 4, 4 * k, 3);
    } else if u == 8 {
      DivUnique(n + 7, 8, 2 * k, 7);
    } else {
      DivUnique(n + 15, 16, k, 15);
    }
  }

  lemma {:induction false} Multiples16(q: nat, a: nat)
    requires a % 16 == 0
    ensures q * a % 16 == 0
  {
    if q == 0 {
    } else {
      Multiples16(q - 1, a);
      SumOf16((q - 1) * a, a);
      assert q * a == (q - 1) * a + a;
    }
  }

  lemma SumOf16(x: nat, y: nat)
    requires x % 16 == 0 && y % 16 == 0
    ensures (x + y) % 16 == 0
  {
  }

  // ---------------------------------------------------------------- steps keep the tiling

  lemma CutTiled(g: Heap, b: int, n: nat)
    requires TiledAreas(g) && CutOk(g, b, n) && RequestOk(n)
    ensures TiledAreas(Split(g, b, n, false))
  {
    var g' := Split(g, b, n, false);
    SplitOrdered(g, b, n, false);
    SplitChained(g, b, n, false);
    SplitBacked(g, b, n, false);
    RestIsNew(g, b, n);
    assert SizedAt(g, b) && SizedAt(g, Next(g, b));
    TailAligned(b, g.blocks[b].size, n);
    assert Next(g, b) in g.pools ==> AreaAt(g, Next(g, b));
    forall x | x in g'.blocks
      ensures SizedAt(g', x)
    {
      assert x != Rest(b, n) ==> SizedAt(g, x);
    }
    forall f | f in g'.pools
      ensures AreaAt(g', f)
    {
      assert AreaAt(g, f);
    }
  }

  lemma TailAligned(b: int, size: nat, n: nat)
    requires b % ALIGN_SIZE == 0 && size % 16 == 0 && n % 16 == 0
    ensures Rest(b, n) % ALIGN_SIZE == 0 && (size - n - METADATA_SIZE) % 16 == 0
  {
    Times8(Rest(b, n), b / 8 + 2 + 2 * (n / 16));
    Times16(size - n - METADATA_SIZE, size / 16 - n / 16 - 1);
  }

  lemma Times8(x: int, k: int)
    requires x == 8 * k
    ensures x % 8 == 0
  {
  }

  lemma Times16(x: int, k: int)
    requires x == 16 * k
    ensures x % 16 == 0
  {
  }

  lemma JoinTiled(g: Heap, p: int)
    requires TiledAreas(g) && AbsorbOk(g, p)
    ensures TiledAreas(Absorb(g, p))
  {
    var g' := Absorb(g, p);
    AbsorbOrdered(g, p);
    AbsorbChained(g, p);
    AbsorbBacked(g, p);
    assert SizedAt(g, p) && SizedAt(g, Next(g, p));
    assert Next(g, p) in g.pools ==> AreaAt(g, Next(g, p));
    forall x | x in g'.blocks
      ensures SizedAt(g', x)
    {
      assert SizedAt(g, x);
    }
    forall f | f in g'.pools
      ensures AreaAt(g', f)
    {
      assert AreaAt(g, f);
    }
  }

  lemma FlagTiled(g: Heap, g': Heap)
    requires TiledAreas(g) && SameGeometry(g, g')
    ensures TiledAreas(g')
  {
    SameGeometryOrdered(g, g');
    SameGeometryLinked(g, g');
    forall x | x in g'.blocks
      ensures SizedAt(g', x)
    {
      assert SizedAt(g, x);
    }
    forall f | f in g'.pools
      ensures AreaAt(g', f)
    {
      assert AreaAt(g, f);
    }
  }

  lemma AreaFlags(g: Heap)
    requires SizedAll(g) && Areas(g)
    ensures forall x | x in g.blocks :: (g.blocks[x].size == 0 ==> !g.blocks[x].free) && (x in g.pools ==> !g.blocks[x].prevFree)
  {
    forall x | x in g.blocks
      ensures (g.blocks[x].size == 0 ==> !g.blocks[x].free) && (x in g.pools ==> !g.blocks[x].prevFree)
    {
      assert SizedAt(g, x);
      assert x in g.pools ==> AreaAt(g, x);
    }
  }

  lemma NextIsInside(g: Heap, b: int)
    requires SizedAll(g) && Areas(g) && b in g.blocks && g.blocks[b].size > 0 && ChainedAt(g, b)
    ensures Next(g, b) !in g.pools && b < Next(g, b)
  {
    assert SizedAt(g, b);
    assert Next(g, b) in g.pools ==> AreaAt(g, Next(g, b));
  }

  lemma MarkedTiled(g: Heap, b: int, free: bool)
    requires TiledAreas(g) && b in g.blocks && g.blocks[b].size > 0 && ChainedAt(g, b)
    ensures TiledAreas(Mark(g, b, free))
  {
    NextIsInside(g, b);
    AreaFlags(g);
    FlagTiled(g, Mark(g, b, free));
  }

  // Joining a block whose neighbour has not been told of it.
  lemma JoinFlags(g: Heap, p: int, xs: set<int>)
    requires Ordered(g) && FlagsOk(g, xs) && AbsorbOk(g, p)
    ensures FlagsOk(Absorb(g, p), xs - {Next(g, p)} + {p})
  {
    var g' := Absorb(g, p);
    forall x | x in g'.blocks && x !in xs - {Next(g, p)} + {p}
      ensures FlagAt(g', x)
    {
      assert Apart(g, x, p) && Apart(g, x, Next(g, p)) && FlagAt(g, x);
    }
  }

  // Lists and client data are no part of the tiling.
  ghost predicate SameBlocks(g: Heap, g': Heap) {
    g'.blocks == g.blocks && g'.pools == g.pools && g'.ctl == g.ctl && g'.limit == g.limit
  }

  lemma SameBlocksTiled(g: Heap, g': Heap)
    requires TiledAreas(g) && SameBlocks(g, g')
    ensures TiledAreas(g')
  {
    AreaFlags(g);
    FlagTiled(g, g');
  }

  lemma SameBlocksFlags(g: Heap, g': Heap, xs: set<int>, ys: set<int>)
    requires FlagsOk(g, xs) && Coalesced(g, ys) && SameBlocks(g, g')
    ensures FlagsOk(g', xs) && Coalesced(g', ys)
  {
    forall x | x in g'.blocks
      ensures (x !in xs ==> FlagAt(g', x)) && (x !in ys ==> CoalescedAt(g', x))
    {
      assert (x !in xs ==> FlagAt(g, x)) && (x !in ys ==> CoalescedAt(g, x));
    }
  }

  lemma SameBlocksSettled(g: Heap, g': Heap)
    requires Settled(g) && SameBlocks(g, g')
    ensures Settled(g')
  {
    SameBlocksTiled(g, g');
    SameBlocksFlags(g, g', {}, {});
  }

  lemma SizeInArea(g: Heap, b: int)
    requires TiledAreas(g) && b in g.blocks
    ensures g.blocks[b].size < Original.AREA_LIMIT
  {
    assert SizedAt(g, b) && ChainedAt(g, b);
    assert AreaAt(g, g.blocks[b].pool);
    assert g.blocks[b].size > 0 ==> SizedAt(g, Next(g, b));
  }

  // The list of every block is there, and its bit is inside the bitmap.
  lemma ListThere(g: Heap, b: int)
    requires TiledAreas(g) && b in g.blocks
    ensures Original.OwnList(ListAt(g, b)) && Original.WordOf(ListAt(g, b)) < Original.REAL_FLI
  {
    SizeInArea(g, b);
    Original.BitInside(g.blocks[b].size);
  }

  // ---------------------------------------------------------------- malloc_ex

  ghost predicate CanTake(g: Heap, b: int, n: nat) {
    Whole(g) && b in g.blocks && g.blocks[b].free && RequestOk(n) && n <= g.blocks[b].size
  }

  // malloc_ex on the block found, for the rounded size n.
  ghost function MallocEx(g: Heap, b: int, n: nat): (g': Heap)
    requires CanTake(g, b, n)
    ensures Whole(g') && Live(g', b) && n <= g'.blocks[b].size <= n + BLOCK_ALIGN
    ensures g.blocks[b].size >= n + HEADER_SIZE ==> g'.blocks[b].size == n
    ensures g'.user == g.user && g'.pools == g.pools
  {
    TakenOut(g, b);
    var g0 := OutOf(g, b);
    if g.blocks[b].size - n >= HEADER_SIZE then
      CutUsed(g0, b, n);
      var g1 := SetUsed(Split(g0, b, n, false), b);
      CutListed(g, b, n);
      Into(g1, Rest(b, n))
    else
      assert SizedAt(g, b);
      TakenWhole(g, b);
      Mark(g0, b, false)
  }

  // b is used; the block behind it is not told.
  function SetUsed(g: Heap, b: int): Heap
    requires b in g.blocks
  {
    g.(blocks := g.blocks[b := g.blocks[b].(free := false)])
  }

  lemma TakenOut(g: Heap, b: int)
    requires Whole(g) && b in g.blocks && g.blocks[b].free
    ensures ListAt(g, b) in g.lists && Settled(OutOf(g, b)) && Homed(OutOf(g, b), {b}) && DataOk(OutOf(g, b))
    ensures Kept(g, OutOf(g, b), b) && DataWithin(g, b, 0)
  {
    ListThere(g, b);
    SameBlocksSettled(g, OutOf(g, b));
    OutOfHomed(g, b, {});
    var none: set<int> := {};
    assert none + {b} == {b};
    NoData(g, b);
    SameBlocksKeep(g, OutOf(g, b), b);
    KeptData(g, OutOf(g, b), b);
  }

  lemma CutUsed(g: Heap, b: int, n: nat)
    requires Settled(g) && b in g.blocks && g.blocks[b].free && RequestOk(n) && g.blocks[b].size >= n + HEADER_SIZE
    ensures CutOk(g, b, n) && b in Split(g, b, n, false).blocks && Settled(SetUsed(Split(g, b, n, false), b))
    ensures Rest(b, n) !in g.blocks && Rest(b, n) in Split(g, b, n, false).blocks
  {
    assert ChainedAt(g, b) && FlagAt(g, b);
    RestIsNew(g, b, n);
    var g1 := Split(g, b, n, false);
    var g' := SetUsed(g1, b);
    CutTiled(g, b, n);
    AreaFlags(g1);
    FlagTiled(g1, g');
    SplitFlags(g, b, n, false);
    assert CoalescedAt(g, Next(g, b));
    forall x | x in g'.blocks
      ensures FlagAt(g', x) && CoalescedAt(g', x)
    {
      assert x != b ==> FlagAt(g1, x);
      assert x in g.blocks ==> CoalescedAt(g, x);
    }
  }

  // The rest of the block taken is listed.
  lemma CutListed(g: Heap, b: int, n: nat)
    requires CanTake(g, b, n) && g.blocks[b].size >= n + HEADER_SIZE
    requires ListAt(g, b) in g.lists && CutOk(OutOf(g, b), b, n) && Settled(SetUsed(Split(OutOf(g, b), b, n, false), b))
    ensures var g1, r := SetUsed(Split(OutOf(g, b), b, n, false), b), Rest(b, n);
            r in g1.blocks && ListAt(g1, r) in g1.lists && Whole(Into(g1, r)) && Kept(g, Into(g1, r), b)
  {
    var g0, r := OutOf(g, b), Rest(b, n);
    var g1 := SetUsed(Split(g0, b, n, false), b);
    TakenOut(g, b);
    RestIsNew(g0, b, n);
    ListThere(g1, r);
    CutHomed(g0, b, n);
    CutKeeps(g0, b, n);
    KeptTwice(g, g0, g1, b);
    IntoWhole(g1, r);
    KeptData(g, g1, b);
    SameBlocksKeep(g1, Into(g1, r), b);
    KeptTwice(g, g1, Into(g1, r), b);
    KeptData(g, Into(g1, r), b);
  }

  lemma CutHomed(g: Heap, b: int, n: nat)
    requires Ordered(g) && Homed(g, {b}) && CutOk(g, b, n)
    ensures Homed(SetUsed(Split(g, b, n, false), b), {Rest(b, n)})
  {
    RestIsNew(g, b, n);
    var g' := SetUsed(Split(g, b, n, false), b);
    forall x
      ensures SameHome(g, g', {b}, {Rest(b, n)}, x)
    {
    }
    SameHomes(g, g', {b}, {Rest(b, n)});
  }

  lemma CutKeeps(g: Heap, b: int, n: nat)
    requires Ordered(g) && CutOk(g, b, n)
    ensures Kept(g, SetUsed(Split(g, b, n, false), b), b)
  {
    RestIsNew(g, b, n);
    forall x | x != b
      ensures KeptAt(g, SetUsed(Split(g, b, n, false), b), x)
    {
    }
  }

  // Listing the only block that is in no list.
  lemma IntoWhole(g: Heap, r: int)
    requires Settled(g) && Homed(g, {r}) && r in g.blocks && g.blocks[r].free && ListAt(g, r) in g.lists
    ensures Settled(Into(g, r)) && Homed(Into(g, r), {})
  {
    SameBlocksSettled(g, Into(g, r));
    IntoHomed(g, r, {r});
    assert {r} - {r} == {};
  }

  // The block is taken whole.
  lemma TakenWhole(g: Heap, b: int)
    requires Whole(g) && b in g.blocks && g.blocks[b].free && ListAt(g, b) in g.lists
    ensures Next(g, b) in g.blocks && Next(g, b) != b
    ensures Whole(Mark(OutOf(g, b), b, false)) && Kept(g, Mark(OutOf(g, b), b, false), b)
  {
    var g0 := OutOf(g, b);
    TakenOut(g, b);
    MarkedSettled(g0, b);
    var g' := Mark(g0, b, false);
    MarkKeeps(g0, b, false, b);
    KeptTwice(g, g0, g', b);
    KeptData(g, g', b);
    var none: set<int> := {};
    forall x
      ensures SameHome(g0, g', {b}, none, x)
    {
    }
    SameHomes(g0, g', {b}, none);
  }

  lemma MarkedSettled(g: Heap, b: int)
    requires Settled(g) && b in g.blocks && g.blocks[b].free
    ensures ChainedAt(g, b) && Next(g, b) in g.blocks && Settled(Mark(g, b, false)) && Next(g, b) != b
  {
    assert SizedAt(g, b) && ChainedAt(g, b);
    NextIsInside(g, b);
    MarkedTiled(g, b, false);
    WeakenFlags(g, {}, {b});
    MarkFlags(g, b, false);
    forall x | x in Mark(g, b, false).blocks
      ensures CoalescedAt(Mark(g, b, false), x)
    {
      assert CoalescedAt(g, x);
    }
  }

  lemma MallocExKeeps(g: Heap, b: int, n: nat)
    requires CanTake(g, b, n)
    ensures Kept(g, MallocEx(g, b, n), b)
  {
    TakenOut(g, b);
    if g.blocks[b].size - n >= HEADER_SIZE {
      CutUsed(OutOf(g, b), b, n);
      CutListed(g, b, n);
    } else {
      TakenWhole(g, b);
    }
  }

  // ---------------------------------------------------------------- free_ex

  // The state of free_ex between its steps: block b is free and in no list, and its
  // neighbours need not know.
  ghost predicate Freeing(g: Heap, b: int) {
    && TiledAreas(g) && FlagsOk(g, {b}) && Coalesced(g, {b})
    && b in g.blocks && g.blocks[b].free && g.blocks[b].size > 0
    && (g.blocks[b].prevFree ==> PrevKnown(g, b))
    && Homed(g, {b}) && DataOk(g)
  }

  // The block in front of b is free and knows it.
  ghost predicate PrevKnown(g: Heap, b: int)
    requires b in g.blocks
  {
    var p := g.blocks[b].prev;
    p in g.blocks && g.blocks[p].size > 0 && Next(g, p) == b && g.blocks[p].free && !g.blocks[p].prevFree && p < b
  }

  // The block behind b and, if that is free, the used one behind it.
  ghost predicate NextKnown(g: Heap, b: int)
    requires b in g.blocks
  {
    var q := Next(g, b);
    q in g.blocks && (g.blocks[q].free ==> g.blocks[q].size > 0 && Next(g, q) in g.blocks && !g.blocks[Next(g, q)].free)
  }

  // b is free, and its client's data are forgotten; no other block is told.
  function SetFree(g: Heap, b: int): Heap
    requires b in g.blocks
  {
    Forget(g, b, 0).(blocks := g.blocks[b := g.blocks[b].(free := true)])
  }

  lemma StartFreeing(g: Heap, b: int)
    requires Whole(g) && Live(g, b)
    ensures Freeing(SetFree(g, b), b) && NextKnown(SetFree(g, b), b) && Kept(g, SetFree(g, b), b)
  {
    FreedTiled(g, b);
    FreedKnown(g, b);
    if g.blocks[b].prevFree {
      PrevIsKnown(g, b);
    }
    FreedHomed(g, b);
    FreedData(g, b);
  }

  lemma FreedTiled(g: Heap, b: int)
    requires Settled(g) && Live(g, b)
    ensures TiledAreas(SetFree(g, b)) && FlagsOk(SetFree(g, b), {b}) && Coalesced(SetFree(g, b), {b})
  {
    var g' := SetFree(g, b);
    assert SizedAt(g, b);
    AreaFlags(g);
    FlagTiled(g, g');
    forall x | x in g'.blocks && x != b
      ensures FlagAt(g', x) && CoalescedAt(g', x)
    {
      assert FlagAt(g, x) && CoalescedAt(g, x);
    }
  }

  lemma FreedKnown(g: Heap, b: int)
    requires Settled(g) && Live(g, b)
    ensures NextKnown(SetFree(g, b), b)
  {
    assert ChainedAt(g, b);
    var q := Next(g, b);
    assert SizedAt(g, b) && SizedAt(g, q) && ChainedAt(g, q) && FlagAt(g, q);
    assert g.blocks[q].free ==> CoalescedAt(g, Next(g, q));
  }

  lemma FreedHomed(g: Heap, b: int)
    requires Homed(g, {}) && b in g.blocks && !g.blocks[b].free
    ensures Homed(SetFree(g, b), {b})
  {
    var none: set<int> := {};
    forall x
      ensures SameHome(g, SetFree(g, b), none, {b}, x)
    {
    }
    SameHomes(g, SetFree(g, b), none, {b});
  }

  lemma FreedData(g: Heap, b: int)
    requires DataOk(g) && b in g.blocks
    ensures DataOk(SetFree(g, b)) && Kept(g, SetFree(g, b), b)
  {
    var g' := SetFree(g, b);
    forall x | x != b
      ensures KeptAt(g, g', x) && KeptAt(Forget(g, b, 0), g', x)
    {
    }
    ForgetOk(g, b, 0);
    KeptData(Forget(g, b, 0), g', b);
  }

  lemma PrevIsKnown(g: Heap, b: int)
    requires Settled(g) && b in g.blocks && g.blocks[b].prevFree
    ensures PrevKnown(g, b)
  {
    assert b in g.pools ==> AreaAt(g, b);
    assert BackedAt(g, b);
    var p := g.blocks[b].prev;
    assert ChainedAt(g, p) && FlagAt(g, p) && CoalescedAt(g, p);
  }

  // The first merge of free_ex: with the block behind, if it is free.
  ghost function Forward(g: Heap, b: int): (g': Heap)
    requires Freeing(g, b) && NextKnown(g, b)
    ensures Freeing(g', b) && Next(g', b) in g'.blocks && !g'.blocks[Next(g', b)].free
    ensures g'.blocks[b].prevFree == g.blocks[b].prevFree && g'.user == g.user && g'.pools == g.pools
  {
    if g.blocks[Next(g, b)].free then
      ForwardStep(g, b);
      Absorb(OutOf(g, Next(g, b)), b)
    else g
  }

  lemma ForwardStep(g: Heap, b: int)
    requires Freeing(g, b) && NextKnown(g, b) && g.blocks[Next(g, b)].free
    ensures var q := Next(g, b);
            && ListAt(g, q) in g.lists && AbsorbOk(OutOf(g, q), b)
            && Freeing(Absorb(OutOf(g, q), b), b) && Kept(g, Absorb(OutOf(g, q), b), b)
  {
    var q := Next(g, b);
    ListThere(g, q);
    ForwardBlocks(g, OutOf(g, q), b);
    OutOfHomed(g, q, {b});
    JoinHomed(OutOf(g, q), b, {b} + {q}, {b});
    JoinData(g, OutOf(g, q), b);
  }

  // The blocks after the merge, for any change of the lists.
  lemma ForwardBlocks(g: Heap, g0: Heap, b: int)
    requires Freeing(g, b) && NextKnown(g, b) && g.blocks[Next(g, b)].free && SameBlocks(g, g0)
    ensures AbsorbOk(g0, b)
    ensures var g' := Absorb(g0, b);
            && TiledAreas(g') && FlagsOk(g', {b}) && Coalesced(g', {b})
            && b in g'.blocks && g'.blocks[b].free && g'.blocks[b].size > 0
            && (g'.blocks[b].prevFree ==> PrevKnown(g', b))
  {
    SameBlocksTiled(g, g0);
    SameBlocksFlags(g, g0, {b}, {b});
    assert ChainedAt(g0, b) && ChainedAt(g0, Next(g0, b));
    JoinTiled(g0, b);
    JoinFlags(g0, b, {b});
    assert {b} - {Next(g0, b)} + {b} == {b};
    AbsorbCoalesced(g0, b, {b});
    assert {b} - {Next(g0, b)} == {b};
    if g0.blocks[b].prevFree {
      assert Apart(g0, g0.blocks[b].prev, b);
    }
  }

  // Joining two blocks neither of which is in a list.
  lemma JoinHomed(g: Heap, p: int, pend: set<int>, pend': set<int>)
    requires Homed(g, pend) && AbsorbOk(g, p) && pend' == pend - {Next(g, p)}
    requires p in pend || !g.blocks[p].free
    requires Next(g, p) in pend
    ensures Homed(Absorb(g, p), pend')
  {
    var g' := Absorb(g, p);
    forall x
      ensures SameHome(g, g', pend, pend', x)
    {
    }
    SameHomes(g, g', pend, pend');
  }

  // Joining two free blocks, whatever the lists.
  lemma JoinData(g: Heap, g0: Heap, p: int)
    requires DataOk(g) && SameBlocks(g, g0) && g0.user == g.user && AbsorbOk(g0, p)
    requires g.blocks[p].free && g.blocks[Next(g, p)].free
    ensures DataOk(Absorb(g0, p)) && forall y :: Kept(g, Absorb(g0, p), y)
  {
    forall x
      ensures KeptAt(g, Absorb(g0, p), x)
    {
    }
    NoData(g, p);
    KeptData(g, Absorb(g0, p), p);
  }

  // The second: with the block in front, if it is free. The result names the merged block.
  ghost function Backward(g: Heap, b: int): (r: (Heap, int))
    requires Freeing(g, b) && Next(g, b) in g.blocks && !g.blocks[Next(g, b)].free
    ensures Merged(r.0, r.1) && r.0.user == g.user && r.0.pools == g.pools
  {
    if g.blocks[b].prevFree then
      BackwardStep(g, b);
      var p := g.blocks[b].prev;
      (Absorb(OutOf(g, p), p), p)
    else
      ForgetCoalesced(g, b, {b});
      assert {b} - {b} == {};
      (g, b)
  }

  // Block p is the merged free block. It is in no list, and the block behind it has not been
  // told.
  ghost predicate Merged(g: Heap, p: int) {
    && TiledAreas(g) && FlagsOk(g, {p}) && Coalesced(g, {})
    && p in g.blocks && g.blocks[p].free && g.blocks[p].size > 0
    && Next(g, p) in g.blocks && !g.blocks[Next(g, p)].free
    && Homed(g, {p}) && DataOk(g)
  }

  lemma BackwardStep(g: Heap, b: int)
    requires Freeing(g, b) && Next(g, b) in g.blocks && !g.blocks[Next(g, b)].free && g.blocks[b].prevFree
    ensures var p := g.blocks[b].prev;
            && ListAt(g, p) in g.lists && AbsorbOk(OutOf(g, p), p)
            && Merged(Absorb(OutOf(g, p), p), p) && Kept(g, Absorb(OutOf(g, p), p), b)
  {
    var p := g.blocks[b].prev;
    ListThere(g, p);
    BackwardBlocks(g, OutOf(g, p), b);
    OutOfHomed(g, p, {b});
    JoinHomed(OutOf(g, p), p, {b} + {p}, {p});
    JoinData(g, OutOf(g, p), p);
  }

  lemma BackwardBlocks(g: Heap, g0: Heap, b: int)
    requires Freeing(g, b) && Next(g, b) in g.blocks && !g.blocks[Next(g, b)].free && g.blocks[b].prevFree && SameBlocks(g, g0)
    ensures var p := g.blocks[b].prev;
            && AbsorbOk(g0, p)
            && var g' := Absorb(g0, p);
            && TiledAreas(g') && FlagsOk(g', {p}) && Coalesced(g', {})
            && p in g'.blocks && g'.blocks[p].free && g'.blocks[p].size > 0
            && Next(g', p) in g'.blocks && !g'.blocks[Next(g', p)].free
  {
    SameBlocksTiled(g, g0);
    SameBlocksFlags(g, g0, {b}, {b});
    var p := g0.blocks[b].prev;
    assert ChainedAt(g0, p) && ChainedAt(g0, b);
    NextIsInside(g0, b);
    JoinTiled(g0, p);
    JoinFlags(g0, p, {b});
    assert {b} - {b} + {p} == {p};
    AbsorbCoalesced(g0, p, {b});
    assert {b} - {b} == {};
  }

  // The merged block is listed, and the last stores tell the block behind of it.
  lemma AnnounceWhole(g: Heap, p: int)
    requires Merged(g, p)
    ensures ListAt(g, p) in g.lists && Whole(Mark(Into(g, p), p, true))
    ensures forall y :: Kept(g, Mark(Into(g, p), p, true), y)
  {
    ListThere(g, p);
    var g0 := Into(g, p);
    IntoHomed(g, p, {p});
    assert {p} - {p} == {};
    AnnounceBlocks(g, g0, p);
    var g' := Mark(g0, p, true);
    var none: set<int> := {};
    forall x
      ensures SameHome(g0, g', none, none, x) && KeptAt(g, g', x)
    {
    }
    SameHomes(g0, g', none, none);
    NoData(g, p);
    KeptData(g, g', p);
  }

  lemma AnnounceBlocks(g: Heap, g0: Heap, p: int)
    requires Merged(g, p) && SameBlocks(g, g0)
    ensures Settled(Mark(g0, p, true))
  {
    SameBlocksTiled(g, g0);
    SameBlocksFlags(g, g0, {p}, {});
    assert ChainedAt(g0, p);
    NextIsInside(g0, p);
    MarkedTiled(g0, p, true);
    MarkFlags(g0, p, true);
    forall x | x in Mark(g0, p, true).blocks
      ensures CoalescedAt(Mark(g0, p, true), x)
    {
      assert CoalescedAt(g0, x);
    }
  }

  // The last stores of free_ex.
  ghost function Announce(g: Heap, p: int): (g': Heap)
    requires Merged(g, p)
    ensures Whole(g') && g'.user == g.user && g'.pools == g.pools
  {
    AnnounceWhole(g, p);
    Mark(Into(g, p), p, true)
  }

  lemma FreedIsGone(g: Heap, b: int)
    requires Freeing(g, b) && Next(g, b) in g.blocks && !g.blocks[Next(g, b)].free
    ensures var r := Backward(g, b); !Live(Announce(r.0, r.1), b)
  {
  }

  // free_ex
  ghost function FreeEx(g: Heap, b: int): (g': Heap)
    requires Whole(g) && Live(g, b)
    ensures Whole(g') && !Live(g', b) && g'.user == Forget(g, b, 0).user && g'.pools == g.pools
  {
    StartFreeing(g, b);
    var g1 := Forward(SetFree(g, b), b);
    var r := Backward(g1, b);
    FreedIsGone(g1, b);
    Announce(r.0, r.1)
  }

  lemma FreeExKeeps(g: Heap, b: int)
    requires Whole(g) && Live(g, b)
    ensures Kept(g, FreeEx(g, b), b)
  {
    StartFreeing(g, b);
    var g0 := SetFree(g, b);
    var g1 := Forward(g0, b);
    var r := Backward(g1, b);
    ForwardKeeps(g0, b);
    KeptTwice(g, g0, g1, b);
    BackwardKeeps(g1, b);
    KeptTwice(g, g1, r.0, b);
    AnnounceWhole(r.0, r.1);
    KeptTwice(g, r.0, Announce(r.0, r.1), b);
  }

  lemma ForwardKeeps(g: Heap, b: int)
    requires Freeing(g, b) && NextKnown(g, b)
    ensures Kept(g, Forward(g, b), b)
  {
    if g.blocks[Next(g, b)].free {
      ForwardStep(g, b);
    } else {
      SameBlocksKeep(g, g, b);
    }
  }

  lemma BackwardKeeps(g: Heap, b: int)
    requires Freeing(g, b) && Next(g, b) in g.blocks && !g.blocks[Next(g, b)].free
    ensures Kept(g, Backward(g, b).0, b)
  {
    if g.blocks[b].prevFree {
      BackwardStep(g, b);
    } else {
      SameBlocksKeep(g, g, b);
    }
  }

  // ---------------------------------------------------------------- realloc_ex

  // A used block b whose tail is large enough to be cut off, with no client data in it.
  ghost predicate CanCarve(g: Heap, b: int, n: nat) {
    && Whole(g) && Live(g, b) && RequestOk(n) && n + HEADER_SIZE <= g.blocks[b].size && DataWithin(g, b, n)
    && Next(g, b) in g.blocks && !g.blocks[Next(g, b)].free
  }

  // It loses the tail, which is listed.
  ghost function Carve(g: Heap, b: int, n: nat): (g': Heap)
    requires CanCarve(g, b, n)
    ensures Whole(g') && Live(g', b) && g'.blocks[b].size == n
    ensures g'.user == g.user && g'.pools == g.pools
  {
    CarveBlocks(g, b, n);
    CarveWhole(g, b, n);
    Into(Split(g, b, n, false), Rest(b, n))
  }

  lemma CarveBlocks(g: Heap, b: int, n: nat)
    requires CanCarve(g, b, n)
    ensures CutOk(g, b, n) && Settled(Split(g, b, n, false)) && Rest(b, n) !in g.blocks
  {
    assert ChainedAt(g, b);
    CutTiled(g, b, n);
    SplitFlags(g, b, n, false);
    var none: set<int> := {};
    SplitCoalesced(g, b, n, false, none);
    assert none + none + none == none;
    RestIsNew(g, b, n);
  }

  lemma CarveWhole(g: Heap, b: int, n: nat)
    requires CanCarve(g, b, n) && CutOk(g, b, n) && Settled(Split(g, b, n, false)) && Rest(b, n) !in g.blocks
    ensures var g1, r := Split(g, b, n, false), Rest(b, n);
            ListAt(g1, r) in g1.lists && Whole(Into(g1, r)) && Kept(g, Into(g1, r), b)
  {
    var g1, r := Split(g, b, n, false), Rest(b, n);
    ListThere(g1, r);
    var none: set<int> := {};
    forall x
      ensures SameHome(g, g1, none, {r}, x)
    {
    }
    SameHomes(g, g1, none, {r});
    IntoWhole(g1, r);
    SplitKeeps(g, b, n, false, b);
    SameBlocksKeep(g1, Into(g1, r), b);
    KeptTwice(g, g1, Into(g1, r), b);
    KeptData(g, Into(g1, r), b);
  }

  ghost predicate CanSwallow(g: Heap, b: int) {
    Whole(g) && Live(g, b) && Next(g, b) in g.blocks && g.blocks[Next(g, b)].free
  }

  // Live block b takes over the free block behind it; the block behind that is told.
  ghost function Swallow(g: Heap, b: int): (g': Heap)
    requires CanSwallow(g, b)
    ensures Whole(g') && Live(g', b) && g'.blocks[b].size == g.blocks[b].size + g.blocks[Next(g, b)].size + METADATA_SIZE
    ensures Next(g', b) in g'.blocks && !g'.blocks[Next(g', b)].free
    ensures g'.user == g.user && g'.pools == g.pools
  {
    SwallowWhole(g, b);
    Mark(Absorb(OutOf(g, Next(g, b)), b), b, false)
  }

  lemma SwallowBlocks(g: Heap, g0: Heap, b: int)
    requires CanSwallow(g, b) && SameBlocks(g, g0)
    ensures AbsorbOk(g0, b)
    ensures var g1 := Absorb(g0, b);
            && b in g1.blocks && Next(g1, b) in g1.blocks && Next(g1, b) != b && !g1.blocks[Next(g1, b)].free
            && Settled(Mark(g1, b, false))
  {
    SameBlocksSettled(g, g0);
    var q := Next(g0, b);
    assert ChainedAt(g0, b) && SizedAt(g0, q) && ChainedAt(g0, q) && FlagAt(g0, q) && CoalescedAt(g0, Next(g0, q));
    NextIsInside(g0, b);
    NextIsInside(g0, q);
    var g1 := Absorb(g0, b);
    JoinTiled(g0, b);
    var none: set<int> := {};
    JoinFlags(g0, b, none);
    assert none - {q} + {b} == {b};
    AbsorbCoalesced(g0, b, none);
    assert none - {q} == none;
    assert ChainedAt(g1, b);
    MarkedTiled(g1, b, false);
    MarkFlags(g1, b, false);
    forall x | x in Mark(g1, b, false).blocks
      ensures CoalescedAt(Mark(g1, b, false), x)
    {
      assert CoalescedAt(g1, x);
    }
  }

  lemma SwallowWhole(g: Heap, b: int)
    requires CanSwallow(g, b)
    ensures ListAt(g, Next(g, b)) in g.lists
    ensures var g0 := OutOf(g, Next(g, b));
            && AbsorbOk(g0, b)
            && var g1 := Absorb(g0, b);
            && b in g1.blocks && Next(g1, b) in g1.blocks && Next(g1, b) != b && !g1.blocks[Next(g1, b)].free
            && Whole(Mark(g1, b, false)) && Kept(g, Mark(g1, b, false), b)
  {
    var q := Next(g, b);
    ListThere(g, q);
    var g0 := OutOf(g, q);
    SwallowBlocks(g, g0, b);
    var g1 := Absorb(g0, b);
    var g' := Mark(g1, b, false);
    SwallowHomed(g, b);
    forall x | x != b
      ensures KeptAt(g, g', x)
    {
    }
    DataInside(g, b);
    KeptData(g, g', b);
  }

  lemma SwallowHomed(g: Heap, b: int)
    requires CanSwallow(g, b) && ListAt(g, Next(g, b)) in g.lists && AbsorbOk(OutOf(g, Next(g, b)), b)
    requires var g1 := Absorb(OutOf(g, Next(g, b)), b); b in g1.blocks && Next(g1, b) in g1.blocks && Next(g1, b) != b
    ensures Homed(Mark(Absorb(OutOf(g, Next(g, b)), b), b, false), {})
  {
    var q := Next(g, b);
    var g0 := OutOf(g, q);
    OutOfHomed(g, q, {});
    var none: set<int> := {};
    assert none + {q} == {q};
    JoinHomed(g0, b, {q}, none);
    TellHomed(Absorb(g0, b), b);
  }

  // Telling the block behind that a used block is used.
  lemma TellHomed(g: Heap, b: int)
    requires Homed(g, {}) && b in g.blocks && !g.blocks[b].free && Next(g, b) in g.blocks && Next(g, b) != b
    ensures Homed(Mark(g, b, false), {})
  {
    var none: set<int> := {};
    forall x
      ensures SameHome(g, Mark(g, b, false), none, none, x)
    {
    }
    SameHomes(g, Mark(g, b, false), none, none);
  }

  // Client data end where their block ends.
  lemma DataInside(g: Heap, b: int)
    requires DataOk(g) && Live(g, b)
    ensures DataWithin(g, b, g.blocks[b].size)
  {
    forall a | a in g.user && g.user[a].owner == b
      ensures a < b + METADATA_SIZE + g.blocks[b].size
    {
      assert DataAt(g, a);
    }
  }

  ghost predicate CanShrink(g: Heap, b: int, n: nat) {
    Whole(g) && Live(g, b) && RequestOk(n) && n <= g.blocks[b].size && Next(g, b) in g.blocks
  }

  // The path of realloc_ex for a block that is large enough. It always takes over a free
  // block behind and cuts the whole excess off again.
  ghost function Shrink(g: Heap, b: int, n: nat): (g': Heap)
    requires CanShrink(g, b, n)
    ensures Whole(g') && Live(g', b) && n <= g'.blocks[b].size <= n + BLOCK_ALIGN
    ensures g.blocks[Next(g, b)].free ==> g'.blocks[b].size == n
    ensures g'.user == Forget(g, b, n).user && g'.pools == g.pools
  {
    ForgetWhole(g, b, n);
    var g0 := Forget(g, b, n);
    SwallowedRoom(g0, b, n);
    if g0.blocks[Next(g0, b)].free then Carve(Swallow(g0, b), b, n)
    else if g0.blocks[b].size - n >= HEADER_SIZE then Carve(g0, b, n)
    else g0
  }

  lemma ForgetWhole(g: Heap, b: int, n: nat)
    requires Whole(g)
    ensures Whole(Forget(g, b, n)) && DataWithin(Forget(g, b, n), b, n)
  {
    var g0 := Forget(g, b, n);
    SameBlocksSettled(g, g0);
    var none: set<int> := {};
    forall x
      ensures SameHome(g, g0, none, none, x)
    {
    }
    SameHomes(g, g0, none, none);
    ForgetOk(g, b, n);
  }

  // After taking over a free block there is always room to cut one off again.
  lemma SwallowedRoom(g: Heap, b: int, n: nat)
    requires CanShrink(g, b, n)
    ensures g.blocks[Next(g, b)].free ==> n + HEADER_SIZE <= g.blocks[b].size + g.blocks[Next(g, b)].size + METADATA_SIZE
    ensures g.blocks[b].size - n < HEADER_SIZE ==> g.blocks[b].size <= n + BLOCK_ALIGN
  {
    assert SizedAt(g, b) && SizedAt(g, Next(g, b));
    if g.blocks[b].size < n + HEADER_SIZE {
      Under32(g.blocks[b].size, n);
    }
  }

  lemma Under32(s: nat, n: nat)
    requires s % 16 == 0 && n % 16 == 0 && n <= s < n + 32
    ensures s <= n + 16
  {
  }

  ghost predicate CanGrow(g: Heap, b: int, n: nat) {
    && CanSwallow(g, b) && RequestOk(n)
    && g.blocks[b].size < n <= g.blocks[b].size + g.blocks[Next(g, b)].size
  }

  // The path of realloc_ex that grows over a free block behind.
  ghost function Grow(g: Heap, b: int, n: nat): (g': Heap)
    requires CanGrow(g, b, n)
    ensures Whole(g') && Live(g', b) && n <= g'.blocks[b].size <= n + BLOCK_ALIGN
    ensures g'.user == g.user && g'.pools == g.pools
  {
    var g1 := Swallow(g, b);
    assert SizedAt(g1, b);
    DataInside(g, b);
    if g1.blocks[b].size - n >= HEADER_SIZE then Carve(g1, b, n)
    else
      Under32(g1.blocks[b].size, n);
      g1
  }

  ghost predicate CanRelocate(g: Heap, b: int, d: int, n: nat) {
    CanTake(g, d, n) && Live(g, b) && g.blocks[b].size <= n
  }

  // The path of realloc_ex that allocates block d, copies, and frees b.
  ghost function Move(g: Heap, b: int, d: int, n: nat): (g': Heap)
    requires CanRelocate(g, b, d, n)
    ensures Whole(g') && Live(g', d) && !Live(g', b) && n <= g'.blocks[d].size <= n + BLOCK_ALIGN
    ensures g'.user == Forget(CopyUser(g, b, d), b, 0).user && g'.pools == g.pools
  {
    var g1 := MallocEx(g, d, n);
    MallocThenCopy(g, b, d, n, g1);
    var g2 := CopyUser(g1, b, d);
    FreeKeepsOne(g2, b, d);
    FreeEx(g2, b)
  }

  lemma MallocThenCopy(g: Heap, b: int, d: int, n: nat, g1: Heap)
    requires CanRelocate(g, b, d, n) && g1 == MallocEx(g, d, n)
    ensures b != d && Live(g1, b) && Live(g1, d) && Whole(CopyUser(g1, b, d)) && Live(CopyUser(g1, b, d), b)
    ensures CopyUser(g1, b, d).user == CopyUser(g, b, d).user
  {
    MallocExKeeps(g, d, n);
    assert KeptAt(g, g1, b);
    CopyWhole(g1, b, d);
    SameUserCopied(g, g1, b, d);
  }

  lemma SameUserCopied(g: Heap, g1: Heap, b: int, d: int)
    requires g1.user == g.user
    ensures CopyUser(g1, b, d).user == CopyUser(g, b, d).user
  {
    assert Shifted(g1, b, d) == Shifted(g, b, d);
  }

  lemma FreeKeepsOne(g: Heap, b: int, d: int)
    requires Whole(g) && Live(g, b) && b != d
    ensures KeptAt(g, FreeEx(g, b), d)
  {
    FreeExKeeps(g, b);
  }

  lemma CopyWhole(g: Heap, b: int, d: int)
    requires Whole(g) && Live(g, b) && Live(g, d) && g.blocks[b].size <= g.blocks[d].size
    ensures Whole(CopyUser(g, b, d))
  {
    var g0 := CopyUser(g, b, d);
    SameBlocksSettled(g, g0);
    var none: set<int> := {};
    forall x
      ensures SameHome(g, g0, none, none, x)
    {
    }
    SameHomes(g, g0, none, none);
    assert SizedAt(g, b) && SizedAt(g, d);
    CopyOk(g, b, d);
  }

  lemma Of16Of8(b: int)
    requires b % 16 == 0
    ensures b % ALIGN_SIZE == 0
  {
  }

  // An area in which no block is live is one free block in front of its sentinel.
  lemma UnusedAreaIsFree(g: Heap, f: int)
    requires Settled(g) && f in g.pools && forall b | b in g.blocks && g.blocks[b].pool == f :: !Live(g, b)
    ensures f in g.blocks && g.blocks[f].free && Next(g, f) == g.pools[f]
  {
    assert AreaAt(g, f) && SizedAt(g, f) && ChainedAt(g, f) && FlagAt(g, f) && !Live(g, f);
    var q := Next(g, f);
    assert CoalescedAt(g, q) && !Live(g, q) && SizedAt(g, q);
  }

  // ---------------------------------------------------------------- what realloc_ex leaves alone

  // Reallocating in place leaves all other live blocks alone.
  lemma ShrinkKeeps(g: Heap, b: int, n: nat)
    requires CanShrink(g, b, n)
    ensures Kept(g, Shrink(g, b, n), b)
  {
    ForgetWhole(g, b, n);
    var g0 := Forget(g, b, n);
    SameBlocksKeep(g, g0, b);
    SwallowedRoom(g0, b, n);
    if g0.blocks[Next(g0, b)].free {
      SwallowWhole(g0, b);
      CarveKeeps(Swallow(g0, b), b, n);
      KeptTwice(g, g0, Swallow(g0, b), b);
      KeptTwice(g, Swallow(g0, b), Shrink(g, b, n), b);
    } else if g0.blocks[b].size - n >= HEADER_SIZE {
      CarveKeeps(g0, b, n);
      KeptTwice(g, g0, Shrink(g, b, n), b);
    }
  }

  lemma CarveKeeps(g: Heap, b: int, n: nat)
    requires CanCarve(g, b, n)
    ensures Kept(g, Carve(g, b, n), b)
  {
    CarveBlocks(g, b, n);
    CarveWhole(g, b, n);
  }

  lemma GrowKeeps(g: Heap, b: int, n: nat)
    requires CanGrow(g, b, n)
    ensures Kept(g, Grow(g, b, n), b)
  {
    var g1 := Swallow(g, b);
    SwallowWhole(g, b);
    DataInside(g, b);
    if g1.blocks[b].size - n >= HEADER_SIZE {
      CarveKeeps(g1, b, n);
      KeptTwice(g, g1, Grow(g, b, n), b);
    }
  }

  lemma MoveKeeps(g: Heap, b: int, d: int, n: nat, x: int)
    requires CanRelocate(g, b, d, n) && x != b && x != d
    ensures KeptAt(g, Move(g, b, d, n), x)
  {
    var g1 := MallocEx(g, d, n);
    MallocExKeeps(g, d, n);
    MallocThenCopy(g, b, d, n, g1);
    assert KeptAt(g, g1, x);
    FreeKeepsOne(CopyUser(g1, b, d), b, x);
  }
}
