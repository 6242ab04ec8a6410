/**
 What the calls of tlsf.c return, told from sizes in bytes alone (tlsf.c:392-428, 700-749,
 943-989, 1081-1244): when a request is met, by which path, and where the block then is.
 Nothing here refers to the functions that the calls decide by.
 */
module Answers {
  import opened Bits
  import opened SizeClasses
  import opened Alignment
  import opened Heaps
  import opened HeapSteps
  import opened HeapOps
  import opened HeapFrames
  import opened HeapCalls
  import opened Requests

  // ---------------------------------------------------------------- sizes

  // n is the least multiple of 8 from 24 on that holds size bytes.
  predicate BlockSizeFor(size: nat, n: nat) {
    n % 8 == 0 && 24 <= n && size <= n && (n == 24 || n < size + 8)
  }

  // A request has a block size if it is not 0 and at most 2^40 - 8.
  predicate HasBlockSize(size: nat) {
    0 < size <= 0xff_ffff_fff8
  }

  lemma RequestSize(size: nat)
    ensures AdjustRequest(size, ALIGN_SIZE) == 0 <==> !HasBlockSize(size)
    ensures HasBlockSize(size) ==> BlockSizeFor(size, AdjustRequest(size, ALIGN_SIZE))
  {
    LimitIsMultiple(size, AlignUp(size, ALIGN_SIZE));
  }

  lemma LimitIsMultiple(size: nat, up: nat)
    requires up % 8 == 0 && size <= up < size + 8
    ensures up >= 0x100_0000_0000 <==> size > 0xff_ffff_fff8
  {
  }

  lemma OneBlockSize(size: nat, n: nat)
    requires HasBlockSize(size) && BlockSizeFor(size, n)
    ensures AdjustRequest(size, ALIGN_SIZE) == n && SizeOk(n)
  {
    RequestSize(size);
    OneMultiple(size, n, AdjustRequest(size, ALIGN_SIZE));
  }

  lemma OneMultiple(size: nat, n: nat, k: nat)
    requires BlockSizeFor(size, n) && BlockSizeFor(size, k)
    ensures n == k
  {
  }

  // The distance of the sizes that a search tells apart: 8 below 256, and 2^(k - 5) from 2^k
  // to 2^(k + 1).
  function Grain(n: nat): (u: nat)
    ensures u > 0
  {
    if n < 256 then 8 else (LogAtLeast(n, 8); Pow2(Log2(n) - 5))
  }

  // The smallest size that such a step starts with and that is not smaller than n.
  function Served(n: nat): (t: nat)
    ensures t % Grain(n) == 0 && n <= t < n + Grain(n)
  {
    AlignUp(n, Grain(n))
  }

  // It is where the class that is searched for starts.
  lemma SearchStarts(n: nat)
    requires n % 8 == 0
    ensures Low(ClassOf(RoundUp(n))) == Served(n)
  {
    if n < 256 {
      AlignUpExact(n, 8);
    } else {
      LogAtLeast(n, 8);
      RoundUpIs(n, Log2(n));
      AlignUpCuts(n, Grain(n), RoundUp(n), Served(n));
      LargeStarts(n, Log2(n), Grain(n), RoundUp(n), Served(n));
    }
  }

  lemma AlignUpCuts(n: nat, u: nat, t: nat, z: nat)
    requires u > 0 && t == n + (u - 1) && z == AlignUp(n, u)
    ensures z == t / u * u
  {
    DivBounds(t, u);
  }

  lemma LargeStarts(n: nat, l: nat, u: nat, t: nat, z: nat)
    requires 256 <= n && l == Log2(n) >= 8 && u == Pow2(l - 5) && t == n + (u - 1) && z == t / u * u
    ensures Low(ClassOf(t)) == z
  {
    if t < Pow2(l + 1) {
      StartOf(t, l, u, z);
    } else {
      CarriedTo(n, l, u, 2 * u, t, z);
    }
  }

  // Rounding up can lead to the next power of two.
  lemma CarriedTo(n: nat, l: nat, u: nat, w: nat, t: nat, z: nat)
    requires 256 <= n && l == Log2(n) >= 8 && u == Pow2(l - 5) && w == 2 * u && t == n + (u - 1) && z == t / u * u
    requires Pow2(l + 1) <= t
    ensures Low(ClassOf(t)) == z
  {
    GrainPowers(l, u);
    CarriedStart(n, u, w, t, z);
    StartOf(t, l + 1, w, z);
  }

  lemma GrainPowers(l: nat, u: nat)
    requires l >= 8 && u == Pow2(l - 5)
    ensures Pow2(l) == 32 * u && Pow2(l + 1) == 64 * u && Pow2(l + 2) == 128 * u && Pow2(l - 4) == 2 * u
  {
    Pow2Sum(l - 5, 5);
    assert Pow2(5) == 32 && Pow2(l + 1) == 2 * Pow2(l) && Pow2(l + 2) == 2 * Pow2(l + 1);
  }

  // The class of t starts where the last u bytes are cut off.
  lemma StartOf(t: nat, l: nat, u: nat, z: nat)
    requires 256 <= t && l >= 8 && u == Pow2(l - 5) && Pow2(l) <= t < Pow2(l + 1) && z == t / u * u
    ensures Low(ClassOf(t)) == z
  {
    Log2Unique(t, l);
    LargeBounds(t, l);
  }

  lemma CarriedStart(n: nat, u: nat, w: nat, t: nat, z: nat)
    requires u > 0 && w == 2 * u && n < 64 * u <= t && t == n + (u - 1) && z == t / u * u
    ensures t / w * w == z
  {
    DivUnique(t, w, 32, t - 64 * u);
    DivUnique(t, u, 64, t - 64 * u);
  }

  // ---------------------------------------------------------------- tlsf_malloc

  ghost predicate AllBelow(g: Heap, t: int) {
    forall b | b in g.blocks && g.blocks[b].free :: g.blocks[b].size < t
  }

  // A search fails if and only if every free block is smaller than that size.
  lemma SearchFails(g: Heap, n: nat)
    requires Inv(g) && SizeOk(n)
    ensures Allocate(g, n).ptr == NULL <==> AllBelow(g, Served(n))
  {
    SearchStarts(n);
    var k := ClassOf(RoundUp(n));
    ClassBounds(RoundUp(n));
    if Locate(g, n).At? {
      LocatedBlock(g, n);
      var c := Locate(g, n).list;
      ScanFirst(g.lists, k.fl, k.sl, k);
      SizeAboveLow(k, g.blocks[g.lists[c][0]].size);
    } else {
      forall b | b in g.blocks && g.blocks[b].free
        ensures g.blocks[b].size < Served(n)
      {
        NotAtOrAfter(g, n, b, k);
      }
    }
  }

  lemma NotAtOrAfter(g: Heap, n: nat, b: int, k: Class)
    requires Inv(g) && SizeOk(n) && Locate(g, n).Nothing? && b in g.blocks && g.blocks[b].free && k == ClassOf(RoundUp(n))
    ensures g.blocks[b].size < Low(k)
  {
    var c := ClassOf(g.blocks[b].size);
    ClassBounds(RoundUp(n));
    ClassBounds(g.blocks[b].size);
    assert ShapedAt(g, b) && ListedAt(g, {}, b);
    if !Before(c, k) {
      ScanFirst(g.lists, k.fl, k.sl, c);
    } else {
      ClassesOrdered(c, k);
    }
  }

  // tlsf_malloc returns NULL for requests without a block size, and for others if and only if
  // every free block is smaller than the block size, rounded up to the grain of its size.
  lemma MallocFails(g: Heap, size: nat)
    requires Inv(g) && !HasBlockSize(size)
    ensures Malloc(g, size) == Outcome(g, NULL)
  {
    RequestSize(size);
  }

  lemma MallocFailsIff(g: Heap, size: nat, n: nat)
    requires Inv(g) && HasBlockSize(size) && BlockSizeFor(size, n)
    ensures Malloc(g, size).ptr == NULL <==> AllBelow(g, Served(n))
  {
    OneBlockSize(size, n);
    SearchFails(g, n);
  }

  // ---------------------------------------------------------------- tlsf_memalign

  // The least multiple of align that leaves n bytes behind any gap.
  predicate RoomFor(align: nat, n: nat, d: nat)
    requires align > 0
  {
    d % align == 0 && n + align + 40 <= d < n + align + 40 + align
  }

  // Up to an alignment of 8, tlsf_memalign is tlsf_malloc.
  lemma MemalignSmall(g: Heap, align: nat, size: nat)
    requires Inv(g) && PowerOfTwo(align) && align <= 8
    ensures Memalign(g, align, size) == Malloc(g, size)
  {
    var adjust := AdjustRequest(size, ALIGN_SIZE);
    if Locate(g, adjust).At? {
      LocatedBlock(g, adjust);
      SmallFound(g, Locate(g, adjust).list, g.lists[Locate(g, adjust).list][0], align, adjust, size);
    }
  }

  lemma SmallFound(g: Heap, c: Class, b: int, align: nat, adjust: nat, size: nat)
    requires Inv(g) && PowerOfTwo(align) && align <= 8 && adjust == AdjustRequest(size, ALIGN_SIZE)
    requires Locate(g, adjust) == At(c) && LocatedOk(g, c, adjust) && b == g.lists[c][0]
    ensures Memalign(g, align, size) == Malloc(g, size)
  {
    FrontOf(g, c, b, Remove(g, b), align, size, adjust, adjust);
    SmallIsPrepared(Remove(g, b), b, align, adjust);
  }

  lemma SmallIsPrepared(g: Heap, b: int, align: nat, adjust: nat)
    requires CanFront(g, b, align, adjust) && PowerOfTwo(align) && align <= 8 && b % ALIGN_SIZE == 0
    ensures Pending(g, b, {b})
    ensures PrepareAligned(g, b, align, adjust) == Outcome(PrepareUsed(g, b, adjust), b + BLOCK_START_OFFSET)
  {
    var k: nat :| align == Pow2(k);
    AtMostEight(align, k);
    PayloadAligned(b, b + BLOCK_START_OFFSET);
    SmallAlignment(b + BLOCK_START_OFFSET, align, k);
    WeakenCoalesced(g, {}, {b});
  }

  lemma AtMostEight(align: nat, k: nat)
    requires align == Pow2(k) && align <= 8
    ensures k <= 3
  {
    assert Pow2(4) == 16;
    Pow2Less(k, 4);
  }

  // Beyond, it returns NULL for requests without a block size and where the room has none, and
  // otherwise if and only if every free block is smaller than the room, rounded up to the
  // grain of its size.
  lemma MemalignFails(g: Heap, align: nat, size: nat, n: nat, d: nat)
    requires Inv(g) && PowerOfTwo(align) && 8 < align && RoomFor(align, n, d)
    requires !HasBlockSize(size) || (BlockSizeFor(size, n) && 0x100_0000_0000 <= d)
    ensures Memalign(g, align, size) == Outcome(g, NULL)
  {
    RequestSize(size);
    if HasBlockSize(size) {
      OneBlockSize(size, n);
      OneRoom(align, n, d);
    }
  }

  lemma OneRoom(align: nat, n: nat, d: nat)
    requires 8 < align && RoomFor(align, n, d) && SizeOk(n)
    ensures AlignedNeed(align, n) == if d < 0x100_0000_0000 then d else 0
  {
    SameMultiple(n + align + 40, align, d, AlignUp(n + align + 40, align));
  }

  // There is one multiple of a in each stretch of a numbers.
  lemma SameMultiple(x: nat, a: nat, d: nat, e: nat)
    requires a > 0 && d % a == 0 && e % a == 0 && x <= d < x + a && x <= e < x + a
    ensures d == e
  {
    ExactQuotient(d, a);
    ExactQuotient(e, a);
    if d / a < e / a {
      NextMultiple(d / a, e / a, a);
    } else if e / a < d / a {
      NextMultiple(e / a, d / a, a);
    }
  }

  lemma NextMultiple(p: nat, q: nat, a: nat)
    requires p < q
    ensures p * a + a <= q * a
  {
    Scale(p + 1, q, a);
    assert (p + 1) * a == p * a + a;
  }

  lemma MemalignFailsIff(g: Heap, align: nat, size: nat, n: nat, d: nat)
    requires Inv(g) && PowerOfTwo(align) && 8 < align && HasBlockSize(size) && BlockSizeFor(size, n)
    requires RoomFor(align, n, d) && d < 0x100_0000_0000
    ensures Memalign(g, align, size).ptr == NULL <==> AllBelow(g, Served(d))
  {
    OneBlockSize(size, n);
    OneRoom(align, n, d);
    NeedOk(align, n);
    if Locate(g, d).At? {
      LocatedAligned(g, align, n);
    }
    SearchFails(g, d);
  }

  // An aligned address from start on that is start itself or leaves a block in front.
  predicate CanStart(p: int, start: int, align: nat)
    requires align > 0
  {
    p % align == 0 && (p == start || start + 40 <= p)
  }

  // The address that is returned is the first such address of the block that was found, except
  // in the cramped case.
  lemma MemalignWhere(g: Heap, align: nat, size: nat)
    requires Inv(g) && PowerOfTwo(align) && Memalign(g, align, size).ptr != NULL
    ensures var p, b := Memalign(g, align, size).ptr, Source(g, align, size);
            var start := b + BLOCK_START_OFFSET;
            if Cramped(align, AdjustRequest(size, ALIGN_SIZE), start, g.blocks[b].size) then p == start
            else CanStart(p, start, align) && forall q {:trigger CanStart(q, start, align)} | CanStart(q, start, align) :: p <= q
  {
    var b, adjust := Source(g, align, size), AdjustRequest(size, ALIGN_SIZE);
    var c := Locate(g, AlignedNeed(align, adjust)).list;
    LocatedAligned(g, align, adjust);
    MemalignIs(g, c, b, align, adjust, size);
    PreparedWhere(Remove(g, b), b, align, adjust);
    FirstStart(b + BLOCK_START_OFFSET, align, adjust, g.blocks[b].size);
  }

  lemma FirstStart(start: nat, align: nat, adjust: nat, size: nat)
    requires align > 0 && GapGood(start, align, adjust, size)
    ensures var p := start + Gap(start, align);
            CanStart(p, start, align) && forall q {:trigger CanStart(q, start, align)} | CanStart(q, start, align) :: p <= q
  {
    var p := start + Gap(start, align);
    GapMisaligned(start, align);
    forall q | CanStart(q, start, align)
      ensures p <= q
    {
      if q < p {
        SameMultiple(start + 40, align, p, q);
      }
    }
  }

  // A free block of 33/32 of the size that is searched for is always enough.
  lemma RoomIsEnough(g: Heap, t: nat, b: int)
    requires SizeOk(t) && b in g.blocks && g.blocks[b].free && 33 * t <= 32 * g.blocks[b].size
    ensures !AllBelow(g, Served(t))
  {
    GrainIsSmall(t);
  }

  lemma GrainIsSmall(t: nat)
    requires t % 8 == 0
    ensures 32 * Served(t) <= 33 * t
  {
    if t < 256 {
      AlignUpExact(t, 8);
    } else {
      LogAtLeast(t, 8);
      GrainPowers(Log2(t), Grain(t));
    }
  }

  // ---------------------------------------------------------------- tlsf_realloc

  // A live block stays where it is if it holds the request or does so together with a free
  // block behind and its header; otherwise what is returned is what tlsf_malloc returns.
  lemma ReallocWhere(g: Heap, b: int, size: nat, n: nat)
    requires Inv(g) && Live(g, b) && HasBlockSize(size) && BlockSizeFor(size, n)
    ensures AdjustRequest(size, ALIGN_SIZE) > 0
    ensures var cur, nx := g.blocks[b].size, b + 16 + g.blocks[b].size;
            && nx in g.blocks
            && Realloc(g, b, size).ptr
               == if n <= cur || (g.blocks[nx].free && n <= cur + g.blocks[nx].size + 16) then b + 24
                  else Malloc(g, size).ptr
  {
    OneBlockSize(size, n);
    assert ShapedAt(g, b) && ChainedAt(g, b);
    if !FitsInPlace(g, b, n) {
      MoveReady(g, b, size);
    }
  }

  // So it fails if and only if neither holds and every free block is too small.
  lemma ReallocFailsIff(g: Heap, b: int, size: nat, n: nat)
    requires Inv(g) && Live(g, b) && HasBlockSize(size) && BlockSizeFor(size, n)
    ensures AdjustRequest(size, ALIGN_SIZE) > 0
    ensures var cur, nx := g.blocks[b].size, b + 16 + g.blocks[b].size;
            && nx in g.blocks
            && (Realloc(g, b, size).ptr == NULL
                <==> cur < n && (g.blocks[nx].free ==> cur + g.blocks[nx].size + 16 < n) && AllBelow(g, Served(n)))
  {
    ReallocWhere(g, b, size, n);
    MallocFailsIff(g, size, n);
    assert ShapedAt(g, b);
  }

  // A free block of 33/32 of the block size makes realloc and malloc succeed, and one of 33/32
  // of the room makes memalign succeed.
  lemma ReallocSucceeds(g: Heap, b: int, size: nat, n: nat, x: int)
    requires Inv(g) && Live(g, b) && HasBlockSize(size) && BlockSizeFor(size, n)
    requires x in g.blocks && g.blocks[x].free && 33 * n <= 32 * g.blocks[x].size
    ensures AdjustRequest(size, ALIGN_SIZE) > 0 && Realloc(g, b, size).ptr != NULL && Malloc(g, size).ptr != NULL
  {
    OneBlockSize(size, n);
    RoomIsEnough(g, n, x);
    MallocFailsIff(g, size, n);
    ReallocFailsIff(g, b, size, n);
  }

  lemma MemalignSucceeds(g: Heap, align: nat, size: nat, n: nat, d: nat, x: int)
    requires Inv(g) && PowerOfTwo(align) && 8 < align && HasBlockSize(size) && BlockSizeFor(size, n)
    requires RoomFor(align, n, d) && d < 0x100_0000_0000
    requires x in g.blocks && g.blocks[x].free && 33 * d <= 32 * g.blocks[x].size
    ensures Memalign(g, align, size).ptr != NULL
  {
    OneBlockSize(size, n);
    OneRoom(align, n, d);
    NeedOk(align, n);
    RoomIsEnough(g, d, x);
    MemalignFailsIff(g, align, size, n, d);
  }

  // A block that moves goes elsewhere.
  lemma ReallocMoves(g: Heap, b: int, size: nat, n: nat)
    requires Inv(g) && Live(g, b) && HasBlockSize(size) && BlockSizeFor(size, n) && Malloc(g, size).ptr != NULL
    ensures Malloc(g, size).ptr != b + 24
  {
    OneBlockSize(size, n);
    AllocateKeeps(g, n, b);
  }

  // ---------------------------------------------------------------- tlsf_add_pool

  // Memory is accepted if it is aligned and has from 56 to 2^40 + 39 bytes, and then its own
  // address is returned.
  lemma AddPoolWhere(g: Heap, mem: int, bytes: nat)
    requires Inv(g) && (PoolSizeOk(mem, bytes) ==> PoolReady(g, mem, bytes))
    ensures AddPool(g, mem, bytes).ptr == if mem % 8 == 0 && 56 <= bytes < 0x100_0000_0028 then mem else NULL
  {
  }
}
