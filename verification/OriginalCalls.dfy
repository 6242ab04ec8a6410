/**
 What the calls of the original allocator make of its index, and what its search then finds
 (tlsf_ori.c:513-697). The index agrees with the lists as long as only sizes are listed
 whose bit lies in their own row's word; then malloc_ex is served if and only if a free
 block is large enough. Whether a call keeps that agreement can be told from the sizes
 before it.
 */
module OriginalCalls {
  import opened Bits
  import opened SizeClasses
  import opened Heaps
  import opened HeapSteps
  import opened HeapOps
  import opened HeapFrames
  import opened HeapCalls
  import opened Original
  import opened OriginalIndex
  import opened OriginalLists
  import opened OriginalHeap

  // ---------------------------------------------------------------- lists and bits together

  // Index and lists agree.
  ghost predicate Tuned(x: Bitmaps, g: Heap) {
    Agrees(x, g.lists)
  }

  predicate CanList(x: Bitmaps, g: Heap, b: int) {
    b in g.blocks && CanIndex(x, ListAt(g, b)) && ListAt(g, b) in g.lists
  }

  function IntoBits(x: Bitmaps, g: Heap, b: int): Bitmaps
    requires CanList(x, g, b)
  {
    Inserted(x, ListAt(g, b))
  }

  function OutBits(x: Bitmaps, g: Heap, b: int): Bitmaps
    requires CanList(x, g, b)
  {
    Extracted(x, ListAt(g, b), g.lists[ListAt(g, b)], b)
  }

  lemma ListableThere(x: Bitmaps, g: Heap, pend: set<int>, b: int)
    requires Sized(x) && TiledAreas(g) && Homed(g, pend) && b in g.blocks
    ensures CanList(x, g, b) && (Listable(g, pend, b) ==> b in g.lists[ListAt(g, b)])
  {
    ListThere(g, b);
    assert HomeAt(g, pend, b);
  }

  // Listing a block keeps the agreement if and only if its list is one of the first 32.
  lemma IntoTuned(x: Bitmaps, g: Heap, b: int)
    requires Tuned(x, g) && CanList(x, g, b)
    ensures Tuned(IntoBits(x, g, b), Into(g, b)) <==> Narrow(ListAt(g, b))
  {
    var c := ListAt(g, b);
    InsertRight(x, g.lists, c, b);
    var lists' := Into(g, b).lists;
    assert lists'[c] != [];
    assert forall d | d in lists' && d != c :: lists'[d] == g.lists[d];
  }

  // Taking a block out of its list always keeps it.
  lemma OutOfTuned(x: Bitmaps, g: Heap, b: int)
    requires Tuned(x, g) && CanList(x, g, b) && b in g.lists[ListAt(g, b)]
    ensures Tuned(OutBits(x, g, b), OutOf(g, b))
  {
    var c := ListAt(g, b);
    var s := Without(g.lists[c], b);
    WithoutEmpty(g.lists[c], b);
    ExtractRight(x, g.lists, c, b, s);
    assert g.lists[c] != [];
  }

  lemma WithoutEmpty(s: seq<int>, b: int)
    requires b in s
    ensures Without(s, b) == [] <==> s == [b]
  {
  }

  // ---------------------------------------------------------------- malloc_ex

  // The block that the search for n bytes returns; NULL if there is none.
  ghost function Chosen(x: Bitmaps, g: Heap, n: nat): int
    requires Sized(x) && OwnList(ListOf(n))
  {
    match Find(x, ListOf(n))
    case Hit(c) => if c in g.lists && g.lists[c] != [] then g.lists[c][0] else NULL
    case _ => NULL
  }

  // A size at which a class starts, as the rounding of the request leaves it.
  ghost predicate StartsClass(n: nat) {
    RequestOk(n) && OwnList(ListOf(n)) && Smallest(ListOf(n)) == n
  }

  // The rounded request is one.
  lemma RoundedStarts(n: nat)
    requires RequestOk(n) && n + Unit(n) <= WORD32
    ensures StartsClass(Rounded(n)) && n <= Rounded(n) < WORD32
  {
    RoundedBounds(n);
    RoundedOk(n);
    RoundedClass(n);
    Below32(Rounded(n));
  }

  lemma Below32(n: nat)
    requires n < WORD32
    ensures OwnList(ListOf(n))
  {
    ListBounds(n);
    if n >= SMALL_BLOCK {
      LogAtLeast(n, 7);
      LargeList(n, Log2(n));
      WordLog2(n);
    }
  }

  // A request the rounding of which fits 32 bits.
  ghost predicate CanRound(size: nat) {
    Adjusted(size) + Unit(Adjusted(size)) <= WORD32
  }

  // What malloc_ex searches for.
  ghost function Wanted(size: nat): (n: nat)
    requires CanRound(size)
    ensures StartsClass(n) && size <= n
  {
    RoundedStarts(Adjusted(size));
    Rounded(Adjusted(size))
  }

  // A size that malloc_ex may search for to meet a request.
  predicate Gives(size: nat, s: nat) {
    s % 16 == 0 && 16 <= s && size <= s && ClassStart(s)
  }

  // The least such size.
  ghost predicate LeastGiven(size: nat, n: nat) {
    Gives(size, n) && forall s {:trigger Gives(size, s)} | Gives(size, s) :: n <= s
  }

  // It is what malloc_ex searches for.
  lemma WantedIsLeast(size: nat)
    requires CanRound(size)
    ensures LeastGiven(size, Wanted(size))
  {
    RoundedStarts(Adjusted(size));
    ClassStarts(Wanted(size));
    forall s | Gives(size, s)
      ensures Wanted(size) <= s
    {
      ClassStarts(s);
      AdjustedLeast(size, s);
      RoundedIsLeast(Adjusted(size), s);
    }
  }

  lemma AdjustedLeast(size: nat, s: nat)
    requires s % 16 == 0 && 16 <= s && size <= s
    ensures Adjusted(size) <= s
  {
  }

  lemma OneLeast(size: nat, n: nat)
    requires CanRound(size) && LeastGiven(size, n)
    ensures Wanted(size) == n
  {
    WantedIsLeast(size);
    assert Gives(size, Wanted(size)) && Gives(size, n);
  }

  // The requests that can be rounded are those of up to 2^32 - 2^24 bytes.
  lemma CanRoundSizes(size: nat)
    ensures CanRound(size) <==> size <= 0xff00_0000
  {
    var n := Adjusted(size);
    TopPowers();
    if n < WORD32 / 2 {
      UnitBelow(n);
    } else if n < WORD32 {
      Log2Unique(n, 31);
      UnitIs(n, 31);
    }
  }

  lemma TopPowers()
    ensures Pow2(24) == 0x100_0000 && Pow2(31) == 0x8000_0000 && Pow2(32) == WORD32
  {
    Pow2Of32();
    Pow2Times(24);
    assert Pow2(32) == 2 * Pow2(31);
  }

  lemma UnitBelow(n: nat)
    requires n < WORD32 / 2
    ensures Unit(n) <= WORD32 / 2
  {
    RoundedBounds(n);
    if n >= SMALL_BLOCK {
      LogAtLeast(n, 7);
      TopPowers();
      Pow2Less(Log2(n), 31);
      Pow2Mono(Log2(n) - 7, 31);
    }
  }

  // Whatever the bitmaps hold, a block that the search returns can be taken.
  lemma ChosenFits(x: Bitmaps, g: Heap, n: nat)
    requires Sized(x) && Whole(g) && StartsClass(n) && Chosen(x, g, n) != NULL
    ensures CanTake(g, Chosen(x, g, n), n)
  {
    FindIsLater(x, ListOf(n));
    var c := Find(x, ListOf(n)).list;
    assert PlaceAt(g, {}, c, 0);
    StartCovers(n, g.blocks[g.lists[c][0]].size);
  }

  // Where index and lists agree and the search is defined, malloc_ex finds a block if and
  // only if some free block has the rounded size, and then one of the first class that does.
  lemma ChosenIffRoom(x: Bitmaps, g: Heap, n: nat)
    requires Tuned(x, g) && Whole(g) && StartsClass(n) && Narrow(ListOf(n))
    ensures Chosen(x, g, n) == NULL <==> forall b | b in g.blocks && g.blocks[b].free :: g.blocks[b].size < n
    ensures Chosen(x, g, n) != NULL ==>
              Chosen(x, g, n) in g.blocks
              && forall b | b in g.blocks && g.blocks[b].free && n <= g.blocks[b].size :: !Before(ListAt(g, b), ListAt(g, Chosen(x, g, n)))
  {
    var k := ListOf(n);
    AgreedFind(x, g.lists, k);
    ScanListsFirst(g.lists, k.fl, k.sl, k);
    ChosenIsScanned(x, g, n);
    forall b | b in g.blocks && g.blocks[b].free && n <= g.blocks[b].size
      ensures Chosen(x, g, n) != NULL && !Before(ListAt(g, b), ListAt(g, Chosen(x, g, n)))
    {
      StartCovers(n, g.blocks[b].size);
      ScanListsFirst(g.lists, k.fl, k.sl, ListAt(g, b));
      assert HomeAt(g, {}, b);
    }
    if Chosen(x, g, n) != NULL {
      ChosenFits(x, g, n);
    }
  }

  // The head of the list that the scan finds.
  lemma ChosenIsScanned(x: Bitmaps, g: Heap, n: nat)
    requires Sized(x) && Whole(g) && OwnList(ListOf(n))
    requires Find(x, ListOf(n)).Hit? ==> var c := Find(x, ListOf(n)).list; c in g.lists && g.lists[c] != []
    ensures match Find(x, ListOf(n))
            case Hit(c) => Chosen(x, g, n) == g.lists[c][0] != NULL && g.lists[c][0] in g.blocks && ListAt(g, g.lists[c][0]) == c
            case _ => Chosen(x, g, n) == NULL
  {
    if Find(x, ListOf(n)).Hit? {
      var c := Find(x, ListOf(n)).list;
      assert PlaceAt(g, {}, c, 0);
      assert SizedAt(g, g.lists[c][0]);
    }
  }

  // The bits once a block of so many bytes is listed.
  function SizeBits(x: Bitmaps, size: nat): (x': Bitmaps)
    requires Sized(x) && size < AREA_LIMIT
    ensures Sized(x')
  {
    BitInside(size);
    Inserted(x, ListOf(size))
  }

  predicate NarrowSize(size: nat) {
    Narrow(ListOf(size))
  }

  // What remains of s bytes behind the first n, less its header.
  function Tail(s: nat, n: nat): nat
    requires s >= n + HEADER_SIZE
  {
    s - n - METADATA_SIZE
  }

  // A tail, which is listed if with its header it has 32 bytes or more, is of one of the
  // first 32 lists of its row.
  predicate NarrowTail(s: nat, n: nat) {
    s >= n + HEADER_SIZE ==> NarrowSize(Tail(s, n))
  }

  lemma IntoSized(x: Bitmaps, g: Heap, b: int, size: nat)
    requires Tuned(x, g) && CanList(x, g, b) && g.blocks[b].size == size < AREA_LIMIT
    ensures Tuned(SizeBits(x, size), Into(g, b)) <==> NarrowSize(size)
  {
    IntoTuned(x, g, b);
  }

  // The bits that malloc_ex leaves when it takes block b.
  ghost function TakeBits(x: Bitmaps, g: Heap, b: int, n: nat): (x': Bitmaps)
    requires Sized(x) && CanTake(g, b, n)
    ensures Sized(x')
  {
    ListableThere(x, g, {}, b);
    SizeInArea(g, b);
    if g.blocks[b].size - n >= HEADER_SIZE then SizeBits(OutBits(x, g, b), Tail(g.blocks[b].size, n))
    else OutBits(x, g, b)
  }

  // malloc_ex keeps the agreement if and only if the remainder is not listed or is of one of
  // the first 32 lists of its row.
  lemma TakeTuned(x: Bitmaps, g: Heap, b: int, n: nat)
    requires Tuned(x, g) && CanTake(g, b, n)
    ensures Tuned(TakeBits(x, g, b, n), MallocEx(g, b, n)) <==> NarrowTail(g.blocks[b].size, n)
  {
    ListableThere(x, g, {}, b);
    OutOfTuned(x, g, b);
    TakenOut(g, b);
    if g.blocks[b].size - n >= HEADER_SIZE {
      TakeTailTuned(x, g, b, n, Tail(g.blocks[b].size, n));
    } else {
      TakenWhole(g, b);
    }
  }

  lemma TakeTailTuned(x: Bitmaps, g: Heap, b: int, n: nat, t: nat)
    requires CanTake(g, b, n) && g.blocks[b].size >= n + HEADER_SIZE && t == Tail(g.blocks[b].size, n)
    requires CanList(x, g, b) && Tuned(OutBits(x, g, b), OutOf(g, b)) && Settled(OutOf(g, b))
    ensures t < AREA_LIMIT
    ensures Tuned(SizeBits(OutBits(x, g, b), t), MallocEx(g, b, n)) <==> NarrowSize(t)
  {
    SizeInArea(g, b);
    CutUsed(OutOf(g, b), b, n);
    CutListed(g, b, n);
    var g1 := SetUsed(Split(OutOf(g, b), b, n, false), b);
    ListThere(g1, Rest(b, n));
    IntoSized(OutBits(x, g, b), g1, Rest(b, n), t);
  }

  // ---------------------------------------------------------------- free_ex

  ghost function ForwardBits(x: Bitmaps, g: Heap, b: int): (x': Bitmaps)
    requires Sized(x) && Freeing(g, b) && NextKnown(g, b)
    ensures Sized(x')
  {
    ListableThere(x, g, {b}, Next(g, b));
    if g.blocks[Next(g, b)].free then OutBits(x, g, Next(g, b)) else x
  }

  lemma ForwardTuned(x: Bitmaps, g: Heap, b: int)
    requires Tuned(x, g) && Freeing(g, b) && NextKnown(g, b)
    ensures Tuned(ForwardBits(x, g, b), Forward(g, b))
  {
    ListableThere(x, g, {b}, Next(g, b));
    if g.blocks[Next(g, b)].free {
      OutOfTuned(x, g, Next(g, b));
      ForwardStep(g, b);
    }
  }

  ghost function BackwardBits(x: Bitmaps, g: Heap, b: int): (x': Bitmaps)
    requires Sized(x) && Freeing(g, b)
    ensures Sized(x')
  {
    if g.blocks[b].prevFree then
      ListableThere(x, g, {b}, g.blocks[b].prev);
      OutBits(x, g, g.blocks[b].prev)
    else x
  }

  lemma BackwardTuned(x: Bitmaps, g: Heap, b: int)
    requires Tuned(x, g) && Freeing(g, b) && Next(g, b) in g.blocks && !g.blocks[Next(g, b)].free
    ensures Tuned(BackwardBits(x, g, b), Backward(g, b).0)
  {
    if g.blocks[b].prevFree {
      ListableThere(x, g, {b}, g.blocks[b].prev);
      OutOfTuned(x, g, g.blocks[b].prev);
      BackwardStep(g, b);
    }
  }

  // The bits that free_ex leaves.
  ghost function FreeBits(x: Bitmaps, g: Heap, b: int): (x': Bitmaps)
    requires Sized(x) && Whole(g) && Live(g, b)
    ensures Sized(x')
  {
    StartFreeing(g, b);
    var g0 := SetFree(g, b);
    MergedBits(BackwardBits(ForwardBits(x, g0, b), Forward(g0, b), b), Backward(Forward(g0, b), b))
  }

  ghost function MergedBits(x: Bitmaps, r: (Heap, int)): (x': Bitmaps)
    requires Sized(x) && Merged(r.0, r.1)
    ensures Sized(x')
  {
    ListableThere(x, r.0, {r.1}, r.1);
    IntoBits(x, r.0, r.1)
  }

  ghost predicate CanMerge(g: Heap, b: int) {
    b in g.blocks && Next(g, b) in g.blocks && (g.blocks[b].prevFree ==> g.blocks[b].prev in g.blocks)
  }

  // The size of the free block that freeing b leaves.
  ghost function MergedSize(g: Heap, b: int): nat
    requires CanMerge(g, b)
  {
    var k := g.blocks[b];
    k.size
    + (if g.blocks[Next(g, b)].free then g.blocks[Next(g, b)].size + METADATA_SIZE else 0)
    + (if k.prevFree then g.blocks[k.prev].size + METADATA_SIZE else 0)
  }

  lemma LiveCanMerge(g: Heap, b: int)
    requires Whole(g) && Live(g, b)
    ensures CanMerge(g, b) && CanMerge(SetFree(g, b), b) && MergedSize(SetFree(g, b), b) == MergedSize(g, b)
    ensures Freeing(SetFree(g, b), b) && NextKnown(SetFree(g, b), b)
  {
    StartFreeing(g, b);
    if g.blocks[b].prevFree {
      PrevIsKnown(g, b);
    }
  }

  lemma ForwardSize(g: Heap, b: int)
    requires Freeing(g, b) && NextKnown(g, b) && CanMerge(g, b)
    ensures CanMerge(Forward(g, b), b) && MergedSize(Forward(g, b), b) == MergedSize(g, b)
  {
    if g.blocks[Next(g, b)].free {
      ForwardStep(g, b);
      assert g.blocks[b].prevFree ==> Apart(g, g.blocks[b].prev, b);
    }
  }

  lemma BackwardSize(g: Heap, b: int)
    requires Freeing(g, b) && CanMerge(g, b) && !g.blocks[Next(g, b)].free
    ensures var r := Backward(g, b); r.1 in r.0.blocks && r.0.blocks[r.1].size == MergedSize(g, b)
  {
    if g.blocks[b].prevFree {
      BackwardStep(g, b);
    }
  }

  lemma MergedSizeIs(g: Heap, b: int)
    requires Whole(g) && Live(g, b)
    ensures CanMerge(g, b)
    ensures Freeing(SetFree(g, b), b) && NextKnown(SetFree(g, b), b)
    ensures var r := Backward(Forward(SetFree(g, b), b), b);
            r.1 in r.0.blocks && r.0.blocks[r.1].size == MergedSize(g, b)
  {
    LiveCanMerge(g, b);
    ForwardSize(SetFree(g, b), b);
    BackwardSize(Forward(SetFree(g, b), b), b);
  }

  // free_ex keeps the agreement if and only if the merged block is of one of the first 32
  // lists of its row.
  lemma FreeTuned(x: Bitmaps, g: Heap, b: int, m: nat)
    requires Tuned(x, g) && Whole(g) && Live(g, b) && CanMerge(g, b) && m == MergedSize(g, b)
    ensures Tuned(FreeBits(x, g, b), FreeEx(g, b)) <==> NarrowSize(m)
  {
    MergedSizeIs(g, b);
    var g0 := SetFree(g, b);
    ForwardTuned(x, g0, b);
    BackwardTuned(ForwardBits(x, g0, b), Forward(g0, b), b);
    var (g2, p) := Backward(Forward(g0, b), b);
    var x2 := BackwardBits(ForwardBits(x, g0, b), Forward(g0, b), b);
    AnnounceWhole(g2, p);
    ListableThere(x2, g2, {p}, p);
    IntoTuned(x2, g2, p);
  }

  // ---------------------------------------------------------------- realloc_ex

  // A request that neither the block nor the block and its free neighbour can meet.
  predicate MustMove(g: Heap, b: int, n: nat)
    requires b in g.blocks && Next(g, b) in g.blocks
  {
    n > g.blocks[b].size && !(g.blocks[Next(g, b)].free && n <= g.blocks[b].size + g.blocks[Next(g, b)].size)
  }

  ghost function SwallowBits(x: Bitmaps, g: Heap, b: int): (x': Bitmaps)
    requires Sized(x) && CanSwallow(g, b)
    ensures Sized(x')
  {
    ListableThere(x, g, {}, Next(g, b));
    OutBits(x, g, Next(g, b))
  }

  lemma SwallowTuned(x: Bitmaps, g: Heap, b: int)
    requires Tuned(x, g) && CanSwallow(g, b)
    ensures Tuned(SwallowBits(x, g, b), Swallow(g, b))
  {
    ListableThere(x, g, {}, Next(g, b));
    OutOfTuned(x, g, Next(g, b));
    SwallowWhole(g, b);
  }

  // The bits once the tail of b behind n bytes is listed.
  ghost function CarveBits(x: Bitmaps, g: Heap, b: int, n: nat): (x': Bitmaps)
    requires Sized(x) && CanCarve(g, b, n)
    ensures Sized(x')
  {
    SizeInArea(g, b);
    SizeBits(x, Tail(g.blocks[b].size, n))
  }

  lemma CarveTuned(x: Bitmaps, g: Heap, b: int, n: nat)
    requires Tuned(x, g) && CanCarve(g, b, n)
    ensures Tuned(CarveBits(x, g, b, n), Carve(g, b, n)) <==> NarrowTail(g.blocks[b].size, n)
  {
    CarveTailTuned(x, g, b, n, Tail(g.blocks[b].size, n));
  }

  lemma CarveTailTuned(x: Bitmaps, g: Heap, b: int, n: nat, t: nat)
    requires Tuned(x, g) && CanCarve(g, b, n) && g.blocks[b].size >= n + HEADER_SIZE && t == Tail(g.blocks[b].size, n)
    ensures t < AREA_LIMIT
    ensures Tuned(SizeBits(x, t), Carve(g, b, n)) <==> NarrowSize(t)
  {
    SizeInArea(g, b);
    CarveBlocks(g, b, n);
    CarveWhole(g, b, n);
    ListThere(Split(g, b, n, false), Rest(b, n));
    IntoSized(x, Split(g, b, n, false), Rest(b, n), t);
  }

  // The bits that the path for a large enough block leaves.
  ghost function ShrinkBits(x: Bitmaps, g: Heap, b: int, n: nat): (x': Bitmaps)
    requires Sized(x) && CanShrink(g, b, n)
    ensures Sized(x')
  {
    ForgetWhole(g, b, n);
    var g0 := Forget(g, b, n);
    SwallowedRoom(g0, b, n);
    if g.blocks[Next(g, b)].free then CarveBits(SwallowBits(x, g0, b), Swallow(g0, b), b, n)
    else if g.blocks[b].size - n >= HEADER_SIZE then CarveBits(x, g0, b, n)
    else x
  }

  // The bytes of b and of a free block behind it, with that block's header.
  ghost function Reach(g: Heap, b: int): nat
    requires b in g.blocks && Next(g, b) in g.blocks
  {
    g.blocks[b].size + (if g.blocks[Next(g, b)].free then g.blocks[Next(g, b)].size + METADATA_SIZE else 0)
  }

  lemma ShrinkTuned(x: Bitmaps, g: Heap, b: int, n: nat, r: nat)
    requires Tuned(x, g) && CanShrink(g, b, n) && r == Reach(g, b)
    ensures Tuned(ShrinkBits(x, g, b, n), Shrink(g, b, n)) <==> NarrowTail(r, n)
  {
    ForgetWhole(g, b, n);
    var g0 := Forget(g, b, n);
    SwallowedRoom(g0, b, n);
    if g.blocks[Next(g, b)].free {
      SwallowCarveTuned(x, g0, b, n, r);
    } else if g.blocks[b].size - n >= HEADER_SIZE {
      CarveTuned(x, g0, b, n);
    }
  }

  lemma SwallowCarveTuned(x: Bitmaps, g: Heap, b: int, n: nat, r: nat)
    requires Tuned(x, g) && CanSwallow(g, b) && CanCarve(Swallow(g, b), b, n) && r == Swallow(g, b).blocks[b].size
    ensures Tuned(CarveBits(SwallowBits(x, g, b), Swallow(g, b), b, n), Carve(Swallow(g, b), b, n)) <==> NarrowTail(r, n)
  {
    SwallowTuned(x, g, b);
    CarveTuned(SwallowBits(x, g, b), Swallow(g, b), b, n);
  }

  ghost function GrowBits(x: Bitmaps, g: Heap, b: int, n: nat): (x': Bitmaps)
    requires Sized(x) && CanGrow(g, b, n)
    ensures Sized(x')
  {
    DataInside(g, b);
    var g1 := Swallow(g, b);
    if g1.blocks[b].size - n >= HEADER_SIZE then CarveBits(SwallowBits(x, g, b), g1, b, n) else SwallowBits(x, g, b)
  }

  lemma GrowTuned(x: Bitmaps, g: Heap, b: int, n: nat, r: nat)
    requires Tuned(x, g) && CanGrow(g, b, n) && r == Reach(g, b)
    ensures Tuned(GrowBits(x, g, b, n), Grow(g, b, n)) <==> NarrowTail(r, n)
  {
    DataInside(g, b);
    if Swallow(g, b).blocks[b].size - n >= HEADER_SIZE {
      SwallowCarveTuned(x, g, b, n, r);
    } else {
      SwallowTuned(x, g, b);
    }
  }

  // The bits that the moving path leaves.
  ghost function MoveBits(x: Bitmaps, g: Heap, b: int, d: int, n: nat): (x': Bitmaps)
    requires Sized(x) && CanRelocate(g, b, d, n)
    ensures Sized(x')
  {
    MallocThenCopy(g, b, d, n, MallocEx(g, d, n));
    FreeBits(TakeBits(x, g, d, n), CopyUser(MallocEx(g, d, n), b, d), b)
  }

  // The size of the free block that freeing b leaves once n bytes of block d were taken: d is
  // used then, and only what was cut off behind it is free.
  ghost function MovedSize(g: Heap, b: int, d: int, n: nat): nat
    requires CanMerge(g, b) && CanTake(g, d, n)
  {
    var k, q := g.blocks[b], Next(g, b);
    var behind := if g.blocks[q].free && q != d then g.blocks[q].size + METADATA_SIZE else 0;
    var inFront := if !k.prevFree then 0
                   else if k.prev != d then g.blocks[k.prev].size + METADATA_SIZE
                   else if g.blocks[d].size >= n + HEADER_SIZE then Tail(g.blocks[d].size, n) + METADATA_SIZE
                   else 0;
    k.size + behind + inFront
  }

  lemma MovedSizeIs(g: Heap, b: int, d: int, n: nat)
    requires CanRelocate(g, b, d, n)
    ensures CanMerge(g, b) && CanMerge(MallocEx(g, d, n), b) && MergedSize(MallocEx(g, d, n), b) == MovedSize(g, b, d, n)
  {
    LiveCanMerge(g, b);
    if g.blocks[b].prevFree {
      PrevIsKnown(g, b);
    }
    TakenBlocks(g, d, n);
    assert ChainedAt(g, b) && ChainedAt(g, d) && FlagAt(g, d) && CoalescedAt(g, Next(g, d));
    TakenMerge(g, MallocEx(g, d, n), b, d, Next(g, d), n);
  }

  // The headers after n bytes of block d were taken.
  ghost predicate Taken(g: Heap, h: Heap, d: int, nx: int, n: nat) {
    && d in g.blocks && nx in g.blocks && nx == Next(g, d)
    && if g.blocks[d].size >= n + HEADER_SIZE then
         h.blocks == g.blocks[d := g.blocks[d].(size := n, free := false)]
                             [Rest(d, n) := Block(Tail(g.blocks[d].size, n), true, false, d, g.blocks[d].pool)]
                             [nx := g.blocks[nx].(prevFree := true, prev := Rest(d, n))]
       else h.blocks == g.blocks[d := g.blocks[d].(free := false)][nx := g.blocks[nx].(prevFree := false)]
  }

  lemma TakenBlocks(g: Heap, d: int, n: nat)
    requires CanTake(g, d, n)
    ensures Next(g, d) in g.blocks && Taken(g, MallocEx(g, d, n), d, Next(g, d), n)
    ensures g.blocks[d].size >= n + HEADER_SIZE ==> Rest(d, n) !in g.blocks
  {
    TakenOut(g, d);
    if g.blocks[d].size - n >= HEADER_SIZE {
      CutUsed(OutOf(g, d), d, n);
      CutListed(g, d, n);
    } else {
      TakenWhole(g, d);
    }
  }

  lemma TakenMerge(g: Heap, h: Heap, b: int, d: int, nx: int, n: nat)
    requires CanTake(g, d, n) && Taken(g, h, d, nx, n) && b != d && b in g.blocks && CanMerge(g, b) && Next(g, b) != b
    requires g.blocks[d].size >= n + HEADER_SIZE ==> Rest(d, n) !in g.blocks
    requires g.blocks[b].prevFree ==> Next(g, g.blocks[b].prev) == b
    requires g.blocks[nx].prevFree && g.blocks[nx].prev == d && !g.blocks[nx].free
    ensures CanMerge(h, b) && MergedSize(h, b) == MovedSize(g, b, d, n)
  {
  }

  // It keeps the agreement if allocating does and freeing does.
  lemma MoveTuned(x: Bitmaps, g: Heap, b: int, d: int, n: nat, g1: Heap, m: nat)
    requires Tuned(x, g) && CanRelocate(g, b, d, n) && NarrowTail(g.blocks[d].size, n) && g1 == MallocEx(g, d, n)
    requires CanMerge(g1, b) && m == MergedSize(g1, b)
    ensures Tuned(MoveBits(x, g, b, d, n), Move(g, b, d, n)) <==> NarrowSize(m)
  {
    MallocThenCopy(g, b, d, n, g1);
    TakeTuned(x, g, d, n);
    FreeTuned(TakeBits(x, g, d, n), CopyUser(g1, b, d), b, m);
  }
}
