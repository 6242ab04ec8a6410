/**
 malloc_ex, free_ex and realloc_ex of the original allocator as they rewrite headers, lists
 and bitmaps in place (tlsf_ori.c:161-219, 513-697), proved against the functions of
 `OriginalHeap` and `OriginalCalls`. Nothing is required of the bitmaps but that the search
 be defined.
 */
module OriginalPool {
  import opened Bits
  import opened SizeClasses
  import opened Heaps
  import opened HeapSteps
  import opened HeapOps
  import opened HeapFrames
  import opened HeapCalls
  import O = Original
  import opened OriginalIndex
  import opened OriginalLists
  import opened OriginalHeap
  import opened OriginalCalls
  import opened OriginalResults

  // ---------------------------------------------------------------- stores to a header

  function WithSize(g: Heap, b: int, n: nat): Heap
    requires b in g.blocks
  {
    g.(blocks := g.blocks[b := g.blocks[b].(size := n)])
  }

  function WithPrev(g: Heap, b: int, p: int): Heap
    requires b in g.blocks
  {
    g.(blocks := g.blocks[b := g.blocks[b].(prev := p)])
  }

  function WithHeader(g: Heap, b: int, k: Block): Heap {
    g.(blocks := g.blocks[b := k])
  }

  // What was a header is payload now. No store of the program corresponds to this.
  function WithoutHeader(g: Heap, b: int): Heap {
    g.(blocks := g.blocks - {b})
  }

  function WithFree(g: Heap, b: int, free: bool): Heap
    requires b in g.blocks
  {
    g.(blocks := g.blocks[b := g.blocks[b].(free := free)])
  }

  // The block behind b knows that b is in front of it.
  ghost function Told(g: Heap, b: int): Heap
    requires b in g.blocks && Next(g, b) in g.blocks
  {
    WithPrev(g, Next(g, b), b)
  }

  // ---------------------------------------------------------------- what the stores amount to

  // nx stands behind b, which can be cut at n so that a tail of so many bytes is left at r.
  ghost predicate CutAt(g: Heap, b: int, n: nat, tail: nat, r: int, nx: int) {
    && CutOk(g, b, n) && r == Rest(b, n) && nx == Next(g, b) && r !in g.blocks
    && g.blocks[b].size == n + METADATA_SIZE + tail
  }

  // The tail has its header, and nx is told.
  ghost function TailStored(g: Heap, b: int, tail: nat, r: int, nx: int): Heap
    requires b in g.blocks && nx in g.blocks
  {
    WithPrev(WithHeader(g, r, Block(tail, true, false, b, g.blocks[b].pool)), nx, r)
  }

  // The two ways in which malloc_ex takes a block that is out of its list.
  lemma TakenCut(g: Heap, b: int, n: nat, tail: nat, nx: int)
    requires CanTake(g, b, n) && g.blocks[b].size == n + METADATA_SIZE + tail && nx == Next(g, b) && tail >= BLOCK_ALIGN
    requires ListAt(g, b) in g.lists
    ensures var h := OutOf(g, b);
            CutAt(h, b, n, tail, Rest(b, n), nx) && FlagAt(h, b) && h.blocks[b].free && Settled(h)
  {
    TakenOut(g, b);
    var h := OutOf(g, b);
    assert FlagAt(h, b);
    CutUsed(h, b, n);
  }

  lemma TakenCutIs(x: Bitmaps, x0: Bitmaps, g: Heap, b: int, n: nat, tail: nat)
    requires CanTake(g, b, n) && g.blocks[b].size >= n + HEADER_SIZE && tail == Tail(g.blocks[b].size, n)
    requires Sized(x0) && CanList(x0, g, b) && x == OutBits(x0, g, b) && CutOk(OutOf(g, b), b, n) && Settled(OutOf(g, b))
    ensures tail < O.AREA_LIMIT && O.ListOf(tail) in g.lists && TakeBits(x0, g, b, n) == SizeBits(x, tail)
    ensures var g1, r := SetUsed(Split(OutOf(g, b), b, n, false), b), Rest(b, n);
            r in g1.blocks && ListAt(g1, r) in g1.lists && OriginalHeap.MallocEx(g, b, n) == Into(g1, r)
  {
    SizeInArea(g, b);
    O.BitInside(tail);
    CutUsed(OutOf(g, b), b, n);
    CutListed(g, b, n);
  }

  lemma TakenEntire(x0: Bitmaps, g: Heap, b: int, n: nat, nx: int)
    requires CanTake(g, b, n) && g.blocks[b].size < n + HEADER_SIZE && nx == Next(g, b)
    requires Sized(x0) && CanList(x0, g, b)
    ensures nx in g.blocks && nx != b && TakeBits(x0, g, b, n) == OutBits(x0, g, b)
    ensures WithFree(SetPrevFree(OutOf(g, b), nx, false), b, false) == OriginalHeap.MallocEx(g, b, n)
  {
    TakenOut(g, b);
    TakenWhole(g, b);
    var h := OutOf(g, b);
    assert WithFree(SetPrevFree(h, nx, false), b, false).blocks == Mark(h, b, false).blocks;
  }

  lemma TailThere(g: Heap, b: int, n: nat, tail: nat, r: int, nx: int)
    requires CutAt(g, b, n, tail, r, nx)
    ensures var h := TailStored(g, b, tail, r, nx);
            r in h.blocks && b in h.blocks && h.blocks[r].size == tail && h.lists == g.lists
  {
  }

  // The stores of malloc_ex when it cuts a free block.
  lemma TailCut(g: Heap, b: int, n: nat, tail: nat, r: int, nx: int, h: Heap)
    requires CutAt(g, b, n, tail, r, nx) && FlagAt(g, b) && g.blocks[b].free && h == TailStored(g, b, tail, r, nx) && b in h.blocks
    ensures WithFree(WithSize(h, b, n), b, false) == SetUsed(Split(g, b, n, false), b)
  {
    assert WithFree(WithSize(h, b, n), b, false).blocks == SetUsed(Split(g, b, n, false), b).blocks;
  }

  // Listing a block does not depend on stores to another's header.
  lemma IntoCommutes(h: Heap, b: int, n: nat, r: int)
    requires b in h.blocks && r in h.blocks && b != r && ListAt(h, r) in h.lists
    ensures WithFree(WithSize(Into(h, r), b, n), b, false) == Into(WithFree(WithSize(h, b, n), b, false), r)
  {
  }

  lemma JoinedBehind(g: Heap, b: int, q: int, size: nat)
    requires Freeing(g, b) && NextKnown(g, b) && q == Next(g, b) && g.blocks[q].free && ListAt(g, q) in g.lists
    requires size == g.blocks[b].size + g.blocks[q].size + METADATA_SIZE
    ensures var h := OutOf(g, q); b in WithoutHeader(h, q).blocks
    ensures var h := WithSize(WithoutHeader(OutOf(g, q), q), b, size);
            b in h.blocks && Next(h, b) in h.blocks && Told(h, b) == Forward(g, b)
  {
    ForwardStep(g, b);
    var h := WithSize(WithoutHeader(OutOf(g, q), q), b, size);
    assert Told(h, b).blocks == Absorb(OutOf(g, q), b).blocks;
  }

  // A block that is right behind b knows of it.
  lemma ToldAlready(g: Heap, b: int)
    requires Freeing(g, b) && NextKnown(g, b)
    ensures Told(g, b) == g
  {
    assert ChainedAt(g, b);
    assert Told(g, b).blocks == g.blocks;
  }

  lemma PrevListed(x: Bitmaps, g: Heap, b: int, p: int)
    requires Sized(x) && b in g.blocks && Next(g, b) in g.blocks && Freeing(Told(g, b), b) && g.blocks[b].prevFree && p == g.blocks[b].prev
    ensures CanList(x, g, p) && g.blocks[p].size < WORD32 && p in g.lists[ListAt(g, p)]
    ensures OutBits(x, g, p) == BackwardBits(x, Told(g, b), b)
  {
    ListableThere(x, Told(g, b), {b}, p);
    SizeInArea(Told(g, b), p);
  }

  lemma JoinedInFront(g: Heap, b: int, p: int, size: nat)
    requires b in g.blocks && Next(g, b) in g.blocks && Freeing(Told(g, b), b) && !g.blocks[Next(g, b)].free
    requires g.blocks[b].prevFree && p == g.blocks[b].prev && p in g.blocks && ListAt(g, p) in g.lists
    requires size == g.blocks[p].size + g.blocks[b].size + METADATA_SIZE
    ensures var h := WithoutHeader(OutOf(g, p), b); p in h.blocks
    ensures var h := WithSize(WithoutHeader(OutOf(g, p), b), p, size);
            p in h.blocks && Next(h, p) in h.blocks && (Told(h, p), p) == Backward(Told(g, b), b)
  {
    BackwardStep(Told(g, b), b);
    var h := WithSize(WithoutHeader(OutOf(g, p), b), p, size);
    assert Told(h, p).blocks == Absorb(OutOf(Told(g, b), p), p).blocks;
  }

  // The state before the last stores, named.
  lemma FreeSteps(g: Heap, b: int, g0: Heap, g1: Heap, r: (Heap, int))
    requires Whole(g) && Live(g, b) && g0 == SetFree(g, b) && Freeing(g0, b) && NextKnown(g0, b) && g1 == Forward(g0, b)
    requires Freeing(g1, b) && Next(g1, b) in g1.blocks && !g1.blocks[Next(g1, b)].free && r == Backward(g1, b)
    ensures Merged(r.0, r.1) && ListAt(r.0, r.1) in r.0.lists
    ensures OriginalHeap.FreeEx(g, b) == Mark(Into(r.0, r.1), r.1, true)
  {
    AnnounceWhole(r.0, r.1);
  }

  lemma FreeBitsSteps(x: Bitmaps, g: Heap, b: int, g0: Heap, g1: Heap, x1: Bitmaps, r: (Heap, int), x2: Bitmaps)
    requires Sized(x) && Whole(g) && Live(g, b) && g0 == SetFree(g, b) && Freeing(g0, b) && NextKnown(g0, b) && g1 == Forward(g0, b)
    requires x1 == ForwardBits(x, g0, b) && Sized(x1) && Freeing(g1, b) && x2 == BackwardBits(x1, g1, b) && Sized(x2)
    requires Next(g1, b) in g1.blocks && !g1.blocks[Next(g1, b)].free && r == Backward(g1, b) && Merged(r.0, r.1)
    ensures FreeBits(x, g, b) == MergedBits(x2, r)
  {
  }

  // p is listed, and the block behind it is told.
  ghost function Announced(g: Heap, p: int): Heap
    requires p in g.blocks && Next(g, p) in g.blocks && ListAt(g, p) in g.lists
  {
    WithPrev(SetPrevFree(Into(g, p), Next(g, p), true), Next(g, p), p)
  }

  // The merged block can be listed, and what remains to be stored completes free_ex.
  lemma MergedListed(x: Bitmaps, g: Heap, p: int, t: Heap)
    requires Sized(x) && p in g.blocks && Next(g, p) in g.blocks && t == Told(g, p) && Merged(t, p)
    ensures CanList(x, g, p) && g.blocks[p].size < WORD32 && IntoBits(x, g, p) == MergedBits(x, (t, p))
    ensures ListAt(t, p) in g.lists && Announced(g, p) == Mark(Into(t, p), p, true)
  {
    ListableThere(x, t, {p}, p);
    SizeInArea(t, p);
    AnnounceWhole(t, p);
    assert Announced(g, p).blocks == Mark(Into(t, p), p, true).blocks;
  }

  // The stores with which realloc_ex gives b a free tail behind its first n bytes.
  ghost function Tailed(g: Heap, b: int, n: nat, tail: nat, nx: int): Heap
    requires b in g.blocks && nx in g.blocks && Rest(b, n) != b && Rest(b, n) != nx && O.ListOf(tail) in g.lists
  {
    WithSize(Into(SetPrevFree(TailStored(g, b, tail, Rest(b, n), nx), nx, true), Rest(b, n)), b, n)
  }

  lemma TailedIsCarved(g: Heap, b: int, n: nat, tail: nat, nx: int)
    requires CanCarve(g, b, n) && tail == Tail(g.blocks[b].size, n) && nx == Next(g, b)
    ensures tail < O.AREA_LIMIT && O.ListOf(tail) in g.lists && b != nx && Rest(b, n) != b && Rest(b, n) != nx
    ensures Tailed(g, b, n, tail, nx) == Carve(g, b, n)
  {
    SizeInArea(g, b);
    O.BitInside(tail);
    CarveBlocks(g, b, n);
    CarveWhole(g, b, n);
    assert Tailed(g, b, n, tail, nx).blocks == Into(Split(g, b, n, false), Rest(b, n)).blocks;
  }

  // b takes over the free block q behind it; the block behind that has not been told.
  ghost function Joined(g: Heap, b: int, q: int): Heap
    requires b in g.blocks && q in g.blocks && b != q && ListAt(g, q) in g.lists
  {
    WithSize(WithoutHeader(OutOf(g, q), q), b, g.blocks[b].size + g.blocks[q].size + METADATA_SIZE)
  }

  lemma JoinedIsSwallowed(g: Heap, b: int, q: int, after: int)
    requires CanSwallow(g, b) && q == Next(g, b) && after == Next(g, q)
    ensures b != q && ListAt(g, q) in g.lists && after in Joined(g, b, q).blocks && after != b && after != q
    ensures SetPrevFree(WithPrev(Joined(g, b, q), after, b), after, false) == Swallow(g, b)
  {
    SwallowWhole(g, b);
    assert SizedAt(g, q);
    assert SetPrevFree(WithPrev(Joined(g, b, q), after, b), after, false).blocks == Swallow(g, b).blocks;
  }

  // Pulling in the free block behind and giving the excess back without telling the block
  // behind in between.
  lemma ShrunkOver(g: Heap, b: int, n: nat, q: int, after: int, tail: nat)
    requires CanSwallow(g, b) && q == Next(g, b) && after == Next(g, q) && CanCarve(Swallow(g, b), b, n)
    requires tail == Tail(Swallow(g, b).blocks[b].size, n)
    ensures ListAt(g, q) in g.lists && after in g.blocks && b < q < after && Rest(b, n) != b && Rest(b, n) != after
    ensures tail < O.AREA_LIMIT && O.ListOf(tail) in OutOf(g, q).lists
    ensures Tailed(WithoutHeader(OutOf(g, q), q), b, n, tail, after) == Carve(Swallow(g, b), b, n)
  {
    JoinedIsSwallowed(g, b, q, after);
    assert SizedAt(g, q);
    TailedIsCarved(Swallow(g, b), b, n, tail, after);
    TailedAlike(WithoutHeader(OutOf(g, q), q), Swallow(g, b), b, n, tail, after);
  }

  // The stores of a tail overwrite the fields in which these heaps differ.
  lemma TailedAlike(h: Heap, g: Heap, b: int, n: nat, tail: nat, nx: int)
    requires b in g.blocks && nx in g.blocks && b != nx && Rest(b, n) != b && Rest(b, n) != nx && O.ListOf(tail) in g.lists
    requires b in h.blocks && nx in h.blocks && h == g.(blocks := h.blocks)
    requires g.blocks == h.blocks[b := h.blocks[b].(size := g.blocks[b].size)]
                                 [nx := h.blocks[nx].(prev := g.blocks[nx].prev, prevFree := g.blocks[nx].prevFree)]
    ensures Tailed(h, b, n, tail, nx) == Tailed(g, b, n, tail, nx)
  {
    TailedBlocks(h, b, n, tail, nx, h.blocks[b], h.blocks[nx]);
    TailedBlocks(g, b, n, tail, nx, h.blocks[b], h.blocks[nx]);
    var t := Block(tail, true, false, b, h.blocks[b].pool);
    PutOver(h.blocks, b, g.blocks[b], nx, g.blocks[nx], Rest(b, n), t,
            h.blocks[b].(size := n), h.blocks[nx].(prev := Rest(b, n), prevFree := true));
  }

  // The three headers that a tail leaves, if kb and kn are those of b and nx but for the
  // fields stored.
  lemma TailedBlocks(g: Heap, b: int, n: nat, tail: nat, nx: int, kb: Block, kn: Block)
    requires b in g.blocks && nx in g.blocks && b != nx && Rest(b, n) != b && Rest(b, n) != nx && O.ListOf(tail) in g.lists
    requires g.blocks[b] == kb.(size := g.blocks[b].size)
    requires g.blocks[nx] == kn.(prev := g.blocks[nx].prev, prevFree := g.blocks[nx].prevFree)
    ensures Tailed(g, b, n, tail, nx).blocks
            == g.blocks[Rest(b, n) := Block(tail, true, false, b, kb.pool)]
                       [nx := kn.(prev := Rest(b, n), prevFree := true)][b := kb.(size := n)]
    ensures Tailed(g, b, n, tail, nx) == g.(blocks := Tailed(g, b, n, tail, nx).blocks, lists := Tailed(g, b, n, tail, nx).lists)
    ensures Tailed(g, b, n, tail, nx).lists == g.lists[O.ListOf(tail) := [Rest(b, n)] + g.lists[O.ListOf(tail)]]
  {
  }

  lemma PutOver<T>(m: map<int, T>, b: int, kb: T, nx: int, kn: T, r: int, t: T, kb': T, kn': T)
    requires b != nx && r != b && r != nx
    ensures m[b := kb][nx := kn][r := t][nx := kn'][b := kb'] == m[r := t][nx := kn'][b := kb']
  {
  }

  lemma AdjustedTwice(size: nat)
    ensures Adjusted(Adjusted(size)) == Adjusted(size)
  {
    NothingToRound(Adjusted(size), 16);
  }

  // ---------------------------------------------------------------- the pool

  class Pool {
    var g: Heap
    var flBitmap: bv32
    const slBitmap: array<bv32>

    ghost predicate Valid()
      reads this
    {
      Whole(g) && slBitmap.Length == O.REAL_FLI
    }

    ghost function Index(): Bitmaps
      reads this, slBitmap
    {
      Bitmaps(flBitmap, slBitmap[..])
    }

    // init_tlsf_ori_pool: an area at f with one used block of s bytes, which is then freed
    constructor (f: int, s: nat)
      requires AreaOk(f, s)
      ensures Valid() && fresh(slBitmap) && g == FreshPool(f, s) && Index() == FreshBits(f, s)
    {
      g := NewArea(f, s);
      flBitmap := 0;
      slBitmap := new bv32[O.REAL_FLI](_ => 0);
      new;
      NewAreaWhole(f, s);
      assert slBitmap[..] == NoBits().sl;
      FreeEx(f + METADATA_SIZE);
    }

    // ---------------------------------------------------------------- lists and bitmaps

    // set_bit in both bitmaps
    method SetBits(fl: int, sl: int)
      requires CanIndex(Index(), Class(fl, sl))
      modifies this`flBitmap, slBitmap
      ensures Index() == Inserted(old(Index()), Class(fl, sl))
    {
      slBitmap[fl + sl / 32] := WithBit(slBitmap[fl + sl / 32], sl % 32);
      flBitmap := WithBit(flBitmap, fl);
    }

    // clear_bit in the second-level bitmap and, if the row's word becomes 0, in the first
    method ClearBits(fl: int, sl: int)
      requires CanIndex(Index(), Class(fl, sl))
      modifies this`flBitmap, slBitmap
      ensures Index() == Emptied(old(Index()), Class(fl, sl))
    {
      slBitmap[fl + sl / 32] := WithoutBit(slBitmap[fl + sl / 32], sl % 32);
      if slBitmap[fl] == 0 {
        flBitmap := WithoutBit(flBitmap, fl);
      }
    }

    // MAPPING_INSERT and INSERT_BLOCK
    method InsertBlock(b: int)
      requires CanList(Index(), g, b) && g.blocks[b].size < WORD32
      modifies this, slBitmap
      ensures g == Into(old(g), b) && Index() == IntoBits(old(Index()), old(g), b)
    {
      var fl, sl := O.MappingInsert(g.blocks[b].size);
      g := Into(g, b);
      SetBits(fl, sl);
    }

    // MAPPING_INSERT and EXTRACT_BLOCK
    method ExtractBlock(b: int)
      requires CanList(Index(), g, b) && g.blocks[b].size < WORD32 && b in g.lists[ListAt(g, b)]
      modifies this, slBitmap
      ensures g == OutOf(old(g), b) && Index() == OutBits(old(Index()), old(g), b)
    {
      var fl, sl := O.MappingInsert(g.blocks[b].size);
      var c := Class(fl, sl);
      WithoutEmpty(g.lists[c], b);
      var heads := g.lists[c][0] == b;
      g := OutOf(g, b);
      if heads {
        if g.lists[c] == [] {
          ClearBits(fl, sl);
        }
      }
    }

    // EXTRACT_BLOCK_HDR of the head of list (fl, sl)
    method ExtractHead(b: int, fl: int, sl: int)
      requires CanList(Index(), g, b) && ListAt(g, b) == Class(fl, sl)
      requires g.lists[Class(fl, sl)] != [] && b == g.lists[Class(fl, sl)][0]
      modifies this, slBitmap
      ensures g == OutOf(old(g), b) && Index() == OutBits(old(Index()), old(g), b)
    {
      var c := Class(fl, sl);
      WithoutEmpty(g.lists[c], b);
      g := g.(lists := g.lists[c := g.lists[c][1..]]);
      if g.lists[c] == [] {
        ClearBits(fl, sl);
      }
    }

    // FIND_SUITABLE_BLOCK
    method FindSuitableBlock(fli: int, sli: int) returns (b: int, fl: int, sl: int)
      requires Sized(Index()) && O.OwnList(Class(fli, sli)) && (forall c :: c in g.lists <==> O.OwnList(c))
      requires !Find(Index(), Class(fli, sli)).Undefined?
      ensures match Find(Index(), Class(fli, sli))
              case Hit(c) => c == Class(fl, sl) && c in g.lists && b == (if g.lists[c] == [] then NULL else g.lists[c][0])
              case _ => b == NULL
    {
      FindIsLaterIfHit(Index(), Class(fli, sli));
      var tmp := BitsFrom(slBitmap[fli], sli);
      b, fl, sl := FindMaskedBlock(fli, tmp, BitsFrom(flBitmap, fli + 1));
    }

    // The same once the words of the row and of the first level have been masked
    method FindMaskedBlock(fli: int, tmp: bv32, rows: bv32) returns (b: int, fl: int, sl: int)
      requires Sized(Index()) && (forall c :: c in g.lists <==> O.OwnList(c))
      requires var r := FindMasked(Index(), fli, tmp, rows); !r.Undefined? && (r.Hit? ==> O.OwnList(r.list))
      ensures match FindMasked(Index(), fli, tmp, rows)
              case Hit(c) => c == Class(fl, sl) && c in g.lists && b == (if g.lists[c] == [] then NULL else g.lists[c][0])
              case _ => b == NULL
    {
      fl, sl, b := fli, 0, NULL;
      if tmp != 0 {
        sl := O.LsBit(tmp);
        LowestUnique(tmp, sl);
        b := Matrix(fl, sl);
      } else {
        fl := O.LsBit(rows);
        if rows != 0 { LowestUnique(rows, fl); }
        if fl > 0 {
          sl := O.LsBit(slBitmap[fl]);
          LowestUnique(slBitmap[fl], sl);
          b := Matrix(fl, sl);
        }
      }
    }

    // matrix[fl][sl]
    function Matrix(fl: int, sl: int): int
      requires Class(fl, sl) in g.lists
      reads this
    {
      if g.lists[Class(fl, sl)] == [] then NULL else g.lists[Class(fl, sl)][0]
    }

    // ---------------------------------------------------------------- malloc_ex

    // malloc_ex, where the search is defined
    method MallocEx(size: nat) returns (ptr: int)
      requires Valid() && CanRound(size) && !Find(Index(), O.ListOf(Wanted(size))).Undefined?
      modifies this, slBitmap
      ensures Valid() && Served(old(g), old(Index()), Wanted(size), g, Index(), ptr)
    {
      var n := Adjusted(size);
      var fl, sl;
      n, fl, sl := O.MappingSearch(n);
      var b;
      b, fl, sl := FindSuitableBlock(fl, sl);
      ChosenIsFound(Index(), g, n);
      if b == NULL {
        ptr := NULL;
      } else {
        ChosenFits(Index(), g, n);
        ptr := TakeBlock(b, n, fl, sl);
      }
    }

    // The part of malloc_ex behind the search.
    method TakeBlock(b: int, n: nat, fl: int, sl: int) returns (ptr: int)
      requires Valid() && CanTake(g, b, n) && ListAt(g, b) == Class(fl, sl)
      requires Class(fl, sl) in g.lists && g.lists[Class(fl, sl)] != [] && b == g.lists[Class(fl, sl)][0]
      modifies this, slBitmap
      ensures g == OriginalHeap.MallocEx(old(g), b, n) && Index() == TakeBits(old(Index()), old(g), b, n)
      ensures ptr == b + METADATA_SIZE && Valid()
    {
      ghost var g0 := g;
      ListableThere(Index(), g, {}, b);
      TakenOut(g, b);
      ExtractHead(b, fl, sl);
      var nx := b + METADATA_SIZE + g.blocks[b].size;
      var tmp := g.blocks[b].size - n;
      if tmp >= HEADER_SIZE {
        tmp := tmp - METADATA_SIZE;
        TakenCut(g0, b, n, tmp, nx);
        TakenCutIs(Index(), old(Index()), g0, b, n, tmp);
        CutFree(b, n, tmp, nx);
      } else {
        TakenEntire(old(Index()), g0, b, n, nx);
        g := SetPrevFree(g, nx, false);
        g := WithFree(g, b, false);
      }
      ptr := b + METADATA_SIZE;
    }

    // A free block that is in no list is cut and marked used, and its tail listed.
    method CutFree(b: int, n: nat, tail: nat, nx: int)
      requires Sized(Index()) && CutAt(g, b, n, tail, Rest(b, n), nx) && FlagAt(g, b) && g.blocks[b].free
      requires tail < O.AREA_LIMIT && O.ListOf(tail) in g.lists
      modifies this, slBitmap
      ensures var g1, r := SetUsed(Split(old(g), b, n, false), b), Rest(b, n);
              r in g1.blocks && ListAt(g1, r) in g1.lists && g == Into(g1, r)
      ensures Index() == SizeBits(old(Index()), tail)
    {
      var b2 := b + METADATA_SIZE + n;
      TailThere(g, b, n, tail, b2, nx);
      TailCut(g, b, n, tail, b2, nx, TailStored(g, b, tail, b2, nx));
      O.BitInside(tail);
      g := WithHeader(g, b2, Block(tail, true, false, b, g.blocks[b].pool));
      g := WithPrev(g, nx, b2);
      IntoCommutes(g, b, n, b2);
      InsertBlock(b2);
      g := WithFree(WithSize(g, b, n), b, false);
    }

    // ---------------------------------------------------------------- free_ex

    // free_ex of a block
    method FreeBlock(block: int)
      requires Valid() && Live(g, block)
      modifies this, slBitmap
      ensures g == OriginalHeap.FreeEx(old(g), block) && Index() == FreeBits(old(Index()), old(g), block) && Valid()
    {
      ghost var g0, x0 := g, Index();
      StartFreeing(g, block);
      g := SetFree(g, block);
      ghost var g' := g;
      MergeBehind(block);
      ghost var g1, x1 := Told(g, block), Index();
      var b := MergeInFront(block);
      FreeSteps(g0, block, g', g1, (Told(g, b), b));
      FreeBitsSteps(x0, g0, block, g', g1, x1, (Told(g, b), b), Index());
      MergedListed(Index(), g, b, Told(g, b));
      Announce(b);
    }

    // The merged block is listed, and the block behind is told.
    method Announce(b: int)
      requires CanList(Index(), g, b) && g.blocks[b].size < WORD32 && Next(g, b) in g.blocks
      modifies this, slBitmap
      ensures g == Announced(old(g), b) && Index() == IntoBits(old(Index()), old(g), b)
    {
      InsertBlock(b);
      var next := b + METADATA_SIZE + g.blocks[b].size;
      g := WithPrev(SetPrevFree(g, next, true), next, b);
    }

    // The first merge. The block behind is not told yet.
    method MergeBehind(b: int)
      requires slBitmap.Length == O.REAL_FLI && Freeing(g, b) && NextKnown(g, b)
      modifies this, slBitmap
      ensures b in g.blocks && Next(g, b) in g.blocks && Told(g, b) == Forward(old(g), b)
      ensures Index() == ForwardBits(old(Index()), old(g), b)
    {
      ghost var g0 := g;
      ListableThere(Index(), g, {b}, Next(g, b));
      SizeInArea(g, Next(g, b));
      var next := b + METADATA_SIZE + g.blocks[b].size;
      if g.blocks[next].free {
        ExtractBlock(next);
        var size := g.blocks[b].size + g.blocks[next].size + METADATA_SIZE;
        g := WithSize(WithoutHeader(g, next), b, size);
        JoinedBehind(g0, b, next, size);
      } else {
        ToldAlready(g, b);
      }
    }

    // The second.
    method MergeInFront(b: int) returns (r: int)
      requires slBitmap.Length == O.REAL_FLI
      requires b in g.blocks && Next(g, b) in g.blocks && Freeing(Told(g, b), b) && !g.blocks[Next(g, b)].free
      modifies this, slBitmap
      ensures r in g.blocks && Next(g, r) in g.blocks
      ensures (Told(g, r), r) == Backward(Told(old(g), b), b)
      ensures Index() == BackwardBits(old(Index()), Told(old(g), b), b)
    {
      ghost var g0 := g;
      if g.blocks[b].prevFree {
        r := g.blocks[b].prev;
        PrevListed(Index(), g, b, r);
        ExtractBlock(r);
        var size := g.blocks[r].size + g.blocks[b].size + METADATA_SIZE;
        g := WithSize(WithoutHeader(g, b), r, size);
        JoinedInFront(g0, b, r, size);
      } else {
        r := b;
      }
    }

    // NULL is not freed.
    method FreeEx(ptr: int)
      requires Valid() && (ptr == NULL || Live(g, ptr - METADATA_SIZE))
      modifies this, slBitmap
      ensures Valid() && FreedOf(old(g), old(Index()), ptr, g, Index())
    {
      if ptr == NULL {
        return;
      }
      var b := ptr - METADATA_SIZE;
      FreeBlock(b);
    }

    // ---------------------------------------------------------------- realloc_ex

    // A tail of so many bytes behind the first n of b becomes a free block.
    method CutTail(b: int, n: nat, tail: nat, next: int)
      requires Sized(Index()) && b in g.blocks && next in g.blocks && b != next && Rest(b, n) != b && Rest(b, n) != next
      requires tail < O.AREA_LIMIT && O.ListOf(tail) in g.lists
      modifies this, slBitmap
      ensures g == Tailed(old(g), b, n, tail, next) && Index() == SizeBits(old(Index()), tail)
    {
      var t := b + METADATA_SIZE + n;
      O.BitInside(tail);
      g := WithHeader(g, t, Block(tail, true, false, b, g.blocks[b].pool));
      g := SetPrevFree(WithPrev(g, next, t), next, true);
      InsertBlock(t);
      g := WithSize(g, b, n);
    }

    // The path for a block that is large enough. The client gives up what lies past n bytes.
    method ShrinkBlock(b: int, n: nat)
      requires Valid() && CanShrink(g, b, n)
      modifies this, slBitmap
      ensures g == Shrink(old(g), b, n) && Index() == ShrinkBits(old(Index()), old(g), b, n) && Valid()
    {
      ForgetWhole(g, b, n);
      g := Forget(g, b, n);
      SwallowedRoom(g, b, n);
      var next := b + METADATA_SIZE + g.blocks[b].size;
      if g.blocks[next].free {
        ShrinkOver(b, n);
      } else {
        var tmp := g.blocks[b].size - n;
        if tmp >= HEADER_SIZE {
          tmp := tmp - METADATA_SIZE;
          TailedIsCarved(g, b, n, tmp, next);
          CutTail(b, n, tmp, next);
        }
      }
    }

    method ShrinkOver(b: int, n: nat)
      requires Valid() && CanSwallow(g, b) && CanCarve(Swallow(g, b), b, n)
      modifies this, slBitmap
      ensures g == Carve(Swallow(old(g), b), b, n)
      ensures Index() == CarveBits(SwallowBits(old(Index()), old(g), b), Swallow(old(g), b), b, n)
    {
      var next := b + METADATA_SIZE + g.blocks[b].size;
      var after := next + METADATA_SIZE + g.blocks[next].size;
      var tmp := g.blocks[b].size + g.blocks[next].size + METADATA_SIZE - n;
      tmp := tmp - METADATA_SIZE;
      ShrunkOver(g, b, n, next, after, tmp);
      ListableThere(Index(), g, {}, next);
      SizeInArea(g, next);
      ExtractBlock(next);
      g := WithoutHeader(g, next);
      CutTail(b, n, tmp, after);
    }

    // The path that grows over a free block behind.
    method GrowBlock(b: int, n: nat)
      requires Valid() && CanGrow(g, b, n)
      modifies this, slBitmap
      ensures g == Grow(old(g), b, n) && Index() == GrowBits(old(Index()), old(g), b, n) && Valid()
    {
      DataInside(g, b);
      SwallowBlock(b);
      var next := b + METADATA_SIZE + g.blocks[b].size;
      var tmp := g.blocks[b].size - n;
      if tmp >= HEADER_SIZE {
        tmp := tmp - METADATA_SIZE;
        TailedIsCarved(g, b, n, tmp, next);
        CutTail(b, n, tmp, next);
      }
    }

    method SwallowBlock(b: int)
      requires Valid() && CanSwallow(g, b)
      modifies this, slBitmap
      ensures g == Swallow(old(g), b) && Index() == SwallowBits(old(Index()), old(g), b) && Valid()
    {
      var next := b + METADATA_SIZE + g.blocks[b].size;
      var size := g.blocks[b].size + g.blocks[next].size + METADATA_SIZE;
      JoinedIsSwallowed(g, b, next, b + METADATA_SIZE + size);
      ListableThere(Index(), g, {}, next);
      SizeInArea(g, next);
      ExtractBlock(next);
      g := WithSize(WithoutHeader(g, next), b, size);
      next := b + METADATA_SIZE + size;
      g := SetPrevFree(WithPrev(g, next, b), next, false);
    }

    // The path that allocates, copies and frees, where the search is defined
    method MoveBlock(b: int, n: nat, ghost r: nat) returns (ptr: int)
      requires Valid() && Live(g, b) && g.blocks[b].size <= n <= r && CanRound(n) && r == Wanted(n)
      requires StartsClass(r) && !Find(Index(), O.ListOf(r)).Undefined?
      modifies this, slBitmap
      ensures Valid() && Moved(old(g), old(Index()), b, r, g, Index(), ptr)
    {
      ghost var g0, x0 := g, Index();
      ptr := MallocEx(n);
      ServedNull(g0, x0, r, g, Index(), ptr);
      if ptr != NULL {
        var d := ptr - METADATA_SIZE;
        MoveInto(g0, x0, b, d, r);
      }
    }

    // The part of it behind malloc_ex
    method MoveInto(ghost g0: Heap, ghost x0: Bitmaps, b: int, d: int, ghost n: nat)
      requires Valid() && Sized(x0) && CanRelocate(g0, b, d, n)
      requires g == OriginalHeap.MallocEx(g0, d, n) && Index() == TakeBits(x0, g0, d, n)
      modifies this, slBitmap
      ensures g == Move(g0, b, d, n) && Index() == MoveBits(x0, g0, b, d, n) && Valid()
    {
      MallocThenCopy(g0, b, d, n, g);
      FreshHasNoData(g0, b, d, n, g);
      CopyPayload(b, d);
      FreeBlock(b);
    }

    // memcpy from the payload of b to that of d, word by word
    method CopyPayload(b: int, d: int)
      requires DataOk(g) && Ordered(g) && Live(g, b) && Live(g, d) && b != d && g.blocks[b].size <= g.blocks[d].size
      requires DataWithin(g, d, 0) && g.blocks[b].size % ALIGN_SIZE == 0 && b % ALIGN_SIZE == 0 && d % ALIGN_SIZE == 0
      modifies this`g
      ensures g == CopyUser(old(g), b, d)
    {
      ghost var g0 := g;
      var size := g.blocks[b].size;
      var i := 0;
      NoneCopied(g0, b, d, d + METADATA_SIZE);
      while i < size
        invariant 0 <= i <= size && i % ALIGN_SIZE == 0
        invariant g == g0.(user := g.user) && CopiedBelow(g0, g.user, b, d, d + METADATA_SIZE + i)
      {
        var w, t := b + METADATA_SIZE + i, d + METADATA_SIZE + i;
        WordCopied(g0, g.user, b, d, w, t, t + ALIGN_SIZE);
        if w in g.user {
          g := g.(user := g.user[t := UserWord(d, g.user[w].value)]);
        }
        i := i + ALIGN_SIZE;
      }
      AllCopied(g0, g.user, b, d, d + METADATA_SIZE + i);
    }

    // realloc_ex of a block for a request that is not 0
    method ReallocBlock(b: int, size: nat) returns (ptr: int)
      requires Valid() && Live(g, b) && Next(g, b) in g.blocks && 0 < size
      requires MustMove(g, b, Adjusted(size)) ==> CanRound(size) && !Find(Index(), O.ListOf(Wanted(size))).Undefined?
      modifies this, slBitmap
      ensures Valid() && Reallocated(old(g), old(Index()), b, size, g, Index(), ptr)
    {
      var n := Adjusted(size);
      var next := b + METADATA_SIZE + g.blocks[b].size;
      ptr := b + METADATA_SIZE;
      if n <= g.blocks[b].size {
        ShrinkBlock(b, n);
      } else if g.blocks[next].free && n <= g.blocks[b].size + g.blocks[next].size {
        GrowBlock(b, n);
      } else {
        AdjustedTwice(size);
        ptr := MoveBlock(b, n, Wanted(size));
      }
    }

    // realloc_ex
    method ReallocEx(ptr: int, size: nat) returns (ptr': int)
      requires Valid() && (ptr == NULL || (Live(g, ptr - METADATA_SIZE) && Next(g, ptr - METADATA_SIZE) in g.blocks))
      requires size > 0 && (ptr == NULL || MustMove(g, ptr - METADATA_SIZE, Adjusted(size))) ==>
                 CanRound(size) && !Find(Index(), O.ListOf(Wanted(size))).Undefined?
      modifies this, slBitmap
      ensures Valid()
      ensures size == 0 ==> ptr' == NULL && FreedOf(old(g), old(Index()), ptr, g, Index())
      ensures size > 0 && ptr == NULL ==> Served(old(g), old(Index()), Wanted(size), g, Index(), ptr')
      ensures size > 0 && ptr != NULL ==> Reallocated(old(g), old(Index()), ptr - METADATA_SIZE, size, g, Index(), ptr')
    {
      ptr' := NULL;
      if ptr == NULL {
        if size != 0 {
          ptr' := MallocEx(size);
        }
      } else if size == 0 {
        FreeEx(ptr);
      } else {
        var b := ptr - METADATA_SIZE;
        ptr' := ReallocBlock(b, size);
      }
    }
  }

  // What becomes of heap and bitmaps when ptr is freed.
  ghost predicate FreedOf(g: Heap, x: Bitmaps, ptr: int, g': Heap, x': Bitmaps)
    requires Sized(x) && Whole(g) && (ptr == NULL || Live(g, ptr - METADATA_SIZE))
  {
    if ptr == NULL then g' == g && x' == x
    else
      var b := ptr - METADATA_SIZE;
      g' == OriginalHeap.FreeEx(g, b) && x' == FreeBits(x, g, b)
  }

  // What becomes of heap and bitmaps when n bytes are searched for.
  ghost predicate Served(g: Heap, x: Bitmaps, n: nat, g': Heap, x': Bitmaps, ptr: int)
    requires Sized(x) && Whole(g) && StartsClass(n)
  {
    var b := Chosen(x, g, n);
    if b == NULL then ptr == NULL && g' == g && x' == x
    else
      && CanTake(g, b, n) && ptr == b + METADATA_SIZE
      && g' == OriginalHeap.MallocEx(g, b, n) && x' == TakeBits(x, g, b, n)
  }

  lemma FindIsLaterIfHit(x: Bitmaps, c: Class)
    requires Sized(x) && O.OwnList(c)
    ensures Find(x, c).Hit? ==> O.OwnList(Find(x, c).list)
  {
    if Find(x, c).Hit? {
      FindIsLater(x, c);
    }
  }

  // Each block that is found has an address, so that NULL tells that none is.
  lemma ChosenIsFound(x: Bitmaps, g: Heap, n: nat)
    requires Sized(x) && Whole(g) && StartsClass(n)
    ensures match Find(x, O.ListOf(n))
            case Hit(c) =>
              c in g.lists && Chosen(x, g, n) == (if g.lists[c] == [] then NULL else g.lists[c][0])
              && (g.lists[c] != [] ==> g.lists[c][0] in g.blocks && ListAt(g, g.lists[c][0]) == c && g.lists[c][0] != NULL)
            case _ => Chosen(x, g, n) == NULL
  {
    FindIsLaterIfHit(x, O.ListOf(n));
    if Find(x, O.ListOf(n)).Hit? {
      var c := Find(x, O.ListOf(n)).list;
      if g.lists[c] != [] {
        assert PlaceAt(g, {}, c, 0) && SizedAt(g, g.lists[c][0]);
      }
    }
  }

  // The result tells whether there was a block.
  lemma ServedNull(g: Heap, x: Bitmaps, n: nat, g': Heap, x': Bitmaps, ptr: int)
    requires Sized(x) && Whole(g) && StartsClass(n) && Served(g, x, n, g', x', ptr)
    ensures ptr == NULL <==> Chosen(x, g, n) == NULL
  {
    if Chosen(x, g, n) != NULL {
      assert SizedAt(g, Chosen(x, g, n));
    }
  }

  // What becomes of heap and bitmaps when block b must move and n bytes are searched for.
  ghost predicate Moved(g: Heap, x: Bitmaps, b: int, n: nat, g': Heap, x': Bitmaps, ptr: int)
    requires Sized(x) && Whole(g) && StartsClass(n)
  {
    var d := Chosen(x, g, n);
    if d == NULL then ptr == NULL && g' == g && x' == x
    else CanRelocate(g, b, d, n) && ptr == d + METADATA_SIZE && g' == Move(g, b, d, n) && x' == MoveBits(x, g, b, d, n)
  }

  // realloc_ex shrinks, grows or moves.
  ghost predicate Reallocated(g: Heap, x: Bitmaps, b: int, size: nat, g': Heap, x': Bitmaps, ptr: int)
    requires Sized(x) && Whole(g) && Live(g, b) && Next(g, b) in g.blocks
    requires MustMove(g, b, Adjusted(size)) ==> CanRound(size)
  {
    var n := Adjusted(size);
    if n <= g.blocks[b].size then
      ptr == b + METADATA_SIZE && g' == Shrink(g, b, n) && x' == ShrinkBits(x, g, b, n)
    else if !MustMove(g, b, n) then
      ptr == b + METADATA_SIZE && g' == Grow(g, b, n) && x' == GrowBits(x, g, b, n)
    else Moved(g, x, b, Wanted(size), g', x', ptr)
  }

  // ---------------------------------------------------------------- the copy

  // A block that was free before has no client data.
  lemma FreshHasNoData(g: Heap, b: int, d: int, n: nat, g1: Heap)
    requires CanRelocate(g, b, d, n) && g1 == OriginalHeap.MallocEx(g, d, n)
    ensures DataWithin(g1, d, 0) && Live(g1, b) && g1.blocks[b].size % ALIGN_SIZE == 0 && b % ALIGN_SIZE == 0 && d % ALIGN_SIZE == 0
    ensures g1.blocks[b].size <= g1.blocks[d].size
  {
    NoData(g, d);
    MallocExKeeps(g, d, n);
    assert KeptAt(g, g1, b) && SizedAt(g1, b) && SizedAt(g1, d);
    Of16Of8(g1.blocks[b].size);
  }

  // Whether word a is as it must be when the words of d below address e have been copied.
  ghost predicate CopiedWordAt(g: Heap, u: map<int, UserWord>, b: int, d: int, e: int, a: int) {
    if a in Shifted(g, b, d) && a < e then a in u && u[a] == UserWord(d, Origin(g, b, d, a))
    else (a in u <==> a in g.user) && (a in u ==> u[a] == g.user[a])
  }

  ghost predicate CopiedBelow(g: Heap, u: map<int, UserWord>, b: int, d: int, e: int) {
    forall a {:trigger CopiedWordAt(g, u, b, d, e, a)} :: CopiedWordAt(g, u, b, d, e, a)
  }

  lemma NoneCopied(g: Heap, b: int, d: int, e: int)
    requires DataOk(g) && e == d + METADATA_SIZE
    ensures CopiedBelow(g, g.user, b, d, e)
  {
    forall a
      ensures CopiedWordAt(g, g.user, b, d, e, a)
    {
      assert a in Shifted(g, b, d) ==> DataAt(g, a - (d - b));
    }
  }

  // Copying word w to t.
  lemma WordCopied(g: Heap, u: map<int, UserWord>, b: int, d: int, w: int, t: int, e: int)
    requires DataOk(g) && Ordered(g) && Live(g, b) && Live(g, d) && b != d && DataWithin(g, d, 0)
    requires g.blocks[b].size <= g.blocks[d].size && CopiedBelow(g, u, b, d, t)
    requires w == t - (d - b) && b + METADATA_SIZE <= w < b + METADATA_SIZE + g.blocks[b].size
    requires t % ALIGN_SIZE == 0 && (d - b) % ALIGN_SIZE == 0 && e == t + ALIGN_SIZE
    ensures w in u ==> CopiedBelow(g, u[t := UserWord(d, u[w].value)], b, d, e)
    ensures w !in u ==> CopiedBelow(g, u, b, d, e)
  {
    var u' := if w in u then u[t := UserWord(d, u[w].value)] else u;
    SourceWord(g, b, d, w, t);
    assert CopiedWordAt(g, u, b, d, t, w);
    forall a
      ensures CopiedWordAt(g, u', b, d, e, a)
    {
      assert CopiedWordAt(g, u, b, d, t, a);
      if a in Shifted(g, b, d) {
        ShiftedAligned(g, b, d, a, t);
      }
    }
  }

  // A word of b's payload is b's, is not a target, and is copied to t.
  lemma SourceWord(g: Heap, b: int, d: int, w: int, t: int)
    requires DataOk(g) && Ordered(g) && Live(g, b) && Live(g, d) && b != d && g.blocks[b].size <= g.blocks[d].size
    requires w == t - (d - b) && b + METADATA_SIZE <= w < b + METADATA_SIZE + g.blocks[b].size
    ensures w !in Shifted(g, b, d) && (w in g.user <==> t in Shifted(g, b, d))
    ensures w in g.user ==> Origin(g, b, d, t) == g.user[w].value
  {
    if w in g.user {
      assert DataAt(g, w) && Apart(g, b, g.user[w].owner);
    }
    assert Apart(g, b, d);
    forall o | o in g.user && g.user[o].owner == b
      ensures o + (d - b) != w
    {
      assert DataAt(g, o);
    }
  }

  lemma ShiftedAligned(g: Heap, b: int, d: int, a: int, t: int)
    requires DataOk(g) && a in Shifted(g, b, d) && t % ALIGN_SIZE == 0 && (d - b) % ALIGN_SIZE == 0
    ensures t < a ==> t + ALIGN_SIZE <= a
  {
    assert DataAt(g, a - (d - b));
  }

  lemma AllCopied(g: Heap, u: map<int, UserWord>, b: int, d: int, e: int)
    requires DataOk(g) && Live(g, b) && CopiedBelow(g, u, b, d, e) && d + METADATA_SIZE + g.blocks[b].size <= e
    ensures u == CopyUser(g, b, d).user
  {
    forall a
      ensures (a in u <==> a in CopyUser(g, b, d).user) && (a in u ==> u[a] == CopyUser(g, b, d).user[a])
    {
      assert CopiedWordAt(g, u, b, d, e, a);
      assert a in Shifted(g, b, d) ==> DataAt(g, a - (d - b));
    }
  }
}
