/**
 What clients of the original allocator get (tlsf_ori.c:275-318, 513-697): the first request
 to a new pool, and their data across free_ex and realloc_ex.
 */
module OriginalResults {
  import opened SizeClasses
  import opened Heaps
  import opened HeapSteps
  import opened HeapOps
  import opened HeapFrames
  import opened HeapCalls
  import opened Original
  import opened OriginalIndex
  import opened OriginalLists
  import opened OriginalHeap
  import opened OriginalCalls

  // ---------------------------------------------------------------- a new pool

  // sizeof(tlsf_ori_t)
  const CONTROL_SIZE := 26752

  // The size of the block that process_area makes of a pool of so many bytes, behind the
  // control structure, the block that describes the area, and their headers.
  function FirstSize(bytes: int): int {
    var area := bytes - CONTROL_SIZE;
    var size := area - area % BLOCK_ALIGN - 3 * METADATA_SIZE - 16;
    size - size % BLOCK_ALIGN
  }

  // The pool sizes that init_tlsf_ori_pool does not refuse lead to exactly the sizes of
  // AreaOk.
  lemma FirstSizes(s: int)
    ensures (exists bytes :: CONTROL_SIZE + 8 * METADATA_SIZE <= bytes && FirstSize(bytes) == s) <==> 64 <= s && s % BLOCK_ALIGN == 0
  {
    if 64 <= s && s % BLOCK_ALIGN == 0 {
      assert FirstSize(s + CONTROL_SIZE + 64) == s;
    }
  }

  // An area at f with one used block of s bytes, before init_tlsf_ori_pool frees it.
  function NewArea(f: int, s: nat): Heap {
    var e := f + METADATA_SIZE + s;
    Heap(0, e + HEADER_SIZE,
         map[f := Block(s, false, false, 0, f), e := Block(0, false, false, f, f)],
         map[f := e],
         map fl, sl | 0 <= fl < REAL_FLI && 0 <= sl < MAX_SLI :: Class(fl, sl) := [],
         map[], map[])
  }

  // What init_tlsf_ori_pool makes a pool of: a block that is aligned to a word and has 64 bytes
  // or more, below the limit.
  predicate AreaOk(f: int, s: nat) {
    0 < f && f % ALIGN_SIZE == 0 && RequestOk(s) && 64 <= s && s + METADATA_SIZE < AREA_LIMIT
  }

  lemma NewAreaWhole(f: int, s: nat)
    requires AreaOk(f, s)
    ensures Whole(NewArea(f, s)) && Live(NewArea(f, s), f) && Tuned(NoBits(), NewArea(f, s))
  {
    var g := NewArea(f, s);
    forall c
      ensures c in g.lists <==> OwnList(c)
    {
      assert c == Class(c.fl, c.sl);
    }
    EndAligned(f, s);
    NoBitsRight(g.lists);
    assert AreaAt(g, f);
  }

  lemma EndAligned(f: int, s: nat)
    requires f % ALIGN_SIZE == 0 && s % 16 == 0
    ensures (f + METADATA_SIZE + s) % ALIGN_SIZE == 0
  {
    Times8(f + METADATA_SIZE + s, f / 8 + 2 + 2 * (s / 16));
  }

  // The pool once its block has been freed.
  ghost function FreshPool(f: int, s: nat): Heap
    requires AreaOk(f, s)
  {
    NewAreaWhole(f, s);
    FreeEx(NewArea(f, s), f)
  }

  ghost function FreshBits(f: int, s: nat): (x: Bitmaps)
    requires AreaOk(f, s)
    ensures Sized(x)
  {
    NewAreaWhole(f, s);
    FreeBits(NoBits(), NewArea(f, s), f)
  }

  lemma FreshIs(f: int, s: nat, c: Class)
    requires AreaOk(f, s) && c == ListOf(s)
    ensures CanIndex(NoBits(), c) && FreshBits(f, s) == Inserted(NoBits(), c)
    ensures OnlyOne(FreshPool(f, s).lists, c, f) && Whole(FreshPool(f, s))
    ensures f in FreshPool(f, s).blocks && FreshPool(f, s).blocks[f].free && FreshPool(f, s).blocks[f].size == s
  {
    BitInside(s);
    NewAreaWhole(f, s);
    StartFreeing(NewArea(f, s), f);
  }

  // Index and lists of a new pool agree if and only if its block is of one of the first 32
  // lists of its row.
  lemma FreshAgrees(f: int, s: nat)
    requires AreaOk(f, s)
    ensures Tuned(FreshBits(f, s), FreshPool(f, s)) <==> NarrowSize(s)
  {
    NewAreaWhole(f, s);
    MergedSizeIs(NewArea(f, s), f);
    FreeTuned(NoBits(), NewArea(f, s), f, s);
  }

  // What a new pool of one free block of s bytes gives to the first request, for which n bytes
  // are searched, if the block would do: the block, if it is of one of the first 32 lists of its
  // row; NULL, if it is not but the request is of the same row; and otherwise the search uses
  // the subscript -1 in a row of the matrix.
  lemma FirstRequest(f: int, s: nat, size: nat, n: nat, c: Class, k: Class)
    requires AreaOk(f, s) && CanRound(size) && LeastGiven(size, n) && n <= s && c == ListOf(s) && k == ListOf(n) && Narrow(k)
    ensures Wanted(size) == n
    ensures Find(FreshBits(f, s), k) == if Narrow(c) then Hit(c) else if k.fl == c.fl then Miss else Undefined
    ensures Chosen(FreshBits(f, s), FreshPool(f, s), Wanted(size)) == if Narrow(c) then f else NULL
  {
    OneLeast(size, n);
    FirstSearch(f, s, n, c, k);
  }

  lemma FirstSearch(f: int, s: nat, n: nat, c: Class, k: Class)
    requires AreaOk(f, s) && StartsClass(n) && n <= s && c == ListOf(s) && k == ListOf(n) && Narrow(k)
    ensures Find(FreshBits(f, s), k) == if Narrow(c) then Hit(c) else if k.fl == c.fl then Miss else Undefined
    ensures Chosen(FreshBits(f, s), FreshPool(f, s), n) == if Narrow(c) then f else NULL
  {
    FreshIs(f, s, c);
    StartCovers(n, s);
    OneBlockFound(FreshPool(f, s).lists, c, f, k);
  }

  lemma Least16()
    ensures CanRound(16) && LeastGiven(16, 16) && ListOf(16) == Class(0, 16)
  {
    CanRoundSizes(16);
  }

  // In a pool with one free block of 64 bytes, malloc_ex(16) returns NULL.
  lemma MissedRequest(f: int)
    requires 0 < f && f % ALIGN_SIZE == 0
    ensures AreaOk(f, 64) && f in FreshPool(f, 64).blocks
    ensures FreshPool(f, 64).blocks[f].free && FreshPool(f, 64).blocks[f].size == 64
    ensures CanRound(16) && Chosen(FreshBits(f, 64), FreshPool(f, 64), Wanted(16)) == NULL
  {
    assert AreaOk(f, 64);
    FreshIs(f, 64, Class(0, 64));
    Least16();
    FirstRequest(f, 64, 16, 16, Class(0, 64), Class(0, 16));
  }

  // In a pool with one free block of 7008 bytes, it uses the subscript -1.
  lemma UndefinedRequest(f: int)
    requires 0 < f && f % ALIGN_SIZE == 0
    ensures AreaOk(f, 7008) && CanRound(16) && Find(FreshBits(f, 7008), ListOf(Wanted(16))) == Undefined
  {
    assert AreaOk(f, 7008) by {
      LimitAbove(7008);
    }
    ListOf7008();
    Least16();
    FirstRequest(f, 7008, 16, 16, Class(6, 91), Class(0, 16));
  }

  lemma LimitAbove(s: nat)
    requires s < 0x1000_0000
    ensures s + METADATA_SIZE < AREA_LIMIT
  {
  }

  // ---------------------------------------------------------------- client data

  // The word at a of block b's data is the word at the same offset of block d's.
  ghost predicate MovedWord(g: Heap, g': Heap, b: int, d: int, a: int)
    requires a in g.user
  {
    a + (d - b) in g'.user && g'.user[a + (d - b)] == UserWord(d, g.user[a].value)
  }

  // realloc_ex keeps the data of the block up to the smaller of its size and the request, on
  // each path, and all data of other blocks.
  lemma ShrinkKeepsData(g: Heap, b: int, n: nat)
    requires CanShrink(g, b, n)
    ensures OthersData(g, Shrink(g, b, n), b)
    ensures forall a | a in g.user && g.user[a].owner == b && a < b + METADATA_SIZE + n :: KeptWord(g, Shrink(g, b, n), a)
  {
    forall a | a in g.user && (g.user[a].owner == b ==> a < b + METADATA_SIZE + n)
      ensures KeptWord(g, Shrink(g, b, n), a)
    {
      assert a in Forget(g, b, n).user;
    }
  }

  lemma MoveKeepsData(g: Heap, b: int, d: int, n: nat)
    requires CanRelocate(g, b, d, n)
    ensures OthersData(g, Move(g, b, d, n), b)
    ensures forall a {:trigger MovedWord(g, Move(g, b, d, n), b, d, a)} | a in g.user && g.user[a].owner == b ::
              MovedWord(g, Move(g, b, d, n), b, d, a)
  {
    AllMoved(g, Move(g, b, d, n), b, d, n);
  }

  lemma AllMoved(g: Heap, g': Heap, b: int, d: int, n: nat)
    requires CanRelocate(g, b, d, n) && b != d && g'.user == Forget(CopyUser(g, b, d), b, 0).user
    ensures OthersData(g, g', b)
    ensures forall a {:trigger MovedWord(g, g', b, d, a)} | a in g.user && g.user[a].owner == b :: MovedWord(g, g', b, d, a)
  {
    forall a | a in g.user
      ensures g.user[a].owner == b ==> MovedWord(g, g', b, d, a)
      ensures g.user[a].owner != b ==> KeptWord(g, g', a)
    {
      NotOverwritten(g, b, d, n, a);
      OneMoved(g, g', b, d, a);
    }
  }

  lemma OneMoved(g: Heap, g': Heap, b: int, d: int, a: int)
    requires b != d && a in g.user && a !in Shifted(g, b, d) && g'.user == Forget(CopyUser(g, b, d), b, 0).user
    ensures if g.user[a].owner == b then MovedWord(g, g', b, d, a) else KeptWord(g, g', a)
  {
    if g.user[a].owner == b {
      assert a + (d - b) in Shifted(g, b, d);
    }
  }

  // The copy goes where no client has data.
  lemma NotOverwritten(g: Heap, b: int, d: int, n: nat, a: int)
    requires CanRelocate(g, b, d, n) && a in g.user
    ensures a !in Shifted(g, b, d)
  {
    assert DataAt(g, a) && Apart(g, g.user[a].owner, d);
    forall o | o in g.user && g.user[o].owner == b
      ensures o + (d - b) != a
    {
      assert DataAt(g, o);
    }
  }

  // free_ex keeps all data but that of the block freed, malloc_ex all data.
  lemma FreeKeepsData(g: Heap, b: int)
    requires Whole(g) && Live(g, b)
    ensures OthersData(g, FreeEx(g, b), b) && DataWithin(FreeEx(g, b), b, 0)
  {
    forall a | a in g.user && g.user[a].owner != b
      ensures KeptWord(g, FreeEx(g, b), a)
    {
      assert a in Forget(g, b, 0).user;
    }
    NoData(FreeEx(g, b), b);
  }
}
