/**
 The allocator of tlsf.c as it works in place: headers, trailers and list links in
 addressable memory, bitmaps and list heads in the control structure. The ghost field
 `g` is the heap that they describe; every method says what becomes of it.

 The assertions of the C code are proved where they stand, each with its line. The one that
 can fail, in block_next, is modelled: `asserts` says whether it is compiled in, and a call
 that it stops returns `stopped`.
 */
module Tlsf {
  import opened Bits
  import opened SizeClasses
  import opened Alignment
  import opened Memory
  import opened Heaps
  import opened HeapSteps
  import opened Layout
  import opened HeapOps
  import opened FreeIndex
  import opened Represents
  import opened HeapCalls
  import opened Oversized

  class Control {
    const mem: Ram
    const ctl: nat             // the address of this structure and of block_null
    const asserts: bool        // built with assertions, as by Makefile.am:9
    var flBitmap: bv32
    const slBitmap: array<bv32>
    const heads: array<int>    // blocks[FL_INDEX_COUNT][SL_INDEX_COUNT], row by row
    ghost var g: Heap

    // ---------------------------------------------------------------- tlsf_create

    // control_construct
    constructor (memory: Ram, address: nat, asserting: bool)
      requires address % ALIGN_SIZE == 0 && 0 < address && address + BLOCK_HEADER_SIZE <= memory.Limit()
      modifies memory.words
      ensures Valid() && g == EmptyHeap(address, memory.Limit(), old(memory.Contents()))
      ensures mem == memory && ctl == address && asserts == asserting && fresh(slBitmap) && fresh(heads)
    {
      mem := memory;
      ctl := address;
      asserts := asserting;
      flBitmap := 0;
      slBitmap := new bv32[FL_INDEX_COUNT];
      heads := new int[FL_INDEX_COUNT * SL_INDEX_COUNT];
      g := EmptyHeap(address, memory.Limit(), memory.Contents());
      new;
      ghost var m := mem.Contents();
      mem.Store(ctl + 24, ctl);
      mem.Store(ctl + 32, ctl);
      for i := 0 to FL_INDEX_COUNT
        invariant forall k | 0 <= k < i :: slBitmap[k] == 0
        invariant forall k | 0 <= k < i * SL_INDEX_COUNT :: heads[k] == ctl
        modifies slBitmap, heads
      {
        slBitmap[i] := 0;
        for j := 0 to SL_INDEX_COUNT
          invariant forall k | 0 <= k < i * SL_INDEX_COUNT + j :: heads[k] == ctl
          modifies heads
        {
          heads[Slot(Class(i, j))] := ctl;
        }
      }
      EmptyState(m, mem.Contents(), Index(), ctl, mem.Limit());
    }

    // ---------------------------------------------------------------- representation

    ghost predicate Wf()
      reads this
    {
      && slBitmap.Length == FL_INDEX_COUNT
      && heads.Length == FL_INDEX_COUNT * SL_INDEX_COUNT
      && mem.words as object != heads && mem.words as object != slBitmap && heads as object != slBitmap
      && g.ctl == ctl && g.limit == mem.Limit()
    }

    ghost function Index(): (x: Index)
      requires Wf()
      reads this, slBitmap, heads
      ensures Sized(x)
    {
      FreeIndex.Index(flBitmap, slBitmap[..], heads[..])
    }

    // Memory and index describe the heap g, in which the blocks of pend are in no list
    // and the trailers of the blocks in xs may be missing.
    ghost predicate Rep(xs: set<int>, pend: set<int>)
      reads this, mem.words, slBitmap, heads
    {
      Wf() && State(mem.Contents(), Index(), g, xs, pend)
    }

    // What holds between any two calls.
    ghost predicate Valid()
      reads this, mem.words, slBitmap, heads
    {
      Rep({}, {}) && Inv(g)
    }

    // ---------------------------------------------------------------- header words

    // The size word at header b is that of block k.
    ghost predicate Word(b: int, k: Block)
      reads mem.words
    {
      b + 8 in mem.Contents() && mem.Contents()[b + 8] == Encode(k) && k.size % 4 == 0
    }

    method BlockSize(b: nat, ghost k: Block) returns (size: nat)
      requires Word(b, k)
      ensures size == k.size
    {
      EncodeFields(k, 0);
      size := SizeBits(mem.Load(b + 8));
    }

    method BlockIsFree(b: nat, ghost k: Block) returns (free: bool)
      requires Word(b, k)
      ensures free == k.free
    {
      EncodeFields(k, 0);
      free := FreeBit(mem.Load(b + 8));
    }

    method BlockIsPrevFree(b: nat, ghost k: Block) returns (prevFree: bool)
      requires Word(b, k)
      ensures prevFree == k.prevFree
    {
      EncodeFields(k, 0);
      prevFree := PrevFreeBit(mem.Load(b + 8));
    }

    method BlockSetSize(b: nat, size: nat, ghost k: Block)
      requires Word(b, k)
      modifies mem.words
      ensures mem.Contents() == PutBlock(old(mem.Contents()), b, k.(size := size))
    {
      EncodeFields(k, size);
      mem.Store(b + 8, WithSize(mem.Load(b + 8), size));
    }

    method BlockSetFree(b: nat, ghost k: Block)
      requires Word(b, k)
      modifies mem.words
      ensures mem.Contents() == PutBlock(old(mem.Contents()), b, k.(free := true))
    {
      EncodeFields(k, 0);
      mem.Store(b + 8, WithFree(mem.Load(b + 8)));
    }

    method BlockSetUsed(b: nat, ghost k: Block)
      requires Word(b, k)
      modifies mem.words
      ensures mem.Contents() == PutBlock(old(mem.Contents()), b, k.(free := false))
    {
      EncodeFields(k, 0);
      mem.Store(b + 8, WithUsed(mem.Load(b + 8)));
    }

    method BlockSetPrevFree(b: nat, ghost k: Block)
      requires Word(b, k)
      modifies mem.words
      ensures mem.Contents() == PutBlock(old(mem.Contents()), b, k.(prevFree := true))
    {
      EncodeFields(k, 0);
      mem.Store(b + 8, WithPrevFree(mem.Load(b + 8)));
    }

    method BlockSetPrevUsed(b: nat, ghost k: Block)
      requires Word(b, k)
      modifies mem.words
      ensures mem.Contents() == PutBlock(old(mem.Contents()), b, k.(prevFree := false))
    {
      EncodeFields(k, 0);
      mem.Store(b + 8, WithPrevUsed(mem.Load(b + 8)));
    }

    // block_next, where its assertion holds or is compiled out
    method BlockNext(b: nat, ghost k: Block) returns (next: nat)
      requires Word(b, k) && (asserts ==> k.size > 0)
      ensures next == b + METADATA_SIZE + k.size
    {
      var size := BlockSize(b, k);
      next := b + METADATA_SIZE + size;
      assert asserts ==> size != 0;    // tlsf.c:352
    }

    // Whether that assertion stops the program.
    method NextStops(b: nat, ghost k: Block) returns (stops: bool)
      requires Word(b, k)
      ensures stops <==> asserts && k.size == 0
    {
      var size := BlockSize(b, k);
      stops := asserts && size == 0;
    }

    method BlockLinkNext(b: nat, ghost k: Block)
      requires Word(b, k) && k.size > 0 && b + METADATA_SIZE + k.size in mem.Contents()
      modifies mem.words
      ensures mem.Contents() == old(mem.Contents())[b + METADATA_SIZE + k.size := b]
    {
      var next := BlockNext(b, k);
      mem.Store(next, b);
    }

    // A block's header reads as the block.
    lemma ReadHeader(xs: set<int>, pend: set<int>, b: int)
      requires Rep(xs, pend) && b in g.blocks
      ensures Word(b, g.blocks[b]) && 0 <= b && b + 16 in mem.Contents() && mem.Contents()[b + 16] == ctl
      ensures g.blocks[b].size > 0 ==> ChainedAt(g, b) && Next(g, b) in mem.Contents()
    {
      StateReads(mem.Contents(), Index(), g, xs, pend, b);
    }

    // ---------------------------------------------------------------- free lists

    // insert_free_block
    method InsertFreeBlock(b: nat, fl: int, sl: int)
      requires Wf() && ValidClass(Class(fl, sl)) && fl < 32
      requires 0 < b && b % ALIGN_SIZE == 0 && b + 24 in mem.Contents() && b + 32 in mem.Contents()
      requires var cur := heads[Slot(Class(fl, sl))]; 0 < cur && cur + 32 in mem.Contents()
      modifies this`flBitmap, slBitmap, heads, mem.words
      ensures Index() == Inserted(old(Index()), Class(fl, sl), b)
      ensures mem.Contents() == LinkedIn(old(mem.Contents()), b, old(heads[Slot(Class(fl, sl))]), ctl)
    {
      var current := heads[Slot(Class(fl, sl))];
      assert current != NULL && b != NULL;    // tlsf.c:529-530
      mem.Store(b + 24, current);
      mem.Store(b + 32, ctl);
      mem.Store(current + 32, b);
      AlignedPayload(b);                      // tlsf.c:540
      ghost var m := mem.Contents();
      heads[Slot(Class(fl, sl))] := b;
      flBitmap := WithBit(flBitmap, fl);
      slBitmap[fl] := WithBit(slBitmap[fl], sl);
      assert mem.Contents() == m;
      assert heads[..] == old(heads[..])[Slot(Class(fl, sl)) := b];
      assert slBitmap[..] == old(slBitmap[..])[fl := WithBit(old(slBitmap[fl]), sl)];
    }

    // remove_free_block
    method RemoveFreeBlock(b: nat, fl: int, sl: int)
      requires Wf() && ValidClass(Class(fl, sl)) && fl < 32
      requires b + 24 in mem.Contents() && b + 32 in mem.Contents()
      requires mem.Contents()[b + 24] + 32 in mem.Contents() && mem.Contents()[b + 32] + 24 in mem.Contents()
      requires 0 < mem.Contents()[b + 24] && 0 < mem.Contents()[b + 32]
      modifies this`flBitmap, slBitmap, heads, mem.words
      ensures mem.Contents() == Unlinked(old(mem.Contents()), b)
      ensures Index() == Removed(old(Index()), Class(fl, sl), b, old(mem.Contents()[b + 24]), ctl)
    {
      var prev := mem.Load(b + 32);
      var next := mem.Load(b + 24);
      assert prev != NULL && next != NULL;    // tlsf.c:496-497
      mem.Store(next + 32, prev);
      mem.Store(prev + 24, next);
      ghost var m := mem.Contents();
      if heads[Slot(Class(fl, sl))] == b {
        heads[Slot(Class(fl, sl))] := next;
        if next == ctl {
          slBitmap[fl] := WithoutBit(slBitmap[fl], sl);
          if slBitmap[fl] == 0 {
            flBitmap := WithoutBit(flBitmap, fl);
          }
        }
      }
      assert mem.Contents() == m;
    }

    // block_insert
    method BlockInsert(b: nat, ghost pend: set<int>)
      requires Rep({}, pend) && b in pend && b in g.blocks && g.blocks[b].free
      modifies this, slBitmap, heads, mem.words
      ensures ClassOf(old(g.blocks[b].size)) in old(g.lists) && g == Insert(old(g), b)
      ensures Rep({}, pend - {b})
    {
      ghost var m, x := mem.Contents(), Index();
      ReadHeader({}, pend, b);
      InsertReady(m, x, g, b, pend);
      var size := BlockSize(b, g.blocks[b]);
      var fl, sl := MappingSearch(size);
      InsertFreeBlock(b, fl, sl);
      InsertState(m, mem.Contents(), x, g, b, pend);
      g := Insert(g, b);
    }

    // remove_free_block on a listed block, for the class of its size
    method RemoveListed(b: nat, fl: int, sl: int, ghost pend: set<int>)
      requires Rep({}, pend) && b in g.blocks && g.blocks[b].free && b !in pend
      requires Class(fl, sl) == ClassOf(g.blocks[b].size)
      modifies this, slBitmap, heads, mem.words
      ensures ClassOf(old(g.blocks[b].size)) in old(g.lists) && g == Remove(old(g), b)
      ensures Rep({}, pend + {b})
    {
      ghost var m, x := mem.Contents(), Index();
      ghost var i := RemoveReady(m, x, g, b, pend);
      RemoveFreeBlock(b, fl, sl);
      RemoveState(m, mem.Contents(), x, g, b, i, pend);
      g := Remove(g, b);
    }

    // block_remove
    method BlockRemove(b: nat, ghost pend: set<int>)
      requires Rep({}, pend) && b in g.blocks && g.blocks[b].free && b !in pend
      modifies this, slBitmap, heads, mem.words
      ensures ClassOf(old(g.blocks[b].size)) in old(g.lists) && g == Remove(old(g), b)
      ensures Rep({}, pend + {b})
    {
      ReadHeader({}, pend, b);
      SizeInRange(g, b);
      var size := BlockSize(b, g.blocks[b]);
      var fl, sl := MappingSearch(size);
      RemoveListed(b, fl, sl, pend);
    }

    // search_suitable_block
    method SearchSuitableBlock(fli: int, sli: int, ghost pend: set<int>) returns (block: nat, fl: int, sl: int)
      requires Rep({}, pend) && 0 <= fli < 31 && 0 <= sli < SL_INDEX_COUNT
      ensures match Scan(g.lists, fli, sli)
              case Nothing => block == NULL
              case At(c) => c == Class(fl, sl) && c in g.lists && g.lists[c] != [] && block == g.lists[c][0] && block != NULL
    {
      ghost var x := Index();
      NoTopRow(g, pend);
      fl, sl := fli, sli;
      var slMap := BitsFrom(slBitmap[fl], sl);
      if slMap == 0 {
        var flMap := BitsFrom(flBitmap, fl + 1);
        if flMap == 0 {
          SearchNothing(x, g.lists, ctl, fli, sli);
          return NULL, fl, sl;
        }
        fl := Ffs(flMap);
        SearchNextRow(x, g.lists, ctl, fli, sli, fl);
        slMap := slBitmap[fl];
        assert slMap != 0;    // tlsf.c:474
        sl := Ffs(slMap);
        RowHead(x, g.lists, ctl, fl, sl);
      } else {
        sl := Ffs(slMap);
        RowFound(x, g.lists, ctl, fli, sli, sl);
      }
      FoundHead(mem.Contents(), x, g, pend, fli, sli, Class(fl, sl));
      block := heads[Slot(Class(fl, sl))];
    }

    // block_locate_free
    method BlockLocateFree(size: nat) returns (block: nat)
      requires Valid() && size % ALIGN_SIZE == 0 && size < LOCATE_LIMIT
      modifies this, slBitmap, heads, mem.words
      ensures match Locate(old(g), size)
              case Nothing => block == NULL && g == old(g) && Valid()
              case At(c) =>
                LocatedOk(old(g), c, size) && block == old(g).lists[c][0] && block != NULL
                && g == Remove(old(g), block) && Rep({}, {block})
    {
      block := NULL;
      if size > 0 {
        LocateInRange(size);
        var adjusted := RoundForSearch(size);
        var fl, sl := MappingSearch(adjusted);
        if fl < FL_INDEX_COUNT {
          block, fl, sl := SearchSuitableBlock(fl, sl, {});
          if block != NULL {
            LocatedBlock(g, size);
            assert g.blocks[block].size >= size;    // tlsf.c:727
            RemoveListed(block, fl, sl, {});
            assert {} + {block} == {block};
          }
        }
      }
    }

    // ---------------------------------------------------------------- splitting and joining blocks

    // block_mark_as_free on memory: k and n are the blocks that the header and its
    // neighbour encode.
    method BlockMarkAsFree(b: nat, ghost k: Block, ghost n: Block)
      requires Word(b, k) && k.size > 0
      requires var next := b + METADATA_SIZE + k.size; next in mem.Contents() && Word(next, n)
      modifies mem.words
      ensures mem.Contents() == FreeStores(old(mem.Contents()), b, k, n)
    {
      BlockLinkNext(b, k);
      var next := BlockNext(b, k);
      BlockSetPrevFree(next, n);
      BlockSetFree(b, k);
    }

    // block_mark_as_used
    method BlockMarkAsUsed(b: nat, ghost k: Block, ghost n: Block)
      requires Word(b, k) && k.size > 0 && Word(b + METADATA_SIZE + k.size, n)
      modifies mem.words
      ensures mem.Contents() == UsedStores(old(mem.Contents()), b, k, n)
    {
      var next := BlockNext(b, k);
      BlockSetPrevUsed(next, n);
      BlockSetUsed(b, k);
    }

    // What block_split asks of the block and of the size that it keeps.
    ghost predicate Splittable(b: nat, n: nat, k: Block)
      reads mem.words
    {
      && Word(b, k) && b + 16 in mem.Contents() && BLOCK_HEADER_SIZE + n <= k.size
      && Rest(b, n) % ALIGN_SIZE == 0 && n % 4 == 0
      && Rest(b, n) + 8 in mem.Contents() && Rest(b, n) + 16 in mem.Contents()
    }

    // The stores of block_split behind the call of block_next and up to the marking. The flag
    // bits of the new header are those of the word s that was there.
    method SplitRemaining(b: nat, r: nat, remain: nat) returns (ghost s: Block)
      requires r % ALIGN_SIZE == 0 && BLOCK_SIZE_MIN <= remain && b + 16 < r + 8
      requires b + 16 in mem.Contents() && r + 8 in mem.Contents() && r + 16 in mem.Contents()
      modifies mem.words
      ensures s.size == remain
      ensures mem.Contents() == PutBlock(old(mem.Contents()), r, s)[r + 16 := old(mem.Contents()[b + 16])]
    {
      AlignedPayload(r);                   // tlsf.c:588
      assert remain >= BLOCK_SIZE_MIN;     // tlsf.c:592
      s := Decode(mem.Contents()[r + 8]);
      BlockSetSize(r, remain, s);
      s := s.(size := remain);
      var heap := mem.Load(b + 16);
      mem.Store(r + 16, heap);
    }

    // The stores of block_split up to the marking. With assertions a size of 0 stops the
    // program in block_next.
    method SplitHeaders(b: nat, n: nat, ghost k: Block) returns (r: nat, stopped: bool, ghost s: Block)
      requires Splittable(b, n, k)
      modifies mem.words
      ensures stopped <==> asserts && n == 0
      ensures stopped ==> mem.Contents() == PutBlock(old(mem.Contents()), b, k.(size := n))
      ensures !stopped ==>
                && r == Rest(b, n) && s.size == k.size - (n + METADATA_SIZE)
                && mem.Contents() == PutBlock(PutBlock(old(mem.Contents()), b, k.(size := n)), r, s)[r + 16 := old(mem.Contents()[b + 16])]
    {
      var oldSize := BlockSize(b, k);
      BlockSetSize(b, n, k);
      stopped := NextStops(b, k.(size := n));
      r, s := NULL, k;
      if !stopped {
        r := BlockNext(b, k.(size := n));
        s := SplitRemaining(b, r, oldSize - (n + METADATA_SIZE));
      }
    }

    // block_split
    method BlockSplit(b: nat, n: nat, ghost k: Block, ghost nx: Block) returns (r: nat, stopped: bool, ghost s: Block)
      requires Splittable(b, n, k)
      requires Word(b + METADATA_SIZE + k.size, nx) && b + METADATA_SIZE + k.size in mem.Contents()
      modifies mem.words
      ensures stopped <==> asserts && n == 0
      ensures stopped ==> mem.Contents() == PutBlock(old(mem.Contents()), b, k.(size := n))
      ensures !stopped ==>
                && r == Rest(b, n) && s.size == k.size - (n + METADATA_SIZE) && s.size % 4 == 0
                && mem.Contents() == SplitStores(old(mem.Contents()), b, r, k.(size := n), nx, s, old(mem.Contents()[b + 16]))
    {
      ghost var m := mem.Contents();
      r, stopped, s := SplitHeaders(b, n, k);
      if !stopped {
        SplitMiddle(m, b, n, k, nx, s, m[b + 16], mem.Contents());
        BlockMarkAsFree(r, s, nx);
      }
    }

    // What block_split does to the heap, for any former content of the new header.
    method SplitBlock(b: nat, n: nat, ghost pend: set<int>) returns (r: nat, ghost pf: bool)
      requires Rep({}, pend) && SplitOk(g, b, n) && NoUserAbove(g, b, n) && (b in pend || !g.blocks[b].free)
      modifies this`g, mem.words
      ensures r == Rest(b, n) && g == Split(old(g), b, n, pf)
      ensures Rep({b}, pend + {r})
    {
      ghost var m, x := mem.Contents(), Index();
      ghost var s;
      r, s := SplitWords(b, n, pend);
      pf := s.prevFree;
      SplitStep(m, x, g, b, n, s, pend);
      g := Split(g, b, n, pf);
    }

    method SplitWords(b: nat, n: nat, ghost pend: set<int>) returns (r: nat, ghost s: Block)
      requires Rep({}, pend) && SplitOk(g, b, n)
      modifies mem.words
      ensures r == Rest(b, n) && s.size == g.blocks[b].size - (n + METADATA_SIZE)
      ensures mem.Contents() == SplitStores(old(mem.Contents()), b, r, g.blocks[b].(size := n), g.blocks[Next(g, b)], s, ctl)
    {
      SplitMapped(mem.Contents(), Index(), g, b, n, pend);
      var stopped;
      r, stopped, s := BlockSplit(b, n, g.blocks[b], g.blocks[Next(g, b)]);
      assert !stopped;    // tlsf.c:352
    }

    // block_mark_as_free
    method MarkFreeBlock(b: nat, ghost pend: set<int>)
      requires Rep({}, pend) && b in g.blocks && g.blocks[b].size > 0
      requires NoUserAbove(g, b, 0) && (b in pend || !g.blocks[b].free)
      modifies this`g, mem.words
      ensures Next(old(g), b) in old(g.blocks) && g == Mark(old(g), b, true)
      ensures Rep({}, pend + {b})
    {
      ghost var m, x := mem.Contents(), Index();
      MarkMapped(m, x, g, b, {}, pend);
      BlockMarkAsFree(b, g.blocks[b], g.blocks[Next(g, b)]);
      MarkFreeStep(m, x, g, b, pend);
      g := Mark(g, b, true);
    }

    // block_mark_as_used
    method MarkUsedBlock(b: nat, ghost pend: set<int>)
      requires Rep({}, pend) && b in g.blocks && g.blocks[b].size > 0 && (b in pend || !g.blocks[b].free)
      modifies this`g, mem.words
      ensures Next(old(g), b) in old(g.blocks) && g == Mark(old(g), b, false)
      ensures Rep({}, pend - {b})
    {
      ghost var m, x := mem.Contents(), Index();
      MarkMapped(m, x, g, b, {}, pend);
      BlockMarkAsUsed(b, g.blocks[b], g.blocks[Next(g, b)]);
      MarkUsedStep(m, x, g, b, pend);
      g := Mark(g, b, false);
    }

    // block_absorb
    method BlockAbsorb(p: nat, q: nat, ghost kp: Block, ghost kq: Block)
      requires Word(p, kp) && Word(q, kq) && kp.size > 0
      requires p + METADATA_SIZE + (kp.size + (kq.size + METADATA_SIZE)) in mem.Contents()
      modifies mem.words
      ensures mem.Contents() == AbsorbStores(old(mem.Contents()), p, kp, kq)
    {
      assert kp.size != 0;    // tlsf.c:607
      var size := BlockSize(q, kq);
      EncodeAdd(kp, size);
      ghost var k := kp.(size := kp.size + (kq.size + METADATA_SIZE));
      mem.Store(p + 8, mem.Load(p + 8) + size + METADATA_SIZE);
      assert mem.Contents() == PutBlock(old(mem.Contents()), p, k);
      BlockLinkNext(p, k);
    }

    // What block_absorb does to the heap.
    method AbsorbBlock(p: nat, q: nat, ghost pend: set<int>)
      requires Rep({}, pend) && AbsorbOk(g, p) && q == Next(g, p) && NoUserAbove(g, q, 0)
      requires (p in pend || !g.blocks[p].free) && (q in pend || !g.blocks[q].free)
      modifies this`g, mem.words
      ensures g == Absorb(old(g), p)
      ensures Rep({}, pend - {q})
    {
      ghost var m, x := mem.Contents(), Index();
      AbsorbMapped(m, x, g, p, pend);
      BlockAbsorb(p, q, g.blocks[p], g.blocks[q]);
      AbsorbStep(m, x, g, p, pend);
      g := Absorb(g, p);
    }

    // ---------------------------------------------------------------- merging

    // block_merge_prev
    method BlockMergePrev(b: nat) returns (r: nat)
      requires b in g.blocks && Rep({}, {b}) && Pending(g, b, {b, Next(g, b)})
      modifies this, slBitmap, heads, mem.words
      ensures (g, r) == MergePrev(old(g), b)
      ensures Rep({}, {r})
    {
      ReadHeader({}, {b}, b);
      var prevFree := BlockIsPrevFree(b, g.blocks[b]);
      if prevFree {
        PrevMapped(mem.Contents(), Index(), g, b, {b});
        PrevOf(g, b);
        MergePrevStep(g, b);
        assert g.blocks[b].prevFree;                  // tlsf.c:340
        assert b !in g.pools;                         // the word in front of a pool is not loaded
        r := mem.Load(b);
        assert r != NULL && g.blocks[r].free;         // tlsf.c:621-622
        BlockRemove(r, {b});
        FreeHasNoUser(g, b, 0, {});
        AbsorbBlock(r, b, {b} + {r});
        assert {b} + {r} - {b} == {r};
      } else {
        r := b;
      }
    }

    // block_merge_next
    method BlockMergeNext(b: nat, ghost pend: set<int>)
      requires Rep({}, pend) && b in g.blocks && g.blocks[b].size > 0 && (b in pend || !g.blocks[b].free)
      requires Next(g, b) in g.blocks && Next(g, b) !in pend
      modifies this, slBitmap, heads, mem.words
      ensures var g0, q := old(g), old(Next(g, b));
              if g0.blocks[q].free then
                ClassOf(g0.blocks[q].size) in g0.lists && AbsorbOk(Remove(g0, q), b) && g == Absorb(Remove(g0, q), b)
              else g == g0
      ensures Rep({}, pend)
    {
      ReadHeader({}, pend, b);
      var next := BlockNext(b, g.blocks[b]);
      ReadHeader({}, pend, next);
      assert next != NULL;                   // tlsf.c:636
      var free := BlockIsFree(next, g.blocks[next]);
      if free {
        assert g.blocks[b].size != 0;        // tlsf.c:640
        MergeNextStep(g, b, pend);
        BlockRemove(next, pend);
        FreeHasNoUser(g, next, 0, {});
        AbsorbBlock(b, next, pend + {next});
        assert pend + {next} - {next} == pend;
      }
    }

    // ---------------------------------------------------------------- trimming

    // block_can_split
    method BlockCanSplit(b: nat, size: nat, ghost k: Block) returns (can: bool)
      requires Word(b, k)
      ensures can <==> k.size >= BLOCK_HEADER_SIZE + size
    {
      var blockSize := BlockSize(b, k);
      can := blockSize >= BLOCK_HEADER_SIZE + size;
    }

    // block_link_next on a free block
    method LinkNextBlock(b: nat, ghost pend: set<int>)
      requires Rep({b}, pend) && b in pend && b in g.blocks && g.blocks[b].free && g.blocks[b].size > 0
      modifies mem.words
      ensures Rep({}, pend)
    {
      ghost var m, x := mem.Contents(), Index();
      MarkMapped(m, x, g, b, {b}, pend);
      BlockLinkNext(b, g.blocks[b]);
      LinkNextState(m, mem.Contents(), x, g, b, pend);
    }

    // block_set_prev_free
    method SetPrevFreeBlock(b: nat, ghost xs: set<int>, ghost pend: set<int>)
      requires Rep(xs, pend) && b in g.blocks && b !in g.pools
      modifies this`g, mem.words
      ensures g == SetPrevFree(old(g), b, true)
      ensures Rep(xs, pend)
    {
      ghost var m, x := mem.Contents(), Index();
      ReadHeader(xs, pend, b);
      BlockSetPrevFree(b, g.blocks[b]);
      SetPrevFreeStep(m, x, g, b, true, xs, pend);
      g := SetPrevFree(g, b, true);
    }

    // block_trim_free
    method BlockTrimFree(b: nat, n: nat)
      requires b in g.blocks && Rep({}, {b}) && Pending(g, b, {b}) && SizeOk(n)
      modifies this, slBitmap, heads, mem.words
      ensures g == TrimFree(old(g), b, n)
      ensures Rep({}, {b})
    {
      assert g.blocks[b].free;    // tlsf.c:654
      ReadHeader({}, {b}, b);
      var can := BlockCanSplit(b, n, g.blocks[b]);
      if can {
        SplitTail(g, b, n);
        var r := SplitRest(b, n);
        BlockInsert(r, {b} + {r});
        assert {b} + {r} - {r} == {b};
      }
    }

    // block_split, block_link_next and block_set_prev_free
    method SplitRest(b: nat, n: nat) returns (r: nat)
      requires b in g.blocks && Rep({}, {b}) && SplitOk(g, b, n) && g.blocks[b].free
      modifies this`g, mem.words
      ensures r == Rest(b, n) && g == Split(old(g), b, n, true)
      ensures Rep({}, {b} + {r})
    {
      ghost var g0 := g;
      FreeHasNoUser(g, b, n, {b});
      ghost var pf;
      r, pf := SplitBlock(b, n, {b});
      SplitThenSet(g0, b, n, pf, true);
      LinkNextBlock(b, {b} + {r});
      SetPrevFreeBlock(r, {}, {b} + {r});
    }

    // block_trim_used. Only where an assertion would stop the program may the client's data
    // still be there.
    method BlockTrimUsed(b: nat, n: nat) returns (stopped: bool)
      requires Valid() && Live(g, b) && (CanSplit(g, b, n) ==> CanTrim(g, b, n) || (asserts && n == 0))
      modifies this, slBitmap, heads, mem.words
      ensures stopped <==> asserts && TrimStops(old(g), b, n)
      ensures stopped ==> StoppedAt(old(g), old(mem.Contents()), old(Index()), b)
      ensures !stopped ==> Valid() && g == if CanSplit(old(g), b, n) then Trimmed(old(g), b, n) else old(g)
    {
      assert !g.blocks[b].free;    // tlsf.c:669
      ReadHeader({}, {}, b);
      var can := BlockCanSplit(b, n, g.blocks[b]);
      stopped := false;
      if can {
        var r;
        r, stopped := CutTail(b, n);
        if !stopped {
          TrimPending(old(g), b, n);
          RelistMerged(r);
        }
      }
    }

    // The program has stopped in block_next: of the heap g0 in memory m only the size of block
    // b was changed, to 0.
    ghost predicate StoppedAt(g0: Heap, m: map<int, nat>, x: Index, b: int)
      reads this, mem.words, slBitmap, heads
    {
      && Wf() && g == g0 && Index() == x && 0 <= b && b in g0.blocks
      && mem.Contents() == PutBlock(m, b, g0.blocks[b].(size := 0))
    }

    // block_split and block_set_prev_used on a live block
    method CutTail(b: nat, n: nat) returns (r: nat, stopped: bool)
      requires Valid() && Live(g, b) && CanSplit(g, b, n) && (CanTrim(g, b, n) || (asserts && n == 0))
      modifies this`g, mem.words
      ensures stopped <==> asserts && n == 0
      ensures stopped ==> StoppedAt(old(g), old(mem.Contents()), old(Index()), b)
      ensures !stopped ==> CanTrim(old(g), b, n) && r == Rest(b, n) && g == CutOff(old(g), b, n) && Rep({}, {r})
    {
      ghost var m, x := mem.Contents(), Index();
      TrimMapped(m, x, g, b, n);
      ghost var s, s';
      r, stopped, s, s' := CutHeaders(b, n, g.blocks[b], g.blocks[Next(g, b)]);
      if !stopped {
        CutOffStep(m, mem.Contents(), x, g, b, n, s, s');
        g := CutOff(g, b, n);
      }
    }

    // The same on memory: s is the block that the new header spelled with its new size.
    method CutHeaders(b: nat, n: nat, ghost k: Block, ghost nx: Block) returns (r: nat, stopped: bool, ghost s: Block, ghost s': Block)
      requires Splittable(b, n, k)
      requires Word(b + METADATA_SIZE + k.size, nx) && b + METADATA_SIZE + k.size in mem.Contents()
      modifies mem.words
      ensures stopped <==> asserts && n == 0
      ensures stopped ==> mem.Contents() == PutBlock(old(mem.Contents()), b, k.(size := n))
      ensures !stopped ==>
                && r == Rest(b, n) && s.size == k.size - (n + METADATA_SIZE) && s' == s.(free := true, prevFree := false)
                && mem.Contents() == PutBlock(SplitStores(old(mem.Contents()), b, r, k.(size := n), nx, s, old(mem.Contents()[b + 16])), r, s')
    {
      ghost var m := mem.Contents();
      r, stopped, s := BlockSplit(b, n, k, nx);
      s' := s.(free := true, prevFree := false);
      if !stopped {
        SplitReads(m, b, n, k.(size := n), nx, s, m[b + 16], mem.Contents(), r);
        SetPrevUsedAfter(r, s.(free := true), mem.Contents(), s');
      }
    }

    method SetPrevUsedAfter(r: nat, ghost k: Block, ghost m: map<int, nat>, ghost k': Block)
      requires Word(r, k) && m == mem.Contents() && k' == k.(prevFree := false)
      modifies mem.words
      ensures mem.Contents() == PutBlock(m, r, k')
    {
      BlockSetPrevUsed(r, k);
    }

    // Splits a pending block into two that are both linked and both out of the lists.
    method SplitLead(b: nat, n: nat) returns (r: nat)
      requires b in g.blocks && Rep({}, {b}) && SplitOk(g, b, n) && g.blocks[b].free
      modifies this`g, mem.words
      ensures r == Rest(b, n) && g == Split(old(g), b, n, true)
      ensures Rep({}, {b} + {r})
    {
      ghost var g0 := g;
      FreeHasNoUser(g, b, n, {b});
      ghost var pf;
      r, pf := SplitBlock(b, n, {b});
      SplitThenSet(g0, b, n, pf, true);
      SetPrevFreeBlock(r, {b}, {b} + {r});
      LinkNextBlock(b, {b} + {r});
    }

    // block_trim_free_leading
    method BlockTrimFreeLeading(b: nat, gap: nat) returns (r: nat)
      requires b in g.blocks && Rep({}, {b}) && Pending(g, b, {}) && gap % ALIGN_SIZE == 0 && BLOCK_HEADER_SIZE <= gap
      modifies this, slBitmap, heads, mem.words
      ensures (g, r) == TrimLeading(old(g), b, gap)
      ensures Rep({}, {r})
    {
      r := b;
      ReadHeader({}, {b}, b);
      var can := BlockCanSplit(b, gap, g.blocks[b]);
      if can {
        r := CutLead(b, gap);
      }
    }

    method CutLead(b: nat, gap: nat) returns (r: nat)
      requires b in g.blocks && Rep({}, {b}) && Pending(g, b, {}) && gap % ALIGN_SIZE == 0 && BLOCK_HEADER_SIZE <= gap
      requires CanSplit(g, b, gap)
      modifies this, slBitmap, heads, mem.words
      ensures (g, r) == TrimLeading(old(g), b, gap)
      ensures Rep({}, {r})
    {
      SplitLeadStep(g, b, gap);
      var n := gap - METADATA_SIZE;
      r := SplitLead(b, n);
      BlockInsert(b, {b} + {r});
      assert {b} + {r} - {b} == {r};
    }

    // ---------------------------------------------------------------- allocation

    // block_prepare_used
    method BlockPrepareUsed(block: nat, size: nat) returns (p: nat)
      requires if block == NULL then Valid() else block in g.blocks && Rep({}, {block}) && Pending(g, block, {block}) && SizeOk(size)
      modifies this, slBitmap, heads, mem.words
      ensures if block == NULL then p == NULL && g == old(g)
              else p == block + BLOCK_START_OFFSET && g == PrepareUsed(old(g), block, size)
      ensures Valid()
    {
      p := NULL;
      if block != NULL {
        assert size != 0;                      // tlsf.c:740
        BlockTrimFree(block, size);
        MarkUsedInv(g, block);
        MarkUsedBlock(block, {block});
        assert {block} - {block} == {};
        ReadHeader({}, {}, block);
        assert mem.Load(block + 16) == ctl;    // tlsf.c:743
        p := block + BLOCK_START_OFFSET;
      }
    }

    // tlsf_malloc
    method Malloc(size: nat) returns (p: nat)
      requires Valid() && AdjustRequest(size, ALIGN_SIZE) < LOCATE_LIMIT
      modifies this, slBitmap, heads, mem.words
      ensures Outcome(g, p) == HeapOps.Malloc(old(g), size)
      ensures Valid()
    {
      var adjust := AdjustRequest(size, ALIGN_SIZE);
      var block := BlockLocateFree(adjust);
      p := BlockPrepareUsed(block, adjust);
    }

    // The middle of tlsf_memalign: cuts a located block so that its payload is aligned.
    method AlignFront(block: nat, align: nat, ghost adjust: nat) returns (r: nat)
      requires block in g.blocks && Rep({}, {block}) && Pending(g, block, {}) && PowerOfTwo(align) && align > 0
      requires GapGood(block + BLOCK_START_OFFSET, align, adjust, g.blocks[block].size)
      modifies this, slBitmap, heads, mem.words
      ensures (g, r) == AlignBlock(old(g), block, align, adjust)
      ensures Rep({}, {r})
    {
      r := block;
      var ptr := block + BLOCK_START_OFFSET;
      var aligned := AlignUp(ptr, align);
      var gap := aligned - ptr;
      if 0 < gap < BLOCK_HEADER_SIZE {
        var gapRemain := BLOCK_HEADER_SIZE - gap;
        var offset := if gapRemain > align then gapRemain else align;
        var nextAligned := aligned + offset;
        aligned := AlignUp(nextAligned, align);
        gap := aligned - ptr;
      }
      assert gap == Gap(ptr, align);
      if gap > 0 {
        assert gap >= BLOCK_HEADER_SIZE;    // tlsf.c:1133
        r := BlockTrimFreeLeading(block, gap);
      }
    }

    // tlsf_memalign
    method Memalign(align: nat, size: nat) returns (p: nat)
      requires Valid() && PowerOfTwo(align)
      requires AlignedNeed(align, AdjustRequest(size, ALIGN_SIZE)) < LOCATE_LIMIT
      modifies this, slBitmap, heads, mem.words
      ensures Outcome(g, p) == HeapCalls.Memalign(old(g), align, size)
      ensures Valid()
    {
      var adjust := AdjustRequest(size, ALIGN_SIZE);
      var sizeWithGap := AdjustRequest(adjust + align + BLOCK_HEADER_SIZE, align);
      var alignedSize := if adjust > 0 && align > ALIGN_SIZE then sizeWithGap else adjust;
      NeedOk(align, adjust);
      var block := BlockLocateFree(alignedSize);
      assert BLOCK_HEADER_SIZE == BLOCK_SIZE_MIN + METADATA_SIZE;    // tlsf.c:1112
      if block != NULL {
        FrontOf(old(g), Locate(old(g), alignedSize).list, block, g, align, size, adjust, alignedSize);
      }
      p := PrepareFront(block, align, adjust);
    }

    // The part of tlsf_memalign behind the search.
    method PrepareFront(located: nat, align: nat, adjust: nat) returns (p: nat)
      requires PowerOfTwo(align)
      requires if located == NULL then Valid() else Rep({}, {located}) && CanFront(g, located, align, adjust)
      modifies this, slBitmap, heads, mem.words
      ensures if located == NULL then p == NULL && g == old(g)
              else Outcome(g, p) == PrepareAligned(old(g), located, align, adjust)
      ensures Valid()
    {
      var block := located;
      if block != NULL {
        block := AlignFront(block, align, adjust);
      }
      p := BlockPrepareUsed(block, adjust);
    }

    // tlsf_free. The heap that the header names is this one.
    method Free(ptr: nat)
      requires Valid() && (ptr != NULL ==> BLOCK_START_OFFSET < ptr && Live(g, ptr - BLOCK_START_OFFSET))
      modifies this, slBitmap, heads, mem.words
      ensures g == if ptr == NULL then old(g) else HeapOps.Free(old(g), ptr - BLOCK_START_OFFSET)
      ensures Valid()
    {
      if ptr != NULL {
        var block := ptr - BLOCK_START_OFFSET;
        ghost var g0, b := g, block;
        assert !g.blocks[block].free;          // tlsf.c:1148
        ForgetData(block, 0);
        MarkFreePending(g, block);
        MarkFreeBlock(block, {});
        ghost var g1 := g;
        assert {} + {block} == {block};
        ReadHeader({}, {block}, block);
        assert mem.Load(block + 16) == ctl;    // tlsf.c:1154
        block := BlockMergePrev(block);
        FreeIs(g0, b, g1, g, block);
        RelistMerged(block);
      }
    }

    // block_merge_next and block_insert at the end of tlsf_free
    method RelistMerged(block: nat)
      requires block in g.blocks && Rep({}, {block}) && Pending(g, block, {Next(g, block)})
      modifies this, slBitmap, heads, mem.words
      ensures g == Relist(MergeNext(old(g), block), block)
      ensures Valid()
    {
      assert ChainedAt(g, block);
      BlockMergeNext(block, {block});
      BlockInsert(block, {block});
      assert {block} - {block} == {};
    }

    // What the client stored from byte n of block b on is no longer its own.
    ghost method ForgetData(b: int, n: int)
      requires Valid()
      modifies this`g
      ensures g == DropUser(old(g), b, n) && NoUserAbove(g, b, n)
      ensures Valid()
    {
      DropUserInv(g, b, n);
      DropUserState(mem.Contents(), Index(), g, b, n);
      g := DropUser(g, b, n);
    }

    // tlsf_realloc. With assertions an oversized request stops the program, unless the block is
    // too small to be split.
    method Realloc(ptr: nat, size: nat) returns (p: nat, stopped: bool)
      requires Valid() && (ptr != NULL ==> BLOCK_START_OFFSET < ptr && Live(g, ptr - BLOCK_START_OFFSET))
      requires ptr == NULL ==> AdjustRequest(size, ALIGN_SIZE) < LOCATE_LIMIT
      requires ptr != NULL && AdjustRequest(size, ALIGN_SIZE) >= LOCATE_LIMIT ==>
                 var b := ptr - BLOCK_START_OFFSET;
                 Next(g, b) in g.blocks && FitsInPlace(g, b, AdjustRequest(size, ALIGN_SIZE))
      modifies this, slBitmap, heads, mem.words
      ensures stopped <==> asserts && ptr != NULL && size > 0 && ReallocStops(old(g), ptr - BLOCK_START_OFFSET, size)
      ensures stopped ==> StoppedAt(old(g), old(mem.Contents()), old(Index()), ptr - BLOCK_START_OFFSET)
      ensures !stopped ==> Valid()
      ensures !stopped ==>
                if ptr != NULL && size == 0 then p == NULL && g == HeapOps.Free(old(g), ptr - BLOCK_START_OFFSET)
                else if ptr == NULL then Outcome(g, p) == HeapOps.Malloc(old(g), size)
                else if AdjustRequest(size, ALIGN_SIZE) == 0 then p == ptr && g == Emptied(old(g), ptr - BLOCK_START_OFFSET)
                else Outcome(g, p) == HeapCalls.Realloc(old(g), ptr - BLOCK_START_OFFSET, size)
    {
      p, stopped := NULL, false;
      if ptr != NULL && size == 0 {
        Free(ptr);
      } else if ptr == NULL {
        p := Malloc(size);
      } else {
        var block := ptr - BLOCK_START_OFFSET;
        ReadHeader({}, {}, block);
        var next := BlockNext(block, g.blocks[block]);
        ReadHeader({}, {}, next);
        var cursize := BlockSize(block, g.blocks[block]);
        var nextsize := BlockSize(next, g.blocks[next]);
        var nextFree := BlockIsFree(next, g.blocks[next]);
        var combined := cursize + nextsize + METADATA_SIZE;
        var adjust := AdjustRequest(size, ALIGN_SIZE);
        assert mem.Load(block + 16) == ctl;    // tlsf.c:1203
        assert !g.blocks[block].free;          // tlsf.c:1206
        assert ShapedAt(g, block);
        OversizedRequest(g, block, size);
        if adjust > cursize && (!nextFree || adjust > combined) {
          p := ReallocMove(block, size);
        } else {
          stopped := ReallocInPlace(block, adjust);
          p := ptr;
        }
      }
    }

    // The path of tlsf_realloc that allocates, copies and frees.
    method ReallocMove(block: nat, size: nat) returns (p: nat)
      requires Valid() && Live(g, block) && g.blocks[block].size < AdjustRequest(size, ALIGN_SIZE) < LOCATE_LIMIT
      modifies this, slBitmap, heads, mem.words
      ensures MoveOk(HeapOps.Malloc(old(g), size), block)
      ensures Outcome(g, p) == MoveInto(HeapOps.Malloc(old(g), size), block)
      ensures Valid()
    {
      ghost var g0 := g;
      ReadHeader({}, {}, block);
      LiveSize(g, block);
      var cursize := BlockSize(block, g.blocks[block]);
      WholeBlockCopied(cursize, size);
      var minsize := if cursize < size then cursize else size;
      p := Malloc(size);
      MoveReady(g0, block, size);
      MovePayload(p, block, minsize);
    }

    // The copying and freeing of that path.
    method MovePayload(p: nat, block: nat, minsize: nat)
      requires Valid() && MoveOk(Outcome(g, p), block) && 0 < block
      requires (p != NULL ==> BLOCK_START_OFFSET <= p && g.blocks[block].size == minsize)
      modifies this, slBitmap, heads, mem.words
      ensures Outcome(g, p) == MoveInto(Outcome(old(g), p), block)
      ensures Valid()
    {
      if p != NULL {
        ghost var d := p - BLOCK_START_OFFSET;
        var ptr := block + BLOCK_START_OFFSET;
        assert ptr - BLOCK_START_OFFSET == block;
        MoveIntoIs(Outcome(g, p), block, d);
        CopyPayload(p, ptr, minsize, block, d);
        Free(ptr);
      }
    }

    // memcpy from the payload of block b to that of block d
    method CopyPayload(to: nat, from: nat, bytes: nat, ghost b: int, ghost d: int)
      requires from == b + BLOCK_START_OFFSET && to == d + BLOCK_START_OFFSET && Valid()
      requires CanCopy(g, b, d) && NoUserAbove(g, d, 0) && bytes == g.blocks[b].size
      modifies this`g, mem.words
      ensures g == CopyUser(old(g), b, d)
      ensures Valid()
    {
      ghost var m, x := mem.Contents(), Index();
      CopyFits(m, g, b, d);
      mem.Copy(to, from, PayloadWords(bytes));
      CopyUserInv(g, b, d);
      CopyState(m, x, g, b, d);
      g := CopyUser(g, b, d);
    }

    // The path of tlsf_realloc that keeps the block where it is.
    method ReallocInPlace(block: nat, adjust: nat) returns (stopped: bool)
      requires Valid() && Live(g, block) && Next(g, block) in g.blocks && FitsInPlace(g, block, adjust)
      requires SizeOk(adjust) || adjust == 0
      modifies this, slBitmap, heads, mem.words
      ensures stopped <==> asserts && adjust == 0 && CanSplit(old(g), block, 0)
      ensures stopped ==> StoppedAt(old(g), old(mem.Contents()), old(Index()), block)
      ensures !stopped ==> Valid() && g == if adjust == 0 then Emptied(old(g), block) else Resize(old(g), block, adjust)
    {
      ReadHeader({}, {}, block);
      var cursize := BlockSize(block, g.blocks[block]);
      if adjust > cursize {
        OwnDataBelow(g, block, adjust);
        ExpandBlock(block);
      } else if adjust > 0 || (CanSplit(g, block, 0) && !asserts) {
        ForgetData(block, adjust);
      }
      stopped := BlockTrimUsed(block, adjust);
    }

    // block_merge_next and block_mark_as_used
    method ExpandBlock(block: nat)
      requires Valid() && Live(g, block) && Next(g, block) in g.blocks && g.blocks[Next(g, block)].free
      modifies this, slBitmap, heads, mem.words
      ensures g == Expand(old(g), block) && Valid()
    {
      ExpandStep(g, block);
      BlockMergeNext(block, {});
      MarkUsedBlock(block, {});
      assert {} - {block} == {};
    }

    // ---------------------------------------------------------------- pools

    // The header of a new pool's block: its flags do not depend on what was there.
    method PlaceHeader(f: nat, n: nat)
      requires f + 8 in mem.Contents() && n % 4 == 0
      modifies mem.words
      ensures mem.Contents() == PutBlock(old(mem.Contents()), f, Block(n, true, false, f, f))
    {
      ghost var m, s := mem.Contents(), Decode(mem.Contents()[f + 8]);
      ghost var s1 := s.(size := n);
      ghost var s2 := s1.(free := true);
      BlockSetSize(f, n, s);
      BlockSetFree(f, s1);
      PutTwice(m, f, s1, s2, s2);
      BlockSetPrevUsed(f, s2);
      PutTwice(m, f, s2, s2.(prevFree := false), Block(n, true, false, f, f));
    }

    method PlaceSentinel(z: nat, ghost f: nat)
      requires z + 8 in mem.Contents()
      modifies mem.words
      ensures mem.Contents() == PutBlock(old(mem.Contents()), z, Block(0, false, true, f, f))
    {
      ghost var m, s := mem.Contents(), Decode(mem.Contents()[z + 8]);
      ghost var s1 := s.(size := 0);
      ghost var s2 := s1.(free := false);
      BlockSetSize(z, 0, s);
      BlockSetUsed(z, s1);
      PutTwice(m, z, s1, s2, s2);
      BlockSetPrevFree(z, s2);
      PutTwice(m, z, s2, s2.(prevFree := true), Block(0, false, true, f, f));
    }

    // The stores of tlsf_add_pool after the new block is listed.
    method PlaceRest(f: nat, n: nat)
      requires Word(f, Block(n, true, false, f, f)) && f + 16 in mem.Contents()
      requires var z := Rest(f, n); BLOCK_SIZE_MIN <= n && z in mem.Contents() && z + 8 in mem.Contents() && z + 16 in mem.Contents()
      modifies mem.words
      ensures var z := Rest(f, n);
              mem.Contents() == PutBlock(old(mem.Contents())[f + 16 := ctl][z := f], z, Block(0, false, true, f, f))[z + 16 := ctl]
    {
      ghost var k := Block(n, true, false, f, f);
      mem.Store(f + 16, ctl);
      var next := BlockNext(f, k);
      BlockLinkNext(f, k);
      PlaceSentinel(next, f);
      mem.Store(next + 16, ctl);
    }

    // The stores of tlsf_add_pool, in its order.
    method PoolWrites(f: nat, n: nat)
      requires Wf() && PoolRoom(mem.Contents(), Index(), f, n)
      modifies this`flBitmap, slBitmap, heads, mem.words
      ensures mem.Contents() == AddPoolStores(old(mem.Contents()), old(Index()), f, n, ctl)
      ensures Index() == Inserted(old(Index()), ClassOf(n), f)
    {
      ghost var m := mem.Contents();
      PlaceHeader(f, n);
      var fl, sl := MappingSearch(n);
      ghost var cur := heads[Slot(Class(fl, sl))];
      InsertFreeBlock(f, fl, sl);
      PlaceRest(f, n);
      PoolOrder(m, f, n, cur, ctl);
    }

    // tlsf_add_pool
    method AddPool(address: nat, bytes: nat) returns (pool: nat)
      requires Valid() && bytes < WORD32 * WORD32
      requires PoolSizeOk(address, bytes) ==> PoolReady(g, address, bytes)
      modifies this, slBitmap, heads, mem.words
      ensures Outcome(g, pool) == HeapCalls.AddPool(old(g), address, bytes)
      ensures Valid()
    {
      if !PoolSizeOk(address, bytes) {
        return NULL;
      }
      ListPool(address, bytes);
      pool := address;
    }

    // The part of tlsf_add_pool behind its checks.
    method ListPool(address: nat, bytes: nat)
      requires Valid() && PoolReady(g, address, bytes)
      modifies this, slBitmap, heads, mem.words
      ensures g == HeapCalls.AddPool(old(g), address, bytes).heap
      ensures Valid()
    {
      WritePool(address, bytes);
      AddPoolClaims(g, address, bytes);
      g := HeapCalls.AddPool(g, address, bytes).heap;
    }

    method WritePool(address: nat, bytes: nat)
      requires Valid() && PoolReady(g, address, bytes)
      modifies this`flBitmap, slBitmap, heads, mem.words
      ensures Wf() && State(mem.Contents(), Index(), HeapCalls.AddPool(g, address, bytes).heap, {}, {})
    {
      var f, n := address - 8, PoolPayload(bytes);
      ghost var m, x := mem.Contents(), Index();
      PoolHead(m, x, g, address, bytes, f, n);
      PoolWrites(f, n);
      AddPoolState(m, mem.Contents(), x, Index(), g, address, bytes, f, n);
    }

    // tlsf_remove_pool
    method RemovePool(pool: nat)
      requires Valid() && Vacant(g, pool - 8)
      modifies this, slBitmap, heads, mem.words
      ensures g == HeapCalls.RemovePool(old(g), pool - 8)
      ensures Valid()
    {
      ghost var g0 := g;
      ReadHeader({}, {}, pool - 8);
      assert PooledAt(g, pool - 8) && ShapedAt(g, pool - 8);
      var block: nat := pool - 8;
      var next := BlockNext(block, g.blocks[block]);
      assert ShapedAt(g, next);
      ReadHeader({}, {}, next);
      var ok := RemovalAsserts(block, next, g.blocks[block], g.blocks[next]);
      assert ok;    // tlsf.c:1001-1003
      SizeInRange(g, block);
      var size := BlockSize(block, g.blocks[block]);
      var fl, sl := MappingSearch(size);
      RemoveListed(block, fl, sl, {});
      RemovePoolState(mem.Contents(), Index(), g0, block);
      RemovePoolInv(g0, block);
      g := HeapCalls.RemovePool(g0, block);
    }

    // The three assertions of tlsf_remove_pool, on the blocks that the two headers encode.
    method RemovalAsserts(block: nat, next: nat, ghost k: Block, ghost n: Block) returns (ok: bool)
      requires Word(block, k) && Word(next, n)
      ensures ok <==> k.free && !n.free && n.size == 0
    {
      var free := BlockIsFree(block, k);
      var nextFree := BlockIsFree(next, n);
      var nextSize := BlockSize(next, n);
      ok := free && !nextFree && nextSize == 0;
    }

    // ---------------------------------------------------------------- what a payload address tells

    // tlsf_block_size
    method BlockSizeOf(ptr: nat) returns (size: nat)
      requires Valid() && (ptr != NULL ==> BLOCK_START_OFFSET < ptr && Live(g, ptr - BLOCK_START_OFFSET))
      ensures size == if ptr == NULL then 0 else g.blocks[ptr - BLOCK_START_OFFSET].size
    {
      size := 0;
      if ptr != NULL {
        var block := ptr - BLOCK_START_OFFSET;
        ReadHeader({}, {}, block);
        size := BlockSize(block, g.blocks[block]);
      }
    }

    // tlsf_from_ptr
    method FromPtr(ptr: nat) returns (heap: nat)
      requires ptr - BLOCK_START_OFFSET + 16 in mem.Contents()
      ensures heap == mem.Contents()[ptr - BLOCK_START_OFFSET + 16]
    {
      heap := mem.Load(ptr - BLOCK_START_OFFSET + 16);
    }

    // The header of a live block names the block's own heap.
    lemma HeaderNamesHeap(ptr: nat)
      requires Valid() && BLOCK_START_OFFSET < ptr && Live(g, ptr - BLOCK_START_OFFSET)
      ensures ptr - BLOCK_START_OFFSET + 16 in mem.Contents() && mem.Contents()[ptr - BLOCK_START_OFFSET + 16] == ctl
    {
      ReadHeader({}, {}, ptr - BLOCK_START_OFFSET);
    }

    // ---------------------------------------------------------------- the client's side

    // A client stores a word in a block that it holds.
    method ClientWrite(ghost b: int, a: int, w: nat)
      requires Valid() && InPayload(g, b, a)
      modifies this`g, mem.words
      ensures g == Write(old(g), b, a, w)
      ensures Valid()
    {
      WriteState(mem.Contents(), Index(), g, b, a, w);
      WriteInv(g, b, a, w);
      mem.Store(a, w);
      g := Write(g, b, a, w);
    }

    // A client loads a word that it stored.
    method ClientRead(a: int) returns (w: nat)
      requires Valid() && a in g.user
      ensures w == g.user[a].value
    {
      assert StoredAt(mem.Contents(), g, a);
      w := mem.Load(a);
    }

    // ---------------------------------------------------------------- checks

    // The headers of blocks that tile their pools: enough to walk them.
    ghost predicate Readable()
      reads this, mem.words, slBitmap, heads
    {
      Wf() && Tiled(g) && Spans(mem.Contents(), g.limit) && Headed(mem.Contents(), g)
    }

    // Besides, heads and links of lists of such blocks: enough to follow them. Flags, bitmaps
    // and which blocks are listed where may be wrong.
    ghost predicate Inspectable()
      reads this, mem.words, slBitmap, heads
    {
      && Readable() && Linked(mem.Contents(), g)
      && (forall c :: c in g.lists <==> ValidClass(c))
      && (forall c {:trigger HeadRight(c)} | ValidClass(c) :: HeadRight(c))
      && (forall c, k {:trigger IsEntry(c, k)} | c in g.lists && 0 <= k < |g.lists[c]| :: IsEntry(c, k))
    }

    ghost predicate HeadRight(c: Class)
      reads this, heads
    {
      Wf() && ValidClass(c) && c in g.lists && heads[Slot(c)] == HeadOf(g.lists[c], ctl)
    }

    ghost predicate IsEntry(c: Class, k: int)
      requires c in g.lists && 0 <= k < |g.lists[c]|
      reads this
    {
      g.lists[c][k] in g.blocks && g.blocks[g.lists[c][k]].size > 0
    }

    lemma ReadTiled(b: int)
      requires Readable() && b in g.blocks
      ensures Word(b, g.blocks[b]) && 0 <= b && g.blocks[b].size < POOL_LIMIT
      ensures g.blocks[b].size > 0 ==> b != ctl && b + 24 in mem.Contents() && Next(g, b) in g.blocks
    {
      HeaderReads(mem.Contents(), g, b);
      SizeInRange(g, b);
      assert ShapedAt(g, b) && ChainedAt(g, b);
    }

    lemma ValidIsInspectable()
      requires Valid()
      ensures Inspectable()
    {
      forall c | ValidClass(c)
        ensures HeadRight(c)
      {
        assert ClassAt(Index(), g.lists, ctl, c);
      }
      forall c, k | c in g.lists && 0 <= k < |g.lists[c]|
        ensures IsEntry(c, k)
      {
        assert EntryAt(g, {}, c, k) && ShapedAt(g, g.lists[c][k]);
      }
    }

    // What tlsf_check asks of a listed block k, the block n behind it and the list c.
    ghost predicate BlockPasses(k: Block, n: Block, c: Class) {
      k.free && !k.prevFree && !n.free && n.prevFree && BLOCK_SIZE_MIN <= k.size && ClassOf(k.size) == c
    }

    // The checks of tlsf_check on one listed block. A build with assertions stops at the first
    // that fails; otherwise the status is reduced for each.
    method CheckBlock(block: nat, i: int, j: int, ghost k: Block, ghost n: Block) returns (status: int)
      requires Word(block, k) && 0 < k.size < POOL_LIMIT && Word(block + METADATA_SIZE + k.size, n)
      ensures status <= 0 && (status == 0 <==> BlockPasses(k, n, Class(i, j)))
    {
      status := 0;
      var free := BlockIsFree(block, k);
      if !free { status := status - 1; }
      var prevFree := BlockIsPrevFree(block, k);
      if prevFree { status := status - 1; }
      var next := BlockNext(block, k);
      var nextFree := BlockIsFree(next, n);
      if nextFree { status := status - 1; }
      next := BlockNext(block, k);
      var nextPrevFree := BlockIsPrevFree(next, n);
      if !nextPrevFree { status := status - 1; }
      var size := BlockSize(block, k);
      if size < BLOCK_SIZE_MIN { status := status - 1; }
      size := BlockSize(block, k);
      var fli, sli := MappingSearch(size);
      if fli != i || sli != j { status := status - 1; }
    }

    ghost predicate EntryPasses(c: Class, k: int)
      requires c in g.lists && 0 <= k < |g.lists[c]|
      reads this
    {
      var b := g.lists[c][k];
      b in g.blocks && Next(g, b) in g.blocks && BlockPasses(g.blocks[b], g.blocks[Next(g, b)], c)
    }

    // The first n blocks of the list pass.
    ghost predicate EntriesPass(c: Class, n: int)
      requires c in g.lists && n <= |g.lists[c]|
      reads this
    {
      forall k {:trigger EntryPasses(c, k)} | 0 <= k < n :: EntryPasses(c, k)
    }

    lemma EntryOn(c: Class, k: int)
      requires c in g.lists && 0 <= k < |g.lists[c]|
      ensures EntriesPass(c, k + 1) <==> EntriesPass(c, k) && EntryPasses(c, k)
    {
      assert EntriesPass(c, k + 1) ==> EntryPasses(c, k);
    }

    // The checks of tlsf_check on one list. The links lead from the head to block_null.
    method CheckList(i: int, j: int) returns (status: int)
      requires Inspectable() && ValidClass(Class(i, j))
      ensures Class(i, j) in g.lists && status <= 0
      ensures status == 0 <==> EntriesPass(Class(i, j), |g.lists[Class(i, j)]|)
    {
      status := 0;
      ghost var c := Class(i, j);
      ghost var list := g.lists[c];
      assert HeadRight(c);
      var block := heads[Slot(Class(i, j))];
      ghost var k := 0;
      NotNull(c, k, block);
      while block != ctl
        invariant 0 <= k <= |list| && status <= 0
        invariant block == if k < |list| then list[k] else ctl
        invariant block == ctl <==> k == |list|
        invariant status == 0 <==> EntriesPass(c, k)
        decreases |list| - k
      {
        assert IsEntry(c, k);
        ReadTiled(block);
        ReadTiled(Next(g, block));
        var s := CheckBlock(block, i, j, g.blocks[block], g.blocks[Next(g, block)]);
        EntryOn(c, k);
        status := status + s;
        assert LinkAt(mem.Contents(), g, c, k);
        block := mem.Load(block + 24);
        k := k + 1;
        NotNull(c, k, block);
      }
    }

    lemma NotNull(c: Class, k: int, b: int)
      requires Inspectable() && c in g.lists && 0 <= k <= |g.lists[c]|
      requires b == if k < |g.lists[c]| then g.lists[c][k] else ctl
      ensures b == ctl <==> k == |g.lists[c]|
    {
      if k < |g.lists[c]| {
        assert IsEntry(c, k);
        ReadTiled(b);
      }
    }

    // What tlsf_check asks of one head and its bits: the first-level test holds where the
    // second-level bit is set, that bit tells whether the list has blocks, and each passes.
    ghost predicate ListPasses(c: Class, flMap: bool)
      reads this, slBitmap
    {
      && Wf() && ValidClass(c) && c in g.lists
      && var marked, list := Bit(slBitmap[c.fl], c.sl), g.lists[c];
         (marked ==> flMap) && (marked <==> list != []) && (marked ==> EntriesPass(c, |list|))
    }

    method CheckHead(i: int, j: int, flMap: bool) returns (status: int)
      requires Inspectable() && ValidClass(Class(i, j))
      ensures Class(i, j) in g.lists && status <= 0 && (status == 0 <==> ListPasses(Class(i, j), flMap))
    {
      status := 0;
      var slList := slBitmap[i];
      var slMap := Bit(slList, j);
      var block := heads[Slot(Class(i, j))];
      assert HeadRight(Class(i, j));
      NotNull(Class(i, j), 0, block);
      if !flMap {
        if slMap { status := status - 1; }
      }
      if !slMap {
        if block != ctl { status := status - 1; }
      } else {
        BitNonzero(slList, j);
        if slList == 0 { status := status - 1; }
        if block == ctl { status := status - 1; }
        var s := CheckList(i, j);
        status := status + s;
      }
    }

    // The result of the first-level test in row i. In the last row the C shift count is 32, and
    // the result is given.
    ghost function RowTest(i: int, top: bool): bool
      reads this
    {
      if 0 <= i < 32 then Bit(flBitmap, i) else top
    }

    ghost predicate PassesAt(c: Class, top: bool)
      reads this, slBitmap
    {
      ListPasses(c, RowTest(c.fl, top))
    }

    // All checks up to list j of row i.
    ghost predicate AllPass(i: int, j: int, top: bool)
      reads this, slBitmap
    {
      forall c {:trigger PassesAt(c, top)} | ValidClass(c) && Before(c, Class(i, j)) :: PassesAt(c, top)
    }

    // tlsf_check: it returns 0 if and only if the bitmaps tell which lists have blocks, and
    // every listed block is free, of the size of its list and apart from other free blocks.
    method Check(top: bool) returns (status: int)
      requires Inspectable()
      ensures status <= 0 && (status == 0 <==> AllPass(FL_INDEX_COUNT, 0, top))
    {
      status := 0;
      RowPassed(0, top);
      for i := 0 to FL_INDEX_COUNT
        invariant status <= 0 && (status == 0 <==> AllPass(i, 0, top))
      {
        for j := 0 to SL_INDEX_COUNT
          invariant status <= 0 && (status == 0 <==> AllPass(i, j, top))
        {
          var flMap := if i < 32 then Bit(flBitmap, i) else top;
          var s := CheckHead(i, j, flMap);
          PassesOn(i, j, top);
          status := status + s;
        }
        RowPassed(i, top);
      }
    }

    lemma PassesOn(i: int, j: int, top: bool)
      requires Inspectable() && ValidClass(Class(i, j))
      ensures AllPass(i, j + 1, top) <==> AllPass(i, j, top) && PassesAt(Class(i, j), top)
    {
      var here := Class(i, j);
      assert forall c | ValidClass(c) :: Before(c, Class(i, j + 1)) <==> Before(c, here) || c == here;
      assert AllPass(i, j + 1, top) ==> PassesAt(here, top);
    }

    lemma RowPassed(i: int, top: bool)
      requires Wf()
      ensures AllPass(i + 1, 0, top) <==> AllPass(i, SL_INDEX_COUNT, top)
      ensures AllPass(0, 0, top)
    {
      assert forall c | ValidClass(c) :: Before(c, Class(i + 1, 0)) <==> Before(c, Class(i, SL_INDEX_COUNT));
    }

    // Between any two calls all checks pass, whatever the undefined test gives.
    lemma ValidPasses(top: bool)
      requires Valid()
      ensures Inspectable() && AllPass(FL_INDEX_COUNT, 0, top)
    {
      ValidIsInspectable();
      NoTopRow(g, {});
      forall c | ValidClass(c)
        ensures PassesAt(c, top)
      {
        ListIsRight(c, top);
      }
    }

    lemma ListIsRight(c: Class, top: bool)
      requires Valid() && ValidClass(c) && TopRowEmpty(g.lists)
      ensures PassesAt(c, top)
    {
      assert ClassAt(Index(), g.lists, ctl, c);
      if g.lists[c] != [] {
        assert c.fl < 32 by {
          assert c.fl == 32 ==> EmptyAt(g.lists, Class(32, c.sl));
        }
        assert RowAt(Index(), c.fl);
        BitNonzero(slBitmap[c.fl], c.sl);
        forall k | 0 <= k < |g.lists[c]|
          ensures EntryPasses(c, k)
        {
          EntryIsRight(c, k);
        }
      }
    }

    lemma EntryIsRight(c: Class, k: int)
      requires Valid() && c in g.lists && 0 <= k < |g.lists[c]|
      ensures EntryPasses(c, k)
    {
      var b := g.lists[c][k];
      assert EntryAt(g, {}, c, k) && ShapedAt(g, b) && ChainedAt(g, b) && FlagAt(g, b) && CoalescedAt(g, b);
      assert CoalescedAt(g, Next(g, b));
    }

    // ---------------------------------------------------------------- walking a pool

    // tlsf_walk_pool, with a walker that notes what it is told. Flags and lists may be wrong.
    method WalkPool(pool: nat) returns (visits: seq<Visit>)
      requires Readable() && pool - 8 in g.pools
      ensures PooledAt(g, pool - 8) && Tells(g, Walk(g, pool - 8), visits)
    {
      assert PooledAt(g, pool - 8);
      ReadTiled(pool - 8);
      visits := [];
      var block: nat := pool - 8;
      ghost var walked: seq<int> := [];
      var size := BlockSize(block, g.blocks[block]);
      while size != 0
        invariant Walking(g, pool - 8, walked, visits, block) && size == g.blocks[block].size
        decreases g.limit - block
      {
        WalkStep(g, block);
        WalkOn(g, pool - 8, walked, visits, block);
        ReadTiled(block);
        ReadTiled(Next(g, block));
        var free := BlockIsFree(block, g.blocks[block]);
        visits := visits + [Visit(block + BLOCK_START_OFFSET, size, !free)];
        walked := walked + [block];
        block := BlockNext(block, g.blocks[block]);
        size := BlockSize(block, g.blocks[block]);
      }
    }

    // tlsf_check_pool: the same walk with integrity_walker. It returns 0 if and only if the
    // prev-free bit of each block but the sentinel tells whether the block in front is free.
    method CheckPool(pool: nat) returns (status: int)
      requires Readable() && pool - 8 in g.pools
      ensures PooledAt(g, pool - 8) && status <= 0 && (status == 0 <==> PrevTold(g, Walk(g, pool - 8)))
    {
      assert PooledAt(g, pool - 8);
      ReadTiled(pool - 8);
      status := 0;
      var prevStatus := false;
      var block: nat := pool - 8;
      ghost var walked: seq<int> := [];
      var size := BlockSize(block, g.blocks[block]);
      while size != 0
        invariant WalkedSoFar(g, pool - 8, walked, block) && size == g.blocks[block].size
        invariant status <= 0 && (status == 0 <==> PrevTold(g, walked)) && prevStatus == LastFree(g, walked)
        decreases g.limit - block
      {
        WalkFurther(g, pool - 8, walked, block);
        ReadTiled(block);
        ReadTiled(Next(g, block));
        var thisPrevStatus := BlockIsPrevFree(block, g.blocks[block]);
        var thisStatus := BlockIsFree(block, g.blocks[block]);
        var thisSize := BlockSize(block, g.blocks[block]);
        if prevStatus != thisPrevStatus { status := status - 1; }
        if size != thisSize { status := status - 1; }
        prevStatus := thisStatus;
        walked := walked + [block];
        block := BlockNext(block, g.blocks[block]);
        size := BlockSize(block, g.blocks[block]);
      }
      assert walked == Walk(g, pool - 8);
    }
  }
}
