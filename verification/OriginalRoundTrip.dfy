/**
 free_ex undoes malloc_ex (tlsf_ori.c:513-611): the heap is again what it was, the order of
 the lists included, and so are the bitmaps.
 */
module OriginalRoundTrip {
  import opened Bits
  import opened SizeClasses
  import opened Heaps
  import opened HeapSteps
  import opened HeapOps
  import opened HeapFrames
  import opened Original
  import opened OriginalIndex
  import opened OriginalLists
  import opened OriginalHeap
  import opened OriginalCalls

  // Block b heads its list.
  ghost predicate Heads(g: Heap, b: int) {
    && b in g.blocks && ListAt(g, b) in g.lists && g.lists[ListAt(g, b)] != [] && g.lists[ListAt(g, b)][0] == b
  }

  // The block that malloc_ex chooses heads its list.
  lemma ChosenHeads(x: Bitmaps, g: Heap, n: nat)
    requires Sized(x) && Whole(g) && StartsClass(n) && Chosen(x, g, n) != NULL
    ensures CanTake(g, Chosen(x, g, n), n) && Heads(g, Chosen(x, g, n))
  {
    ChosenFits(x, g, n);
    var c := Find(x, ListOf(n)).list;
    assert PlaceAt(g, {}, c, 0);
  }

  // What is known of a free block b and the block nx behind it.
  ghost predicate FreeAt(g: Heap, b: int, nx: int) {
    && b in g.blocks && nx in g.blocks && nx == Next(g, b) && b < nx && g.blocks[b].free && !g.blocks[b].prevFree
    && !g.blocks[nx].free && g.blocks[nx].prevFree && g.blocks[nx].prev == b
  }

  lemma FreeKnown(g: Heap, b: int)
    requires Settled(g) && b in g.blocks && g.blocks[b].free
    ensures FreeAt(g, b, Next(g, b))
  {
    assert SizedAt(g, b) && ChainedAt(g, b) && FlagAt(g, b) && CoalescedAt(g, b);
    assert CoalescedAt(g, Next(g, b));
  }

  // The heap g with b out of its list and the block behind told anything.
  ghost predicate Waiting(g: Heap, v: Heap, b: int, nx: int) {
    && FreeAt(g, b, nx) && ListAt(g, b) in g.lists && nx in v.blocks
    && v == OutOf(g, b).(blocks := g.blocks[nx := g.blocks[nx].(prevFree := v.blocks[nx].prevFree)])
  }

  // The last stores of free_ex then lead back to g.
  lemma AnnouncedBack(g: Heap, v: Heap, b: int, nx: int)
    requires Waiting(g, v, b, nx) && Heads(g, b) && Merged(v, b)
    ensures Announce(v, b) == g
  {
    ListThere(v, b);
    var c := ListAt(g, b);
    assert [b] + Without(g.lists[c], b) == g.lists[c];
    assert Into(v, b).lists == g.lists;
    assert Mark(Into(v, b), b, true).blocks == g.blocks;
  }

  lemma NothingForgotten(g: Heap, b: int)
    requires DataWithin(g, b, 0) && DataOk(g)
    ensures Forget(g, b, 0) == g
  {
    forall a | a in g.user
      ensures g.user[a].owner != b
    {
      assert DataAt(g, a);
    }
    assert Forget(g, b, 0).user == g.user;
  }

  // Taking the listed tail back in.
  lemma TailBack(g: Heap, h: Heap, b: int, nx: int, n: nat, r: int)
    requires Taken(g, h, b, nx, n) && FreeAt(g, b, nx) && g.blocks[b].size >= n + HEADER_SIZE && r == Rest(b, n) && r !in g.blocks
    requires h == g.(blocks := h.blocks, lists := h.lists) && ListAt(g, b) in g.lists
    requires r in h.blocks && ListAt(h, r) in OutOf(g, b).lists
    requires h.lists == OutOf(g, b).lists[ListAt(h, r) := [r] + OutOf(g, b).lists[ListAt(h, r)]]
    ensures var s := h.(blocks := h.blocks[b := h.blocks[b].(free := true)]);
            && b in s.blocks && Next(s, b) == r && s.blocks[r].free && ListAt(s, r) in s.lists
            && Next(OutOf(s, r), r) in OutOf(s, r).blocks && Absorb(OutOf(s, r), b) == OutOf(g, b)
  {
    var s := h.(blocks := h.blocks[b := h.blocks[b].(free := true)]);
    assert Without([r] + OutOf(g, b).lists[ListAt(h, r)], r) == OutOf(g, b).lists[ListAt(h, r)];
    assert OutOf(s, r).lists == OutOf(g, b).lists;
    assert Absorb(OutOf(s, r), b).blocks == g.blocks;
  }

  // What malloc_ex makes of the lists and of the client's data.
  lemma TakenLists(g: Heap, b: int, n: nat)
    requires CanTake(g, b, n)
    ensures ListAt(g, b) in g.lists
    ensures var h, r := MallocEx(g, b, n), Rest(b, n);
            && h == g.(blocks := h.blocks, lists := h.lists)
            && (g.blocks[b].size < n + HEADER_SIZE ==> h.lists == OutOf(g, b).lists)
            && (g.blocks[b].size >= n + HEADER_SIZE ==>
                  r in h.blocks && ListAt(h, r) in OutOf(g, b).lists
                  && h.lists == OutOf(g, b).lists[ListAt(h, r) := [r] + OutOf(g, b).lists[ListAt(h, r)]])
  {
    TakenOut(g, b);
    if g.blocks[b].size - n >= HEADER_SIZE {
      CutUsed(OutOf(g, b), b, n);
      CutListed(g, b, n);
    } else {
      TakenWhole(g, b);
    }
  }

  // free_ex of a block whose client has stored nothing and behind no free block.
  lemma FreedUnmerged(h: Heap, b: int, s: Heap, v: Heap)
    requires Whole(h) && Live(h, b) && Forget(h, b, 0) == h && !h.blocks[b].prevFree
    requires s == h.(blocks := h.blocks[b := h.blocks[b].(free := true)])
    requires Freeing(s, b) && NextKnown(s, b) ==> v == Forward(s, b)
    ensures Freeing(s, b) && NextKnown(s, b) && Merged(v, b) && FreeEx(h, b) == Announce(v, b)
  {
    StartFreeing(h, b);
    assert SetFree(h, b) == s;
  }

  lemma MallocThenFree(g: Heap, b: int, n: nat)
    requires CanTake(g, b, n) && Heads(g, b)
    ensures FreeEx(MallocEx(g, b, n), b) == g
  {
    FreeKnown(g, b);
    TakenBlocks(g, b, n);
    TakenLists(g, b, n);
    NoData(g, b);
    NothingForgotten(MallocEx(g, b, n), b);
    if g.blocks[b].size >= n + HEADER_SIZE {
      CutBack(g, MallocEx(g, b, n), b, Next(g, b), n);
    } else {
      WholeBack(g, MallocEx(g, b, n), b, Next(g, b), n);
    }
  }

  // h is what malloc_ex leaves when it takes n bytes of block b.
  ghost predicate TakenFrom(g: Heap, h: Heap, b: int, nx: int, n: nat) {
    && CanTake(g, b, n) && Heads(g, b) && FreeAt(g, b, nx) && Taken(g, h, b, nx, n)
    && Whole(h) && Live(h, b) && Forget(h, b, 0) == h && h == g.(blocks := h.blocks, lists := h.lists)
  }

  lemma CutBack(g: Heap, h: Heap, b: int, nx: int, n: nat)
    requires TakenFrom(g, h, b, nx, n) && g.blocks[b].size >= n + HEADER_SIZE && Rest(b, n) !in g.blocks
    requires var r := Rest(b, n);
             && r in h.blocks && ListAt(h, r) in OutOf(g, b).lists
             && h.lists == OutOf(g, b).lists[ListAt(h, r) := [r] + OutOf(g, b).lists[ListAt(h, r)]]
    ensures FreeEx(h, b) == g
  {
    TailBack(g, h, b, nx, n, Rest(b, n));
    var s := h.(blocks := h.blocks[b := h.blocks[b].(free := true)]);
    FreedUnmerged(h, b, s, OutOf(g, b));
    assert Waiting(g, OutOf(g, b), b, nx);
    AnnouncedBack(g, OutOf(g, b), b, nx);
  }

  lemma WholeBack(g: Heap, h: Heap, b: int, nx: int, n: nat)
    requires TakenFrom(g, h, b, nx, n) && g.blocks[b].size < n + HEADER_SIZE && h.lists == OutOf(g, b).lists
    ensures FreeEx(h, b) == g
  {
    var s := h.(blocks := h.blocks[b := h.blocks[b].(free := true)]);
    assert s.blocks == g.blocks[nx := g.blocks[nx].(prevFree := false)];
    FreedUnmerged(h, b, s, s);
    assert Waiting(g, s, b, nx);
    AnnouncedBack(g, s, b, nx);
  }

  // The block that malloc_ex returned, freed right away.
  lemma ChosenThenFree(x: Bitmaps, g: Heap, n: nat)
    requires Sized(x) && Whole(g) && StartsClass(n) && Chosen(x, g, n) != NULL
    ensures CanTake(g, Chosen(x, g, n), n) && FreeEx(MallocEx(g, Chosen(x, g, n), n), Chosen(x, g, n)) == g
  {
    ChosenHeads(x, g, n);
    MallocThenFree(g, Chosen(x, g, n), n);
  }

  // ---------------------------------------------------------------- the bitmaps

  // Where index and lists agree, the lists determine the bitmaps.
  lemma BitsDetermined(x: Bitmaps, y: Bitmaps, lists: map<Class, seq<int>>)
    requires Right(x, lists) && Right(y, lists)
    ensures x == y
  {
    forall f | 0 <= f < REAL_FLI
      ensures x.sl[f] == y.sl[f]
    {
      RowDetermined(x, y, lists, f);
    }
    assert x.sl == y.sl;
    forall f | 0 <= f < 32
      ensures Bit(x.fl, f) == Bit(y.fl, f)
    {
      assert RowBit(x, f) && RowBit(y, f);
    }
    SameBits(x.fl, y.fl);
  }

  lemma RowDetermined(x: Bitmaps, y: Bitmaps, lists: map<Class, seq<int>>, f: int)
    requires Right(x, lists) && Right(y, lists) && 0 <= f < REAL_FLI
    ensures x.sl[f] == y.sl[f]
  {
    forall j | 0 <= j < 32
      ensures Bit(x.sl[f], j) == Bit(y.sl[f], j)
    {
      assert ListBit(x, lists, Class(f, j)) && ListBit(y, lists, Class(f, j));
    }
    SameBits(x.sl[f], y.sl[f]);
  }

  lemma MergedBack(g: Heap, b: int, n: nat)
    requires CanTake(g, b, n) && Heads(g, b)
    ensures var h := MallocEx(g, b, n); CanMerge(h, b) && MergedSize(h, b) == g.blocks[b].size
  {
    FreeKnown(g, b);
    TakenBlocks(g, b, n);
  }

  // The bitmaps are restored, too, if index and lists agree before and in between.
  lemma BitsBack(x: Bitmaps, g: Heap, b: int, n: nat)
    requires Tuned(x, g) && CanTake(g, b, n) && Heads(g, b) && NarrowTail(g.blocks[b].size, n)
    ensures FreeBits(TakeBits(x, g, b, n), MallocEx(g, b, n), b) == x
  {
    var y, h := TakeBits(x, g, b, n), MallocEx(g, b, n);
    TakeTuned(x, g, b, n);
    MergedBack(g, b, n);
    ListIsNarrow(x, g, b);
    FreeTuned(y, h, b, g.blocks[b].size);
    MallocThenFree(g, b, n);
    BitsDetermined(x, FreeBits(y, h, b), g.lists);
  }

  lemma ListIsNarrow(x: Bitmaps, g: Heap, b: int)
    requires Tuned(x, g) && Heads(g, b)
    ensures NarrowSize(g.blocks[b].size)
  {
  }
}
