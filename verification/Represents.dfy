/**
 Memory and index together represent a heap. Each of the store sequences of tlsf.c turns
 the representation of one heap into that of the heap one elementary step further.
 */
module Represents {
  import opened Bits
  import opened SizeClasses
  import opened Memory
  import opened Heaps
  import opened HeapSteps
  import opened HeapOps
  import opened HeapCalls
  import opened Layout
  import opened FreeIndex
  import opened Foreign

  // ---------------------------------------------------------------- memory and index together

  // Memory m and index x describe the heap g, in which the blocks of pend are in no list
  // and the trailers of the blocks in xs may be missing.
  ghost predicate State(m: map<int, nat>, x: Index, g: Heap, xs: set<int>, pend: set<int>) {
    Sound(g, pend) && Encodes(m, g, xs) && Indexed(x, g.lists, g.ctl) && Spared(m, g)
  }

  // What control_construct leaves describes a heap without pools.
  lemma EmptyState(m: map<int, nat>, m': map<int, nat>, x: Index, ctl: nat, limit: int)
    requires Spans(m, limit) && ctl % ALIGN_SIZE == 0 && 0 < ctl && ctl + BLOCK_HEADER_SIZE <= limit
    requires m' == m[ctl + 24 := ctl][ctl + 32 := ctl]
    requires Sized(x) && x.flBitmap == 0 && (forall f | 0 <= f < FL_INDEX_COUNT :: x.slBitmap[f] == 0)
    requires forall i | 0 <= i < |x.heads| :: x.heads[i] == ctl
    ensures Inv(EmptyHeap(ctl, limit, m)) && State(m', x, EmptyHeap(ctl, limit, m), {}, {})
  {
    var g := EmptyHeap(ctl, limit, m);
    EmptyHeapInv(ctl, limit, m);
    NoneIndexed(x, g.lists, ctl);
    forall a | a in g.foreign
      ensures ForeignAt(m', g, a)
    {
    }
  }

  // What block_insert finds when it inserts a pending block.
  lemma InsertReady(m: map<int, nat>, x: Index, g: Heap, b: int, pend: set<int>)
    requires State(m, x, g, {}, pend) && b in g.blocks && g.blocks[b].free
    ensures var c := ClassOf(g.blocks[b].size);
            && g.blocks[b].size < POOL_LIMIT && ValidClass(c) && c.fl < 32 && c in g.lists
            && x.heads[Slot(c)] == HeadOf(g.lists[c], g.ctl)
            && x.heads[Slot(c)] > 0 && x.heads[Slot(c)] + 32 in m
            && 0 < b && b % ALIGN_SIZE == 0 && b + 24 in m && b + 32 in m
  {
    SizeInRange(g, b);
    var c := ClassOf(g.blocks[b].size);
    assert ClassAt(x, g.lists, g.ctl, c);
    HeadHolds(g, pend, c);
    HolderMapped(m, g, HeadOf(g.lists[c], g.ctl));
    HolderMapped(m, g, b);
  }

  // The stores of insert_free_block: b comes in front of the block cur.
  function LinkedIn(m: map<int, nat>, b: nat, cur: nat, ctl: nat): map<int, nat> {
    m[b + 24 := cur][b + 32 := ctl][cur + 32 := b]
  }

  lemma InsertState(m: map<int, nat>, m': map<int, nat>, x: Index, g: Heap, b: int, pend: set<int>)
    requires State(m, x, g, {}, pend) && b in pend && b in g.blocks && g.blocks[b].free && 0 <= g.ctl
    requires var c := ClassOf(g.blocks[b].size);
             ValidClass(c) && c.fl < 32 && c in g.lists && x.heads[Slot(c)] >= 0 && 0 <= b && m' == LinkedIn(m, b, x.heads[Slot(c)], g.ctl)
    ensures State(m', Inserted(x, ClassOf(g.blocks[b].size), b), Insert(g, b), {}, pend - {b})
  {
    assert ClassAt(x, g.lists, g.ctl, ClassOf(g.blocks[b].size));
    InsertEncodes(m, m', g, b, pend);
    InsertSound(g, b, pend);
    InsertIndexed(x, g.lists, g.ctl, ClassOf(g.blocks[b].size), b);
    HeadHolds(g, pend, ClassOf(g.blocks[b].size));
    LinkedInSpares(m, g, Insert(g, b), b, x.heads[Slot(ClassOf(g.blocks[b].size))]);
  }

  // Links are the allocator's words.
  lemma LinkClaims(g: Heap, x: int)
    requires Tiled(g) && LinkHolder(g, x)
    ensures Claimed(g, x + 24) && Claimed(g, x + 32)
  {
    if x != g.ctl {
      BlockClaims(g, x);
      assert ShapedAt(g, x);
    }
  }

  lemma LinkedInSpares(m: map<int, nat>, g: Heap, g': Heap, b: nat, cur: nat)
    requires Spared(m, g) && SameClaims(g, g') && Tiled(g) && LinkHolder(g, b) && LinkHolder(g, cur) && 0 <= g.ctl
    ensures Spared(LinkedIn(m, b, cur, g.ctl), g')
  {
    LinkClaims(g, b);
    LinkClaims(g, cur);
    SparedBy(m, LinkedIn(m, b, cur, g.ctl), g, g', {b + 24, b + 32, cur + 32});
  }

  // What block_remove finds when it removes the listed block b.
  ghost predicate Removable(m: map<int, nat>, g: Heap, b: int, i: int)
    requires b in g.blocks
  {
    var c := ClassOf(g.blocks[b].size);
    && g.blocks[b].size < POOL_LIMIT && ValidClass(c) && c.fl < 32 && c in g.lists
    && 0 <= i < |g.lists[c]| && g.lists[c][i] == b
    && 0 < b && b + 24 in m && b + 32 in m && 0 < m[b + 24] && 0 < m[b + 32]
    && m[b + 24] == NextIn(g.lists[c], i, g.ctl) && m[b + 32] == PrevIn(g.lists[c], i, g.ctl)
    && m[b + 24] + 32 in m && m[b + 32] + 24 in m
  }

  // The stores of remove_free_block: b's neighbours in its list now name each other.
  function Unlinked(m: map<int, nat>, b: int): map<int, nat>
    requires b + 24 in m && b + 32 in m
  {
    m[m[b + 24] + 32 := m[b + 32]][m[b + 32] + 24 := m[b + 24]]
  }

  lemma RemoveReady(m: map<int, nat>, x: Index, g: Heap, b: int, pend: set<int>) returns (i: nat)
    requires State(m, x, g, {}, pend) && b in g.blocks && g.blocks[b].free && b !in pend
    ensures Removable(m, g, b, i)
  {
    SizeInRange(g, b);
    var c := ClassOf(g.blocks[b].size);
    assert ListedAt(g, pend, b) && DistinctAt(g, c);
    i :| i < |g.lists[c]| && g.lists[c][i] == b;
    assert LinkAt(m, g, c, i);
    NeighboursHold(g, pend, c, i);
    HolderMapped(m, g, b);
    HolderMapped(m, g, m[b + 24]);
    HolderMapped(m, g, m[b + 32]);
  }

  lemma RemoveState(m: map<int, nat>, m': map<int, nat>, x: Index, g: Heap, b: int, i: int, pend: set<int>)
    requires State(m, x, g, {}, pend) && b in g.blocks && g.blocks[b].free && b !in pend && Removable(m, g, b, i)
    requires m' == Unlinked(m, b)
    ensures State(m', Removed(x, ClassOf(g.blocks[b].size), b, m[b + 24], g.ctl), Remove(g, b), {}, pend + {b})
  {
    var c := ClassOf(g.blocks[b].size);
    assert DistinctAt(g, c);
    CtlNotListed(g, pend, c);
    RemoveEncodes(m, m', g, c, i, pend);
    RemoveSound(g, b, pend);
    RemoveIndexed(x, g.lists, g.ctl, c, i);
    NeighboursHold(g, pend, c, i);
    UnlinkedSpares(m, g, Remove(g, b), b);
  }

  lemma UnlinkedSpares(m: map<int, nat>, g: Heap, g': Heap, b: int)
    requires Spared(m, g) && SameClaims(g, g') && Tiled(g)
    requires b + 24 in m && b + 32 in m && LinkHolder(g, m[b + 24]) && LinkHolder(g, m[b + 32])
    ensures Spared(Unlinked(m, b), g')
  {
    LinkClaims(g, m[b + 24]);
    LinkClaims(g, m[b + 32]);
    SparedBy(m, Unlinked(m, b), g, g', {m[b + 24] + 32, m[b + 32] + 24});
  }

  lemma CtlNotListed(g: Heap, pend: set<int>, c: Class)
    requires Sound(g, pend) && c in g.lists
    ensures g.ctl !in g.lists[c]
  {
    forall i | 0 <= i < |g.lists[c]|
      ensures g.lists[c][i] != g.ctl
    {
      EntryIsNotCtl(g, pend, c, i);
    }
  }

  // A block's header reads as the block.
  lemma StateReads(m: map<int, nat>, x: Index, g: Heap, xs: set<int>, pend: set<int>, b: int)
    requires State(m, x, g, xs, pend) && b in g.blocks
    ensures 0 <= b && b in m && b + 8 in m && b + 16 in m
    ensures m[b + 8] == Encode(g.blocks[b]) && m[b + 16] == g.ctl && g.blocks[b].size % 4 == 0
    ensures g.blocks[b].size > 0 ==> b + 24 in m && b + 32 in m && Next(g, b) in m && ChainedAt(g, b)
  {
    assert ShapedAt(g, b);
    HeaderReads(m, g, b);
    assert ChainedAt(g, b);
  }

  // ---------------------------------------------------------------- steps that leave the index alone

  lemma SplitState(m: map<int, nat>, m': map<int, nat>, x: Index, g: Heap, b: int, n: nat, pf: bool, pend: set<int>)
    requires State(m, x, g, {}, pend) && SplitOk(g, b, n) && NoUserAbove(g, b, n) && (b in pend || !g.blocks[b].free)
    requires SplitWords(m, m', g, b, n, pf)
    ensures State(m', x, Split(g, b, n, pf), {b}, pend + {Rest(b, n)})
  {
    WeakenTrailed(m, g, {}, {b});
    SplitSound(g, b, n, pf, pend);
    SplitEncodes(m, m', g, b, n, pf, pend);
    SplitSpares(m, m', g, b, n, pf);
  }

  lemma SplitSpares(m: map<int, nat>, m': map<int, nat>, g: Heap, b: int, n: nat, pf: bool)
    requires Spared(m, g) && Tiled(g) && CutOk(g, b, n) && SplitWords(m, m', g, b, n, pf)
    ensures Spared(m', Split(g, b, n, pf))
  {
    BlockClaims(g, b);
    var r, nx := Rest(b, n), Next(g, b);
    assert Claimed(g, r + 8) && Claimed(g, r + 16);
    SparedBy(m, m', g, Split(g, b, n, pf), {b + 8, r + 8, r + 16, nx, nx + 8});
  }

  lemma WeakenTrailed(m: map<int, nat>, g: Heap, xs: set<int>, ys: set<int>)
    requires Trailed(m, g, xs) && xs <= ys
    ensures Trailed(m, g, ys)
  {
    forall b | b in g.blocks && b !in ys
      ensures TrailerAt(m, g, b)
    {
      assert TrailerAt(m, g, b);
    }
  }

  // A used block needs no trailer.
  lemma UsedTrailed(m: map<int, nat>, x: Index, g: Heap, b: int, pend: set<int>)
    requires State(m, x, g, {b}, pend) && b in g.blocks && !g.blocks[b].free
    ensures State(m, x, g, {}, pend)
  {
    forall y | y in g.blocks
      ensures TrailerAt(m, g, y)
    {
      assert y != b ==> TrailerAt(m, g, y);
    }
  }

  lemma AbsorbState(m: map<int, nat>, m': map<int, nat>, x: Index, g: Heap, p: int, pend: set<int>)
    requires State(m, x, g, {}, pend) && AbsorbOk(g, p) && NoUserAbove(g, Next(g, p), 0) && AbsorbWords(m, m', g, p)
    requires p in pend || !g.blocks[p].free
    requires Next(g, p) in pend || !g.blocks[Next(g, p)].free
    ensures State(m', x, Absorb(g, p), {}, pend - {Next(g, p)})
  {
    AbsorbSound(g, p, pend);
    AbsorbEncodes(m, m', g, p, pend);
    BlockClaims(g, p);
    BlockClaims(g, Next(g, p));
    SparedBy(m, m', g, Absorb(g, p), {p + 8, Next(g, Next(g, p))});
  }

  lemma MarkState(m: map<int, nat>, m': map<int, nat>, x: Index, g: Heap, b: int, free: bool, pend: set<int>)
    requires State(m, x, g, {}, pend) && MarkOk(g, b) && MarkWords(m, m', g, b, free)
    requires b in pend || !g.blocks[b].free
    requires free ==> NoUserAbove(g, b, 0)
    ensures State(m', x, Mark(g, b, free), {}, if free then pend + {b} else pend - {b})
  {
    WeakenTrailed(m, g, {}, {b});
    MarkSound(g, b, free, pend);
    MarkEncodes(m, m', g, b, free, pend);
    BlockClaims(g, b);
    SparedBy(m, m', g, Mark(g, b, free), {b + 8, Next(g, b), Next(g, b) + 8});
  }

  lemma LinkNextState(m: map<int, nat>, m': map<int, nat>, x: Index, g: Heap, b: int, pend: set<int>)
    requires State(m, x, g, {b}, pend) && MarkOk(g, b) && b in pend && g.blocks[b].free && m' == m[Next(g, b) := b]
    ensures State(m', x, g, {}, pend)
  {
    LinkNextEncodes(m, m', g, b, pend);
    BlockClaims(g, b);
    SparedBy(m, m', g, g, {Next(g, b)});
  }

  // A block that is no pool's first may be told that the block in front of it is free.
  lemma SetPrevFreeState(m: map<int, nat>, m': map<int, nat>, x: Index, g: Heap, b: int, v: bool, xs: set<int>, pend: set<int>)
    requires State(m, x, g, xs, pend) && b in g.blocks && b !in g.pools
    requires m' == m[b + 8 := Encode(SetPrevFree(g, b, v).blocks[b])]
    ensures State(m', x, SetPrevFree(g, b, v), xs, pend)
  {
    SetPrevFreeSound(g, b, v, pend);
    SetPrevFreeEncodes(m, m', g, b, v, xs, pend);
    BlockClaims(g, b);
    SparedBy(m, m', g, SetPrevFree(g, b, v), {b + 8});
  }

  // What block_split reads and writes is mapped, and its words are where it looks for them.
  lemma SplitMapped(m: map<int, nat>, x: Index, g: Heap, b: int, n: nat, pend: set<int>)
    requires State(m, x, g, {}, pend) && CutOk(g, b, n) && n % ALIGN_SIZE == 0
    ensures var r, nx := Rest(b, n), Next(g, b);
            && 0 <= b && r % ALIGN_SIZE == 0 && b + 8 in m && m[b + 8] == Encode(g.blocks[b])
            && b + 16 in m && m[b + 16] == g.ctl && 0 <= g.ctl
            && g.blocks[b].size % 4 == 0 && n % 4 == 0 && b + 16 < r + 8 < r + 16 < nx
            && r + 8 in m && r + 16 in m && nx in m
            && nx + 8 in m && m[nx + 8] == Encode(g.blocks[nx]) && g.blocks[nx].size % 4 == 0
  {
    HeaderReads(m, g, b);
    HeaderReads(m, g, Next(g, b));
    assert ShapedAt(g, b) && ShapedAt(g, Next(g, b));
    RestAligned(b, n);
    MultipleOf4(n);
  }

  // Whatever block s the word at the new header spelled before, block_split leaves what
  // the heap after the split says.
  lemma SplitStep(m: map<int, nat>, x: Index, g: Heap, b: int, n: nat, s: Block, pend: set<int>)
    requires State(m, x, g, {}, pend) && SplitOk(g, b, n) && NoUserAbove(g, b, n) && (b in pend || !g.blocks[b].free)
    requires 0 <= b && 0 <= g.ctl && s.size == g.blocks[b].size - (n + METADATA_SIZE)
    ensures State(SplitStores(m, b, Rest(b, n), g.blocks[b].(size := n), g.blocks[Next(g, b)], s, g.ctl), x,
                  Split(g, b, n, s.prevFree), {b}, pend + {Rest(b, n)})
  {
    var m' := SplitStores(m, b, Rest(b, n), g.blocks[b].(size := n), g.blocks[Next(g, b)], s, g.ctl);
    SplitStoresWords(m, g, b, n, s);
    SplitState(m, m', x, g, b, n, s.prevFree, pend);
  }

  lemma SplitStoresWords(m: map<int, nat>, g: Heap, b: int, n: nat, s: Block)
    requires CutOk(g, b, n) && 0 <= b && 0 <= g.ctl
    requires s.size == g.blocks[b].size - (n + METADATA_SIZE)
    ensures SplitWords(m, SplitStores(m, b, Rest(b, n), g.blocks[b].(size := n), g.blocks[Next(g, b)], s, g.ctl), g, b, n, s.prevFree)
  {
  }

  // What block_mark_as_free and block_mark_as_used need of memory.
  lemma MarkMapped(m: map<int, nat>, x: Index, g: Heap, b: int, xs: set<int>, pend: set<int>)
    requires State(m, x, g, xs, pend) && b in g.blocks && g.blocks[b].size > 0
    ensures MarkOk(g, b)
    ensures var nx := Next(g, b);
            && b + 8 in m && m[b + 8] == Encode(g.blocks[b]) && g.blocks[b].size % 4 == 0
            && nx in m && nx + 8 in m && m[nx + 8] == Encode(g.blocks[nx]) && g.blocks[nx].size % 4 == 0
  {
    assert ChainedAt(g, b);
    HeaderReads(m, g, b);
    HeaderReads(m, g, Next(g, b));
    assert ShapedAt(g, b) && ShapedAt(g, Next(g, b));
  }

  lemma MarkFreeStep(m: map<int, nat>, x: Index, g: Heap, b: int, pend: set<int>)
    requires State(m, x, g, {}, pend) && MarkOk(g, b) && NoUserAbove(g, b, 0) && (b in pend || !g.blocks[b].free)
    ensures State(FreeStores(m, b, g.blocks[b], g.blocks[Next(g, b)]), x, Mark(g, b, true), {}, pend + {b})
  {
    MarkState(m, FreeStores(m, b, g.blocks[b], g.blocks[Next(g, b)]), x, g, b, true, pend);
  }

  lemma MarkUsedStep(m: map<int, nat>, x: Index, g: Heap, b: int, pend: set<int>)
    requires State(m, x, g, {}, pend) && MarkOk(g, b) && (b in pend || !g.blocks[b].free)
    ensures State(UsedStores(m, b, g.blocks[b], g.blocks[Next(g, b)]), x, Mark(g, b, false), {}, pend - {b})
  {
    MarkState(m, UsedStores(m, b, g.blocks[b], g.blocks[Next(g, b)]), x, g, b, false, pend);
  }

  // What block_absorb needs of memory.
  lemma AbsorbMapped(m: map<int, nat>, x: Index, g: Heap, p: int, pend: set<int>)
    requires State(m, x, g, {}, pend) && AbsorbOk(g, p)
    ensures var q := Next(g, p);
            && 0 <= p && p + 8 in m && m[p + 8] == Encode(g.blocks[p]) && g.blocks[p].size % 4 == 0
            && q + 8 in m && m[q + 8] == Encode(g.blocks[q]) && g.blocks[q].size % 4 == 0 && Next(g, q) in m
            && p + METADATA_SIZE + (g.blocks[p].size + (g.blocks[q].size + METADATA_SIZE)) == Next(g, q)
  {
    HeaderReads(m, g, p);
    HeaderReads(m, g, Next(g, p));
    assert ShapedAt(g, p) && ShapedAt(g, Next(g, p));
  }

  lemma AbsorbStep(m: map<int, nat>, x: Index, g: Heap, p: int, pend: set<int>)
    requires State(m, x, g, {}, pend) && AbsorbOk(g, p) && NoUserAbove(g, Next(g, p), 0) && 0 <= p
    requires p in pend || !g.blocks[p].free
    requires Next(g, p) in pend || !g.blocks[Next(g, p)].free
    ensures State(AbsorbStores(m, p, g.blocks[p], g.blocks[Next(g, p)]), x, Absorb(g, p), {}, pend - {Next(g, p)})
  {
    AbsorbState(m, AbsorbStores(m, p, g.blocks[p], g.blocks[Next(g, p)]), x, g, p, pend);
  }

  // The word in front of a header whose prev-free bit is set names the free block there.
  lemma PrevMapped(m: map<int, nat>, x: Index, g: Heap, b: int, pend: set<int>)
    requires State(m, x, g, {}, pend) && FlagsOk(g, {}) && b in g.blocks && g.blocks[b].prevFree
    ensures b in m && m[b] == g.blocks[b].prev && 0 < m[b]
  {
    PrevOf(g, b);
    assert ShapedAt(g, g.blocks[b].prev);
    assert TrailerAt(m, g, g.blocks[b].prev);
  }

  lemma SetPrevFreeStep(m: map<int, nat>, x: Index, g: Heap, b: int, v: bool, xs: set<int>, pend: set<int>)
    requires State(m, x, g, xs, pend) && b in g.blocks && b !in g.pools
    ensures State(PutBlock(m, b, g.blocks[b].(prevFree := v)), x, SetPrevFree(g, b, v), xs, pend)
  {
    SetPrevFreeState(m, PutBlock(m, b, g.blocks[b].(prevFree := v)), x, g, b, v, xs, pend);
  }

  // A new block is not the first of a pool, and its prev-free bit is all that the words
  // it was made from decide.
  lemma SplitThenSet(g: Heap, b: int, n: nat, pf: bool, v: bool)
    requires Tiled(g) && SplitOk(g, b, n)
    ensures var r, g1 := Rest(b, n), Split(g, b, n, pf);
            && r in g1.blocks && r !in g1.pools && SetPrevFree(g1, r, v) == Split(g, b, n, v)
  {
    var r, g1 := Rest(b, n), Split(g, b, n, pf);
    RestIsNew(g, b, n);
    assert r in g.pools ==> PooledAt(g, r);
    assert SetPrevFree(g1, r, v).blocks == Split(g, b, n, v).blocks;
  }

  // ---------------------------------------------------------------- what a search finds

  lemma NoTopRow(g: Heap, pend: set<int>)
    requires Sound(g, pend)
    ensures TopRowEmpty(g.lists)
  {
    forall j | 0 <= j < SL_INDEX_COUNT
      ensures EmptyAt(g.lists, Class(32, j))
    {
      if Class(32, j) in g.lists && g.lists[Class(32, j)] != [] {
        EntryHolds(g, pend, Class(32, j), 0);
        SizeInRange(g, g.lists[Class(32, j)][0]);
      }
    }
  }

  // The head of a list that a scan has found.
  lemma FoundHead(m: map<int, nat>, x: Index, g: Heap, pend: set<int>, fl: int, sl: int, c: Class)
    requires State(m, x, g, {}, pend) && 0 <= fl && 0 <= sl && Scan(g.lists, fl, sl) == At(c)
    ensures ValidClass(c) && c in g.lists && g.lists[c] != [] && x.heads[Slot(c)] == g.lists[c][0] && 0 < g.lists[c][0]
    ensures var b := g.lists[c][0]; b in g.blocks && g.blocks[b].free && b !in pend && ClassOf(g.blocks[b].size) == c
  {
    ScanFirst(g.lists, fl, sl, Class(fl, sl));
    assert ClassAt(x, g.lists, g.ctl, c);
    EntryHolds(g, pend, c, 0);
    assert ShapedAt(g, g.lists[c][0]);
  }

  lemma DropUserState(m: map<int, nat>, x: Index, g: Heap, b: int, n: int)
    requires State(m, x, g, {}, {}) && Inv(g) && Inv(DropUser(g, b, n))
    ensures State(m, x, DropUser(g, b, n), {}, {})
  {
    var g' := DropUser(g, b, n);
    SameEncoding(m, g, g');
    forall a | a in g'.user
      ensures StoredAt(m, g', a)
    {
      assert StoredAt(m, g, a);
    }
    SparedBy(m, m, g, g', {});
  }

  // ---------------------------------------------------------------- copying a payload

  // The payload of live block b fits into that of live block d.
  ghost predicate CanCopy(g: Heap, b: int, d: int) {
    Live(g, b) && Live(g, d) && b != d && g.blocks[b].size <= g.blocks[d].size
  }

  function PayloadWords(size: nat): nat {
    size / ALIGN_SIZE
  }

  lemma CopyFits(m: map<int, nat>, g: Heap, b: int, d: int)
    requires Spans(m, g.limit) && Tiled(g) && CanCopy(g, b, d)
    ensures var n := PayloadWords(g.blocks[b].size);
            && ALIGN_SIZE * n == g.blocks[b].size
            && CopyOk(m, d + BLOCK_START_OFFSET, b + BLOCK_START_OFFSET, n)
  {
    assert ShapedAt(g, b) && ShapedAt(g, d) && Apart(g, b, d);
    var n, to, from := PayloadWords(g.blocks[b].size), d + BLOCK_START_OFFSET, b + BLOCK_START_OFFSET;
    forall i | 0 <= i < n
      ensures WordAt(to, i) in m && WordAt(from, i) in m
    {
      WordIsAligned(to, i);
      WordIsAligned(from, i);
    }
  }

  lemma WordIsAligned(a: int, i: int)
    requires a % ALIGN_SIZE == 0
    ensures WordAt(a, i) % ALIGN_SIZE == 0
  {
  }

  // Memory after b's payload has been copied to the start of d's.
  ghost function CopyMem(m: map<int, nat>, g: Heap, b: int, d: int): (m': map<int, nat>)
    requires Spans(m, g.limit) && Tiled(g) && CanCopy(g, b, d)
    ensures m'.Keys == m.Keys
  {
    CopyFits(m, g, b, d);
    Copied(m, d + BLOCK_START_OFFSET, b + BLOCK_START_OFFSET, PayloadWords(g.blocks[b].size))
  }

  lemma CopyMisses(m: map<int, nat>, g: Heap, b: int, d: int, a: int)
    requires Spans(m, g.limit) && Tiled(g) && CanCopy(g, b, d) && a in m
    requires a < d + BLOCK_START_OFFSET || d + BLOCK_START_OFFSET + g.blocks[d].size <= a
    ensures CopyMem(m, g, b, d)[a] == m[a]
  {
    CopyFits(m, g, b, d);
    CopiedOutside(m, d + BLOCK_START_OFFSET, b + BLOCK_START_OFFSET, PayloadWords(g.blocks[b].size), a);
  }

  lemma CopyHits(m: map<int, nat>, g: Heap, b: int, d: int, a: int)
    requires Spans(m, g.limit) && Tiled(g) && CanCopy(g, b, d) && a % ALIGN_SIZE == 0
    requires b + BLOCK_START_OFFSET <= a < b + BLOCK_START_OFFSET + g.blocks[b].size
    ensures a in m && a + (d - b) in m && CopyMem(m, g, b, d)[a + (d - b)] == m[a]
  {
    CopyFits(m, g, b, d);
    assert ShapedAt(g, b);
    HitWord(m, d + BLOCK_START_OFFSET, b + BLOCK_START_OFFSET, PayloadWords(g.blocks[b].size), a);
  }

  lemma HitWord(m: map<int, nat>, to: int, from: int, n: nat, a: int)
    requires CopyOk(m, to, from, n) && from % ALIGN_SIZE == 0 && a % ALIGN_SIZE == 0 && from <= a < from + ALIGN_SIZE * n
    ensures a in m && a + (to - from) in m && Copied(m, to, from, n)[a + (to - from)] == m[a]
  {
    var i := (a - from) / ALIGN_SIZE;
    assert WordAt(from, i) == a && WordAt(to, i) == a + (to - from);
    CopiedTo(m, to, from, n, i);
  }

  lemma CopyHeaders(m: map<int, nat>, g: Heap, b: int, d: int)
    requires Spans(m, g.limit) && Tiled(g) && CanCopy(g, b, d) && Headed(m, g) && Trailed(m, g, {})
    ensures Headed(CopyMem(m, g, b, d), g) && Trailed(CopyMem(m, g, b, d), g, {})
  {
    var m' := CopyMem(m, g, b, d);
    forall y | y in g.blocks
      ensures HeaderAt(m', g, y) && TrailerAt(m', g, y)
    {
      assert HeaderAt(m, g, y) && TrailerAt(m, g, y) && Apart(g, y, d);
      CopyMisses(m, g, b, d, y + 8);
      CopyMisses(m, g, b, d, y + 16);
      if g.blocks[y].free {
        assert ShapedAt(g, y);
        CopyMisses(m, g, b, d, Next(g, y));
      }
    }
  }

  lemma CopyLinks(m: map<int, nat>, g: Heap, b: int, d: int)
    requires Spans(m, g.limit) && Sound(g, {}) && CanCopy(g, b, d) && Linked(m, g)
    ensures Linked(CopyMem(m, g, b, d), g)
  {
    var m' := CopyMem(m, g, b, d);
    forall c, i | c in g.lists && 0 <= i < |g.lists[c]|
      ensures LinkAt(m', g, c, i)
    {
      var y := g.lists[c][i];
      assert LinkAt(m, g, c, i) && EntryAt(g, {}, c, i);
      assert ShapedAt(g, y) && Apart(g, y, d);
      CopyMisses(m, g, b, d, y + 24);
      CopyMisses(m, g, b, d, y + 32);
    }
  }

  lemma CopyStored(m: map<int, nat>, g: Heap, b: int, d: int)
    requires Spans(m, g.limit) && Sound(g, {}) && CanCopy(g, b, d) && Stored(m, g)
    requires NoUserAbove(g, d, 0)
    ensures Stored(CopyMem(m, g, b, d), CopyUser(g, b, d))
  {
    var m', g' := CopyMem(m, g, b, d), CopyUser(g, b, d);
    forall a | a in g'.user
      ensures StoredAt(m', g', a)
    {
      if a in Shifted(g, b, d) {
        WordHit(m, g, b, d, a - (d - b));
      } else {
        WordMissed(m, g, b, d, a);
      }
    }
  }

  lemma WordHit(m: map<int, nat>, g: Heap, b: int, d: int, o: int)
    requires Spans(m, g.limit) && Sound(g, {}) && CanCopy(g, b, d) && Stored(m, g) && o in g.user && g.user[o].owner == b
    ensures o + (d - b) in m && CopyMem(m, g, b, d)[o + (d - b)] == g.user[o].value
  {
    assert StoredAt(m, g, o) && UserAt(g, o);
    CopyHits(m, g, b, d, o);
  }

  lemma WordMissed(m: map<int, nat>, g: Heap, b: int, d: int, a: int)
    requires Spans(m, g.limit) && Sound(g, {}) && CanCopy(g, b, d) && Stored(m, g) && a in g.user && NoUserAbove(g, d, 0)
    ensures a in m && CopyMem(m, g, b, d)[a] == g.user[a].value
  {
    assert StoredAt(m, g, a) && UserAt(g, a) && Apart(g, g.user[a].owner, d);
    CopyMisses(m, g, b, d, a);
  }

  lemma CopyState(m: map<int, nat>, x: Index, g: Heap, b: int, d: int)
    requires State(m, x, g, {}, {}) && CanCopy(g, b, d) && NoUserAbove(g, d, 0) && Sound(CopyUser(g, b, d), {})
    ensures State(CopyMem(m, g, b, d), x, CopyUser(g, b, d), {}, {})
  {
    var m', g' := CopyMem(m, g, b, d), CopyUser(g, b, d);
    CopyHeaders(m, g, b, d);
    CopyLinks(m, g, b, d);
    CopyStored(m, g, b, d);
    SameEncoding(m', g, g');
    CopySpares(m, g, b, d);
  }

  lemma CopySpares(m: map<int, nat>, g: Heap, b: int, d: int)
    requires Spans(m, g.limit) && Tiled(g) && CanCopy(g, b, d) && Spared(m, g)
    ensures Spared(CopyMem(m, g, b, d), CopyUser(g, b, d))
  {
    var m', g' := CopyMem(m, g, b, d), CopyUser(g, b, d);
    BlockClaims(g, d);
    forall a | a in g'.foreign
      ensures ForeignAt(m', g', a)
    {
      assert ForeignAt(m, g, a);
      CopyMisses(m, g, b, d, a);
    }
  }

  // Headers, trailers and links do not depend on the client data.
  lemma SameEncoding(m: map<int, nat>, g: Heap, g': Heap)
    requires Headed(m, g) && Trailed(m, g, {}) && Linked(m, g)
    requires g' == g.(user := g'.user)
    ensures Headed(m, g') && Trailed(m, g', {}) && Linked(m, g')
  {
    forall y | y in g'.blocks
      ensures HeaderAt(m, g', y) && TrailerAt(m, g', y)
    {
      assert HeaderAt(m, g, y) && TrailerAt(m, g, y);
    }
    forall c, i | c in g'.lists && 0 <= i < |g'.lists[c]|
      ensures LinkAt(m, g', c, i)
    {
      assert LinkAt(m, g, c, i);
    }
  }

  // ---------------------------------------------------------------- pools

  // The stores of tlsf_add_pool, apart from the links: a header with its trailer and a
  // sentinel.
  function PoolStores(m: map<int, nat>, f: nat, n: nat, ctl: nat): map<int, nat> {
    var s := Rest(f, n);
    PutBlock(PutBlock(m, f, Block(n, true, false, f, f))[f + 16 := ctl][s := f], s, Block(0, false, true, f, f))[s + 16 := ctl]
  }

  // What is written there is mapped and unclaimed.
  lemma PoolMapped(m: map<int, nat>, g: Heap, mem: int, bytes: nat)
    requires Spans(m, g.limit) && PoolReady(g, mem, bytes)
    ensures var f := mem - 8; var s := Rest(f, PoolPayload(bytes));
            && 0 < f && PoolPayload(bytes) % 4 == 0 && PoolPayload(bytes) % ALIGN_SIZE == 0
            && f + 8 in m && f + 16 in m && f + 24 in m && f + 32 in m && s in m && s + 8 in m && s + 16 in m
            && f + 40 <= s && s + BLOCK_START_OFFSET <= mem + bytes
  {
    PoolFits(g, mem, bytes);
  }

  lemma PlaceHeaded(m: map<int, nat>, g: Heap, mem: int, bytes: nat)
    requires Spans(m, g.limit) && Tiled(g) && Headed(m, g) && PoolReady(g, mem, bytes) && g.ctl >= 0
    ensures Headed(PoolStores(m, mem - 8, PoolPayload(bytes), g.ctl), PlacePool(g, mem, bytes))
  {
    PoolMapped(m, g, mem, bytes);
    var m', g' := PoolStores(m, mem - 8, PoolPayload(bytes), g.ctl), PlacePool(g, mem, bytes);
    forall x | x in g'.blocks
      ensures HeaderAt(m', g', x)
    {
      if x in g.blocks {
        PlacePoolFresh(g, mem, bytes, x);
        assert HeaderAt(m, g, x) && ShapedAt(g, x);
      }
    }
  }

  lemma PlaceTrailed(m: map<int, nat>, g: Heap, mem: int, bytes: nat)
    requires Spans(m, g.limit) && Tiled(g) && Trailed(m, g, {}) && PoolReady(g, mem, bytes) && g.ctl >= 0
    ensures Trailed(PoolStores(m, mem - 8, PoolPayload(bytes), g.ctl), PlacePool(g, mem, bytes), {})
  {
    PoolMapped(m, g, mem, bytes);
    var m', g' := PoolStores(m, mem - 8, PoolPayload(bytes), g.ctl), PlacePool(g, mem, bytes);
    forall x | x in g'.blocks
      ensures TrailerAt(m', g', x)
    {
      if x in g.blocks {
        PlacePoolFresh(g, mem, bytes, x);
        assert TrailerAt(m, g, x) && ShapedAt(g, x);
      }
    }
  }

  lemma PlaceLinked(m: map<int, nat>, g: Heap, mem: int, bytes: nat)
    requires Spans(m, g.limit) && Sound(g, {}) && Linked(m, g) && PoolReady(g, mem, bytes) && g.ctl >= 0
    ensures Linked(PoolStores(m, mem - 8, PoolPayload(bytes), g.ctl), PlacePool(g, mem, bytes))
  {
    PoolMapped(m, g, mem, bytes);
    var m', g' := PoolStores(m, mem - 8, PoolPayload(bytes), g.ctl), PlacePool(g, mem, bytes);
    forall c, i | c in g'.lists && 0 <= i < |g'.lists[c]|
      ensures LinkAt(m', g', c, i)
    {
      var x := g.lists[c][i];
      assert LinkAt(m, g, c, i) && EntryAt(g, {}, c, i);
      PlacePoolFresh(g, mem, bytes, x);
      assert ShapedAt(g, x);
    }
  }

  lemma PlaceStored(m: map<int, nat>, g: Heap, mem: int, bytes: nat)
    requires Spans(m, g.limit) && Sound(g, {}) && Stored(m, g) && PoolReady(g, mem, bytes) && g.ctl >= 0
    ensures Stored(PoolStores(m, mem - 8, PoolPayload(bytes), g.ctl), PlacePool(g, mem, bytes))
  {
    PoolMapped(m, g, mem, bytes);
    var m', g' := PoolStores(m, mem - 8, PoolPayload(bytes), g.ctl), PlacePool(g, mem, bytes);
    forall a | a in g'.user
      ensures StoredAt(m', g', a)
    {
      assert StoredAt(m, g, a) && UserAt(g, a);
      PlacePoolFresh(g, mem, bytes, g.user[a].owner);
      assert ShapedAt(g, g.user[a].owner);
    }
  }

  lemma PlaceState(m: map<int, nat>, x: Index, g: Heap, mem: int, bytes: nat)
    requires State(m, x, g, {}, {}) && Inv(g) && PoolReady(g, mem, bytes) && g.ctl >= 0
    ensures State(PoolStores(m, mem - 8, PoolPayload(bytes), g.ctl), x, PlacePool(g, mem, bytes), {}, {mem - 8})
  {
    PlacePoolPending(g, mem, bytes);
    PlaceHeaded(m, g, mem, bytes);
    PlaceTrailed(m, g, mem, bytes);
    PlaceLinked(m, g, mem, bytes);
    PlaceStored(m, g, mem, bytes);
    PoolMapped(m, g, mem, bytes);
    PlaceSpares(m, g, mem, bytes);
  }

  lemma PlaceSpares(m: map<int, nat>, g: Heap, mem: int, bytes: nat)
    requires Spans(m, g.limit) && Tiled(g) && Spared(m, g) && PoolReady(g, mem, bytes) && g.ctl >= 0
    ensures Spared(PoolStores(m, mem - 8, PoolPayload(bytes), g.ctl), PlacePool(g, mem, bytes))
  {
    PoolMapped(m, g, mem, bytes);
    assert mem - 8 in g.pools ==> PooledAt(g, mem - 8);
    PoolClaims(m, PoolStores(m, mem - 8, PoolPayload(bytes), g.ctl), g, mem, bytes);
  }

  // tlsf_add_pool writes the links between the header and the rest; the order of the
  // stores makes no difference.
  lemma PoolOrder(m: map<int, nat>, f: nat, n: nat, cur: nat, ctl: nat)
    requires n >= BLOCK_SIZE_MIN
    requires cur + 32 <= f || Rest(f, n) + 16 < cur + 32
    ensures var s, k, z := Rest(f, n), Block(n, true, false, f, f), Block(0, false, true, f, f);
            PutBlock(LinkedIn(PutBlock(m, f, k), f, cur, ctl)[f + 16 := ctl][s := f], s, z)[s + 16 := ctl]
            == LinkedIn(PoolStores(m, f, n, ctl), f, cur, ctl)
  {
  }

  // Room for a pool: its words are mapped, its size has a list, and the head of that list
  // lies outside the pool.
  ghost predicate PoolRoom(m: map<int, nat>, x: Index, f: int, n: nat) {
    var s, c := Rest(f, n), ClassOf(n);
    && 0 < f && f % ALIGN_SIZE == 0 && n % 4 == 0 && BLOCK_SIZE_MIN <= n < POOL_LIMIT && ValidClass(c) && c.fl < 32
    && f + 8 in m && f + 16 in m && f + 24 in m && f + 32 in m && s in m && s + 8 in m && s + 16 in m
    && Sized(x) && 0 < x.heads[Slot(c)] && x.heads[Slot(c)] + 32 in m
    && (x.heads[Slot(c)] + 32 <= f || s + 16 < x.heads[Slot(c)] + 32)
  }

  lemma PoolHead(m: map<int, nat>, x: Index, g: Heap, mem: int, bytes: nat, f: int, n: nat)
    requires State(m, x, g, {}, {}) && PoolReady(g, mem, bytes) && f == mem - 8 && n == PoolPayload(bytes)
    ensures PoolRoom(m, x, f, n)
  {
    PoolMapped(m, g, mem, bytes);
    var c := ClassOf(PoolPayload(bytes));
    ClassInRange(PoolPayload(bytes));
    PoolFits(g, mem, bytes);
    assert ClassAt(x, g.lists, g.ctl, c);
    HeadHolds(g, {}, c);
    HolderMapped(m, g, HeadOf(g.lists[c], g.ctl));
    if g.lists[c] != [] {
      EntryHolds(g, {}, c, 0);
      PlacePoolFresh(g, mem, bytes, g.lists[c][0]);
      assert ShapedAt(g, g.lists[c][0]);
    }
  }

  // All stores of tlsf_add_pool.
  function AddPoolStores(m: map<int, nat>, x: Index, f: nat, n: nat, ctl: nat): map<int, nat>
    requires |x.heads| == FL_INDEX_COUNT * SL_INDEX_COUNT && ValidClass(ClassOf(n)) && 0 <= x.heads[Slot(ClassOf(n))]
  {
    LinkedIn(PoolStores(m, f, n, ctl), f, x.heads[Slot(ClassOf(n))], ctl)
  }

  // The whole of tlsf_add_pool on memory and index.
  lemma AddPoolState(m: map<int, nat>, m': map<int, nat>, x: Index, x': Index, g: Heap, mem: int, bytes: nat, f: int, n: nat)
    requires State(m, x, g, {}, {}) && Inv(g) && PoolReady(g, mem, bytes) && g.ctl >= 0
    requires f == mem - 8 && n == PoolPayload(bytes) && PoolRoom(m, x, f, n)
    requires m' == AddPoolStores(m, x, f, n, g.ctl) && x' == Inserted(x, ClassOf(n), f)
    ensures State(m', x', AddPool(g, mem, bytes).heap, {}, {})
  {
    PlaceState(m, x, g, mem, bytes);
    PlacePoolPending(g, mem, bytes);
    var m1 := PoolStores(m, f, n, g.ctl);
    InsertReady(m1, x, PlacePool(g, mem, bytes), f, {f});
    InsertState(m1, m', x, PlacePool(g, mem, bytes), f, {f});
    assert {f} - {f} == {};
  }

  lemma AddPoolClaims(g: Heap, mem: int, bytes: nat)
    requires Inv(g) && PoolReady(g, mem, bytes)
    ensures var g' := AddPool(g, mem, bytes).heap; g'.ctl == g.ctl && g'.limit == g.limit && Inv(g')
  {
  }

  // Forgetting a vacant pool, once its block is out of the lists.
  lemma RemovePoolState(m: map<int, nat>, x: Index, g: Heap, f: int)
    requires Inv(g) && Vacant(g, f)
    requires ClassOf(g.blocks[f].size) in g.lists && State(m, x, Remove(g, f), {}, {} + {f})
    ensures State(m, x, RemovePool(g, f), {}, {})
  {
    var g1, g' := Remove(g, f), RemovePool(g, f);
    RemovePoolInv(g, f);
    forall y | y in g'.blocks
      ensures HeaderAt(m, g', y) && TrailerAt(m, g', y)
    {
      assert HeaderAt(m, g1, y) && TrailerAt(m, g1, y);
    }
    forall c, i | c in g'.lists && 0 <= i < |g'.lists[c]|
      ensures LinkAt(m, g', c, i)
    {
      assert LinkAt(m, g1, c, i);
    }
    forall a | a in g'.user
      ensures StoredAt(m, g', a)
    {
      assert StoredAt(m, g1, a);
    }
    PoolReleased(m, g1, g', f);
  }

  // ---------------------------------------------------------------- client accesses

  // A client's store touches no header, trailer or link.
  lemma WriteState(m: map<int, nat>, x: Index, g: Heap, b: int, a: int, w: nat)
    requires State(m, x, g, {}, {}) && Inv(g) && InPayload(g, b, a)
    ensures a in m && State(m[a := w], x, Write(g, b, a, w), {}, {})
  {
    var m', g' := m[a := w], Write(g, b, a, w);
    WriteInv(g, b, a, w);
    assert ShapedAt(g, b);
    forall y | y in g.blocks
      ensures HeaderAt(m', g, y) && TrailerAt(m', g, y)
    {
      assert HeaderAt(m, g, y) && TrailerAt(m, g, y) && ShapedAt(g, y) && Apart(g, y, b);
    }
    forall c, i | c in g.lists && 0 <= i < |g.lists[c]|
      ensures LinkAt(m', g, c, i)
    {
      assert LinkAt(m, g, c, i) && EntryAt(g, {}, c, i);
      assert ShapedAt(g, g.lists[c][i]) && Apart(g, g.lists[c][i], b);
    }
    SameEncoding(m', g, g');
    forall y | y in g'.user
      ensures StoredAt(m', g', y)
    {
      assert y != a ==> StoredAt(m, g, y);
    }
    BlockClaims(g, b);
    SparedBy(m, m', g, g', {a});
  }
}
