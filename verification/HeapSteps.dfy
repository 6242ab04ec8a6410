/** Each elementary step keeps the heap sound. */
module HeapSteps {
  import opened SizeClasses
  import opened Heaps

  // ---------------------------------------------------------------- split

  // b can be cut, and the block behind it is where it should be.
  ghost predicate CutOk(g: Heap, b: int, n: nat) {
    CanCut(g, b, n) && ChainedAt(g, b)
  }

  // The same, with room for the smallest block on either side.
  ghost predicate SplitOk(g: Heap, b: int, n: nat) {
    CanSplit(g, b, n) && n % ALIGN_SIZE == 0 && BLOCK_SIZE_MIN <= n && ChainedAt(g, b)
  }

  lemma RestAligned(b: int, n: nat)
    requires b % ALIGN_SIZE == 0 && n % ALIGN_SIZE == 0
    ensures Rest(b, n) % ALIGN_SIZE == 0 && (Rest(b, n) + 8) % ALIGN_SIZE == 0 && (Rest(b, n) + 16) % ALIGN_SIZE == 0
  {
  }

  lemma RestIsNew(g: Heap, b: int, n: nat)
    requires Ordered(g) && CutOk(g, b, n)
    ensures Rest(b, n) !in g.blocks
  {
    assert Rest(b, n) in g.blocks ==> Apart(g, b, Rest(b, n));
  }

  // A block with a block in front of it is not the first of a pool.
  lemma NextIsNotFirst(g: Heap, b: int)
    requires Shaped(g) && Pooled(g) && b in g.blocks && g.blocks[b].size > 0 && ChainedAt(g, b)
    ensures Next(g, b) !in g.pools
  {
    assert ShapedAt(g, b);
    assert Next(g, b) in g.pools ==> PooledAt(g, Next(g, b));
  }

  lemma SplitShaped(g: Heap, b: int, n: nat, pf: bool)
    requires Shaped(g) && SplitOk(g, b, n)
    ensures Shaped(Split(g, b, n, pf))
  {
    var g' := Split(g, b, n, pf);
    assert ShapedAt(g, b) && ShapedAt(g, Next(g, b));
    RestAligned(b, n);
    RestSized(g.blocks[b].size, n);
    forall x | x in g'.blocks
      ensures ShapedAt(g', x)
    {
      if x != Rest(b, n) {
        assert ShapedAt(g, x);
      }
    }
  }

  lemma RestSized(size: nat, n: nat)
    requires size % ALIGN_SIZE == 0 && n % ALIGN_SIZE == 0
    ensures (size - n - METADATA_SIZE) % ALIGN_SIZE == 0
  {
  }

  lemma SplitOrdered(g: Heap, b: int, n: nat, pf: bool)
    requires Ordered(g) && CutOk(g, b, n)
    ensures Ordered(Split(g, b, n, pf))
  {
    var g' := Split(g, b, n, pf);
    var r := Rest(b, n);
    forall x, y | x in g'.blocks && y in g'.blocks
      ensures Apart(g', x, y)
    {
      assert Apart(g, if x == r then b else x, if y == r then b else y);
    }
  }

  lemma SplitChained(g: Heap, b: int, n: nat, pf: bool)
    requires Ordered(g) && Chained(g) && CutOk(g, b, n)
    ensures Chained(Split(g, b, n, pf))
  {
    var g' := Split(g, b, n, pf);
    var r := Rest(b, n);
    forall x | x in g'.blocks
      ensures ChainedAt(g', x)
    {
      if x != r {
        assert ChainedAt(g, x) && Apart(g, x, b);
      }
    }
  }

  lemma SplitBacked(g: Heap, b: int, n: nat, pf: bool)
    requires Ordered(g) && Backed(g) && CutOk(g, b, n) && 0 < n
    ensures Backed(Split(g, b, n, pf))
  {
    var g' := Split(g, b, n, pf);
    var r := Rest(b, n);
    forall x | x in g'.blocks
      ensures BackedAt(g', x)
    {
      RestIsNew(g, b, n);
      if x != r && x != Next(g, b) {
        assert BackedAt(g, x);
      }
    }
  }

  lemma SplitPooled(g: Heap, b: int, n: nat, pf: bool)
    requires Shaped(g) && Pooled(g) && Ordered(g) && SplitOk(g, b, n)
    ensures Pooled(Split(g, b, n, pf))
  {
    var g' := Split(g, b, n, pf);
    RestIsNew(g, b, n);
    NextIsNotFirst(g, b);
    forall f | f in g'.pools
      ensures PooledAt(g', f)
    {
      assert PooledAt(g, f);
    }
  }

  lemma SplitTiled(g: Heap, b: int, n: nat, pf: bool)
    requires Tiled(g) && SplitOk(g, b, n)
    ensures Tiled(Split(g, b, n, pf))
  {
    SplitShaped(g, b, n, pf);
    SplitOrdered(g, b, n, pf);
    SplitChained(g, b, n, pf);
    SplitBacked(g, b, n, pf);
    SplitPooled(g, b, n, pf);
  }

  // The block split must itself be out of the lists; so is the new one.
  lemma SplitListed(g: Heap, b: int, n: nat, pf: bool, pend: set<int>)
    requires Ordered(g) && Listed(g, pend) && SplitOk(g, b, n)
    requires b in pend || !g.blocks[b].free
    ensures Listed(Split(g, b, n, pf), pend + {Rest(b, n)})
  {
    var g' := Split(g, b, n, pf);
    var pend' := pend + {Rest(b, n)};
    RestIsNew(g, b, n);
    forall c, i | c in g'.lists && 0 <= i < |g'.lists[c]|
      ensures EntryAt(g', pend', c, i)
    {
      assert EntryAt(g, pend, c, i);
    }
    forall c | c in g'.lists
      ensures DistinctAt(g', c)
    {
      assert DistinctAt(g, c);
    }
    forall x | x in g'.blocks
      ensures ListedAt(g', pend', x)
    {
      if x != Rest(b, n) {
        assert ListedAt(g, pend, x);
      }
    }
  }

  lemma SplitUser(g: Heap, b: int, n: nat, pf: bool)
    requires Ordered(g) && UserOk(g) && SplitOk(g, b, n) && NoUserAbove(g, b, n)
    ensures UserOk(Split(g, b, n, pf))
  {
    var g' := Split(g, b, n, pf);
    RestIsNew(g, b, n);
    forall a | a in g'.user
      ensures UserAt(g', a)
    {
      assert UserAt(g, a) && !(g.user[a].owner == b && b + BLOCK_START_OFFSET + n <= a);
    }
  }

  // No client data of block b lies past its first n bytes.
  ghost predicate NoUserAbove(g: Heap, b: int, n: int) {
    forall a | a in g.user :: g.user[a].owner == b ==> a < b + BLOCK_START_OFFSET + n
  }

  lemma SplitSound(g: Heap, b: int, n: nat, pf: bool, pend: set<int>)
    requires Sound(g, pend) && SplitOk(g, b, n) && NoUserAbove(g, b, n)
    requires b in pend || !g.blocks[b].free
    ensures Sound(Split(g, b, n, pf), pend + {Rest(b, n)})
  {
    SplitTiled(g, b, n, pf);
    SplitListed(g, b, n, pf, pend);
    SplitUser(g, b, n, pf);
  }

  // ---------------------------------------------------------------- absorb

  // Two neighbours of one pool, neither of them a sentinel.
  ghost predicate AbsorbOk(g: Heap, p: int) {
    && p in g.blocks && g.blocks[p].size > 0 && ChainedAt(g, p)
    && g.blocks[Next(g, p)].size > 0 && ChainedAt(g, Next(g, p))
  }

  lemma AbsorbShaped(g: Heap, p: int)
    requires Shaped(g) && AbsorbOk(g, p)
    ensures Shaped(Absorb(g, p))
  {
    var g' := Absorb(g, p);
    assert ShapedAt(g, p) && ShapedAt(g, Next(g, p));
    forall x | x in g'.blocks
      ensures ShapedAt(g', x)
    {
      assert ShapedAt(g, x);
    }
  }

  lemma AbsorbOrdered(g: Heap, p: int)
    requires Ordered(g) && AbsorbOk(g, p)
    ensures Ordered(Absorb(g, p))
  {
    var g' := Absorb(g, p);
    var q := Next(g, p);
    forall x, y | x in g'.blocks && y in g'.blocks
      ensures Apart(g', x, y)
    {
      assert Apart(g, x, y) && Apart(g, q, x) && Apart(g, q, y);
    }
  }

  lemma AbsorbChained(g: Heap, p: int)
    requires Chained(g) && AbsorbOk(g, p)
    ensures Chained(Absorb(g, p))
  {
    var g' := Absorb(g, p);
    forall x | x in g'.blocks
      ensures ChainedAt(g', x)
    {
      assert ChainedAt(g, x);
    }
  }

  lemma AbsorbBacked(g: Heap, p: int)
    requires Backed(g) && AbsorbOk(g, p)
    ensures Backed(Absorb(g, p))
  {
    var g' := Absorb(g, p);
    forall x | x in g'.blocks
      ensures BackedAt(g', x)
    {
      assert BackedAt(g, x);
    }
  }

  lemma AbsorbPooled(g: Heap, p: int)
    requires Shaped(g) && Pooled(g) && AbsorbOk(g, p)
    ensures Pooled(Absorb(g, p))
  {
    var g' := Absorb(g, p);
    NextIsNotFirst(g, p);
    assert ShapedAt(g, Next(g, p));
    forall f | f in g'.pools
      ensures PooledAt(g', f)
    {
      assert PooledAt(g, f);
    }
  }

  lemma AbsorbTiled(g: Heap, p: int)
    requires Tiled(g) && AbsorbOk(g, p)
    ensures Tiled(Absorb(g, p))
  {
    AbsorbShaped(g, p);
    AbsorbOrdered(g, p);
    AbsorbChained(g, p);
    AbsorbBacked(g, p);
    AbsorbPooled(g, p);
  }

  // Both blocks must be out of the lists.
  lemma AbsorbListed(g: Heap, p: int, pend: set<int>)
    requires Listed(g, pend) && AbsorbOk(g, p)
    requires p in pend || !g.blocks[p].free
    requires Next(g, p) in pend || !g.blocks[Next(g, p)].free
    ensures Listed(Absorb(g, p), pend - {Next(g, p)})
  {
    var g' := Absorb(g, p);
    var pend' := pend - {Next(g, p)};
    forall c, i | c in g'.lists && 0 <= i < |g'.lists[c]|
      ensures EntryAt(g', pend', c, i)
    {
      assert EntryAt(g, pend, c, i);
    }
    forall c | c in g'.lists
      ensures DistinctAt(g', c)
    {
      assert DistinctAt(g, c);
    }
    forall x | x in g'.blocks
      ensures ListedAt(g', pend', x)
    {
      assert ListedAt(g, pend, x);
    }
  }

  lemma AbsorbUser(g: Heap, p: int)
    requires UserOk(g) && AbsorbOk(g, p) && NoUserAbove(g, Next(g, p), 0)
    ensures UserOk(Absorb(g, p))
  {
    var g' := Absorb(g, p);
    forall a | a in g'.user
      ensures UserAt(g', a)
    {
      assert UserAt(g, a);
    }
  }

  lemma AbsorbSound(g: Heap, p: int, pend: set<int>)
    requires Sound(g, pend) && AbsorbOk(g, p) && NoUserAbove(g, Next(g, p), 0)
    requires p in pend || !g.blocks[p].free
    requires Next(g, p) in pend || !g.blocks[Next(g, p)].free
    ensures Sound(Absorb(g, p), pend - {Next(g, p)})
  {
    AbsorbTiled(g, p);
    AbsorbListed(g, p, pend);
    AbsorbUser(g, p);
  }

  // ---------------------------------------------------------------- mark

  // The same blocks in the same places; only flag bits may differ.
  ghost predicate SameGeometry(g: Heap, g': Heap) {
    && g'.ctl == g.ctl && g'.limit == g.limit && g'.pools == g.pools
    && g'.blocks.Keys == g.blocks.Keys
    && forall b | b in g.blocks ::
         && g'.blocks[b].size == g.blocks[b].size
         && g'.blocks[b].prev == g.blocks[b].prev
         && g'.blocks[b].pool == g.blocks[b].pool
         && (g.blocks[b].size == 0 ==> !g'.blocks[b].free)
         && (b in g.pools ==> !g'.blocks[b].prevFree)
  }

  lemma SameGeometryTiled(g: Heap, g': Heap)
    requires Tiled(g) && SameGeometry(g, g')
    ensures Tiled(g')
  {
    forall x | x in g'.blocks
      ensures ShapedAt(g', x)
    {
      assert ShapedAt(g, x);
    }
    SameGeometryOrdered(g, g');
    SameGeometryLinked(g, g');
    forall f | f in g'.pools
      ensures PooledAt(g', f)
    {
      assert PooledAt(g, f);
    }
  }

  lemma SameGeometryOrdered(g: Heap, g': Heap)
    requires Ordered(g) && SameGeometry(g, g')
    ensures Ordered(g')
  {
    forall x, y | x in g'.blocks && y in g'.blocks
      ensures Apart(g', x, y)
    {
      assert Apart(g, x, y);
    }
  }

  lemma SameGeometryLinked(g: Heap, g': Heap)
    requires Chained(g) && Backed(g) && SameGeometry(g, g')
    ensures Chained(g') && Backed(g')
  {
    forall x | x in g'.blocks
      ensures ChainedAt(g', x) && BackedAt(g', x)
    {
      assert ChainedAt(g, x) && BackedAt(g, x);
    }
  }

  lemma MarkTiled(g: Heap, b: int, free: bool)
    requires Tiled(g) && b in g.blocks && g.blocks[b].size > 0 && ChainedAt(g, b)
    ensures Tiled(Mark(g, b, free))
  {
    NextIsNotFirst(g, b);
    FlagsOfAll(g);
    SameGeometryTiled(g, Mark(g, b, free));
  }

  lemma FlagsOfAll(g: Heap)
    requires Shaped(g) && Pooled(g)
    ensures forall x | x in g.blocks :: (g.blocks[x].size == 0 ==> !g.blocks[x].free) && (x in g.pools ==> !g.blocks[x].prevFree)
  {
    forall x | x in g.blocks
      ensures (g.blocks[x].size == 0 ==> !g.blocks[x].free) && (x in g.pools ==> !g.blocks[x].prevFree)
    {
      assert ShapedAt(g, x);
      assert x in g.pools ==> PooledAt(g, x);
    }
  }

  // Marking leaves block b out of the lists.
  lemma MarkListed(g: Heap, b: int, free: bool, pend: set<int>)
    requires Listed(g, pend) && b in g.blocks && g.blocks[b].size > 0 && ChainedAt(g, b)
    requires b in pend || !g.blocks[b].free
    ensures Listed(Mark(g, b, free), if free then pend + {b} else pend - {b})
  {
    var g' := Mark(g, b, free);
    var pend' := if free then pend + {b} else pend - {b};
    forall c, i | c in g'.lists && 0 <= i < |g'.lists[c]|
      ensures EntryAt(g', pend', c, i)
    {
      assert EntryAt(g, pend, c, i);
    }
    forall c | c in g'.lists
      ensures DistinctAt(g', c)
    {
      assert DistinctAt(g, c);
    }
    forall x | x in g'.blocks
      ensures ListedAt(g', pend', x)
    {
      assert ListedAt(g, pend, x);
    }
  }

  lemma MarkUser(g: Heap, b: int, free: bool)
    requires UserOk(g) && b in g.blocks && g.blocks[b].size > 0 && ChainedAt(g, b)
    requires free ==> NoUserAbove(g, b, 0)
    ensures UserOk(Mark(g, b, free))
  {
    var g' := Mark(g, b, free);
    forall a | a in g'.user
      ensures UserAt(g', a)
    {
      assert UserAt(g, a);
    }
  }

  lemma MarkSound(g: Heap, b: int, free: bool, pend: set<int>)
    requires Sound(g, pend) && b in g.blocks && g.blocks[b].size > 0 && ChainedAt(g, b)
    requires b in pend || !g.blocks[b].free
    requires free ==> NoUserAbove(g, b, 0)
    ensures Sound(Mark(g, b, free), if free then pend + {b} else pend - {b})
  {
    MarkTiled(g, b, free);
    MarkListed(g, b, free, pend);
    MarkUser(g, b, free);
  }

  lemma SetPrevFreeSound(g: Heap, b: int, v: bool, pend: set<int>)
    requires Sound(g, pend) && b in g.blocks && b !in g.pools
    ensures Sound(SetPrevFree(g, b, v), pend)
  {
    var g' := SetPrevFree(g, b, v);
    FlagsOfAll(g);
    SameGeometryTiled(g, g');
    SetPrevFreeListed(g, b, v, pend);
    forall a | a in g'.user
      ensures UserAt(g', a)
    {
      assert UserAt(g, a);
    }
  }

  lemma SetPrevFreeListed(g: Heap, b: int, v: bool, pend: set<int>)
    requires Listed(g, pend) && b in g.blocks
    ensures Listed(SetPrevFree(g, b, v), pend)
  {
    var g' := SetPrevFree(g, b, v);
    forall c, i | c in g'.lists && 0 <= i < |g'.lists[c]|
      ensures EntryAt(g', pend, c, i)
    {
      assert EntryAt(g, pend, c, i);
    }
    forall c | c in g'.lists
      ensures DistinctAt(g', c)
    {
      assert DistinctAt(g, c);
    }
    forall x | x in g'.blocks
      ensures ListedAt(g', pend, x)
    {
      assert ListedAt(g, pend, x);
    }
  }

  // ---------------------------------------------------------------- lists

  lemma WithoutIn(s: seq<int>, b: int, x: int)
    requires Distinct(s)
    ensures x in Without(s, b) <==> x in s && x != b
    ensures Distinct(Without(s, b))
  {
    if s == [] || s[0] == b {
    } else {
      WithoutIn(s[1..], b, x);
      forall i, j | 0 <= i < j < |Without(s, b)|
        ensures Without(s, b)[i] != Without(s, b)[j]
      {
        WithoutIn(s[1..], b, s[0]);
      }
    }
  }

  // Every block's size has a class with a list.
  lemma SizeInRange(g: Heap, b: int)
    requires Tiled(g) && b in g.blocks
    ensures g.blocks[b].size < POOL_LIMIT && ValidClass(ClassOf(g.blocks[b].size)) && ClassOf(g.blocks[b].size).fl < 32
  {
    assert ShapedAt(g, b) && ChainedAt(g, b);
    assert PooledAt(g, g.blocks[b].pool);
    assert g.blocks[b].size > 0 ==> ShapedAt(g, Next(g, b));
    ClassInRange(g.blocks[b].size);
  }

  // Changing only the lists.
  lemma SameBlocksSound(g: Heap, g': Heap)
    requires Tiled(g) && UserOk(g) && g' == g.(lists := g'.lists)
    ensures Tiled(g') && UserOk(g')
  {
    FlagsOfAll(g);
    SameGeometryTiled(g, g');
    forall a | a in g'.user
      ensures UserAt(g', a)
    {
      assert UserAt(g, a);
    }
  }

  lemma InsertListed(g: Heap, b: int, pend: set<int>)
    requires Listed(g, pend) && b in pend && b in g.blocks && g.blocks[b].free
    requires ValidClass(ClassOf(g.blocks[b].size))
    ensures Listed(Insert(g, b), pend - {b})
  {
    var g', pend' := Insert(g, b), pend - {b};
    var k := ClassOf(g.blocks[b].size);
    forall c, i | c in g'.lists && 0 <= i < |g'.lists[c]|
      ensures EntryAt(g', pend', c, i)
    {
      if c != k {
        assert EntryAt(g, pend, c, i);
      } else if i > 0 {
        assert EntryAt(g, pend, c, i - 1);
      }
    }
    forall c | c in g'.lists
      ensures DistinctAt(g', c)
    {
      assert DistinctAt(g, c);
      assert forall i | 0 <= i < |g.lists[k]| :: EntryAt(g, pend, k, i) && g.lists[k][i] != b;
    }
    forall x | x in g'.blocks
      ensures ListedAt(g', pend', x)
    {
      assert ListedAt(g, pend, x);
    }
  }

  lemma InsertSound(g: Heap, b: int, pend: set<int>)
    requires Sound(g, pend) && b in pend && b in g.blocks && g.blocks[b].free
    ensures ValidClass(ClassOf(g.blocks[b].size)) && ClassOf(g.blocks[b].size) in g.lists
    ensures Sound(Insert(g, b), pend - {b})
  {
    SizeInRange(g, b);
    SameBlocksSound(g, Insert(g, b));
    InsertListed(g, b, pend);
  }

  lemma RemoveListed(g: Heap, b: int, pend: set<int>)
    requires Listed(g, pend) && b in g.blocks && g.blocks[b].free && b !in pend
    requires ValidClass(ClassOf(g.blocks[b].size))
    ensures Listed(Remove(g, b), pend + {b})
  {
    var g', pend' := Remove(g, b), pend + {b};
    var k := ClassOf(g.blocks[b].size);
    assert DistinctAt(g, k);
    forall c, i | c in g'.lists && 0 <= i < |g'.lists[c]|
      ensures EntryAt(g', pend', c, i)
    {
      var x := g'.lists[c][i];
      if c != k {
        assert EntryAt(g, pend, c, i);
      } else {
        assert x in Without(g.lists[k], b);
        WithoutIn(g.lists[k], b, x);
        var j :| 0 <= j < |g.lists[k]| && g.lists[k][j] == x;
        assert EntryAt(g, pend, k, j);
      }
    }
    forall c | c in g'.lists
      ensures DistinctAt(g', c)
    {
      assert DistinctAt(g, c);
      WithoutIn(g.lists[k], b, b);
    }
    forall x | x in g'.blocks
      ensures ListedAt(g', pend', x)
    {
      assert ListedAt(g, pend, x);
      WithoutIn(g.lists[k], b, x);
    }
  }

  lemma RemoveSound(g: Heap, b: int, pend: set<int>)
    requires Sound(g, pend) && b in g.blocks && g.blocks[b].free && b !in pend
    ensures ValidClass(ClassOf(g.blocks[b].size)) && ClassOf(g.blocks[b].size) in g.lists
    ensures Sound(Remove(g, b), pend + {b})
  {
    SizeInRange(g, b);
    SameBlocksSound(g, Remove(g, b));
    RemoveListed(g, b, pend);
  }

  // ---------------------------------------------------------------- flags

  lemma SplitFlags(g: Heap, b: int, n: nat, pf: bool)
    requires Ordered(g) && FlagsOk(g, {}) && CutOk(g, b, n)
    ensures FlagsOk(Split(g, b, n, pf), if pf == g.blocks[b].free then {} else {b})
  {
    var g' := Split(g, b, n, pf);
    RestIsNew(g, b, n);
    forall x | x in g'.blocks && (x != b || pf == g.blocks[b].free)
      ensures FlagAt(g', x)
    {
      if x != Rest(b, n) {
        assert Apart(g, x, b) && FlagAt(g, x);
      }
    }
  }

  lemma AbsorbFlags(g: Heap, p: int)
    requires Ordered(g) && FlagsOk(g, {}) && AbsorbOk(g, p)
    ensures FlagsOk(Absorb(g, p), if g.blocks[p].free == g.blocks[Next(g, p)].free then {} else {p})
  {
    var g' := Absorb(g, p);
    assert FlagAt(g, Next(g, p));
    forall x | x in g'.blocks && (x != p || g.blocks[p].free == g.blocks[Next(g, p)].free)
      ensures FlagAt(g', x)
    {
      assert Apart(g, x, p) && Apart(g, x, Next(g, p)) && FlagAt(g, x);
    }
  }

  lemma MarkFlags(g: Heap, b: int, free: bool)
    requires Ordered(g) && FlagsOk(g, {b}) && b in g.blocks && g.blocks[b].size > 0 && ChainedAt(g, b)
    ensures FlagsOk(Mark(g, b, free), {})
  {
    var g' := Mark(g, b, free);
    forall x | x in g'.blocks
      ensures FlagAt(g', x)
    {
      assert Apart(g, x, b);
      assert x != b ==> FlagAt(g, x);
    }
  }

  // The lists hold no flags.
  lemma ListsFlags(g: Heap, g': Heap)
    requires g' == g.(lists := g'.lists)
    ensures forall xs :: FlagsOk(g, xs) ==> FlagsOk(g', xs)
    ensures forall xs :: Coalesced(g, xs) ==> Coalesced(g', xs)
  {
    forall x | x in g'.blocks
      ensures FlagAt(g, x) ==> FlagAt(g', x)
      ensures CoalescedAt(g, x) ==> CoalescedAt(g', x)
    {
    }
  }
}
