/**
 The free lists and the client data of a heap of the original allocator, and what the
 elementary steps make of them. The lists are those of matrix[26][128], head first; client
 data starts 16 bytes behind the address of a block's header.
 */
module OriginalLists {
  import opened SizeClasses
  import opened Heaps
  import opened HeapSteps
  import opened HeapOps
  import opened HeapFrames
  import opened HeapCalls
  import opened Original

  // ---------------------------------------------------------------- lists

  // The list of block b's size.
  function ListAt(g: Heap, b: int): Class
    requires b in g.blocks
  {
    ListOf(g.blocks[b].size)
  }

  // b belongs in a list.
  ghost predicate Listable(g: Heap, pend: set<int>, b: int) {
    b in g.blocks && g.blocks[b].free && b !in pend
  }

  ghost predicate PlaceAt(g: Heap, pend: set<int>, c: Class, i: int)
    requires c in g.lists && 0 <= i < |g.lists[c]|
  {
    var b := g.lists[c][i];
    Listable(g, pend, b) && ListAt(g, b) == c
  }

  ghost predicate HomeAt(g: Heap, pend: set<int>, b: int) {
    Listable(g, pend, b) ==> ListAt(g, b) in g.lists && b in g.lists[ListAt(g, b)]
  }

  // The lists hold exactly the free blocks, but for those in pend, each once and in the
  // list of its size.
  ghost predicate Homed(g: Heap, pend: set<int>) {
    && (forall c :: c in g.lists <==> OwnList(c))
    && (forall c, i {:trigger PlaceAt(g, pend, c, i)} | c in g.lists && 0 <= i < |g.lists[c]| :: PlaceAt(g, pend, c, i))
    && (forall c {:trigger DistinctAt(g, c)} | c in g.lists :: DistinctAt(g, c))
    && (forall b {:trigger HomeAt(g, pend, b)} :: HomeAt(g, pend, b))
  }

  // b belongs in the same list before and after, or in none.
  ghost predicate SameHome(g: Heap, g': Heap, pend: set<int>, pend': set<int>, b: int) {
    && (Listable(g, pend, b) <==> Listable(g', pend', b))
    && (Listable(g, pend, b) ==> g'.blocks[b].size == g.blocks[b].size)
  }

  lemma SameHomes(g: Heap, g': Heap, pend: set<int>, pend': set<int>)
    requires Homed(g, pend) && g'.lists == g.lists
    requires forall b {:trigger SameHome(g, g', pend, pend', b)} :: SameHome(g, g', pend, pend', b)
    ensures Homed(g', pend')
  {
    forall c, i | c in g'.lists && 0 <= i < |g'.lists[c]|
      ensures PlaceAt(g', pend', c, i)
    {
      assert PlaceAt(g, pend, c, i) && SameHome(g, g', pend, pend', g.lists[c][i]);
    }
    forall c | c in g'.lists
      ensures DistinctAt(g', c)
    {
      assert DistinctAt(g, c);
    }
    forall b
      ensures HomeAt(g', pend', b)
    {
      assert HomeAt(g, pend, b) && SameHome(g, g', pend, pend', b);
    }
  }

  // INSERT_BLOCK: b becomes the head of its list.
  function Into(g: Heap, b: int): Heap
    requires b in g.blocks && ListAt(g, b) in g.lists
  {
    var c := ListAt(g, b);
    g.(lists := g.lists[c := [b] + g.lists[c]])
  }

  // EXTRACT_BLOCK: b leaves its list.
  function OutOf(g: Heap, b: int): Heap
    requires b in g.blocks && ListAt(g, b) in g.lists
  {
    var c := ListAt(g, b);
    g.(lists := g.lists[c := Without(g.lists[c], b)])
  }

  lemma IntoHomed(g: Heap, b: int, pend: set<int>)
    requires Homed(g, pend) && b in pend && b in g.blocks && g.blocks[b].free && ListAt(g, b) in g.lists
    ensures Homed(Into(g, b), pend - {b})
  {
    var g', pend', k := Into(g, b), pend - {b}, ListAt(g, b);
    forall c, i | c in g'.lists && 0 <= i < |g'.lists[c]|
      ensures PlaceAt(g', pend', c, i)
    {
      if c != k {
        assert PlaceAt(g, pend, c, i);
      } else if i > 0 {
        assert PlaceAt(g, pend, c, i - 1);
      }
    }
    forall c | c in g'.lists
      ensures DistinctAt(g', c)
    {
      assert DistinctAt(g, c);
      assert forall i | 0 <= i < |g.lists[k]| :: PlaceAt(g, pend, k, i) && g.lists[k][i] != b;
    }
    forall x
      ensures HomeAt(g', pend', x)
    {
      assert HomeAt(g, pend, x);
    }
  }

  lemma OutOfHomed(g: Heap, b: int, pend: set<int>)
    requires Homed(g, pend) && Listable(g, pend, b) && ListAt(g, b) in g.lists
    ensures Homed(OutOf(g, b), pend + {b})
  {
    var g', pend', k := OutOf(g, b), pend + {b}, ListAt(g, b);
    assert DistinctAt(g, k);
    forall c, i | c in g'.lists && 0 <= i < |g'.lists[c]|
      ensures PlaceAt(g', pend', c, i)
    {
      var x := g'.lists[c][i];
      if c != k {
        assert PlaceAt(g, pend, c, i);
      } else {
        assert x in Without(g.lists[k], b);
        WithoutIn(g.lists[k], b, x);
        var j :| 0 <= j < |g.lists[k]| && g.lists[k][j] == x;
        assert PlaceAt(g, pend, k, j);
      }
    }
    forall c | c in g'.lists
      ensures DistinctAt(g', c)
    {
      assert DistinctAt(g, c);
      WithoutIn(g.lists[k], b, b);
    }
    forall x
      ensures HomeAt(g', pend', x)
    {
      assert HomeAt(g, pend, x);
      WithoutIn(g.lists[k], b, x);
    }
  }

  // ---------------------------------------------------------------- client data

  // Client data lies in the payload of a used block.
  ghost predicate DataAt(g: Heap, a: int)
    requires a in g.user
  {
    var o := g.user[a].owner;
    && a % ALIGN_SIZE == 0
    && Live(g, o) && o + METADATA_SIZE <= a < o + METADATA_SIZE + g.blocks[o].size
  }

  ghost predicate DataOk(g: Heap) {
    forall a {:trigger DataAt(g, a)} | a in g.user :: DataAt(g, a)
  }

  // The client data of block b lie in its first n bytes.
  ghost predicate DataWithin(g: Heap, b: int, n: int) {
    forall a | a in g.user && g.user[a].owner == b :: a < b + METADATA_SIZE + n
  }

  // Forgets the client data that block b holds from its byte n on.
  function Forget(g: Heap, b: int, n: int): Heap {
    g.(user := map a | a in g.user && (g.user[a].owner == b ==> a < b + METADATA_SIZE + n) :: g.user[a])
  }

  lemma ForgetOk(g: Heap, b: int, n: int)
    requires DataOk(g)
    ensures DataOk(Forget(g, b, n)) && DataWithin(Forget(g, b, n), b, n)
  {
    var g' := Forget(g, b, n);
    forall a | a in g'.user
      ensures DataAt(g', a)
    {
      assert DataAt(g, a);
    }
  }

  // A step that keeps all live blocks but b keeps the client data in order, if b has none or
  // is still as large as that.
  lemma KeptData(g: Heap, g': Heap, b: int)
    requires DataOk(g) && Kept(g, g', b) && g'.user == g.user
    requires DataWithin(g, b, if Live(g', b) then g'.blocks[b].size else 0)
    ensures DataOk(g')
  {
    forall a | a in g'.user
      ensures DataAt(g', a)
    {
      var o := g.user[a].owner;
      assert DataAt(g, a) && (o != b ==> KeptAt(g, g', o));
    }
  }

  // A block that is not live has no client data.
  lemma NoData(g: Heap, b: int)
    requires DataOk(g) && !Live(g, b)
    ensures DataWithin(g, b, 0)
  {
    forall a | a in g.user
      ensures g.user[a].owner == b ==> a < b + METADATA_SIZE + 0
    {
      assert DataAt(g, a);
    }
  }

  lemma CopyOk(g: Heap, b: int, d: int)
    requires DataOk(g) && Live(g, b) && Live(g, d) && g.blocks[b].size <= g.blocks[d].size
    requires b % ALIGN_SIZE == 0 && d % ALIGN_SIZE == 0
    ensures DataOk(CopyUser(g, b, d))
  {
    var g' := CopyUser(g, b, d);
    forall a | a in g'.user
      ensures DataAt(g', a)
    {
      if a in Shifted(g, b, d) {
        var o := a - (d - b);
        assert DataAt(g, o);
        SameResidue(o, b, d);
      } else {
        assert DataAt(g, a);
      }
    }
  }
}
