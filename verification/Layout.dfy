/**
 How memory encodes a heap (tlsf.c:186-378). A header at address b occupies five words:

   b        prev_phys_block  -- the last word of the block in front of b
   b + 8    size, with the two flag bits
   b + 16   the owning heap
   b + 24   next_free        -- the first word of the payload
   b + 32   prev_free

 Each relation below says of one address what memory must hold there.
 */
module Layout {
  import opened SizeClasses
  import opened Memory
  import opened Heaps
  import opened HeapSteps
  import opened Words

  // ---------------------------------------------------------------- the size word

  // `size & ~3`, `size & 1`, `size & 2` and the assignments that set or clear them. For a
  // word these masks are remainders by 4 and 2.
  function SizeBits(w: nat): nat { w - w % 4 }
  predicate FreeBit(w: nat) { w % 2 == 1 }
  predicate PrevFreeBit(w: nat) { w % 4 >= 2 }

  function WithSize(w: nat, size: nat): nat { size + w % 4 }
  function WithFree(w: nat): nat { if FreeBit(w) then w else w + 1 }
  function WithUsed(w: nat): nat { if FreeBit(w) then w - 1 else w }
  function WithPrevFree(w: nat): nat { if PrevFreeBit(w) then w else w + 2 }
  function WithPrevUsed(w: nat): nat { if PrevFreeBit(w) then w - 2 else w }

  function Encode(k: Block): nat {
    k.size + (if k.free then 1 else 0) + (if k.prevFree then 2 else 0)
  }

  // ---------------------------------------------------------------- the masks

  // The number 4 * q with these two flags, and the word u with these two bits behind it.
  function Combine(q: nat, prevFree: bool, free: bool): nat {
    4 * q + (if prevFree then 2 else 0) + (if free then 1 else 0)
  }

  function Flagged(u: bv64, prevFree: bool, free: bool): bv64 {
    Append64(Append64(u, prevFree), free)
  }

  lemma WordFlagged(w: nat, q: nat, prevFree: bool, free: bool)
    requires w == Combine(q, prevFree, free) && w < WORD64
    ensures Word64(w) == Flagged(Word64(q), prevFree, free)
  {
    HalfStep(2 * q + (if prevFree then 1 else 0), q, prevFree);
    HalfStep(w, 2 * q + (if prevFree then 1 else 0), free);
  }

  // What masking does to such a word.
  lemma FlaggedMasks(u: bv64, v: bv64, prevFree: bool, free: bool, w: bv64)
    requires v == Append64(u, prevFree) && w == Append64(v, free)
    ensures Unmasked(w, 3, Flagged(u, false, false))
    ensures (Meets(w, 1) <==> free) && (Meets(w, 2) <==> prevFree)
    ensures Joined(w, 1, Flagged(u, prevFree, true)) && Unmasked(w, 1, Flagged(u, prevFree, false))
    ensures Joined(w, 2, Flagged(u, true, free)) && Unmasked(w, 2, Flagged(u, false, free))
  {
    var v1, v0, low := Append64(u, true), Append64(u, false), LowWord(prevFree);
    LowMasked(v, free, w);
    MeetsBy(w, 1, LowWord(free));
    AppendedLow(free);
    SetLow(v, free, w, Flagged(u, prevFree, true));
    ClearLowBit(v, free, w, Flagged(u, prevFree, false));
    LowMasked(u, prevFree, v);
    NextBit(v, free, w, low, Append64(low, false));
    MeetsBy(w, 2, Append64(low, false));
    AppendedLow(prevFree);
    SetLow(u, prevFree, v, v1);
    SetNext(v, free, w, v1, Flagged(u, true, free));
    ClearLowBit(u, prevFree, v, v0);
    ClearNext(v, free, w, v0, Flagged(u, false, free));
    ClearBoth(v, free, w, v0, Flagged(u, false, false));
  }

  // A size word's value in its parts: what stands above the flags, and the flags.
  lemma Parts(w: nat, q: nat, pf: bool, f: bool)
    requires q == w / 4 && pf == PrevFreeBit(w) && f == FreeBit(w)
    ensures w == Combine(q, pf, f) && SizeBits(w) == Combine(q, false, false)
    ensures WithFree(w) == Combine(q, pf, true) && WithUsed(w) == Combine(q, pf, false)
    ensures WithPrevFree(w) == Combine(q, true, f) && WithPrevUsed(w) == Combine(q, false, f)
  {
    LowBits(q, w % 4);
    assert w == 4 * q + w % 4;
  }

  lemma PartsBelow(w: nat, q: nat, pf: bool, f: bool)
    requires w == Combine(q, pf, f) && w < WORD64
    ensures Combine(q, true, true) < WORD64
  {
  }

  // The functions on size words are C's masks: on the 64-bit word with value w, each mask
  // gives the word with the value that its function gives.
  lemma SizeWordMasks(w: nat)
    requires w < WORD64
    ensures WithFree(w) < WORD64 && WithPrevFree(w) < WORD64
    ensures Unmasked(Word64(w), 3, Word64(SizeBits(w)))
    ensures (Meets(Word64(w), 1) <==> FreeBit(w)) && (Meets(Word64(w), 2) <==> PrevFreeBit(w))
    ensures Joined(Word64(w), 1, Word64(WithFree(w))) && Unmasked(Word64(w), 1, Word64(WithUsed(w)))
    ensures Joined(Word64(w), 2, Word64(WithPrevFree(w))) && Unmasked(Word64(w), 2, Word64(WithPrevUsed(w)))
  {
    Parts(w, w / 4, PrevFreeBit(w), FreeBit(w));
    MasksOfParts(w, w / 4, PrevFreeBit(w), FreeBit(w));
  }

  lemma MasksOfParts(w: nat, q: nat, pf: bool, f: bool)
    requires w == Combine(q, pf, f) && w < WORD64
    ensures Combine(q, true, true) < WORD64
    ensures Unmasked(Word64(w), 3, Word64(Combine(q, false, false))) && (Meets(Word64(w), 1) <==> f) && (Meets(Word64(w), 2) <==> pf)
    ensures Joined(Word64(w), 1, Word64(Combine(q, pf, true))) && Unmasked(Word64(w), 1, Word64(Combine(q, pf, false)))
    ensures Joined(Word64(w), 2, Word64(Combine(q, true, f))) && Unmasked(Word64(w), 2, Word64(Combine(q, false, f)))
  {
    PartsBelow(w, q, pf, f);
    WordFlagged(w, q, pf, f);
    WordFlagged(Combine(q, false, false), q, false, false);
    WordFlagged(Combine(q, pf, true), q, pf, true);
    WordFlagged(Combine(q, pf, false), q, pf, false);
    WordFlagged(Combine(q, true, f), q, true, f);
    WordFlagged(Combine(q, false, f), q, false, f);
    FlaggedMasks(Word64(q), Append64(Word64(q), pf), pf, f, Word64(w));
  }

  // block_set_size, for a size that leaves room for the flags
  lemma SetSizeMask(w: nat, size: nat)
    requires w < WORD64 && size < WORD64 && size % 4 == 0
    ensures WithSize(w, size) < WORD64 && JoinedFlags(Word64(size), Word64(w), Word64(WithSize(w, size)))
  {
    Parts(w, w / 4, PrevFreeBit(w), FreeBit(w));
    SetSizeOfParts(w, w / 4, PrevFreeBit(w), FreeBit(w), size, size / 4, WithSize(w, size));
  }

  lemma SetSizeOfParts(w: nat, q: nat, pf: bool, f: bool, size: nat, p: nat, r: nat)
    requires w == Combine(q, pf, f) && w < WORD64 && size == Combine(p, false, false) && size < WORD64 && r == Combine(p, pf, f)
    ensures r < WORD64 && JoinedFlags(Word64(size), Word64(w), Word64(r))
  {
    PartsBelow(size, p, false, false);
    WordFlagged(w, q, pf, f);
    WordFlagged(size, p, false, false);
    WordFlagged(r, p, pf, f);
    var u, x := Word64(q), Word64(p);
    JoinFlags(u, Append64(u, pf), pf, f, Word64(w), x, Append64(x, false), Word64(size));
  }

  // The size word of a block reads and updates as its fields.
  lemma EncodeFields(k: Block, size: nat)
    requires k.size % 4 == 0
    ensures var w := Encode(k);
            && SizeBits(w) == k.size && FreeBit(w) == k.free && PrevFreeBit(w) == k.prevFree
            && WithSize(w, size) == Encode(k.(size := size))
            && WithFree(w) == Encode(k.(free := true)) && WithUsed(w) == Encode(k.(free := false))
            && WithPrevFree(w) == Encode(k.(prevFree := true))
            && WithPrevUsed(w) == Encode(k.(prevFree := false))
  {
    LowBits(k.size / 4, Encode(k) - k.size);
  }

  // Every word is the size word of some block: what block_split finds where a new header
  // lands is such a word, with flags of its own.
  function Decode(w: nat): (k: Block)
    ensures k.size % 4 == 0 && Encode(k) == w
  {
    LowBits(w / 4, w % 4);
    assert w == 4 * (w / 4) + w % 4;
    Block(SizeBits(w), FreeBit(w), PrevFreeBit(w), 0, 0)
  }

  lemma LowBits(q: nat, f: nat)
    requires f < 4
    ensures (4 * q + f) % 4 == f && (4 * q + f) % 2 == f % 2 && 4 * q % 4 == 0
  {
    RemainderOf4(q, f);
    RemainderOf4(q, 0);
    if f < 2 {
      RemainderOf2(2 * q, f);
    } else {
      RemainderOf2(2 * q + 1, f - 2);
    }
  }

  lemma RemainderOf4(q: nat, f: nat)
    requires f < 4
    ensures (4 * q + f) % 4 == f
  {
  }

  lemma RemainderOf2(q: nat, f: nat)
    requires f < 2
    ensures (2 * q + f) % 2 == f
  {
  }

  // ---------------------------------------------------------------- stores

  // The size word at header b becomes that of block k.
  function PutBlock(m: map<int, nat>, b: int, k: Block): map<int, nat> {
    m[b + 8 := Encode(k)]
  }

  // The last store to a size word counts, and only size and flags do.
  lemma PutTwice(m: map<int, nat>, b: int, k: Block, k1: Block, k2: Block)
    requires k1.size == k2.size && k1.free == k2.free && k1.prevFree == k2.prevFree
    ensures PutBlock(PutBlock(m, b, k), b, k1) == PutBlock(m, b, k2)
  {
  }

  // The stores of block_mark_as_free and block_mark_as_used, where k and n are the blocks
  // that the header and its neighbour encode.
  function FreeStores(m: map<int, nat>, b: nat, k: Block, n: Block): map<int, nat> {
    var next := b + METADATA_SIZE + k.size;
    PutBlock(PutBlock(m[next := b], next, n.(prevFree := true)), b, k.(free := true))
  }

  function UsedStores(m: map<int, nat>, b: nat, k: Block, n: Block): map<int, nat> {
    PutBlock(PutBlock(m, b + METADATA_SIZE + k.size, n.(prevFree := false)), b, k.(free := false))
  }

  // The stores of block_split, where s is the block that the word at the new header r
  // happens to encode.
  function SplitStores(m: map<int, nat>, b: nat, r: nat, k: Block, n: Block, s: Block, ctl: nat): map<int, nat> {
    FreeStores(PutBlock(PutBlock(m, b, k), r, s)[r + 16 := ctl], r, s, n)
  }

  // The stores of block_absorb, where k and q are the two blocks.
  function AbsorbStores(m: map<int, nat>, p: nat, k: Block, q: Block): map<int, nat> {
    var size := k.size + (q.size + METADATA_SIZE);
    PutBlock(m, p, k.(size := size))[p + METADATA_SIZE + size := p]
  }

  // Adding a size to a size word leaves its flags alone.
  lemma EncodeAdd(k: Block, size: nat)
    requires k.size % 4 == 0 && size % 4 == 0
    ensures var k' := k.(size := k.size + (size + METADATA_SIZE));
            Encode(k) + size + METADATA_SIZE == Encode(k') && k'.size % 4 == 0
  {
  }

  // Before block_split marks the new block free: both headers are where it looks for them.
  lemma SplitMiddle(m: map<int, nat>, b: nat, n: nat, k: Block, nx: Block, s: Block, ctl: nat, m3: map<int, nat>)
    requires b + 8 in m && n % 4 == 0 && k.size % 4 == 0 && n + METADATA_SIZE < k.size
    requires s.size == k.size - (n + METADATA_SIZE)
    requires var next := b + METADATA_SIZE + k.size; next in m && next + 8 in m && m[next + 8] == Encode(nx)
    requires m3 == PutBlock(PutBlock(m, b, k.(size := n)), Rest(b, n), s)[Rest(b, n) + 16 := ctl]
    ensures var r, next := Rest(b, n), b + METADATA_SIZE + k.size;
            && s.size % 4 == 0 && s.size > 0 && r + METADATA_SIZE + s.size == next
            && r + 8 in m3 && m3[r + 8] == Encode(s)
            && next in m3 && next + 8 in m3 && m3[next + 8] == Encode(nx)
            && FreeStores(m3, r, s, nx) == SplitStores(m, b, r, k.(size := n), nx, s, ctl)
  {
  }

  // The word of the new header, once block_split has marked the block free.
  lemma SplitReads(m: map<int, nat>, b: nat, n: nat, k: Block, nx: Block, s: Block, ctl: nat, m': map<int, nat>, r: nat)
    requires s.size > 0 && r == Rest(b, n) && m' == SplitStores(m, b, r, k, nx, s, ctl)
    ensures r + 8 in m' && m'[r + 8] == Encode(s.(free := true))
  {
  }

  // ---------------------------------------------------------------- memory encodes a heap

  ghost predicate HeaderAt(m: map<int, nat>, g: Heap, b: int)
    requires b in g.blocks
  {
    && b + 8 in m && m[b + 8] == Encode(g.blocks[b])
    && b + 16 in m && m[b + 16] == g.ctl
  }

  ghost predicate Headed(m: map<int, nat>, g: Heap) {
    forall b {:trigger HeaderAt(m, g, b)} | b in g.blocks :: HeaderAt(m, g, b)
  }

  // The word in front of the next header names a free block.
  ghost predicate TrailerAt(m: map<int, nat>, g: Heap, b: int)
    requires b in g.blocks
  {
    g.blocks[b].free ==> Next(g, b) in m && m[Next(g, b)] == b
  }

  // Every free block outside xs has its trailer in place.
  ghost predicate Trailed(m: map<int, nat>, g: Heap, xs: set<int>) {
    forall b {:trigger TrailerAt(m, g, b)} | b in g.blocks && b !in xs :: TrailerAt(m, g, b)
  }

  function NextIn(s: seq<int>, i: int, ctl: int): int
    requires 0 <= i < |s|
  {
    if i + 1 < |s| then s[i + 1] else ctl
  }

  function PrevIn(s: seq<int>, i: int, ctl: int): int
    requires 0 <= i < |s|
  {
    if i > 0 then s[i - 1] else ctl
  }

  ghost predicate LinkAt(m: map<int, nat>, g: Heap, c: Class, i: int)
    requires c in g.lists && 0 <= i < |g.lists[c]|
  {
    var b := g.lists[c][i];
    && b + 24 in m && m[b + 24] == NextIn(g.lists[c], i, g.ctl)
    && b + 32 in m && m[b + 32] == PrevIn(g.lists[c], i, g.ctl)
  }

  // The list members are doubly linked in order, and both ends lead to block_null. What
  // block_null's own links hold is left open.
  ghost predicate Linked(m: map<int, nat>, g: Heap) {
    forall c, i {:trigger LinkAt(m, g, c, i)} | c in g.lists && 0 <= i < |g.lists[c]| :: LinkAt(m, g, c, i)
  }

  ghost predicate StoredAt(m: map<int, nat>, g: Heap, a: int)
    requires a in g.user
  {
    a in m && m[a] == g.user[a].value
  }

  ghost predicate Stored(m: map<int, nat>, g: Heap) {
    forall a {:trigger StoredAt(m, g, a)} | a in g.user :: StoredAt(m, g, a)
  }

  ghost predicate Encodes(m: map<int, nat>, g: Heap, xs: set<int>) {
    Spans(m, g.limit) && Headed(m, g) && Trailed(m, g, xs) && Linked(m, g) && Stored(m, g)
  }

  // The words of a header and, for all but sentinels, of the smallest payload are mapped.
  lemma HeaderMapped(m: map<int, nat>, g: Heap, b: int)
    requires Spans(m, g.limit) && Shaped(g) && b in g.blocks
    ensures b in m && b + 8 in m && b + 16 in m
    ensures g.blocks[b].size > 0 ==> b + 24 in m && b + 32 in m && Next(g, b) in m
  {
    assert ShapedAt(g, b);
  }

  // A header reads as the block it encodes.
  lemma HeaderReads(m: map<int, nat>, g: Heap, b: int)
    requires Spans(m, g.limit) && Shaped(g) && Headed(m, g) && b in g.blocks
    ensures 0 <= b && b in m && b + 8 in m && b + 16 in m
    ensures m[b + 8] == Encode(g.blocks[b]) && m[b + 16] == g.ctl && g.blocks[b].size % 4 == 0
    ensures g.blocks[b].size > 0 ==> b + 24 in m && b + 32 in m && Next(g, b) in m
  {
    HeaderMapped(m, g, b);
    assert HeaderAt(m, g, b) && ShapedAt(g, b);
    MultipleOf4(g.blocks[b].size);
  }

  lemma MultipleOf4(n: nat)
    requires n % ALIGN_SIZE == 0
    ensures n % 4 == 0
  {
    assert n == 4 * (2 * (n / 8));
  }

  // ---------------------------------------------------------------- split

  // Memory after block_split on b: both size words, the new header's heap pointer, the
  // neighbour's trailer and prev-free bit.
  ghost predicate SplitWords(m: map<int, nat>, m': map<int, nat>, g: Heap, b: int, n: nat, pf: bool)
    requires CanCut(g, b, n) && Next(g, b) in g.blocks
  {
    var r, nx, g' := Rest(b, n), Next(g, b), Split(g, b, n, pf);
    m' == m[b + 8 := Encode(g'.blocks[b])][r + 8 := Encode(g'.blocks[r])][r + 16 := g.ctl][nx := r][nx + 8 := Encode(g'.blocks[nx])]
  }

  lemma SplitHeaded(m: map<int, nat>, m': map<int, nat>, g: Heap, b: int, n: nat, pf: bool)
    requires Headed(m, g) && g.ctl >= 0 && Ordered(g) && CutOk(g, b, n) && SplitWords(m, m', g, b, n, pf)
    ensures Headed(m', Split(g, b, n, pf))
  {
    var g' := Split(g, b, n, pf);
    assert HeaderAt(m, g, b) && HeaderAt(m, g, Next(g, b));
    forall x | x in g'.blocks
      ensures HeaderAt(m', g', x)
    {
      if x != Rest(b, n) {
        assert HeaderAt(m, g, x) && Apart(g, x, b) && Apart(g, x, Next(g, b));
      }
    }
  }

  lemma SplitTrailed(m: map<int, nat>, m': map<int, nat>, g: Heap, b: int, n: nat, pf: bool)
    requires Trailed(m, g, {b}) && Shaped(g) && Ordered(g) && CutOk(g, b, n) && SplitWords(m, m', g, b, n, pf)
    ensures Trailed(m', Split(g, b, n, pf), {b})
  {
    var g' := Split(g, b, n, pf);
    forall x | x in g'.blocks && x != b
      ensures TrailerAt(m', g', x)
    {
      if x != Rest(b, n) {
        assert TrailerAt(m, g, x) && Apart(g, x, b) && Apart(g, x, Next(g, b)) && ShapedAt(g, x);
      }
    }
  }

  lemma SplitLinked(m: map<int, nat>, m': map<int, nat>, g: Heap, b: int, n: nat, pf: bool, pend: set<int>)
    requires Linked(m, g) && Shaped(g) && Ordered(g) && Listed(g, pend)
    requires CutOk(g, b, n) && SplitWords(m, m', g, b, n, pf)
    requires b in pend || !g.blocks[b].free
    ensures Linked(m', Split(g, b, n, pf))
  {
    var g' := Split(g, b, n, pf);
    forall c, i | c in g'.lists && 0 <= i < |g'.lists[c]|
      ensures LinkAt(m', g', c, i)
    {
      var x := g.lists[c][i];
      assert LinkAt(m, g, c, i) && EntryAt(g, pend, c, i);
      assert ShapedAt(g, x) && Apart(g, x, b) && Apart(g, x, Next(g, b));
    }
  }

  lemma SplitStored(m: map<int, nat>, m': map<int, nat>, g: Heap, b: int, n: nat, pf: bool)
    requires Stored(m, g) && Shaped(g) && Ordered(g) && UserOk(g) && CutOk(g, b, n) && SplitWords(m, m', g, b, n, pf)
    requires g.blocks[b].free || NoUserAbove(g, b, n)
    ensures Stored(m', Split(g, b, n, pf))
  {
    var g' := Split(g, b, n, pf);
    forall a | a in g'.user
      ensures StoredAt(m', g', a)
    {
      var o := g.user[a].owner;
      assert StoredAt(m, g, a) && UserAt(g, a);
      assert Apart(g, o, b) && Apart(g, o, Next(g, b));
    }
  }

  lemma SplitEncodes(m: map<int, nat>, m': map<int, nat>, g: Heap, b: int, n: nat, pf: bool, pend: set<int>)
    requires Encodes(m, g, {b}) && Sound(g, pend) && CutOk(g, b, n) && n % ALIGN_SIZE == 0 && SplitWords(m, m', g, b, n, pf)
    requires b in pend || !g.blocks[b].free
    requires NoUserAbove(g, b, n)
    ensures Encodes(m', Split(g, b, n, pf), {b})
  {
    SplitHeaded(m, m', g, b, n, pf);
    SplitTrailed(m, m', g, b, n, pf);
    SplitLinked(m, m', g, b, n, pf, pend);
    SplitStored(m, m', g, b, n, pf);
    SplitSpans(m, m', g, b, n, pf);
  }

  lemma SplitSpans(m: map<int, nat>, m': map<int, nat>, g: Heap, b: int, n: nat, pf: bool)
    requires Spans(m, g.limit) && Shaped(g) && CutOk(g, b, n) && n % ALIGN_SIZE == 0 && SplitWords(m, m', g, b, n, pf)
    ensures Spans(m', g.limit)
  {
    assert ShapedAt(g, b);
    RestAligned(b, n);
    HeaderMapped(m, g, b);
    HeaderMapped(m, g, Next(g, b));
    assert Rest(b, n) + 8 in m && Rest(b, n) + 16 in m;
    assert m'.Keys == m.Keys;
  }

  // ---------------------------------------------------------------- absorb

  // Memory after block_absorb on p: its size word and the trailer at its new end.
  ghost predicate AbsorbWords(m: map<int, nat>, m': map<int, nat>, g: Heap, p: int)
    requires AbsorbOk(g, p)
  {
    var g' := Absorb(g, p);
    m' == m[p + 8 := Encode(g'.blocks[p])][Next(g, Next(g, p)) := p]
  }

  lemma AbsorbHeaded(m: map<int, nat>, m': map<int, nat>, g: Heap, p: int)
    requires Headed(m, g) && g.ctl >= 0 && Ordered(g) && AbsorbOk(g, p) && AbsorbWords(m, m', g, p)
    ensures Headed(m', Absorb(g, p))
  {
    var g' := Absorb(g, p);
    assert HeaderAt(m, g, p);
    forall x | x in g'.blocks
      ensures HeaderAt(m', g', x)
    {
      assert HeaderAt(m, g, x) && Apart(g, x, p) && Apart(g, x, Next(g, p)) && Apart(g, x, Next(g, Next(g, p)));
    }
  }

  lemma AbsorbTrailed(m: map<int, nat>, m': map<int, nat>, g: Heap, p: int)
    requires Trailed(m, g, {}) && Shaped(g) && Ordered(g) && AbsorbOk(g, p) && AbsorbWords(m, m', g, p)
    ensures Trailed(m', Absorb(g, p), {})
  {
    var g' := Absorb(g, p);
    forall x | x in g'.blocks
      ensures TrailerAt(m', g', x)
    {
      assert ShapedAt(g, x) && TrailerAt(m, g, x);
      assert Apart(g, x, p) && Apart(g, x, Next(g, p)) && Apart(g, x, Next(g, Next(g, p)));
    }
  }

  lemma AbsorbLinked(m: map<int, nat>, m': map<int, nat>, g: Heap, p: int, pend: set<int>)
    requires Linked(m, g) && Shaped(g) && Ordered(g) && Listed(g, pend) && AbsorbOk(g, p) && AbsorbWords(m, m', g, p)
    requires Next(g, p) in pend || !g.blocks[Next(g, p)].free
    ensures Linked(m', Absorb(g, p))
  {
    var g' := Absorb(g, p);
    forall c, i | c in g'.lists && 0 <= i < |g'.lists[c]|
      ensures LinkAt(m', g', c, i)
    {
      var x := g.lists[c][i];
      assert LinkAt(m, g, c, i) && EntryAt(g, pend, c, i);
      assert ShapedAt(g, x) && Apart(g, x, p) && Apart(g, x, Next(g, p)) && Apart(g, x, Next(g, Next(g, p)));
    }
  }

  lemma AbsorbStored(m: map<int, nat>, m': map<int, nat>, g: Heap, p: int)
    requires Stored(m, g) && Ordered(g) && UserOk(g) && AbsorbOk(g, p) && AbsorbWords(m, m', g, p)
    requires NoUserAbove(g, Next(g, p), 0)
    ensures Stored(m', Absorb(g, p))
  {
    var g' := Absorb(g, p);
    forall a | a in g'.user
      ensures StoredAt(m', g', a)
    {
      var o := g.user[a].owner;
      assert StoredAt(m, g, a) && UserAt(g, a);
      assert Apart(g, o, p) && Apart(g, o, Next(g, p)) && Apart(g, o, Next(g, Next(g, p)));
    }
  }

  lemma AbsorbEncodes(m: map<int, nat>, m': map<int, nat>, g: Heap, p: int, pend: set<int>)
    requires Encodes(m, g, {}) && Sound(g, pend) && AbsorbOk(g, p) && AbsorbWords(m, m', g, p)
    requires Next(g, p) in pend || !g.blocks[Next(g, p)].free
    requires NoUserAbove(g, Next(g, p), 0)
    ensures Encodes(m', Absorb(g, p), {})
  {
    AbsorbHeaded(m, m', g, p);
    AbsorbTrailed(m, m', g, p);
    AbsorbLinked(m, m', g, p, pend);
    AbsorbStored(m, m', g, p);
    HeaderMapped(m, g, p);
    HeaderMapped(m, g, Next(g, p));
  }

  // ---------------------------------------------------------------- mark

  ghost predicate MarkOk(g: Heap, b: int) {
    0 <= b && b in g.blocks && g.blocks[b].size > 0 && ChainedAt(g, b)
  }

  // Memory after block_mark_as_free or block_mark_as_used on b.
  ghost predicate MarkWords(m: map<int, nat>, m': map<int, nat>, g: Heap, b: int, free: bool)
    requires MarkOk(g, b)
  {
    var nx, g' := Next(g, b), Mark(g, b, free);
    var linked := if free then m[nx := b] else m;
    m' == linked[nx + 8 := Encode(g'.blocks[nx])][b + 8 := Encode(g'.blocks[b])]
  }

  lemma MarkHeaded(m: map<int, nat>, m': map<int, nat>, g: Heap, b: int, free: bool)
    requires Headed(m, g) && g.ctl >= 0 && Ordered(g) && MarkOk(g, b) && MarkWords(m, m', g, b, free)
    ensures Headed(m', Mark(g, b, free))
  {
    var g' := Mark(g, b, free);
    forall x | x in g'.blocks
      ensures HeaderAt(m', g', x)
    {
      assert HeaderAt(m, g, x) && Apart(g, x, b) && Apart(g, x, Next(g, b));
    }
  }

  lemma MarkTrailed(m: map<int, nat>, m': map<int, nat>, g: Heap, b: int, free: bool)
    requires Trailed(m, g, if free then {b} else {}) && Shaped(g) && Ordered(g) && MarkOk(g, b)
    requires MarkWords(m, m', g, b, free)
    ensures Trailed(m', Mark(g, b, free), {})
  {
    var g' := Mark(g, b, free);
    forall x | x in g'.blocks
      ensures TrailerAt(m', g', x)
    {
      assert ShapedAt(g, x) && Apart(g, x, b) && Apart(g, x, Next(g, b));
      assert x != b ==> TrailerAt(m, g, x);
    }
  }

  lemma MarkLinked(m: map<int, nat>, m': map<int, nat>, g: Heap, b: int, free: bool, pend: set<int>)
    requires Linked(m, g) && Shaped(g) && Ordered(g) && Listed(g, pend) && MarkOk(g, b) && MarkWords(m, m', g, b, free)
    requires b in pend || !g.blocks[b].free
    ensures Linked(m', Mark(g, b, free))
  {
    var g' := Mark(g, b, free);
    forall c, i | c in g'.lists && 0 <= i < |g'.lists[c]|
      ensures LinkAt(m', g', c, i)
    {
      var x := g.lists[c][i];
      assert LinkAt(m, g, c, i) && EntryAt(g, pend, c, i);
      assert ShapedAt(g, x) && Apart(g, x, b) && Apart(g, x, Next(g, b));
    }
  }

  lemma MarkStored(m: map<int, nat>, m': map<int, nat>, g: Heap, b: int, free: bool)
    requires Stored(m, g) && Ordered(g) && UserOk(g) && MarkOk(g, b) && MarkWords(m, m', g, b, free)
    requires free ==> NoUserAbove(g, b, 0)
    ensures Stored(m', Mark(g, b, free))
  {
    var g' := Mark(g, b, free);
    forall a | a in g'.user
      ensures StoredAt(m', g', a)
    {
      var o := g.user[a].owner;
      assert StoredAt(m, g, a) && UserAt(g, a) && Apart(g, o, b) && Apart(g, o, Next(g, b));
    }
  }

  lemma MarkEncodes(m: map<int, nat>, m': map<int, nat>, g: Heap, b: int, free: bool, pend: set<int>)
    requires Encodes(m, g, if free then {b} else {}) && Sound(g, pend) && MarkOk(g, b) && MarkWords(m, m', g, b, free)
    requires b in pend || !g.blocks[b].free
    requires free ==> NoUserAbove(g, b, 0)
    ensures Encodes(m', Mark(g, b, free), {})
  {
    MarkHeaded(m, m', g, b, free);
    MarkTrailed(m, m', g, b, free);
    MarkLinked(m, m', g, b, free, pend);
    MarkStored(m, m', g, b, free);
    HeaderMapped(m, g, b);
    HeaderMapped(m, g, Next(g, b));
  }

  // ---------------------------------------------------------------- one flag or one trailer

  // Memory after block_set_prev_free or block_set_prev_used on b.
  lemma SetPrevFreeEncodes(m: map<int, nat>, m': map<int, nat>, g: Heap, b: int, v: bool, xs: set<int>, pend: set<int>)
    requires Encodes(m, g, xs) && Sound(g, pend) && b in g.blocks
    requires m' == m[b + 8 := Encode(SetPrevFree(g, b, v).blocks[b])]
    ensures Encodes(m', SetPrevFree(g, b, v), xs)
  {
    var g' := SetPrevFree(g, b, v);
    HeaderMapped(m, g, b);
    forall y | y in g'.blocks
      ensures HeaderAt(m', g', y)
    {
      assert HeaderAt(m, g, y) && Apart(g, y, b);
    }
    forall y | y in g'.blocks && y !in xs
      ensures TrailerAt(m', g', y)
    {
      assert TrailerAt(m, g, y) && ShapedAt(g, y) && Apart(g, y, b);
    }
    HeaderWordLinked(m, m', g, g', b, pend);
    HeaderWordStored(m, m', g, g', b);
  }

  // A header's size word is no link and no client data.
  lemma HeaderWordLinked(m: map<int, nat>, m': map<int, nat>, g: Heap, g': Heap, b: int, pend: set<int>)
    requires Linked(m, g) && Sound(g, pend) && b in g.blocks && b + 8 in m && b + 8 in m' && m' == m[b + 8 := m'[b + 8]]
    requires g'.lists == g.lists && g'.ctl == g.ctl
    ensures Linked(m', g')
  {
    forall c, i | c in g'.lists && 0 <= i < |g'.lists[c]|
      ensures LinkAt(m', g', c, i)
    {
      assert LinkAt(m, g, c, i) && EntryAt(g, pend, c, i);
      assert ShapedAt(g, g.lists[c][i]) && Apart(g, g.lists[c][i], b);
    }
  }

  lemma HeaderWordStored(m: map<int, nat>, m': map<int, nat>, g: Heap, g': Heap, b: int)
    requires Stored(m, g) && Ordered(g) && UserOk(g) && b in g.blocks && b + 8 in m
    requires b + 8 in m' && m' == m[b + 8 := m'[b + 8]]
    requires g'.user == g.user
    ensures Stored(m', g')
  {
    forall a | a in g'.user
      ensures StoredAt(m', g', a)
    {
      assert StoredAt(m, g, a) && UserAt(g, a) && Apart(g, g.user[a].owner, b);
    }
  }

  // Memory after block_link_next on a free block b that is in no list.
  lemma LinkNextEncodes(m: map<int, nat>, m': map<int, nat>, g: Heap, b: int, pend: set<int>)
    requires Encodes(m, g, {b}) && Sound(g, pend) && MarkOk(g, b) && b in pend && g.blocks[b].free
    requires m' == m[Next(g, b) := b]
    ensures Encodes(m', g, {})
  {
    HeaderMapped(m, g, b);
    forall x | x in g.blocks
      ensures HeaderAt(m', g, x) && TrailerAt(m', g, x)
    {
      assert ShapedAt(g, x) && HeaderAt(m, g, x) && Apart(g, x, b) && Apart(g, x, Next(g, b));
      assert x != b ==> TrailerAt(m, g, x);
    }
    LinkNextLinked(m, m', g, b, pend);
    forall a | a in g.user
      ensures StoredAt(m', g, a)
    {
      assert StoredAt(m, g, a) && UserAt(g, a);
      assert Apart(g, g.user[a].owner, b) && Apart(g, g.user[a].owner, Next(g, b));
    }
  }

  lemma LinkNextLinked(m: map<int, nat>, m': map<int, nat>, g: Heap, b: int, pend: set<int>)
    requires Linked(m, g) && Sound(g, pend) && MarkOk(g, b) && b in pend
    requires m' == m[Next(g, b) := b]
    ensures Linked(m', g)
  {
    forall c, i | c in g.lists && 0 <= i < |g.lists[c]|
      ensures LinkAt(m', g, c, i)
    {
      assert LinkAt(m, g, c, i) && EntryAt(g, pend, c, i);
      assert ShapedAt(g, g.lists[c][i]) && Apart(g, g.lists[c][i], b) && Apart(g, g.lists[c][i], Next(g, b));
    }
  }

  // ---------------------------------------------------------------- list links

  // A block is a free block outside the lists, a listed block, or block_null: the places
  // where insert_free_block and remove_free_block write links.
  ghost predicate LinkHolder(g: Heap, x: int) {
    x == g.ctl || (x in g.blocks && g.blocks[x].free)
  }

  // Writing a link word touches no header, no trailer and no client data.
  lemma LinkWordKeeps(m: map<int, nat>, m': map<int, nat>, g: Heap, x: int, w: int, pend: set<int>)
    requires Spans(m, g.limit) && Headed(m, g) && Trailed(m, g, {}) && Stored(m, g) && Sound(g, pend)
    requires LinkHolder(g, x) && (w == x + 24 || w == x + 32)
    requires w in m' && m' == m[w := m'[w]]
    ensures Spans(m', g.limit) && Headed(m', g) && Trailed(m', g, {}) && Stored(m', g)
  {
    assert x != g.ctl ==> ShapedAt(g, x);
    LinkWordMisses(m, m', g, x, w);
    forall a | a in g.user
      ensures StoredAt(m', g, a)
    {
      var o := g.user[a].owner;
      assert StoredAt(m, g, a) && UserAt(g, a) && ShapedAt(g, o);
      assert x != g.ctl ==> Apart(g, o, x);
    }
  }

  lemma LinkWordMisses(m: map<int, nat>, m': map<int, nat>, g: Heap, x: int, w: int)
    requires Headed(m, g) && Trailed(m, g, {}) && Shaped(g) && Ordered(g)
    requires LinkHolder(g, x) && (w == x + 24 || w == x + 32) && w in m' && m' == m[w := m'[w]]
    ensures Headed(m', g) && Trailed(m', g, {})
  {
    assert x != g.ctl ==> ShapedAt(g, x);
    forall y | y in g.blocks
      ensures HeaderAt(m', g, y) && TrailerAt(m', g, y)
    {
      assert ShapedAt(g, y) && HeaderAt(m, g, y) && TrailerAt(m, g, y);
      assert x != g.ctl ==> Apart(g, y, x);
    }
  }

  // Headers, trailers and client data do not depend on the lists.
  lemma OtherLists(m: map<int, nat>, g: Heap, g': Heap)
    requires Shaped(g) && Headed(m, g) && Trailed(m, g, {}) && Stored(m, g) && g' == g.(lists := g'.lists)
    ensures Headed(m, g') && Trailed(m, g', {}) && Stored(m, g')
  {
    forall x | x in g'.blocks
      ensures HeaderAt(m, g', x) && TrailerAt(m, g', x)
    {
      assert ShapedAt(g, x) && HeaderAt(m, g, x) && TrailerAt(m, g, x);
    }
    forall a | a in g'.user
      ensures StoredAt(m, g', a)
    {
      assert StoredAt(m, g, a);
    }
  }

  function HeadOf(s: seq<int>, ctl: int): int {
    if s == [] then ctl else s[0]
  }

  // Memory after insert_free_block(b): b's links, and the old head's back link.
  ghost predicate InsertWords(m: map<int, nat>, m': map<int, nat>, g: Heap, b: int)
    requires b in g.blocks && ClassOf(g.blocks[b].size) in g.lists
  {
    var cur := HeadOf(g.lists[ClassOf(g.blocks[b].size)], g.ctl);
    cur >= 0 && g.ctl >= 0 && b >= 0 && m' == m[b + 24 := cur][b + 32 := g.ctl][cur + 32 := b]
  }

  // A block's link words, seen from another block or block_null.
  lemma LinksApart(g: Heap, x: int, y: int)
    requires Shaped(g) && Ordered(g) && LinkHolder(g, x) && LinkHolder(g, y) && x != y
    ensures x + 16 <= y || y + 16 <= x
  {
    assert x != g.ctl ==> ShapedAt(g, x);
    assert y != g.ctl ==> ShapedAt(g, y);
    assert x != g.ctl && y != g.ctl ==> Apart(g, x, y);
  }

  lemma HolderMapped(m: map<int, nat>, g: Heap, x: int)
    requires Spans(m, g.limit) && Shaped(g) && LinkHolder(g, x)
    ensures 0 < x && x + 24 in m && x + 32 in m
  {
    assert x != g.ctl ==> ShapedAt(g, x);
  }

  // The block at position i of a list holds links.
  lemma EntryHolds(g: Heap, pend: set<int>, c: Class, i: int)
    requires Listed(g, pend) && c in g.lists && 0 <= i < |g.lists[c]|
    ensures var x := g.lists[c][i]; LinkHolder(g, x) && x in g.blocks && g.blocks[x].free && x !in pend && ClassOf(g.blocks[x].size) == c
  {
    assert EntryAt(g, pend, c, i);
  }

  lemma HeadHolds(g: Heap, pend: set<int>, c: Class)
    requires Listed(g, pend) && c in g.lists
    ensures LinkHolder(g, HeadOf(g.lists[c], g.ctl))
  {
    if g.lists[c] != [] {
      EntryHolds(g, pend, c, 0);
    }
  }

  lemma CtlIsNoBlock(g: Heap)
    requires Shaped(g)
    ensures g.ctl !in g.blocks || g.blocks[g.ctl].size == 0
  {
    assert g.ctl in g.blocks ==> ShapedAt(g, g.ctl);
  }

  lemma InsertLinked(m: map<int, nat>, m': map<int, nat>, g: Heap, b: int, pend: set<int>)
    requires Encodes(m, g, {}) && Sound(g, pend) && b in pend && b in g.blocks && g.blocks[b].free
    requires ClassOf(g.blocks[b].size) in g.lists && InsertWords(m, m', g, b)
    ensures Linked(m', Insert(g, b))
  {
    var k := ClassOf(g.blocks[b].size);
    var g' := Insert(g, b);
    forall c, i | c in g'.lists && 0 <= i < |g'.lists[c]|
      ensures LinkAt(m', g', c, i)
    {
      if c != k {
        InsertElsewhere(m, m', g, b, pend, c, i);
      } else if i == 0 {
        InsertAtHead(m, m', g, b, pend);
      } else {
        InsertBehind(m, m', g, b, pend, i);
      }
    }
  }

  lemma InsertElsewhere(m: map<int, nat>, m': map<int, nat>, g: Heap, b: int, pend: set<int>, c: Class, i: int)
    requires Linked(m, g) && Sound(g, pend) && b in pend && b in g.blocks && g.blocks[b].free
    requires ClassOf(g.blocks[b].size) in g.lists && InsertWords(m, m', g, b)
    requires c in g.lists && 0 <= i < |g.lists[c]| && c != ClassOf(g.blocks[b].size)
    ensures LinkAt(m', Insert(g, b), c, i)
  {
    var k := ClassOf(g.blocks[b].size);
    var x := g.lists[c][i];
    assert LinkAt(m, g, c, i);
    EntryHolds(g, pend, c, i);
    LinksApart(g, x, b);
    if g.lists[k] != [] {
      EntryHolds(g, pend, k, 0);
    }
    HeadApart(g, pend, k, x);
  }

  // No link word of x is one of the head of list c, unless x is that head.
  lemma HeadApart(g: Heap, pend: set<int>, c: Class, x: int)
    requires Sound(g, pend) && c in g.lists && x in g.blocks && g.blocks[x].free
    requires g.lists[c] == [] || x != g.lists[c][0]
    ensures var y := HeadOf(g.lists[c], g.ctl); x + 16 <= y || y + 16 <= x
  {
    HeadHolds(g, pend, c);
    CtlIsNoBlock(g);
    assert ShapedAt(g, x);
    LinksApart(g, x, HeadOf(g.lists[c], g.ctl));
  }

  lemma InsertBehind(m: map<int, nat>, m': map<int, nat>, g: Heap, b: int, pend: set<int>, i: int)
    requires Linked(m, g) && Sound(g, pend) && b in pend && b in g.blocks && g.blocks[b].free
    requires ClassOf(g.blocks[b].size) in g.lists && InsertWords(m, m', g, b)
    requires 0 < i <= |g.lists[ClassOf(g.blocks[b].size)]|
    ensures LinkAt(m', Insert(g, b), ClassOf(g.blocks[b].size), i)
  {
    var k := ClassOf(g.blocks[b].size);
    var x := g.lists[k][i - 1];
    assert LinkAt(m, g, k, i - 1) && DistinctAt(g, k);
    EntryHolds(g, pend, k, i - 1);
    LinksApart(g, x, b);
    if i > 1 {
      HeadApart(g, pend, k, x);
    }
  }

  lemma InsertAtHead(m: map<int, nat>, m': map<int, nat>, g: Heap, b: int, pend: set<int>)
    requires Encodes(m, g, {}) && Sound(g, pend) && b in pend && b in g.blocks && g.blocks[b].free
    requires ClassOf(g.blocks[b].size) in g.lists && InsertWords(m, m', g, b)
    ensures LinkAt(m', Insert(g, b), ClassOf(g.blocks[b].size), 0)
  {
    var k := ClassOf(g.blocks[b].size);
    if g.lists[k] != [] {
      EntryHolds(g, pend, k, 0);
    }
    HeadApart(g, pend, k, b);
  }

  lemma InsertEncodes(m: map<int, nat>, m': map<int, nat>, g: Heap, b: int, pend: set<int>)
    requires Encodes(m, g, {}) && Sound(g, pend) && b in pend && b in g.blocks && g.blocks[b].free
    requires ClassOf(g.blocks[b].size) in g.lists && InsertWords(m, m', g, b)
    ensures Encodes(m', Insert(g, b), {})
  {
    var cur := HeadOf(g.lists[ClassOf(g.blocks[b].size)], g.ctl);
    HeadHolds(g, pend, ClassOf(g.blocks[b].size));
    InsertLinked(m, m', g, b, pend);
    InsertKeeps(m, m', g, b, cur, pend);
    OtherLists(m', g, Insert(g, b));
  }

  // Three link words, one after the other.
  lemma InsertKeeps(m: map<int, nat>, m': map<int, nat>, g: Heap, b: int, cur: nat, pend: set<int>)
    requires Spans(m, g.limit) && Headed(m, g) && Trailed(m, g, {}) && Stored(m, g) && Sound(g, pend)
    requires LinkHolder(g, b) && LinkHolder(g, cur) && b >= 0 && g.ctl >= 0
    requires m' == m[b + 24 := cur][b + 32 := g.ctl][cur + 32 := b]
    ensures Spans(m', g.limit) && Headed(m', g) && Trailed(m', g, {}) && Stored(m', g)
  {
    HolderMapped(m, g, b);
    HolderMapped(m, g, cur);
    var m1 := m[b + 24 := cur];
    LinkWordKeeps(m, m1, g, b, b + 24, pend);
    var m2 := m1[b + 32 := g.ctl];
    LinkWordKeeps(m1, m2, g, b, b + 32, pend);
    LinkWordKeeps(m2, m', g, cur, cur + 32, pend);
  }

  // Memory after remove_free_block(b): the links of b's neighbours in its list.
  ghost predicate RemoveWords(m: map<int, nat>, m': map<int, nat>, g: Heap, c: Class, i: int)
    requires c in g.lists && 0 <= i < |g.lists[c]|
  {
    var next, prev := NextIn(g.lists[c], i, g.ctl), PrevIn(g.lists[c], i, g.ctl);
    next >= 0 && prev >= 0 && m' == m[next + 32 := prev][prev + 24 := next]
  }

  // Taking out the entry at position i of a list without repetition.
  lemma {:induction false} WithoutAt(s: seq<int>, i: int)
    requires Distinct(s) && 0 <= i < |s|
    ensures Without(s, s[i]) == s[..i] + s[i + 1..]
  {
    if i == 0 {
    } else {
      WithoutAt(s[1..], i - 1);
      assert s[1..][i - 1] == s[i];
    }
  }

  // Positions in the shortened list, in terms of the old one.
  function OldIndex(i: int, j: int): int {
    if j < i then j else j + 1
  }

  lemma RemoveLinked(m: map<int, nat>, m': map<int, nat>, g: Heap, k: Class, i: int, pend: set<int>)
    requires Linked(m, g) && Sound(g, pend) && k in g.lists && 0 <= i < |g.lists[k]|
    requires RemoveWords(m, m', g, k, i)
    ensures var b := g.lists[k][i]; b in g.blocks && ClassOf(g.blocks[b].size) == k && Linked(m', Remove(g, b))
  {
    var b := g.lists[k][i];
    EntryHolds(g, pend, k, i);
    assert DistinctAt(g, k);
    WithoutAt(g.lists[k], i);
    var g' := Remove(g, b);
    forall c, j | c in g'.lists && 0 <= j < |g'.lists[c]|
      ensures LinkAt(m', g', c, j)
    {
      if c != k {
        RemoveElsewhere(m, m', g, k, i, pend, c, j);
      } else {
        RemoveSameList(m, m', g, k, i, pend, j);
      }
    }
  }

  // The neighbours of an entry hold links.
  lemma NeighboursHold(g: Heap, pend: set<int>, k: Class, i: int)
    requires Listed(g, pend) && k in g.lists && 0 <= i < |g.lists[k]|
    ensures LinkHolder(g, NextIn(g.lists[k], i, g.ctl)) && LinkHolder(g, PrevIn(g.lists[k], i, g.ctl))
    ensures i + 1 < |g.lists[k]| ==> g.lists[k][i + 1] in g.blocks && ClassOf(g.blocks[g.lists[k][i + 1]].size) == k
    ensures i > 0 ==> g.lists[k][i - 1] in g.blocks && ClassOf(g.blocks[g.lists[k][i - 1]].size) == k
  {
    if i + 1 < |g.lists[k]| {
      EntryHolds(g, pend, k, i + 1);
    }
    if i > 0 {
      EntryHolds(g, pend, k, i - 1);
    }
  }

  // A listed block is not block_null, so its links are elsewhere.
  lemma EntryApart(g: Heap, pend: set<int>, c: Class, j: int, y: int)
    requires Sound(g, pend) && c in g.lists && 0 <= j < |g.lists[c]| && LinkHolder(g, y)
    requires y != g.lists[c][j]
    ensures var x := g.lists[c][j]; x + 16 <= y || y + 16 <= x
  {
    EntryHolds(g, pend, c, j);
    LinksApart(g, g.lists[c][j], y);
  }

  lemma EntryIsNotCtl(g: Heap, pend: set<int>, c: Class, j: int)
    requires Sound(g, pend) && c in g.lists && 0 <= j < |g.lists[c]|
    ensures g.lists[c][j] != g.ctl
  {
    EntryHolds(g, pend, c, j);
    CtlIsNoBlock(g);
    assert ShapedAt(g, g.lists[c][j]);
  }

  lemma RemoveElsewhere(m: map<int, nat>, m': map<int, nat>, g: Heap, k: Class, i: int, pend: set<int>, c: Class, j: int)
    requires Linked(m, g) && Sound(g, pend) && k in g.lists && 0 <= i < |g.lists[k]| && RemoveWords(m, m', g, k, i)
    requires c in g.lists && 0 <= j < |g.lists[c]| && c != k
    requires g.lists[k][i] in g.blocks && ClassOf(g.blocks[g.lists[k][i]].size) == k
    ensures LinkAt(m', Remove(g, g.lists[k][i]), c, j)
  {
    assert LinkAt(m, g, c, j);
    EntryHolds(g, pend, c, j);
    EntryIsNotCtl(g, pend, c, j);
    NeighboursHold(g, pend, k, i);
    EntryApart(g, pend, c, j, NextIn(g.lists[k], i, g.ctl));
    EntryApart(g, pend, c, j, PrevIn(g.lists[k], i, g.ctl));
  }

  // The neighbours in a list from which entry i has been taken.
  lemma ShortenedLinks(s: seq<int>, i: int, j: int, ctl: int)
    requires 0 <= i < |s| && 0 <= j < |s| - 1
    ensures var t, o := s[..i] + s[i + 1..], OldIndex(i, j);
            && 0 <= o < |s| && o != i && t[j] == s[o]
            && NextIn(t, j, ctl) == (if o == i - 1 then NextIn(s, i, ctl) else NextIn(s, o, ctl))
            && PrevIn(t, j, ctl) == (if o == i + 1 then PrevIn(s, i, ctl) else PrevIn(s, o, ctl))
  {
  }

  // What the two stores of remove_free_block make of the links of block x.
  lemma LinksAfter(m: map<int, nat>, m': map<int, nat>, x: int, next: nat, prev: nat)
    requires m' == m[next + 32 := prev][prev + 24 := next] && x + 24 in m && x + 32 in m
    requires x == next || x + 16 <= next || next + 16 <= x
    requires x == prev || x + 16 <= prev || prev + 16 <= x
    ensures x + 24 in m' && m'[x + 24] == (if x == prev then next else m[x + 24])
    ensures x + 32 in m' && m'[x + 32] == (if x == next then prev else m[x + 32])
  {
  }

  // An entry is the neighbour of entry i if it stands next to it.
  lemma WhichNeighbour(s: seq<int>, i: int, o: int, ctl: int)
    requires Distinct(s) && 0 <= i < |s| && 0 <= o < |s| && s[o] != ctl
    ensures s[o] == NextIn(s, i, ctl) <==> o == i + 1
    ensures s[o] == PrevIn(s, i, ctl) <==> o == i - 1
  {
  }

  lemma RemoveSameList(m: map<int, nat>, m': map<int, nat>, g: Heap, k: Class, i: int, pend: set<int>, j: int)
    requires Linked(m, g) && Sound(g, pend) && k in g.lists && 0 <= i < |g.lists[k]| && RemoveWords(m, m', g, k, i)
    requires 0 <= j < |g.lists[k]| - 1
    requires g.lists[k][i] in g.blocks && ClassOf(g.blocks[g.lists[k][i]].size) == k
    requires Without(g.lists[k], g.lists[k][i]) == g.lists[k][..i] + g.lists[k][i + 1..]
    ensures LinkAt(m', Remove(g, g.lists[k][i]), k, j)
  {
    ShortenedLinks(g.lists[k], i, j, g.ctl);
    var o := OldIndex(i, j);
    var next, prev := NextIn(g.lists[k], i, g.ctl), PrevIn(g.lists[k], i, g.ctl);
    assert LinkAt(m, g, k, o) && DistinctAt(g, k);
    EntryIsNotCtl(g, pend, k, o);
    NeighboursHold(g, pend, k, i);
    WhichNeighbour(g.lists[k], i, o, g.ctl);
    if o != i + 1 {
      EntryApart(g, pend, k, o, next);
    }
    if o != i - 1 {
      EntryApart(g, pend, k, o, prev);
    }
    LinksAfter(m, m', g.lists[k][o], next, prev);
  }

  lemma RemoveEncodes(m: map<int, nat>, m': map<int, nat>, g: Heap, k: Class, i: int, pend: set<int>)
    requires Encodes(m, g, {}) && Sound(g, pend) && k in g.lists && 0 <= i < |g.lists[k]|
    requires RemoveWords(m, m', g, k, i)
    ensures var b := g.lists[k][i]; b in g.blocks && ClassOf(g.blocks[b].size) == k && Encodes(m', Remove(g, b), {})
  {
    var next, prev := NextIn(g.lists[k], i, g.ctl), PrevIn(g.lists[k], i, g.ctl);
    NeighboursHold(g, pend, k, i);
    RemoveLinked(m, m', g, k, i, pend);
    HolderMapped(m, g, next);
    HolderMapped(m, g, prev);
    var m1 := m[next + 32 := prev];
    LinkWordKeeps(m, m1, g, next, next + 32, pend);
    LinkWordKeeps(m1, m', g, prev, prev + 24, pend);
    OtherLists(m', g, Remove(g, g.lists[k][i]));
  }
}
