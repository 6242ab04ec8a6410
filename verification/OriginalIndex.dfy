/**
 The free-list index of the original allocator as the code reads and writes it
 (tlsf_ori.c:118-219): one first-level word, and a second level of 26 words for rows of 128
 lists. A row's word has bits for its first 32 lists only; `set_bit` and `clear_bit` go on
 into the words of later rows for the others, and the search does not look there.

 The results are exact: which insertions and extractions keep the bits right, where the
 shifts and matrix accesses of the search are defined, and where it finds what a scan of
 the lists finds.
 */
module OriginalIndex {
  import opened Bits
  import opened SizeClasses
  import opened Original

  // fl_bitmap and sl_bitmap
  datatype Bitmaps = Bitmaps(fl: bv32, sl: seq<bv32>)

  predicate Sized(x: Bitmaps) {
    |x.sl| == REAL_FLI
  }

  function NoBits(): Bitmaps {
    Bitmaps(0, seq(REAL_FLI, _ => 0))
  }

  // ---------------------------------------------------------------- reading and writing bits

  // set_bit(nr, &words[k])
  function SetAt(words: seq<bv32>, k: nat, nr: nat): seq<bv32>
    requires k + nr / 32 < |words|
  {
    words[k + nr / 32 := WithBit(words[k + nr / 32], nr % 32)]
  }

  // clear_bit(nr, &words[k])
  function ClearAt(words: seq<bv32>, k: nat, nr: nat): seq<bv32>
    requires k + nr / 32 < |words|
  {
    words[k + nr / 32 := WithoutBit(words[k + nr / 32], nr % 32)]
  }

  predicate CanIndex(x: Bitmaps, c: Class) {
    Sized(x) && OwnList(c) && WordOf(c) < REAL_FLI
  }

  // INSERT_BLOCK into list c
  function Inserted(x: Bitmaps, c: Class): Bitmaps
    requires CanIndex(x, c)
  {
    Bitmaps(WithBit(x.fl, c.fl), SetAt(x.sl, c.fl, c.sl))
  }

  // EXTRACT_BLOCK of block b from list c, which is s. The bits change if the list empties.
  function Extracted(x: Bitmaps, c: Class, s: seq<int>, b: int): Bitmaps
    requires CanIndex(x, c)
  {
    if s == [b] then Emptied(x, c) else x
  }

  function Emptied(x: Bitmaps, c: Class): Bitmaps
    requires CanIndex(x, c)
  {
    var sl := ClearAt(x.sl, c.fl, c.sl);
    Bitmaps(if sl[c.fl] == 0 then WithoutBit(x.fl, c.fl) else x.fl, sl)
  }

  // ---------------------------------------------------------------- the search

  // Undefined stands for a shift by 32 or more and for a subscript out of range, such as -1 in
  // a row of the matrix.
  datatype Search = Undefined | Miss | Hit(list: Class)

  // FIND_SUITABLE_BLOCK from class c on: the list whose head it returns.
  function Find(x: Bitmaps, c: Class): Search
    requires Sized(x) && OwnList(c)
  {
    if c.sl >= 32 then Undefined
    else FindMasked(x, c.fl, BitsFrom(x.sl[c.fl], c.sl), BitsFrom(x.fl, c.fl + 1))
  }

  // The same with the masked word of row f and the masked first-level word.
  function FindMasked(x: Bitmaps, f: int, m: bv32, v: bv32): Search
    requires Sized(x)
  {
    if m != 0 then Hit(Class(f, Lowest(m))) else FindRow(x, Lowest(v))
  }

  function FindRow(x: Bitmaps, r: int): Search
    requires Sized(x)
  {
    if r <= 0 then Miss
    else if r >= REAL_FLI || x.sl[r] == 0 then Undefined
    else Hit(Class(r, Lowest(x.sl[r])))
  }

  // Whatever the bitmaps hold, a list that is found does not come before the class searched
  // for: where the search is defined, what it returns is large enough.
  lemma FindIsLater(x: Bitmaps, c: Class)
    requires Sized(x) && OwnList(c) && Find(x, c).Hit?
    ensures var d := Find(x, c).list; OwnList(d) && Narrow(d) && !Before(d, c)
  {
    MaskedIsLater(x, c, BitsFrom(x.sl[c.fl], c.sl), BitsFrom(x.fl, c.fl + 1));
  }

  lemma MaskedIsLater(x: Bitmaps, c: Class, m: bv32, v: bv32)
    requires Sized(x) && OwnList(c) && Narrow(c) && m == BitsFrom(x.sl[c.fl], c.sl) && v == BitsFrom(x.fl, c.fl + 1)
    requires FindMasked(x, c.fl, m, v).Hit?
    ensures var d := FindMasked(x, c.fl, m, v).list; OwnList(d) && Narrow(d) && !Before(d, c)
  {
    if m != 0 {
      MaskBit(x.sl[c.fl], c.sl, Lowest(m));
    } else {
      MaskBit(x.fl, c.fl + 1, Lowest(v));
    }
  }

  // ---------------------------------------------------------------- the lists

  // Looks at one list after the other, in order, from (fl, sl) on.
  function ScanLists(lists: map<Class, seq<int>>, fl: int, sl: int): Search
    decreases REAL_FLI - fl, MAX_SLI - sl
  {
    if fl >= REAL_FLI then Miss
    else if sl >= MAX_SLI then ScanLists(lists, fl + 1, 0)
    else if Class(fl, sl) in lists && lists[Class(fl, sl)] != [] then Hit(Class(fl, sl))
    else ScanLists(lists, fl, sl + 1)
  }

  ghost predicate NoBlocks(lists: map<Class, seq<int>>, c: Class) {
    c in lists ==> lists[c] == []
  }

  // The scan finds the first non-empty list that does not come before (fl, sl), if any.
  lemma {:induction false} ScanListsFirst(lists: map<Class, seq<int>>, fl: int, sl: int, d: Class)
    requires 0 <= fl && 0 <= sl && (forall c | c in lists :: OwnList(c))
    requires !Before(d, Class(fl, sl))
    ensures match ScanLists(lists, fl, sl)
            case Undefined => false
            case Miss => NoBlocks(lists, d)
            case Hit(c) => c in lists && lists[c] != [] && !Before(c, Class(fl, sl)) && (Before(d, c) ==> NoBlocks(lists, d))
    decreases REAL_FLI - fl, MAX_SLI - sl
  {
    if fl >= REAL_FLI {
    } else if sl >= MAX_SLI {
      ScanListsFirst(lists, fl + 1, 0, if Before(d, Class(fl + 1, 0)) then Class(fl + 1, 0) else d);
    } else if Class(fl, sl) in lists && lists[Class(fl, sl)] != [] {
    } else {
      ScanListsFirst(lists, fl, sl + 1, if d == Class(fl, sl) then Class(fl, sl + 1) else d);
    }
  }

  // ---------------------------------------------------------------- bits and lists

  // The bit of one list that the search can find.
  ghost predicate ListBit(x: Bitmaps, lists: map<Class, seq<int>>, c: Class)
    requires Sized(x) && OwnList(c) && Narrow(c) && c in lists
  {
    Bit(x.sl[c.fl], c.sl) <==> lists[c] != []
  }

  // The bit of one row.
  ghost predicate RowBit(x: Bitmaps, f: int)
    requires Sized(x) && 0 <= f < 32
  {
    Bit(x.fl, f) <==> f < REAL_FLI && x.sl[f] != 0
  }

  // The index agrees with the lists as far as the search can see.
  ghost predicate Right(x: Bitmaps, lists: map<Class, seq<int>>) {
    && Sized(x)
    && (forall c :: c in lists <==> OwnList(c))
    && (forall c {:trigger ListBit(x, lists, c)} | c in lists && Narrow(c) :: ListBit(x, lists, c))
    && (forall f {:trigger RowBit(x, f)} | 0 <= f < 32 :: RowBit(x, f))
  }

  lemma NoBitsRight(lists: map<Class, seq<int>>)
    requires (forall c :: c in lists <==> OwnList(c)) && (forall c | c in lists :: lists[c] == [])
    ensures Right(NoBits(), lists)
  {
    var x := NoBits();
    forall c | c in lists && Narrow(c)
      ensures ListBit(x, lists, c)
    {
      ZeroHasNoBit(x.sl[c.fl], c.sl);
    }
    forall f | 0 <= f < 32
      ensures RowBit(x, f)
    {
      ZeroHasNoBit(x.fl, f);
    }
  }

  // An insertion keeps the bits right if and only if the list is one of the first 32 of its
  // row, or the bit that is set instead and the row's own bit were set before.
  lemma InsertRight(x: Bitmaps, lists: map<Class, seq<int>>, c: Class, b: int)
    requires Right(x, lists) && CanIndex(x, c)
    ensures Right(Inserted(x, c), lists[c := [b] + lists[c]])
            <==> Narrow(c) || (lists[Shadow(c)] != [] && x.sl[c.fl] != 0)
  {
    if Narrow(c) {
      InsertNarrow(x, lists, c, b);
    } else if lists[Shadow(c)] != [] && x.sl[c.fl] != 0 {
      InsertUnseen(x, lists, c, b);
    } else {
      InsertWrong(x, lists, c, b);
    }
  }

  lemma InsertNarrow(x: Bitmaps, lists: map<Class, seq<int>>, c: Class, b: int)
    requires Right(x, lists) && CanIndex(x, c) && Narrow(c)
    ensures Right(Inserted(x, c), lists[c := [b] + lists[c]])
  {
    var x', lists' := Inserted(x, c), lists[c := [b] + lists[c]];
    forall d | d in lists' && Narrow(d)
      ensures ListBit(x', lists', d)
    {
      assert ListBit(x, lists, d);
      SetBit(x.sl[c.fl], c.sl, d.sl);
    }
    forall f | 0 <= f < 32
      ensures RowBit(x', f)
    {
      assert RowBit(x, f);
      SetBit(x.fl, c.fl, f);
      WithBitNonzero(x.sl[c.fl], c.sl);
    }
  }

  // Both bits were set already.
  lemma InsertUnseen(x: Bitmaps, lists: map<Class, seq<int>>, c: Class, b: int)
    requires Right(x, lists) && CanIndex(x, c) && !Narrow(c) && lists[Shadow(c)] != [] && x.sl[c.fl] != 0
    ensures Right(Inserted(x, c), lists[c := [b] + lists[c]])
  {
    var x', lists' := Inserted(x, c), lists[c := [b] + lists[c]];
    var w := WordOf(c);
    assert ListBit(x, lists, Shadow(c)) && RowBit(x, c.fl);
    forall d | d in lists' && Narrow(d)
      ensures ListBit(x', lists', d)
    {
      assert ListBit(x, lists, d);
      SetBit(x.sl[w], BitOf(c), d.sl);
    }
    forall f | 0 <= f < 32
      ensures RowBit(x', f)
    {
      assert RowBit(x, f);
      SetBit(x.fl, c.fl, f);
      WithBitNonzero(x.sl[w], BitOf(c));
      BitNonzero(x.sl[w], BitOf(c));
    }
  }

  // A bit that was clear says that there is a block where there is none.
  lemma InsertWrong(x: Bitmaps, lists: map<Class, seq<int>>, c: Class, b: int)
    requires Right(x, lists) && CanIndex(x, c) && !Narrow(c) && (lists[Shadow(c)] == [] || x.sl[c.fl] == 0)
    ensures !Right(Inserted(x, c), lists[c := [b] + lists[c]])
  {
    var x', lists' := Inserted(x, c), lists[c := [b] + lists[c]];
    SetBit(x.sl[WordOf(c)], BitOf(c), BitOf(c));
    SetBit(x.fl, c.fl, c.fl);
    if lists[Shadow(c)] == [] {
      assert Right(x', lists') ==> ListBit(x', lists', Shadow(c));
    } else {
      assert Right(x', lists') ==> RowBit(x', c.fl);
    }
  }

  // An extraction keeps the bits right if and only if the list is one of the first 32 of its
  // row, or does not become empty, or there was no bit to be cleared.
  lemma ExtractRight(x: Bitmaps, lists: map<Class, seq<int>>, c: Class, b: int, s: seq<int>)
    requires Right(x, lists) && CanIndex(x, c) && b in lists[c] && (s == [] <==> lists[c] == [b])
    ensures Right(Extracted(x, c, lists[c], b), lists[c := s])
            <==> Narrow(c) || s != [] || lists[Shadow(c)] == []
  {
    if s != [] {
      StillListed(x, lists, c, s);
    } else if Narrow(c) {
      EmptiedNarrow(x, lists, c);
    } else {
      EmptiedWide(x, lists, c);
    }
  }

  lemma StillListed(x: Bitmaps, lists: map<Class, seq<int>>, c: Class, s: seq<int>)
    requires Right(x, lists) && c in lists && s != [] && lists[c] != []
    ensures Right(x, lists[c := s])
  {
    var lists' := lists[c := s];
    forall d | d in lists' && Narrow(d)
      ensures ListBit(x, lists', d)
    {
      assert ListBit(x, lists, d);
    }
  }

  lemma EmptiedNarrow(x: Bitmaps, lists: map<Class, seq<int>>, c: Class)
    requires Right(x, lists) && CanIndex(x, c) && Narrow(c) && lists[c] != []
    ensures Right(Emptied(x, c), lists[c := []])
  {
    var x', lists' := Emptied(x, c), lists[c := []];
    assert ListBit(x, lists, c);
    forall d | d in lists' && Narrow(d)
      ensures ListBit(x', lists', d)
    {
      assert ListBit(x, lists, d);
      ClearBit(x.sl[c.fl], c.sl, d.sl);
    }
    forall f | 0 <= f < 32
      ensures RowBit(x', f)
    {
      assert RowBit(x, f) && RowBit(x, c.fl);
      ClearBit(x.fl, c.fl, f);
      BitNonzero(x.sl[c.fl], c.sl);
    }
  }

  lemma EmptiedWide(x: Bitmaps, lists: map<Class, seq<int>>, c: Class)
    requires Right(x, lists) && CanIndex(x, c) && !Narrow(c) && lists[c] != []
    ensures Right(Emptied(x, c), lists[c := []]) <==> lists[Shadow(c)] == []
  {
    assert ListBit(x, lists, Shadow(c));
    if lists[Shadow(c)] == [] {
      EmptiedUnseen(x, lists, c);
    } else {
      EmptiedWrong(x, lists, c);
    }
  }

  // Neither bit was set.
  lemma EmptiedUnseen(x: Bitmaps, lists: map<Class, seq<int>>, c: Class)
    requires Right(x, lists) && CanIndex(x, c) && !Narrow(c) && !Bit(x.sl[WordOf(c)], BitOf(c))
    ensures Right(Emptied(x, c), lists[c := []])
  {
    var x', lists' := Emptied(x, c), lists[c := []];
    NothingToClear(x.sl[WordOf(c)], BitOf(c));
    assert RowBit(x, c.fl);
    if x.sl[c.fl] == 0 {
      NothingToClear(x.fl, c.fl);
    }
    assert x'.fl == x.fl && x'.sl == x.sl;
    forall d | d in lists' && Narrow(d)
      ensures ListBit(x', lists', d)
    {
      assert ListBit(x, lists, d);
    }
    forall f | 0 <= f < 32
      ensures RowBit(x', f)
    {
      assert RowBit(x, f);
    }
  }

  // A bit is cleared that says rightly that there is a block.
  lemma EmptiedWrong(x: Bitmaps, lists: map<Class, seq<int>>, c: Class)
    requires Right(x, lists) && CanIndex(x, c) && !Narrow(c) && lists[Shadow(c)] != []
    ensures !Right(Emptied(x, c), lists[c := []])
  {
    ClearBit(x.sl[WordOf(c)], BitOf(c), BitOf(c));
    assert Right(Emptied(x, c), lists[c := []]) ==> ListBit(Emptied(x, c), lists[c := []], Shadow(c));
  }

  lemma NothingToClear(w: bv32, i: int)
    requires 0 <= i < 32 && !Bit(w, i)
    ensures WithoutBit(w, i) == w
  {
    forall j | 0 <= j < 32
      ensures Bit(WithoutBit(w, i), j) == Bit(w, j)
    {
      ClearBit(w, i, j);
    }
    SameBits(WithoutBit(w, i), w);
  }

  // ---------------------------------------------------------------- search and scan

  // What one half of the search contributes to the other: a row without bits from s on has
  // no list there that the search could find.
  lemma RowClear(x: Bitmaps, lists: map<Class, seq<int>>, c: Class, d: Class)
    requires Right(x, lists) && OwnList(c) && Narrow(c) && BitsFrom(x.sl[c.fl], c.sl) == 0
    requires d in lists && d.fl == c.fl && c.sl <= d.sl && Narrow(d)
    ensures lists[d] == []
  {
    assert ListBit(x, lists, d);
    MaskBit(x.sl[c.fl], c.sl, d.sl);
    ZeroHasNoBit(BitsFrom(x.sl[c.fl], c.sl), d.sl);
  }

  // Nor has a row without a first-level bit.
  lemma RowOff(x: Bitmaps, lists: map<Class, seq<int>>, d: Class)
    requires Right(x, lists) && d in lists && Narrow(d) && !Bit(x.fl, d.fl)
    ensures lists[d] == []
  {
    assert RowBit(x, d.fl) && ListBit(x, lists, d);
    ZeroHasNoBit(x.sl[d.fl], d.sl);
  }

  // As far as list d is concerned, r is the first non-empty list.
  ghost predicate FirstFor(lists: map<Class, seq<int>>, r: Search, d: Class)
    requires d in lists
  {
    match r
    case Undefined => false
    case Miss => lists[d] == []
    case Hit(e) => e in lists && Narrow(e) && lists[e] != [] && (Before(d, e) ==> lists[d] == [])
  }

  // With right bits the search finds the first non-empty list among those that have bits.
  lemma FindFirst(x: Bitmaps, lists: map<Class, seq<int>>, c: Class, d: Class)
    requires Right(x, lists) && OwnList(c) && Narrow(c) && OwnList(d) && Narrow(d) && !Before(d, c)
    ensures FirstFor(lists, Find(x, c), d)
  {
    var m, v := BitsFrom(x.sl[c.fl], c.sl), BitsFrom(x.fl, c.fl + 1);
    FindIsMasked(x, c, m, v);
    MaskedFirst(x, lists, c, d, m, v);
  }

  lemma FindIsMasked(x: Bitmaps, c: Class, m: bv32, v: bv32)
    requires Sized(x) && OwnList(c) && Narrow(c) && m == BitsFrom(x.sl[c.fl], c.sl) && v == BitsFrom(x.fl, c.fl + 1)
    ensures Find(x, c) == FindMasked(x, c.fl, m, v)
  {
  }

  lemma MaskedFirst(x: Bitmaps, lists: map<Class, seq<int>>, c: Class, d: Class, m: bv32, v: bv32)
    requires Right(x, lists) && OwnList(c) && Narrow(c) && OwnList(d) && Narrow(d) && !Before(d, c)
    requires m == BitsFrom(x.sl[c.fl], c.sl) && v == BitsFrom(x.fl, c.fl + 1)
    ensures FirstFor(lists, FindMasked(x, c.fl, m, v), d)
  {
    if m != 0 {
      FirstInRow(x, lists, c, d, m, Lowest(m));
    } else {
      if d.fl == c.fl {
        RowClear(x, lists, c, d);
      }
      if v == 0 {
        NoRow(x, lists, c, d, v);
      } else {
        FirstRow(x, lists, c, d, v, Lowest(v));
      }
    }
  }

  lemma FirstInRow(x: Bitmaps, lists: map<Class, seq<int>>, c: Class, d: Class, m: bv32, t: int)
    requires Right(x, lists) && OwnList(c) && Narrow(c) && OwnList(d) && Narrow(d) && !Before(d, c)
    requires m == BitsFrom(x.sl[c.fl], c.sl) && IsLowest(m, t)
    ensures FirstFor(lists, Hit(Class(c.fl, t)), d)
  {
    MaskBit(x.sl[c.fl], c.sl, t);
    MaskBit(x.sl[c.fl], c.sl, d.sl);
    assert ListBit(x, lists, Class(c.fl, t)) && ListBit(x, lists, d);
  }

  lemma NoRow(x: Bitmaps, lists: map<Class, seq<int>>, c: Class, d: Class, v: bv32)
    requires Right(x, lists) && OwnList(c) && OwnList(d) && Narrow(d) && (c.fl < d.fl || lists[d] == [])
    requires v == BitsFrom(x.fl, c.fl + 1) == 0
    ensures lists[d] == []
  {
    MaskBit(x.fl, c.fl + 1, d.fl);
    ZeroHasNoBit(v, d.fl);
    if c.fl < d.fl {
      RowOff(x, lists, d);
    }
  }

  lemma FirstRow(x: Bitmaps, lists: map<Class, seq<int>>, c: Class, d: Class, v: bv32, r: int)
    requires Right(x, lists) && OwnList(c) && OwnList(d) && Narrow(d) && (c.fl < d.fl || lists[d] == [])
    requires v == BitsFrom(x.fl, c.fl + 1) && IsLowest(v, r)
    ensures FirstFor(lists, FindRow(x, r), d)
  {
    MaskBit(x.fl, c.fl + 1, r);
    assert RowBit(x, r);
    RowHead(x, lists, r, d, Lowest(x.sl[r]));
    if c.fl < d.fl < r {
      MaskBit(x.fl, c.fl + 1, d.fl);
      RowOff(x, lists, d);
    }
  }

  lemma RowHead(x: Bitmaps, lists: map<Class, seq<int>>, r: int, d: Class, t: int)
    requires Right(x, lists) && 0 <= r < REAL_FLI && IsLowest(x.sl[r], t) && OwnList(d) && Narrow(d)
    ensures Class(r, t) in lists && lists[Class(r, t)] != [] && (d.fl == r && d.sl < t ==> lists[d] == [])
  {
    assert ListBit(x, lists, Class(r, t)) && ListBit(x, lists, d);
  }

  // Where the bits are right, the shift and the matrix access of the search are defined if
  // and only if the class searched for is one of the first 32 of its row.
  lemma FindDefined(x: Bitmaps, lists: map<Class, seq<int>>, c: Class)
    requires Right(x, lists) && OwnList(c)
    ensures Find(x, c).Undefined? <==> !Narrow(c)
  {
    if Narrow(c) {
      FindFirst(x, lists, c, c);
    }
  }

  // Then it finds what the scan finds, if and only if that is nothing or is, too, one of the
  // first 32 of its row.
  lemma FindIsScan(x: Bitmaps, lists: map<Class, seq<int>>, c: Class)
    requires Right(x, lists) && OwnList(c)
    ensures var found := ScanLists(lists, c.fl, c.sl);
            Find(x, c) == found <==> Narrow(c) && (found.Hit? ==> Narrow(found.list))
  {
    var found := ScanLists(lists, c.fl, c.sl);
    ScanListsFirst(lists, c.fl, c.sl, c);
    if Narrow(c) {
      FindFirst(x, lists, c, c);
      if Find(x, c).Hit? {
        FindIsLater(x, c);
        ScanListsFirst(lists, c.fl, c.sl, Find(x, c).list);
      }
      if found.Hit? && Narrow(found.list) {
        FindFirst(x, lists, c, found.list);
      }
    }
  }

  // ---------------------------------------------------------------- agreement

  // Every list that has a block has its own bit.
  ghost predicate AllNarrow(lists: map<Class, seq<int>>) {
    forall c | c in lists && lists[c] != [] :: Narrow(c)
  }

  // The bits are right and tell of all lists.
  ghost predicate Agrees(x: Bitmaps, lists: map<Class, seq<int>>) {
    Right(x, lists) && AllNarrow(lists)
  }

  // Then the search is the scan wherever it is defined.
  lemma AgreedFind(x: Bitmaps, lists: map<Class, seq<int>>, c: Class)
    requires Agrees(x, lists) && OwnList(c)
    ensures Find(x, c) == (if Narrow(c) then ScanLists(lists, c.fl, c.sl) else Undefined)
  {
    FindIsScan(x, lists, c);
    ScanListsFirst(lists, c.fl, c.sl, c);
  }

  // ---------------------------------------------------------------- one block

  // The lists when block b of class c is all there is.
  ghost predicate OnlyOne(lists: map<Class, seq<int>>, c: Class, b: int) {
    && (forall d :: d in lists <==> OwnList(d))
    && (forall d | d in lists :: lists[d] == if d == c then [b] else [])
  }

  // What the search finds when one block is listed that would do: the block, if it is of one
  // of the first 32 lists of its row; otherwise nothing, if the request is of the same row;
  // otherwise it uses the subscript -1 in the block's row.
  lemma OneBlockFound(lists: map<Class, seq<int>>, c: Class, b: int, k: Class)
    requires OnlyOne(lists, c, b) && CanIndex(NoBits(), c) && OwnList(k) && Narrow(k) && !Before(c, k)
    ensures Find(Inserted(NoBits(), c), k)
            == if Narrow(c) then Hit(c) else if k.fl == c.fl then Miss else Undefined
  {
    var none := lists[c := []];
    var x := Inserted(NoBits(), c);
    NoBitsRight(none);
    assert [b] + none[c] == lists[c];
    assert lists == none[c := lists[c]];
    if Narrow(c) {
      InsertNarrow(NoBits(), none, c, b);
      FindFirst(x, lists, k, c);
    } else {
      OnlyItsBits(c, k);
    }
  }

  lemma OnlyItsBits(c: Class, k: Class)
    requires CanIndex(NoBits(), c) && !Narrow(c) && OwnList(k) && Narrow(k) && !Before(c, k)
    ensures Find(Inserted(NoBits(), c), k) == if k.fl == c.fl then Miss else Undefined
  {
    var x := Inserted(NoBits(), c);
    OnlyItsRowBits(x, c.fl, k, BitsFrom(x.sl[k.fl], k.sl), BitsFrom(x.fl, k.fl + 1));
  }

  lemma OnlyItsRowBits(x: Bitmaps, f: int, k: Class, m: bv32, v: bv32)
    requires Sized(x) && 0 <= k.fl <= f < REAL_FLI && 0 <= k.sl < 32
    requires x.fl == WithBit(0, f) && x.sl[k.fl] == 0 && x.sl[f] == 0
    requires m == BitsFrom(x.sl[k.fl], k.sl) && v == BitsFrom(x.fl, k.fl + 1)
    ensures FindMasked(x, k.fl, m, v) == if k.fl == f then Miss else Undefined
  {
    OnlyItsMasks(f, k, x.sl[k.fl], x.fl, m, v);
    OnlyItsRow(x, f, k.fl, m, v);
  }

  lemma OnlyItsMasks(f: int, k: Class, row: bv32, rows: bv32, m: bv32, v: bv32)
    requires 0 <= k.fl <= f < REAL_FLI && 0 <= k.sl < 32 && row == 0 && rows == WithBit(0, f)
    requires m == BitsFrom(row, k.sl) && v == BitsFrom(rows, k.fl + 1)
    ensures m == 0 && if k.fl < f then IsLowest(v, f) else v == 0
  {
    NothingFrom(k.sl);
    OneFrom(f, k.fl + 1);
  }

  lemma OnlyItsRow(x: Bitmaps, f: int, k: int, m: bv32, v: bv32)
    requires Sized(x) && 0 <= k <= f < REAL_FLI && x.sl[f] == 0 && m == 0
    requires if k < f then IsLowest(v, f) else v == 0
    ensures FindMasked(x, k, m, v) == if k == f then Miss else Undefined
  {
    if k < f {
      LowestUnique(v, f);
    }
  }

  lemma NothingFrom(s: int)
    requires 0 <= s < 32
    ensures BitsFrom(0, s) == 0
  {
  }

  lemma OneFrom(i: int, s: int)
    requires 0 <= i < 32 && 0 <= s < 32
    ensures s <= i ==> IsLowest(BitsFrom(WithBit(0, i), s), i)
    ensures i < s ==> BitsFrom(WithBit(0, i), s) == 0
  {
    forall j | 0 <= j < 32
      ensures Bit(BitsFrom(WithBit(0, i), s), j) <==> s <= j && j == i
    {
      MaskBit(WithBit(0, i), s, j);
      SetBit(0, i, j);
      ZeroHasNoBit(0, j);
    }
    if i < s {
      forall j | 0 <= j < 32
        ensures Bit(BitsFrom(WithBit(0, i), s), j) == Bit(0, j)
      {
        ZeroHasNoBit(0, j);
      }
      SameBits(BitsFrom(WithBit(0, i), s), 0);
    }
  }

  // With a free block of 48 bytes and no other, a request of 16 bytes finds nothing; with one
  // of 7008 bytes, it uses the subscript -1 in a row of the matrix.
  lemma MissedExample(lists: map<Class, seq<int>>, b: int)
    requires OnlyOne(lists, ListOf(48), b)
    ensures Find(Inserted(NoBits(), ListOf(48)), ListOf(16)) == Miss && ScanLists(lists, 0, 16) == Hit(ListOf(48))
  {
    OneBlockFound(lists, ListOf(48), b, ListOf(16));
    ScanListsFirst(lists, 0, 16, ListOf(48));
  }

  lemma UndefinedExample(lists: map<Class, seq<int>>, b: int)
    requires OnlyOne(lists, Class(6, 91), b)
    ensures ListOf(7008) == Class(6, 91)
    ensures Find(Inserted(NoBits(), Class(6, 91)), ListOf(16)) == Undefined && ScanLists(lists, 0, 16) == Hit(Class(6, 91))
  {
    ListOf7008();
    OneBlockFound(lists, Class(6, 91), b, ListOf(16));
    ScanListsFirst(lists, 0, 16, Class(6, 91));
  }

  lemma ListOf7008()
    ensures ListOf(7008) == Class(6, 91)
  {
    assert Pow2(5) == 32;
    ListIs(7008, 12, 219);
  }

  // Were a shift count taken modulo 32, as some machines do, a request of 48 bytes would be
  // answered with a block of 16.
  lemma WrappedShiftExample()
    ensures ListOf(48) == Class(0, 48) && ListOf(16) == Class(0, 16)
    ensures Lowest(BitsFrom(Inserted(NoBits(), Class(0, 16)).sl[0], 48 % 32)) == 16
  {
    OneFrom(16, 16);
    LowestUnique(BitsFrom(WithBit(0, 16), 16), 16);
  }
}
