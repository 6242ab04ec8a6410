/**
 The two-level index over the free lists (tlsf.c:254-265): the list heads and the two
 bitmaps, and what they say of a heap's lists.
 */
module FreeIndex {
  import opened Bits
  import opened SizeClasses
  import opened Heaps
  import opened HeapOps
  import opened Layout

  // Position of a list head in the row-major matrix blocks[FL_INDEX_COUNT][SL_INDEX_COUNT].
  function Slot(c: Class): int {
    c.fl * SL_INDEX_COUNT + c.sl
  }

  // The bitmaps and the heads as values.
  datatype Index = Index(flBitmap: bv32, slBitmap: seq<bv32>, heads: seq<int>)

  ghost predicate Sized(x: Index) {
    |x.slBitmap| == FL_INDEX_COUNT && |x.heads| == FL_INDEX_COUNT * SL_INDEX_COUNT
  }

  // The head and the second-level bit of one list.
  ghost predicate ClassAt(x: Index, lists: map<Class, seq<int>>, ctl: int, c: Class)
    requires Sized(x) && ValidClass(c) && c in lists
  {
    && x.heads[Slot(c)] == HeadOf(lists[c], ctl)
    && (Bit(x.slBitmap[c.fl], c.sl) <==> lists[c] != [])
  }

  // The first-level bit of one row. Row 32 has no bit.
  ghost predicate RowAt(x: Index, f: int)
    requires Sized(x) && 0 <= f < 32
  {
    Bit(x.flBitmap, f) <==> x.slBitmap[f] != 0
  }

  // A list is empty if and only if its second-level bit is clear, and a row of lists if
  // and only if its first-level bit is.
  ghost predicate Indexed(x: Index, lists: map<Class, seq<int>>, ctl: int) {
    && Sized(x)
    && (forall c :: c in lists <==> ValidClass(c))
    && (forall c {:trigger ClassAt(x, lists, ctl, c)} | c in lists :: ClassAt(x, lists, ctl, c))
    && (forall f {:trigger RowAt(x, f)} | 0 <= f < 32 :: RowAt(x, f))
  }

  // The index that control_construct sets up says that every list is empty.
  lemma NoneIndexed(x: Index, lists: map<Class, seq<int>>, ctl: int)
    requires Sized(x) && x.flBitmap == 0 && (forall f | 0 <= f < FL_INDEX_COUNT :: x.slBitmap[f] == 0)
    requires forall i | 0 <= i < |x.heads| :: x.heads[i] == ctl
    requires forall c :: c in lists <==> ValidClass(c)
    requires forall c | c in lists :: lists[c] == []
    ensures Indexed(x, lists, ctl)
  {
    forall c | c in lists
      ensures ClassAt(x, lists, ctl, c)
    {
      ZeroHasNoBit(x.slBitmap[c.fl], c.sl);
    }
    forall f | 0 <= f < 32
      ensures RowAt(x, f)
    {
      ZeroHasNoBit(x.flBitmap, f);
    }
  }

  // ---------------------------------------------------------------- insert

  function Inserted(x: Index, c: Class, b: int): Index
    requires ValidClass(c) && c.fl < 32 && |x.slBitmap| == FL_INDEX_COUNT
    requires |x.heads| == FL_INDEX_COUNT * SL_INDEX_COUNT
  {
    Index(WithBit(x.flBitmap, c.fl),
          x.slBitmap[c.fl := WithBit(x.slBitmap[c.fl], c.sl)],
          x.heads[Slot(c) := b])
  }

  lemma InsertIndexed(x: Index, lists: map<Class, seq<int>>, ctl: int, c: Class, b: int)
    requires Indexed(x, lists, ctl) && ValidClass(c) && c.fl < 32
    ensures Indexed(Inserted(x, c, b), lists[c := [b] + lists[c]], ctl)
  {
    var x', lists' := Inserted(x, c, b), lists[c := [b] + lists[c]];
    forall d | d in lists'
      ensures ClassAt(x', lists', ctl, d)
    {
      assert ClassAt(x, lists, ctl, d);
      SetBit(x.slBitmap[c.fl], c.sl, d.sl);
    }
    forall f | 0 <= f < 32
      ensures RowAt(x', f)
    {
      assert RowAt(x, f);
      SetBit(x.flBitmap, c.fl, f);
      WithBitNonzero(x.slBitmap[c.fl], c.sl);
    }
  }

  // ---------------------------------------------------------------- remove

  // What remove_free_block leaves when it takes out a block of list c whose successor is
  // next: nothing changes unless the block heads its list.
  function Removed(x: Index, c: Class, b: int, next: int, ctl: int): Index
    requires ValidClass(c) && c.fl < 32 && |x.slBitmap| == FL_INDEX_COUNT
    requires |x.heads| == FL_INDEX_COUNT * SL_INDEX_COUNT
  {
    if x.heads[Slot(c)] != b then x
    else if next != ctl then x.(heads := x.heads[Slot(c) := next])
    else
      var row := WithoutBit(x.slBitmap[c.fl], c.sl);
      Index(if row == 0 then WithoutBit(x.flBitmap, c.fl) else x.flBitmap,
            x.slBitmap[c.fl := row],
            x.heads[Slot(c) := next])
  }

  lemma RemoveIndexed(x: Index, lists: map<Class, seq<int>>, ctl: int, c: Class, i: int)
    requires Indexed(x, lists, ctl) && ValidClass(c) && c.fl < 32
    requires 0 <= i < |lists[c]| && Distinct(lists[c]) && ctl !in lists[c]
    ensures var b := lists[c][i];
            Indexed(Removed(x, c, b, NextIn(lists[c], i, ctl), ctl), lists[c := Without(lists[c], b)], ctl)
  {
    var b := lists[c][i];
    assert ClassAt(x, lists, ctl, c);
    WithoutAt(lists[c], i);
    if i > 0 {
      SameHeadIndexed(x, lists, ctl, c, Without(lists[c], b));
    } else {
      assert Without(lists[c], b) == lists[c][1..];
      if |lists[c]| > 1 {
        NewHeadIndexed(x, lists, ctl, c, lists[c][1..]);
      } else {
        EmptiedIndexed(x, lists, ctl, c);
      }
    }
  }

  lemma SameHeadIndexed(x: Index, lists: map<Class, seq<int>>, ctl: int, c: Class, s: seq<int>)
    requires Indexed(x, lists, ctl) && ValidClass(c) && lists[c] != [] && s != [] && s[0] == lists[c][0]
    ensures Indexed(x, lists[c := s], ctl)
  {
    var lists' := lists[c := s];
    forall d | d in lists'
      ensures ClassAt(x, lists', ctl, d)
    {
      assert ClassAt(x, lists, ctl, d);
    }
  }

  lemma NewHeadIndexed(x: Index, lists: map<Class, seq<int>>, ctl: int, c: Class, s: seq<int>)
    requires Indexed(x, lists, ctl) && ValidClass(c) && lists[c] != [] && s != []
    ensures Indexed(x.(heads := x.heads[Slot(c) := s[0]]), lists[c := s], ctl)
  {
    var x', lists' := x.(heads := x.heads[Slot(c) := s[0]]), lists[c := s];
    forall d | d in lists'
      ensures ClassAt(x', lists', ctl, d)
    {
      assert ClassAt(x, lists, ctl, d);
    }
    forall f | 0 <= f < 32
      ensures RowAt(x', f)
    {
      assert RowAt(x, f);
    }
  }

  lemma EmptiedIndexed(x: Index, lists: map<Class, seq<int>>, ctl: int, c: Class)
    requires Indexed(x, lists, ctl) && ValidClass(c) && c.fl < 32 && |lists[c]| == 1
    ensures Indexed(Removed(x, c, lists[c][0], ctl, ctl), lists[c := []], ctl)
  {
    assert ClassAt(x, lists, ctl, c);
    var x', lists' := Removed(x, c, lists[c][0], ctl, ctl), lists[c := []];
    forall d | d in lists'
      ensures ClassAt(x', lists', ctl, d)
    {
      assert ClassAt(x, lists, ctl, d);
      ClearBit(x.slBitmap[c.fl], c.sl, d.sl);
    }
    forall f | 0 <= f < 32
      ensures RowAt(x', f)
    {
      assert RowAt(x, f);
      ClearBit(x.flBitmap, c.fl, f);
      assert RowAt(x, c.fl);
      BitNonzero(x.slBitmap[c.fl], c.sl);
    }
  }

  // ---------------------------------------------------------------- search

  // Skipping empty lists within a row.
  lemma {:induction false} ScanSkips(lists: map<Class, seq<int>>, f: int, s: int, t: int)
    requires 0 <= f < FL_INDEX_COUNT && 0 <= s <= t <= SL_INDEX_COUNT
    requires forall c | c in lists :: ValidClass(c)
    requires forall j | s <= j < t :: EmptyAt(lists, Class(f, j))
    ensures Scan(lists, f, s) == Scan(lists, f, t)
    decreases t - s
  {
    if s == t {
    } else {
      assert EmptyAt(lists, Class(f, s));
      ScanSkips(lists, f, s + 1, t);
    }
  }

  // Skipping empty rows.
  lemma {:induction false} ScanSkipsRows(lists: map<Class, seq<int>>, f: int, t: int)
    requires 0 <= f <= t <= FL_INDEX_COUNT
    requires forall c | c in lists :: ValidClass(c)
    requires forall i, j | f <= i < t && 0 <= j < SL_INDEX_COUNT :: EmptyAt(lists, Class(i, j))
    ensures Scan(lists, f, 0) == Scan(lists, t, 0)
    decreases t - f
  {
    if f == t {
    } else {
      ScanSkips(lists, f, 0, SL_INDEX_COUNT);
      ScanSkipsRows(lists, f + 1, t);
    }
  }

  // A row whose bits from s on are clear has no list there.
  lemma RowEmpty(x: Index, lists: map<Class, seq<int>>, ctl: int, f: int, s: int)
    requires Indexed(x, lists, ctl) && 0 <= f < FL_INDEX_COUNT && 0 <= s < SL_INDEX_COUNT
    requires BitsFrom(x.slBitmap[f], s) == 0
    ensures forall j | s <= j < SL_INDEX_COUNT :: EmptyAt(lists, Class(f, j))
  {
    forall j | s <= j < SL_INDEX_COUNT
      ensures EmptyAt(lists, Class(f, j))
    {
      assert ClassAt(x, lists, ctl, Class(f, j));
      MaskBit(x.slBitmap[f], s, j);
      ZeroHasNoBit(BitsFrom(x.slBitmap[f], s), j);
    }
  }

  // The lowest bit from s on names the first non-empty list from s on.
  lemma RowFound(x: Index, lists: map<Class, seq<int>>, ctl: int, f: int, s: int, t: int)
    requires Indexed(x, lists, ctl) && 0 <= f < FL_INDEX_COUNT && 0 <= s < SL_INDEX_COUNT
    requires IsLowest(BitsFrom(x.slBitmap[f], s), t)
    ensures Scan(lists, f, s) == At(Class(f, t))
  {
    forall j | s <= j < t
      ensures EmptyAt(lists, Class(f, j))
    {
      assert ClassAt(x, lists, ctl, Class(f, j));
      MaskBit(x.slBitmap[f], s, j);
    }
    MaskBit(x.slBitmap[f], s, t);
    assert ClassAt(x, lists, ctl, Class(f, t));
    ScanSkips(lists, f, s, t);
  }

  // Row 32 of the lists, which has no first-level bit, is empty.
  ghost predicate TopRowEmpty(lists: map<Class, seq<int>>) {
    forall j | 0 <= j < SL_INDEX_COUNT :: EmptyAt(lists, Class(32, j))
  }

  // A row whose first-level bit is clear has no list.
  lemma RowsEmpty(x: Index, lists: map<Class, seq<int>>, ctl: int, f: int, t: int)
    requires Indexed(x, lists, ctl) && 0 <= f <= t <= 32
    requires forall i | f <= i < t :: !Bit(x.flBitmap, i)
    ensures forall i, j | f <= i < t && 0 <= j < SL_INDEX_COUNT :: EmptyAt(lists, Class(i, j))
  {
    forall i, j | f <= i < t && 0 <= j < SL_INDEX_COUNT
      ensures EmptyAt(lists, Class(i, j))
    {
      assert RowAt(x, i) && ClassAt(x, lists, ctl, Class(i, j));
      ZeroHasNoBit(x.slBitmap[i], j);
    }
  }

  // No bit in the rest of the row and no row above: nothing is found.
  lemma SearchNothing(x: Index, lists: map<Class, seq<int>>, ctl: int, f: int, s: int)
    requires Indexed(x, lists, ctl) && TopRowEmpty(lists) && 0 <= f < 31 && 0 <= s < SL_INDEX_COUNT
    requires BitsFrom(x.slBitmap[f], s) == 0 && BitsFrom(x.flBitmap, f + 1) == 0
    ensures Scan(lists, f, s) == Nothing
  {
    RowEmpty(x, lists, ctl, f, s);
    ScanSkips(lists, f, s, SL_INDEX_COUNT);
    forall i | f + 1 <= i < 32
      ensures !Bit(x.flBitmap, i)
    {
      MaskBit(x.flBitmap, f + 1, i);
      ZeroHasNoBit(BitsFrom(x.flBitmap, f + 1), i);
    }
    RowsEmpty(x, lists, ctl, f + 1, 32);
    ScanSkipsRows(lists, f + 1, 32);
    ScanSkips(lists, 32, 0, SL_INDEX_COUNT);
  }

  // No bit in the rest of the row: the search goes on at the next row that has one.
  lemma SearchNextRow(x: Index, lists: map<Class, seq<int>>, ctl: int, f: int, s: int, t: int)
    requires Indexed(x, lists, ctl) && 0 <= f < 31 && 0 <= s < SL_INDEX_COUNT
    requires BitsFrom(x.slBitmap[f], s) == 0 && IsLowest(BitsFrom(x.flBitmap, f + 1), t)
    ensures f < t < 32 && Scan(lists, f, s) == Scan(lists, t, 0) && x.slBitmap[t] != 0
  {
    RowEmpty(x, lists, ctl, f, s);
    ScanSkips(lists, f, s, SL_INDEX_COUNT);
    MaskBit(x.flBitmap, f + 1, t);
    forall i | f + 1 <= i < t
      ensures !Bit(x.flBitmap, i)
    {
      MaskBit(x.flBitmap, f + 1, i);
    }
    RowsEmpty(x, lists, ctl, f + 1, t);
    ScanSkipsRows(lists, f + 1, t);
    assert RowAt(x, t);
  }

  // The lowest bit of a row names its first non-empty list.
  lemma RowHead(x: Index, lists: map<Class, seq<int>>, ctl: int, f: int, t: int)
    requires Indexed(x, lists, ctl) && 0 <= f < FL_INDEX_COUNT && IsLowest(x.slBitmap[f], t)
    ensures Scan(lists, f, 0) == At(Class(f, t))
  {
    FromZero(x.slBitmap[f]);
    RowFound(x, lists, ctl, f, 0, t);
  }
}
