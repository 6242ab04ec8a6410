/**
 The two-level size classes: which free list a block size belongs to (tlsf.c:435-450),
 the rounding that makes a search "good fit" (tlsf.c:700-734), and the request sizes
 (tlsf.c:392-428). All sizes are in bytes.
 */
module SizeClasses {
  import opened Bits

  const SL_INDEX_COUNT_LOG2 := 5
  const ALIGN_SIZE := 8
  const SL_INDEX_COUNT := 32
  const FL_INDEX_SHIFT := 8
  const FL_INDEX_COUNT := 33
  const SMALL_BLOCK_SIZE := 256
  const BLOCK_HEADER_SIZE := 40
  const METADATA_SIZE := 16
  const BLOCK_START_OFFSET := 24
  const BLOCK_SIZE_MIN := 24
  const BLOCK_SIZE_MAX: int := 0x100_0000_0000 // 2^40

  // A pool payload below this bound keeps every class index inside the 32-bit fl_bitmap.
  const POOL_LIMIT: int := 0x80_0000_0000 // 2^39
  // A located size below this bound keeps the `int` shift of the rounding defined.
  const LOCATE_LIMIT: int := 0x10_0000_0000 // 2^36

  datatype Class = Class(fl: int, sl: int)

  predicate ValidClass(c: Class) {
    0 <= c.fl < FL_INDEX_COUNT && 0 <= c.sl < SL_INDEX_COUNT
  }

  // The order in which the lists are searched.
  predicate Before(c: Class, d: Class) {
    c.fl < d.fl || (c.fl == d.fl && c.sl < d.sl)
  }

  function ClassOf(size: nat): (c: Class)
    ensures 0 <= c.fl
  {
    if size < SMALL_BLOCK_SIZE then
      Class(0, size / (SMALL_BLOCK_SIZE / SL_INDEX_COUNT))
    else
      var l := Log2(size);
      LogAtLeast(size, 8);
      Class(l - (FL_INDEX_SHIFT - 1), size / Pow2(l - SL_INDEX_COUNT_LOG2) - SL_INDEX_COUNT)
  }

  lemma LogAtLeast(n: nat, k: nat)
    requires 0 < n && Pow2(k) <= n
    ensures k <= Log2(n)
  {
    Pow2Less(k, Log2(n) + 1);
  }

  // The bytes between consecutive classes of first-level row fl.
  function Step(fl: nat): (w: int)
    ensures w >= 8
  {
    if fl == 0 then 8 else (Pow2Mono(3, fl + 2); Pow2(fl + 2))
  }

  // The least size in class c, and the least size above class c.
  function Low(c: Class): int
    requires 0 <= c.fl
  {
    if c.fl == 0 then 8 * c.sl else (32 + c.sl) * Step(c.fl)
  }

  function High(c: Class): int
    requires 0 <= c.fl
  {
    Low(c) + Step(c.fl)
  }

  function Succ(c: Class): Class {
    if c.sl < SL_INDEX_COUNT - 1 then Class(c.fl, c.sl + 1) else Class(c.fl + 1, 0)
  }

  // ---------------------------------------------------------------- classes are intervals

  lemma DivBounds(n: nat, p: int)
    requires p > 0
    ensures n / p * p <= n < n / p * p + p
  {
  }

  lemma MulLess(a: int, b: int, p: int)
    requires p > 0 && a * p < b * p
    ensures a < b
  {
  }

  lemma QuotientWithin(n: nat, p: int, a: int, b: int)
    requires p > 0 && a * p <= n < b * p
    ensures a <= n / p < b
  {
    DivBounds(n, p);
    MulLess(n / p, b, p);
    assert (n / p + 1) * p == n / p * p + p;
    MulLess(a, n / p + 1, p);
  }

  lemma QuotientRange(n: nat, l: nat)
    requires l >= 5 && Pow2(l) <= n < Pow2(l + 1)
    ensures var p := Pow2(l - 5); 32 <= n / p < 64 && n / p * p <= n < n / p * p + p
  {
    Pow2Sum(l - 5, 5);
    Pow2Sum(l - 5, 6);
    assert Pow2(5) == 32 && Pow2(6) == 64;
    DivBounds(n, Pow2(l - 5));
    QuotientWithin(n, Pow2(l - 5), 32, 64);
  }

  // ClassOf places a size between the bounds of its class.
  lemma ClassBounds(size: nat)
    ensures var c := ClassOf(size);
            0 <= c.fl && 0 <= c.sl < SL_INDEX_COUNT && Low(c) <= size < High(c)
  {
    if size >= SMALL_BLOCK_SIZE {
      var l := Log2(size);
      LogAtLeast(size, 8);
      QuotientRange(size, l);
      LargeBounds(size, l);
    }
  }

  lemma LargeBounds(size: nat, l: nat)
    requires size >= SMALL_BLOCK_SIZE && l == Log2(size) >= 8
    ensures var c, p := ClassOf(size), Pow2(l - 5);
            c.fl == l - 7 && Step(c.fl) == p && Low(c) == size / p * p
  {
  }

  // ---------------------------------------------------------------- the intervals are ordered

  lemma StepMono(a: nat, b: nat)
    requires a <= b
    ensures Step(a) <= Step(b)
  {
    if 0 < a {
      Pow2Mono(a + 2, b + 2);
    }
  }

  function RowStart(fl: nat): int {
    if fl == 0 then 0 else 32 * Step(fl)
  }

  lemma RowEnd(c: Class)
    requires 0 <= c.fl && 0 <= c.sl < SL_INDEX_COUNT
    ensures RowStart(c.fl) <= Low(c) && High(c) <= RowStart(c.fl + 1)
    ensures c.sl == SL_INDEX_COUNT - 1 ==> High(c) == RowStart(c.fl + 1)
  {
    var w := Step(c.fl);
    if c.fl == 0 {
      assert Step(1) == 8 by { assert Pow2(3) == 8; }
    } else {
      assert Step(c.fl + 1) == 2 * w;
      Scale(32, 32 + c.sl, w);
      Scale(33 + c.sl, 64, w);
      assert (32 + c.sl) * w + w == (33 + c.sl) * w;
    }
  }

  lemma Scale(a: int, b: int, w: int)
    requires a <= b && 0 <= w
    ensures a * w <= b * w
  {
  }

  lemma RowStartMono(a: nat, b: nat)
    requires a <= b
    ensures RowStart(a) <= RowStart(b)
  {
    if 0 < a {
      StepMono(a, b);
    }
  }

  // A class that comes earlier in search order lies entirely below.
  lemma ClassesOrdered(c: Class, d: Class)
    requires 0 <= c.fl && 0 <= c.sl < SL_INDEX_COUNT
    requires 0 <= d.fl && 0 <= d.sl < SL_INDEX_COUNT
    requires Before(c, d)
    ensures High(c) <= Low(d)
  {
    if c.fl == d.fl {
      var w := Step(c.fl);
      Scale(c.sl + 1, d.sl, w);
      assert (32 + c.sl) * w + w == (33 + c.sl) * w;
      Scale(33 + c.sl, 32 + d.sl, w);
    } else {
      RowEnd(c);
      RowEnd(d);
      RowStartMono(c.fl + 1, d.fl);
    }
  }

  // Each class is one interval: a size belongs to it if and only if it lies between its bounds.
  lemma ClassInterval(size: nat, c: Class)
    requires 0 <= c.fl && 0 <= c.sl < SL_INDEX_COUNT
    ensures ClassOf(size) == c <==> Low(c) <= size < High(c)
  {
    ClassBounds(size);
    var d := ClassOf(size);
    if Before(c, d) {
      ClassesOrdered(c, d);
    } else if Before(d, c) {
      ClassesOrdered(d, c);
    }
  }

  // The intervals leave no gap, so together they cover every size.
  lemma ClassesContiguous(c: Class)
    requires 0 <= c.fl && 0 <= c.sl < SL_INDEX_COUNT
    ensures Low(Class(0, 0)) == 0 && High(c) == Low(Succ(c)) && Low(c) < High(c)
  {
    if c.sl < SL_INDEX_COUNT - 1 {
      var w := Step(c.fl);
      assert (32 + c.sl) * w + w == (33 + c.sl) * w;
    } else {
      RowEnd(c);
    }
  }

  lemma ClassMonotone(a: nat, b: nat)
    requires a <= b
    ensures !Before(ClassOf(b), ClassOf(a))
  {
    ClassBounds(a);
    ClassBounds(b);
    if Before(ClassOf(b), ClassOf(a)) {
      ClassesOrdered(ClassOf(b), ClassOf(a));
    }
  }

  // Exactly the sizes below 2^39 have a first-level index that fits the 32-bit fl_bitmap.
  lemma ClassInRange(size: nat)
    ensures ValidClass(ClassOf(size)) && ClassOf(size).fl < 32 <==> size < POOL_LIMIT
  {
    ClassBounds(size);
    RowEnd(ClassOf(size));
    assert RowStart(32) == POOL_LIMIT by {
      Pow2Of32();
      assert Pow2(34) == 4 * WORD32;
    }
    if ClassOf(size).fl < 32 {
      RowStartMono(ClassOf(size).fl + 1, 32);
    } else {
      RowStartMono(32, ClassOf(size).fl);
    }
  }

  // ---------------------------------------------------------------- good fit

  // What block_locate_free searches for when n bytes are asked (tlsf.c:707-713).
  function RoundUp(n: nat): (r: int)
    ensures r >= n
  {
    if n >= SMALL_BLOCK_SIZE then
      LogAtLeast(n, 8);
      n + (Pow2(Log2(n) - SL_INDEX_COUNT_LOG2) - 1)
    else n
  }

  lemma RoundUpLow(n: nat)
    requires n % ALIGN_SIZE == 0
    ensures n <= Low(ClassOf(RoundUp(n)))
  {
    if n >= SMALL_BLOCK_SIZE {
      LogAtLeast(n, 8);
      LargeRoundUpLow(n, Log2(n), RoundUp(n));
    }
  }

  lemma LargeRoundUpLow(n: nat, l: nat, t: nat)
    requires 8 <= l && Pow2(l) <= n < Pow2(l + 1)
    requires SMALL_BLOCK_SIZE <= n && t == n + Pow2(l - 5) - 1
    ensures n <= Low(ClassOf(t))
  {
    var lt := Log2(t);
    Pow2Less(l, lt + 1);
    LargeBounds(t, lt);
    QuotientRange(t, lt);
    if l < lt {
      CarriedLow(t, l, lt);
    }
  }

  // When rounding carries into a higher power of two, the class still starts above n.
  lemma CarriedLow(t: nat, l: nat, lt: nat)
    requires 8 <= l < lt && Pow2(lt) <= t < Pow2(lt + 1)
    ensures Pow2(l + 1) <= t / Pow2(lt - 5) * Pow2(lt - 5)
  {
    QuotientRange(t, lt);
    Pow2Sum(lt - 5, 5);
    assert Pow2(5) == 32;
    Scale(32, t / Pow2(lt - 5), Pow2(lt - 5));
    Pow2Mono(l + 1, lt);
  }

  // Every block in a class at or after the rounded request's class is big enough.
  lemma GoodFit(n: nat, s: nat)
    requires n % ALIGN_SIZE == 0
    requires !Before(ClassOf(s), ClassOf(RoundUp(n)))
    ensures s >= n
  {
    RoundUpLow(n);
    ClassBounds(RoundUp(n));
    SizeAboveLow(ClassOf(RoundUp(n)), s);
  }

  lemma SizeAboveLow(c: Class, s: nat)
    requires 0 <= c.fl && 0 <= c.sl < SL_INDEX_COUNT
    requires !Before(ClassOf(s), c)
    ensures Low(c) <= s
  {
    ClassBounds(s);
    if Before(c, ClassOf(s)) {
      ClassesOrdered(c, ClassOf(s));
    }
  }

  // Every block in an earlier class is smaller than the rounded request.
  lemma SkippedIsSmall(n: nat, s: nat)
    requires Before(ClassOf(s), ClassOf(RoundUp(n)))
    ensures s < RoundUp(n)
  {
    if RoundUp(n) <= s {
      ClassMonotone(RoundUp(n), s);
    }
  }

  // Rounding adds less than one part in 32.
  lemma RoundUpWaste(n: nat)
    ensures n < SMALL_BLOCK_SIZE ==> RoundUp(n) == n
    ensures n >= SMALL_BLOCK_SIZE ==> 32 * (RoundUp(n) - n + 1) <= n
  {
    if n >= SMALL_BLOCK_SIZE {
      LogAtLeast(n, 8);
      Pow2Sum(Log2(n) - 5, 5);
      assert Pow2(5) == 32;
    }
  }

  // A located size below the limit is searched for in a row whose mask shifts are defined.
  lemma LocateInRange(n: nat)
    requires n < LOCATE_LIMIT
    ensures RoundUp(n) < 2 * LOCATE_LIMIT && ValidClass(ClassOf(RoundUp(n))) && ClassOf(RoundUp(n)).fl < 31
    ensures n > 0 ==> Log2(n) - SL_INDEX_COUNT_LOG2 < 31
  {
    RoundUpWaste(n);
    ClassBounds(RoundUp(n));
    RowEnd(ClassOf(RoundUp(n)));
    Pow2Of32();
    assert Pow2(36) == LOCATE_LIMIT;
    assert RowStart(30) == 2 * LOCATE_LIMIT;
    if 30 <= ClassOf(RoundUp(n)).fl {
      RowStartMono(30, ClassOf(RoundUp(n)).fl);
    }
    if n > 0 {
      Pow2Less(Log2(n), 36);
    }
  }

  // ---------------------------------------------------------------- request sizes

  // The least multiple of align that is x or more (align_up, align_ptr).
  function AlignUp(x: nat, align: nat): (r: nat)
    requires align > 0
    ensures r % align == 0 && x <= r < x + align
  {
    AlignUpBounds(x, align);
    x + (align - 1) - (x + (align - 1)) % align
  }

  lemma AlignUpBounds(x: nat, align: nat)
    requires align > 0
    ensures var y := x + (align - 1); var r := y - y % align; r % align == 0 && x <= r < x + align
  {
    var y := x + (align - 1);
    DivBounds(y, align);
    assert y - y % align == y / align * align;
    MultipleMod(y / align, align);
  }

  lemma {:induction false} MultipleMod(q: nat, a: int)
    requires a > 0
    ensures q * a >= 0 && q * a % a == 0
  {
    if q == 0 {
    } else {
      MultipleMod(q - 1, a);
      assert q * a == (q - 1) * a + a;
      PlusMod((q - 1) * a, a);
    }
  }

  lemma PlusMod(m: nat, a: int)
    requires a > 0
    ensures (m + a) % a == m % a
  {
    assert m + a == (m / a + 1) * a + m % a by {
      assert (m / a + 1) * a == m / a * a + a;
    }
    DivUnique(m + a, a, m / a + 1, m % a);
  }

  lemma DivUnique(n: nat, a: int, q: nat, r: nat)
    requires a > 0 && n == q * a + r && r < a
    ensures n / a == q && n % a == r
  {
    DivBounds(n, a);
    assert (q + 1) * a == q * a + a;
    assert (n / a + 1) * a == n / a * a + a;
    MulLess(n / a, q + 1, a);
    MulLess(q, n / a + 1, a);
  }

  // adjust_request_size
  function AdjustRequest(size: nat, align: nat): (adjust: nat)
    requires align > 0
    ensures adjust == 0 <==> size == 0 || AlignUp(size, align) >= BLOCK_SIZE_MAX
    ensures adjust > 0 ==> size <= adjust && BLOCK_SIZE_MIN <= adjust < BLOCK_SIZE_MAX
    ensures adjust > 0 && align == ALIGN_SIZE ==> adjust % ALIGN_SIZE == 0
  {
    if size > 0 && AlignUp(size, align) < BLOCK_SIZE_MAX then
      if AlignUp(size, align) > BLOCK_SIZE_MIN then AlignUp(size, align) else BLOCK_SIZE_MIN
    else 0
  }

  // ---------------------------------------------------------------- mapping_search

  // `q ^ (1 << 5)`
  function FlipBit5(q: nat): int {
    if q / SL_INDEX_COUNT % 2 == 1 then q - SL_INDEX_COUNT else q + SL_INDEX_COUNT
  }

  lemma LargeLog(size: nat)
    requires size >= SMALL_BLOCK_SIZE
    ensures Log2(size) >= 8
  {
    LogAtLeast(size, 8);
  }

  // `size >> k`
  function ShiftRight(size: nat, k: nat): int {
    size / Pow2(k)
  }

  // The class of a large size, by the 6 leading digits of the size.
  lemma LargeClass(size: nat, l: nat, q: int)
    requires size >= SMALL_BLOCK_SIZE && l == Log2(size) >= SL_INDEX_COUNT_LOG2 && q == ShiftRight(size, l - SL_INDEX_COUNT_LOG2)
    ensures 32 <= q < 64 && ClassOf(size) == Class(l - (FL_INDEX_SHIFT - 1), FlipBit5(q))
  {
    QuotientRange(size, l);
    FlipTop(q);
  }

  lemma FlipTop(q: nat)
    requires 32 <= q < 64
    ensures FlipBit5(q) == q - SL_INDEX_COUNT
  {
  }

  method MappingSearch(size: nat) returns (fl: int, sl: int)
    requires size < WORD32 * WORD32
    ensures Class(fl, sl) == ClassOf(size)
  {
    if size < SMALL_BLOCK_SIZE {
      fl := 0;
      sl := size / (SMALL_BLOCK_SIZE / SL_INDEX_COUNT);
    } else {
      fl := FlsSizeT(size);
      LargeLog(size);
      var q := ShiftRight(size, fl - SL_INDEX_COUNT_LOG2);
      LargeClass(size, fl, q);
      sl := FlipBit5(q);
      fl := fl - (FL_INDEX_SHIFT - 1);
    }
  }

  lemma RoundUpIs(size: nat, l: nat)
    requires size >= SMALL_BLOCK_SIZE && l == Log2(size) >= SL_INDEX_COUNT_LOG2
    ensures RoundUp(size) == size + (Pow2(l - SL_INDEX_COUNT_LOG2) - 1)
  {
  }

  // The rounding at the start of block_locate_free.
  method RoundForSearch(size: nat) returns (adjusted: nat)
    requires size < LOCATE_LIMIT
    ensures adjusted == RoundUp(size)
  {
    adjusted := size;
    if size >= SMALL_BLOCK_SIZE {
      LargeLog(size);
      var l := FlsSizeT(size);
      LocateInRange(size);
      var round := Pow2(l - SL_INDEX_COUNT_LOG2) - 1;
      adjusted := adjusted + round;
      RoundUpIs(size, l);
    }
  }
}
