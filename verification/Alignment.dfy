/** The arithmetic of tlsf_memalign (tlsf.c:1088-1139): sizes and gaps, in bytes. */
module Alignment {
  import opened Bits
  import opened SizeClasses

  ghost predicate PowerOfTwo(a: int) {
    exists k: nat :: a == Pow2(k)
  }

  // The block size that is searched for.
  function AlignedNeed(align: nat, adjust: nat): nat
    requires align > 0
  {
    if adjust > 0 && align > ALIGN_SIZE then AdjustRequest(adjust + align + BLOCK_HEADER_SIZE, align) else adjust
  }

  // The bytes cut off in front when a block's payload starts at ptr.
  function Gap(ptr: nat, align: nat): (gap: int)
    requires align > 0
    ensures gap >= 0
  {
    var gap := AlignUp(ptr, align) - ptr;
    if 0 < gap < BLOCK_HEADER_SIZE then
      var remain := BLOCK_HEADER_SIZE - gap;
      var offset := if remain > align then remain else align;
      AlignUp(AlignUp(ptr, align) + offset, align) - ptr
    else gap
  }

  // A power of two from 8 on, and each of its multiples, is a multiple of 8.
  lemma MultipleOf8(x: nat, align: nat, k: nat)
    requires align == Pow2(k) && k >= 3 && x % align == 0
    ensures x % ALIGN_SIZE == 0 && align % ALIGN_SIZE == 0
  {
    Pow2Times(k - 3);
    TimesEight(align, Pow2(k - 3));
    ExactQuotient(x, align);
    Multiples8(x / align, align);
  }

  lemma ExactQuotient(x: nat, a: nat)
    requires a > 0 && x % a == 0
    ensures x == x / a * a
  {
    DivBounds(x, a);
  }

  lemma {:induction false} Multiples8(q: nat, a: nat)
    requires a % 8 == 0
    ensures q * a % 8 == 0
  {
    if q == 0 {
    } else {
      Multiples8(q - 1, a);
      SumOf8((q - 1) * a, a);
      assert q * a == (q - 1) * a + a;
    }
  }

  lemma SumOf8(x: nat, y: nat)
    requires x % 8 == 0 && y % 8 == 0
    ensures (x + y) % 8 == 0
  {
  }

  // Aligning a multiple of align, or one more step, changes nothing else.
  lemma AlignUpExact(x: nat, align: nat)
    requires align > 0 && x % align == 0
    ensures AlignUp(x, align) == x
  {
    DivBounds(x, align);
    var q := x / align;
    DivUnique(x + (align - 1), align, q, align - 1);
  }

  // The payload of the block at b is aligned, as tlsf.c:540 and tlsf.c:588 assert.
  lemma AlignedPayload(b: nat)
    requires b % ALIGN_SIZE == 0
    ensures b + BLOCK_START_OFFSET == AlignUp(b + BLOCK_START_OFFSET, ALIGN_SIZE)
  {
    AlignUpExact(b + BLOCK_START_OFFSET, ALIGN_SIZE);
  }

  // The values of Gap, by size of the alignment.
  lemma GapValue(ptr: nat, align: nat)
    requires align > 0
    ensures var gap0 := AlignUp(ptr, align) - ptr;
            && (gap0 == 0 || gap0 >= BLOCK_HEADER_SIZE ==> Gap(ptr, align) == gap0)
            && (0 < gap0 < BLOCK_HEADER_SIZE <= align ==> Gap(ptr, align) == gap0 + align)
    ensures (ptr + Gap(ptr, align)) % align == 0
  {
    var gap0 := AlignUp(ptr, align) - ptr;
    if 0 < gap0 < BLOCK_HEADER_SIZE <= align {
      PlusMod(AlignUp(ptr, align), align);
      AlignUpExact(AlignUp(ptr, align) + align, align);
    }
  }

  // A multiple of 8 is aligned for every smaller power of two.
  lemma SmallAlignment(ptr: nat, align: nat, k: nat)
    requires align == Pow2(k) && k <= 3 && ptr % ALIGN_SIZE == 0
    ensures align <= ALIGN_SIZE && ptr % align == 0 && Gap(ptr, align) == 0
  {
    assert Pow2(0) == 1 && Pow2(1) == 2 && Pow2(2) == 4 && Pow2(3) == 8;
    DividesEight(ptr, align);
    AlignUpExact(ptr, align);
  }

  lemma DividesEight(ptr: nat, align: nat)
    requires ptr % 8 == 0 && (align == 1 || align == 2 || align == 4 || align == 8)
    ensures ptr % align == 0
  {
    var q := ptr / 8;
    if align == 2 {
      DivUnique(ptr, 2, 4 * q, 0);
    } else if align == 4 {
      DivUnique(ptr, 4, 2 * q, 0);
    }
  }

  // A block is given no room for the gap in exactly this case.
  predicate Cramped(align: nat, adjust: nat, ptr: nat, size: nat)
  {
    align == 64 && adjust == 24 && size == 128 && ptr % 64 == 32
  }

  // What memalign relies on: the gap is a multiple of 8, is 0 or leaves room for a
  // header, stays below align + 40, leaves adjust bytes behind it, and can be cut off in
  // every case but one.
  ghost predicate GapGood(ptr: nat, align: nat, adjust: nat, size: nat)
    requires align > 0
  {
    var gap := Gap(ptr, align);
    && (ptr + gap) % align == 0 && gap % ALIGN_SIZE == 0
    && (gap == 0 || BLOCK_HEADER_SIZE <= gap < align + BLOCK_HEADER_SIZE)
    && gap + adjust <= size
    && (gap > 0 && size < BLOCK_HEADER_SIZE + gap <==> Cramped(align, adjust, ptr, size))
  }

  lemma GapFits(ptr: nat, align: nat, adjust: nat, size: nat)
    requires PowerOfTwo(align) && ptr % ALIGN_SIZE == 0 && size % ALIGN_SIZE == 0
    requires adjust % ALIGN_SIZE == 0 && BLOCK_SIZE_MIN <= adjust
    requires 0 < AlignedNeed(align, adjust) <= size
    ensures GapGood(ptr, align, adjust, size)
  {
    var k: nat :| align == Pow2(k);
    if k <= 3 {
      SmallAlignment(ptr, align, k);
    } else if k <= 6 {
      MediumAlignment(k);
      GapFitsMedium(ptr, align, adjust, size);
    } else {
      Pow2Mono(7, k);
      assert Pow2(7) == 128;
      MultipleOf8(AlignUp(ptr, align), align, k);
      GapFitsLarge(ptr, align, adjust, size);
    }
  }

  lemma MediumAlignment(k: nat)
    requires 4 <= k <= 6
    ensures Pow2(k) == 16 || Pow2(k) == 32 || Pow2(k) == 64
  {
    assert Pow2(4) == 16 && Pow2(5) == 32 && Pow2(6) == 64;
  }

  lemma GapFitsMedium(ptr: nat, align: nat, adjust: nat, size: nat)
    requires ptr % ALIGN_SIZE == 0 && size % ALIGN_SIZE == 0 && adjust % ALIGN_SIZE == 0 && BLOCK_SIZE_MIN <= adjust
    requires align == 16 || align == 32 || align == 64
    requires 0 < AlignedNeed(align, adjust) <= size
    ensures GapGood(ptr, align, adjust, size)
  {
    NeedValue(align, adjust);
    if align == 16 {
      GapFits16(ptr, adjust, size);
    } else if align == 32 {
      GapFits32(ptr, adjust, size);
    } else {
      GapFits64(ptr, adjust, size);
    }
  }

  lemma NeedValue(align: nat, adjust: nat)
    requires align > ALIGN_SIZE && AlignedNeed(align, adjust) > 0 && adjust > 0
    ensures AlignedNeed(align, adjust) == AlignUp(adjust + align + BLOCK_HEADER_SIZE, align)
  {
  }

  // The next multiple, from the remainder.
  lemma AlignUpBy(x: nat, align: nat)
    requires align > 0
    ensures AlignUp(x, align) == if x % align == 0 then x else x - x % align + align
  {
    DivBounds(x, align);
    var q, r := x / align, x % align;
    if r == 0 {
      AlignUpExact(x, align);
    } else {
      assert (q + 1) * align == q * align + align;
      DivUnique(x + (align - 1), align, q + 1, r - 1);
    }
  }

  // The gap in front of a payload whose remainder is r, for the alignments below 128.
  function SmallGap(r: nat, align: nat): int {
    if r == 0 then 0
    else if align - r >= BLOCK_HEADER_SIZE then align - r
    else if align == 16 then align - r + 32
    else align - r + align
  }

  lemma GapAt16(ptr: nat)
    requires ptr % 8 == 0
    ensures ptr % 16 % 8 == 0 && Gap(ptr, 16) == SmallGap(ptr % 16, 16) && (ptr + Gap(ptr, 16)) % 16 == 0
  {
    AlignUpBy(ptr, 16);
    Remainders(ptr, 16);
    NextMultiples(AlignUp(ptr, 16), 16);
    SmallGap16(ptr, AlignUp(ptr, 16));
  }

  lemma GapAt32(ptr: nat)
    requires ptr % 8 == 0
    ensures ptr % 32 % 8 == 0 && Gap(ptr, 32) == SmallGap(ptr % 32, 32) && (ptr + Gap(ptr, 32)) % 32 == 0
  {
    AlignUpBy(ptr, 32);
    Remainders(ptr, 32);
    NextMultiples(AlignUp(ptr, 32), 32);
    WideGap(ptr, 32, AlignUp(ptr, 32));
  }

  lemma GapAt64(ptr: nat)
    requires ptr % 8 == 0
    ensures ptr % 64 % 8 == 0 && Gap(ptr, 64) == SmallGap(ptr % 64, 64) && (ptr + Gap(ptr, 64)) % 64 == 0
  {
    AlignUpBy(ptr, 64);
    Remainders(ptr, 64);
    NextMultiples(AlignUp(ptr, 64), 64);
    WideGap(ptr, 64, AlignUp(ptr, 64));
  }

  lemma SmallGap16(ptr: nat, up: nat)
    requires ptr % 16 % 8 == 0 && up == AlignUp(ptr, 16) == (if ptr % 16 == 0 then ptr else ptr - ptr % 16 + 16)
    requires (up + 16 + 16) % 16 == 0 && AlignUp(up + 16 + 16, 16) == up + 16 + 16
    ensures Gap(ptr, 16) == SmallGap(ptr % 16, 16) && (ptr + Gap(ptr, 16)) % 16 == 0
  {
    assert up + 32 == up + 16 + 16;
  }

  lemma WideGap(ptr: nat, align: nat, up: nat)
    requires align == 32 || align == 64
    requires ptr % align % 8 == 0 && up == AlignUp(ptr, align) == (if ptr % align == 0 then ptr else ptr - ptr % align + align)
    requires (up + align) % align == 0 && AlignUp(up + align, align) == up + align
    ensures Gap(ptr, align) == SmallGap(ptr % align, align) && (ptr + Gap(ptr, align)) % align == 0
  {
  }

  lemma NextMultiples(m: nat, align: nat)
    requires align > 0 && m % align == 0
    ensures (m + align) % align == 0 && AlignUp(m + align, align) == m + align
    ensures (m + align + align) % align == 0 && AlignUp(m + align + align, align) == m + align + align
  {
    PlusMod(m, align);
    PlusMod(m + align, align);
    AlignUpExact(m + align, align);
    AlignUpExact(m + align + align, align);
  }

  lemma Remainders(ptr: nat, align: nat)
    requires ptr % 8 == 0 && (align == 16 || align == 32 || align == 64)
    ensures ptr % align % 8 == 0
  {
    var k, q := ptr / 8, ptr / align;
    DivBounds(ptr, align);
    if align == 16 {
      TimesEight(ptr % align, k - 2 * q);
    } else if align == 32 {
      TimesEight(ptr % align, k - 4 * q);
    } else {
      TimesEight(ptr % align, k - 8 * q);
    }
  }

  lemma TimesEight(r: nat, k: int)
    requires r == 8 * k
    ensures r % 8 == 0
  {
  }

  lemma GapFits16(ptr: nat, adjust: nat, size: nat)
    requires ptr % 8 == 0 && 24 <= adjust && AlignUp(adjust + 56, 16) <= size
    ensures GapGood(ptr, 16, adjust, size)
  {
    GapAt16(ptr);
  }

  lemma GapFits32(ptr: nat, adjust: nat, size: nat)
    requires ptr % 8 == 0 && 24 <= adjust && AlignUp(adjust + 72, 32) <= size
    ensures GapGood(ptr, 32, adjust, size)
  {
    GapAt32(ptr);
    Gap32(ptr % 32, Gap(ptr, 32), adjust, AlignUp(adjust + 72, 32), size);
  }

  lemma Gap32(r: nat, gap: int, adjust: nat, need: nat, size: nat)
    requires r < 32 && r % 8 == 0 && gap == SmallGap(r, 32) && 24 <= adjust && adjust + 72 <= need <= size
    ensures gap % 8 == 0 && (gap == 0 || 40 <= gap < 72) && gap + adjust <= size && (gap > 0 ==> 40 + gap <= size)
  {
  }

  lemma GapFits64(ptr: nat, adjust: nat, size: nat)
    requires ptr % 8 == 0 && adjust % 8 == 0 && size % 8 == 0 && 24 <= adjust && AlignUp(adjust + 104, 64) <= size
    ensures GapGood(ptr, 64, adjust, size)
  {
    GapAt64(ptr);
    Need64(adjust);
    Gap64(ptr % 64, Gap(ptr, 64), adjust, AlignUp(adjust + 104, 64), size);
  }

  lemma Gap64(r: nat, gap: int, adjust: nat, need: nat, size: nat)
    requires r < 64 && r % 8 == 0 && gap == SmallGap(r, 64) && 24 <= adjust && adjust + 104 <= need <= size
    requires (adjust == 24 ==> need == 128) && (adjust > 24 ==> need >= 136) && size % 8 == 0
    ensures gap % 8 == 0 && (gap == 0 || 40 <= gap < 104) && gap + adjust <= size
    ensures gap > 0 && size < 40 + gap <==> adjust == 24 && size == 128 && r == 32
  {
  }

  lemma Need64(adjust: nat)
    requires adjust % 8 == 0 && 24 <= adjust
    ensures adjust == 24 ==> AlignUp(adjust + 104, 64) == 128
    ensures adjust > 24 ==> AlignUp(adjust + 104, 64) >= 136
    ensures adjust + 104 <= AlignUp(adjust + 104, 64)
  {
  }

  lemma GapFitsLarge(ptr: nat, align: nat, adjust: nat, size: nat)
    requires ptr % 8 == 0 && align % 8 == 0 && 128 <= align && AlignUp(ptr, align) % 8 == 0
    requires 24 <= adjust && 0 < AlignedNeed(align, adjust) <= size
    ensures GapGood(ptr, align, adjust, size)
  {
    LargeGap(ptr, align);
    LargeNeed(align, adjust);
  }

  lemma LargeGap(ptr: nat, align: nat)
    requires ptr % 8 == 0 && align % 8 == 0 && 128 <= align && AlignUp(ptr, align) % 8 == 0
    ensures var gap := Gap(ptr, align);
            (ptr + gap) % align == 0 && gap % 8 == 0 && (gap == 0 || 40 <= gap <= align + 32)
  {
    GapValue(ptr, align);
    var gap0 := AlignUp(ptr, align) - ptr;
    DifferenceOf8(AlignUp(ptr, align), ptr);
    SumOf8(gap0, align);
  }

  lemma DifferenceOf8(x: nat, y: nat)
    requires x % 8 == 0 && y % 8 == 0 && y <= x
    ensures (x - y) % 8 == 0
    ensures x - y < 40 ==> x - y <= 32
  {
  }

  lemma LargeNeed(align: nat, adjust: nat)
    requires 128 <= align && 24 <= adjust && 0 < AlignedNeed(align, adjust)
    ensures 2 * align <= AlignedNeed(align, adjust) && adjust + align + 40 <= AlignedNeed(align, adjust)
  {
    NeedValue(align, adjust);
    TwoMultiples(AlignedNeed(align, adjust), align);
  }

  // A multiple of a that exceeds a is at least 2 * a.
  lemma TwoMultiples(x: nat, a: nat)
    requires a > 0 && x % a == 0 && a < x
    ensures 2 * a <= x
  {
    DivBounds(x, a);
    MulLess(1, x / a, a);
    Scale(2, x / a, a);
  }
}
