/**
 The size classes of the original allocator (tlsf_ori.c:73-158, tlsf_ori.h:94-118): 128
 subdivisions, 32-bit sizes, and a search that rounds the request itself.
 */
module Original {
  import opened Bits
  import opened SizeClasses

  const MAX_LOG2_SLI := 7
  const MAX_SLI := 128
  const SMALL_BLOCK := 128
  const FLI_OFFSET := 6
  const REAL_FLI := 26

  // ---------------------------------------------------------------- bit scans by table

  // The 256-entry table, by its runs of equal entries.
  function Table(x: bv32): int
    requires x < 256
  {
    if x == 0 then -1
    else if x < 2 then 0
    else if x < 4 then 1
    else if x < 8 then 2
    else if x < 16 then 3
    else if x < 32 then 4
    else if x < 64 then 5
    else if x < 128 then 6
    else 7
  }

  // The byte that holds the highest bit decides.
  lemma TopInByte0(x: bv32)
    requires 0 < x <= 0xff
    ensures IsTop(x, Table(x))
  {
  }

  lemma TopInByte1(x: bv32)
    requires 0xff < x <= 0xffff
    ensures x >> 8 < 256 && IsTop(x, Table(x >> 8) + 8)
  {
  }

  lemma TopInByte2(x: bv32)
    requires 0xffff < x <= 0xff_ffff
    ensures x >> 16 < 256 && IsTop(x, Table(x >> 16) + 16)
  {
  }

  lemma TopInByte3(x: bv32)
    requires 0xff_ffff < x
    ensures x >> 24 < 256 && IsTop(x, Table(x >> 24) + 24)
  {
  }

  // The table's entry for the highest byte in use, a bits up.
  method MsBit(i: bv32) returns (bit: int)
    ensures i == 0 ==> bit == -1
    ensures i != 0 ==> IsTop(i, bit)
  {
    if i <= 0xffff {
      if i <= 0xff {
        if i != 0 { TopInByte0(i); }
        bit := Table(i);
      } else {
        TopInByte1(i);
        bit := Table(i >> 8) + 8;
      }
    } else {
      if i <= 0xff_ffff {
        TopInByte2(i);
        bit := Table(i >> 16) + 16;
      } else {
        TopInByte3(i);
        bit := Table(i >> 24) + 24;
      }
    }
  }

  method LsBit(i: bv32) returns (bit: int)
    ensures i == 0 ==> bit == -1
    ensures i != 0 ==> IsLowest(i, bit)
  {
    IsolatedNonzero(i);
    bit := MsBit(i & (!i + 1));
    if i != 0 {
      IsolatedIsOne(i, bit);
      IsolatedIsLowest(i, bit);
    }
  }

  // ms_bit of a size
  method MsBitOf(n: nat) returns (bit: int)
    requires 0 < n < WORD32
    ensures bit == Log2(n)
  {
    WordLog2(n);
    bit := MsBit(Word(n));
    TopUnique(Word(n), bit, Log2(n));
  }

  // ---------------------------------------------------------------- classes

  // The class of a block of so many bytes.
  function ListOf(size: nat): (c: Class)
    ensures 0 <= c.fl
  {
    if size < SMALL_BLOCK then Class(0, size)
    else
      var l := Log2(size);
      LogAtLeast(size, 7);
      Class(l - FLI_OFFSET, size / Pow2(l - MAX_LOG2_SLI) - MAX_SLI)
  }

  // The smallest size of class c, and the number of sizes in a class of row fl.
  function Smallest(c: Class): int
    requires 0 <= c.fl
  {
    if c.fl == 0 then c.sl else (MAX_SLI + c.sl) * Width(c.fl)
  }

  function Width(fl: nat): int {
    if fl == 0 then 1 else Pow2(fl - 1)
  }

  lemma QuotientRange7(n: nat, l: nat)
    requires l >= 7 && Pow2(l) <= n < Pow2(l + 1)
    ensures var p := Pow2(l - 7); 128 <= n / p < 256 && n / p * p <= n < n / p * p + p
  {
    Pow2Times(l - 7);
    DivBounds(n, Pow2(l - 7));
    QuotientWithin(n, Pow2(l - 7), 128, 256);
  }

  lemma ListBounds(size: nat)
    ensures var c := ListOf(size);
            0 <= c.fl && 0 <= c.sl < MAX_SLI && Smallest(c) <= size < Smallest(c) + Width(c.fl)
  {
    if size >= SMALL_BLOCK {
      LogAtLeast(size, 7);
      var l := Log2(size);
      QuotientRange7(size, l);
      var q := size / Pow2(l - 7);
      ListIs(size, l, q);
      SmallestIs(l, q);
    }
  }

  lemma LargeList(size: nat, l: nat)
    requires size >= SMALL_BLOCK && l == Log2(size) >= 7
    ensures var p := Pow2(l - 7);
            ListOf(size) == Class(l - FLI_OFFSET, size / p - MAX_SLI)
  {
  }

  // The quotient and the logarithm determine the class.
  lemma ListIs(size: nat, l: nat, q: nat)
    requires l >= 7 && 128 <= q < 256 && q * Pow2(l - 7) <= size < q * Pow2(l - 7) + Pow2(l - 7)
    ensures Log2(size) == l && ListOf(size) == Class(l - FLI_OFFSET, q - MAX_SLI)
  {
    var p := Pow2(l - 7);
    Pow2Times(l - 7);
    Scale(128, q, p);
    Scale(q + 1, 256, p);
    assert (q + 1) * p == q * p + p;
    Log2Unique(size, l);
    LargeIsNotSmall(l);
    DivUnique(size, p, q, size - q * p);
  }

  lemma LargeIsNotSmall(l: nat)
    requires l >= 7
    ensures Pow2(l) >= SMALL_BLOCK
  {
    assert Pow2(7) == 128;
    Pow2Mono(7, l);
  }

  // ---------------------------------------------------------------- the rounding search

  // The unit to which a request is rounded up.
  function Unit(r: nat): (u: int)
    ensures u >= 1
  {
    if r < SMALL_BLOCK then 1 else (LogAtLeast(r, 7); Pow2(Log2(r) - MAX_LOG2_SLI))
  }

  // What the request is added up to, before the bits below the unit are cleared.
  function Raised(r: nat): nat {
    r + (Unit(r) - 1)
  }

  // The request after MAPPING_SEARCH.
  function Rounded(r: nat): nat {
    Raised(r) - Raised(r) % Unit(r)
  }

  lemma RoundedBounds(r: nat)
    ensures r <= Rounded(r) < r + Unit(r)
  {
    DivBounds(Raised(r), Unit(r));
  }

  lemma UnitRange(r: nat, l: nat)
    requires l >= 7 && Pow2(l) <= r < Pow2(l + 1)
    ensures 128 * Pow2(l - 7) == Pow2(l) <= r < 256 * Pow2(l - 7)
  {
    Pow2Times(l - 7);
  }

  lemma UnitIs(r: nat, l: nat)
    requires r >= SMALL_BLOCK && l == Log2(r) >= 7
    ensures Unit(r) == Pow2(l - 7)
  {
  }

  // Clearing the bits below u leaves a multiple of u; from 128 * u on, but below 257 * u.
  lemma Cleared(n: nat, u: nat) returns (q: nat)
    requires u > 0 && 128 * u <= n < 257 * u
    ensures 128 <= q <= 256 && n - n % u == q * u && q * u <= n < q * u + u
  {
    q := n / u;
    DivBounds(n, u);
    QuotientWithin(n, u, 128, 257);
  }

  // Rounding up to the next unit either stays below the next power of two or reaches it.
  lemma RoundedQuotient(r: nat) returns (l: nat, u: nat, q: nat)
    requires r >= SMALL_BLOCK
    ensures l == Log2(r) >= 7 && u == Unit(r) == Pow2(l - 7) && 128 <= q <= 256 && Rounded(r) == q * u
    ensures Rounded(r) <= Raised(r) < Rounded(r) + u && Pow2(l) <= r
  {
    LogAtLeast(r, 7);
    l, u := Log2(r), Unit(r);
    UnitIs(r, l);
    UnitRange(r, l);
    q := Cleared(Raised(r), u);
  }

  // The rounded request and the sum it was cut from are of one class, whose smallest size
  // the rounded request is.
  lemma RoundedClass(r: nat)
    ensures ListOf(Rounded(r)) == ListOf(Raised(r))
    ensures Smallest(ListOf(Rounded(r))) == Rounded(r)
  {
    if r >= SMALL_BLOCK {
      var l, u, q := RoundedQuotient(r);
      LargeRounded(Raised(r), l, u, q, Rounded(r));
    } else {
      assert Rounded(r) == r;
    }
  }

  lemma LargeRounded(n: nat, l: nat, u: nat, q: nat, z: nat)
    requires l >= 7 && u == Pow2(l - 7) && 128 <= q <= 256 && z == q * u && z <= n < z + u
    ensures ListOf(z) == ListOf(n) && Smallest(ListOf(z)) == z
  {
    if q < 256 {
      ListIs(n, l, q);
      ListIs(z, l, q);
      SmallestIs(l, q);
    } else {
      assert z == 256 * u by { assert q == 256; }
      Carried(n, l, u);
      Carried(z, l, u);
      SmallestIs(l + 1, 128);
    }
  }

  // Rounding has carried into the next power of two.
  lemma Carried(n: nat, l: nat, u: nat)
    requires l >= 7 && u == Pow2(l - 7) && 256 * u <= n < 257 * u
    ensures ListOf(n) == Class(l + 1 - FLI_OFFSET, 0) && 128 * Pow2(l + 1 - 7) == 256 * u
  {
    assert Pow2(l + 1 - 7) == 2 * u;
    ListIs(n, l + 1, 128);
  }

  lemma SmallestIs(l: nat, q: nat)
    requires l >= 7 && 128 <= q < 256
    ensures Smallest(Class(l - FLI_OFFSET, q - MAX_SLI)) == q * Pow2(l - 7)
  {
    assert MAX_SLI + (q - MAX_SLI) == q;
  }

  // The sizes at which classes start: all below 128, and the multiples of 2^(k - 7) from 2^k to
  // 2^(k + 1).
  predicate ClassStart(s: nat) {
    s < 128 || (LogAtLeast(s, 7); s % Pow2(Log2(s) - 7) == 0)
  }

  lemma ClassStarts(s: nat)
    ensures ClassStart(s) <==> Smallest(ListOf(s)) == s
  {
    if s >= 128 {
      LogAtLeast(s, 7);
      var l := Log2(s);
      QuotientRange7(s, l);
      var q, u := s / Pow2(l - 7), Pow2(l - 7);
      ListIs(s, l, q);
      SmallestIs(l, q);
      WholeMultiple(s, u, q);
    }
  }

  lemma WholeMultiple(s: nat, u: nat, q: nat)
    requires u > 0 && q == s / u
    ensures s % u == 0 <==> q * u == s
  {
    DivBounds(s, u);
  }

  // No smaller size that starts a class would do.
  lemma RoundedIsLeast(r: nat, s: nat)
    requires r <= s && Smallest(ListOf(s)) == s
    ensures Rounded(r) <= s
  {
    RoundedBounds(r);
    if r >= SMALL_BLOCK && s < Rounded(r) {
      var l, u, q := RoundedQuotient(r);
      BetweenStarts(r, s, l, u, q, Rounded(r));
    }
  }

  // A size strictly between two multiples of its class's width starts no class.
  lemma BetweenStarts(r: nat, s: nat, l: nat, u: nat, q: nat, z: nat)
    requires l >= 7 && u == Pow2(l - 7) && 128 <= q <= 256 && z == q * u && z < r + u && Pow2(l) <= r <= s < z
    ensures Smallest(ListOf(s)) < r
  {
    Pow2Times(l - 7);
    assert (q - 1) * u == q * u - u;
    MulLess(128, q, u);
    ListIs(s, l, q - 1);
    SmallestIs(l, q - 1);
  }

  // A block has at least the size n that starts a class if and only if its class is not an
  // earlier one: what malloc_ex subtracts leaves nothing negative.
  lemma StartCovers(n: nat, s: nat)
    requires Smallest(ListOf(n)) == n
    ensures n <= s <==> !Before(ListOf(s), ListOf(n))
  {
    ListBounds(s);
    ListBounds(n);
    if Before(ListOf(s), ListOf(n)) {
      ListEnds(ListOf(s), ListOf(n));
    } else if Before(ListOf(n), ListOf(s)) {
      ListEnds(ListOf(n), ListOf(s));
    }
  }

  // A class that comes earlier in search order lies entirely below.
  lemma ListEnds(c: Class, d: Class)
    requires 0 <= c.fl && 0 <= c.sl < MAX_SLI && 0 <= d.fl && 0 <= d.sl < MAX_SLI && Before(c, d)
    ensures Smallest(c) + Width(c.fl) <= Smallest(d)
  {
    if c.fl == d.fl {
      Scale(MAX_SLI + c.sl + 1, MAX_SLI + d.sl, Width(c.fl));
      assert (MAX_SLI + c.sl + 1) * Width(c.fl) == (MAX_SLI + c.sl) * Width(c.fl) + Width(c.fl);
    } else {
      RowLimit(c, d.fl);
      Scale(MAX_SLI, MAX_SLI + d.sl, Width(d.fl));
    }
  }

  lemma RowLimit(c: Class, f: nat)
    requires 0 <= c.fl < f && 0 <= c.sl < MAX_SLI
    ensures Smallest(c) + Width(c.fl) <= MAX_SLI * Width(f)
  {
    if c.fl == 0 {
      Scale(1, Width(f), MAX_SLI);
    } else {
      Scale(MAX_SLI + c.sl + 1, 2 * MAX_SLI, Width(c.fl));
      assert (MAX_SLI + c.sl + 1) * Width(c.fl) == (MAX_SLI + c.sl) * Width(c.fl) + Width(c.fl);
      Pow2Mono(c.fl, f - 1);
      Scale(2 * Width(c.fl), Width(f), MAX_SLI);
    }
  }

  // MAPPING_SEARCH, which rewrites the request; the rounded request must fit 32 bits.
  method MappingSearch(r: nat) returns (r': nat, fl: int, sl: int)
    requires r + Unit(r) <= WORD32
    ensures r' == Rounded(r) && Class(fl, sl) == ListOf(r') && r' == Smallest(Class(fl, sl))
    ensures r <= r' < r + Unit(r)
  {
    RoundedBounds(r);
    RoundedClass(r);
    r' := r;
    if r < SMALL_BLOCK {
      fl := 0;
      sl := r;
    } else {
      LogAtLeast(r, 7);
      var l := MsBitOf(r);
      UnitIs(r, l);
      var t := Pow2(l - MAX_LOG2_SLI) - 1;
      r' := r + t;
      LogAtLeast(r', 7);
      LargeList(r', Log2(r'));
      fl := MsBitOf(r');
      sl := r' / Pow2(fl - MAX_LOG2_SLI) - MAX_SLI;
      fl := fl - FLI_OFFSET;
      r' := r' - r' % (t + 1);
    }
  }

  // MAPPING_INSERT
  method MappingInsert(r: nat) returns (fl: int, sl: int)
    requires r < WORD32
    ensures Class(fl, sl) == ListOf(r)
  {
    if r < SMALL_BLOCK {
      fl := 0;
      sl := r;
    } else {
      LogAtLeast(r, 7);
      fl := MsBitOf(r);
      sl := r / Pow2(fl - MAX_LOG2_SLI) - MAX_SLI;
      fl := fl - FLI_OFFSET;
    }
  }

  // ---------------------------------------------------------------- the second-level bitmap

  // set_bit and clear_bit count on from the row's word: the word and the bit of class c.
  function WordOf(c: Class): int { c.fl + c.sl / 32 }
  function BitOf(c: Class): int { c.sl % 32 }

  predicate OwnList(c: Class) {
    0 <= c.fl < REAL_FLI && 0 <= c.sl < MAX_SLI
  }

  // The classes whose bit lies in the word of their own row.
  predicate Narrow(c: Class) {
    c.sl < 32
  }

  // The class to whose list the bit of class c belongs when it is read.
  function Shadow(c: Class): Class {
    Class(WordOf(c), BitOf(c))
  }

  // Sizes below 32 have such a class, and the lower quarter of each power of two from 128 on.
  lemma NarrowSizes(size: nat)
    ensures Narrow(ListOf(size)) <==> size < 32 || (size >= SMALL_BLOCK && 4 * size < 5 * Pow2(Log2(size)))
  {
    if size >= SMALL_BLOCK {
      LogAtLeast(size, 7);
      var l := Log2(size);
      QuotientRange7(size, l);
      ListIs(size, l, size / Pow2(l - 7));
      Pow2Times(l - 7);
      QuotientBelow(size, Pow2(l - 7), size / Pow2(l - 7), 160);
    }
  }

  lemma QuotientBelow(n: nat, p: int, q: int, k: int)
    requires p > 0 && q * p <= n < q * p + p
    ensures q < k <==> n < k * p
  {
    if q < k {
      Scale(q + 1, k, p);
      assert (q + 1) * p == q * p + p;
    } else {
      Scale(k, q, p);
    }
  }

  const AREA_LIMIT := 0x3800_0000

  // Below this limit, and no further, every size has its bit inside the bitmap.
  lemma BitInside(size: nat)
    requires size < AREA_LIMIT
    ensures OwnList(ListOf(size)) && WordOf(ListOf(size)) < REAL_FLI
  {
    ListBounds(size);
    if size >= SMALL_BLOCK {
      LogAtLeast(size, 7);
      var l := Log2(size);
      PowersNearLimit();
      if 30 <= l {
        Pow2Mono(30, l);
      }
      QuotientRange7(size, l);
      ListIs(size, l, size / Pow2(l - 7));
      if l == 29 {
        QuotientWithin(size, Pow2(22), 128, 224);
      }
    }
  }

  lemma PowersNearLimit()
    ensures Pow2(22) == 0x40_0000 && Pow2(29) == 0x2000_0000 && Pow2(30) == 0x4000_0000
  {
    assert Pow2(7) == 128 && Pow2(8) == 256;
    Pow2Sum(7, 7);
    Pow2Sum(14, 8);
    Pow2Sum(22, 7);
    Pow2Sum(22, 8);
  }

  lemma BitOutside()
    ensures WordOf(ListOf(AREA_LIMIT)) == REAL_FLI
  {
    PowersNearLimit();
    ListIs(AREA_LIMIT, 29, 224);
  }
}
