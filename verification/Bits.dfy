/**
 Bit scans over C's 32-bit `unsigned int` and 64-bit `size_t` (tlsf.c:57-89), and the
 single-bit view of a bitmap word that the free-list index is specified with.
 */
module Bits {

  const WORD32: int := 0x1_0000_0000

  // ---------------------------------------------------------------- powers and logarithms

  function Pow2(k: nat): (p: int)
    ensures p >= 1
  {
    if k == 0 then 1 else 2 * Pow2(k - 1)
  }

  // The exponent of the largest power of two that does not exceed n.
  function Log2(n: nat): (l: nat)
    requires n > 0
    ensures Pow2(l) <= n < Pow2(l + 1)
  {
    if n == 1 then 0 else 1 + Log2(n / 2)
  }

  lemma {:induction false} Pow2Mono(a: nat, b: nat)
    requires a <= b
    ensures Pow2(a) <= Pow2(b)
    decreases b
  {
    if a == b {
    } else {
      Pow2Mono(a, b - 1);
    }
  }

  lemma Pow2Less(a: nat, b: nat)
    requires Pow2(a) < Pow2(b)
    ensures a < b
  {
    if b <= a {
      Pow2Mono(b, a);
    }
  }

  lemma {:induction false} Pow2Sum(a: nat, b: nat)
    ensures Pow2(a + b) == Pow2(a) * Pow2(b)
  {
    if b == 0 {
    } else {
      Pow2Sum(a, b - 1);
      assert Pow2(a + b) == 2 * (Pow2(a) * Pow2(b - 1));
    }
  }

  // Multiplying by 8, 128 and 256.
  lemma Pow2Times(k: nat)
    ensures Pow2(k + 3) == 8 * Pow2(k) && Pow2(k + 7) == 128 * Pow2(k) && Pow2(k + 8) == 256 * Pow2(k)
  {
    assert Pow2(k + 2) == 2 * Pow2(k + 1);
    assert Pow2(k + 4) == 2 * Pow2(k + 3);
    assert Pow2(k + 6) == 2 * Pow2(k + 5);
    assert Pow2(k + 8) == 2 * Pow2(k + 7);
  }

  // A number has only one logarithm.
  lemma Log2Unique(n: nat, l: nat)
    requires n > 0 && Pow2(l) <= n < Pow2(l + 1)
    ensures Log2(n) == l
  {
    if Log2(n) < l {
      Pow2Mono(Log2(n) + 1, l);
    } else if l < Log2(n) {
      Pow2Mono(l + 1, Log2(n));
    }
  }

  // ---------------------------------------------------------------- single bits of a word

  // `1U << i`
  function One(i: int): (b: bv32)
    requires 0 <= i < 32
  {
    if i == 0 then 1 else One(i - 1) << 1
  }

  // `~0U << s`
  function From(s: int): (m: bv32)
    requires 0 <= s < 32
  {
    if s == 0 then 0xffff_ffff else From(s - 1) << 1
  }

  predicate Bit(w: bv32, i: int)
    requires 0 <= i < 32
  {
    Hits(w, One(i))
  }

  lemma {:induction false} OneIsShift(i: int)
    requires 0 <= i < 32
    ensures One(i) == 1 as bv32 << i
  {
    if i == 0 {
    } else {
      OneIsShift(i - 1);
    }
  }

  lemma {:induction false} FromIsShift(s: int)
    requires 0 <= s < 32
    ensures From(s) == 0xffff_ffff as bv32 << s
  {
    if s == 0 {
    } else {
      FromIsShift(s - 1);
    }
  }

  predicate Hits(w: bv32, mask: bv32) {
    w & mask != 0
  }

  predicate Disjoint(a: bv32, b: bv32) {
    a != 0 && b != 0 && a & b == 0
  }

  predicate Covers(m: bv32, b: bv32) {
    m & b == b
  }

  // `w |= 1U << i`
  function WithBit(w: bv32, i: int): bv32
    requires 0 <= i < 32
  {
    Or(w, One(i))
  }

  // `w &= ~(1U << i)`
  function WithoutBit(w: bv32, i: int): bv32
    requires 0 <= i < 32
  {
    AndNot(w, One(i))
  }

  // `w & (~0U << s)`
  function BitsFrom(w: bv32, s: int): bv32
    requires 0 <= s < 32
  {
    And(w, From(s))
  }

  function Or(a: bv32, b: bv32): bv32 { a | b }
  function And(a: bv32, b: bv32): bv32 { a & b }
  function AndNot(a: bv32, b: bv32): bv32 { a & !b }

  lemma OneDisjoint(i: int, j: int)
    requires 0 <= i < 32 && 0 <= j < 32 && i != j
    ensures Disjoint(One(i), One(j))
  {
    OneIsShift(i);
    OneIsShift(j);
  }

  lemma OneNonzero(i: int)
    requires 0 <= i < 32
    ensures One(i) != 0
  {
    OneIsShift(i);
  }

  lemma FromCovers(s: int, j: int)
    requires 0 <= s <= j < 32
    ensures Covers(From(s), One(j))
  {
    FromIsShift(s);
    OneIsShift(j);
  }

  lemma FromMisses(s: int, j: int)
    requires 0 <= j < s < 32
    ensures !Hits(From(s), One(j))
  {
    FromIsShift(s);
    OneIsShift(j);
  }

  lemma OrHits(w: bv32, a: bv32, b: bv32)
    ensures Disjoint(a, b) ==> (Hits(Or(w, a), b) <==> Hits(w, b))
    ensures a != 0 ==> Hits(Or(w, a), a)
  {
  }

  lemma AndNotHits(w: bv32, a: bv32, b: bv32)
    ensures Disjoint(a, b) ==> (Hits(AndNot(w, a), b) <==> Hits(w, b))
    ensures !Hits(AndNot(w, a), a)
  {
  }

  lemma AndHits(w: bv32, m: bv32, b: bv32)
    ensures Covers(m, b) ==> (Hits(And(w, m), b) <==> Hits(w, b))
    ensures !Hits(m, b) ==> !Hits(And(w, m), b)
  {
    if !Hits(m, b) {
      AndMissed(w, m, b);
    } else if Covers(m, b) && Hits(And(w, m), b) {
      AndFound(w, m, b);
    } else if Covers(m, b) {
      AndLost(w, m, b);
    }
  }

  lemma AndMissed(w: bv32, m: bv32, b: bv32)
    requires !Hits(m, b)
    ensures !Hits(And(w, m), b)
  {
  }

  lemma AndFound(w: bv32, m: bv32, b: bv32)
    requires Covers(m, b) && Hits(And(w, m), b)
    ensures Hits(w, b)
  {
  }

  lemma AndLost(w: bv32, m: bv32, b: bv32)
    requires Covers(m, b) && !Hits(And(w, m), b)
    ensures !Hits(w, b)
  {
  }

  lemma SetBit(w: bv32, i: int, j: int)
    requires 0 <= i < 32 && 0 <= j < 32
    ensures Bit(WithBit(w, i), j) <==> i == j || Bit(w, j)
  {
    OrHits(w, One(i), One(j));
    if i == j {
      OneNonzero(i);
    } else {
      OneDisjoint(i, j);
    }
  }

  lemma ClearBit(w: bv32, i: int, j: int)
    requires 0 <= i < 32 && 0 <= j < 32
    ensures Bit(WithoutBit(w, i), j) <==> i != j && Bit(w, j)
  {
    AndNotHits(w, One(i), One(j));
    if i != j {
      OneDisjoint(i, j);
    }
  }

  lemma MaskBit(w: bv32, s: int, j: int)
    requires 0 <= s < 32 && 0 <= j < 32
    ensures Bit(BitsFrom(w, s), j) <==> s <= j && Bit(w, j)
  {
    AndHits(w, From(s), One(j));
    if s <= j {
      FromCovers(s, j);
    } else {
      FromMisses(s, j);
    }
  }

  lemma ZeroHasNoBit(w: bv32, i: int)
    requires 0 <= i < 32 && w == 0
    ensures !Bit(w, i)
  {
  }

  lemma BitNonzero(w: bv32, i: int)
    requires 0 <= i < 32 && Bit(w, i)
    ensures w != 0
  {
  }

  lemma WithBitNonzero(w: bv32, i: int)
    requires 0 <= i < 32
    ensures WithBit(w, i) != 0
  {
    SetBit(w, i, i);
    BitNonzero(WithBit(w, i), i);
  }

  lemma FromZero(w: bv32)
    ensures BitsFrom(w, 0) == w
  {
  }

  // ---------------------------------------------------------------- words with the same bits

  predicate Agree(v: bv32, w: bv32, m: bv32) {
    v & m == w & m
  }

  predicate Single(b: bv32) {
    b & (b - 1) == 0
  }

  lemma AgreeOn(v: bv32, w: bv32, m: bv32, b: bv32)
    requires Agree(v, w, m) && Single(b) && Hits(v, b) == Hits(w, b)
    ensures Agree(v, w, m | b)
  {
  }

  lemma OneSingle(i: int)
    requires 0 <= i < 32
    ensures Single(One(i))
  {
    OneIsShift(i);
  }

  // `~(~0U << i)`
  function Below(i: int): bv32
    requires 0 <= i < 32
  {
    !From(i)
  }

  lemma NextMask(i: int)
    requires 0 <= i < 31
    ensures Below(i) | One(i) == Below(i + 1)
  {
    OneIsShift(i);
    FromIsShift(i);
  }

  lemma AgreeNext(v: bv32, w: bv32, i: int)
    requires 0 <= i < 31 && Agree(v, w, Below(i)) && Bit(v, i) == Bit(w, i)
    ensures Agree(v, w, Below(i + 1))
  {
    OneSingle(i);
    AgreeOn(v, w, Below(i), One(i));
    NextMask(i);
  }

  lemma {:induction false} AgreeBelow(v: bv32, w: bv32, i: int)
    requires 0 <= i < 32
    requires forall j | 0 <= j < i :: Bit(v, j) == Bit(w, j)
    ensures Agree(v, w, Below(i))
  {
    if i == 0 {
    } else {
      AgreeBelow(v, w, i - 1);
      AgreeNext(v, w, i - 1);
    }
  }

  lemma TopMasks()
    ensures One(31) == 0x8000_0000 && Below(31) == 0x7fff_ffff
  {
    OneIsShift(31);
    FromIsShift(31);
  }

  lemma AgreeOnAll(v: bv32, w: bv32, m: bv32, b: bv32)
    requires m == 0x7fff_ffff && b == 0x8000_0000 && Agree(v, w, m) && Hits(v, b) == Hits(w, b)
    ensures v == w
  {
  }

  lemma SameBits(v: bv32, w: bv32)
    requires forall i | 0 <= i < 32 :: Bit(v, i) == Bit(w, i)
    ensures v == w
  {
    AgreeBelow(v, w, 31);
    TopMasks();
    assert Bit(v, 31) == Bit(w, 31);
    AgreeOnAll(v, w, Below(31), One(31));
  }

  // ---------------------------------------------------------------- find last / first set

  // b is the number of w's highest set bit: shifting it down to bit 0 leaves nothing else.
  predicate IsTop(w: bv32, b: int) {
    0 <= b < 32 && w >> b == 1
  }

  // b is the number of w's lowest set bit.
  predicate IsLowest(w: bv32, b: int) {
    0 <= b < 32 && Bit(w, b) && forall j | 0 <= j < b :: !Bit(w, j)
  }

  // The number of w's lowest set bit from i on, and -1 if there is none.
  function LowestFrom(w: bv32, i: int): (b: int)
    requires 0 <= i <= 32 && forall j | 0 <= j < i :: !Bit(w, j)
    ensures b == -1 ==> forall j | 0 <= j < 32 :: !Bit(w, j)
    ensures b != -1 ==> IsLowest(w, b)
    decreases 32 - i
  {
    if i == 32 then -1 else if Bit(w, i) then i else LowestFrom(w, i + 1)
  }

  function Lowest(w: bv32): (b: int)
    ensures b == -1 <==> w == 0
    ensures b != -1 ==> IsLowest(w, b)
  {
    LowestZero(w);
    LowestFrom(w, 0)
  }

  lemma LowestZero(w: bv32)
    ensures LowestFrom(w, 0) == -1 <==> w == 0
  {
    forall i | 0 <= i < 32
      ensures !Bit(0, i)
    {
      ZeroHasNoBit(0, i);
    }
    if LowestFrom(w, 0) == -1 {
      SameBits(w, 0);
    }
  }

  lemma LowestUnique(w: bv32, b: int)
    requires IsLowest(w, b)
    ensures Lowest(w) == b
  {
    BitNonzero(w, b);
  }

  // tlsf_fls: halve the range that can hold the highest bit five times.
  method Fls(word: bv32) returns (bit: int)
    ensures word == 0 ==> bit == -1
    ensures word != 0 ==> IsTop(word, bit)
  {
    var w := word;
    bit := 32;
    if w == 0 { bit := bit - 1; }
    if w & 0xffff0000 == 0 { w := w << 16; bit := bit - 16; }
    if w & 0xff000000 == 0 { w := w << 8; bit := bit - 8; }
    if w & 0xf0000000 == 0 { w := w << 4; bit := bit - 4; }
    if w & 0xc0000000 == 0 { w := w << 2; bit := bit - 2; }
    if w & 0x80000000 == 0 { w := w << 1; bit := bit - 1; }
    bit := bit - 1;
  }

  // tlsf_ffs: the highest bit of the isolated lowest bit.
  method Ffs(word: bv32) returns (bit: int)
    ensures word == 0 ==> bit == -1
    ensures word != 0 ==> IsLowest(word, bit)
  {
    IsolatedNonzero(word);
    bit := Fls(word & (!word + 1));
    if word != 0 {
      IsolatedIsOne(word, bit);
      IsolatedIsLowest(word, bit);
    }
  }

  lemma IsolatedNonzero(w: bv32)
    ensures w & (!w + 1) == 0 <==> w == 0
  {
  }

  lemma IsolatedIsOne(w: bv32, b: int)
    requires IsTop(w & (!w + 1), b)
    ensures w & (!w + 1) == 1 << b
  {
  }

  lemma IsolatedIsLowest(w: bv32, b: int)
    requires 0 <= b < 32
    requires w & (!w + 1) == 1 << b
    ensures IsLowest(w, b)
  {
    OneIsShift(b);
    forall j | 0 <= j < b
      ensures !Bit(w, j)
    {
      NothingBelow(w, b, j);
      OneIsShift(j);
    }
  }

  lemma NothingBelow(w: bv32, b: int, j: int)
    requires 0 <= j < b < 32
    requires w & (!w + 1) == 1 << b
    ensures w & (1 << j) == 0
  {
  }

  // ---------------------------------------------------------------- find last set of a size_t

  // The `unsigned int` whose value is n, bit by bit.
  function Word(n: nat): bv32
    requires n < WORD32
  {
    if n == 0 then 0 else Append(Word(n / 2), n % 2 == 1)
  }

  function Append(w: bv32, low: bool): bv32 {
    (w << 1) | (if low then 1 else 0)
  }

  // Of the bits of w under mask m, exactly those of o are set.
  predicate Leads(w: bv32, m: bv32, o: bv32) {
    w & m == o
  }

  predicate Appended(w: bv32, w': bv32) {
    w' == Append(w, true) || w' == Append(w, false)
  }

  predicate Doubled(m: bv32, m': bv32) {
    m' == m << 1
  }

  lemma LeadsOn(w: bv32, m: bv32, o: bv32, w': bv32, m': bv32, o': bv32)
    requires Leads(w, m, o) && Appended(w, w') && Doubled(m, m') && Doubled(o, o')
    ensures Leads(w', m', o')
  {
  }

  lemma LeadsTop(w: bv32, b: int)
    requires 0 <= b < 32 && Leads(w, 0xffff_ffff << b, 1 << b)
    ensures IsTop(w, b)
  {
  }

  lemma TopUnique(w: bv32, a: int, b: int)
    requires IsTop(w, a) && IsTop(w, b)
    ensures a == b
  {
    if a < b {
      TopBelow(w, a, b);
    } else if b < a {
      TopBelow(w, b, a);
    }
  }

  lemma TopBelow(w: bv32, a: int, b: int)
    requires 0 <= a < b < 32 && w >> a == 1
    ensures w >> b != 1
  {
  }

  lemma TopNonzero(w: bv32, b: int)
    requires IsTop(w, b)
    ensures w != 0
  {
  }

  // The highest set bit of the word with value n is n's logarithm.
  lemma {:induction false} WordLeads(n: nat, b: nat)
    requires Pow2(b) <= n < Pow2(b + 1) && n < WORD32 && b < 32
    ensures Leads(Word(n), From(b), One(b))
  {
    if b == 0 {
      assert n == 1 && Word(0) == 0;
    } else {
      HalfOf(n, b);
      WordLeads(n / 2, b - 1);
      LeadsStep(n, b);
    }
  }

  lemma HalfOf(n: nat, b: nat)
    requires b > 0 && Pow2(b) <= n < Pow2(b + 1)
    ensures Pow2(b - 1) <= n / 2 < Pow2(b)
  {
  }

  lemma WordStep(n: nat)
    requires 0 < n < WORD32
    ensures Appended(Word(n / 2), Word(n))
  {
  }

  lemma MaskStep(b: nat)
    requires 0 < b < 32
    ensures Doubled(From(b - 1), From(b)) && Doubled(One(b - 1), One(b))
  {
  }

  lemma LeadsStep(n: nat, b: nat)
    requires 0 < n < WORD32 && 0 < b < 32 && Leads(Word(n / 2), From(b - 1), One(b - 1))
    ensures Leads(Word(n), From(b), One(b))
  {
    WordStep(n);
    MaskStep(b);
    LeadsOn(Word(n / 2), From(b - 1), One(b - 1), Word(n), From(b), One(b));
  }

  lemma WordTop(n: nat, b: nat)
    requires Pow2(b) <= n < Pow2(b + 1) && n < WORD32 && b < 32
    ensures IsTop(Word(n), b)
  {
    WordLeads(n, b);
    OneIsShift(b);
    FromIsShift(b);
    LeadsTop(Word(n), b);
  }

  lemma Pow2Of32()
    ensures Pow2(32) == WORD32
  {
    assert Pow2(4) == 16;
    Pow2Sum(4, 4);
    Pow2Sum(8, 8);
    Pow2Sum(16, 16);
  }

  lemma WordLog2(n: nat)
    requires 0 < n < WORD32
    ensures Log2(n) < 32 && Word(n) != 0 && IsTop(Word(n), Log2(n))
  {
    Pow2Of32();
    if 32 <= Log2(n) {
      Pow2Mono(32, Log2(n));
    }
    WordTop(n, Log2(n));
    TopNonzero(Word(n), Log2(n));
  }

  // tlsf_fls_sizet on a 64-bit size_t.
  method FlsSizeT(size: nat) returns (bit: int)
    requires size < WORD32 * WORD32
    ensures size == 0 ==> bit == -1
    ensures size > 0 ==> bit == Log2(size)
  {
    var high := size / WORD32;
    if high != 0 {
      WordLog2(high);
      bit := Fls(Word(high));
      TopUnique(Word(high), bit, Log2(high));
      Log2High(size);
      bit := 32 + bit;
    } else {
      bit := Fls(Word(size % WORD32));
      if size > 0 {
        WordLog2(size);
        TopUnique(Word(size), bit, Log2(size));
      }
    }
  }

  lemma Log2High(n: nat)
    requires n / WORD32 > 0
    ensures Log2(n) == 32 + Log2(n / WORD32)
  {
    var h, l := n / WORD32, Log2(n / WORD32);
    Pow2Of32();
    Pow2Sum(l, 32);
    Pow2Sum(l + 1, 32);
    assert Pow2(l) * WORD32 <= h * WORD32 <= n < (h + 1) * WORD32 <= Pow2(l + 1) * WORD32;
    Log2Unique(n, l + 32);
  }
}
