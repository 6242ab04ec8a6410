/**
 C's 64-bit `size_t` words and the numbers they stand for: what masking a word does to the
 number. The masks are those of the size accessors (tlsf.c:271-315) and of align_up,
 align_down and align_ptr (tlsf.c:392-410).
 */
module Words {
  import opened Bits
  import opened SizeClasses

  const WORD64: int := 0x1_0000_0000_0000_0000

  // The word whose value is n, bit by bit.
  function Word64(n: nat): bv64
    requires n < WORD64
  {
    if n == 0 then 0 else Append64(Word64(n / 2), n % 2 == 1)
  }

  function Append64(w: bv64, low: bool): bv64 {
    (w << 1) | (if low then 1 else 0)
  }

  // `~0 << k`
  function Above(k: nat): bv64
    requires k < 64
  {
    if k == 0 then 0xffff_ffff_ffff_ffff else Above(k - 1) << 1
  }

  predicate Masked(w: bv64, m: bv64, r: bv64) {
    w & m == r
  }

  predicate Unmasked(w: bv64, m: bv64, r: bv64) {
    w & !m == r
  }

  predicate Joined(w: bv64, m: bv64, r: bv64) {
    w | m == r
  }

  predicate Meets(w: bv64, m: bv64) {
    w & m != 0
  }

  predicate Doubled64(m: bv64, m': bv64) {
    m' == m << 1
  }

  predicate Appended64(w: bv64, low: bool, w': bv64) {
    w' == Append64(w, low)
  }

  lemma MaskedOn(w: bv64, m: bv64, r: bv64, low: bool, w': bv64, m': bv64, r': bv64)
    requires Masked(w, m, r) && Appended64(w, low, w') && Doubled64(m, m') && Appended64(r, false, r')
    ensures Masked(w', m', r')
  {
  }

  lemma UnmaskedOn(w: bv64, m: bv64, r: bv64, low: bool, w': bv64, m': bv64, r': bv64)
    requires Unmasked(w, m, r) && Appended64(w, low, w') && Doubled64(m, m') && Appended64(r, low, r')
    ensures Unmasked(w', m', r')
  {
  }

  lemma MaskedByAll(w: bv64)
    ensures Masked(w, 0xffff_ffff_ffff_ffff, w) && Unmasked(w, 0xffff_ffff_ffff_ffff, 0)
  {
  }

  lemma HalfStep(n: nat, h: nat, low: bool)
    requires n == 2 * h + (if low then 1 else 0) < WORD64
    ensures Appended64(Word64(h), low, Word64(n))
  {
  }

  lemma AboveStep(k: nat)
    requires 0 < k < 64
    ensures Doubled64(Above(k - 1), Above(k))
  {
  }

  // The number whose binary digits are the k lowest of n.
  function LowPart(n: nat, k: nat): (r: nat)
    ensures r <= n
  {
    if k == 0 then 0 else 2 * LowPart(n / 2, k - 1) + n % 2
  }

  lemma {:induction false} LowPartIs(n: nat, k: nat)
    ensures LowPart(n, k) == n % Pow2(k)
  {
    if k == 0 {
    } else {
      LowPartIs(n / 2, k - 1);
      RemainderOfDouble(n, Pow2(k - 1));
    }
  }

  lemma RemainderOfDouble(n: nat, p: int)
    requires p > 0
    ensures n % (2 * p) == 2 * (n / 2 % p) + n % 2
  {
    var q := n / 2;
    DivBounds(q, p);
    assert n == q / p * (2 * p) + (2 * (q % p) + n % 2);
    DivUnique(n, 2 * p, q / p, 2 * (q % p) + n % 2);
  }

  // Masking with ~0 << k clears the k lowest digits, and with its complement leaves them.
  lemma {:induction false} MaskParts(n: nat, k: nat)
    requires n < WORD64 && k < 64
    ensures Masked(Word64(n), Above(k), Word64(n - LowPart(n, k))) && Unmasked(Word64(n), Above(k), Word64(LowPart(n, k)))
  {
    if k == 0 {
      MaskedByAll(Word64(n));
    } else {
      var h := n / 2;
      var hr := LowPart(h, k - 1);
      MaskParts(h, k - 1);
      MaskStep(n, k, h, n % 2 == 1, h - hr, hr, n - LowPart(n, k), LowPart(n, k));
    }
  }

  lemma MaskStep(n: nat, k: nat, h: nat, low: bool, hq: nat, hr: nat, nq: nat, nr: nat)
    requires 0 < k < 64 && n == 2 * h + (if low then 1 else 0) < WORD64
    requires nq == 2 * hq <= n && nr == 2 * hr + (if low then 1 else 0) <= n
    requires Masked(Word64(h), Above(k - 1), Word64(hq)) && Unmasked(Word64(h), Above(k - 1), Word64(hr))
    ensures Masked(Word64(n), Above(k), Word64(nq)) && Unmasked(Word64(n), Above(k), Word64(nr))
  {
    HalfStep(n, h, low);
    HalfStep(nq, hq, false);
    HalfStep(nr, hr, low);
    AboveStep(k);
    MaskedOn(Word64(h), Above(k - 1), Word64(hq), low, Word64(n), Above(k), Word64(nq));
    UnmaskedOn(Word64(h), Above(k - 1), Word64(hr), low, Word64(n), Above(k), Word64(nr));
  }

  // In terms of remainders.
  lemma Remainder(n: nat, k: nat, r: nat)
    requires n < WORD64 && k < 64 && r == n % Pow2(k) && r <= n
    ensures Masked(Word64(n), Above(k), Word64(n - r)) && Unmasked(Word64(n), Above(k), Word64(r))
  {
    MaskParts(n, k);
    LowPartIs(n, k);
  }

  // ---------------------------------------------------------------- powers of two

  // `~(a - 1)`
  predicate MaskOf(a: bv64, m: bv64) {
    m == !(a - 1)
  }

  lemma MaskOfDouble(a: bv64, m: bv64, a': bv64, m': bv64)
    requires MaskOf(a, m) && Appended64(a, false, a') && Doubled64(m, m')
    ensures MaskOf(a', m')
  {
  }

  lemma {:induction false} PowerMask(k: nat, p: nat)
    requires k < 64 && p == Pow2(k)
    ensures p < WORD64 && MaskOf(Word64(p), Above(k))
  {
    PowerBelow(k);
    if k > 0 {
      PowerMask(k - 1, Pow2(k - 1));
      HalfStep(p, Pow2(k - 1), false);
      AboveStep(k);
      MaskOfDouble(Word64(Pow2(k - 1)), Above(k - 1), Word64(p), Above(k));
    } else {
      WordOfOne();
    }
  }

  lemma WordOfOne()
    ensures Word64(1) == 1
  {
    assert Word64(0) == 0;
  }

  lemma PowerBelow(k: nat)
    requires k < 64
    ensures Pow2(k) < WORD64
  {
    Pow2Of32();
    Pow2Sum(32, 31);
    Pow2Mono(k, 63);
  }

  // `w & ~(a - 1)`, `w & (a - 1)`
  function ClearLow(w: bv64, a: bv64): bv64 { w & !(a - 1) }
  function KeepLow(w: bv64, a: bv64): bv64 { w & (a - 1) }

  lemma MasksAgree(w: bv64, a: bv64, m: bv64, q: bv64, r: bv64)
    requires MaskOf(a, m) && Masked(w, m, q) && Unmasked(w, m, r)
    ensures ClearLow(w, a) == q && KeepLow(w, a) == r
  {
  }

  // For a power of two these clear and leave the remainder: the former is what align_up does
  // to x + (align - 1), the latter what align_down subtracts.
  lemma LowMasks(n: nat, k: nat, a: nat, r: nat)
    requires n < WORD64 && k < 64 && a == Pow2(k) && r == n % a && r <= n
    ensures a < WORD64 && ClearLow(Word64(n), Word64(a)) == Word64(n - r) && KeepLow(Word64(n), Word64(a)) == Word64(r)
  {
    Remainder(n, k, r);
    PowerMask(k, a);
    MasksAgree(Word64(n), Word64(a), Above(k), Word64(n - r), Word64(r));
  }

  // The assertion of align_up, align_down and align_ptr holds for every power of two.
  lemma PowerTest(k: nat, a: nat)
    requires k < 64 && a == Pow2(k)
    ensures a < WORD64 && KeepLow(Word64(a), Word64(a)) == 0
  {
    PowerMask(k, a);
    DivUnique(a, a, 1, 0);
    LowMasks(a, k, a, 0);
  }

  // align_up and align_ptr compute the model's AlignUp.
  lemma AlignUpMask(x: nat, k: nat, a: nat, y: nat, z: nat)
    requires k < 64 && a == Pow2(k) && y == x + (a - 1) < WORD64 && z == AlignUp(x, a)
    ensures a < WORD64 && ClearLow(Word64(y), Word64(a)) == Word64(z)
  {
    var r := AlignUpParts(x, a, y, z);
    LowMasks(y, k, a, r);
  }

  lemma AlignUpParts(x: nat, a: nat, y: nat, z: nat) returns (r: nat)
    requires a > 0 && y == x + (a - 1) && z == AlignUp(x, a)
    ensures r == y % a && r <= y && z == y - r
  {
    r := y % a;
    DivBounds(y, a);
  }

  // ---------------------------------------------------------------- the two lowest bits

  function LowWord(low: bool): bv64 { if low then 1 else 0 }

  // Masking the word w, which is v with one more bit.
  lemma LowMasked(v: bv64, low: bool, w: bv64)
    requires w == Append64(v, low)
    ensures Masked(w, 1, LowWord(low))
  {
    if low {
      LowIsSet(v, w);
    } else {
      LowIsClear(v, w);
    }
  }

  lemma LowIsSet(v: bv64, w: bv64)
    requires w == Append64(v, true)
    ensures Masked(w, 1, 1) && Joined(w, 1, w)
  {
  }

  lemma LowIsClear(v: bv64, w: bv64)
    requires w == Append64(v, false)
    ensures Masked(w, 1, 0) && Unmasked(w, 1, w)
  {
  }

  lemma SetLow(v: bv64, low: bool, w: bv64, r: bv64)
    requires w == Append64(v, low) && r == Append64(v, true)
    ensures Joined(w, 1, r)
  {
    if low {
      LowIsSet(v, w);
    } else {
      LowBecomesSet(v, w, r);
    }
  }

  lemma LowBecomesSet(v: bv64, w: bv64, r: bv64)
    requires w == Append64(v, false) && r == Append64(v, true)
    ensures Joined(w, 1, r) && Unmasked(r, 1, w)
  {
  }

  lemma ClearLowBit(v: bv64, low: bool, w: bv64, r: bv64)
    requires w == Append64(v, low) && r == Append64(v, false)
    ensures Unmasked(w, 1, r)
  {
    if low {
      LowBecomesSet(v, r, w);
    } else {
      LowIsClear(v, w);
    }
  }

  // Masking the bit above it.
  lemma NextBit(v: bv64, low: bool, w: bv64, u: bv64, r: bv64)
    requires w == Append64(v, low) && Masked(v, 1, u) && r == Append64(u, false)
    ensures Masked(w, 2, r)
  {
  }

  lemma SetNext(v: bv64, low: bool, w: bv64, u: bv64, r: bv64)
    requires w == Append64(v, low) && Joined(v, 1, u) && r == Append64(u, low)
    ensures Joined(w, 2, r)
  {
  }

  lemma ClearNext(v: bv64, low: bool, w: bv64, u: bv64, r: bv64)
    requires w == Append64(v, low) && Unmasked(v, 1, u) && r == Append64(u, low)
    ensures Unmasked(w, 2, r)
  {
  }

  // Masking both.
  lemma ClearBoth(v: bv64, low: bool, w: bv64, u: bv64, r: bv64)
    requires w == Append64(v, low) && Unmasked(v, 1, u) && r == Append64(u, false)
    ensures Unmasked(w, 3, r)
  {
    if low {
      ClearBothSet(v, w, u, r);
    } else {
      ClearBothClear(v, w, u, r);
    }
  }

  lemma ClearBothSet(v: bv64, w: bv64, u: bv64, r: bv64)
    requires w == Append64(v, true) && Unmasked(v, 1, u) && r == Append64(u, false)
    ensures Unmasked(w, 3, r)
  {
  }

  lemma ClearBothClear(v: bv64, w: bv64, u: bv64, r: bv64)
    requires w == Append64(v, false) && Unmasked(v, 1, u) && r == Append64(u, false)
    ensures Unmasked(w, 3, r)
  {
  }

  lemma MeetsBy(w: bv64, m: bv64, r: bv64)
    requires Masked(w, m, r)
    ensures Meets(w, m) <==> r != 0
  {
  }

  // The flags of w join s.
  predicate JoinedFlags(s: bv64, w: bv64, r: bv64) {
    s | (w & 3) == r
  }

  lemma JoinedBy(s: bv64, w: bv64, y: bv64, r: bv64)
    requires Masked(w, 3, y) && Joined(s, y, r)
    ensures JoinedFlags(s, w, r)
  {
  }

  lemma KeepBoth(v: bv64, low: bool, w: bv64, z: bv64, y: bv64)
    requires w == Append64(v, low) && Masked(v, 1, z) && y == Append64(z, low)
    ensures Masked(w, 3, y)
  {
  }

  lemma OrAppended(t: bv64, z: bv64, r: bv64, low: bool, s: bv64, y: bv64)
    requires s == Append64(t, false) && y == Append64(z, low) && Joined(t, z, r)
    ensures Joined(s, y, Append64(r, low))
  {
  }

  lemma LowJoined(x: bv64, low: bool, t: bv64, r: bv64)
    requires t == Append64(x, false) && r == Append64(x, low)
    ensures Joined(t, LowWord(low), r)
  {
    if low {
      LowBecomesSet(x, t, r);
    } else {
      JoinedNothing(t);
    }
  }

  lemma JoinedNothing(t: bv64)
    ensures Joined(t, 0, t)
  {
  }

  // The size t with its two bits clear takes over the two bits of w.
  lemma JoinFlags(u: bv64, v: bv64, prevFree: bool, free: bool, w: bv64, x: bv64, t: bv64, s: bv64)
    requires v == Append64(u, prevFree) && w == Append64(v, free) && t == Append64(x, false) && s == Append64(t, false)
    ensures JoinedFlags(s, w, Append64(Append64(x, prevFree), free))
  {
    var y := Append64(LowWord(prevFree), free);
    LowMasked(u, prevFree, v);
    KeepBoth(v, free, w, LowWord(prevFree), y);
    LowJoined(x, prevFree, t, Append64(x, prevFree));
    OrAppended(t, LowWord(prevFree), Append64(x, prevFree), free, s, y);
    JoinedBy(s, w, y, Append64(Append64(x, prevFree), free));
  }

  lemma AppendedLow(low: bool)
    ensures LowWord(low) != 0 <==> low
    ensures Append64(LowWord(low), false) != 0 <==> low
  {
  }

  // ---------------------------------------------------------------- words and values

  lemma {:induction false} AboveIsShift(k: nat)
    requires k < 64
    ensures Above(k) == 0xffff_ffff_ffff_ffff as bv64 << k
  {
    if k == 0 {
    } else {
      AboveIsShift(k - 1);
    }
  }

  lemma AboveTop()
    ensures Above(63) == 0x8000_0000_0000_0000
  {
    AboveIsShift(63);
  }

  predicate TopClear(w: bv64) {
    w & 0x8000_0000_0000_0000 == 0
  }

  lemma SmallTopClear(n: nat)
    requires 2 * n < WORD64
    ensures TopClear(Word64(n))
  {
    MaskParts(n, 63);
    AllIsLow(n);
    AboveTop();
  }

  lemma AllIsLow(n: nat)
    requires 2 * n < WORD64
    ensures LowPart(n, 63) == n
  {
    LowPartIs(n, 63);
    Pow2Of32();
    Pow2Sum(32, 31);
  }

  lemma AppendedDiffer(v: bv64, w: bv64, low: bool, low': bool)
    requires TopClear(v) && TopClear(w) && Append64(v, low) == Append64(w, low')
    ensures v == w && low == low'
  {
  }

  // Different numbers have different words.
  lemma {:induction false} WordsDiffer(m: nat, n: nat)
    requires m < WORD64 && n < WORD64 && Word64(m) == Word64(n)
    ensures m == n
    decreases m + n
  {
    if m == 0 && n == 0 {
    } else {
      HalfStep(m, m / 2, m % 2 == 1);
      HalfStep(n, n / 2, n % 2 == 1);
      SmallTopClear(m / 2);
      SmallTopClear(n / 2);
      AppendedDiffer(Word64(m / 2), Word64(n / 2), m % 2 == 1, n % 2 == 1);
      WordsDiffer(m / 2, n / 2);
    }
  }
}
