/**
 Addressable memory: an array of 8-byte words, named by byte addresses that are
 multiples of 8. Word 0 holds bytes 0 to 7.
 */
module Memory {

  const WORD_BYTES := 8

  class Ram {
    const words: array<nat>

    constructor (content: array<nat>)
      ensures words == content
    {
      words := content;
    }

    predicate Mapped(a: int) {
      0 <= a < WORD_BYTES * words.Length && a % WORD_BYTES == 0
    }

    // What memory holds, by address.
    ghost function Contents(): (m: map<int, nat>)
      reads words
      ensures Spans(m, Limit())
    {
      map a | 0 <= a < WORD_BYTES * words.Length && Mapped(a) :: words[a / WORD_BYTES]
    }

    function Load(a: int): (w: nat)
      reads words
      requires a in Contents()
      ensures w == Contents()[a]
    {
      words[a / WORD_BYTES]
    }

    method Store(a: int, w: nat)
      requires a in Contents()
      modifies words
      ensures Contents() == old(Contents())[a := w]
    {
      words[a / WORD_BYTES] := w;
    }

    ghost function Limit(): int {
      WORD_BYTES * words.Length
    }

    // memcpy of n words between ranges that do not overlap.
    method Copy(to: int, from: int, n: nat)
      requires CopyOk(Contents(), to, from, n)
      modifies words
      ensures Contents() == Copied(old(Contents()), to, from, n)
    {
      ghost var m := Contents();
      var i := 0;
      while i < n
        invariant 0 <= i <= n
        invariant CopyOk(m, to, from, i) && Contents() == Copied(m, to, from, i)
      {
        CopyStep(m, to, from, n, i);
        var w := Load(WordAt(from, i));
        Store(WordAt(to, i), w);
        i := i + 1;
      }
    }
  }

  // m has exactly the aligned addresses below limit.
  ghost predicate Spans(m: map<int, nat>, limit: int) {
    forall a :: a in m <==> 0 <= a < limit && a % WORD_BYTES == 0
  }

  // Two stretches of n words that do not overlap.
  ghost predicate CopyOk(m: map<int, nat>, to: int, from: int, n: nat) {
    && (forall i | 0 <= i < n :: WordAt(to, i) in m && WordAt(from, i) in m)
    && (to + WORD_BYTES * n <= from || from + WORD_BYTES * n <= to)
  }

  function WordAt(a: int, i: int): int {
    a + WORD_BYTES * i
  }

  // m after n words have been copied one by one.
  ghost function Copied(m: map<int, nat>, to: int, from: int, n: nat): (m': map<int, nat>)
    requires CopyOk(m, to, from, n)
    ensures m'.Keys == m.Keys
  {
    if n == 0 then m else Copied(m, to, from, n - 1)[WordAt(to, n - 1) := m[WordAt(from, n - 1)]]
  }

  lemma CopyStep(m: map<int, nat>, to: int, from: int, n: nat, i: nat)
    requires CopyOk(m, to, from, n) && i < n
    ensures CopyOk(m, to, from, i) && CopyOk(m, to, from, i + 1)
    ensures var c := Copied(m, to, from, i);
            && WordAt(to, i) in c && WordAt(from, i) in c
            && c[WordAt(to, i) := c[WordAt(from, i)]] == Copied(m, to, from, i + 1)
  {
    CopiedOutside(m, to, from, i, WordAt(from, i));
  }

  // Every word of the target range holds its counterpart.
  lemma {:induction false} CopiedTo(m: map<int, nat>, to: int, from: int, n: nat, i: nat)
    requires CopyOk(m, to, from, n) && i < n
    ensures Copied(m, to, from, n)[WordAt(to, i)] == m[WordAt(from, i)]
  {
    if i == n - 1 {
    } else {
      CopiedTo(m, to, from, n - 1, i);
    }
  }

  // Every word outside the target range is as it was.
  lemma {:induction false} CopiedOutside(m: map<int, nat>, to: int, from: int, n: nat, a: int)
    requires CopyOk(m, to, from, n) && a in m && (a < to || to + WORD_BYTES * n <= a)
    ensures Copied(m, to, from, n)[a] == m[a]
  {
    if n == 0 {
    } else {
      CopiedOutside(m, to, from, n - 1, a);
    }
  }
}
