/**
 Runs of the program: `Control` performs a sequence of calls and client stores and ends with
 the heap that `Runs.Run` says. What is proved there of whole runs holds of the program.
 */
module Program {
  import opened Bits
  import opened SizeClasses
  import opened Alignment
  import opened Heaps
  import opened HeapOps
  import opened HeapCalls
  import opened Coalescing
  import opened Oversized
  import opened Runs
  import opened Tlsf

  // The sizes for which the shifts of the search are defined.
  predicate InRange(op: Op) {
    match op
    case AddPoolOp(mem, bytes) => 0 <= mem && bytes < WORD32 * WORD32
    case MallocOp(size) => AdjustRequest(size, ALIGN_SIZE) < LOCATE_LIMIT
    case MemalignOp(align, size) => align > 0 && AlignedNeed(align, AdjustRequest(size, ALIGN_SIZE)) < LOCATE_LIMIT
    case ReallocOp(_, size) => AdjustRequest(size, ALIGN_SIZE) < LOCATE_LIMIT
    case _ => true
  }

  // One call, and what it returns.
  method Perform(t: Control, op: Op) returns (p: int)
    requires t.Valid() && Allowed(t.g, op) && InRange(op)
    modifies t, t.slBitmap, t.heads, t.mem.words
    ensures t.Valid() && t.g == Apply(old(t.g), op) && p == Result(old(t.g), op)
  {
    p := NULL;
    match op
    case AddPoolOp(mem, bytes) =>
      p := t.AddPool(mem, bytes);
    case RemovePoolOp(f) =>
      DrainedIsVacant(t.g, f);
      PoolIsMapped(t, f);
      t.RemovePool(f + 8);
    case MallocOp(size) =>
      p := t.Malloc(size);
    case MemalignOp(align, size) =>
      p := t.Memalign(align, size);
    case ReallocOp(b, size) =>
      LiveSize(t.g, b);
      OversizedRequest(t.g, b, size);
      var stopped;
      p, stopped := t.Realloc(b + BLOCK_START_OFFSET, size);
      assert !stopped;
    case FreeOp(b) =>
      LiveSize(t.g, b);
      t.Free(b + BLOCK_START_OFFSET);
    case WriteOp(b, a, w) =>
      t.ClientWrite(b, a, w);
  }

  lemma PoolIsMapped(t: Control, f: int)
    requires t.Valid() && f in t.g.pools
    ensures 0 < f
  {
    assert PooledAt(t.g, f) && ShapedAt(t.g, f);
  }

  // A run in progress: from heap g0, calls all; what is left are calls ops, from heap g.
  ghost predicate Underway(g0: Heap, all: seq<Op>, rs: seq<int>, g: Heap, ops: seq<Op>) {
    && Inv(g0) && Possible(g0, all) && Inv(g) && Possible(g, ops)
    && Run(g, ops) == Run(g0, all) && rs + Results(g, ops) == Results(g0, all)
  }

  lemma GoOn(g0: Heap, all: seq<Op>, rs: seq<int>, g: Heap, ops: seq<Op>, rest: seq<Op>)
    requires Underway(g0, all, rs, g, ops) && ops != [] && rest == ops[1..]
    ensures Allowed(g, ops[0])
    ensures Underway(g0, all, rs + [Result(g, ops[0])], Apply(g, ops[0]), rest)
  {
    var p := Result(g, ops[0]);
    assert rs + ([p] + Results(Apply(g, ops[0]), rest)) == rs + [p] + Results(Apply(g, ops[0]), rest);
  }

  // A run, and what its calls return.
  method PerformAll(t: Control, ops: seq<Op>) returns (rs: seq<int>)
    requires t.Valid() && Possible(t.g, ops) && forall op | op in ops :: InRange(op)
    modifies t, t.slBitmap, t.heads, t.mem.words
    ensures t.Valid() && t.g == Run(old(t.g), ops) && rs == Results(old(t.g), ops)
  {
    var i := 0;
    rs := [];
    assert ops[0..] == ops;
    while i < |ops|
      invariant 0 <= i <= |ops|
      invariant t.Valid() && Underway(old(t.g), ops, rs, t.g, ops[i..])
    {
      assert ops[i..][0] == ops[i];
      GoOn(old(t.g), ops, rs, t.g, ops[i..], ops[i + 1..]);
      var p := Perform(t, ops[i]);
      rs := rs + [p];
      i := i + 1;
    }
  }
}
