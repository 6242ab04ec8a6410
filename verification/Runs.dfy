/**
 Whole runs: what holds after any sequence of calls and client stores, each made within
 its contract, from a new heap on.
 */
module Runs {
  import opened SizeClasses
  import opened Alignment
  import opened Memory
  import opened Heaps
  import opened HeapSteps
  import opened HeapOps
  import opened HeapFrames
  import opened HeapCalls
  import opened Foreign
  import opened Requests
  import opened CallFrames
  import opened Coalescing

  datatype Op =
    | AddPoolOp(mem: int, bytes: nat)
    | RemovePoolOp(pool: int)
    | MallocOp(size: nat)
    | MemalignOp(align: nat, size: nat)
    | ReallocOp(block: int, size: nat)
    | FreeOp(block: int)
    | WriteOp(block: int, a: int, w: nat)

  // What a call may be given. Blocks and pools are named by their headers.
  ghost predicate Allowed(g: Heap, op: Op)
    requires Inv(g)
  {
    match op
    case AddPoolOp(mem, bytes) => PoolSizeOk(mem, bytes) ==> PoolReady(g, mem, bytes)
    case RemovePoolOp(f) => f in g.pools && Drained(g, f)
    case MallocOp(_) => true
    case MemalignOp(align, _) => PowerOfTwo(align)
    case ReallocOp(b, size) => Live(g, b) && AdjustRequest(size, ALIGN_SIZE) > 0
    case FreeOp(b) => Live(g, b)
    case WriteOp(b, a, _) => InPayload(g, b, a)
  }

  ghost function Apply(g: Heap, op: Op): (g': Heap)
    requires Inv(g) && Allowed(g, op)
    ensures Inv(g')
  {
    match op
    case AddPoolOp(mem, bytes) => AddPool(g, mem, bytes).heap
    case RemovePoolOp(f) => DrainedIsVacant(g, f); RemovePoolInv(g, f); RemovePool(g, f)
    case MallocOp(size) => Malloc(g, size).heap
    case MemalignOp(align, size) => Memalign(g, align, size).heap
    case ReallocOp(b, size) => Realloc(g, b, size).heap
    case FreeOp(b) => Free(g, b)
    case WriteOp(b, a, w) => WriteInv(g, b, a, w); Write(g, b, a, w)
  }

  // What a call returns: an address, and NULL where it returns nothing.
  ghost function Result(g: Heap, op: Op): int
    requires Inv(g) && Allowed(g, op)
  {
    match op
    case AddPoolOp(mem, bytes) => AddPool(g, mem, bytes).ptr
    case MallocOp(size) => Malloc(g, size).ptr
    case MemalignOp(align, size) => Memalign(g, align, size).ptr
    case ReallocOp(b, size) => Realloc(g, b, size).ptr
    case _ => NULL
  }

  // Each call of the run is allowed when its turn comes.
  ghost predicate Possible(g: Heap, ops: seq<Op>)
    requires Inv(g)
    decreases |ops|
  {
    ops == [] || (Allowed(g, ops[0]) && Possible(Apply(g, ops[0]), ops[1..]))
  }

  // The heap after a run. That it satisfies Inv is the invariant of whole runs: the blocks
  // tile the pools, no two neighbours are free, the flags and the lists are right.
  ghost function Run(g: Heap, ops: seq<Op>): (g': Heap)
    requires Inv(g) && Possible(g, ops)
    ensures Inv(g')
    decreases |ops|
  {
    if ops == [] then g else Run(Apply(g, ops[0]), ops[1..])
  }

  // What the calls of a run return, one after the other.
  ghost function Results(g: Heap, ops: seq<Op>): (rs: seq<int>)
    requires Inv(g) && Possible(g, ops)
    ensures |rs| == |ops|
    decreases |ops|
  {
    if ops == [] then [] else [Result(g, ops[0])] + Results(Apply(g, ops[0]), ops[1..])
  }

  // ---------------------------------------------------------------- non-interference

  // The block that a call is about, if any.
  predicate Concerns(op: Op, b: int) {
    match op
    case ReallocOp(x, _) => x == b
    case FreeOp(x) => x == b
    case WriteOp(x, _, _) => x == b
    case _ => false
  }

  ghost predicate BlockKept(g: Heap, g': Heap, b: int) {
    && KeptAt(g, g', b)
    && forall a {:trigger KeptWord(g, g', a)} | a in g.user && g.user[a].owner == b :: KeptWord(g, g', a)
  }

  // No call touches a live block that it is not about.
  lemma StepKeepsBlock(g: Heap, op: Op, b: int)
    requires Inv(g) && Allowed(g, op) && !Concerns(op, b)
    ensures BlockKept(g, Apply(g, op), b)
  {
    var y := Subject(op, b);
    StepLeaves(g, op, y);
    var g' := Apply(g, op);
    assert KeptAt(g, g', b);
    forall a | a in g.user && g.user[a].owner == b
      ensures KeptWord(g, g', a)
    {
    }
  }

  // A block other than b that includes all that the call is about.
  function Subject(op: Op, b: int): (y: int)
    ensures !Concerns(op, b) ==> y != b
  {
    match op
    case ReallocOp(x, _) => x
    case FreeOp(x) => x
    case WriteOp(x, _, _) => x
    case _ => b + 1
  }

  lemma StepLeaves(g: Heap, op: Op, y: int)
    requires Inv(g) && Allowed(g, op) && (op.ReallocOp? || op.FreeOp? || op.WriteOp? ==> op.block == y)
    ensures Leaves(g, Apply(g, op), y)
  {
    match op
    case AddPoolOp(mem, bytes) => AddPoolFrame(g, mem, bytes, y);
    case RemovePoolOp(f) => DrainedIsVacant(g, f); RemovePoolFrame(g, f, y);
    case MallocOp(size) => MallocFrame(g, size, y);
    case MemalignOp(align, size) => MemalignFrame(g, align, size, y);
    case ReallocOp(b, size) => ReallocFrame(g, b, size);
    case FreeOp(b) => FreeFrame(g, b);
    case WriteOp(b, a, w) => WriteFrame(g, b, a, w);
  }

  // A block that no call of a run is about stays live, in place and at its size, and what
  // its owner stored in it is still there at the end.
  lemma {:induction false} RunKeepsBlock(g: Heap, ops: seq<Op>, b: int)
    requires Inv(g) && Possible(g, ops) && Live(g, b)
    requires forall op | op in ops :: !Concerns(op, b)
    ensures BlockKept(g, Run(g, ops), b)
    decreases |ops|
  {
    if ops == [] {
      KeepsItself(g, b);
    } else {
      var g1 := Apply(g, ops[0]);
      StepKeepsBlock(g, ops[0], b);
      assert KeptAt(g, g1, b);
      RunKeepsBlock(g1, ops[1..], b);
      KeptThrough(g, g1, Run(g1, ops[1..]), b);
    }
  }

  lemma KeepsItself(g: Heap, b: int)
    ensures BlockKept(g, g, b)
  {
  }

  lemma KeptThrough(g: Heap, g1: Heap, g2: Heap, b: int)
    requires BlockKept(g, g1, b) && BlockKept(g1, g2, b)
    ensures BlockKept(g, g2, b)
  {
    assert KeptAt(g, g1, b) && KeptAt(g1, g2, b);
    forall a | a in g.user && g.user[a].owner == b
      ensures KeptWord(g, g2, a)
    {
      assert KeptWord(g, g1, a) && KeptWord(g1, g2, a);
    }
  }

  // What a client stores in a block it finds there again, whatever calls on other blocks
  // come between.
  lemma StoreThenLoad(g: Heap, b: int, a: int, w: nat, ops: seq<Op>)
    requires Inv(g) && InPayload(g, b, a) && Inv(Write(g, b, a, w)) && Possible(Write(g, b, a, w), ops)
    requires forall op | op in ops :: !Concerns(op, b)
    ensures var g' := Run(Write(g, b, a, w), ops); a in g'.user && g'.user[a] == UserWord(b, w)
  {
    var g1 := Write(g, b, a, w);
    RunKeepsBlock(g1, ops, b);
    assert KeptWord(g1, Run(g1, ops), a);
  }

  // ---------------------------------------------------------------- foreign memory and pools

  // The addresses that a run hands to the allocator.
  ghost predicate Given(op: Op, a: int) {
    op.AddPoolOp? && op.mem <= a < op.mem + op.bytes
  }

  lemma StepKeepsForeign(g: Heap, op: Op, a: int)
    requires Inv(g) && Allowed(g, op) && a in g.foreign && !Given(op, a)
    ensures a in Apply(g, op).foreign && Apply(g, op).foreign[a] == g.foreign[a]
  {
    match op
    case AddPoolOp(mem, bytes) =>
      if PoolSizeOk(mem, bytes) {
        PlacePoolPending(g, mem, bytes);
        PoolFits(g, mem, bytes);
      }
    case RemovePoolOp(f) => DrainedIsVacant(g, f);
    case MallocOp(size) => MallocFrame(g, size, 0);
    case MemalignOp(align, size) => MemalignFrame(g, align, size, 0);
    case ReallocOp(b, size) => ReallocFrame(g, b, size);
    case FreeOp(b) => FreeFrame(g, b);
    case WriteOp(b, x, w) => WriteFrame(g, b, x, w);
  }

  // Memory that no call hands over keeps its words through the whole run.
  lemma {:induction false} RunKeepsForeign(g: Heap, ops: seq<Op>, a: int)
    requires Inv(g) && Possible(g, ops) && a in g.foreign
    requires forall op | op in ops :: !Given(op, a)
    ensures a in Run(g, ops).foreign && Run(g, ops).foreign[a] == g.foreign[a]
    decreases |ops|
  {
    if ops == [] {
    } else {
      StepKeepsForeign(g, ops[0], a);
      RunKeepsForeign(Apply(g, ops[0]), ops[1..], a);
    }
  }

  lemma StepKeepsPool(g: Heap, op: Op, f: int)
    requires Inv(g) && Allowed(g, op) && f in g.pools && op != RemovePoolOp(f)
    ensures f in Apply(g, op).pools && Apply(g, op).pools[f] == g.pools[f]
  {
    match op
    case AddPoolOp(mem, bytes) => AddPoolFrame(g, mem, bytes, 0);
    case RemovePoolOp(x) => DrainedIsVacant(g, x);
    case MallocOp(size) => MallocFrame(g, size, 0);
    case MemalignOp(align, size) => MemalignFrame(g, align, size, 0);
    case ReallocOp(b, size) => ReallocFrame(g, b, size);
    case FreeOp(b) => FreeFrame(g, b);
    case WriteOp(b, a, w) => WriteFrame(g, b, a, w);
  }

  lemma {:induction false} RunKeepsPool(g: Heap, ops: seq<Op>, f: int)
    requires Inv(g) && Possible(g, ops) && f in g.pools && RemovePoolOp(f) !in ops
    ensures f in Run(g, ops).pools && Run(g, ops).pools[f] == g.pools[f]
    decreases |ops|
  {
    if ops == [] {
    } else {
      StepKeepsPool(g, ops[0], f);
      RunKeepsPool(Apply(g, ops[0]), ops[1..], f);
    }
  }

  // The blocks of a pool with their headers make up the same bytes before and after.
  lemma BytesConserved(g: Heap, ops: seq<Op>, f: int)
    requires Inv(g) && Possible(g, ops) && f in g.pools && RemovePoolOp(f) !in ops
    ensures var g' := Run(g, ops);
            && f in g.blocks && f in g'.blocks
            && Bytes(g', Walk(g', f)) == Bytes(g, Walk(g, f)) == g.pools[f] - f
  {
    RunKeepsPool(g, ops, f);
    PoolBytes(g, f);
    PoolBytes(Run(g, ops), f);
  }

  // Complete coalescing: once no client holds a block of a pool, it is again the one free
  // block that it was when it was added, whatever happened in between.
  lemma PoolComesBack(g: Heap, mem: int, bytes: nat, ops: seq<Op>)
    requires Inv(g) && PoolSizeOk(mem, bytes) && PoolReady(g, mem, bytes)
    requires Possible(AddPool(g, mem, bytes).heap, ops) && RemovePoolOp(mem - 8) !in ops
    requires Drained(Run(AddPool(g, mem, bytes).heap, ops), mem - 8)
    ensures var g1, f := AddPool(g, mem, bytes).heap, mem - 8;
            var g' := Run(g1, ops);
            Vacant(g1, f) && Vacant(g', f) && g'.pools[f] == g1.pools[f] && g'.blocks[f].size == g1.blocks[f].size
  {
    var g1, f := AddPool(g, mem, bytes).heap, mem - 8;
    NewPoolVacant(g, mem, bytes);
    RunKeepsPool(g1, ops, f);
    VacantIsDrained(g1, f);
    RemovableIffDrained(g1, f);
    RemovableIffDrained(Run(g1, ops), f);
  }
}
