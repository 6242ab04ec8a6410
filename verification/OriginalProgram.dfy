/**
 Runs of the original program: `Pool` performs a sequence of calls and ends with the heap and
 the bitmaps that `OriginalRuns.Run` says. What is proved there of whole runs holds of the
 program.
 */
module OriginalProgram {
  import opened SizeClasses
  import opened Heaps
  import opened HeapOps
  import O = Original
  import opened OriginalIndex
  import opened OriginalHeap
  import opened OriginalCalls
  import opened OriginalRuns
  import P = OriginalPool

  ghost function StateOf(t: P.Pool): State
    reads t, t.slBitmap
  {
    State(t.g, t.Index())
  }

  lemma LiveAddress(g: Heap, b: int)
    requires Whole(g) && Live(g, b)
    ensures 0 < b
  {
    assert SizedAt(g, b);
  }

  // One call, and what it returns.
  method Perform(t: P.Pool, call: Call) returns (p: int)
    requires t.Valid() && Allowed(StateOf(t), call)
    modifies t, t.slBitmap
    ensures t.Valid() && StateOf(t) == Apply(old(StateOf(t)), call) && p == Answer(old(StateOf(t)), call)
  {
    p := NULL;
    match call
    case MallocCall(size) =>
      p := t.MallocEx(size);
    case FreeCall(b) =>
      LiveAddress(t.g, b);
      t.FreeEx(b + METADATA_SIZE);
    case ReallocCall(b, size) =>
      LiveAddress(t.g, b);
      p := t.ReallocEx(b + METADATA_SIZE, size);
  }

  // A run in progress: from state s0, calls all; what is left are calls, from state s.
  ghost predicate Underway(s0: State, all: seq<Call>, rs: seq<int>, s: State, calls: seq<Call>) {
    && OriginalRuns.Sound(s0) && Possible(s0, all) && OriginalRuns.Sound(s) && Possible(s, calls)
    && Run(s, calls) == Run(s0, all) && rs + Answers(s, calls) == Answers(s0, all)
  }

  lemma GoOn(s0: State, all: seq<Call>, rs: seq<int>, s: State, calls: seq<Call>, rest: seq<Call>)
    requires Underway(s0, all, rs, s, calls) && calls != [] && rest == calls[1..]
    ensures Allowed(s, calls[0])
    ensures Underway(s0, all, rs + [Answer(s, calls[0])], Apply(s, calls[0]), rest)
  {
    var p := Answer(s, calls[0]);
    assert rs + ([p] + Answers(Apply(s, calls[0]), rest)) == rs + [p] + Answers(Apply(s, calls[0]), rest);
  }

  // A run, and what its calls return.
  method PerformAll(t: P.Pool, calls: seq<Call>) returns (rs: seq<int>)
    requires t.Valid() && Possible(StateOf(t), calls)
    modifies t, t.slBitmap
    ensures t.Valid() && StateOf(t) == Run(old(StateOf(t)), calls) && rs == Answers(old(StateOf(t)), calls)
  {
    var i := 0;
    rs := [];
    assert calls[0..] == calls;
    while i < |calls|
      invariant 0 <= i <= |calls|
      invariant t.Valid() && Underway(old(StateOf(t)), calls, rs, StateOf(t), calls[i..])
    {
      assert calls[i..][0] == calls[i];
      GoOn(old(StateOf(t)), calls, rs, StateOf(t), calls[i..], calls[i + 1..]);
      var p := Perform(t, calls[i]);
      rs := rs + [p];
      i := i + 1;
    }
  }
}
