# A verified model of the TLSF allocator

TLSF is a memory allocator for real-time programs. It carves *pools* of memory into
*blocks*, each behind a two-word header, and keeps the free blocks in 33 x 32 segregated
lists that a two-level bitmap indexes, so that every call does a bounded amount of work.
This project models `tlsf.c` (64-bit layout) in Dafny, at the level of the words that it
stores, and proves what its callers rely on. A smaller part models `tlsf_ori.c`, the
allocator's ancestor: its size classes, its bitmaps and its calls.

## How the project is built

There are three views of an allocator's state, and the proofs connect them.

1. **The heap as a value** (`Heaps.dfy`). `Heap` says which blocks there are, their sizes
   and flags, the pools, the free lists in order, the words that clients have stored in
   their blocks (`user`), and the words that lie outside every pool (`foreign`). Six
   elementary steps (split, absorb, mark, set the prev-free bit, insert, remove) act on it.
   `HeapSteps.dfy` proves that each keeps the heap sound; `HeapOps.dfy` and
   `HeapCalls.dfy` put them together in the order in which the C functions take them and
   prove that every call keeps the full invariant `Inv`: the blocks tile their pools up to
   the sentinel, sizes are multiples of 8 and at least 24, no two neighbours are free, the
   prev-free bits are right, and each free block stands exactly once in the list of its
   size class.
2. **Memory and index** (`Memory.dfy`, `Layout.dfy`, `FreeIndex.dfy`, `Foreign.dfy`,
   `Represents.dfy`, `Reads.dfy`). Memory is a map from addresses to words; the word in front of a
   header is the last word of the block before it, as in C. `Encodes` says when memory
   holds the headers, trailers and links of a heap, `Indexed` when the bitmaps and list
   heads describe its lists, `Spared` that foreign words are as they were and are never
   claimed, and `State` puts these together.
3. **The program** (`Tlsf.dfy`). The class `Control` is the control structure: bitmaps and
   list heads in fields and arrays, headers and links in a word array. Its methods follow
   `tlsf.c` function by function and store by store. A ghost field holds the heap value;
   every method's contract says exactly what becomes of it, and that memory and index
   represent the result. A constant tells whether assertions are compiled in, as they are
   in the repository's own build (Makefile.am:9).

What is proved of the heap functions therefore holds of the program. The headline results
are in `Answers.dfy` (what each call returns, told from sizes in bytes), `Requests.dfy` (what
a request gets), `Oversized.dfy` (requests that have no block size), `CallFrames.dfy` and `LiveBlocks.dfy` (non-interference, and which blocks clients
hold), `Coalescing.dfy`, `RoundTrips.dfy` and `Runs.dfy` (whole runs, which `Program.dfy`
lets `Control` perform), and in `SizeClasses.dfy` and `Alignment.dfy` for the arithmetic.
`Bits.dfy` treats the bit scans, and `Words.dfy` the masks on 64-bit words.

`tlsf_ori.c` has ten files. `Original.dfy` has its classes, `OriginalIndex.dfy` its
bitmaps and its search, `OriginalLists.dfy` and `OriginalHeap.dfy` its lists and calls on
heap values, `OriginalCalls.dfy` what each call makes of index and lists together,
`OriginalResults.dfy` and `OriginalRuns.dfy` what clients get, and `OriginalRoundTrip.dfy`
that `free_ex` undoes `malloc_ex`. The class `Pool` in
`OriginalPool.dfy` performs the calls: bitmap words in a field and an array, and the stores
to headers, lists and payloads as updates of a heap value that it keeps as its state. There
is no word memory below that value, so that `WithoutHeader`, which takes a header out of it
when blocks are joined, corresponds to no store of the program. `OriginalProgram.dfy` lets
`Pool` perform whole runs.

Three claims that one might expect of the code do not hold, and are replaced by the exact
condition under which they do:

* `tlsf_memalign` returns a multiple of `align`, except in one case: 24 bytes at alignment
  64 from a block of exactly 128 bytes whose payload starts 32 past a multiple of 64
  (`Requests.AlignedUnlessCramped`, with the instance `Requests.CrampedExample`).
* `tlsf_realloc` of a live block to a size that has no block size (2^40 - 7 or more) neither
  returns NULL nor meets the request. If and only if the block has 40 bytes or more, the
  assertion of `block_next` (tlsf.c:352) fails and stops the program; a smaller block is
  returned as it is (`Oversized.OversizedRequest`, with the instance
  `Oversized.OversizedExample`). With assertions compiled out, the call returns the old
  address and has cut the pool in two at the block (`Oversized.Emptied`).
  `Tlsf.Control.Realloc` says what becomes of memory and heap in either build.
* In `tlsf_ori.h` the second level has 128 classes to a row but one 32-bit word of bits. The
  bits say which lists have blocks, and the search finds what a scan of the lists finds, as
  long as every listed block is of one of the first 32 classes of its row: below 32 bytes, or
  in the lower quarter of a power of two from 128 on (`Original.NarrowSizes`). Each insertion
  and extraction is told apart by an if-and-only-if (`OriginalIndex.InsertRight`,
  `OriginalIndex.ExtractRight`), and so are each call and each run
  (`OriginalRuns.RunAgrees`). The shift in the search is defined if and only if the
  request's class, too, is one of the first 32 (`OriginalIndex.FindDefined`). Otherwise
  requests are refused that could be met (`OriginalResults.MissedRequest`: 16 bytes from a
  new pool with 64), and the search uses the subscript -1 in a row of its matrix
  (`OriginalResults.UndefinedRequest`: 16 bytes from a new pool with 7008). A block that is
  returned is always large enough (`OriginalCalls.ChosenFits`).

The sizes of pools are taken to be below 2^39 and searched sizes below 2^36. These bounds
keep the first-level bit numbers below 32 and the `int` shifts of tlsf.c:464 and
tlsf.c:711 defined; that they suffice is proved (`SizeClasses.ClassInRange`,
`SizeClasses.LocateInRange`). The heap functions and the theorems about runs need only the
first; the methods of `Control` require both. Areas of `tlsf_ori.c` are taken to be below
0x38000000 bytes, the least size whose bit `set_bit` writes outside of `sl_bitmap`
(`Original.BitInside`, `Original.BitOutside`).

`dafny verify dfyconfig.toml` checks the whole project.

## Main results

In the table below, the rows whose third cell starts with "Main:" are the results, the others
steps towards them or the contracts of the program that they hold of. They are:

* for `tlsf.c`, the arithmetic: `Bits.FlsSizeT`, `SizeClasses.ClassInterval`,
  `SizeClasses.GoodFit`, `Alignment.GapFits`, `Words.AlignUpMask`, `Layout.SizeWordMasks`;
* the program: `Tlsf.Control.SearchSuitableBlock`, `Tlsf.Control.Malloc`,
  `Tlsf.Control.Memalign`, `Tlsf.Control.Free`, `Tlsf.Control.Realloc`,
  `Tlsf.Control.AddPool`, `Tlsf.Control.RemovePool`, `Tlsf.Control.Check`,
  `Tlsf.Control.CheckPool`,
  `Program.PerformAll`;
* what the calls return: `Answers.RequestSize`, `Answers.MallocFailsIff`,
  `Answers.MemalignSmall`, `Answers.MemalignFailsIff`, `Answers.MemalignWhere`,
  `Answers.ReallocWhere`, `Answers.ReallocFailsIff`, `Answers.AddPoolWhere`;
* requests: `Requests.FailureBound`, `Requests.ChosenIsTight`,
  `Requests.AlignedUnlessCramped`, `Requests.ReallocKeepsData`, `Oversized.OversizedRequest`;
* non-interference and ownership: `CallFrames.ReallocFrame`, `CallFrames.MallocApart`,
  `LiveBlocks.ReallocHeld`, `Foreign.TrailerClaimed`, `Reads.NothingElseRead`;
* coalescing, round trips and runs: `Coalescing.RemovableIffDrained`,
  `Coalescing.AddThenRemove`, `RoundTrips.MallocThenFree`, `RoundTrips.MemalignThenFree`,
  `RoundTrips.RepresentationDetermined`, `Runs.Run`, `Runs.RunKeepsBlock`,
  `Runs.RunKeepsForeign`, `Runs.BytesConserved`, `Runs.PoolComesBack`;
* for `tlsf_ori.c`: `Original.RoundedIsLeast`, `OriginalIndex.InsertRight`,
  `OriginalIndex.ExtractRight`, `OriginalIndex.FindIsScan`, `OriginalCalls.ChosenFits`,
  `OriginalCalls.ChosenIffRoom`, `OriginalCalls.WantedIsLeast`, `OriginalResults.FirstRequest`,
  `OriginalRuns.ReallocWhere`, `OriginalRuns.RunAgrees`, `OriginalRuns.ServedAfterRun`,
  `OriginalRoundTrip.MallocThenFree`,
  `OriginalHeap.FreeEx`, `OriginalPool.Pool.MallocEx`, `OriginalPool.Pool.ReallocEx`,
  `OriginalProgram.PerformAll`.

## Model

| member | source | states |
|---|---|---|
| `Bits.Fls` | tlsf.c:57-69 | the five halving steps find the number of the highest set bit of every word, and -1 for 0 |
| `Bits.Ffs` | tlsf.c:71-75 | the isolated low bit gives the number of the lowest set bit of every word, and -1 for 0 |
| `Bits.FlsSizeT` | tlsf.c:77-89 | Main: for every 64-bit size, the floor of its binary logarithm, and -1 for 0 |
| `Bits.SameBits` | tlsf.c:259-261 | a bitmap word is determined by its 32 bits |
| `SizeClasses.ClassInterval` | tlsf.c:435-450 | Main: a size belongs to a class if and only if it lies between the bounds of the class |
| `SizeClasses.ClassesContiguous` | tlsf.c:435-450 | each class ends where the next in search order begins: the classes partition the sizes |
| `SizeClasses.ClassesOrdered` | tlsf.c:435-450 | a class that is searched earlier lies entirely below a later one |
| `SizeClasses.ClassMonotone` | tlsf.c:435-450 | mapping sizes to classes is monotone in search order |
| `SizeClasses.ClassInRange` | tlsf.c:435-450 | exactly the sizes below 2^39 have a first-level index that fits the 32-bit bitmap |
| `SizeClasses.MappingSearch` | tlsf.c:435-450 | the bit arithmetic computes the size's class |
| `SizeClasses.RoundForSearch` | tlsf.c:706-713 | computes the rounded request |
| `SizeClasses.GoodFit` | tlsf.c:706-727 | Main: every block in a class at or after the rounded request's class is large enough, also when rounding carries |
| `SizeClasses.SkippedIsSmall` | tlsf.c:706-727 | every block in an earlier class is smaller than the rounded request |
| `SizeClasses.RoundUpWaste` | tlsf.c:709-713 | small requests are not rounded, others by less than one part in 32 |
| `SizeClasses.LocateInRange` | tlsf.c:706-724 | below 2^36 the search starts in a row whose mask shifts are defined |
| `SizeClasses.AlignUp` | tlsf.c:392-396 | the least multiple of the alignment that is not smaller |
| `SizeClasses.AdjustRequest` | tlsf.c:416-428 | 0 exactly for requests of 0 bytes and of 2^40 or more after rounding; otherwise a multiple of 8 that covers the request and the smallest block |
| `Words.MaskParts` | tlsf.c:271-280 | for every 64-bit word, masking with ~0 << k clears the k lowest binary digits of its value and the complement leaves them |
| `Words.LowMasks` | tlsf.c:398-402 | for a power of two, masking with align - 1 leaves the remainder, which align_down subtracts |
| `Words.PowerTest` | tlsf.c:392-410 | the assertion that opens align_up, align_down and align_ptr holds for every power of two below 2^64 |
| `Words.AlignUpMask` | tlsf.c:392-410 | Main: for a power of two below 2^64, the mask of align_up and align_ptr computes the AlignUp of the model |
| `Words.WordsDiffer` | tlsf.c:271-280 | different values have different 64-bit words, so that what is said of words is said of values |
| `Alignment.GapFits` | tlsf.c:1100-1135 | Main: for every power of two, the gap is 0 or at least 40, below align + 40, a multiple of 8, leads to a multiple of align and leaves the request's bytes; it can be cut off in every case but one |
| `Alignment.AlignedPayload` | tlsf.c:540-588 | the payload of a block at a multiple of 8 is aligned in the terms of the assertions of insert_free_block and block_split |
| `Memory.Ram.Copy` | tlsf.c:1219 | memcpy between payloads that do not overlap, word by word |
| `Memory.CopiedTo` | tlsf.c:1219 | every target word holds its counterpart |
| `Memory.CopiedOutside` | tlsf.c:1219 | every other word is as it was |
| `Layout.EncodeFields` | tlsf.c:271-315 | reading and updating size and flags of a size word acts on the block it encodes and leaves the other fields alone |
| `Layout.SizeWordMasks` | tlsf.c:271-315 | Main: on every 64-bit size word the masks that read the size and the flags and that set or clear a flag give the words of the values that the functions of the model give |
| `Layout.SetSizeMask` | tlsf.c:276-280 | the same for storing a size and keeping the flags |
| `HeapSteps.SplitSound` | tlsf.c:575-600 | cutting a block keeps tiling, lists and client data in order |
| `HeapSteps.AbsorbSound` | tlsf.c:602-611 | so does joining a block with the one behind it |
| `HeapSteps.MarkSound` | tlsf.c:366-390 | so does marking a block free or used |
| `HeapSteps.InsertSound` | tlsf.c:560-567 | listing a block keeps every free block in exactly one list, that of its class |
| `HeapSteps.RemoveSound` | tlsf.c:551-558 | so does taking it out, wherever in its list it stands |
| `HeapSteps.SizeInRange` | tlsf.c:547-548 | every block of a heap has a class below row 32 |
| `HeapOps.ScanFirst` | tlsf.c:452-484 | the reference search: the first non-empty list at or after the start, or none |
| `HeapOps.LocatedFits` | tlsf.c:700-734 | a located block heads its list, is free and is at least as large as requested |
| `HeapOps.NothingFits` | tlsf.c:700-734 | when nothing is located every free block is smaller than the rounded request |
| `HeapOps.TrimFree` | tlsf.c:652-662 | trims a block that is out of the lists to at most 32 bytes more than asked |
| `HeapOps.PrepareUsed` | tlsf.c:736-749 | trimming and marking a located block restores the full invariant |
| `HeapOps.MergePrev` | tlsf.c:616-628 | merging with the block in front, found through the trailer, leaves one pending block with at most its successor uncoalesced |
| `HeapOps.MergeNext` | tlsf.c:633-647 | merging with the block behind leaves no two free neighbours |
| `HeapOps.Free` | tlsf.c:1141-1163 | freeing any live block keeps the full invariant |
| `HeapOps.TrimUsed` | tlsf.c:667-679 | trimming a used block, coalescing its tail, keeps the full invariant |
| `HeapOps.Expand` | tlsf.c:1225-1227 | growing over the free neighbour keeps the full invariant and adds its bytes and header |
| `HeapOps.Allocate` | tlsf.c:700-749 | keeps the full invariant; fails exactly when nothing is located and then changes nothing; otherwise returns a live block with at most 32 spare bytes |
| `HeapOps.Malloc` | tlsf.c:1081-1086 | the same for the adjusted request |
| `HeapOps.TrimLeading` | tlsf.c:684-697 | cutting a block in front leaves the rest pending, the first part listed |
| `HeapCalls.AlignBlock` | tlsf.c:1114-1136 | the block cut for alignment still has room for the request |
| `HeapCalls.Memalign` | tlsf.c:1088-1139 | keeps the full invariant; a failure changes nothing; otherwise a live block with at most 32 spare bytes |
| `HeapCalls.Resize` | tlsf.c:1222-1239 | the in-place paths of realloc keep the full invariant |
| `HeapCalls.Relocate` | tlsf.c:1212-1221 | the moving path keeps the full invariant, and changes nothing when it fails |
| `HeapCalls.Realloc` | tlsf.c:1190-1244 | keeps the full invariant on all paths; a failure changes nothing |
| `HeapCalls.WholeBlockCopied` | tlsf.c:1212-1219 | a request that outgrows a block has more bytes than the block, so that the whole block is copied |
| `HeapCalls.AddPool` | tlsf.c:943-989 | keeps the full invariant; a refused pool changes nothing |
| `HeapCalls.VacantAlone` | tlsf.c:991-1009 | the blocks of a vacant pool are its first block and its sentinel |
| `HeapCalls.RemovePoolInv` | tlsf.c:991-1009 | removing a vacant pool keeps the full invariant |
| `HeapCalls.EmptyHeapInv` | tlsf.c:751-768 | a new heap satisfies the full invariant |
| `HeapCalls.WriteInv` | tlsf.c:242-243 | a client's store in its own block keeps the full invariant |
| `HeapCalls.WalkTiles` | tlsf.c:851-864 | a walk visits each block of the pool exactly once, in address order, each where the one before ends |
| `HeapCalls.PoolBytes` | tlsf.c:851-864 | the blocks of a pool and their headers always add up to the bytes between its first header and its sentinel |
| `FreeIndex.InsertIndexed` | tlsf.c:526-549 | inserting keeps bitmaps and heads in agreement with the lists |
| `FreeIndex.RemoveIndexed` | tlsf.c:489-522 | so does removing, at the head or not, also when a row empties |
| `FreeIndex.SearchNothing` | tlsf.c:461-468 | no bit in the rest of the row or above it means that no list at or after the start has a block |
| `FreeIndex.SearchNextRow` | tlsf.c:463-473 | the lowest first-level bit names the row in which the reference search goes on |
| `FreeIndex.RowFound` | tlsf.c:461-476 | the lowest masked second-level bit names the list that the reference search finds |
| `Foreign.SparedBy` | tlsf.c:964-968 | stores to claimed addresses leave every foreign word alone |
| `Foreign.BlockClaims` | tlsf.c:186-218 | all words of a block and its trailer are claimed |
| `Foreign.TrailerClaimed` | tlsf.c:964-968 | Main: the word in front of a pool is claimed if and only if it is a link of block_null or the last word of a pool that ends right there |
| `Reads.SameState` | tlsf.c:186-265 | a memory that agrees on the claimed words represents the same heap, but for its foreign words |
| `Reads.MallocAmong` | tlsf.c:1081-1086 | among any other foreign words, the same result and the same heap |
| `Reads.MemalignAmong` | tlsf.c:1088-1139 | the same |
| `Reads.FreeAmong` | tlsf.c:1141-1163 | the same heap |
| `Reads.ReallocAmong` | tlsf.c:1178-1244 | the same result and heap on each path |
| `Reads.AddPoolAmong` | tlsf.c:943-989 | the same, apart from the foreign words that are left |
| `Reads.RemovePoolAmong` | tlsf.c:991-1009 | the same heap |
| `Reads.RunAlike` | tlsf.c:943-1244 | a whole run among other foreign words is possible, returns the same addresses and leads to the same heap |
| `Reads.NothingElseRead` | tlsf.c:964-968 | Main: from two memories that agree on the words that the allocator may write, every run returns the same addresses and leads to the same heap: no other word is read, such as the one in front of a pool |
| `Represents.InsertState` | tlsf.c:526-549 | the stores of insert_free_block turn the representation of a heap into that of the heap with the block listed |
| `Represents.RemoveState` | tlsf.c:489-522 | the same for remove_free_block |
| `Represents.SplitStep` | tlsf.c:578-600 | the same for block_split, whatever the flag bits of the word at the new header were |
| `Represents.AbsorbState` | tlsf.c:605-611 | the same for block_absorb |
| `Represents.MarkState` | tlsf.c:369-390 | the same for block_mark_as_free and block_mark_as_used |
| `Represents.SplitThenSet` | tlsf.c:652-697 | setting the new block's prev-free bit makes the heap independent of those flag bits |
| `Represents.CopyState` | tlsf.c:1219 | copying a payload touches no header, trailer or link |
| `Represents.PoolOrder` | tlsf.c:969-982 | the order of the stores of tlsf_add_pool makes no difference |
| `Represents.AddPoolState` | tlsf.c:969-982 | those stores, whatever memory held, represent the heap with the new pool |
| `Represents.WriteState` | tlsf.c:242-243 | a client's store in its payload touches no header, trailer or link |
| `Tlsf.Control.constructor` | tlsf.c:751-768 | control_construct sets up a heap without pools |
| `Tlsf.Control.BlockNext` | tlsf.c:347-354 | the address of the next header; with assertions, the block must not be the last |
| `Tlsf.Control.NextStops` | tlsf.c:347-354 | the assertion of block_next stops the program if and only if it is compiled in and the size is 0 |
| `Tlsf.Control.BlockSize` | tlsf.c:271-274 | reads the size of the block that the header encodes |
| `Tlsf.Control.BlockSetSize` | tlsf.c:276-280 | stores a size and keeps both flags |
| `Tlsf.Control.BlockLinkNext` | tlsf.c:358-364 | writes the trailer, the last word of the block |
| `Tlsf.Control.InsertFreeBlock` | tlsf.c:526-549 | the exact stores and bitmap updates; its three assertions hold |
| `Tlsf.Control.RemoveFreeBlock` | tlsf.c:489-522 | the exact stores and bitmap updates; its two assertions hold |
| `Tlsf.Control.BlockInsert` | tlsf.c:562-567 | lists the block at the head of the list of its class |
| `Tlsf.Control.BlockRemove` | tlsf.c:553-558 | takes the block out of the list of its class |
| `Tlsf.Control.SearchSuitableBlock` | tlsf.c:452-484 | Main: the bitmap search refines the linear scan: it returns the head of the list the scan finds, and NULL if and only if the scan finds none |
| `Tlsf.Control.BlockLocateFree` | tlsf.c:700-734 | finds what the reference search finds for the rounded request, proves it large enough, and takes it out |
| `Tlsf.Control.BlockMarkAsFree` | tlsf.c:369-378 | the exact stores |
| `Tlsf.Control.BlockSplit` | tlsf.c:578-600 | the exact stores, with the stale flags at the new header as a parameter; with assertions, a size of 0 stops it after its first store, and its other assertions hold |
| `Tlsf.Control.SplitBlock` | tlsf.c:578-600 | what block_split makes of the heap |
| `Tlsf.Control.BlockAbsorb` | tlsf.c:605-611 | the exact stores |
| `Tlsf.Control.BlockMergePrev` | tlsf.c:616-628 | refines `HeapOps.MergePrev` |
| `Tlsf.Control.BlockMergeNext` | tlsf.c:633-647 | takes a free neighbour out of its list and joins it, or changes nothing |
| `Tlsf.Control.BlockTrimFree` | tlsf.c:652-662 | refines `HeapOps.TrimFree` for any stale bits |
| `Tlsf.Control.BlockTrimUsed` | tlsf.c:667-679 | refines `HeapOps.TrimUsed` for any stale bits; a block that cannot be split is left alone; for a size of 0 it is stopped by the assertion or, without assertions, makes the heap `Oversized.Severed` |
| `Tlsf.Control.BlockTrimFreeLeading` | tlsf.c:684-697 | refines `HeapOps.TrimLeading` for any stale bits |
| `Tlsf.Control.BlockPrepareUsed` | tlsf.c:736-749 | refines `HeapOps.PrepareUsed`; the header names this heap |
| `Tlsf.Control.Malloc` | tlsf.c:1081-1086 | Main: refines `HeapOps.Malloc`: result and heap |
| `Tlsf.Control.AlignFront` | tlsf.c:1114-1136 | refines `HeapCalls.AlignBlock` |
| `Tlsf.Control.Memalign` | tlsf.c:1088-1139 | Main: refines `HeapCalls.Memalign`: result and heap |
| `Tlsf.Control.Free` | tlsf.c:1141-1163 | Main: refines `HeapOps.Free`; NULL changes nothing |
| `Tlsf.Control.Realloc` | tlsf.c:1178-1244 | Main: frees for size 0, allocates for NULL, otherwise refines `HeapCalls.Realloc`; with assertions it is stopped if and only if `Oversized.ReallocStops`, with the block's size word changed to 0 and no other word; where it is not stopped, an oversized request returns the old address and makes the heap `Oversized.Emptied` |
| `Tlsf.Control.CopyPayload` | tlsf.c:1219 | the new block's client data become the old block's |
| `Tlsf.Control.AddPool` | tlsf.c:943-989 | Main: refines `HeapCalls.AddPool`: result and heap |
| `Tlsf.Control.RemovePool` | tlsf.c:991-1009 | Main: refines `HeapCalls.RemovePool` |
| `Tlsf.Control.RemovalAsserts` | tlsf.c:1001-1003 | the three assertions hold if and only if the first block is free and the next is a used block of size 0; RemovePool proves that they do |
| `Tlsf.Control.BlockSizeOf` | tlsf.c:866-877 | the size of the block that the client holds, 0 for NULL |
| `Tlsf.Control.FromPtr` | tlsf.c:885-893 | the heap that the header in front of the payload names |
| `Tlsf.Control.HeaderNamesHeap` | tlsf.c:885-893 | for every live block it is the block's own |
| `Tlsf.Control.ClientRead` | tlsf.c:242-243 | a client loads what it stored |
| `Tlsf.Control.CheckBlock` | tlsf.c:821-836 | on any header: 0 if and only if the block is free, of the minimum size and of the class of the list, and neither neighbour is free as the flags tell |
| `Tlsf.Control.CheckList` | tlsf.c:821-836 | following the links of a list ends at block_null, and the result is 0 if and only if every block passes |
| `Tlsf.Control.Check` | tlsf.c:798-841 | Main: whatever bitmaps, flags and entries are: terminates, and returns 0 if and only if every second-level bit tells whether its list has blocks, no bit is set in a row whose first-level bit is clear, and every listed block passes |
| `Tlsf.Control.ValidPasses` | tlsf.c:798-841 | in every state that satisfies the invariant all checks pass |
| `Tlsf.Control.WalkPool` | tlsf.c:851-864 | terminates and tells the walker of exactly the blocks of the pool, with size and status, whatever flags and lists are |
| `Tlsf.Control.CheckPool` | tlsf.c:781-796 | Main: whatever flags and lists are: terminates, and returns 0 if and only if the prev-free bit of each walked block tells whether the one before is free |
| `HeapCalls.PrevToldIff` | tlsf.c:781-796 | that is so if and only if every block's neighbour behind, but for the sentinel, knows whether it is free |
| `HeapCalls.PrevToldAlways` | tlsf.c:781-796 | in every state that satisfies the invariant it is so |
| `Answers.RequestSize` | tlsf.c:416-428 | Main: a request has a block size if and only if it is from 1 to 2^40 - 8 bytes, and that is the least multiple of 8 from 24 on that holds it |
| `Answers.SearchStarts` | tlsf.c:700-724 | the search starts at the class of the least multiple of the grain that is not smaller than the request, the grain being 8 below 256 and 2^(k - 5) from 2^k on |
| `Answers.MallocFails` | tlsf.c:1081-1086 | requests without a block size get NULL and change nothing |
| `Answers.MallocFailsIff` | tlsf.c:1081-1086 | Main: others get NULL if and only if every free block is smaller than that multiple |
| `Answers.MemalignSmall` | tlsf.c:1103-1109 | Main: for alignments up to 8 memalign is malloc |
| `Answers.MemalignFails` | tlsf.c:1090-1109 | beyond, NULL and no change for requests without a block size and where n + align + 40, rounded up to align, has none |
| `Answers.MemalignFailsIff` | tlsf.c:1090-1109 | Main: otherwise NULL if and only if every free block is smaller than that sum, rounded up to its grain |
| `Answers.MemalignSucceeds` | tlsf.c:1090-1109 | a free block of 33/32 of that sum guarantees success |
| `Answers.MemalignWhere` | tlsf.c:1114-1136 | Main: the address is the first aligned one of the block found that is its payload or lies 40 bytes or more behind it, but for the cramped case |
| `Answers.ReallocWhere` | tlsf.c:1193-1239 | Main: the block's own address if the block, or it and a free block behind with its header, has the bytes, and otherwise what malloc returns |
| `Answers.ReallocFailsIff` | tlsf.c:1193-1221 | Main: NULL if and only if neither has the bytes and every free block is too small |
| `Answers.ReallocSucceeds` | tlsf.c:1193-1221 | a free block of 33/32 of the bytes guarantees success |
| `Answers.ReallocMoves` | tlsf.c:1212-1221 | a block that moves gets another address |
| `Answers.AddPoolWhere` | tlsf.c:943-989 | Main: the address given, if it is a multiple of 8 and the bytes are from 56 to 2^40 + 39, and otherwise NULL |
| `Requests.FailureBound` | tlsf.c:700-734 | Main: a failed request of n bytes means that every free block is smaller than n if n is below 256, and otherwise smaller than n + 2^(log n - 5) - 1 and than n(1 + 1/32) |
| `Requests.RoomGuaranteesSuccess` | tlsf.c:700-734 | a free block of n(1 + 1/32) bytes guarantees success |
| `Requests.SuccessNeedsRoom` | tlsf.c:700-734 | success means that some free block had n bytes |
| `Requests.ChosenIsTight` | tlsf.c:700-734 | Main: the chosen block is of the first class that has a block of the rounded size: it is smaller than the upper end of the class of every such block |
| `Requests.AlignedUnlessCramped` | tlsf.c:1088-1139 | Main: a successful memalign is aligned if and only if the block it found is not the cramped one |
| `Requests.AlignedOtherwise` | tlsf.c:1088-1139 | for any other alignment and size it is always aligned |
| `Requests.CrampedExample` | tlsf.c:1088-1139 | a heap in which memalign(64, 24) returns an address that is 32 past a multiple of 64 |
| `Requests.ReallocResult` | tlsf.c:1178-1244 | a failed realloc changes nothing; a successful one returns a live block that covers the request with at most 32 spare bytes |
| `Requests.ReallocKeepsData` | tlsf.c:1212-1239 | Main: on each path the first bytes, up to the smaller of block and request, keep their data, and so does every other block |
| `Oversized.OversizedRequest` | tlsf.c:1198-1238 | Main: for every live block and every request but 0 bytes, realloc fails the assertion of tlsf.c:352 if and only if the request has no block size and the block has 40 bytes or more; a block is always smaller than such a request |
| `Oversized.OversizedExample` | tlsf.c:1198-1238 | a block of 128 bytes that malloc returned, and a request of 2^41 bytes for which the assertion fails |
| `Oversized.HollowIsBroken` | tlsf.c:1230-1238 | with assertions compiled out, the headers that the call leaves are well formed if and only if the block was smaller than 40 bytes |
| `Oversized.Emptied` | tlsf.c:1230-1238 | with assertions compiled out, what works then is a well-formed heap in which the block is live if and only if it was smaller than 40 bytes |
| `Oversized.HollowIsSevered` | tlsf.c:667-679 | its headers and lists are those that trimming the block to nothing leaves in that build; only the pool is cut in two at the block |
| `Oversized.SeverPending` | tlsf.c:575-600 | cutting a live block off at its header, as that build does, leaves two tiled pools |
| `Oversized.SeverState` | tlsf.c:575-600 | the stores of block_split in that build represent that heap |
| `CallFrames.MallocFrame` | tlsf.c:1081-1086 | every live block stays in place with its size and data |
| `CallFrames.MemalignFrame` | tlsf.c:1088-1139 | the same |
| `CallFrames.FreeFrame` | tlsf.c:1141-1163 | the same for every live block but the one freed |
| `CallFrames.ReallocFrame` | tlsf.c:1178-1244 | Main: the same for every live block but the one reallocated |
| `CallFrames.AddPoolFrame` | tlsf.c:943-989 | the same for every live block, and every pool stays |
| `CallFrames.RemovePoolFrame` | tlsf.c:991-1009 | the same for every live block |
| `CallFrames.MallocApart` | tlsf.c:1081-1086 | Main: the returned payload shares no byte with any live payload |
| `CallFrames.MemalignApart` | tlsf.c:1088-1139 | the same |
| `LiveBlocks.MallocHeld` | tlsf.c:1081-1086 | clients then hold exactly the blocks they held and the one returned, if any |
| `LiveBlocks.MemalignHeld` | tlsf.c:1088-1139 | the same |
| `LiveBlocks.FreeHeld` | tlsf.c:1141-1163 | clients then hold exactly the blocks they held but the one freed |
| `LiveBlocks.ReallocHeld` | tlsf.c:1178-1244 | Main: a successful realloc exchanges exactly the block for the one returned |
| `Coalescing.RemovableIffDrained` | tlsf.c:991-1009 | Main: a pool is one free block of all its bytes if and only if no client holds a block of it |
| `Coalescing.NewPoolVacant` | tlsf.c:943-989 | a new pool is vacant, with the size of the memory given less two headers and rounding, and no other block changes |
| `Coalescing.RemovePoolKeepsOthers` | tlsf.c:991-1009 | removal takes away exactly the pool's blocks and leaves all lists otherwise in order |
| `Coalescing.AddThenRemove` | tlsf.c:943-1009 | Main: adding a pool and removing it restores blocks, pools and lists |
| `RoundTrips.MallocThenFree` | tlsf.c:1081-1163 | Main: a successful malloc followed by free restores the heap exactly, list order included |
| `RoundTrips.MemalignThenFree` | tlsf.c:1088-1163 | Main: the same for memalign, with leading and trailing remainders |
| `RoundTrips.IndexDetermined` | tlsf.c:254-265 | the lists determine bitmaps and heads, so that these are restored too |
| `RoundTrips.RepresentationDetermined` | tlsf.c:186-265 | Main: two memories that represent the same heap agree on index, headers, trailers, links and client data |
| `Runs.Run` | tlsf.c:1081-1244 | Main: after any sequence of calls and client stores the full invariant holds |
| `Runs.RunKeepsBlock` | tlsf.c:1081-1244 | Main: a live block that no call of a run is about stays live, in place, at its size, with its data |
| `Runs.StoreThenLoad` | tlsf.c:1081-1244 | what a client stored is what it finds, whatever calls on other blocks come between |
| `Runs.RunKeepsForeign` | tlsf.c:964-968 | Main: a word that no call hands to the allocator, such as the one in front of a pool, is never changed |
| `Runs.RunKeepsPool` | tlsf.c:943-1009 | a pool that is not removed keeps its bounds through any run |
| `Runs.BytesConserved` | tlsf.c:578-611 | Main: the sizes and headers of a pool's blocks add up to the same bytes before and after any run |
| `Runs.PoolComesBack` | tlsf.c:943-1163 | Main: once all blocks of a pool are freed, in any order and after any history, it is again one free block of its original size |
| `Program.Perform` | tlsf.c:943-1244 | the program performs any permitted call as `Runs.Apply` says, is stopped by no assertion, and returns what `Runs.Result` says |
| `Program.PerformAll` | tlsf.c:943-1244 | Main: the program performs any permitted run, ends with the heap of `Runs.Run` and returns the addresses of `Runs.Results`, so that the results about runs hold of it |
| `Original.MsBit` | tlsf_ori.c:109-116 | the table lookup finds the highest set bit of every word |
| `Original.LsBit` | tlsf_ori.c:100-107 | and the lowest |
| `Original.MappingSearch` | tlsf_ori.c:128-146 | rewrites the request to the smallest size of the class it returns, which is not smaller than the request |
| `Original.MappingInsert` | tlsf_ori.c:148-158 | computes the class of a block size |
| `Original.RoundedClass` | tlsf_ori.c:128-158 | inserting a block of the rewritten size finds the class that the search returned |
| `Original.ClassStarts` | tlsf_ori.c:128-158 | the sizes at which classes start: all below 128, and the multiples of 2^(k - 7) from 2^k on |
| `Original.RoundedIsLeast` | tlsf_ori.c:136-144 | Main: no smaller size that starts a class covers the request |
| `Original.StartCovers` | tlsf_ori.c:543-554 | a block has at least the size at which a class starts if and only if its own class is not an earlier one |
| `Original.NarrowSizes` | tlsf_ori.c:118-158 | the sizes of the first 32 classes of a row: those below 32, and the lower quarter of each power of two from 128 on |
| `Original.BitInside` | tlsf_ori.c:118-158 | every size below 0x38000000 has its bit inside sl_bitmap |
| `Original.BitOutside` | tlsf_ori.c:118-158 | the size 0x38000000 does not |
| `OriginalIndex.ScanListsFirst` | tlsf_ori.c:161-177 | the reference search: the first non-empty list at or after the start, or none |
| `OriginalIndex.InsertRight` | tlsf_ori.c:211-219 | Main: if the bits agree with the lists, they do after an insertion if and only if the class is one of the first 32 of its row, or the bit set instead and the row's bit were set already |
| `OriginalIndex.ExtractRight` | tlsf_ori.c:180-209 | Main: and after an extraction if and only if the class is one of the first 32 of its row, or the list does not become empty, or there was no bit to be cleared |
| `OriginalIndex.FindIsLater` | tlsf_ori.c:161-177 | whatever the bitmaps hold, a list that the search returns does not come before the class searched for |
| `OriginalIndex.FindDefined` | tlsf_ori.c:161-177 | where the bits agree with the lists, shifts and matrix accesses of the search are defined if and only if the class searched for is one of the first 32 of its row |
| `OriginalIndex.FindIsScan` | tlsf_ori.c:161-177 | Main: the search then returns what the scan finds if and only if both the class searched for and the class found, if any, are among the first 32 of their rows |
| `OriginalIndex.OneBlockFound` | tlsf_ori.c:161-219 | what the search returns when one block is listed, in all three cases |
| `OriginalIndex.MissedExample` | tlsf_ori.c:161-219 | with one block of 48 bytes listed, a search for 16 returns nothing, while the scan finds the block |
| `OriginalIndex.UndefinedExample` | tlsf_ori.c:161-219 | with one block of 7008 bytes listed, a search for 16 is undefined, while the scan finds the block |
| `OriginalIndex.WrappedShiftExample` | tlsf_ori.c:163 | with shift counts taken modulo 32, a search for 48 bytes would return a block of 16 |
| `OriginalLists.IntoHomed` | tlsf_ori.c:211-219 | inserting keeps every free block in exactly one list, that of its size |
| `OriginalLists.OutOfHomed` | tlsf_ori.c:180-209 | so does extracting, at the head of the list or not |
| `OriginalHeap.RoundedOk` | tlsf_ori.c:521-524 | rounding a request to the start of a class keeps it a multiple of 16 |
| `OriginalHeap.MallocEx` | tlsf_ori.c:549-567 | taking a free block that is large enough keeps tiling, flags, coalescing, lists and client data, and leaves at most 16 spare bytes |
| `OriginalHeap.FreeEx` | tlsf_ori.c:574-611 | Main: freeing any live block, in the order of the stores, restores all that, and forgets the block's data and no other |
| `OriginalHeap.Shrink` | tlsf_ori.c:638-661 | the path for a large enough block keeps all that; with a free neighbour the result has exactly the size asked for |
| `OriginalHeap.SwallowedRoom` | tlsf_ori.c:645-649 | after a free neighbour was pulled in there is always enough for a new free block |
| `OriginalHeap.Grow` | tlsf_ori.c:662-684 | growing over a free neighbour keeps the invariant and leaves at most 16 spare bytes |
| `OriginalHeap.Move` | tlsf_ori.c:687-696 | so does allocating elsewhere, copying the payload and freeing |
| `OriginalHeap.UnusedAreaIsFree` | tlsf_ori.c:574-611 | an area without live blocks is one free block |
| `OriginalHeap.MallocExKeeps` | tlsf_ori.c:549-567 | every other live block stays in place with its size |
| `OriginalHeap.FreeExKeeps` | tlsf_ori.c:574-611 | the same |
| `OriginalHeap.ShrinkKeeps` | tlsf_ori.c:638-661 | the same |
| `OriginalHeap.GrowKeeps` | tlsf_ori.c:662-684 | the same |
| `OriginalHeap.MoveKeeps` | tlsf_ori.c:687-696 | the same |
| `OriginalCalls.CanRoundSizes` | tlsf_ori.c:128-146 | exactly the requests of up to 2^32 - 2^24 bytes can be rounded within 32 bits |
| `OriginalCalls.WantedIsLeast` | tlsf_ori.c:521-524 | Main: malloc_ex searches for the least multiple of 16 from 16 on that holds the request and starts a class |
| `OriginalCalls.ChosenFits` | tlsf_ori.c:524-554 | Main: whatever the bitmaps hold, a block that the search for a rounded request returns is free and large enough, so that the remainder is not negative |
| `OriginalCalls.ChosenIffRoom` | tlsf_ori.c:524-547 | Main: where index and lists agree and the request's class is one of the first 32 of its row, a block is found if and only if some free block has the rounded size, and it is of the first class that has one |
| `OriginalCalls.TakeTuned` | tlsf_ori.c:549-567 | malloc_ex keeps the agreement if and only if the remainder is not listed or is of one of the first 32 classes of its row |
| `OriginalCalls.FreeTuned` | tlsf_ori.c:574-611 | free_ex keeps it if and only if the merged block is of such a class, whose size is known before the call |
| `OriginalCalls.ShrinkTuned` | tlsf_ori.c:638-661 | the same for the tail that the shrinking path lists |
| `OriginalCalls.GrowTuned` | tlsf_ori.c:662-684 | the same for the tail that the growing path lists |
| `OriginalCalls.MoveTuned` | tlsf_ori.c:687-696 | the same for the block that the moving path frees, if its allocation kept the agreement |
| `OriginalCalls.MovedSizeIs` | tlsf_ori.c:687-696 | the size of that block, told from the sizes before the call |
| `OriginalResults.FirstSizes` | tlsf_ori.c:248-284 | the first free block of a pool that is not refused has a multiple of 16 bytes from 64 on, and each of these sizes arises |
| `OriginalResults.FreshAgrees` | tlsf_ori.c:275-318 | index and lists of a new pool agree if and only if its block is of one of the first 32 classes of its row |
| `OriginalResults.FreshIs` | tlsf_ori.c:275-318 | a new pool is one free block, listed once, with the bits of that one insertion |
| `OriginalResults.FirstRequest` | tlsf_ori.c:275-318 | Main: what a new pool of s bytes gives to the first request that s bytes would meet: the block, or NULL, or the subscript -1 in a row of the matrix, told by the classes of the two sizes |
| `OriginalResults.MissedRequest` | tlsf_ori.c:513-547 | malloc_ex(16) returns NULL in a new pool with a free block of 64 bytes |
| `OriginalResults.UndefinedRequest` | tlsf_ori.c:161-177 | malloc_ex(16) uses the subscript -1 in a row of the matrix in a new pool with a free block of 7008 bytes |
| `OriginalResults.ShrinkKeepsData` | tlsf_ori.c:638-661 | the block's data up to the requested size stay, and all data of other blocks |
| `OriginalResults.MoveKeepsData` | tlsf_ori.c:687-696 | the block's data are at the same offsets of the new block, and all data of other blocks stay |
| `OriginalResults.FreeKeepsData` | tlsf_ori.c:574-611 | all data of other blocks stay |
| `OriginalRuns.Run` | tlsf_ori.c:513-697 | after any sequence of calls the invariant holds, whatever the bitmaps hold |
| `OriginalRuns.ReallocWhere` | tlsf_ori.c:629-697 | Main: realloc_ex returns the block's own address, with n to n + 16 bytes, n the request rounded up to 16, if the block, or the sizes of it and of a free block behind, has n bytes; otherwise it returns what malloc_ex returns, another address or NULL |
| `OriginalRuns.MallocWhere` | tlsf_ori.c:513-572 | NULL and no change, or the payload of a block that was free, with at most 16 bytes more than are searched for |
| `OriginalRuns.StepAgrees` | tlsf_ori.c:513-697 | one call keeps index and lists in agreement, also between the allocation and the release of a realloc that moves, if and only if what it lists is of one of the first 32 classes of its row |
| `OriginalRuns.RunAgrees` | tlsf_ori.c:513-697 | Main: index and lists agree throughout a run if and only if they do at its start and that holds of each of its calls |
| `OriginalRuns.AgreesFromNew` | tlsf_ori.c:275-697 | from a new pool on, if and only if its one block, too, is of one of the first 32 classes of its row |
| `OriginalRuns.ServedAfterRun` | tlsf_ori.c:513-547 | Main: after such a run malloc_ex returns NULL if and only if every free block is smaller than n, n the least multiple of 16 from 16 on that holds the request and starts a class, where n is of one of the first 32 classes of its row |
| `OriginalRoundTrip.MallocThenFree` | tlsf_ori.c:513-611 | Main: free_ex of a block that malloc_ex took from the head of its list restores the heap, list order included |
| `OriginalRoundTrip.ChosenThenFree` | tlsf_ori.c:513-611 | every block that the search returns is such a one |
| `OriginalRoundTrip.BitsDetermined` | tlsf_ori.c:161-219 | where index and lists agree, the lists determine the bitmaps |
| `OriginalRoundTrip.BitsBack` | tlsf_ori.c:513-611 | so that the bitmaps are restored, too, if they agree in between |
| `OriginalPool.Pool.constructor` | tlsf_ori.c:275-318 | sets up a new pool: its heap and bitmaps are those of `OriginalResults.FreshIs` |
| `OriginalPool.Pool.InsertBlock` | tlsf_ori.c:211-219 | the exact list and bitmap updates |
| `OriginalPool.Pool.ExtractBlock` | tlsf_ori.c:194-209 | the exact list and bitmap updates, with bits cleared only when the head is extracted and the list empties |
| `OriginalPool.Pool.ExtractHead` | tlsf_ori.c:180-191 | the same for the head of a list |
| `OriginalPool.Pool.FindSuitableBlock` | tlsf_ori.c:161-177 | returns the head of the list that `OriginalIndex.Find` names, or NULL |
| `OriginalPool.Pool.MallocEx` | tlsf_ori.c:513-572 | Main: wherever the search is defined, NULL and no change if it returns nothing, and otherwise heap and bitmaps of `OriginalHeap.MallocEx` for the block that it returns |
| `OriginalPool.Pool.FreeEx` | tlsf_ori.c:575-611 | heap and bitmaps of `OriginalHeap.FreeEx`, by stores that tell the block behind last; NULL changes nothing |
| `OriginalPool.Pool.ReallocEx` | tlsf_ori.c:614-697 | Main: frees for size 0, allocates for NULL, and otherwise chooses among shrinking, growing and moving as the code does, with heap and bitmaps of each |
| `OriginalPool.Pool.CopyPayload` | tlsf_ori.c:691-693 | the copy, word by word, gives the new block the old block's data |
| `OriginalProgram.Perform` | tlsf_ori.c:513-697 | the pool performs any permitted call as `OriginalRuns.Apply` says and returns what `OriginalRuns.Answer` says |
| `OriginalProgram.PerformAll` | tlsf_ori.c:513-697 | Main: the pool performs any permitted run, ends with heap and bitmaps of `OriginalRuns.Run` and returns the addresses of `OriginalRuns.Answers`, so that the results about runs hold of it |

## Left out

- Address sanitizer annotations (asan.h): no effect on the allocator's state.
- The 32-bit layout (tlsf.c:114-139): the constants are those of a 64-bit machine.
- The compiler built-ins for bit scans (tlsf.c:42-53): taken to agree with the generic versions, which are modelled.
- Sizes beyond the bounds named above, and wrap-around in sums of sizes and addresses: the shifts of tlsf.c:464, 547 and 711 are undefined there.
- Tlsf.Control.Check: the result of `1 << 32` in the first-level test of the last row (tlsf.c:806) is a parameter. In a build with assertions the first check that fails stops the program (tlsf.c:779); the status is that of a build without.
- Tlsf.Control.CheckPool: the same of a check that fails.
- The heap argument: a NULL heap (tlsf.c:1151-1155, 1200-1204) is resolved to the receiver, which is what the header names.
- The control structure's bitmaps and heads are fields and arrays, not words of the memory in which headers live; `block_null` is.
- Memory is made of 8-byte words. Client data are words; bytes within a word are not told apart.
- Client data are the words that a client has stored. What a fresh block holds is open, as in C.
- tlsf_create's alignment test, tlsf_create_with_pool, tlsf_get_pool and tlsf_destroy (tlsf.c:1042-1079): compositions or constants.
- Callback walkers and printing (tlsf.c:845-849): the walker of `WalkPool` notes what it is told.
- Assertions of the C code are not run-time checks, but for tlsf.c:352, whose failure `Tlsf.Control.Realloc` models. Those of tlsf.c:340, 474, 496-497, 529-530, 540, 588, 592, 607, 621-622, 636, 640, 654, 669, 727, 740, 743, 1001-1003, 1112, 1133, 1148, 1154, 1203 and 1206 are proved in the methods of `Control` where they stand, and so is tlsf.c:352 for every other call; those of tlsf.c:394, 400 and 408 are `Words.PowerTest`; tlsf.c:1188 is about a NULL heap.
- Runs.Allowed: leaves out reallocations without a block size; `Tlsf.Control.Realloc` says what becomes of the heap then.
- OriginalPool.Pool.MallocEx: requires that the search be defined in C: no shift by 32 or more and no subscript out of range. `OriginalIndex.FindDefined` says when it is. Header stores are updates of a heap value.
- OriginalPool.Pool.ReallocEx: the same.
- OriginalPool.Pool.FreeEx: header stores are updates of a heap value, not of words of memory.
- OriginalPool.Pool.InsertBlock: the link fields and the matrix entry are one sequence value; only the bitmap words are stored.
- OriginalPool.Pool.ExtractBlock: the same.
- OriginalPool.Pool.ExtractHead: the same.
- OriginalPool.Pool.CopyPayload: words move inside the map of client data; there is no memory below it.
- OriginalPool.Pool.constructor: leaves out the block that describes the area, which is never freed; `OriginalResults.FirstSizes` treats the size test.
- Areas of tlsf_ori.c from 0x38000000 bytes on: set_bit can write outside of sl_bitmap there.
- Several areas and their merging (tlsf_ori.c:321-396), a pool that is initialised again (tlsf_ori.c:292-296), the layout of the control structure, locking, growth through sbrk and mmap, statistics and calloc_ex.
- The benchmark, the example program, traces and plots.
