# Parallel benchmark programs, modelled and proved

This project models the parallel programs under `apps/` and proves what they promise: their results are
right, and they do not depend on the number of threads or on how the threads interleave.

| program | files | what is proved of it |
|---|---|---|
| radix sort (`apps/radix`) | `TreeShape`, `PrefixTree`, `PrefixProgress`, `StableRank`, `RadixPasses`, `BitDigits`, `RadixSort`, `RadixRuns`, `RandomKeys` | every run on every power-of-two number of processors sorts; the tree of counters gives the right places in every interleaving and always can be finished; the keys are the same for all processor counts |
| string search (`apps/pfscan/bm.c`) | `BoyerMoore` | the tables mean what they should and the search reports what comparing everywhere reports |
| file scanner (`apps/pfscan`) | `PathQueue`, `PfscanRun`, `PfscanQueue` | first in, first out; no lost wakeup, no deadlock, termination; all files scanned when `main` returns |
| LU factorisation (`apps/lu`) | `LuSpec`, `LuKernels`, `LuParallel`, `LuProgress`, `LuLayout` | every run computes, race-free, exactly what the unblocked algorithm computes; L times U is the matrix; the storage is a bijection |
| deduplication (`apps/dedup`) | `Rabin`, `DedupChunker`, `HashTable`, `DedupCache`, `DedupTable`, `DedupFormat`, `BinHeap`, `SearchTree`, `ReorderBuffer`, `SendOrder`, `SendLoop`, `DedupSender`, `RingBuffer`, `DedupEncoder`, `DedupProgress`, `DedupQueue`, `DedupPipeline`, `DedupStages`, `DedupGroups`, `DedupDecoder`, `DedupRoundTrip` | the encoder as one machine always gets to its end, and in every interleaving decoding gives back the chunks in the order they were sent, which is the input under an exact condition on the counts the sender reads; nothing is lost in the pipeline; "data before reference" holds for every order of arrival |
| clustering (`apps/streamcluster`) | `RealSum`, `StreamSpec`, `StreamBlocks`, `StreamTable`, `StreamGain`, `StreamSpeedy`, `StreamFL`, `StreamMedian` | the phases of `pgain` amount to one sequential step for every number of threads, no other way to open that point is cheaper, and the cost carried through the search is the true cost |
| Fourier transform (`apps/fft`) | `Complex`, `FftSpec`, `FftOnce`, `FftTables`, `FftSixStep`, `FftTranspose`, `FftInverse`, `FftParallel` | the six-step algorithm over all threads computes the N-point transform in order, and forward then backward is the identity; the transpose is complete if and only if the blocks divide the rows |
| swaption paths (`apps/swaptions`) | `RanUnif`, `SwapPaths`, `SwapBlocks`, `SwapDiscount`, `SwapDrifts` | the blocked simulation and discounting give exactly the paths of single calls; the generator is exact; the drifts balance |

`Arith`, `PowerOfTwo`, `Threads` and `Wrappers` are shared.

## How the programs are modelled

- Sequential loops over arrays are methods with loops, proved against specification functions and predicates.
- Threads that share data under flags, locks or condition variables (`PrefixTree`, `RadixSort`, `LuParallel`,
  `DedupCache`, `DedupEncoder`, `DedupPipeline`, `DedupGroups`, `PfscanRun`) are state machines; results are stated
  for every run. Methods that call the real queue, table or kernel are proved to be steps of the machine
  (`DedupStages`, `DedupTable`, `PfscanQueue`, `LuParallel.ApplyTask`, `RadixSort.LocalHistogram`).
- Phases between two barriers in which every thread writes only its own part (`StreamTable`, `StreamGain`,
  `StreamSpeedy`, `FftParallel`) are methods that let the threads run one after the other in any order.
- `double` and `float` are exact: reals, complex numbers over the reals, integers where the values are whole
  (`RandomKeys`), and any arithmetic at all for LU, where the results are equal operation by operation.
- SHA-1, zlib, `CumNormalInv`, square roots, cosine and sine, random coins and shuffles are parameters.

Where code and comment differ the code is followed. Four properties one would expect do not hold without a
condition, and the condition is proved to be exact:

- The sender writes the items in output order if and only if it leaves every anchor but the last on its final
  count (`SendLoop.OrderedIff`, and `DedupEncoder.EveryRunSends` beside its producers). A sender that starts after
  its producers always does (`DedupSender.SendPreloaded`, `DedupEncoder.PreloadedRunIsOrdered`). By default it runs beside them (`apps/dedup/encoder.c`, lines 1194-1196), and a
  batch of 20 chunks that ends inside an anchor is enough to go wrong (`SendLoop.EarlyLeaveFails`).
- The window tables of the chunker are right if and only if they hold the share of the byte that leaves
  (`Rabin.RollIsExact`); the encoder builds them for a window of length 0 (`apps/dedup/encoder.c`, line 80),
  which is wrong for 32 bytes (`Rabin.ZeroWindowIsWrong`). Cutting points change, the round trip does not.
- `enqueue` stores a batch whole if and only if a slot stays free after it (`DedupQueue.BatchMustFit`); its wait does
  not see to that (`DedupQueue.EnqueueCanLoseAll`).
- The blocked transpose reaches every entry if and only if the number of blocks divides the rows of a thread
  (`FftTranspose.TransposesAllIff`, with an example in `FftTranspose.RowsCanBeMissed`).

## Model

| member | source | states |
|---|---|---|
| `BoyerMoore.StopsAtIsLongest` | apps/pfscan/bm.c:35-60 | The value at which a right-to-left comparison stops is the length of the longest common suffix, and only that value |
| `BoyerMoore.WindowCopies` | apps/pfscan/bm.c:46-49 | Inside a window that matched before, the comparison at i stops where the comparison at the mirrored index stops, as long as it stops within the window |
| `BoyerMoore.ExtendLeft` | apps/pfscan/bm.c:52-57 | The inner loop ends where the comparison from f stops |
| `BoyerMoore.Suffixes` | apps/pfscan/bm.c:35-60 | The table, filled in place from the right, holds for every i the stopping point of the comparison ending at i |
| `BoyerMoore.TableHoldsLongest` | apps/pfscan/bm.c:35-60 | Every entry of the finished table is the length of the longest common suffix of x[0..i] and x |
| `BoyerMoore.FarShift` | apps/pfscan/bm.c:78-83 | A shift that moves the pattern past the mismatch is consistent with the text seen exactly when it is a period of the pattern |
| `BoyerMoore.PeriodInTable` | apps/pfscan/bm.c:79-83 | The suffix table shows a full prefix at an index exactly when the matching shift is a period |
| `BoyerMoore.NearShift` | apps/pfscan/bm.c:85-86 | A shift that keeps the mismatch covered is consistent exactly when the suffix table stops right at the mismatch |
| `BoyerMoore.BordersPhase` | apps/pfscan/bm.c:75-83 | After the second loop every entry is the smallest consistent shift among those past the mismatch |
| `BoyerMoore.FillUpTo` | apps/pfscan/bm.c:81-83 | The entries that have none yet get the next period, and it is the least period beyond their index |
| `BoyerMoore.PreBmGs` | apps/pfscan/bm.c:63-90 | bmGs[i] is the smallest positive shift consistent with the matched suffix and with the mismatch at i, for every i |
| `BoyerMoore.GoodShiftAtZeroIsSmallestPeriod` | apps/pfscan/bm.c:63-90 | bmGs[0] is the smallest period of the pattern (both directions) |
| `BoyerMoore.PreBmBc` | apps/pfscan/bm.c:20-32 | bmBc[c] is the distance from the last index of c before the end, or m when c does not occur there |
| `BoyerMoore.GoodShiftSkipsNothing` | apps/pfscan/bm.c:215-227 | No occurrence starts strictly between the present position and the position the good-suffix shift moves to |
| `BoyerMoore.BadShiftSkipsNothing` | apps/pfscan/bm.c:225-227 | No occurrence starts strictly between the present position and the position the bad-character shift moves to |
| `BoyerMoore.BM.constructor` | apps/pfscan/bm.c:93-124 | A fresh searcher keeps the pattern it was given; its copy is that pattern, byte for byte lowered when case is ignored and unchanged otherwise, and both tables mean what they should |
| `BoyerMoore.BM.SavePattern` | apps/pfscan/bm.c:109-115 | The saved copy is the pattern, folded to lower case when case is ignored |
| `BoyerMoore.BM.Scan` | apps/pfscan/bm.c:176-179 | The comparison at j stops at the rightmost difference, or at -1 when the pattern occurs there |
| `BoyerMoore.BM.Shift` | apps/pfscan/bm.c:215-227 | The larger of the smallest consistent shift and the bad-character shift, or the smallest period after a match; it moves on, and no occurrence lies in between |
| `BoyerMoore.FoundReports` | apps/pfscan/bm.c:150-233 | A search that went through the text, or was stopped by its callback, has reported what comparing at every position reports up to there |
| `BoyerMoore.QuietCallbackReportsAll` | apps/pfscan/bm.c:150-233 | With a callback that returns 0 a position is reported exactly when the pattern occurs there |
| `BoyerMoore.BM.Search` | apps/pfscan/bm.c:150-233 | On the pattern as given and the raw text, equal bytes or equal up to case: without a callback the first place or -1; with one, exactly the places up to the first non-zero answer, and the answer or the count as result |
| `BoyerMoore.BM.MatchesIs` | apps/pfscan/bm.c:109-115 | Comparing folded bytes is comparing bytes when case matters, and lowered bytes when it does not |
| `BoyerMoore.FindAll` | apps/pfscan/pfscan.c:397-397 | For every pattern and text: j is reported if and only if the text at j is the pattern byte for byte, or up to case when case is ignored |
| `TreeShape.IndexInjective` | apps/radix/radix.c:596-692 | No two nodes of the prefix tree share an index, all indices lie below 2P - 1 |
| `TreeShape.IndexOnto` | apps/radix/radix.c:596-692 | Every index below 2P - 1 is a node |
| `TreeShape.OwnerBits` | apps/radix/radix.c:601-630 | The processor that computes a node is the rightmost leaf below it |
| `PrefixTree.LeftSiblingDone` | apps/radix/radix.c:604-614 | A processor past its wait finds the left sibling finished and announced |
| `PrefixTree.ChildrenReady` | apps/radix/radix.c:607-630 | When two children are added both hold their final sums |
| `PrefixTree.JoinedSums` | apps/radix/radix.c:615-624 | Adding the children gives the sums of the parent; leaving out the ranks of the rightmost node loses nothing that is read |
| `PrefixTree.TheirNodeIs` | apps/radix/radix.c:636-655 | my_node is the left child the processor ends, their_node the one whose owner serves it |
| `PrefixTree.TheirsIsTotal` | apps/radix/radix.c:654-661 | When densities are copied from their_node, it already holds the totals of all processors |
| `PrefixTree.LeftRanksAdd` | apps/radix/radix.c:672-688 | Adding the ranks of left siblings along the path gives the ranks of all processors to the left |
| `PrefixTree.UpStep` | apps/radix/radix.c:596-630 | Every step of the up-sweep keeps the invariant of the tree |
| `PrefixTree.DownStep` | apps/radix/radix.c:636-690 | Every step of the down-sweep keeps the invariant of the tree |
| `PrefixTree.BarrierStep` | apps/radix/radix.c:631-634 | The barrier turns a finished up-sweep into the start of the down-sweep |
| `PrefixTree.RunKeepsInv` | apps/radix/radix.c:596-692 | The invariant holds in every state of every interleaving |
| `PrefixTree.EveryRunRanks` | apps/radix/radix.c:596-692 | In every interleaving no processor leaves the arrays, and at the end each holds (keys with a smaller digit) + (keys with this digit on processors before it), with all semaphores back at zero |
| `PrefixTree.UpWaitsFor` | apps/radix/radix.c:607-614 | A blocked wait of the up-sweep waits for a processor that has not reached the barrier |
| `PrefixTree.DownWaitMoves` | apps/radix/radix.c:654-661 | Behind every blocked wait of the down-sweep there is a processor that can move |
| `PrefixTree.NoDeadlock` | apps/radix/radix.c:596-692 | In every reachable state that is not finished a next state exists |
| `PrefixProgress.WorkShrinks` | apps/radix/radix.c:596-692 | Every step of a processor or of the barrier takes work away |
| `PrefixProgress.EveryRunIsShort` | apps/radix/radix.c:596-692 | No run has more steps than there is work at the start |
| `PrefixProgress.EveryRunCanFinish` | apps/radix/radix.c:596-692 | Every run can be carried on until all processors have their ranks |
| `StableRank.RankOrder` | apps/radix/radix.c:709-715 | Stable ranks follow (digit, index) strictly, so no two keys share a place |
| `StableRank.MovedIsPermutation` | apps/radix/radix.c:709-715 | Moving every key to its own distinct place gives a permutation |
| `RadixPasses.ScatteredIsPermutation` | apps/radix/radix.c:709-715 | A pass only moves keys |
| `RadixPasses.ScatteredUnique` | apps/radix/radix.c:709-715 | The result of a pass is determined by the keys and their digits alone |
| `RadixPasses.PassSortsOneMore` | apps/radix/radix.c:558-734 | A stable pass on digit t turns an order that is stable by t digits into one that is stable by t + 1 digits |
| `RadixPasses.GetMaxDigits` | apps/radix/radix.c:799-818 | The number of passes is the least (at least one) whose digits cover max_key |
| `RadixPasses.CoveredIsSorted` | apps/radix/radix.c:558-749 | When the digits cover every key, sorted by the low digits is sorted |
| `BitDigits.MaskShiftIsDigit` | apps/radix/radix.c:559-582 | Masking with (radix-1) << shiftnum and shifting back takes digit loopnum of a key of any size |
| `RadixSort.Histogram` | apps/radix/radix.c:559-588 | Masking and shifting the keys of a slice: the counts per digit and the counts of smaller-or-equal digits |
| `RadixSort.LocalHistogram` | apps/radix/radix.c:559-588 | What a processor counts in its slice is what it brings to the prefix tree of the pass |
| `RadixSort.MaskedAreDigits` | apps/radix/radix.c:709-711 | What the scatter reads off every key by mask and shift is its digit, for every key array, radix and pass |
| `RadixSort.Partition` | apps/radix/radix.c:318-331 | key_partition[p] is floor(p * num_keys / P), for all P + 1 entries |
| `RadixSort.TreeGivesStart` | apps/radix/radix.c:684-692 | What the tree delivers is the place of the first key of each digit of each processor |
| `RadixSort.SlotIsRank` | apps/radix/radix.c:709-715 | In every state of the scatter the slot a processor writes next is the stable rank of its key |
| `RadixSort.SlotsApart` | apps/radix/radix.c:709-715 | No two processors ever write the same slot and no slot is written twice |
| `RadixSort.EveryScatterIsStable` | apps/radix/radix.c:709-715 | However the processors interleave, a finished scatter is the stable pass |
| `RadixSort.PassIsStable` | apps/radix/radix.c:558-734 | One whole pass, tree and scatter in any interleaving, is a stable pass and leaves the semaphores at zero |
| `RadixSort.AfterPasses` | apps/radix/radix.c:558-734 | After t passes the current buffer is stably sorted by key mod radix^t |
| `RadixSort.RadixSorts` | apps/radix/radix.c:465-749 | Every run on every power-of-two number of processors leaves a sorted permutation of the keys in the buffer global->final names |
| `RadixSort.SameForAllProcessorCounts` | apps/radix/radix.c:465-749 | Two runs with any processor counts and interleavings agree after every pass |
| `RadixRuns.ScatterCanFinish` | apps/radix/radix.c:709-715 | Every scatter, begun in any way, can be carried on until all keys are placed |
| `RadixRuns.PassCanRun` | apps/radix/radix.c:558-749 | Every pass can be run, whatever the keys and whatever the other buffer holds |
| `RadixRuns.SortCanRun` | apps/radix/radix.c:465-749 | For all keys, every power-of-two number of processors and every number of passes there is a run of the sort |
| `RadixRuns.EveryInputIsSorted` | apps/radix/radix.c:465-749 | For all keys there is a run with as many passes as the keys have digits, and it ends sorted |
| `RandomKeys.ProductIsExact` | apps/radix/radix.c:753-775 | product_mod_46 is exact multiplication modulo 2^46; no intermediate needs more than 53 bits, no cast more than 31 |
| `RandomKeys.SquareStep` | apps/radix/radix.c:785-794 | One round of squaring keeps b * t^k modulo 2^46 |
| `RandomKeys.RanNumInit` | apps/radix/radix.c:777-797 | ran_num_init(k, b, t) is b * t^k modulo 2^46 |
| `RandomKeys.RanNext` | apps/radix/radix.c:905-918 | One multiplication leads from each number of the sequence to the next |
| `RandomKeys.FourNumbers` | apps/radix/radix.c:904-918 | The four numbers of a key, drawn from a jump to its place, are those of the one common sequence |
| `RandomKeys.KeyInRange` | apps/radix/radix.c:913 | Every key lies in 0..max_key |
| `RandomKeys.Init` | apps/radix/radix.c:891-919 | A processor fills exactly its slice, each key depending only on its index |
| `RandomKeys.KeysForAllProcessorCounts` | apps/radix/radix.c:891-919 | For every processor count the generated array is the same |
| `LuSpec.AtNext` | apps/lu/lu.c:535-556 | What elimination k does to every entry of the matrix |
| `LuSpec.AtSettled` | apps/lu/lu.c:535-556 | Eliminations beyond the row or column of an entry leave it alone |
| `LuSpec.FactorsMultiplyBack` | apps/lu/lu.c:535-556 | With non-zero pivots L (non-unit lower) times U (unit upper) is the original matrix, entry by entry |
| `LuKernels.Daxpy` | apps/lu/lu.c:636-649 | Updates the given rows of one column and nothing else |
| `LuKernels.DiagonalColumn` | apps/lu/lu.c:545-555 | What one elimination does to a column of a diagonal block |
| `LuKernels.LowerColumn` | apps/lu/lu.c:571-578 | The same for a column of a block below it |
| `LuKernels.UpperColumn` | apps/lu/lu.c:595-605 | The same for a column of a block right of it |
| `LuKernels.TrailingColumn` | apps/lu/lu.c:625-632 | The same for a column of a trailing block |
| `LuKernels.Lu0` | apps/lu/lu.c:535-556 | Leaves in a diagonal block, whatever it held, the block with its own eliminations applied one after the other |
| `LuKernels.Bdiv` | apps/lu/lu.c:559-579 | The same for a block below the diagonal block, which is read as found |
| `LuKernels.Bmodd` | apps/lu/lu.c:582-606 | The same for a block right of the diagonal block, which is read as found |
| `LuKernels.Bmod` | apps/lu/lu.c:609-633 | The same for a trailing block, from the block left of it and the block above it as found |
| `LuKernels.BmodColumn` | apps/lu/lu.c:625-632 | One elimination on every column of the trailing block, from the two other blocks as found |
| `LuParallel.Grid` | apps/lu/lu.c:199-205 | The processor grid is the factorisation of P closest to square |
| `LuParallel.OwnerInRange` | apps/lu/lu.c:652-659 | Every block has an owner among the P processors |
| `LuParallel.OwnerIsCyclic` | apps/lu/lu.c:652-659 | Two blocks have one owner exactly when they lie whole grids apart in both directions |
| `LuParallel.BlockInRange` | apps/lu/lu.c:206-209 | Every row and column lies in one of the blocks |
| `LuParallel.InBlock` | apps/lu/lu.c:680-694 | Rows and columns of a block, clipped at the edge of the matrix |
| `LuParallel.ApplyTask` | apps/lu/lu.c:662-797 | The kernel lu picks for a task, on the block arrays it passes, leaves in its target exactly what a finishing kernel leaves in the memory of the parallel run, ragged edges included |
| `LuParallel.NowIsAt` | apps/lu/lu.c:535-633 | Elimination by elimination a kernel whose inputs are ready follows the factorisation |
| `LuParallel.KernelAdvances` | apps/lu/lu.c:662-797 | A kernel whose inputs are ready brings its block one block step further |
| `LuParallel.ClippedStep` | apps/lu/lu.c:676-690 | A step clipped at the ragged edge leaves what a full step leaves |
| `LuParallel.KernelsFindInputs` | apps/lu/lu.c:662-797 | In every reachable state a running kernel finds the blocks it reads in the state it needs |
| `LuParallel.NoConflict` | apps/lu/lu.c:662-797 | Tasks of different processors between the same barriers, including the stretch without a barrier from the trailing update to the next diagonal block, never touch each other's blocks |
| `LuParallel.StepKeeps` | apps/lu/lu.c:662-797 | Every start and end of a kernel, every move and every barrier keeps the invariant |
| `LuParallel.RunKeeps` | apps/lu/lu.c:662-797 | The invariant holds in every state of every run |
| `LuParallel.EveryRunIsRaceFree` | apps/lu/lu.c:662-797 | In every run no block is written while another processor reads or writes it |
| `LuParallel.EveryRunFactors` | apps/lu/lu.c:662-797 | A finished run, every kernel doing to memory what its code does, leaves in every entry exactly what lu0 on the whole matrix leaves, for every arithmetic |
| `LuParallel.WholeIsAt` | apps/lu/lu.c:535-556 | Taken as one block, the whole matrix goes through exactly the eliminations of the specification, for every entry and every number of them |
| `LuParallel.SameAsLu0` | apps/lu/lu.c:535-556 | lu0 run on the whole matrix leaves in every entry what any finished run of the processors left there, for every arithmetic |
| `LuParallel.EveryRunMultipliesBack` | apps/lu/lu.c:662-797 | Over the reals with non-zero pivots the factors left in memory multiply back to the matrix |
| `LuParallel.NoDeadlock` | apps/lu/lu.c:662-797 | In every reachable state that is not finished some action is possible |
| `LuProgress.WorkShrinks` | apps/lu/lu.c:662-797 | Every step of a processor or of the barrier takes work away |
| `LuProgress.EveryRunIsShort` | apps/lu/lu.c:662-797 | No run has more steps than there is work at the start |
| `LuProgress.EveryRunCanFinish` | apps/lu/lu.c:662-797 | Every run can be carried on to a finished one |
| `LuLayout.SizeIsArea` | apps/lu/lu.c:226-232 | The size allocated for a block is its height times its width, ragged edges included |
| `LuLayout.BlockRows` | apps/lu/lu.c:206-214 | Block row I holds exactly the matrix rows that belong to it |
| `LuLayout.DimIsSpan` | apps/lu/lu.c:211-232 | The blocks the kernels work on have the sizes that were allocated |
| `LuLayout.OffsetIsColumnMajor` | apps/lu/lu.c:811-836 | InitA's offset stores a block column by column with the block's own height as stride |
| `LuLayout.AreaSizes` | apps/lu/lu.c:217-235 | The area of each processor is the sum of the sizes of its blocks |
| `LuLayout.Allocate` | apps/lu/lu.c:217-264 | Every block starts where the earlier blocks of its owner end |
| `LuLayout.CellInArea` | apps/lu/lu.c:811-836 | Every entry has a cell inside the area of the owner of its block |
| `LuLayout.CellInjective` | apps/lu/lu.c:811-836 | No two entries share a cell |
| `LuLayout.CellOnto` | apps/lu/lu.c:811-836 | Every allocated cell holds an entry |
| `DedupFormat.ArchiveAt` | apps/dedup/encoder.c:838-868 | Record i depends only on the chunks up to i |
| `DedupFormat.DataPrecedesFingerprints` | apps/dedup/encoder.c:838-868 | For each digest exactly one data record, and it precedes every fingerprint record of that digest |
| `DedupCache.StepKeeps` | apps/dedup/encoder.c:83-149 | Every chunk, compress and send step keeps the invariant of the cache |
| `DedupCache.RunKeeps` | apps/dedup/encoder.c:207-299 | The invariant holds in every interleaving |
| `DedupCache.SendKeepsFile` | apps/dedup/encoder.c:838-868 | The sender writes the data of a digest exactly when no chunk with that digest was sent before |
| `DedupCache.EveryRunWritesTheArchive` | apps/dedup/encoder.c:83-149 | In every interleaving no lookup fails and the file is the archive of the chunks in the order they were sent |
| `DedupCache.TagsOnlyAdvance` | apps/dedup/encoder.c:207-299 | Entries stay in the cache and tags only move OCCUPY, DATAREADY, WRITTEN, one at a time |
| `DedupCache.SenderIsNeverStuck` | apps/dedup/encoder.c:838-868 | Until a chunk is sent some stage can act on its digest; a sender that meets OCCUPY has a compressor at work |
| `HashTable.ChooseSize` | apps/dedup/hashtable.c:32-46 | The smallest listed prime above minsize, or none above 2^30 |
| `HashTable.LookupChanged` | apps/dedup/hashtable.c:226-232 | Changing the first entry of a key changes what is found for that key and for no other |
| `HashTable.Table.constructor` | apps/dedup/hashtable.c:32-66 | A new table finds nothing |
| `HashTable.Table.Insert` | apps/dedup/hashtable.c:170-203 | Afterwards k finds v, every other key what it found before, and only the chain under k's lock has changed |
| `HashTable.Table.Search` | apps/dedup/hashtable.c:206-224 | Finds the entry that counts, exactly when there is one |
| `HashTable.Table.Change` | apps/dedup/hashtable.c:226-232 | The map changes at k only, within the chain under k's lock |
| `DedupTable.Enter` | apps/dedup/encoder.c:223-274 | On the hash table that holds the cache, looking up and entering a digest is a chunk step of the machine, and touches only the chain under its lock |
| `DedupTable.Store` | apps/dedup/encoder.c:117-141 | On the hash table, storing the compressed data is a compress step; the lookup fails exactly when the step counts an error |
| `DedupTable.Fetch` | apps/dedup/encoder.c:839-868 | On the hash table, sending an item is a send step, and the record it hands out is the one the step appends to the file |
| `BinHeap.RootIsLeast` | apps/dedup/binheap.c:109-117 | The first element of an ordered heap is a minimum |
| `BinHeap.PercolateUp` | apps/dedup/binheap.c:70-74 | The loop of Insert restores the heap order and adds exactly the new element |
| `BinHeap.PercolateDown` | apps/dedup/binheap.c:92-105 | The loop of DeleteMin restores the heap order and drops exactly the minimum |
| `BinHeap.Heap.constructor` | apps/dedup/binheap.c:18-40 | An empty heap |
| `BinHeap.Heap.Insert` | apps/dedup/binheap.c:48-76 | Adds exactly one element, growing when full |
| `BinHeap.Heap.Grow` | apps/dedup/binheap.c:53-62 | A full heap gets twice the room and keeps its contents |
| `BinHeap.Heap.IsEmpty` | apps/dedup/binheap.c:119-123 | Empty exactly when nothing is stored |
| `BinHeap.Heap.FindMin` | apps/dedup/binheap.c:109-117 | A least element, or null exactly when empty |
| `BinHeap.Heap.DeleteMin` | apps/dedup/binheap.c:78-107 | Removes exactly one least element and returns it |
| `SearchTree.Find` | apps/dedup/tree.c:25-37 | The node with the number, or nil exactly when there is none |
| `SearchTree.Leftmost` | apps/dedup/tree.c:39-50 | The node with the least number |
| `SearchTree.FindMin` | apps/dedup/tree.c:39-50 | With pmin unset the leftmost node |
| `SearchTree.InsertNode` | apps/dedup/tree.c:62-86 | A search tree again, with one number more |
| `SearchTree.InsertLookup` | apps/dedup/tree.c:62-86 | A number already present keeps its value, every other number too |
| `SearchTree.DeleteNode` | apps/dedup/tree.c:89-123 | A search tree again, with one number less |
| `SearchTree.DeleteLookup` | apps/dedup/tree.c:89-123 | Deletion leaves every other number with its value |
| `SearchTree.Insert` | apps/dedup/tree.c:62-86 | pmin stays unset |
| `SearchTree.Delete` | apps/dedup/tree.c:89-123 | pmin stays unset |
| `ReorderBuffer.Buffer.constructor` | apps/dedup/encoder.c:763-790 | Nothing waits |
| `ReorderBuffer.Buffer.Put` | apps/dedup/encoder.c:948-970 | Tree and heaps hold one item more, under its (anchorid, cid) |
| `ReorderBuffer.Buffer.Peek` | apps/dedup/encoder.c:883-887 | The waiting item that is first in (anchorid, cid) order, or none |
| `ReorderBuffer.Buffer.Pop` | apps/dedup/encoder.c:928-943 | Exactly that item is gone, with its heap when that is empty |
| `ReorderBuffer.Buffer.Settle` | apps/dedup/encoder.c:936-941 | An anchor leaves the tree exactly when its heap is empty |
| `SendOrder.UptoIsBefore` | apps/dedup/encoder.c:876-881 | The items before the counters (anchor_count, reassemble_count) are those that come earlier in the output order |
| `SendOrder.UptoSucc` | apps/dedup/encoder.c:876-881 | Advancing the counters adds exactly the next item |
| `SendOrder.SuccIsNext` | apps/dedup/encoder.c:876-881 | The next item is an item or the end, and no item lies between |
| `SendOrder.OrderIsByPlace` | apps/dedup/encoder.c:876-881 | The item at place i of the output order is the one with i items before it |
| `SendOrder.OneListing` | apps/dedup/encoder.c:996-1045 | There is only one way to list items by increasing keys |
| `SendLoop.WriteInOrder` | apps/dedup/encoder.c:876-881 | A write on a count that is final, or beyond the item, moves the counters to the next item of the output order |
| `SendLoop.WriteEarly` | apps/dedup/encoder.c:876-881 | Leaving an anchor other than the last on a count that still grows passes over an item, and nothing holds up the next anchor |
| `SendLoop.WriteKeeps` | apps/dedup/encoder.c:876-945 | Every write keeps: in order so far, or an item has been passed over for good |
| `SendLoop.LoopKeeps` | apps/dedup/encoder.c:810-993 | So does the whole loop, for every order of arrival and all counts it may read |
| `SendLoop.OrderedIff` | apps/dedup/encoder.c:810-1046 | For every order of arrival and all counts the sender may read beside its producers: the items come out in output order if and only if every anchor but the last was left on its final count |
| `SendLoop.EachOnce` | apps/dedup/encoder.c:810-1046 | In order or not, each item comes out exactly once |
| `SendLoop.OrderedWithFinalCounts` | apps/dedup/encoder.c:1221-1225 | A sender that starts after its producers writes in output order |
| `SendLoop.EarlyLeaveFails` | apps/dedup/encoder.c:441-448 | Coarse chunks of 19, 2 and 1 chunks, the first batch of 20 ending inside the second: chunk (1, 1) comes out after chunk (2, 0) |
| `SendLoop.SentInOrderIff` | apps/dedup/encoder.c:810-1046 | Numbered by place, the chunks are sent as 0, 1, 2 and so on under exactly the same condition |
| `DedupEncoder.SeesCount` | apps/dedup/encoder.c:877-877 | In every reachable state the count that the sender reads is above every chunk of the anchor it has fetched and at most the final count |
| `DedupEncoder.AdvancesTo` | apps/dedup/encoder.c:875-885 | Reading the count of the moment and moving on keeps: in order so far, or an item passed over for good |
| `DedupEncoder.StepKeeps` | apps/dedup/encoder.c:375-1046 | Every step of chunkers, stages and sender keeps the invariant of the whole encoder |
| `DedupEncoder.RunKeeps` | apps/dedup/encoder.c:375-1046 | The invariant holds in every run, whatever the interleaving |
| `DedupEncoder.FinishedOut` | apps/dedup/encoder.c:995-1046 | After the flush every key is written once, and in output order if and only if no anchor but the last was left on a count that still grew |
| `DedupEncoder.EveryRunSends` | apps/dedup/encoder.c:1168-1224 | In every finished run every chunk was sent once, no lookup failed, the file is the archive in sending order, and that is the order of the data under the exact condition |
| `DedupEncoder.PreloadedRunIsOrdered` | apps/dedup/encoder.c:1220-1225 | If every count is read after all chunks were cut, the file is the archive of the data in order |
| `DedupProgress.NoDeadlock` | apps/dedup/encoder.c:855-857 | Until everything is flushed some thread can go on; a sender that meets an occupied entry has a compressor at work |
| `DedupProgress.WorkShrinks` | apps/dedup/encoder.c:375-1046 | Every step of every thread takes work away |
| `DedupProgress.EveryRunIsShort` | apps/dedup/encoder.c:375-1046 | No run is longer than the work there is at the start |
| `DedupProgress.EveryRunCanFinish` | apps/dedup/encoder.c:1168-1224 | Every run can be carried on until the sender has flushed everything |
| `DedupSender.WriteReady` | apps/dedup/encoder.c:883-944 | Tree, counters and output after the loop are those of the released sender, whatever counts are read |
| `DedupSender.Receive` | apps/dedup/encoder.c:827-971 | One arrival: the item is written with all it releases, or waits |
| `DedupSender.Flush` | apps/dedup/encoder.c:996-1045 | What is still waiting leaves by increasing keys and the tree is empty |
| `DedupSender.SendBlock` | apps/dedup/encoder.c:790-1046 | The output is that of the loop and the flush, for every order of arrival and every count read; it is the output order if and only if no anchor but the last was left on a count that still grew |
| `DedupSender.SendPreloaded` | apps/dedup/encoder.c:1221-1225 | With final counts the output is the output order |
| `Rabin.Fpreduce` | apps/dedup/rabin.c:26-39 | x * t^32 reduced modulo t^32 + irrpoly over GF(2) |
| `Rabin.Fpmkredtab` | apps/dedup/rabin.c:41-49 | Entry i is i * t^32 reduced |
| `Rabin.StepIsBitwise` | apps/dedup/rabin.c:95-110 | The table-driven step equals appending the byte bit by bit with reduction, for every hash and byte |
| `Rabin.AppendBitsIsByte` | apps/dedup/rabin.c:95-110 | Eight bitwise steps multiply by t^8 and add the byte |
| `Rabin.FirstByteShare` | apps/dedup/rabin.c:51-62 | The fingerprint of a string is the share of its first byte plus the fingerprint of the rest |
| `Rabin.RollIsExact` | apps/dedup/rabin.c:103-109 | Dropping and appending a byte gives the fingerprint of the shifted window if and only if the table holds the share of the byte that leaves |
| `Rabin.Fpwinreduce` | apps/dedup/rabin.c:51-62 | The share of a byte in a window of winlen bytes |
| `Rabin.Rabininit` | apps/dedup/rabin.c:64-80 | Both tables hold what their index asks for, for every winlen |
| `Rabin.Rabinseg` | apps/dedup/rabin.c:84-114 | For every table of shares: the first place in p[..n] where the hash, begun on 32 bytes and rolled with that table, has its low twelve bits zero, or n; with the table for 32 bytes the first boundary |
| `Rabin.RolledIsFingerprint` | apps/dedup/rabin.c:103-109 | With the shares of a window of 32 bytes the rolled hash is at every place the fingerprint of the last 32 bytes |
| `Rabin.CutIsSegment` | apps/dedup/rabin.c:84-114 | With that table the cut is the first place where the fingerprint of the last 32 bytes marks a boundary |
| `Rabin.ZeroWindowIsWrong` | apps/dedup/encoder.c:80-80 | The tables built with winlen 0, which the zero-initialised rf_win asks for, are not those of a window of 32 bytes |
| `DedupChunker.FindAllAnchors` | apps/dedup/encoder.c:406-478 | The chunks are non-empty, concatenate to the coarse chunk, are counted in chunks_per_anchor, and each one ends where the rolled hash of what is left first marks a cut, for every table; with tables for 32 bytes at the first boundary |
| `DedupChunker.OneCutting` | apps/dedup/encoder.c:406-478 | The bytes and the table alone determine the chunks |
| `DedupChunker.AddRemainder` | apps/dedup/encoder.c:454-478 | What lies beyond the last anchor becomes one more chunk |
| `DedupChunker.FlatConcat` | apps/dedup/encoder.c:406-478 | Cutting every coarse chunk loses and adds nothing |
| `DedupChunker.FlatIsOrdered` | apps/dedup/encoder.c:406-478 | The output order of the keys is the order of the chunks in the data |
| `DedupChunker.SentIsWhole` | apps/dedup/encoder.c:790-1046 | What the sender writes concatenates to the coarse chunks |
| `RingBuffer.Ring.constructor` | apps/dedup/queue.c:23-27 | An empty ring |
| `RingBuffer.Ring.Put` | apps/dedup/queue.c:81-90 | Appends one element |
| `RingBuffer.Ring.Take` | apps/dedup/queue.c:57-65 | Takes the oldest element |
| `RingBuffer.Ring.IsEmpty` | apps/dedup/queue.c:50-50 | head meets tail exactly when nothing is stored |
| `DedupQueue.Queue.constructor` | apps/dedup/queue.c:17-28 | An empty queue with no producer ended |
| `DedupQueue.Queue.SignalTerminate` | apps/dedup/queue.c:31-40 | One more producer has ended, the contents stay |
| `DedupQueue.Queue.Enqueue` | apps/dedup/queue.c:74-97 | A batch that fits is appended whole, last element first |
| `DedupQueue.Queue.Dequeue` | apps/dedup/queue.c:43-71 | Refused only when empty with all producers ended, else the oldest min(ITEM_PER_FETCH, size) elements |
| `DedupQueue.BatchMustFit` | apps/dedup/queue.c:77-90 | For every ring and batch: nothing is lost if and only if the queue still has a free slot afterwards |
| `DedupQueue.FullIs` | apps/dedup/queue.c:77-77 | The test that makes enqueue wait keeps one slot free, no more |
| `DedupQueue.EnqueueCanLoseAll` | apps/dedup/queue.c:77-90 | Two items in a ring of four: enqueue does not wait, adds two more, and the queue is empty |
| `DedupPipeline.ClosedMeansDone` | apps/dedup/encoder.c:154-205 | A queue that refuses has only finished producers behind it |
| `DedupPipeline.OpenWhileFed` | apps/dedup/encoder.c:306-370 | As long as a thread can put something on a queue, the queue does not refuse |
| `DedupPipeline.StepKeeps` | apps/dedup/encoder.c:375-499 | Every step of every stage keeps the invariant of the pipeline |
| `DedupPipeline.RunKeeps` | apps/dedup/encoder.c:375-499 | The invariant holds in every run |
| `DedupPipeline.EveryRunConserves` | apps/dedup/encoder.c:154-205 | In every run no chunk is lost or duplicated at any time |
| `DedupPipeline.RefusedOnlyAtTheEnd` | apps/dedup/encoder.c:810-825 | When the send queue refuses the sender, it has every chunk, all queues are empty and all threads have ended |
| `DedupPipeline.NothingAfterTheEnd` | apps/dedup/encoder.c:485-497 | After that no step is possible |
| `DedupStages.ReadInto` | apps/dedup/encoder.c:735-738 | Putting a coarse chunk on the queue is a read step of the pipeline |
| `DedupStages.FetchFrom` | apps/dedup/encoder.c:323-330 | Asking a queue is a fetch step of exactly the items got, or a refusal |
| `DedupStages.EmitTo` | apps/dedup/encoder.c:346-347 | Putting a batch on a queue is an emit step that takes the batch from what the thread holds |
| `DedupStages.EndOf` | apps/dedup/encoder.c:368-368 | The signal at the end of a thread is its end step |
| `DedupStages.EndReading` | apps/dedup/encoder.c:752-755 | The signal at the end of the input is the end of reading |
| `DedupStages.SendFrom` | apps/dedup/encoder.c:817-823 | What the sender dequeues is a send step; it is refused only by a closed queue |
| `DedupGroups.DoesKeeps` | apps/dedup/encoder.c:810-825 | Every step of every group and of the sender keeps: the groups that refused last are still closed |
| `DedupGroups.StopsOnlyAtTheEnd` | apps/dedup/encoder.c:810-825 | In every run over several groups: when the sender stops it has every chunk of every group, and no step is possible any more |
| `DedupGroups.ThreadsPerQueue` | apps/dedup/encoder.c:1075-1093 | Every thread has a queue, and every queue counts exactly the threads that use it, the last one with fewer included |
| `DedupDecoder.RecvBlock` | apps/dedup/decoder.c:305-424 | Data goes to the decompressor, fingerprints to the cache check, each in file order; there is no error if and only if the records are numbered 0, 1, 2 and so on |
| `DedupDecoder.Dispatch` | apps/dedup/decoder.c:340-399 | One record goes to the ring its type names, unless it is empty |
| `DedupDecoder.Decompress` | apps/dedup/decoder.c:92-147 | Every data record becomes a piece and enters the cache under its digest |
| `DedupDecoder.CheckCache` | apps/dedup/decoder.c:50-90 | Every fingerprint becomes the content stored under it; the search loop ends |
| `DedupDecoder.ListInsert` | apps/dedup/decoder.c:151-177 | The list stays strictly ascending with exactly one element more |
| `DedupDecoder.Accept` | apps/dedup/decoder.c:179-300 | A chunk is written or listed; what is out is always a prefix of the file |
| `DedupDecoder.WriteListed` | apps/dedup/decoder.c:231-240 | The listed chunks that are next in order are written |
| `DedupDecoder.WriteRest` | apps/dedup/decoder.c:283-296 | What is still listed is written |
| `DedupDecoder.Reassemble` | apps/dedup/decoder.c:179-300 | For every order in which the pieces arrive the output is the concatenation of the chunks |
| `DedupRoundTrip.PrintsAreCached` | apps/dedup/decoder.c:62-69 | Every fingerprint of an archive finds its data in the cache |
| `DedupRoundTrip.PiecesComplete` | apps/dedup/decoder.c:50-147 | Opened data and found fingerprints together make up every chunk, each once |
| `DedupRoundTrip.Decode` | apps/dedup/decoder.c:427-440 | Decoding an archive gives back the chunks |
| `DedupRoundTrip.DecodeEveryRun` | apps/dedup/decoder.c:427-440 | Whatever the interleaving of the encoder's stages, decoding what it wrote gives back the chunks in the order they were sent |
| `DedupRoundTrip.RoundTrip` | apps/dedup/decoder.c:427-440 | In every finished run of the whole encoder, on coarse chunks cut anywhere: decoding gives back the chunks in sending order; they were sent in order if and only if no anchor but the last was left too early, and then decoding gives back the coarse chunks |
| `StreamSpec.ByCentreIsByPoint` | apps/streamcluster/streamcluster.cpp:1047-1102 | For any centres that close: adding up the forced moves centre by centre is adding them up point by point |
| `StreamSpec.ClosingSaves` | apps/streamcluster/streamcluster.cpp:1079-1102 | For any centres that close: they save their fixed cost and what their points add |
| `StreamSpec.CostMoves` | apps/streamcluster/streamcluster.cpp:1123-1143 | For any centres that close: every point at its own centre or x, whichever is cheaper and open, costs what the switches and the forced moves say |
| `StreamSpec.RearrangedIs` | apps/streamcluster/streamcluster.cpp:955-1164 | Opening x and closing any centres changes the total cost by z, what the switches gain and what those centres save |
| `StreamSpec.OpeningIsTrue` | apps/streamcluster/streamcluster.cpp:955-1164 | Opening x changes the true total cost by exactly gl_cost_of_opening_x |
| `StreamSpec.GainIsTrue` | apps/streamcluster/streamcluster.cpp:955-1164 | The returned gain is exactly the decrease of the true total cost, is never negative, and zero means nothing changed |
| `StreamSpec.StepCosts` | apps/streamcluster/streamcluster.cpp:1047-1143 | After a step that opens x: a point whose centre is still open costs the smaller of its old cost and weight * distance to x, any other one weight * distance to x |
| `StreamSpec.OpeningIsLeast` | apps/streamcluster/streamcluster.cpp:1079-1102 | Whatever set of centres is closed instead, the total cost is at least the one that gl_cost_of_opening_x says |
| `StreamSpec.StepIsBest` | apps/streamcluster/streamcluster.cpp:955-1164 | No solution that opens x, closes some centres, and leaves each point where it was or puts it at x is cheaper than the step, and the step is never dearer than before |
| `StreamSpec.CentreReopens` | apps/streamcluster/streamcluster.cpp:1079-1102 | A centre that is offered again closes and opens again, so the count stays right |
| `StreamSpec.StepKeepsSound` | apps/streamcluster/streamcluster.cpp:955-1164 | Every call keeps: points at open centres, cost = weight * distance, count = number of flags |
| `StreamSpec.DuplicateCloses` | apps/streamcluster/streamcluster.cpp:1079-1102 | A point at distance zero from its centre makes that centre close |
| `StreamSpec.StepKeepsSelfServing` | apps/streamcluster/streamcluster.cpp:955-1164 | Every call keeps: each open centre is assigned to itself at no cost |
| `StreamBlocks.BlockBounds` | apps/streamcluster/streamcluster.cpp:963-966 | The blocks of the threads lie within the points and meet end to end |
| `StreamBlocks.BlockSizes` | apps/streamcluster/streamcluster.cpp:963-966 | All blocks but the last have n / P points, the last one fewer than P more |
| `StreamBlocks.BlocksDisjoint` | apps/streamcluster/streamcluster.cpp:963-966 | No two threads share a point |
| `StreamBlocks.BlockOf` | apps/streamcluster/streamcluster.cpp:963-966 | Every point lies in the block of some thread |
| `StreamBlocks.BlockSumsAre` | apps/streamcluster/streamcluster.cpp:1109-1116 | Adding up per thread gives the sum over all points for every number of threads |
| `StreamBlocks.RanksApart` | apps/streamcluster/streamcluster.cpp:996-1036 | Numbers of different centres differ |
| `StreamTable.CountBlock` | apps/streamcluster/streamcluster.cpp:1002-1008 | The centres of one block are numbered from zero |
| `StreamTable.CountAll` | apps/streamcluster/streamcluster.cpp:1002-1012 | The same for all blocks, threads in any order |
| `StreamTable.Accumulate` | apps/streamcluster/streamcluster.cpp:1014-1021 | Thread 0 finds the number of the first centre of each block |
| `StreamTable.ShiftBlock` | apps/streamcluster/streamcluster.cpp:1027-1036 | Final numbers for one block, clean flags and a clean row |
| `StreamTable.ShiftAll` | apps/streamcluster/streamcluster.cpp:1027-1036 | The same for all blocks, threads in any order |
| `StreamGain.LowerBlock` | apps/streamcluster/streamcluster.cpp:1047-1073 | One thread's switches, its share of the cost of opening and of what each centre would lose |
| `StreamGain.LowerAll` | apps/streamcluster/streamcluster.cpp:1047-1073 | The same for all threads in any order |
| `StreamGain.SumColumn` | apps/streamcluster/streamcluster.cpp:1084-1089 | low of a centre is z plus the shares of all threads |
| `StreamGain.CloseBlock` | apps/streamcluster/streamcluster.cpp:1079-1102 | The centres of one block that close, and what that saves |
| `StreamGain.CloseAll` | apps/streamcluster/streamcluster.cpp:1079-1102 | The same for all threads in any order |
| `StreamGain.Aggregate` | apps/streamcluster/streamcluster.cpp:1109-1116 | The sum over the threads is the cost of opening x and the number of centres to close |
| `StreamGain.AllDecided` | apps/streamcluster/streamcluster.cpp:1079-1102 | The blocks together decide for every centre |
| `StreamGain.ApplyBlock` | apps/streamcluster/streamcluster.cpp:1123-1143 | The points and centres of one block after the step |
| `StreamGain.ApplyAll` | apps/streamcluster/streamcluster.cpp:1123-1143 | The whole solution after the step, threads in any order |
| `StreamGain.BuildTable` | apps/streamcluster/streamcluster.cpp:996-1036 | Every open centre has a number of its own below K, flags and rows are clean |
| `StreamGain.Decide` | apps/streamcluster/streamcluster.cpp:1047-1116 | The cost of opening x, the number of centres that close, and which ones |
| `StreamGain.Pgain` | apps/streamcluster/streamcluster.cpp:955-1164 | For every number of threads in every order the arrays hold the sequential step, and the result is its gain |
| `StreamGain.StrideIsLeast` | apps/streamcluster/streamcluster.cpp:976-981 | The row of a thread is the least number of whole cache lines that holds all centres and two more |
| `StreamSpeedy.SpeedyOpen` | apps/streamcluster/streamcluster.cpp:767-795 | Opening a centre at a point that pays keeps every point at its cheapest open centre |
| `StreamSpeedy.OfferAll` | apps/streamcluster/streamcluster.cpp:728-786 | Offering a centre to all points, threads in any order |
| `StreamSpeedy.AddCosts` | apps/streamcluster/streamcluster.cpp:809-824 | The cost of all blocks together is the total cost |
| `StreamSpeedy.Pspeedy` | apps/streamcluster/streamcluster.cpp:706-832 | Every point at its cheapest open centre, every centre at itself, the count right, and the true total cost returned; a point is opened if and only if it is the first or its coin times z is below the cost of serving it from every earlier open point |
| `StreamSpeedy.MarkCentres` | apps/streamcluster/streamcluster.cpp:1567-1569 | The flags mark exactly the open centres |
| `StreamFL.StepIsGood` | apps/streamcluster/streamcluster.cpp:1236-1239 | A step keeps everything the next step needs |
| `StreamFL.Round` | apps/streamcluster/streamcluster.cpp:1236-1240 | The solution left is the step on the points of feasible in turn, iter of them, starting over when they run out; the change is the sum of their gains and the true decrease |
| `StreamFL.QuietRoundIsOptimal` | apps/streamcluster/streamcluster.cpp:1236-1240 | If a round tries every point and gains nothing, no opening of any of them, whatever is closed and moved to it, gives a cheaper solution |
| `StreamFL.PFL` | apps/streamcluster/streamcluster.cpp:1210-1246 | The solution left is that of the rounds taken, each begun only while the last change over the cost was above e and none left out while it was; the cost carried along is the true total cost and never grows |
| `StreamFL.Retuned` | apps/streamcluster/streamcluster.cpp:1595-1606 | Changing z changes the true total cost by the change times k |
| `StreamFL.Search` | apps/streamcluster/streamcluster.cpp:1564-1618 | The passes it makes: each a rough search, a finer one if the number of centres is within a tenth or two of the wanted ones, at the middle of a bracket that the next pass halves, until it is settled or cut off; the carried cost stays the true total cost |
| `StreamFL.Narrow` | apps/streamcluster/streamcluster.cpp:1595-1606 | The next bracket and its middle, with the carried cost still the true total cost |
| `StreamFL.BracketMeans` | apps/streamcluster/streamcluster.cpp:1595-1606 | The bracket ends below at 0 or a centre cost that left more than kmax centres, and above at the start or one that left fewer than kmin |
| `StreamMedian.FirstCost` | apps/streamcluster/streamcluster.cpp:1508-1524 | The first centre cost is the cost of serving all points from the first one, for every number of threads |
| `StreamMedian.Speedies` | apps/streamcluster/streamcluster.cpp:1541-1557 | As many tries as are needed for kmin centres and no more; the one that counts leaves every point at its cheapest open centre, opened by its coins, and the true cost for its centre cost |
| `StreamMedian.TryCostIs` | apps/streamcluster/streamcluster.cpp:1541-1557 | The centre cost of try t is the first one over 2^t |
| `StreamMedian.AllCentres` | apps/streamcluster/streamcluster.cpp:1526-1539 | With no more points than kmax every point is its own centre at no cost |
| `StreamMedian.Pkmedian` | apps/streamcluster/streamcluster.cpp:1481-1629 | From the raw points: where the search begins and the passes it makes, a sound solution of the reordered points at the end, and the returned cost is its true total cost |
| `PathQueue.PQueue.constructor` | apps/pfscan/pqueue.c:26-46 | An empty open queue |
| `PathQueue.PQueue.Close` | apps/pfscan/pqueue.c:49-66 | Closed, contents untouched |
| `PathQueue.PQueue.Put` | apps/pfscan/pqueue.c:69-112 | A call that found the queue open is appended, even if it slept through a close; any other call is refused exactly when the queue is closed |
| `PathQueue.PQueue.Get` | apps/pfscan/pqueue.c:115-162 | Refused exactly when empty (then it is closed), else the oldest element |
| `PfscanRun.StepKeeps` | apps/pfscan/pfscan.c:494-520 | Every step of main and of a worker keeps the invariant |
| `PfscanRun.RunKeeps` | apps/pfscan/pfscan.c:494-520 | The invariant holds in every run |
| `PfscanRun.QueueIsFifo` | apps/pfscan/pqueue.c:49-162 | In every run paths leave in the order they went in, each once |
| `PfscanRun.NoLostWakeup` | apps/pfscan/pqueue.c:115-162 | A getter sleeps only while the queue is open, and next to items only when another getter is awake |
| `PfscanRun.NoDeadlock` | apps/pfscan/pfscan.c:705-755 | Until main returns some thread can go on without a spurious wakeup |
| `PfscanRun.WorkShrinks` | apps/pfscan/pfscan.c:494-520 | Every step other than a spurious wakeup takes work away, so main returns after finitely many |
| `PfscanRun.FinishedMeansAllScanned` | apps/pfscan/pfscan.c:705-755 | When main returns every queued path was taken once and scanned, all workers are gone and n_matches is the full total |
| `PfscanQueue.PutNext` | apps/pfscan/pfscan.c:432-444 | Putting the next path is a put step, whether main had to wait for room or not |
| `PfscanQueue.GetNext` | apps/pfscan/pfscan.c:500-500 | Getting a path is a take step of that path, or a refusal |
| `PfscanQueue.CloseQueue` | apps/pfscan/pfscan.c:731-731 | Closing the queue is the close step |
| `FftOnce.RevTwice` | apps/fft/fft.c:659-676 | Reversing the bits twice is the identity |
| `FftOnce.RevFromTop` | apps/fft/fft.c:659-676 | The reversal built from the low bit is the reversal built from the high bit |
| `FftOnce.BitReverse` | apps/fft/fft.c:659-676 | The M low bits of k, reversed |
| `FftOnce.Reverse` | apps/fft/fft.c:964-980 | Every entry of the row ends at its reversed index |
| `FftSpec.Butterfly` | apps/fft/fft.c:1010-1031 | A transform of twice the length from the transforms of the even and the odd entries |
| `FftOnce.ButterflyStage` | apps/fft/fft.c:1016-1029 | One butterfly turns two entries of stage q into two entries of stage q + 1 |
| `FftOnce.ButterflyBlock` | apps/fft/fft.c:1014-1029 | The same for one block, in place |
| `FftOnce.Round` | apps/fft/fft.c:1011-1030 | The same for the whole row |
| `FftOnce.FFT1DOnce` | apps/fft/fft.c:983-1032 | The row holds its 2^M-point transform, every other row is untouched |
| `FftTables.InitU` | apps/fft/fft.c:614-636 | The table, cut off at rootN entries, holds every root a transform of rootN points reads |
| `FftTables.InitU2` | apps/fft/fft.c:639-656 | Entry (j, i) is the root of order N to the power j * i |
| `FftSixStep.ThreeRoots` | apps/fft/fft.c:679-793 | The exponents of the three factors add up to that of the long transform, up to whole turns |
| `FftSixStep.SumByColumns` | apps/fft/fft.c:679-793 | A long sum is the sum over columns of the sums over rows |
| `FftSixStep.SixSteps` | apps/fft/fft.c:679-793 | Transform, multiply by the roots, transform again gives every entry of the N-point transform |
| `FftTranspose.CopyBlock` | apps/fft/fft.c:896-903 | One square block is transposed, nothing else changes |
| `FftTranspose.CopyStrip` | apps/fft/fft.c:893-907 | The blocks of a strip together transpose the square they reach, nothing else changes |
| `FftTranspose.Transpose` | apps/fft/fft.c:844-945 | Exactly which entries a thread writes, and with what, for every cache size |
| `FftTranspose.ReachesAllIff` | apps/fft/fft.c:870-885 | The blocks reach all rows of a thread if and only if their number divides the rows |
| `FftTranspose.BlocksFitCache` | apps/fft/fft.c:878-880 | The number of blocks is the least one of which the rows, twice over, fit the cache lines |
| `FftTranspose.RowsCanBeMissed` | apps/fft/fft.c:870-885 | 16 points, one thread, three cache lines: the last of four rows is left out |
| `FftTranspose.TransposesAllIff` | apps/fft/fft.c:844-945 | Every entry of the matrix is written by its owner if and only if the number of blocks divides the rows of a thread |
| `FftParallel.ShareIsStrip` | apps/fft/fft.c:497-498 | MyFirst and MyLast are the ends of the strip the transpose works on |
| `FftParallel.TwiddleOneCol` | apps/fft/fft.c:796-825 | Every entry of the row is multiplied by its root, other rows stay |
| `FftParallel.Scale` | apps/fft/fft.c:828-841 | Every entry of the row is divided by N, other rows stay |
| `FftParallel.CopyOwn` | apps/fft/fft.c:948-961 | The rows of a thread are copied, other rows stay |
| `FftParallel.ColumnsPart` | apps/fft/fft.c:720-739 | A thread's share up to the second barrier; only its own rows change |
| `FftParallel.RowsPart` | apps/fft/fft.c:748-761 | A thread's share up to the third barrier; only its own rows change |
| `FftParallel.AllColumns` | apps/fft/fft.c:720-743 | All threads, in any order |
| `FftParallel.AllMixed` | apps/fft/fft.c:748-765 | All threads, in any order |
| `FftParallel.AllTransposed` | apps/fft/fft.c:771-781 | All threads, in any order |
| `FftParallel.AllCopied` | apps/fft/fft.c:783-788 | All threads, in any order |
| `FftParallel.SixStepsInOrder` | apps/fft/fft.c:771-772 | The last transpose puts the long transform in natural order |
| `FftParallel.FFT1D` | apps/fft/fft.c:679-793 | For every number of threads in every order the matrix holds the N-point transform of the input in natural order (divided by N on the way back) |
| `FftInverse.PowersCancel` | apps/fft/fft.c:828-841 | The powers of a root other than one add up to zero |
| `FftInverse.Orthogonal` | apps/fft/fft.c:828-841 | Forward and backward roots are orthogonal |
| `FftInverse.OnCircle` | apps/fft/fft.c:796-825 | Roots of unity lie on the unit circle |
| `FftInverse.ConjugateIsRoot` | apps/fft/fft.c:796-825 | Changing the sign of the imaginary parts, as direction -1 does, gives roots again |
| `FftInverse.ConjugateInverts` | apps/fft/fft.c:796-825 | These are the inverses |
| `FftInverse.BackAndForth` | apps/fft/fft.c:756-761 | The backward transform of the forward transform is N times the input |
| `FftInverse.RoundTrip` | apps/fft/fft.c:756-761 | Divided by N it is the input |
| `FftParallel.TestRun` | apps/fft/fft.c:518-526 | The forward and the backward transform over all threads give back the input |
| `RanUnif.Schrage` | apps/swaptions/RanUnif.cpp:18-22 | The two-step product lies strictly between -(2^31 - 1) and 2^31 - 1 and is right modulo 2^31 - 1 |
| `RanUnif.Draw` | apps/swaptions/RanUnif.cpp:13-28 | The next state is 16807 * s modulo 2^31 - 1, without leaving 31 bits and a sign |
| `RanUnif.ValueIsUniform` | apps/swaptions/RanUnif.cpp:24-25 | The number drawn lies strictly between 0 and 1 and is proportional to the state |
| `RanUnif.OneBefore` | apps/swaptions/RanUnif.cpp:18-22 | Different states lead to different states |
| `RanUnif.NeverZero` | apps/swaptions/RanUnif.cpp:18-22 | A state other than 0 never leads to 0 |
| `RanUnif.NeverStuck` | apps/swaptions/RanUnif.cpp:13-28 | Whatever the number of draws |
| `SwapPaths.DrawShocks` | apps/swaptions/HJM.cpp:222-223 | The shocks of one step, in the order of the generator |
| `SwapPaths.MoveCurve` | apps/swaptions/HJM.cpp:225-232 | One row of the path by the formula, other rows stay |
| `SwapPaths.SimPathForward` | apps/swaptions/HJM.cpp:188-238 | The path that the formula gives for the drawn numbers, and the state of the generator after it |
| `SwapPaths.PathIs` | apps/swaptions/HJM.cpp:217-232 | Entry (j, l) in closed form: forward[l + j] plus, for every step k up to j, the drift at maturity l + j - k times dt and the root times the weighted shocks number (k - 1) * factors + 1 to k * factors |
| `SwapPaths.BeginsIs` | apps/swaptions/HJM.cpp:217-232 | Path b begins after b * (N - 1) * factors numbers |
| `SwapBlocks.CellApart` | apps/swaptions/HJM_SimPath_Forward_Blocking.cpp:102-109 | No two entries of the interleaved paths share a column |
| `SwapBlocks.DrawBlocks` | apps/swaptions/HJM_SimPath_Forward_Blocking.cpp:112-125 | The random numbers of all paths, in the order of single calls |
| `SwapBlocks.SerialB` | apps/swaptions/HJM_SimPath_Forward_Blocking.cpp:60-71 | Every number from the first step on is turned into a shock |
| `SwapBlocks.MoveBlockCurve` | apps/swaptions/HJM_SimPath_Forward_Blocking.cpp:147-156 | One row of one path, other rows and paths stay |
| `SwapBlocks.MoveBlocks` | apps/swaptions/HJM_SimPath_Forward_Blocking.cpp:142-158 | All rows of all paths |
| `SwapBlocks.ResetBlocks` | apps/swaptions/HJM_SimPath_Forward_Blocking.cpp:98-109 | The first curve above zeroes in every path |
| `SwapBlocks.SimPathForwardBlocking` | apps/swaptions/HJM_SimPath_Forward_Blocking.cpp:73-165 | For every BLOCKSIZE, path b is the path HJM_SimPath_Forward draws after b earlier calls, and the generator ends where BLOCKSIZE calls leave it |
| `SwapBlocks.SeriesOfCalls` | apps/swaptions/HJM.cpp:188-238 | The states in which the paths of a series begin are chained |
| `SwapDiscount.DiscountFactors` | apps/swaptions/HJM.cpp:309-330 | The factor of every step is the product over the earlier steps |
| `SwapDiscount.FactorOfSum` | apps/swaptions/HJM.cpp:309-330 | With an exponential the factor of step i is that of the sum of the first i rates |
| `SwapDiscount.DiscountFactorsBlocking` | apps/swaptions/HJM.cpp:367-405 | The same for every path of a block |
| `SwapDiscount.SameFactors` | apps/swaptions/HJM.cpp:367-405 | Path by path the blocked factors are those of the plain form on that path alone |
| `SwapDrifts.FactorDrifts` | apps/swaptions/HJM.cpp:158-174 | Up to every maturity the drifts of a factor add up to half the time step times the squared sum of its volatilities |
| `SwapDrifts.DriftIs` | apps/swaptions/HJM.cpp:158-174 | Each drift is dt times its volatility times the sum of the shorter ones and half of it |
| `SwapDrifts.TotalDrifts` | apps/swaptions/HJM.cpp:145-186 | Up to every maturity the total drifts add up to those convexities over all factors |

## Left out

- Rounding of floating point, and 32-bit overflow of the digit mask, of counters and of sizes, apart from `product_mod_46` and `RanUnif`, whose intermediate values are bounded.
- Allocation failure, `free`, file and directory reading, option parsing, printing, timing and statistics.
- `DataProcess` of the encoder: the model starts from the coarse chunks it produces.
- SHA-1 and zlib themselves: a digest without collisions on the chunks at hand, and a pair of functions that invert each other.
- The encoder's compression ways other than gzip, which store nothing in the cache.
- `hashtable_expand`, `hashtable_remove` and the bit scrambling in `hash`, which is any function here.
- Liveness of the encoder's pipeline when its queues are full: in `DedupProgress` a stage never waits for room.
- The unused TBB and serial variants, `hashtable` chains as linked nodes, and the decoder's list as linked nodes: these are sequences here, so aliasing of nodes is not captured.
- The search tree of `apps/dedup/tree.c` is a value: in-place update of nodes is not captured.
- `InitX` of the Fourier transform, the padding of rows, and `TouchArray`.
- `selectfeasible_fast`, `dist`, the outer stream of `apps/streamcluster` and the number of rounds its searches take: any rounds cut off anywhere are covered.
- `apps/swaptions` beyond paths, drifts and discount factors: payoffs and averaging are plain formulas.
- DedupRoundTrip.Decode: runs the decoder's stages one after the other with rings that do not fill; the order in which pieces reach `Reassemble` is arbitrary in `DedupDecoder.Reassemble`.
- DedupEncoder.EveryRunSends: a chunk may go on as soon as it is cut, while the source hands chunks on in batches of 20; so the machine has all runs of the source and more, and the failing run that batches of 20 allow is in `SendLoop.EarlyLeaveFails`.
- DedupQueue.Queue.Enqueue: asks that the batch fits, which the source does not check; `DedupQueue.BatchMustFit` says what happens otherwise.
- RadixSort.RadixSorts: asks for a power-of-two number of processors and a radix that is a power of two, at least 2.
- BoyerMoore.BM.Search: asks for a text at least as long as the pattern, because the source subtracts the lengths as unsigned numbers.
- LuKernels.Lu0: blocks are two-dimensional arrays; the strides of the column-major storage are in `LuLayout`. The same holds for the other kernels.
- StreamFL.Search: asks for positive weights and for distances that are zero from a point to itself, never negative, and equal from points at distance zero, as squared Euclidean distances are.
- PfscanRun.FinishedMeansAllScanned: asks for at least one worker.
- DedupDecoder.CheckCache: asks that every fingerprint has its data in the cache, without which the source's search loop does not end; `DedupRoundTrip.PrintsAreCached` shows it of every archive.
- StreamMedian.Pkmedian: asks that some point differs from the first one, without which the first centre cost is zero and the source divides by it.
- FftParallel.TestRun: asks the same as FFT1D below.
- FftParallel.FFT1D: asks that the number of blocks divides the rows of a thread, which `FftTranspose.TransposesAllIff` shows is needed.
- SwapPaths.SimPathForward: takes the time step and its square root as given numbers.
