# Pairwise sum with a partitioned outer loop — a Dafny model

The modelled system computes the pairwise sum of two arrays. Given `arr1`
(npts1 values) and `arr2` (npts2 values), the result has npts1 · npts2 slots.
Slot `i*npts2 + j` holds `arr1[i] + arr2[j]`. It has three pieces:

- `parallelization_indices(L, W)` splits an outer loop of length L among W
  requested workers. It returns an effective worker count and an ordered list
  of half-open `(first, last)` ranges. The three cases are one worker, more
  workers than indices (one index each), and numpy `array_split` with empty
  chunks filtered out.
- `pairwise_sum_python` and `serial_pairwise_sum_python` are double-loop kernels.
  Each fills a zero array in place. The serial one can be limited to a
  sub-range of outer indices, and then every other slot stays zero.
- `parallel_pairwise_sum_python` partitions the outer loop, runs the kernel
  once per range and adds the full-length partial arrays element by element.
  With at most one effective worker it runs the kernel on the first range
  instead.

The model has four modules, one per source file plus one for the shared
formula:

- `ParallelHelpers` (`parallel_helpers.dfy`): the partitioner. It is a pure
  function returning a `Plan(workers, ranges)`. The `Tiles` predicate says the
  ranges are ascending and contiguous and cover `[0, L)`.
- `PairwiseSpec` (`pairwise_spec.dfy`): the formula as values. `Flat(i, j, n2)`
  is `i*n2 + j`. `Block(a, b, first, last)` is the output of the kernel limited
  to `[first, last)`. `Pairwise(a, b)` is an independent definition of the full
  result, built by joining the rows together. The module also proves the index
  arithmetic (a bijection) and how outputs combine.
- `PairwiseSumPython` (`pairwise_sum_python.dfy`): the full kernel. It is a
  method that fills a zero-initialised `array<int>` with two nested loops.
- `PairwisePython` (`pairwise_python.dfy`): the sub-range kernel, as a method
  over an array. The orchestration is a pure function: an ordered map of the
  kernel's specification over the ranges, then an element-wise fold.

The central theorem is `PairwisePython.WorkerCountInvariance`. For every
thread count W ≥ 1, the parallel computation returns the full pairwise sum.
The one exception is an empty outer array with W > 1, where the source fails.

The source does not concatenate per-range slices. Each partial result is a
full-length array that is zero outside its range, and the partials are added
element by element (`pairwise_python.py:99`). `BlockSplit` and
`SumOfTiledParts` show that this equals the kernel's output over the union of
the ranges.

## Model

| member | source | states |
|---|---|---|
| `ParallelHelpers.ParallelizationIndices` | parallel_helpers.py:45-53 | the ranges tile [0, L); the worker count equals the number of ranges and never exceeds W; with W ≥ 2 every range is non-empty; W == 1 gives exactly (1, [(0, L)]), even for L == 0; W ≥ 2 and W > L gives count L; 1 < W ≤ L gives count W |
| `ParallelHelpers.Clamped` | parallel_helpers.py:47-48 | with W ≥ 2 and W > L the result is (L, [(0,1), (1,2), …, (L-1,L)]), and (0, []) when L == 0 |
| `ParallelHelpers.Balanced` | parallel_helpers.py:50-53 | with 1 < W ≤ L there are exactly W ranges; range t starts at t·(L div W) + min(t, L mod W); the first L mod W ranges have L div W + 1 indices and the rest have L div W |
| `ParallelHelpers.SplitBoundClosedForm` | parallel_helpers.py:50 | adding up the array_split chunk sizes (L div W, plus one for each of the first L mod W chunks) puts chunk k at k·(L div W) + min(k, L mod W) |
| `ParallelHelpers.SplitBoundEnds` | parallel_helpers.py:50 | the array_split chunks start at 0, and the last one ends at L |
| `ParallelHelpers.ChunkSizePositive` | parallel_helpers.py:50 | when W ≤ L each of the W array_split chunks has at least one index |
| `ParallelHelpers.SectionsTile` | parallel_helpers.py:50-52 | the array_split chunks from chunk k on tile [start of chunk k, L) |
| `ParallelHelpers.SectionsAt` | parallel_helpers.py:50 | there are W − k chunks from chunk k on, and chunk k + t is the range between boundaries k + t and k + t + 1 |
| `ParallelHelpers.SectionsNonEmpty` | parallel_helpers.py:50-51 | when W ≤ L there are W chunks, none is empty, and the filter at line 51 returns them unchanged |
| `ParallelHelpers.NonEmpty` | parallel_helpers.py:51 | the filter returns no more ranges than it is given, each returned range has first < last, and each is one of its inputs |
| `ParallelHelpers.NonEmptyKeepsEveryNonEmpty` | parallel_helpers.py:51 | every input range with first < last is among the ranges the filter returns; with `NonEmpty`'s own contract, the filter keeps exactly the non-empty ranges |
| `ParallelHelpers.NonEmptyKeepsNonEmpty` | parallel_helpers.py:51 | a filter over ranges that are all non-empty returns them unchanged |
| `ParallelHelpers.NonEmptyTiles` | parallel_helpers.py:51-52 | removing empty ranges from a tiling of [lo, hi) leaves a tiling of [lo, hi) |
| `ParallelHelpers.UnitsTile` | parallel_helpers.py:48 | the one-index ranges from a to L tile [a, L) |
| `ParallelHelpers.UnitsAt` | parallel_helpers.py:48 | there are L − a one-index ranges from a to L, and the t-th is (a + t, a + t + 1) |
| `ParallelHelpers.TilesOrdered` | parallel_helpers.py:45-53 | every range of a tiling lies inside [lo, hi), and an earlier range ends no later than a later one starts, so the ranges are ascending and pairwise disjoint |
| `ParallelHelpers.TilesCover` | parallel_helpers.py:45-53 | every index of [lo, hi) lies in some range of a tiling |
| `ParallelHelpers.TilesPartition` | parallel_helpers.py:45-53 | every index of [lo, hi) lies in exactly one range of a tiling |
| `ParallelHelpers.ExampleTwoWorkers` | test_parallelization_indices.py:10-19 | (10, 2) gives (2, [(0,5), (5,10)]) |
| `ParallelHelpers.ExampleOneWorker` | test_parallelization_indices.py:22-31 | (10, 1) gives (1, [(0,10)]) |
| `ParallelHelpers.ExampleThreeWorkers` | test_parallelization_indices.py:34-43 | (10, 3) gives (3, [(0,4), (4,7), (7,10)]) |
| `ParallelHelpers.ExampleMoreWorkersThanWork` | test_parallelization_indices.py:46-55 | (3, 4) gives (3, [(0,1), (1,2), (2,3)]) |
| `PairwiseSpec.DivModOfFlat` | pairwise_python.py:38-39 | for j < npts2, index i·npts2 + j divided by npts2 gives i, with remainder j |
| `PairwiseSpec.RowOrder` | pairwise_python.py:50-54 | index i·npts2 + j lies at or after the start of row m exactly when m ≤ i |
| `PairwiseSpec.FlatInRange` | pairwise_python.py:54-55 | for i < npts1 and j < npts2 the written index i·npts2 + j is below npts1·npts2, so every write is in bounds |
| `PairwiseSpec.Unflat` | pairwise_sum_python.py:26-27 | every k < npts1·npts2 equals (k div npts2)·npts2 + k mod npts2, with k div npts2 < npts1; so every slot is written by some (i, j) |
| `PairwiseSpec.FlatInjective` | pairwise_sum_python.py:44-45 | two (i, j) pairs with j < npts2 that give the same flat index are equal, so no slot is written twice |
| `PairwiseSpec.BlockAt` | pairwise_python.py:43-55 | slot i·npts2 + j of the kernel output for [first, last) is arr1[i] + arr2[j] when first ≤ i < last and 0 otherwise |
| `PairwiseSpec.PairwiseAt` | pairwise_sum_python.py:38-45 | slot i·npts2 + j of the full result is arr1[i] + arr2[j] |
| `PairwiseSpec.PairwiseAtFlat` | pairwise_sum_python.py:26-27 | slot k of the full result is arr1[k div npts2] + arr2[k mod npts2] |
| `PairwiseSpec.FullBlock` | pairwise_python.py:45-55 | the kernel over the whole outer range [0, npts1) equals the full pairwise sum, so no zero of the initial array survives |
| `PairwiseSpec.BlockEmpty` | pairwise_python.py:50 | an outer range with last ≤ first leaves the zero array unchanged |
| `PairwiseSpec.BlockSplit` | pairwise_python.py:99 | the element-wise sum of the outputs for [lo, mid) and [mid, hi) is the output for [lo, hi) |
| `PairwiseSumPython.PairwiseSum` | pairwise_sum_python.py:35-47 | the in-place double loop returns an array of length npts1·npts2 equal to the full pairwise sum; its loop invariant says rows before i are filled and all later slots are still 0 |
| `PairwiseSumPython.ZeroInnerRepeats` | test_pairwise_python.py:10-16 | with an all-zero inner array the result is the outer array with each element repeated npts2 times in a row |
| `PairwiseSumPython.ExampleZeroInner` | test_pairwise_python.py:13-16 | (1, 2, 3, 4) with seven zeros gives each value repeated seven times |
| `PairwiseSumPython.ExampleSmall` | test_pairwise_python.py:19-25 | (1, 2, 3) and (4, 5, 6) give (5, 6, 7, 6, 7, 8, 7, 8, 9) |
| `PairwisePython.SerialPairwiseSum` | pairwise_python.py:42-57 | the result has length npts1·npts2; rows in [first, last) hold arr1[i] + arr2[j] and every other slot is 0; the bounds are (0, npts1) without loop indices; the slots written are first·npts2, first·npts2 + 1, …, last·npts2 − 1 in increasing order, each written once (none if last ≤ first) |
| `PairwisePython.MapEngine` | pairwise_python.py:94-98 | the ordered map gives one partial result per range, each of length npts1·npts2 |
| `PairwisePython.SumAxis0` | pairwise_python.py:99 | the element-wise sum of partial results of length n has length n |
| `PairwisePython.ParallelPairwiseSum` | pairwise_python.py:87-104 | the call fails exactly when arr1 is empty and more than one thread is requested, because it reads list_of_tuples[0] from an empty list; otherwise the result has length npts1·npts2 |
| `PairwisePython.NoIndicesIsFull` | pairwise_python.py:45-46 | the sub-range kernel called without loop indices computes the same full pairwise sum as pairwise_sum_python |
| `PairwisePython.SumOfTiledParts` | pairwise_python.py:96-99 | the element-wise sum of the zero-padded partial results for ranges that tile [lo, hi) is the kernel output for [lo, hi) |
| `PairwisePython.WorkerCountInvariance` | pairwise_python.py:87-104 | for every thread count W ≥ 1 the result is the full pairwise sum, except an IndexError when arr1 is empty and W > 1 |
| `PairwisePython.SameForAnyWorkerCount` | pairwise_python.py:87-104 | on a non-empty outer array, any two thread counts give the same successful result |
| `PairwisePython.SingleThreadIsSerial` | pairwise_python.py:101-102 | with one thread the kernel runs inline on the single range (0, npts1) |
| `PairwisePython.ParallelBranch` | pairwise_python.py:96-99 | with W ≥ 2 and npts1 ≥ 2 there is more than one effective worker, and the result is the element-wise sum of the partial results in range order |

## Left out

- Values are modelled as `int`, not floating point. Adding 0 is then exact, and IEEE effects such as signed zeros are not modelled.
- The process pool (`multiprocessing.Pool`, `pool.map`, `pool.close`) is concurrency. `pool.map` is modelled as a sequential map that keeps the order of the ranges (`MapEngine`). Worker failures and the join barrier are not modelled.
- The `'max'` sentinel and `multiprocessing.cpu_count()` query the host. The thread count is a parameter, and it must be at least 1.
- `ParallelPairwiseSum`: a thread count below 1 is excluded by precondition. For such a count, numpy `array_split` raises an error inside `parallelization_indices`, and that error is not modelled.
- `ParallelizationIndices`: numpy `array_split` is not modelled internally. Its chunk sizes are stated directly (`ChunkSize`, `SplitBound`). Each chunk is represented by its `(x[0], x[0] + len(x))` range rather than as an array of indices.
- `SerialPairwiseSum`: loop indices are natural numbers. Python's negative indexing is not modelled. A `last` beyond npts1 with a non-empty range is excluded by precondition, because the source raises IndexError there.
- The kernels return their final array contents as a sequence. The zero-initialised array is filled in place inside the method. Aliasing of the returned numpy array is not modelled.
- The Cython kernels (pairwise_sum_cython.py, simple_pairwise_sum_cython.py) wrap compiled engines. Those engines are not part of this model. The Cython orchestration repeats the Python one.
- example_script.py (argument parsing, timing, printing) and setup.py (build configuration) are not part of this model.
- `Clamped`: stated only for W ≥ 2. With W == 1 and L == 0 the single-worker branch comes first and gives (1, [(0, 0)]), not (0, []).
