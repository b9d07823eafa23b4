/** Model of pairwise_python.py: the serial kernel that can be limited to a
    sub-range of the outer loop, and the parallel version that splits the
    outer loop with parallelization_indices, runs the kernel once per range
    and adds the partial results element by element. */
module PairwisePython {
  import opened ParallelHelpers
  import opened PairwiseSpec

  datatype Option<T> = None | Some(value: T)

  /** Failures of parallel_pairwise_sum_python: indexing the first range of
      an empty range list. */
  datatype Error = IndexError

  datatype Result<T> = Success(value: T) | Failure(error: Error)

  /** The outer loop bounds of serial_pairwise_sum_python: (0, npts1) when no
      loop indices are given, otherwise the given pair. */
  function LoopBounds(npts1: nat, indices: Option<Range>): (r: Range)
  {
    match indices
    case None => Range(0, npts1)
    case Some(bounds) => bounds
  }

  /** serial_pairwise_sum_python(arr1, arr2, arr1_loop_indices): a zero array
      of length npts1 * npts2 in which only the rows first .. last - 1 are
      filled. The ghost `writes` lists the slots written, in order. */
  method SerialPairwiseSum(arr1: seq<int>, arr2: seq<int>, indices: Option<Range>)
      returns (r: seq<int>, ghost writes: seq<nat>)
    requires LoopBounds(|arr1|, indices).first < LoopBounds(|arr1|, indices).last
             ==> LoopBounds(|arr1|, indices).last <= |arr1|
    ensures |r| == |arr1| * |arr2|
    ensures r == Block(arr1, arr2, LoopBounds(|arr1|, indices).first, LoopBounds(|arr1|, indices).last)
    ensures forall t :: 0 <= t < |writes| ==>
              writes[t] == LoopBounds(|arr1|, indices).first * |arr2| + t
    ensures LoopBounds(|arr1|, indices).first <= LoopBounds(|arr1|, indices).last ==>
              LoopBounds(|arr1|, indices).first * |arr2| + |writes|
              == LoopBounds(|arr1|, indices).last * |arr2|
    ensures LoopBounds(|arr1|, indices).last <= LoopBounds(|arr1|, indices).first ==> writes == []
  {
    var npts1, npts2 := |arr1|, |arr2|;
    var result := new int[npts1 * npts2](_ => 0);
    var bounds := LoopBounds(npts1, indices);
    var firstIdx, lastIdx := bounds.first, bounds.last;
    ghost var lo := firstIdx * npts2;
    writes := [];
    var i := firstIdx;
    while i < lastIdx
      invariant firstIdx <= i && (i <= lastIdx || i == firstIdx)
      invariant lo <= Flat(i, 0, npts2)
      invariant forall k :: 0 <= k < result.Length ==>
                  result[k] == Filled(arr1, arr2, lo, Flat(i, 0, npts2), k)
      invariant lo + |writes| == Flat(i, 0, npts2)
      invariant forall t :: 0 <= t < |writes| ==> writes[t] == lo + t
    {
      var x := arr1[i];
      for j := 0 to npts2
        invariant forall k :: 0 <= k < result.Length ==>
                    result[k] == Filled(arr1, arr2, lo, Flat(i, j, npts2), k)
        invariant lo + |writes| == Flat(i, j, npts2)
        invariant forall t :: 0 <= t < |writes| ==> writes[t] == lo + t
      {
        var y := arr2[j];
        var idx := i * npts2 + j;
        FlatInRange(i, j, npts1, npts2);
        DivModOfFlat(i, j, npts2);
        result[idx] := x + y;
        writes := writes + [idx];
      }
      NextRowStart(i, npts2);
      i := i + 1;
    }
    r := result[..];
    if lastIdx <= firstIdx {
      RowStartMonotone(lastIdx, firstIdx, npts2);
    }
    assert r == Block(arr1, arr2, firstIdx, lastIdx);
  }

  /** pool.map(engine, list_of_tuples), run in order: the kernel's output for
      each range. */
  function MapEngine(arr1: seq<int>, arr2: seq<int>, ranges: seq<Range>): (parts: seq<seq<int>>)
    ensures |parts| == |ranges|
    ensures forall t :: 0 <= t < |parts| ==> |parts[t]| == |arr1| * |arr2|
  {
    seq(|ranges|, t requires 0 <= t < |ranges| => Block(arr1, arr2, ranges[t].first, ranges[t].last))
  }

  /** np.sum(np.array(parts), axis=0): the element-wise sum of arrays that all
      have length n. The empty case gives Zeros(n), the unit of the fold; it is
      not numpy's sum of an empty array (the scalar 0.0), and it is never
      reached from ParallelPairwiseSum, whose summing branch always has at
      least two parts. */
  function SumAxis0(parts: seq<seq<int>>, n: nat): (r: seq<int>)
    requires forall t :: 0 <= t < |parts| ==> |parts[t]| == n
    ensures |r| == n
    decreases |parts|
  {
    if parts == [] then Zeros(n) else Add(parts[0], SumAxis0(parts[1..], n))
  }

  /** parallel_pairwise_sum_python(arr1, arr2, num_threads) for a positive
      thread count. With more than one effective worker the partial results
      are added; otherwise the kernel runs once on the first range, which
      fails when there is none. */
  function ParallelPairwiseSum(arr1: seq<int>, arr2: seq<int>, numThreads: nat): (r: Result<seq<int>>)
    requires numThreads >= 1
    ensures r.Failure? <==> |arr1| == 0 && numThreads > 1
    ensures r.Success? ==> |r.value| == |arr1| * |arr2|
  {
    var plan := ParallelizationIndices(|arr1|, numThreads);
    if plan.workers > 1 then
      Success(SumAxis0(MapEngine(arr1, arr2, plan.ranges), |arr1| * |arr2|))
    else if plan.ranges == [] then
      Failure(IndexError)
    else
      Success(Block(arr1, arr2, plan.ranges[0].first, plan.ranges[0].last))
  }

  // ---------------------------------------------------------------------------
  // Correctness of the orchestration

  /** Without loop indices the sub-range kernel computes the full pairwise sum,
      the same as pairwise_sum_python. */
  lemma NoIndicesIsFull(arr1: seq<int>, arr2: seq<int>)
    ensures Block(arr1, arr2, LoopBounds(|arr1|, None).first, LoopBounds(|arr1|, None).last)
            == Pairwise(arr1, arr2)
  {
    FullBlock(arr1, arr2);
  }

  /** Adding the zero-padded partial results of ranges that tile [lo, hi)
      gives the kernel's output for [lo, hi). */
  lemma {:induction false} SumOfTiledParts(arr1: seq<int>, arr2: seq<int>, ranges: seq<Range>, lo: nat, hi: nat)
    requires Tiles(ranges, lo, hi)
    ensures SumAxis0(MapEngine(arr1, arr2, ranges), |arr1| * |arr2|) == Block(arr1, arr2, lo, hi)
    decreases |ranges|
  {
    if ranges == [] {
      BlockEmpty(arr1, arr2, lo, hi);
    } else {
      var mid := ranges[0].last;
      SumOfTiledParts(arr1, arr2, ranges[1..], mid, hi);
      assert MapEngine(arr1, arr2, ranges)[1..] == MapEngine(arr1, arr2, ranges[1..]);
      TilesOrdered(ranges[1..], mid, hi);
      BlockSplit(arr1, arr2, lo, mid, hi);
    }
  }

  /** Whatever the thread count, the parallel computation returns the full
      pairwise sum; the one failure is an empty outer array with more than
      one thread requested. */
  lemma WorkerCountInvariance(arr1: seq<int>, arr2: seq<int>, numThreads: nat)
    requires numThreads >= 1
    ensures ParallelPairwiseSum(arr1, arr2, numThreads)
            == if |arr1| == 0 && numThreads > 1 then Failure(IndexError) else Success(Pairwise(arr1, arr2))
  {
    var plan := ParallelizationIndices(|arr1|, numThreads);
    FullBlock(arr1, arr2);
    if plan.workers > 1 {
      SumOfTiledParts(arr1, arr2, plan.ranges, 0, |arr1|);
    } else if plan.ranges != [] {
      assert Tiles(plan.ranges[1..], plan.ranges[0].last, |arr1|);
      assert plan.ranges[0] == Range(0, |arr1|);
    }
  }

  /** Two thread counts give the same result on a non-empty outer array. */
  lemma SameForAnyWorkerCount(arr1: seq<int>, arr2: seq<int>, w1: nat, w2: nat)
    requires w1 >= 1 && w2 >= 1 && |arr1| >= 1
    ensures ParallelPairwiseSum(arr1, arr2, w1) == ParallelPairwiseSum(arr1, arr2, w2)
    ensures ParallelPairwiseSum(arr1, arr2, w1).Success?
  {
    WorkerCountInvariance(arr1, arr2, w1);
    WorkerCountInvariance(arr1, arr2, w2);
  }

  /** With one thread the kernel runs inline on the single range (0, npts1). */
  lemma SingleThreadIsSerial(arr1: seq<int>, arr2: seq<int>)
    ensures ParallelPairwiseSum(arr1, arr2, 1) == Success(Block(arr1, arr2, 0, |arr1|))
  {
  }

  /** With at least two effective workers the result is the element-wise sum
      of the partial results, in range order, and every partial result comes
      from a non-empty range. */
  lemma ParallelBranch(arr1: seq<int>, arr2: seq<int>, numThreads: nat)
    requires numThreads >= 2 && |arr1| >= 2
    ensures ParallelizationIndices(|arr1|, numThreads).workers > 1
    ensures ParallelPairwiseSum(arr1, arr2, numThreads)
            == Success(SumAxis0(MapEngine(arr1, arr2, ParallelizationIndices(|arr1|, numThreads).ranges),
                                |arr1| * |arr2|))
  {
  }
}
