/** Model of pairwise_sum_python.py: the serial double-loop kernel over the
    whole outer array. */
module PairwiseSumPython {
  import opened PairwiseSpec

  /** pairwise_sum_python(arr1, arr2): a zero array of length npts1 * npts2 is
      filled row by row, slot i * npts2 + j receiving arr1[i] + arr2[j]; the
      value returned is the array's final contents. */
  method PairwiseSum(arr1: seq<int>, arr2: seq<int>) returns (r: seq<int>)
    ensures |r| == |arr1| * |arr2|
    ensures r == Pairwise(arr1, arr2)
  {
    var npts1, npts2 := |arr1|, |arr2|;
    var result := new int[npts1 * npts2](_ => 0);
    for i := 0 to npts1
      invariant forall k :: 0 <= k < result.Length ==>
                  result[k] == Filled(arr1, arr2, 0, Flat(i, 0, npts2), k)
    {
      var x := arr1[i];
      for j := 0 to npts2
        invariant forall k :: 0 <= k < result.Length ==>
                    result[k] == Filled(arr1, arr2, 0, Flat(i, j, npts2), k)
      {
        var y := arr2[j];
        var idx := i * npts2 + j;
        FlatInRange(i, j, npts1, npts2);
        DivModOfFlat(i, j, npts2);
        result[idx] := x + y;
      }
      NextRowStart(i, npts2);
    }
    r := result[..];
    assert r == Block(arr1, arr2, 0, npts1);
    FullBlock(arr1, arr2);
  }

  /** numpy's repeat(x, n): every element of x n times in a row. */
  function Repeat(x: seq<int>, n: nat): (r: seq<int>)
    decreases |x|
  {
    if x == [] then [] else seq(n, _ => x[0]) + Repeat(x[1..], n)
  }

  /** With an inner array of zeros the result is the outer array with each
      element repeated npts2 times in a row. */
  lemma {:induction false} ZeroInnerRepeats(a: seq<int>, b: seq<int>)
    requires forall j :: 0 <= j < |b| ==> b[j] == 0
    ensures Pairwise(a, b) == Repeat(a, |b|)
    decreases |a|
  {
    if a != [] {
      ZeroInnerRepeats(a[1..], b);
      assert RowOf(a[0], b) == seq(|b|, _ => a[0]);
    }
  }

  /** Outer (1, 2, 3, 4) with seven zeros repeats each outer value seven times. */
  lemma ExampleZeroInner()
    ensures Pairwise([1, 2, 3, 4], Zeros(7)) == Repeat([1, 2, 3, 4], 7)
  {
    ZeroInnerRepeats([1, 2, 3, 4], Zeros(7));
  }

  /** Outer (1, 2, 3) with inner (4, 5, 6) gives (5, 6, 7, 6, 7, 8, 7, 8, 9). */
  lemma ExampleSmall()
    ensures Pairwise([1, 2, 3], [4, 5, 6]) == [5, 6, 7, 6, 7, 8, 7, 8, 9]
  {
  }
}
