/** The formula every pairwise-sum kernel computes. For outer values a (npts1
    of them) and inner values b (npts2), the result has npts1 * npts2 slots,
    and slot i * npts2 + j holds a[i] + b[j]; equivalently slot k holds
    a[k / npts2] + b[k % npts2]. A kernel limited to the outer indices
    [first, last) leaves every other slot at zero. */
module PairwiseSpec {

  /** The flat result index of row i, column j: idx_result = i * npts2 + j. */
  function Flat(i: nat, j: nat, n2: nat): (r: nat)
  {
    i * n2 + j
  }

  // ---------------------------------------------------------------------------
  // Index arithmetic: (i, j) <-> i * n2 + j is a bijection onto [0, n1 * n2)

  /** Multiplication by a row length is monotone. */
  lemma RowStartMonotone(m: nat, m': nat, n2: nat)
    requires m <= m'
    ensures m * n2 <= m' * n2
  {
  }

  /** The next row starts one row length later. */
  lemma NextRowStart(m: nat, n2: nat)
    ensures (m + 1) * n2 == m * n2 + n2
  {
  }

  /** Row i, column j is found again by division and remainder. */
  lemma DivModOfFlat(i: nat, j: nat, n2: nat)
    requires j < n2
    ensures Flat(i, j, n2) / n2 == i && Flat(i, j, n2) % n2 == j
  {
    var k := Flat(i, j, n2);
    var q, r := k / n2, k % n2;
    assert k == q * n2 + r && 0 <= r < n2;
    if q < i {
      NextRowStart(q, n2);
      RowStartMonotone(q + 1, i, n2);
      assert false;
    }
    if i < q {
      NextRowStart(i, n2);
      RowStartMonotone(i + 1, q, n2);
      assert false;
    }
  }

  /** Comparing a flat index with the start of row m compares the rows. */
  lemma RowOrder(i: nat, j: nat, n2: nat, m: nat)
    requires j < n2
    ensures m * n2 <= Flat(i, j, n2) <==> m <= i
  {
    if m <= i {
      RowStartMonotone(m, i, n2);
    } else {
      NextRowStart(i, n2);
      RowStartMonotone(i + 1, m, n2);
    }
  }

  /** Every position i * n2 + j of row i < n1 lies inside the result. */
  lemma FlatInRange(i: nat, j: nat, n1: nat, n2: nat)
    requires i < n1 && j < n2
    ensures Flat(i, j, n2) < n1 * n2
  {
    NextRowStart(i, n2);
    RowStartMonotone(i + 1, n1, n2);
  }

  /** Every slot k of the result is row k / n2, column k % n2, with k / n2 < n1. */
  lemma Unflat(k: nat, n1: nat, n2: nat)
    requires k < n1 * n2
    ensures n2 > 0 && k / n2 < n1 && k % n2 < n2
    ensures Flat(k / n2, k % n2, n2) == k
  {
    var q := k / n2;
    assert k == q * n2 + k % n2;
    if q >= n1 {
      RowStartMonotone(n1, q, n2);
    }
  }

  /** The flat index is injective on [0, n1) x [0, n2). */
  lemma FlatInjective(i: nat, j: nat, i': nat, j': nat, n2: nat)
    requires j < n2 && j' < n2
    requires Flat(i, j, n2) == Flat(i', j', n2)
    ensures i == i' && j == j'
  {
    DivModOfFlat(i, j, n2);
    DivModOfFlat(i', j', n2);
  }

  // ---------------------------------------------------------------------------
  // The kernel's output as a value

  /** Slot k of a zero-initialised result in which the slots lo <= k < hi have
      been set to their pairwise sum. */
  function Filled(a: seq<int>, b: seq<int>, lo: nat, hi: nat, k: nat): (r: int)
    requires k < |a| * |b|
  {
    if lo <= k < hi then
      Unflat(k, |a|, |b|);
      a[k / |b|] + b[k % |b|]
    else
      0
  }

  /** The output of the kernel limited to the outer indices [first, last):
      length |a| * |b|, pairwise sums in rows first .. last - 1, zero elsewhere. */
  function Block(a: seq<int>, b: seq<int>, first: nat, last: nat): (r: seq<int>)
    ensures |r| == |a| * |b|
  {
    seq(|a| * |b|, k requires 0 <= k < |a| * |b| => Filled(a, b, first * |b|, last * |b|, k))
  }

  /** Row x of the full result: x + b[j] for every j. */
  function RowOf(x: int, b: seq<int>): (r: seq<int>)
    ensures |r| == |b|
  {
    seq(|b|, j requires 0 <= j < |b| => x + b[j])
  }

  /** The full pairwise sum as the concatenation of its rows, in outer order. */
  function Pairwise(a: seq<int>, b: seq<int>): (r: seq<int>)
    ensures |r| == |a| * |b|
    decreases |a|
  {
    if a == [] then [] else RowOf(a[0], b) + Pairwise(a[1..], b)
  }

  function Zeros(n: nat): (r: seq<int>)
  {
    seq(n, _ => 0)
  }

  /** Element-wise sum of two equally long arrays. */
  function Add(x: seq<int>, y: seq<int>): (r: seq<int>)
    requires |x| == |y|
  {
    seq(|x|, k requires 0 <= k < |x| => x[k] + y[k])
  }

  // ---------------------------------------------------------------------------
  // Properties of the formula

  /** Slot (i, j) of the restricted kernel's output: a[i] + b[j] for rows in
      [first, last), and 0 for every other row. */
  lemma BlockAt(a: seq<int>, b: seq<int>, first: nat, last: nat, i: nat, j: nat)
    requires i < |a| && j < |b|
    ensures Flat(i, j, |b|) < |Block(a, b, first, last)|
    ensures Block(a, b, first, last)[Flat(i, j, |b|)] == if first <= i < last then a[i] + b[j] else 0
  {
    FlatInRange(i, j, |a|, |b|);
    DivModOfFlat(i, j, |b|);
    RowOrder(i, j, |b|, first);
    RowOrder(i, j, |b|, last);
  }

  /** Slot (i, j) of the full result is a[i] + b[j]. */
  lemma {:induction false} PairwiseAt(a: seq<int>, b: seq<int>, i: nat, j: nat)
    requires i < |a| && j < |b|
    ensures Flat(i, j, |b|) < |Pairwise(a, b)|
    ensures Pairwise(a, b)[Flat(i, j, |b|)] == a[i] + b[j]
    decreases |a|
  {
    FlatInRange(i, j, |a|, |b|);
    if i > 0 {
      PairwiseAt(a[1..], b, i - 1, j);
      assert Flat(i, j, |b|) == |b| + Flat(i - 1, j, |b|);
    }
  }

  /** The kernel over the whole outer range [0, |a|) is the full pairwise sum:
      every slot is written, no zero of the initial array survives. */
  lemma FullBlock(a: seq<int>, b: seq<int>)
    ensures Block(a, b, 0, |a|) == Pairwise(a, b)
  {
    var blk, full := Block(a, b, 0, |a|), Pairwise(a, b);
    forall k | 0 <= k < |a| * |b|
      ensures blk[k] == full[k]
    {
      Unflat(k, |a|, |b|);
      BlockAt(a, b, 0, |a|, k / |b|, k % |b|);
      PairwiseAt(a, b, k / |b|, k % |b|);
    }
  }

  /** Slot k of the full result is a[k / |b|] + b[k % |b|]. */
  lemma PairwiseAtFlat(a: seq<int>, b: seq<int>, k: nat)
    requires k < |a| * |b|
    ensures k / |b| < |a| && k % |b| < |b|
    ensures Pairwise(a, b)[k] == a[k / |b|] + b[k % |b|]
  {
    Unflat(k, |a|, |b|);
    FullBlock(a, b);
    assert Block(a, b, 0, |a|)[k] == Filled(a, b, 0, |a| * |b|, k);
  }

  /** Restricting to an empty (or reversed) outer range writes nothing. */
  lemma BlockEmpty(a: seq<int>, b: seq<int>, first: nat, last: nat)
    requires last <= first
    ensures Block(a, b, first, last) == Zeros(|a| * |b|)
  {
    RowStartMonotone(last, first, |b|);
  }

  /** Adding the outputs for [lo, mid) and [mid, hi) gives the output for
      [lo, hi): the zero padding of one lies under the values of the other. */
  lemma BlockSplit(a: seq<int>, b: seq<int>, lo: nat, mid: nat, hi: nat)
    requires lo <= mid <= hi
    ensures Add(Block(a, b, lo, mid), Block(a, b, mid, hi)) == Block(a, b, lo, hi)
  {
    RowStartMonotone(lo, mid, |b|);
    RowStartMonotone(mid, hi, |b|);
  }
}
