/** Model of parallel_helpers.py: splitting an outer for-loop of length L
    among W requested workers into half-open index ranges. */
module ParallelHelpers {

  /** A half-open range [first, last) of outer-loop indices given to one worker. */
  datatype Range = Range(first: nat, last: nat)

  /** What parallelization_indices returns: the effective worker count and the
      ordered list of ranges. */
  datatype Plan = Plan(workers: nat, ranges: seq<Range>)

  function Min(x: nat, y: nat): (r: nat)
  {
    if x <= y then x else y
  }

  /** The ranges tile [lo, hi): the first starts at lo, each ends where the next
      starts, none is reversed, and the last ends at hi (no ranges: lo == hi). */
  predicate Tiles(rs: seq<Range>, lo: nat, hi: nat)
    decreases |rs|
  {
    if rs == [] then lo == hi
    else rs[0].first == lo && rs[0].first <= rs[0].last && Tiles(rs[1..], rs[0].last, hi)
  }

  /** Number of indices in chunk t when numpy's array_split cuts arange(L)
      into W sections: L / W, plus one for each of the first L % W chunks. */
  function ChunkSize(L: nat, W: nat, t: nat): (r: nat)
    requires W >= 1
  {
    if t < L % W then L / W + 1 else L / W
  }

  /** Start index of chunk k: the sizes of chunks 0 .. k - 1 added up. */
  function SplitBound(L: nat, W: nat, k: nat): (r: nat)
    requires W >= 1
  {
    if k == 0 then 0 else SplitBound(L, W, k - 1) + ChunkSize(L, W, k - 1)
  }

  /** Chunks k, k + 1, ..., W - 1 of array_split(arange(L), W), each as the
      range (x[0], x[0] + len(x)); a chunk may be empty. */
  function Sections(L: nat, W: nat, k: nat): (r: seq<Range>)
    requires 1 <= W && k <= W
    decreases W - k
  {
    if k == W then []
    else [Range(SplitBound(L, W, k), SplitBound(L, W, k + 1))] + Sections(L, W, k + 1)
  }

  /** The filter that drops chunks without any index, keeping the order. */
  function NonEmpty(rs: seq<Range>): (r: seq<Range>)
    ensures |r| <= |rs|
    ensures forall t :: 0 <= t < |r| ==> r[t].first < r[t].last
    ensures forall t :: 0 <= t < |r| ==> r[t] in rs
  {
    if rs == [] then []
    else if rs[0].first < rs[0].last then [rs[0]] + NonEmpty(rs[1..])
    else NonEmpty(rs[1..])
  }

  /** One range per index from a on: [(a, a+1), (a+1, a+2), ..., (L-1, L)]. */
  function UnitsFrom(a: nat, L: nat): (r: seq<Range>)
    decreases L - a
  {
    if a >= L then [] else [Range(a, a + 1)] + UnitsFrom(a + 1, L)
  }

  /** parallelization_indices(L, W). */
  function ParallelizationIndices(L: nat, W: nat): (p: Plan)
    requires W >= 1
    ensures Tiles(p.ranges, 0, L)
    ensures p.workers == |p.ranges| && p.workers <= W
    ensures W >= 2 ==> forall t :: 0 <= t < |p.ranges| ==> p.ranges[t].first < p.ranges[t].last
    ensures W == 1 ==> p == Plan(1, [Range(0, L)])
    ensures W >= 2 && W > L ==> p.workers == L
    ensures 1 < W <= L ==> p.workers == W
  {
    if W == 1 then
      Plan(1, [Range(0, L)])
    else if W > L then
      UnitsTile(0, L);
      UnitsAt(0, L);
      Plan(L, UnitsFrom(0, L))
    else
      SectionsTile(L, W, 0);
      SectionsNonEmpty(L, W);
      Plan(W, NonEmpty(Sections(L, W, 0)))
  }

  // ---------------------------------------------------------------------------
  // array_split chunk boundaries

  /** Chunk k starts at k * (L / W) + min(k, L % W). */
  lemma {:induction false} SplitBoundClosedForm(L: nat, W: nat, k: nat)
    requires W >= 1
    ensures SplitBound(L, W, k) == k * (L / W) + Min(k, L % W)
  {
    if k > 0 {
      SplitBoundClosedForm(L, W, k - 1);
      assert k * (L / W) == (k - 1) * (L / W) + L / W;
    }
  }

  /** The chunks start at 0 and the last one ends at L. */
  lemma SplitBoundEnds(L: nat, W: nat)
    requires W >= 1
    ensures SplitBound(L, W, 0) == 0 && SplitBound(L, W, W) == L
  {
    SplitBoundClosedForm(L, W, W);
    assert L == W * (L / W) + L % W;
  }

  /** When W <= L every one of the W chunks holds at least one index. */
  lemma ChunkSizePositive(L: nat, W: nat)
    requires 1 <= W <= L
    ensures forall t :: 0 <= t < W ==> ChunkSize(L, W, t) >= 1
  {
    assert L == W * (L / W) + L % W;
  }

  lemma {:induction false} SectionsTile(L: nat, W: nat, k: nat)
    requires 1 <= W && k <= W
    ensures Tiles(Sections(L, W, k), SplitBound(L, W, k), L)
    decreases W - k
  {
    if k == W {
      SplitBoundEnds(L, W);
    } else {
      SectionsTile(L, W, k + 1);
    }
  }

  lemma {:induction false} SectionsAt(L: nat, W: nat, k: nat)
    requires 1 <= W && k <= W
    ensures |Sections(L, W, k)| == W - k
    ensures forall t :: 0 <= t < W - k ==>
              Sections(L, W, k)[t] == Range(SplitBound(L, W, k + t), SplitBound(L, W, k + t + 1))
    decreases W - k
  {
    if k < W {
      SectionsAt(L, W, k + 1);
      var s := Sections(L, W, k);
      forall t | 0 <= t < W - k
        ensures s[t] == Range(SplitBound(L, W, k + t), SplitBound(L, W, k + t + 1))
      {
        if t > 0 {
          assert s[t] == Sections(L, W, k + 1)[t - 1];
        }
      }
    }
  }

  /** In the split branch (W <= L) the filter removes nothing. */
  lemma SectionsNonEmpty(L: nat, W: nat)
    requires 1 <= W <= L
    ensures |Sections(L, W, 0)| == W
    ensures forall t :: 0 <= t < W ==> Sections(L, W, 0)[t].first < Sections(L, W, 0)[t].last
    ensures NonEmpty(Sections(L, W, 0)) == Sections(L, W, 0)
  {
    SectionsAt(L, W, 0);
    ChunkSizePositive(L, W);
    NonEmptyKeepsNonEmpty(Sections(L, W, 0));
  }

  // ---------------------------------------------------------------------------
  // The filter and the unit ranges

  /** A filter over ranges that are all non-empty keeps every one of them. */
  lemma {:induction false} NonEmptyKeepsNonEmpty(rs: seq<Range>)
    requires forall t :: 0 <= t < |rs| ==> rs[t].first < rs[t].last
    ensures NonEmpty(rs) == rs
  {
    if rs != [] {
      NonEmptyKeepsNonEmpty(rs[1..]);
    }
  }

  /** The filter keeps every non-empty range it is given. */
  lemma {:induction false} NonEmptyKeepsEveryNonEmpty(rs: seq<Range>)
    ensures forall t :: 0 <= t < |rs| && rs[t].first < rs[t].last ==> rs[t] in NonEmpty(rs)
  {
    if rs != [] {
      NonEmptyKeepsEveryNonEmpty(rs[1..]);
      forall t | 0 < t < |rs|
        ensures rs[t] == rs[1..][t - 1]
      {
      }
    }
  }

  /** Dropping empty ranges never breaks a tiling: an empty range starts and
      ends where its neighbours meet. */
  lemma {:induction false} NonEmptyTiles(rs: seq<Range>, lo: nat, hi: nat)
    requires Tiles(rs, lo, hi)
    ensures Tiles(NonEmpty(rs), lo, hi)
    decreases |rs|
  {
    if rs != [] {
      NonEmptyTiles(rs[1..], rs[0].last, hi);
      if rs[0].first < rs[0].last {
        assert NonEmpty(rs) == [rs[0]] + NonEmpty(rs[1..]);
        assert NonEmpty(rs)[1..] == NonEmpty(rs[1..]);
      }
    }
  }

  lemma {:induction false} UnitsTile(a: nat, L: nat)
    requires a <= L
    ensures Tiles(UnitsFrom(a, L), a, L)
    decreases L - a
  {
    if a < L {
      UnitsTile(a + 1, L);
      assert UnitsFrom(a, L)[1..] == UnitsFrom(a + 1, L);
    }
  }

  lemma {:induction false} UnitsAt(a: nat, L: nat)
    requires a <= L
    ensures |UnitsFrom(a, L)| == L - a
    ensures forall t :: 0 <= t < L - a ==> UnitsFrom(a, L)[t] == Range(a + t, a + t + 1)
    decreases L - a
  {
    if a < L {
      UnitsAt(a + 1, L);
      var u := UnitsFrom(a, L);
      forall t | 0 <= t < L - a
        ensures u[t] == Range(a + t, a + t + 1)
      {
        if t > 0 {
          assert u[t] == UnitsFrom(a + 1, L)[t - 1];
        }
      }
    }
  }

  // ---------------------------------------------------------------------------
  // What a tiling means: ordered, disjoint, covering

  /** Every range of a tiling lies inside [lo, hi), and an earlier range ends
      no later than a later one starts, so no two ranges overlap. */
  lemma {:induction false} TilesOrdered(rs: seq<Range>, lo: nat, hi: nat)
    requires Tiles(rs, lo, hi)
    ensures lo <= hi
    ensures forall t :: 0 <= t < |rs| ==> lo <= rs[t].first <= rs[t].last <= hi
    ensures forall t, u :: 0 <= t < u < |rs| ==> rs[t].last <= rs[u].first
    decreases |rs|
  {
    if rs != [] {
      TilesOrdered(rs[1..], rs[0].last, hi);
      forall t | 0 < t < |rs|
        ensures rs[t] == rs[1..][t - 1]
      {
      }
    }
  }

  /** Every index of [lo, hi) lies in some range of a tiling. */
  lemma {:induction false} TilesCover(rs: seq<Range>, lo: nat, hi: nat, x: nat)
    requires Tiles(rs, lo, hi) && lo <= x < hi
    ensures exists t :: 0 <= t < |rs| && rs[t].first <= x < rs[t].last
    decreases |rs|
  {
    if x >= rs[0].last {
      TilesCover(rs[1..], rs[0].last, hi, x);
      var t :| 0 <= t < |rs[1..]| && rs[1..][t].first <= x < rs[1..][t].last;
      assert rs[t + 1] == rs[1..][t];
    }
  }

  /** Each index of [lo, hi) lies in exactly one range of a tiling. */
  lemma TilesPartition(rs: seq<Range>, lo: nat, hi: nat, x: nat)
    requires Tiles(rs, lo, hi) && lo <= x < hi
    ensures exists t :: 0 <= t < |rs| && rs[t].first <= x < rs[t].last
    ensures forall t, u ::
              (0 <= t < |rs| && 0 <= u < |rs| && rs[t].first <= x < rs[t].last && rs[u].first <= x < rs[u].last)
              ==> t == u
  {
    TilesCover(rs, lo, hi, x);
    TilesOrdered(rs, lo, hi);
  }

  // ---------------------------------------------------------------------------
  // The three branches of parallelization_indices

  /** More workers than indices (and W >= 2): one index per worker, and the
      effective count drops to L; for L == 0 nothing at all. */
  lemma Clamped(L: nat, W: nat)
    requires W >= 2 && W > L
    ensures ParallelizationIndices(L, W).workers == L
    ensures |ParallelizationIndices(L, W).ranges| == L
    ensures forall t :: 0 <= t < L ==> ParallelizationIndices(L, W).ranges[t] == Range(t, t + 1)
    ensures L == 0 ==> ParallelizationIndices(L, W) == Plan(0, [])
  {
    UnitsAt(0, L);
  }

  /** The split branch (1 < W <= L): W ranges, the first L % W of size L / W + 1
      and the rest of size L / W, each starting where array_split puts it. */
  lemma Balanced(L: nat, W: nat)
    requires 1 < W <= L
    ensures ParallelizationIndices(L, W).workers == W
    ensures |ParallelizationIndices(L, W).ranges| == W
    ensures forall t :: 0 <= t < W ==>
              ParallelizationIndices(L, W).ranges[t].first == t * (L / W) + Min(t, L % W)
    ensures forall t :: 0 <= t < W ==>
              ParallelizationIndices(L, W).ranges[t].last - ParallelizationIndices(L, W).ranges[t].first
              == if t < L % W then L / W + 1 else L / W
  {
    var rs := ParallelizationIndices(L, W).ranges;
    SectionsNonEmpty(L, W);
    SectionsAt(L, W, 0);
    assert rs == Sections(L, W, 0);
    forall t | 0 <= t < W
      ensures rs[t].first == t * (L / W) + Min(t, L % W)
      ensures rs[t].last - rs[t].first == ChunkSize(L, W, t)
    {
      assert rs[t] == Range(SplitBound(L, W, t), SplitBound(L, W, t + 1));
      SplitBoundClosedForm(L, W, t);
    }
  }

  /** parallelization_indices(10, 2) == (2, [(0, 5), (5, 10)]). */
  lemma ExampleTwoWorkers()
    ensures ParallelizationIndices(10, 2) == Plan(2, [Range(0, 5), Range(5, 10)])
  {
    SectionsNonEmpty(10, 2);
  }

  /** parallelization_indices(10, 1) == (1, [(0, 10)]). */
  lemma ExampleOneWorker()
    ensures ParallelizationIndices(10, 1) == Plan(1, [Range(0, 10)])
  {
  }

  /** parallelization_indices(10, 3) == (3, [(0, 4), (4, 7), (7, 10)]). */
  lemma ExampleThreeWorkers()
    ensures ParallelizationIndices(10, 3) == Plan(3, [Range(0, 4), Range(4, 7), Range(7, 10)])
  {
    SectionsNonEmpty(10, 3);
  }

  /** parallelization_indices(3, 4) == (3, [(0, 1), (1, 2), (2, 3)]). */
  lemma ExampleMoreWorkersThanWork()
    ensures ParallelizationIndices(3, 4) == Plan(3, [Range(0, 1), Range(1, 2), Range(2, 3)])
  {
  }
}
