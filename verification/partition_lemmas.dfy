/** What every rank may rely on about the plan: the counts conserve and
    balance the totals, the clamped offsets are monotone and bounded, the
    non-empty slices tile their region, the hash slices fill the query-hash
    buffer, and the plan is determined by the shared problem size. */
module PlanProperties {
  import opened Sums
  import opened Partition

  // ---------------------------------------------------------------------
  // Counts
  // ---------------------------------------------------------------------

  /** Entries are `m + 1` before index `k` and `m` from `k` on. */
  predicate Staircase(cts: seq<int>, m: int, k: int)
  {
    forall i :: 0 <= i < |cts| ==> cts[i] == m + (if i < k then 1 else 0)
  }

  lemma {:induction false} StaircasePrefixSum(cts: seq<int>, m: int, k: int, n: int)
    requires Staircase(cts, m, k)
    requires 0 <= k
    requires 0 <= n <= |cts|
    ensures Sum(cts[..n]) == n * m + Min(n, k)
    decreases n
  {
    if n == 0 {
      assert cts[..0] == [];
    } else {
      StaircasePrefixSum(cts, m, k, n - 1);
      SumPrefixStep(cts, n - 1);
      assert n * m == (n - 1) * m + m;
    }
  }

  /** Shape of a balanced split: rank `i` gets the extra unit exactly when
      `i < total % worldSize`, no count is negative, counts never increase
      with the rank, and any two counts differ by at most one. */
  lemma BalancedSplitShape(cts: seq<int>, total: nat, worldSize: int)
    requires BalancedSplit(cts, total, worldSize)
    ensures AllNonNegative(cts)
    ensures forall i :: 0 <= i < worldSize ==>
              (cts[i] == total / worldSize + 1 <==> i < total % worldSize)
    ensures forall i :: 0 <= i < worldSize ==>
              (cts[i] == total / worldSize <==> total % worldSize <= i)
    ensures forall i, j :: 0 <= i <= j < worldSize ==> cts[j] <= cts[i] <= cts[j] + 1
  {
  }

  /** Conservation: the counts of a balanced split add up to the total. */
  lemma {:induction false} SplitConserves(cts: seq<int>, total: nat, worldSize: int)
    requires BalancedSplit(cts, total, worldSize)
    ensures Sum(cts) == total
  {
    var m, k := total / worldSize, total % worldSize;
    assert Staircase(cts, m, k);
    StaircasePrefixSum(cts, m, k, worldSize);
    SumFullPrefix(cts);
  }

  lemma MulMonotone(b: int, x: int, y: int)
    requires b >= 0
    ensures x <= y ==> b * x <= b * y
  {
    if x <= y {
      assert b * y - b * x == b * (y - x);
    }
  }

  /** Euclidean division is unique. */
  lemma DivModUnique(a: int, b: int, q: int, r: int)
    requires b > 0 && 0 <= r < b && a == b * q + r
    ensures a / b == q && a % b == r
  {
    var q', r' := a / b, a % b;
    assert a == b * q' + r';
    MulMonotone(b, q' + 1, q);
    MulMonotone(b, q + 1, q');
    assert b * (q' + 1) == b * q' + b;
    assert b * (q + 1) == b * q + b;
  }

  /** First index at or after `from` whose entry is at most `m`, or `|s|`. */
  function FirstAtMost(s: seq<int>, m: int, from: nat): (k: nat)
    requires from <= |s|
    ensures from <= k <= |s|
    ensures forall i :: from <= i < k ==> s[i] > m
    ensures k < |s| ==> s[k] <= m
    decreases |s| - from
  {
    if from == |s| || s[from] <= m then from else FirstAtMost(s, m, from + 1)
  }

  /** The converse of conservation and balance: any non-increasing
      assignment whose counts differ by at most one and add up to `total`
      is the controller's split.  So the remainder-to-low-ranks policy is
      the only balanced, conserving, ordered split there is. */
  lemma SplitCharacterization(cts: seq<int>, total: nat, worldSize: int)
    requires worldSize > 0 && |cts| == worldSize
    requires forall i, j :: 0 <= i <= j < worldSize ==> cts[j] <= cts[i] <= cts[j] + 1
    requires Sum(cts) == total
    ensures BalancedSplit(cts, total, worldSize)
  {
    var m := cts[worldSize - 1];
    var k := FirstAtMost(cts, m, 0);
    assert k < worldSize;
    forall i | 0 <= i < worldSize
      ensures cts[i] == m + (if i < k then 1 else 0)
    {
      if i >= k {
        assert cts[i] <= cts[k];
      }
    }
    assert Staircase(cts, m, k);
    StaircasePrefixSum(cts, m, k, worldSize);
    SumFullPrefix(cts);
    DivModUnique(total, worldSize, m, k);
  }

  // ---------------------------------------------------------------------
  // Clamped offsets
  // ---------------------------------------------------------------------

  lemma {:induction false} ClampedOffsetIsClampedPrefixSum(
    offs: seq<int>, cts: seq<int>, first: int, bound: int, n: int)
    requires ClampedRunningSum(offs, cts, first, bound)
    requires AllNonNegative(cts)
    requires 1 <= n < |offs|
    ensures offs[n] == Min(first + Sum(cts[..n]), bound)
    decreases n
  {
    SumPrefixStep(cts, n - 1);
    if n == 1 {
      assert cts[..0] == [];
    } else {
      ClampedOffsetIsClampedPrefixSum(offs, cts, first, bound, n - 1);
    }
  }

  /** Clamping each step is the same as clamping the whole running sum:
      past rank 0, an offset is `first` plus the earlier counts, capped at
      `bound`. */
  lemma ClampedOffsetsArePrefixSums(offs: seq<int>, cts: seq<int>, first: int, bound: int)
    requires ClampedRunningSum(offs, cts, first, bound)
    requires AllNonNegative(cts)
    ensures forall n :: 1 <= n < |offs| ==> offs[n] == Min(first + Sum(cts[..n]), bound)
  {
    forall n | 1 <= n < |offs|
      ensures offs[n] == Min(first + Sum(cts[..n]), bound)
    {
      ClampedOffsetIsClampedPrefixSum(offs, cts, first, bound, n);
    }
  }

  /** With non-negative counts and a start no later than the bound, the
      clamped offsets never decrease and stay within `[first, bound]`. */
  lemma ClampedOffsetsMonotone(offs: seq<int>, cts: seq<int>, first: int, bound: int)
    requires ClampedRunningSum(offs, cts, first, bound)
    requires AllNonNegative(cts)
    requires first <= bound
    ensures forall n :: 0 <= n < |offs| ==> first <= offs[n] <= bound
    ensures forall i, j :: 0 <= i <= j < |offs| ==> offs[i] <= offs[j]
  {
    ClampedOffsetsArePrefixSums(offs, cts, first, bound);
    assert cts[..0] == [];
    forall n | 0 <= n < |offs|
      ensures first <= offs[n] <= bound
    {
      if n >= 1 {
        PrefixSumMonotone(cts, 0, n);
      }
    }
    forall i, j | 0 <= i <= j < |offs|
      ensures offs[i] <= offs[j]
    {
      if 1 <= i {
        PrefixSumMonotone(cts, i, j);
      }
    }
  }

  /** When a category is empty every offset past rank 0 is clamped to
      `first - 1`, one below the start: the query offsets become -1. */
  lemma EmptyCategoryClampsBelowStart(offs: seq<int>, cts: seq<int>, worldSize: int, first: int)
    requires BalancedSplit(cts, 0, worldSize)
    requires ClampedRunningSum(offs, cts, first, first - 1)
    ensures forall n :: 1 <= n < worldSize ==> offs[n] == first - 1
  {
    SplitConserves(cts, 0, worldSize);
    SumFullPrefix(cts);
    BalancedSplitShape(cts, 0, worldSize);
    ClampedOffsetsArePrefixSums(offs, cts, first, first - 1);
    assert cts[..0] == [];
    forall n | 1 <= n < worldSize
      ensures offs[n] == first - 1
    {
      PrefixSumMonotone(cts, 0, n);
      PrefixSumMonotone(cts, n, worldSize);
    }
  }

  // ---------------------------------------------------------------------
  // Slices
  // ---------------------------------------------------------------------

  /** Index `x` lies in the region of `len` indices starting at `lo`. */
  predicate InRegion(lo: int, len: int, x: int)
  {
    lo <= x < lo + len
  }

  /** Index `x` lies in rank `n`'s slice `[offs[n], offs[n] + cts[n])`. */
  predicate InSlice(offs: seq<int>, cts: seq<int>, n: int, x: int)
    requires 0 <= n < |offs| && |offs| == |cts|
  {
    offs[n] <= x < offs[n] + cts[n]
  }

  /** The clamp never bites a rank that owns something: its offset is the
      start of the region plus the counts of all earlier ranks. */
  lemma NonzeroRankOffsetUnclamped(offs: seq<int>, cts: seq<int>, total: nat, worldSize: int, first: int)
    requires BalancedSplit(cts, total, worldSize)
    requires ClampedRunningSum(offs, cts, first, first + total - 1)
    ensures forall n :: 0 <= n < worldSize && cts[n] > 0 ==>
              offs[n] == first + Sum(cts[..n]) && offs[n] + cts[n] == first + Sum(cts[..n + 1])
  {
    BalancedSplitShape(cts, total, worldSize);
    SplitConserves(cts, total, worldSize);
    SumFullPrefix(cts);
    ClampedOffsetsArePrefixSums(offs, cts, first, first + total - 1);
    forall n | 0 <= n < worldSize && cts[n] > 0
      ensures offs[n] == first + Sum(cts[..n]) && offs[n] + cts[n] == first + Sum(cts[..n + 1])
    {
      SumPrefixStep(cts, n);
      PrefixSumMonotone(cts, n + 1, worldSize);
      if n == 0 {
        assert cts[..0] == [];
      }
    }
  }

  lemma {:induction false} SlicesCoverPrefix(offs: seq<int>, cts: seq<int>, total: nat,
                                             worldSize: int, first: int, k: int)
    requires BalancedSplit(cts, total, worldSize)
    requires ClampedRunningSum(offs, cts, first, first + total - 1)
    requires 0 <= k <= worldSize
    ensures forall x :: InRegion(first, Sum(cts[..k]), x) ==>
              exists n :: 0 <= n < k && InSlice(offs, cts, n, x)
    decreases k
  {
    if k == 0 {
      assert cts[..0] == [];
    } else {
      SlicesCoverPrefix(offs, cts, total, worldSize, first, k - 1);
      SumPrefixStep(cts, k - 1);
      NonzeroRankOffsetUnclamped(offs, cts, total, worldSize, first);
      forall x | InRegion(first, Sum(cts[..k]), x)
        ensures exists n :: 0 <= n < k && InSlice(offs, cts, n, x)
      {
        if x >= first + Sum(cts[..k - 1]) {
          assert InSlice(offs, cts, k - 1, x);
        } else {
          assert InRegion(first, Sum(cts[..k - 1]), x);
        }
      }
    }
  }

  /** A non-empty slice lies inside `[first, first + total)`, and a lower
      rank's slice ends before a higher rank's non-empty slice begins. */
  lemma SlicesOrdered(offs: seq<int>, cts: seq<int>, total: nat, worldSize: int, first: int)
    requires BalancedSplit(cts, total, worldSize)
    requires ClampedRunningSum(offs, cts, first, first + total - 1)
    ensures forall n :: 0 <= n < worldSize && cts[n] > 0 ==>
              first <= offs[n] && offs[n] + cts[n] <= first + total
    ensures forall i, j :: 0 <= i < j < worldSize && cts[j] > 0 ==> offs[i] + cts[i] <= offs[j]
  {
    BalancedSplitShape(cts, total, worldSize);
    SplitConserves(cts, total, worldSize);
    SumFullPrefix(cts);
    NonzeroRankOffsetUnclamped(offs, cts, total, worldSize, first);
    assert cts[..0] == [];
    forall n | 0 <= n < worldSize && cts[n] > 0
      ensures first <= offs[n] && offs[n] + cts[n] <= first + total
    {
      PrefixSumMonotone(cts, 0, n);
      PrefixSumMonotone(cts, n + 1, worldSize);
    }
    forall i, j | 0 <= i < j < worldSize && cts[j] > 0
      ensures offs[i] + cts[i] <= offs[j]
    {
      PrefixSumMonotone(cts, i + 1, j);
    }
  }

  /** The non-empty slices tile the region `[first, first + total)`: every
      index of the region is in some rank's slice, no index outside it is,
      no index is in two slices, each non-empty slice starts where the
      previous rank's slice ends, and slices are laid out in rank order. */
  lemma SlicesTile(offs: seq<int>, cts: seq<int>, total: nat, worldSize: int, first: int)
    requires BalancedSplit(cts, total, worldSize)
    requires ClampedRunningSum(offs, cts, first, first + total - 1)
    ensures forall x :: InRegion(first, total, x) <==>
              exists n :: 0 <= n < worldSize && InSlice(offs, cts, n, x)
    ensures forall i, j, x :: (0 <= i < worldSize && 0 <= j < worldSize &&
                               InSlice(offs, cts, i, x) && InSlice(offs, cts, j, x)) ==> i == j
    ensures forall n :: 0 <= n < worldSize - 1 && cts[n + 1] > 0 ==>
              offs[n + 1] == offs[n] + cts[n]
    ensures forall i, j :: 0 <= i < j < worldSize && cts[j] > 0 ==> offs[i] + cts[i] <= offs[j]
  {
    SplitConserves(cts, total, worldSize);
    SumFullPrefix(cts);
    SlicesCoverPrefix(offs, cts, total, worldSize, first, worldSize);
    SlicesOrdered(offs, cts, total, worldSize, first);
    forall n | 0 <= n < worldSize - 1 && cts[n + 1] > 0
      ensures offs[n + 1] == offs[n] + cts[n]
    {
      BalancedSplitShape(cts, total, worldSize);
      NonzeroRankOffsetUnclamped(offs, cts, total, worldSize, first);
    }
  }

  // ---------------------------------------------------------------------
  // Hash counts and offsets
  // ---------------------------------------------------------------------

  lemma {:induction false} RunningOffsetIsPrefixSum(offs: seq<int>, cts: seq<int>, first: int, n: int)
    requires RunningSum(offs, cts, first)
    requires 0 <= n < |offs|
    ensures offs[n] == first + Sum(cts[..n])
    decreases n
  {
    if n == 0 {
      assert cts[..0] == [];
    } else {
      RunningOffsetIsPrefixSum(offs, cts, first, n - 1);
      SumPrefixStep(cts, n - 1);
    }
  }

  /** The hash offsets are the unclamped prefix sums of the hash counts. */
  lemma RunningOffsetsArePrefixSums(offs: seq<int>, cts: seq<int>, first: int)
    requires RunningSum(offs, cts, first)
    ensures forall n :: 0 <= n < |offs| ==> offs[n] == first + Sum(cts[..n])
  {
    forall n | 0 <= n < |offs|
      ensures offs[n] == first + Sum(cts[..n])
    {
      RunningOffsetIsPrefixSum(offs, cts, first, n);
    }
  }

  lemma MulAssociates(a: int, b: int, c: int)
    ensures a * b * c == a * (b * c)
  {
  }

  /** The per-rank hash counts add up to the length of the query-hash
      buffer, `numQueryVectors * numQueryProbes * numTables`. */
  lemma HashCountsTotal(hashCts: seq<int>, queryCts: seq<int>, numQueryVectors: nat,
                        worldSize: int, numQueryProbes: int, numTables: int)
    requires BalancedSplit(queryCts, numQueryVectors, worldSize)
    requires HashCountsOf(hashCts, queryCts, numQueryProbes, numTables)
    ensures Sum(hashCts) == numQueryVectors * numQueryProbes * numTables
  {
    var k := numQueryProbes * numTables;
    forall j | 0 <= j < |hashCts|
      ensures hashCts[j] == queryCts[j] * k
    {
      MulAssociates(queryCts[j], numQueryProbes, numTables);
    }
    SumScaled(queryCts, hashCts, k);
    SplitConserves(queryCts, numQueryVectors, worldSize);
    MulAssociates(numQueryVectors, numQueryProbes, numTables);
  }

  // ---------------------------------------------------------------------
  // The whole plan
  // ---------------------------------------------------------------------

  /** Data and query counts conserve their totals, hash counts add up to
      the query-hash buffer length, and each rank's figures are its share. */
  lemma PlanConserves(p: PartitionPlan, numDataVectors: nat, numQueryVectors: nat,
                      worldSize: int, numTables: int, numQueryProbes: int)
    requires IsPlanFor(p, numDataVectors, numQueryVectors, worldSize, numTables, numQueryProbes)
    ensures Sum(p.dataCts) == numDataVectors
    ensures Sum(p.queryCts) == numQueryVectors
    ensures Sum(p.hashCts) == numQueryVectors * numQueryProbes * numTables
  {
    SplitConserves(p.dataCts, numDataVectors, worldSize);
    SplitConserves(p.queryCts, numQueryVectors, worldSize);
    HashCountsTotal(p.hashCts, p.queryCts, numQueryVectors, worldSize, numQueryProbes, numTables);
  }

  /** Offsets of a non-empty category are monotone and bounded: data
      offsets lie in `[numQueryVectors, numDataVectors + numQueryVectors - 1]`
      and query offsets in `[0, numQueryVectors - 1]`. */
  lemma PlanOffsetsOrdered(p: PartitionPlan, numDataVectors: nat, numQueryVectors: nat,
                           worldSize: int, numTables: int, numQueryProbes: int)
    requires IsPlanFor(p, numDataVectors, numQueryVectors, worldSize, numTables, numQueryProbes)
    ensures numDataVectors >= 1 ==>
              && (forall n :: 0 <= n < worldSize ==>
                    numQueryVectors <= p.dataOffsets[n] <= DataBound(numDataVectors, numQueryVectors))
              && (forall i, j :: 0 <= i <= j < worldSize ==> p.dataOffsets[i] <= p.dataOffsets[j])
    ensures numQueryVectors >= 1 ==>
              && (forall n :: 0 <= n < worldSize ==>
                    0 <= p.queryOffsets[n] <= QueryBound(numQueryVectors))
              && (forall i, j :: 0 <= i <= j < worldSize ==> p.queryOffsets[i] <= p.queryOffsets[j])
  {
    BalancedSplitShape(p.dataCts, numDataVectors, worldSize);
    BalancedSplitShape(p.queryCts, numQueryVectors, worldSize);
    if numDataVectors >= 1 {
      ClampedOffsetsMonotone(p.dataOffsets, p.dataCts, numQueryVectors,
                             DataBound(numDataVectors, numQueryVectors));
    }
    if numQueryVectors >= 1 {
      ClampedOffsetsMonotone(p.queryOffsets, p.queryCts, 0, QueryBound(numQueryVectors));
    }
  }

  /** With no query vectors and more than one rank, the query offsets drop
      below rank 0's offset of 0, so monotonicity really needs a non-empty
      category. */
  lemma EmptyQueryOffsetsDrop(p: PartitionPlan, numDataVectors: nat,
                              worldSize: int, numTables: int, numQueryProbes: int)
    requires IsPlanFor(p, numDataVectors, 0, worldSize, numTables, numQueryProbes)
    requires worldSize >= 2
    ensures p.queryOffsets[0] == 0
    ensures forall n :: 1 <= n < worldSize ==> p.queryOffsets[n] == -1
  {
    EmptyCategoryClampsBelowStart(p.queryOffsets, p.queryCts, worldSize, 0);
  }

  /** With no data vectors, every data offset after rank 0 is clamped to
      `numQueryVectors - 1`: the last query index, inside the query region. */
  lemma EmptyDataOffsetsDrop(p: PartitionPlan, numQueryVectors: nat,
                             worldSize: int, numTables: int, numQueryProbes: int)
    requires IsPlanFor(p, 0, numQueryVectors, worldSize, numTables, numQueryProbes)
    ensures p.dataOffsets[0] == numQueryVectors
    ensures forall n :: 1 <= n < worldSize ==> p.dataOffsets[n] == numQueryVectors - 1
  {
    EmptyCategoryClampsBelowStart(p.dataOffsets, p.dataCts, worldSize, numQueryVectors);
  }

  /** Data slices tile `[numQueryVectors, numQueryVectors + numDataVectors)`
      and query slices tile `[0, numQueryVectors)`. */
  lemma PlanSlicesTile(p: PartitionPlan, numDataVectors: nat, numQueryVectors: nat,
                       worldSize: int, numTables: int, numQueryProbes: int)
    requires IsPlanFor(p, numDataVectors, numQueryVectors, worldSize, numTables, numQueryProbes)
    ensures forall x :: InRegion(numQueryVectors, numDataVectors, x) <==>
              exists n :: 0 <= n < worldSize && InSlice(p.dataOffsets, p.dataCts, n, x)
    ensures forall i, j, x :: (0 <= i < worldSize && 0 <= j < worldSize &&
                               InSlice(p.dataOffsets, p.dataCts, i, x) &&
                               InSlice(p.dataOffsets, p.dataCts, j, x)) ==> i == j
    ensures forall i, j :: 0 <= i < j < worldSize && p.dataCts[j] > 0 ==>
              p.dataOffsets[i] + p.dataCts[i] <= p.dataOffsets[j]
    ensures forall x :: InRegion(0, numQueryVectors, x) <==>
              exists n :: 0 <= n < worldSize && InSlice(p.queryOffsets, p.queryCts, n, x)
    ensures forall i, j, x :: (0 <= i < worldSize && 0 <= j < worldSize &&
                               InSlice(p.queryOffsets, p.queryCts, i, x) &&
                               InSlice(p.queryOffsets, p.queryCts, j, x)) ==> i == j
    ensures forall i, j :: 0 <= i < j < worldSize && p.queryCts[j] > 0 ==>
              p.queryOffsets[i] + p.queryCts[i] <= p.queryOffsets[j]
  {
    SlicesTile(p.dataOffsets, p.dataCts, numDataVectors, worldSize, numQueryVectors);
    SlicesTile(p.queryOffsets, p.queryCts, numQueryVectors, worldSize, 0);
  }

  lemma ProductBetween(x: int, y: int, c: int)
    requires 0 <= x <= y && c >= 0
    ensures 0 <= x * c <= y * c
  {
    MulMonotone(c, 0, x);
    MulMonotone(c, x, y);
  }

  /** Unclamped running sums of non-negative counts from 0 lay the slices
      out in order inside `[0, Sum(cts))`, the last one ending at the end. */
  lemma RunningSlicesFill(offs: seq<int>, cts: seq<int>)
    requires RunningSum(offs, cts, 0)
    requires AllNonNegative(cts)
    requires |cts| > 0
    ensures forall n :: 0 <= n < |cts| ==> 0 <= offs[n] && offs[n] + cts[n] <= Sum(cts)
    ensures forall i, j :: 0 <= i < j < |cts| ==> offs[i] + cts[i] <= offs[j]
    ensures offs[|cts| - 1] + cts[|cts| - 1] == Sum(cts)
  {
    RunningOffsetsArePrefixSums(offs, cts, 0);
    SumFullPrefix(cts);
    assert cts[..0] == [];
    forall n | 0 <= n < |cts|
      ensures 0 <= offs[n] && offs[n] + cts[n] <= Sum(cts)
    {
      SumPrefixStep(cts, n);
      PrefixSumMonotone(cts, 0, n);
      PrefixSumMonotone(cts, n + 1, |cts|);
    }
    forall i, j | 0 <= i < j < |cts|
      ensures offs[i] + cts[i] <= offs[j]
    {
      SumPrefixStep(cts, i);
      PrefixSumMonotone(cts, i + 1, j);
    }
    SumPrefixStep(cts, |cts| - 1);
  }

  /** With non-negative probe and table counts, each rank's hash slice lies
      inside the query-hash buffer, slices of lower ranks end before those of
      higher ranks begin, and the last rank's slice ends at the buffer's end. */
  lemma HashSlicesFillBuffer(p: PartitionPlan, numDataVectors: nat, numQueryVectors: nat,
                             worldSize: int, numTables: int, numQueryProbes: int)
    requires IsPlanFor(p, numDataVectors, numQueryVectors, worldSize, numTables, numQueryProbes)
    requires numTables >= 0 && numQueryProbes >= 0
    ensures forall n :: 0 <= n < worldSize ==>
              0 <= p.hashOffsets[n] <= p.hashOffsets[n] + p.hashCts[n]
                <= numQueryVectors * numQueryProbes * numTables
    ensures forall i, j :: 0 <= i < j < worldSize ==> p.hashOffsets[i] + p.hashCts[i] <= p.hashOffsets[j]
    ensures p.hashOffsets[worldSize - 1] + p.hashCts[worldSize - 1]
              == numQueryVectors * numQueryProbes * numTables
  {
    BalancedSplitShape(p.queryCts, numQueryVectors, worldSize);
    forall j | 0 <= j < worldSize
      ensures p.hashCts[j] >= 0
    {
      ProductBetween(0, p.queryCts[j], numQueryProbes);
      ProductBetween(0, p.queryCts[j] * numQueryProbes, numTables);
    }
    HashCountsTotal(p.hashCts, p.queryCts, numQueryVectors, worldSize, numQueryProbes, numTables);
    RunningSlicesFill(p.hashOffsets, p.hashCts);
  }

  lemma {:induction false} ClampedRunningSumDetermined(
    o1: seq<int>, o2: seq<int>, cts: seq<int>, first: int, bound: int, n: int)
    requires ClampedRunningSum(o1, cts, first, bound) && ClampedRunningSum(o2, cts, first, bound)
    requires 0 <= n < |o1|
    ensures o1[n] == o2[n]
    decreases n
  {
    if n > 0 {
      ClampedRunningSumDetermined(o1, o2, cts, first, bound, n - 1);
    }
  }

  /** Agreement without communication: the plan is a function of the shared
      problem size, so every rank that computes it gets the same six arrays. */
  lemma PlanUnique(p1: PartitionPlan, p2: PartitionPlan, numDataVectors: nat, numQueryVectors: nat,
                   worldSize: int, numTables: int, numQueryProbes: int)
    requires IsPlanFor(p1, numDataVectors, numQueryVectors, worldSize, numTables, numQueryProbes)
    requires IsPlanFor(p2, numDataVectors, numQueryVectors, worldSize, numTables, numQueryProbes)
    ensures p1 == p2
  {
    assert p1.dataCts == p2.dataCts;
    assert p1.queryCts == p2.queryCts;
    assert p1.hashCts == p2.hashCts;
    forall n | 0 <= n < worldSize
      ensures p1.dataOffsets[n] == p2.dataOffsets[n] && p1.queryOffsets[n] == p2.queryOffsets[n]
    {
      ClampedRunningSumDetermined(p1.dataOffsets, p2.dataOffsets, p1.dataCts, numQueryVectors,
                                  DataBound(numDataVectors, numQueryVectors), n);
      ClampedRunningSumDetermined(p1.queryOffsets, p2.queryOffsets, p1.queryCts, 0,
                                  QueryBound(numQueryVectors), n);
    }
    RunningOffsetsArePrefixSums(p1.hashOffsets, p1.hashCts, 0);
    RunningOffsetsArePrefixSums(p2.hashOffsets, p2.hashCts, 0);
    assert p1.dataOffsets == p2.dataOffsets;
    assert p1.queryOffsets == p2.queryOffsets;
    assert p1.hashOffsets == p2.hashOffsets;
  }

  // ---------------------------------------------------------------------
  // Machine integers
  // ---------------------------------------------------------------------

  /** Largest value of a C++ `int` on the platforms the controller targets. */
  const MaxInt32: int := 0x7fff_ffff

  /** One rank's clamped offset and the sum the constructor forms from it
      stay within `[-1, first + total]`. */
  lemma ClampedEntryBounded(offs: seq<int>, cts: seq<int>, total: nat, worldSize: int,
                            first: nat, n: int)
    requires BalancedSplit(cts, total, worldSize)
    requires ClampedRunningSum(offs, cts, first, first + total - 1)
    requires 0 <= n < worldSize
    ensures 0 <= cts[n] <= total
    ensures -1 <= offs[n] && offs[n] + cts[n] <= first + total
  {
    BalancedSplitShape(cts, total, worldSize);
    SplitConserves(cts, total, worldSize);
    SumFullPrefix(cts);
    SumPrefixStep(cts, n);
    PrefixSumMonotone(cts, 0, n);
    PrefixSumMonotone(cts, n + 1, worldSize);
    assert cts[..0] == [];
    if n >= 1 {
      ClampedOffsetIsClampedPrefixSum(offs, cts, first, first + total - 1, n);
    }
  }

  /** The model uses unbounded integers; this bounds the values the
      constructor forms.  If the two region sizes add up to at most
      `MaxInt32`, and so does the query-hash buffer length (with its first
      product), then every entry of the plan and every sum and product the
      constructor forms on the way lies in `[-1, MaxInt32]`, so no C++ `int`
      overflows.  (It says nothing about the float quotient, which is a
      separate matter.) */
  lemma PlanFitsInt32(p: PartitionPlan, numDataVectors: nat, numQueryVectors: nat,
                      worldSize: int, numTables: int, numQueryProbes: int)
    requires IsPlanFor(p, numDataVectors, numQueryVectors, worldSize, numTables, numQueryProbes)
    requires numDataVectors + numQueryVectors <= MaxInt32
    requires numTables >= 0 && numQueryProbes >= 0
    requires numQueryVectors * numQueryProbes <= MaxInt32
    requires numQueryVectors * numQueryProbes * numTables <= MaxInt32
    ensures forall n :: 0 <= n < worldSize ==>
              && 0 <= p.dataCts[n] && -1 <= p.dataOffsets[n]
              && p.dataOffsets[n] + p.dataCts[n] <= MaxInt32
              && 0 <= p.queryCts[n] && -1 <= p.queryOffsets[n]
              && p.queryOffsets[n] + p.queryCts[n] <= MaxInt32
    ensures forall n :: 0 <= n < worldSize ==>
              && 0 <= p.queryCts[n] * numQueryProbes <= MaxInt32
              && 0 <= p.hashCts[n] && 0 <= p.hashOffsets[n]
              && p.hashOffsets[n] + p.hashCts[n] <= MaxInt32
  {
    HashSlicesFillBuffer(p, numDataVectors, numQueryVectors, worldSize, numTables, numQueryProbes);
    forall n | 0 <= n < worldSize
      ensures 0 <= p.dataCts[n] && -1 <= p.dataOffsets[n]
      ensures p.dataOffsets[n] + p.dataCts[n] <= MaxInt32
      ensures 0 <= p.queryCts[n] && -1 <= p.queryOffsets[n]
      ensures p.queryOffsets[n] + p.queryCts[n] <= MaxInt32
    {
      ClampedEntryBounded(p.dataOffsets, p.dataCts, numDataVectors, worldSize, numQueryVectors, n);
      ClampedEntryBounded(p.queryOffsets, p.queryCts, numQueryVectors, worldSize, 0, n);
    }
    forall n | 0 <= n < worldSize
      ensures 0 <= p.queryCts[n] * numQueryProbes <= numQueryVectors * numQueryProbes
    {
      ClampedEntryBounded(p.queryOffsets, p.queryCts, numQueryVectors, worldSize, 0, n);
      ProductBetween(p.queryCts[n], numQueryVectors, numQueryProbes);
    }
  }
}
