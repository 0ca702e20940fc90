/** The partition planner of the FLASH controller: for every rank of the
    world it computes how many data vectors, query vectors and query hashes
    the rank owns, and where its slice of each begins.  Every rank runs the
    planner over the whole world, so the plan must be a function of the
    shared problem size alone. */
module Partition {
  import opened Sums

  /** The six per-rank arrays the constructor fills, one entry per rank. */
  datatype PartitionPlan = PartitionPlan(
    dataCts: seq<int>,
    dataOffsets: seq<int>,
    queryCts: seq<int>,
    queryOffsets: seq<int>,
    hashCts: seq<int>,
    hashOffsets: seq<int>)

  /** The share of `total` items owned by `rank`: the floor quotient, plus
      one for each of the first `total % worldSize` ranks. */
  function Share(total: nat, worldSize: int, rank: int): nat
    requires worldSize > 0
  {
    total / worldSize + (if rank < total % worldSize then 1 else 0)
  }

  /** `cts` gives every one of `worldSize` ranks its share of `total`. */
  predicate BalancedSplit(cts: seq<int>, total: nat, worldSize: int)
  {
    && worldSize > 0
    && |cts| == worldSize
    && forall i :: 0 <= i < |cts| ==> cts[i] == Share(total, worldSize, i)
  }

  /** Offsets start at `first`; each later offset is the previous offset
      plus the previous count, but never more than `bound`. */
  predicate ClampedRunningSum(offs: seq<int>, cts: seq<int>, first: int, bound: int)
  {
    && |offs| == |cts|
    && (|offs| > 0 ==> offs[0] == first)
    && forall n :: 1 <= n < |offs| ==> offs[n] == Min(offs[n - 1] + cts[n - 1], bound)
  }

  /** Offsets start at `first`; each later offset is the previous offset
      plus the previous count, with no upper bound. */
  predicate RunningSum(offs: seq<int>, cts: seq<int>, first: int)
  {
    && |offs| == |cts|
    && (|offs| > 0 ==> offs[0] == first)
    && forall n :: 1 <= n < |offs| ==> offs[n] == offs[n - 1] + cts[n - 1]
  }

  /** Every rank needs one hash slot per query vector, probe and table. */
  predicate HashCountsOf(hashCts: seq<int>, queryCts: seq<int>, numQueryProbes: int, numTables: int)
  {
    && |hashCts| == |queryCts|
    && forall j :: 0 <= j < |hashCts| ==> hashCts[j] == queryCts[j] * numQueryProbes * numTables
  }

  /** Upper clamp of the data offsets: the last index of the shared
      query-then-data index space. */
  function DataBound(numDataVectors: nat, numQueryVectors: nat): int
  {
    numDataVectors + numQueryVectors - 1
  }

  /** Upper clamp of the query offsets: the last query index. */
  function QueryBound(numQueryVectors: nat): int
  {
    numQueryVectors - 1
  }

  /** `p` is the plan the controller computes for this problem size.  Data
      vectors are numbered after the query vectors, so the data region
      starts at `numQueryVectors`. */
  predicate IsPlanFor(p: PartitionPlan, numDataVectors: nat, numQueryVectors: nat,
                      worldSize: int, numTables: int, numQueryProbes: int)
  {
    && BalancedSplit(p.dataCts, numDataVectors, worldSize)
    && BalancedSplit(p.queryCts, numQueryVectors, worldSize)
    && HashCountsOf(p.hashCts, p.queryCts, numQueryProbes, numTables)
    && ClampedRunningSum(p.dataOffsets, p.dataCts, numQueryVectors,
                         DataBound(numDataVectors, numQueryVectors))
    && ClampedRunningSum(p.queryOffsets, p.queryCts, 0, QueryBound(numQueryVectors))
    && RunningSum(p.hashOffsets, p.hashCts, 0)
  }

  /** The three loops of the constructor: per-rank data counts, per-rank
      query and hash counts, then the three offset arrays.  The quotient is
      exact floor division (see README on the float `floor`). */
  method ComputePlan(numDataVectors: nat, numQueryVectors: nat, worldSize: int,
                     numTables: int, numQueryProbes: int)
    returns (p: PartitionPlan)
    requires worldSize > 0
    ensures IsPlanFor(p, numDataVectors, numQueryVectors, worldSize, numTables, numQueryProbes)
  {
    var dataCts := seq(worldSize, _ => 0);
    var queryCts := seq(worldSize, _ => 0);
    var hashCts := seq(worldSize, _ => 0);
    var dataOffsets := seq(worldSize, _ => 0);
    var queryOffsets := seq(worldSize, _ => 0);
    var hashOffsets := seq(worldSize, _ => 0);

    var dataPartitionSize := numDataVectors / worldSize;
    var dataPartitionRemainder := numDataVectors % worldSize;
    var queryPartitionSize := numQueryVectors / worldSize;
    var queryPartitionRemainder := numQueryVectors % worldSize;

    var i := 0;
    while i < worldSize
      invariant 0 <= i <= worldSize
      invariant |dataCts| == worldSize
      invariant forall k :: 0 <= k < i ==> dataCts[k] == Share(numDataVectors, worldSize, k)
    {
      dataCts := dataCts[i := dataPartitionSize];
      if i < dataPartitionRemainder {
        dataCts := dataCts[i := dataCts[i] + 1];
      }
      i := i + 1;
    }

    var j := 0;
    while j < worldSize
      invariant 0 <= j <= worldSize
      invariant |queryCts| == worldSize && |hashCts| == worldSize
      invariant forall k :: 0 <= k < j ==> queryCts[k] == Share(numQueryVectors, worldSize, k)
      invariant forall k :: 0 <= k < j ==> hashCts[k] == queryCts[k] * numQueryProbes * numTables
    {
      queryCts := queryCts[j := queryPartitionSize];
      if j < queryPartitionRemainder {
        queryCts := queryCts[j := queryCts[j] + 1];
      }
      hashCts := hashCts[j := queryCts[j] * numQueryProbes * numTables];
      j := j + 1;
    }

    dataOffsets := dataOffsets[0 := numQueryVectors];
    queryOffsets := queryOffsets[0 := 0];
    hashOffsets := hashOffsets[0 := 0];
    var n := 1;
    while n < worldSize
      invariant 1 <= n <= worldSize
      invariant |dataOffsets| == worldSize && |queryOffsets| == worldSize && |hashOffsets| == worldSize
      invariant dataOffsets[0] == numQueryVectors && queryOffsets[0] == 0 && hashOffsets[0] == 0
      invariant forall k :: 1 <= k < n ==>
                  dataOffsets[k] == Min(dataOffsets[k - 1] + dataCts[k - 1],
                                        DataBound(numDataVectors, numQueryVectors))
      invariant forall k :: 1 <= k < n ==>
                  queryOffsets[k] == Min(queryOffsets[k - 1] + queryCts[k - 1],
                                         QueryBound(numQueryVectors))
      invariant forall k :: 1 <= k < n ==> hashOffsets[k] == hashOffsets[k - 1] + hashCts[k - 1]
    {
      dataOffsets := dataOffsets[n := Min(dataOffsets[n - 1] + dataCts[n - 1],
                                          numDataVectors + numQueryVectors - 1)];
      queryOffsets := queryOffsets[n := Min(queryOffsets[n - 1] + queryCts[n - 1],
                                            numQueryVectors - 1)];
      hashOffsets := hashOffsets[n := hashOffsets[n - 1] + hashCts[n - 1]];
      n := n + 1;
    }

    p := PartitionPlan(dataCts, dataOffsets, queryCts, queryOffsets, hashCts, hashOffsets);
  }
}
