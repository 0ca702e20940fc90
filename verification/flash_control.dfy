/** The FLASH controller of one rank: construction computes the partition
    plan for the whole world, sizes the query-hash buffer and records this
    rank's own figures; destruction releases the buffers the controller
    owns, the coordinator's sparse buffers only on rank 0. */
module FlashControl {
  import opened Partition
  import opened PlanProperties

  /** The constructor's parameters.  The reservoir and sketch handles are
      stored by the source and never used by this code, so they are absent. */
  datatype Config = Config(
    myRank: int,
    worldSize: int,
    numDataVectors: int,
    numQueryVectors: int,
    numTables: int,
    numQueryProbes: int,
    reservoirSize: int)

  /** Why a configuration cannot produce a controller. */
  datatype ConfigError = WorldSizeNotPositive | RankOutOfRange | NegativeSize

  datatype Result<T> = Ok(value: T) | Err(error: ConfigError)

  /** A constructed controller: the plan over all ranks, the length of the
      query-hash buffer, and the four fields describing this rank's slice. */
  datatype Controller = Controller(
    config: Config,
    plan: PartitionPlan,
    allQueryHashesLength: int,
    myDataVectorsCt: int,
    myDataVectorsOffset: int,
    myQueryVectorsCt: int,
    myHashCt: int)

  /** A configuration the constructor can serve without dividing by zero,
      indexing past a per-rank array or sizing a buffer negatively. */
  predicate ValidConfig(c: Config)
  {
    && c.worldSize > 0
    && 0 <= c.myRank < c.worldSize
    && c.numDataVectors >= 0
    && c.numQueryVectors >= 0
    && c.numTables >= 0
    && c.numQueryProbes >= 0
  }

  /** Two configurations describe the same problem, possibly on different
      ranks. */
  predicate SameProblem(c1: Config, c2: Config)
  {
    && c1.worldSize == c2.worldSize
    && c1.numDataVectors == c2.numDataVectors
    && c1.numQueryVectors == c2.numQueryVectors
    && c1.numTables == c2.numTables
    && c1.numQueryProbes == c2.numQueryProbes
  }

  /** `ctl` is what the constructor builds from the valid configuration `c`:
      the plan for this problem size, the query-hash buffer length, and the
      own-slice fields read from the plan at `c.myRank`. */
  predicate BuiltFrom(ctl: Controller, c: Config)
  {
    && ValidConfig(c)
    && ctl.config == c
    && IsPlanFor(ctl.plan, c.numDataVectors, c.numQueryVectors, c.worldSize,
                 c.numTables, c.numQueryProbes)
    && ctl.allQueryHashesLength == c.numQueryVectors * c.numQueryProbes * c.numTables
    && ctl.myDataVectorsCt == ctl.plan.dataCts[c.myRank]
    && ctl.myDataVectorsOffset == ctl.plan.dataOffsets[c.myRank]
    && ctl.myQueryVectorsCt == ctl.plan.queryCts[c.myRank]
    && ctl.myHashCt == ctl.plan.hashCts[c.myRank]
  }

  /** The error reported for an invalid configuration: the world size is
      judged first, then the rank, then the sizes. */
  function FirstViolation(c: Config): ConfigError
    requires !ValidConfig(c)
  {
    if c.worldSize <= 0 then WorldSizeNotPositive
    else if !(0 <= c.myRank < c.worldSize) then RankOutOfRange
    else NegativeSize
  }

  /** The constructor.  On a valid configuration the plan is the one every
      rank computes, the query-hash buffer holds one slot per query vector,
      probe and table, and the own-slice fields are this rank's entries of
      the plan: its share of each category, its hash count, and a data
      slice inside the data region whenever it owns data. */
  method Construct(c: Config) returns (r: Result<Controller>)
    ensures r.Err? <==> !ValidConfig(c)
    ensures r.Err? ==> r.error == FirstViolation(c)
    ensures r.Ok? ==> BuiltFrom(r.value, c)
    ensures r.Ok? ==>
              && r.value.myDataVectorsCt == Share(c.numDataVectors, c.worldSize, c.myRank)
              && r.value.myQueryVectorsCt == Share(c.numQueryVectors, c.worldSize, c.myRank)
              && r.value.myHashCt == r.value.myQueryVectorsCt * c.numQueryProbes * c.numTables
    ensures r.Ok? && r.value.myDataVectorsCt > 0 ==>
              && c.numQueryVectors <= r.value.myDataVectorsOffset
              && r.value.myDataVectorsOffset + r.value.myDataVectorsCt
                   <= c.numQueryVectors + c.numDataVectors
  {
    if !ValidConfig(c) {
      return Err(FirstViolation(c));
    }
    var numData: nat := c.numDataVectors;
    var numQuery: nat := c.numQueryVectors;
    var p := ComputePlan(numData, numQuery, c.worldSize, c.numTables, c.numQueryProbes);
    var rank := c.myRank;
    var ctl := Controller(
      c, p, numQuery * c.numQueryProbes * c.numTables,
      p.dataCts[rank], p.dataOffsets[rank], p.queryCts[rank], p.hashCts[rank]);
    if ctl.myDataVectorsCt > 0 {
      PlanSlicesTile(p, numData, numQuery, c.worldSize, c.numTables, c.numQueryProbes);
      var first, last := ctl.myDataVectorsOffset, ctl.myDataVectorsOffset + ctl.myDataVectorsCt - 1;
      assert InSlice(p.dataOffsets, p.dataCts, rank, first);
      assert InSlice(p.dataOffsets, p.dataCts, rank, last);
      assert InRegion(numQuery, numData, first) && InRegion(numQuery, numData, last);
    }
    return Ok(ctl);
  }

  /** Ranks agree without communicating: controllers built for the same
      problem hold the same plan, and two different ranks that both own
      data vectors own non-overlapping data slices. */
  lemma RanksAgree(k1: Controller, k2: Controller)
    requires BuiltFrom(k1, k1.config) && BuiltFrom(k2, k2.config)
    requires SameProblem(k1.config, k2.config)
    ensures k1.plan == k2.plan
    ensures k1.config.myRank != k2.config.myRank && k1.myDataVectorsCt > 0 && k2.myDataVectorsCt > 0 ==>
              || k1.myDataVectorsOffset + k1.myDataVectorsCt <= k2.myDataVectorsOffset
              || k2.myDataVectorsOffset + k2.myDataVectorsCt <= k1.myDataVectorsOffset
  {
    var c := k1.config;
    PlanUnique(k1.plan, k2.plan, c.numDataVectors, c.numQueryVectors, c.worldSize,
               c.numTables, c.numQueryProbes);
    PlanSlicesTile(k1.plan, c.numDataVectors, c.numQueryVectors, c.worldSize,
                   c.numTables, c.numQueryProbes);
  }

  // ---------------------------------------------------------------------
  // Buffers and their release
  // ---------------------------------------------------------------------

  /** Every array the controller owns. */
  datatype Buffer =
    | DataVectorOffsets | DataVectorCts | DataOffsets | DataCts
    | QueryVectorOffsets | QueryVectorCts | QueryOffsets | QueryCts
    | MyDataIndices | MyDataVals | MyDataMarkers
    | MyQueryIndices | MyQueryVals | MyQueryMarkers
    | HashCts | HashOffsets
    | SparseIndices | SparseVals | SparseMarkers
    | AllQueryHashes
  {
    /** The coordinator's aggregation buffers. */
    predicate IsSparse()
    {
      this == SparseIndices || this == SparseVals || this == SparseMarkers
    }

    /** The buffer's place in the destructor's release order, counting from 0
        (on ranks other than 0 the sparse buffers are skipped). */
    function Position(): nat
    {
      match this
      case DataVectorOffsets => 0
      case DataVectorCts => 1
      case DataOffsets => 2
      case DataCts => 3
      case QueryVectorOffsets => 4
      case QueryVectorCts => 5
      case QueryOffsets => 6
      case QueryCts => 7
      case MyDataIndices => 8
      case MyDataVals => 9
      case MyDataMarkers => 10
      case MyQueryIndices => 11
      case MyQueryVals => 12
      case MyQueryMarkers => 13
      case HashCts => 14
      case HashOffsets => 15
      case SparseIndices => 16
      case SparseVals => 17
      case SparseMarkers => 18
      case AllQueryHashes => 19
    }

    /** Filled by the later ingestion phase rather than the constructor. */
    predicate IsLocalVectorBuffer()
    {
      || this == MyDataIndices || this == MyDataVals || this == MyDataMarkers
      || this == MyQueryIndices || this == MyQueryVals || this == MyQueryMarkers
    }
  }

  /** The buffers the constructor allocates: the ten per-rank arrays and the
      query-hash buffer.  No sparse buffer and no local vector buffer is
      among them, on any rank. */
  function ConstructorAllocations(): (s: set<Buffer>)
    ensures forall b :: b in s <==> !b.IsSparse() && !b.IsLocalVectorBuffer()
  {
    {DataVectorOffsets, DataVectorCts, DataOffsets, DataCts,
     QueryVectorOffsets, QueryVectorCts, QueryOffsets, QueryCts,
     HashCts, HashOffsets, AllQueryHashes}
  }

  /** No buffer occurs twice. */
  predicate NoDuplicates(log: seq<Buffer>)
  {
    forall i, j :: 0 <= i < j < |log| ==> log[i] != log[j]
  }

  /** Each buffer is released after the one before it in `Position` order. */
  predicate Ascending(log: seq<Buffer>)
  {
    forall i :: 0 <= i < |log| - 1 ==> log[i].Position() < log[i + 1].Position()
  }

  lemma {:induction false} AscendingNoDuplicates(log: seq<Buffer>)
    requires Ascending(log)
    ensures forall i, j :: 0 <= i < j < |log| ==> log[i].Position() < log[j].Position()
    decreases |log|
  {
    if |log| > 1 {
      var front := log[..|log| - 1];
      assert Ascending(front);
      AscendingNoDuplicates(front);
      forall i, j | 0 <= i < j < |log|
        ensures log[i].Position() < log[j].Position()
      {
        if j < |log| - 1 {
          assert log[i] == front[i] && log[j] == front[j];
        } else if i < j - 1 {
          assert log[i] == front[i] && log[j - 1] == front[j - 1];
        }
      }
    }
  }

  /** The buffers the destructor releases, in the order it releases them.
      The sparse buffers are released exactly when this is rank 0. */
  function DestructorReleases(myRank: int): (log: seq<Buffer>)
    ensures forall b: Buffer :: b.IsSparse() ==> (b in log <==> myRank == 0)
  {
    [DataVectorOffsets, DataVectorCts, DataOffsets, DataCts]
    + [QueryVectorOffsets, QueryVectorCts, QueryOffsets, QueryCts]
    + [MyDataIndices, MyDataVals, MyDataMarkers]
    + [MyQueryIndices, MyQueryVals, MyQueryMarkers]
    + [HashCts, HashOffsets]
    + (if myRank == 0 then [SparseIndices, SparseVals, SparseMarkers] else [])
    + [AllQueryHashes]
  }

  /** Exactly-once release: every buffer the controller can own is released
      once, the sparse ones only on rank 0. */
  lemma ReleasedExactlyOnce(myRank: int)
    ensures NoDuplicates(DestructorReleases(myRank))
    ensures forall b :: b in DestructorReleases(myRank) <==> (b.IsSparse() ==> myRank == 0)
  {
    assert Ascending(DestructorReleases(myRank));
    AscendingNoDuplicates(DestructorReleases(myRank));
  }

  /** No leak and no stray release: whatever the constructor allocated is
      released on every rank, and the other releases are the later-phase
      local vector buffers and, on rank 0 only, the sparse buffers. */
  lemma DestructorBalancesConstructor(myRank: int)
    ensures ConstructorAllocations() <= set b | b in DestructorReleases(myRank)
    ensures forall b :: b in DestructorReleases(myRank) <==>
              b in ConstructorAllocations() || b.IsLocalVectorBuffer() || (b.IsSparse() && myRank == 0)
  {
  }
}
