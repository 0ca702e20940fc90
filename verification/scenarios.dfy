/** Concrete plans for small worlds, pinning the planner down on the
    degenerate and the ordinary cases a deployment meets. */
module Scenarios {
  import opened Partition

  /** Ten data vectors, no query vectors, three ranks: rank 0 absorbs the
      remainder and the data slices start at 0, 4 and 7. */
  lemma TenDataOverThreeRanks(p: PartitionPlan, numTables: int, numQueryProbes: int)
    requires IsPlanFor(p, 10, 0, 3, numTables, numQueryProbes)
    ensures p.dataCts == [4, 3, 3]
    ensures p.dataOffsets == [0, 4, 7]
    ensures p.queryOffsets == [0, -1, -1]
  {
    assert p.dataCts[0] == 4 && p.dataCts[1] == 3 && p.dataCts[2] == 3;
    assert p.queryCts[0] == 0 && p.queryCts[1] == 0;
  }

  /** Seven query vectors over four ranks: the last rank gets one fewer. */
  lemma SevenQueriesOverFourRanks(p: PartitionPlan, numDataVectors: nat, numTables: int, numQueryProbes: int)
    requires IsPlanFor(p, numDataVectors, 7, 4, numTables, numQueryProbes)
    ensures p.queryCts == [2, 2, 2, 1]
    ensures p.queryOffsets == [0, 2, 4, 6]
  {
    assert p.queryCts[0] == 2 && p.queryCts[1] == 2 && p.queryCts[2] == 2 && p.queryCts[3] == 1;
  }

  /** More ranks than data vectors: ranks 3 and 4 own nothing, and their
      offsets are clamped onto the last data index rather than past it. */
  lemma ThreeDataOverFiveRanks(p: PartitionPlan, numTables: int, numQueryProbes: int)
    requires IsPlanFor(p, 3, 0, 5, numTables, numQueryProbes)
    ensures p.dataCts == [1, 1, 1, 0, 0]
    ensures p.dataOffsets == [0, 1, 2, 2, 2]
  {
    assert p.dataCts[0] == 1 && p.dataCts[1] == 1 && p.dataCts[2] == 1;
    assert p.dataCts[3] == 0 && p.dataCts[4] == 0;
  }

  /** Two tables and three probes: a rank with four query vectors needs 24
      hash slots, and the hash offsets advance by 24 per rank. */
  lemma HashSlotsForFourQueriesPerRank(p: PartitionPlan, numDataVectors: nat)
    requires IsPlanFor(p, numDataVectors, 16, 4, 2, 3)
    ensures p.hashCts == [24, 24, 24, 24]
    ensures p.hashOffsets == [0, 24, 48, 72]
  {
    assert p.queryCts[0] == 4 && p.queryCts[1] == 4 && p.queryCts[2] == 4 && p.queryCts[3] == 4;
  }
}
