# FLASH controller partition planner, in Dafny

This project models the per-rank controller (`flashControl`) of a distributed
LSH similarity-search engine. Every worker process ("rank") builds one
controller. Its constructor computes, for the whole world of `worldSize`
ranks and without any communication:

- how many data vectors and query vectors each rank owns (a balanced split,
  the first `total % worldSize` ranks taking one extra);
- how many query-hash slots each rank needs (`queryCt * numQueryProbes * numTables`);
- where each rank's slice begins: data and query offsets are running sums
  clamped at the last index of their region, and hash offsets are unclamped
  running sums;
- this rank's own figures (`_myDataVectorsCt`, `_myDataVectorsOffset`,
  `_myQueryVectorsCt`, `_myHashCt`).

The destructor releases every buffer the controller owns. It releases the
coordinator's three sparse buffers only on rank 0.

Files:

- `sums.dfy` (module `Sums`): sums and prefix sums of integer sequences.
- `partition.dfy` (module `Partition`): the plan record and the predicates
  that specify each array. It also holds `ComputePlan`, which is the
  constructor's three loops written as a method with loop invariants.
- `partition_lemmas.dfy` (module `PlanProperties`): lemmas about the plan.
  They cover conservation, balance, remainder priority, a converse
  characterization of the split, monotone clamped offsets, tiling of the
  non-empty slices, the hash slices filling the query-hash buffer, the plan's
  uniqueness, and a bound showing the values fit in 32-bit `int`.
- `flash_control.dfy` (module `FlashControl`): the configuration, the
  constructor as a method returning a `Result`, the agreement between ranks,
  and the destructor's release sequence.
- `scenarios.dfy` (module `Scenarios`): concrete plans for small worlds.

Some behaviour of the code is easy to misread. The model follows the code:

- The code accepts `numTables == 0` and `numQueryProbes == 0` (the hash
  buffer then has length 0), and so does the model.
- Offsets are monotone only when their category is non-empty
  (`PlanProperties.PlanOffsetsOrdered`). With no query vectors, every query
  offset after rank 0 is -1 (`PlanProperties.EmptyQueryOffsetsDrop`). With
  no data vectors, every data offset after rank 0 is `numQueryVectors - 1`,
  the last query index, which lies inside the query region
  (`PlanProperties.EmptyDataOffsetsDrop`).
- In a non-empty category, the offset of a rank that owns nothing is
  clamped to the last index of the region, which belongs to another rank.
  In an empty category rank 0 keeps the start and every later rank gets
  `first - 1`; no rank owns either index. For example, 3 data vectors on
  5 ranks give data offsets `[0, 1, 2, 2, 2]` (`Scenarios.ThreeDataOverFiveRanks`).
  Callers must therefore check the count before using the offset.
- The code does not validate its configuration. The model's constructor
  returns an error instead: `WorldSizeNotPositive` for `worldSize <= 0` (the
  code divides by zero or allocates a negative-length array),
  `RankOutOfRange` for `myRank` outside `[0, worldSize)` (the code reads out
  of bounds), and `NegativeSize` for a negative vector count, table count or
  probe count.

## Model

| member | source | states |
|---|---|---|
| Partition.ComputePlan | davinci/flashControl_init.cpp:16-55 | The constructor's three loops produce, for every rank, the balanced share of data and query vectors, hash counts equal to query count times probes times tables, data offsets starting at `numQueryVectors` and clamped at `numData + numQuery - 1`, query offsets starting at 0 and clamped at `numQuery - 1`, and hash offsets as an unclamped running sum from 0 |
| PlanProperties.BalancedSplitShape | davinci/flashControl_init.cpp:29-44 | A rank gets `total / worldSize + 1` exactly when its index is below `total % worldSize`, and `total / worldSize` otherwise. Counts are non-negative, never increase with the rank, and any two differ by at most one |
| PlanProperties.SplitConserves | davinci/flashControl_init.cpp:34-44 | The per-rank counts of a category add up to that category's total |
| PlanProperties.SplitCharacterization | davinci/flashControl_init.cpp:29-44 | Conversely, any non-increasing assignment of `worldSize` counts that differ by at most one and add up to `total` is exactly the controller's split. So the remainder-to-low-ranks policy is the unique ordered balanced split |
| PlanProperties.ClampedOffsetsArePrefixSums | davinci/flashControl_init.cpp:48-53 | Clamping at every step equals clamping once: after rank 0, an offset is `min(first + sum of earlier counts, bound)` |
| PlanProperties.ClampedOffsetsMonotone | davinci/flashControl_init.cpp:51-53 | If counts are non-negative and the start is at most the bound, the clamped offsets never decrease and stay within `[first, bound]` |
| PlanProperties.EmptyCategoryClampsBelowStart | davinci/flashControl_init.cpp:51-53 | For an empty category, every offset after rank 0 is clamped to `first - 1`, one below the start |
| PlanProperties.NonzeroRankOffsetUnclamped | davinci/flashControl_init.cpp:34-55 | For a rank that owns at least one vector the clamp never applies: its offset is the region start plus all earlier counts |
| PlanProperties.SlicesOrdered | davinci/flashControl_init.cpp:34-55 | A non-empty slice lies inside `[first, first + total)`, and a lower rank's slice ends before a higher rank's non-empty slice begins |
| PlanProperties.SlicesTile | davinci/flashControl_init.cpp:34-55 | The non-empty slices `[offset, offset + count)` cover exactly `[first, first + total)` and no index lies in two slices. Each non-empty slice starts where the previous rank's slice ends, and lower ranks' slices end before higher ranks' non-empty slices begin |
| PlanProperties.RunningOffsetsArePrefixSums | davinci/flashControl_init.cpp:50-54 | The hash offsets are the unclamped prefix sums of the hash counts |
| PlanProperties.RunningSlicesFill | davinci/flashControl_init.cpp:50-54 | Running sums from 0 of non-negative counts lay the slices out in rank order inside `[0, sum of counts)`, and the last slice ends exactly at the sum |
| PlanProperties.HashCountsTotal | davinci/flashControl_init.cpp:46-66 | The per-rank hash counts add up to the `_allQueryHashes` length, `numQueryVectors * numQueryProbes * numTables` |
| PlanProperties.PlanConserves | davinci/flashControl_init.cpp:34-66 | In a computed plan, data counts sum to `numDataVectors`, query counts to `numQueryVectors`, and hash counts to the query-hash buffer length |
| PlanProperties.PlanOffsetsOrdered | davinci/flashControl_init.cpp:48-53 | With at least one data vector, the data offsets are non-decreasing and lie in `[numQuery, numData + numQuery - 1]`. With at least one query vector, the query offsets are non-decreasing and lie in `[0, numQuery - 1]` |
| PlanProperties.EmptyQueryOffsetsDrop | davinci/flashControl_init.cpp:49-53 | With no query vectors and at least two ranks, rank 0's query offset is 0 and every later rank's is -1, so monotonicity needs a non-empty category |
| PlanProperties.EmptyDataOffsetsDrop | davinci/flashControl_init.cpp:48-52 | With no data vectors, rank 0's data offset is `numQueryVectors` and every later rank's is `numQueryVectors - 1`, the last query index |
| PlanProperties.PlanSlicesTile | davinci/flashControl_init.cpp:34-55 | Data slices tile `[numQuery, numQuery + numData)` and query slices tile `[0, numQuery)`. No index is owned by two ranks, and slices are laid out in rank order |
| PlanProperties.HashSlicesFillBuffer | davinci/flashControl_init.cpp:46-66 | If probes and tables are non-negative, every rank's hash slice lies inside the query-hash buffer. Lower ranks' slices end before higher ranks' begin, and the last rank's slice ends exactly at the buffer's end |
| PlanProperties.PlanUnique | davinci/flashControl_init.cpp:29-55 | Two plans computed for the same problem size are identical, so every rank derives the same boundaries without communicating |
| PlanProperties.PlanFitsInt32 | davinci/flashControl_init.cpp:46-66 | Suppose the two region sizes together fit in a 32-bit `int`, and so do the query-hash buffer length and its first product. Then every count, offset, running sum and hash product the constructor forms lies in `[-1, MaxInt32]`, so no C++ `int` overflows. This does not cover the float quotient (see Left out) |
| FlashControl.Construct | davinci/flashControl_init.cpp:3-71 | The constructor fails exactly on an invalid configuration, and names the first check violated. Otherwise it holds the plan for the problem size and a query-hash buffer of length `numQuery * probes * tables`. Its four own-slice fields are the plan's entries at `myRank`, that is, the rank's share of each category and its hash count. When it owns data, its data slice lies inside the data region |
| FlashControl.RanksAgree | davinci/flashControl_init.cpp:29-71 | Controllers built on different ranks for the same problem hold the same plan, and two different ranks that both own data have non-overlapping data slices |
| FlashControl.ConstructorAllocations | davinci/flashControl_init.cpp:16-66 | The constructor allocates exactly the buffers that are neither sparse nor local vector buffers: the ten per-rank arrays and the query-hash buffer. It never allocates a sparse buffer, on any rank |
| FlashControl.DestructorReleases | davinci/flashControl_init.cpp:83-112 | The destructor's release sequence contains each sparse buffer exactly when the rank is 0. That no buffer is released twice is stated by `FlashControl.ReleasedExactlyOnce` |
| FlashControl.ReleasedExactlyOnce | davinci/flashControl_init.cpp:83-112 | Every buffer the controller can own is released exactly once, except the sparse buffers, which are released only on rank 0 |
| FlashControl.DestructorBalancesConstructor | davinci/flashControl_init.cpp:83-112 | Everything the constructor allocated is released on every rank. The only other releases are the later-phase local vector buffers and, on rank 0, the sparse buffers |
| Scenarios.TenDataOverThreeRanks | davinci/flashControl_init.cpp:29-55 | 10 data vectors and no query vectors on 3 ranks give counts `[4, 3, 3]`, data offsets `[0, 4, 7]` and query offsets `[0, -1, -1]` |
| Scenarios.SevenQueriesOverFourRanks | davinci/flashControl_init.cpp:29-55 | 7 query vectors on 4 ranks give counts `[2, 2, 2, 1]` and offsets `[0, 2, 4, 6]` |
| Scenarios.ThreeDataOverFiveRanks | davinci/flashControl_init.cpp:29-55 | 3 data vectors on 5 ranks give counts `[1, 1, 1, 0, 0]` and clamped offsets `[0, 1, 2, 2, 2]` |
| Scenarios.HashSlotsForFourQueriesPerRank | davinci/flashControl_init.cpp:29-55 | 16 query vectors on 4 ranks with 3 probes and 2 tables give 24 hash slots per rank at offsets `[0, 24, 48, 72]` |

## Left out

- The float `std::floor` at lines 29 and 31 is modelled as exact integer floor division. The two agree while the counts are below 2^24. Above that, single-precision rounding can change the quotient. For example, 16777217 vectors on one rank convert to 16777216.0, which would lose one vector. The model assumes counts below 2^24.
- C++ `int` overflow at lines 46, 52, 53, 54 and 66 is not modelled, because the model uses unbounded integers. `PlanProperties.PlanFitsInt32` states the input bounds under which no overflow occurs.
- The source does no configuration checking. For negative sizes, its behaviour (floor quotient mixed with a truncating `%`, `new[]` throwing on a negative length) is not modelled, because the model's constructor rejects those configurations. That includes inputs the code runs through normally: a negative `numTables` with no query vectors, or negative `numTables` and `numQueryProbes` together, give a non-negative buffer length at line 66, yet the model returns `NegativeSize`.
- Allocation failure (`new[]` throwing) is not modelled. Allocation and release are modelled only as the sets and sequences of buffer names involved.
- The debug and readiness printing (lines 57-64, 73-80) is left out. It is observability only.
- The `LSHReservoirSampler` and `CMS` handles (lines 6-7) are not part of the model, because the constructor stores them and never uses them. `reservoirSize` is kept in the configuration but is also unused.
- `_dataOffsets`, `_dataCts`, `_queryOffsets` and `_queryCts` are allocated but never filled here. They appear only as names in the allocation and release sets.
- The local vector buffers and the sparse buffers are filled by code that is not part of this model. Whether they are null when released is not claimed; only which of them are released is modelled.
- The controller's lifecycle (use after destruction) is not modelled, and neither is the message-passing transport that consumes the plan.
