# Verified model of the routing, scanning and streaming algorithms

This project models the self-contained algorithms of the repository's experiment scripts and its two
streaming sources, and proves what they are for. Each component has its own module and file.

| file | what it models |
|---|---|
| `Numbers.dfy`, `Ranking.dfy` | minimum, magnitude and counting; scored candidates, the standard sort and heap services by contract |
| `BeamSearch.dfy`, `GraphBuild.dfy` | bounded beam search over the coarse graph; robust prune and reciprocal edges |
| `Scheduler.dfy`, `SweepCost.dfy`, `JoinTiming.dfy` | the batch-window discrete-event scheduler with mid-sweep joining; what sweeps cost and windows wait; when a joiner is charged against when it arrived |
| `PlaneSample.dfy`, `SaqDp.dfy`, `Quantizers.dfy`, `PlanePack.dfy`, `SaqPlane.dfy` | sample statistics, bit-allocation dynamic program, per-dimension quantizers, bit-packed planes and their table scoring; all of them put together |
| `Vectors.dfy`, `Jacobi.dfy` | dot products, rotations, Cauchy-Schwarz; the Jacobi eigenvalue iteration |
| `Panorama.dfy` | progressive pruning with suffix norms |
| `Lloyd.dfy` | k-means iterations split over threads |
| `FbinSource.dfy` | the double-buffered file reader and its prefetch thread |
| `LabelBuffer.dfy`, `GlobSource.dfy` | the label string queue; the sharded source with its positional label join |
| `ClaimCounter.dfy`, `SharedReplay.dfy` | workers claiming tasks from a shared counter; parallel streaming and the leaf replays |
| `FastScan.dfy`, `Lut4Scan.dfy` | the 32-lane 4-bit kernels; 4-bit tables, block transpose and the scan |
| `TopKMerge.dfy` | the streaming exact top-k merge |

Conventions. Floating-point numbers are exact reals; 8-, 16- and 32-bit lanes and offsets wrap
explicitly. Threads are interleaved atomic steps, and a statement about a run is about every schedule.
Code that updates state in place is a class or a method on arrays, proved against a specification
function; the properties of the specification are lemmas beside it. Square roots, distances, random
choices and the contents of files are parameters; `sqrt` is any function whose square is its argument.
Standard sorts, heaps and selections are used only through their contracts, so ties may fall any way.

## What the code does that its comments or callers might not expect

- The beam search pops from the start value (largest float, node 0). When no distance in the frontier
  is below that value, node 0 is marked visited instead of a frontier node. Hence a returned node other
  than node 0 was expanded if and only if its distance is below the start value
  (`BeamSearch.ExpandedIffBelowTop`), and with a wide enough beam the visited nodes are the reachable ones
  if and only if every reachable node but 0 is below it (`BeamSearch.ExhaustiveSearch`).
  `BeamSearch.FarNodeNeverExpanded` is a chain of three nodes whose last one is never visited. A node can
  be in the result twice, since nodes are marked visited when popped.
- The scheduler stops when the next event lies at 1e18 or later. `Scheduler.RunServesAll` shows that a
  run which stays within that horizon serves every arrival if and only if there is a sweep slot.
- A joiner none of whose leaves the sweep covers can be charged a completion before its own arrival,
  which the code then clamps to zero latency: `JoinTiming.UncoveredJoinCanBeCharged` is a run of two
  queries in which it happens. One covered leaf rules it out (`JoinTiming.CoveredJoinIsLater`), and
  `JoinTiming.JoinedLaterIff` gives the exact condition in the sweep and the probe set before the join.
  Sweeps made longer by joiners do not lengthen latencies already recorded.
- `sources/fbin_source.hpp:66` promises that a chunk stays valid for two calls of `next`. The code
  starts to overwrite it during the very next call; `FbinSource.ValidForTwoCallsIffNothingLeft` gives
  the exact condition under which it survives, and in `FbinSource.OverwrittenAfterOneCall` one prefetch
  step after that call suffices.
- After a failed prefetch `have_pending_` stays set, so a further `next` without `reset` hands out a
  short buffer. `FbinSource.DeliversFileInOrder` shows that this is the only way to get wrong rows, in
  terms of what the caller saw: a call that failed after a chunk had been delivered, and another call
  after it before a reset. `FbinSource.WrongRowAfterFailure` is a run of three calls that ends so.
- In the same way, after the sharded source has thrown for missing labels the vectors of that chunk are
  lost and its labels stay. The next call joins them to later vectors: `GlobSource.MisjoinedAfterShort`
  has chunks of 10 and 3 vectors and 5 label rows, and vectors 10 to 12 come with label rows 0 to 2.
  `GlobSource.JoinedIffNeverShort` shows that delivered chunks carry their own labels if and only if no
  call has thrown since the last `reset`.
- A dimension that is constant in the sample gets step 0 at two bits or more, by which `encode` then
  divides; the code stored is whatever `std::lround` makes of that, clamped. A value has one code in every
  dimension if and only if no such dimension is constant (`SaqPlane.AllocatedCodesDeterminedIff`), and
  `SaqPlane.ConstantDimensionGetsBits` is a sample whose only optimal allocation within 8 bytes gives the
  constant dimension 8 bits. The score is right all the same, as every code decodes to the constant
  (`SaqPlane.DecodedWithinHalfStep`). The variances are mean squares with no mean taken off
  (`PlaneSample.NoVarianceIff`), so a constant dimension has variance 0 only if it is 0 throughout.
- The eigenvalue iteration takes the leading term of the tangent when theta exceeds 1e15 in magnitude; such
  a rotation does not clear its pivot (`Jacobi.AnnihilatesIffNotHuge`) and makes the Frobenius norm grow. A
  run keeps the norm if and only if that never happens (`Jacobi.RunDrains`), as is certain when the squares
  of the input add up to at most 2 (`Jacobi.SmallMatrixRuns`); `Jacobi.HugeThetaInARun` is a matrix whose
  first pivot is such a one.
- `scripts/spike_pq4_recall.cpp:108` speaks of 32-bit accumulation; the kernel's lanes have 16 bits.
  `FastScan.WideExactIff` gives the exact bound. Lines 147-148 say that byte k holds vectors 2k and
  2k+1; the code, and `Lut4Scan.EncodeDataset`, put k and 16+k there.
- The 8-bit kernel is exact for 4-bit table entries at every segment count, not for all tables:
  `FastScan.ByteLanesExactIff` gives the bound and `FastScan.ByteLanesAgreeIff` the condition per input.
- `scripts/subtree_major.cpp:148-149` says that threads take contiguous ranges; they claim one leaf at a
  time from a counter.
- In the ground-truth script external queries carry the id -1, which also masks out the placeholders.
  `TopKMerge.GroundTruth` shows that such a pass fails exactly when the first chunk has more than one
  and fewer than k rows. With a first chunk of a single row it does not fail but fills the list with
  copies of that row; `TopKMerge.OneRowStartRightIff` says exactly when the distances are still right.
  The same queries are given their norm instead of its square (line 69):
  `TopKMerge.ReportedIsShifted` and `TopKMerge.PlainNormRightIff` show that the order is right and the
  values are right only for norms 0 and 1.

## Model

| member | source | states |
|---|---|---|
| Ranking.SortByDist | scripts/spike_graph_coarse_router.cpp:306-307 | a sort by distance: sorted, and a permutation with multiplicity |
| Ranking.PushHeap | scripts/spike_graph_coarse_router.cpp:295-296 | the heap keeps a worst element in front and gains exactly the new entry |
| Ranking.PopHeap | scripts/spike_graph_coarse_router.cpp:299-300 | exactly one worst entry leaves the heap |
| BeamSearch.PopNearest | scripts/spike_graph_coarse_router.cpp:279-287 | the entry taken is nearest in the frontier, or the start value with node 0 when none lies below it |
| BeamSearch.Offer | scripts/spike_graph_coarse_router.cpp:293-303 | after any evaluation the working list is a choice of the L smallest of all evaluations so far; the neighbour is taken iff there is room or it beats the worst, and one turned away once is turned away again |
| BeamSearch.Expand | scripts/spike_graph_coarse_router.cpp:291-304 | exactly the neighbours not yet expanded are evaluated, in list order; apart from node 0 all neighbours have then been evaluated, node 0 too when every other reachable node is below the start value; the invariants survive on every graph |
| BeamSearch.Search | scripts/spike_graph_coarse_router.cpp:257-309 | terminates on every finite graph and returns a certified result: the L smallest of all evaluations with multiplicity, sorted, first result no farther than the entry; the evaluations are those of the neighbours not yet expanded, in the order of expansion; each node is expanded once, after its evaluation, nearest first among those that stay in the beam; what is below the start value is expanded and, apart from node 0, nothing else |
| BeamSearch.EvaluationsCounted | scripts/spike_graph_coarse_router.cpp:291-293 | a node is evaluated once for every time it stands in the list of a node expanded before it, the entry once more |
| BeamSearch.EntryEvaluatedOnce | scripts/spike_graph_coarse_router.cpp:273-293 | an entry below the start value is evaluated exactly once |
| BeamSearch.EvaluatedFor | scripts/spike_graph_coarse_router.cpp:291-293 | every evaluation but the first is of a neighbour of an expanded node that had not been expanded by then |
| BeamSearch.LocallyOptimal | scripts/spike_graph_coarse_router.cpp:257-309 | each neighbour of a returned node below the start value is returned too, or the beam is full and nothing in it is farther; for the neighbour 0 every other reachable node has to be below the start value |
| BeamSearch.LeftOut | scripts/spike_graph_coarse_router.cpp:294-303 | an evaluation that is not returned lost against a full beam |
| BeamSearch.ExpandedIffBelowTop | scripts/spike_graph_coarse_router.cpp:279-290 | a returned node other than node 0 was expanded iff its distance is below the start value |
| BeamSearch.ClosedHoldsPath | scripts/spike_graph_coarse_router.cpp:291-292 | a set with the entry that is closed under edges holds the end of every path |
| BeamSearch.ExhaustiveSearch | scripts/spike_graph_coarse_router.cpp:263-308 | with a beam as wide as the number of evaluations the visited nodes are exactly the reachable ones iff every reachable node but 0 is below the start value, and then the first result is a nearest of them |
| BeamSearch.WidthForExhaustiveSearch | scripts/spike_graph_coarse_router.cpp:263-308 | a width above the number of edges is enough for that, whatever the distances |
| BeamSearch.FarNodeNeverExpanded | scripts/spike_graph_coarse_router.cpp:279-290 | a chain of three nodes whose last is at the start value: reachable, and not visited at any width |
| GraphBuild.Survives | scripts/spike_graph_coarse_router.cpp:332-339 | a candidate is kept iff no node kept before hides it, that is iff alpha times its distance to each is at least its distance to the node |
| GraphBuild.RobustPrune | scripts/spike_graph_coarse_router.cpp:329-341 | the kept list is the one the prune rule picks: at most R nodes, not the node itself, none hidden by an earlier kept one |
| GraphBuild.PruneRuleUnique | scripts/spike_graph_coarse_router.cpp:330-341 | the rule leaves no freedom: two selections that satisfy it are equal |
| GraphBuild.PruneRuleFull | scripts/spike_graph_coarse_router.cpp:330 | stopping at R kept candidates is the rule applied to all of them |
| GraphBuild.PrunedListFacts | scripts/spike_graph_coarse_router.cpp:329-342 | pruned lists have distinct nodes, nearest first, none hidden by one kept before it, and each dropped node is hidden by a kept node no farther away, or R nodes were kept |
| GraphBuild.PruneNode | scripts/spike_graph_coarse_router.cpp:321-342 | one node's candidates, sorted and pruned by the rule |
| GraphBuild.ConnectReciprocal | scripts/spike_graph_coarse_router.cpp:345-353 | the in-place pass leaves exactly the symmetric closure of the graph it was given; lists only grow and stay free of repetitions |
| GraphBuild.BuildGraph | scripts/spike_graph_coarse_router.cpp:313-355 | the built graph is the symmetric closure of the pruned lists: undirected, no loops, no repetitions, all nodes in range, so it can be searched |
| Scheduler.EarliestEnd | scripts/join_sim.cpp:279-280 | the earliest end of the running sweeps, or the far sentinel |
| Scheduler.RetireKeepsTheRest | scripts/join_sim.cpp:291-294 | retiring removes exactly the sweeps that have ended |
| Scheduler.CanAdopt | scripts/join_sim.cpp:302-319 | a sweep can adopt a query iff no covered leaf of it is already swept; counts the uncovered ones |
| Scheduler.FindAdopter | scripts/join_sim.cpp:301-319 | the first sweep that can adopt |
| Scheduler.AdoptGrows | scripts/join_sim.cpp:321-339 | joining keeps the leaf list strictly sorted, makes it the union, and never moves the end to an earlier time |
| Scheduler.JoinChargedByEnd | scripts/join_sim.cpp:340-345 | a joiner is charged no later than the end of the sweep |
| JoinTiming.CoveredJoinIsLater | scripts/join_sim.cpp:302-345 | a joiner completes after it arrived as soon as one of its leaves was covered |
| JoinTiming.JoinedRank | scripts/join_sim.cpp:321-345 | how far the last leaf of a joiner reaches in the merged list, counted in the list before the join |
| JoinTiming.JoinedLaterIff | scripts/join_sim.cpp:302-345 | a joiner completes after its arrival iff the sweep covers one of its leaves, or the place of its last leaf among the leaves before the join lies far enough ahead: a condition on the sweep and the probe set before the join |
| JoinTiming.UncoveredJoinCanBeCharged | scripts/join_sim.cpp:263-345 | a run of two queries in which the second is charged a completion before its own arrival and gets latency 0 |
| SweepCost.UnionIsSet | scripts/join_sim.cpp:248-254 | a sweep covers exactly the leaves some member probes, each once |
| SweepCost.WallIs | scripts/join_sim.cpp:248-260 | a sweep's wall time, for all threads: the fixed cost, the leaf cost of every distinct leaf, the scan cost of every scan |
| SweepCost.EmptyWall | scripts/join_sim.cpp:248-260 | without members that is the fixed cost |
| SweepCost.MemberAdds | scripts/join_sim.cpp:251-259 | one more member adds the leaf cost of its leaves not yet covered and the scan cost of all its leaves |
| SweepCost.JoinAdds | scripts/join_sim.cpp:308-339 | a joiner adds the leaf cost of the leaves the sweep does not cover, and no scans |
| SweepCost.JoinDoneCounts | scripts/join_sim.cpp:321-345 | a joiner is charged the part of the grown sweep up to its last leaf, counted in leaves covered |
| SweepCost.DoneIs | scripts/join_sim.cpp:302-319 | a running sweep has done the part of its leaves that has passed of its time |
| SweepCost.ArrivalsEvenly | scripts/join_sim.cpp:268-278 | arrivals come at even steps from time 0 on |
| SweepCost.QueriesInTurn | scripts/join_sim.cpp:298-298 | the queries are taken in turn, over and over |
| SweepCost.ClosedIff | scripts/join_sim.cpp:362-367 | a window is closed iff the queue has been idle long enough or its front has waited to the deadline |
| SweepCost.WindowLatencies | scripts/join_sim.cpp:362-386 | all queries of a closed window are charged the end of one sweep that starts now and covers what they probe |
| Scheduler.HandleArrival | scripts/join_sim.cpp:297-358 | the arrival branch does what the step function says |
| Scheduler.HandleDispatch | scripts/join_sim.cpp:361-387 | the dispatch branch does what the step function says |
| Scheduler.TimeNeverGoesBack | scripts/join_sim.cpp:276-287 | the next event is never before the current time |
| Scheduler.StepKeepsInv | scripts/join_sim.cpp:274-388 | every event keeps the invariant: bounded sweeps, sorted leaves, every arrival charged or queued once |
| Scheduler.EveryEventProgresses | scripts/join_sim.cpp:274-388 | 3 x arrivals left + 2 x queue + sweeps falls with every event |
| Scheduler.NoEventSkipsTheClose | scripts/join_sim.cpp:281-287 | while a slot is free and queries wait, the next event is no later than the idle or deadline close |
| Scheduler.DispatchedAtCloseOrFreedSlot | scripts/join_sim.cpp:361-386 | a window leaves exactly at its close, or when a full house frees a slot after it |
| Scheduler.RunIsSafe | scripts/join_sim.cpp:263-388 | after any number of events: at most max_inflight sweeps, sorted leaf lists, arrivals = latencies + queue with each arrival once, time not going back |
| Scheduler.FinishedServesAll | scripts/join_sim.cpp:274-388 | when the loop ends by its own condition every arrival has exactly one latency |
| Scheduler.RunServesAll | scripts/join_sim.cpp:263-388 | a run that stops within the horizon has served all arrivals iff a sweep slot exists |
| Scheduler.NoSlotsServeNobody | scripts/join_sim.cpp:282-282 | without slots no latency is ever recorded |
| Scheduler.Simulate | scripts/join_sim.cpp:263-388 | the loop terminates with the latencies of a run that cannot continue, joining on or off: at most one per arrival, none negative, and within the horizon one per arrival iff a slot exists |
| Quantizers.NearestCentroid | scripts/spike_plane_quant.cpp:114-120 | the first centroid at the smallest distance |
| Quantizers.Encode | scripts/spike_plane_quant.cpp:112-126 | the code is in range and is the sign, the nearest centroid or the clamped uniform cell; with step 0 it is in range |
| Quantizers.DeterminedIff | scripts/spike_plane_quant.cpp:112-126 | a value has only one code unless the quantizer is a uniform one with step 0 |
| Quantizers.CentroidDecodesNearest | scripts/spike_plane_quant.cpp:105-121 | with centroids no centroid is nearer to the value than what its code decodes to |
| Quantizers.LevelsAre | scripts/spike_plane_quant.cpp:104-104 | 2, 4, 16 and 256 levels at 1, 2, 4 and 8 bits |
| Quantizers.RoundsHalvesAway | scripts/spike_plane_quant.cpp:123-124 | `std::lround` takes halves away from zero |
| Quantizers.UniformRoundTrip | scripts/spike_plane_quant.cpp:105-126 | every code the encoder may give a value in the trained range decodes to within half a step of it, to the value itself at step 0 |
| PlaneSample.Ranges | scripts/spike_plane_quant.cpp:412-421 | the pass finds the least and greatest value and the sum of magnitudes of every dimension |
| PlaneSample.Gather | scripts/spike_plane_quant.cpp:412-427 | range, mean magnitude and mean square of every dimension |
| PlaneSample.ConstantIff | scripts/spike_plane_quant.cpp:412-421 | a dimension's range is a point iff the sample is constant in it |
| PlaneSample.NoVarianceIff | scripts/spike_plane_quant.cpp:423-427 | the variance is 0 iff the dimension is 0 throughout |
| PlaneSample.MeanSquareIsDot | scripts/spike_plane_quant.cpp:423-427 | the variance times the number of rows is the inner product of the dimension's values with themselves |
| PlaneSample.SignScaleIsBest | scripts/spike_plane_quant.cpp:415-422 | the mean magnitude is the best scale for a sign code of the sample |
| PlaneSample.SampleBelowInf | scripts/spike_plane_quant.cpp:423-427 | no sample of finite floats reaches the allocation's infinity |
| SaqDp.OptIsLower | scripts/spike_plane_quant.cpp:509-527 | the optimum is at most the distortion of every width assignment within the budget |
| SaqDp.OptIsAttained | scripts/spike_plane_quant.cpp:509-527 | some assignment within the budget attains it |
| SaqDp.DistortionIsFlat | scripts/spike_plane_quant.cpp:500-518 | the distortion is, dimension by dimension, variance times the ratio of the width |
| SaqDp.BytesHoldBits | scripts/spike_plane_quant.cpp:514-515 | an allocation's bytes hold exactly the bits of its dimensions |
| SaqDp.LongSegmentNoBetter | scripts/spike_plane_quant.cpp:512-525 | segments of several groups never beat single groups, so lengths always stay 8 |
| SaqDp.Choose | scripts/spike_plane_quant.cpp:511-526 | one cell's best cost and its back-pointer |
| SaqDp.SegmentCost | scripts/spike_plane_quant.cpp:516-518 | the loop adds up a segment's distortion |
| SaqDp.FillRow | scripts/spike_plane_quant.cpp:510-527 | one row of the three tables |
| SaqDp.FillTable | scripts/spike_plane_quant.cpp:502-527 | every cell of the table is the optimum, every back-pointer attains it |
| SaqDp.FillSegment | scripts/spike_plane_quant.cpp:542-554 | the quantizers of one segment, and no others, get their parameters |
| SaqDp.TrainSaq | scripts/spike_plane_quant.cpp:497-560 | the walk stays within the budget, never takes the tail branch, and its assignment has the least distortion of all assignments of widths to groups within the budget |
| PlanePack.OrBitSetsOne | scripts/spike_plane_quant.cpp:681-682 | oring in one bit changes that bit and no other |
| PlanePack.PackCode | scripts/spike_plane_quant.cpp:677-682 | one code's bits are stored, all earlier bits and other members stay |
| PlanePack.PackMember | scripts/spike_plane_quant.cpp:671-690 | a member's bit stream is its codes one after the other, the rest zero |
| PlanePack.PackLeaf | scripts/spike_plane_quant.cpp:664-692 | members are packed in disjoint strides and never disturb each other |
| PlanePack.ReadBack | scripts/spike_plane_quant.cpp:767-795 | the field read at the byte and offset of a packed code is that code, at widths 1, 2, 4 and 8 |
| PlanePack.FillLut | scripts/spike_plane_quant.cpp:723-729 | the table holds query value times decoded value for every code of the group |
| PlanePack.BuildByteTable | scripts/spike_plane_quant.cpp:730-747 | the 256-entry table of a byte position holds the sum over its dimensions |
| PlanePack.OneByte | scripts/spike_plane_quant.cpp:735-746 | one table entry is the sum over its eight bits, short at the end of the group |
| PlanePack.ByteSumIsDirect | scripts/spike_plane_quant.cpp:735-770 | adding a byte's table entry is adding its dimensions' terms one by one |
| PlanePack.ScoreBits | scripts/spike_plane_quant.cpp:767-770 | the 1-bit loop gives the direct sum |
| PlanePack.ScoreBytes | scripts/spike_plane_quant.cpp:771-775 | the 8-bit loop gives the direct sum |
| PlanePack.ScoreNibbles | scripts/spike_plane_quant.cpp:776-785 | the 4-bit loop gives the direct sum |
| PlanePack.ScoreCrumbs | scripts/spike_plane_quant.cpp:786-795 | the 2-bit loop gives the direct sum |
| PlanePack.GroupsCoverPlane | scripts/spike_plane_quant.cpp:643-655 | the four groups' sums add up to the sum over all kept dimensions |
| PlanePack.TotalIsDot | scripts/spike_plane_quant.cpp:763-797 | that sum is the inner product of the query with what is decoded |
| PlanePack.ScoreGroup | scripts/spike_plane_quant.cpp:764-796 | a group's loop gives its direct sum at every width |
| PlanePack.RunsOfEightFillBytes | scripts/spike_plane_quant.cpp:494-496 | widths chosen per 8 dimensions give every group a multiple of 8 dimensions, which fill whole bytes |
| PlanePack.EncodeCodes | scripts/spike_plane_quant.cpp:673-676 | every dimension's code fits its width and encodes its value |
| PlanePack.EncodeMember | scripts/spike_plane_quant.cpp:641-692 | the groups' bytes hold the codes of the member's values |
| PlanePack.ScoreMember | scripts/spike_plane_quant.cpp:763-797 | the member's score is the inner product of the query with what is decoded for the kept dimensions |
| SaqPlane.AllocatedPlaneTrained | scripts/spike_plane_quant.cpp:542-554 | whatever the sample, the quantizers the allocation trains can be packed and scored: their groups fill whole bytes |
| SaqPlane.AllocatedCodesDeterminedIff | scripts/spike_plane_quant.cpp:542-554 | every value has one code in every dimension iff no dimension with two bits or more is constant in the sample |
| SaqPlane.DecodedWithinHalfStep | scripts/spike_plane_quant.cpp:105-126 | a value in the sample's range decodes to within half a step, in a constant dimension to itself |
| SaqPlane.SignDecodesToMean | scripts/spike_plane_quant.cpp:550-552 | a one-bit code decodes to the mean magnitude of the sample with the value's sign |
| SaqPlane.ConstantDimensionGetsBits | scripts/spike_plane_quant.cpp:497-560 | two rows that differ in seven of eight dimensions: the only optimal allocation within 8 bytes gives the constant one 8 bits with step 0 |
| SaqPlane.TwoRowsOk | scripts/spike_plane_quant.cpp:409-410 | that sample is one the code goes on with, and its allocation gives the constant dimension bits |
| SaqPlane.TrainEncodeScore | scripts/spike_plane_quant.cpp:412-797 | sample, train, encode, score, for every non-empty sample of finite values: the score is the inner product of the query with what is decoded, under an optimal allocation within the budget; that is within half a step for values in the sample's range, and the mean magnitude with the value's sign at one bit |
| Vectors.CauchySchwarz | scripts/spike_panorama_rerank.cpp:202-204 | the square of a dot product is at most the product of the squared norms, in every dimension |
| Vectors.RotKeepsDot | scripts/jacobi_check.cpp:44-48 | a plane rotation keeps dot products |
| Jacobi.RotatedIsConj | scripts/jacobi_check.cpp:38-50 | the in-place update is the conjugation of the matrix by the rotation, when the tangent annihilates the pivot |
| Jacobi.RotatedSymmetric | scripts/jacobi_check.cpp:38-50 | the update keeps the matrix symmetric |
| Jacobi.RotatedKeepsTrace | scripts/jacobi_check.cpp:38-39 | the update keeps the trace |
| Jacobi.RotationDrainsPivot | scripts/jacobi_check.cpp:28-50 | the update keeps the Frobenius norm and lowers the off-diagonal squares by exactly twice the pivot's square |
| Jacobi.RotationAlwaysDrains | scripts/jacobi_check.cpp:28-50 | exact or not, every rotation lowers the off-diagonal squares by exactly twice the pivot's square |
| Jacobi.RotationGrows | scripts/jacobi_check.cpp:28-50 | the Frobenius norm changes by what the tangent misses |
| Jacobi.RotationKeepsRows | scripts/jacobi_check.cpp:51-58 | the eigenvector matrix keeps orthonormal rows |
| Jacobi.RotationKeepsColumns | scripts/jacobi_check.cpp:51-58 | the eigenvector matrix keeps orthonormal columns |
| Jacobi.ConjKeepsForm | scripts/jacobi_check.cpp:44-56 | rotating matrix and vectors together keeps every bilinear form |
| Jacobi.RotationKeepsDecomposition | scripts/jacobi_check.cpp:38-58 | the product of eigenvectors, matrix and transposed eigenvectors stays the input matrix |
| Jacobi.TangentRoot | scripts/jacobi_check.cpp:28-35 | the tangent solves its quadratic exactly, except for huge theta where the square is left over |
| Jacobi.TangentIsSmaller | scripts/jacobi_check.cpp:29-35 | of the two roots it is the one of the angle of at most 45 degrees, with the sign of theta |
| Jacobi.AnnihilatesIffNotHuge | scripts/jacobi_check.cpp:30-35 | the rotation is exact iff theta is at most 1e15 in magnitude |
| Jacobi.PivotExpanded | scripts/jacobi_check.cpp:36-41 | what an inexact tangent leaves in the four pivot entries |
| Jacobi.TurnMatrix | scripts/jacobi_check.cpp:38-50 | the loop computes the rotated matrix in place |
| Jacobi.TurnEntries | scripts/jacobi_check.cpp:44-49 | one pass of the loop changes exactly its four entries |
| Jacobi.TurnVectors | scripts/jacobi_check.cpp:51-58 | the loop computes the rotated eigenvectors in place |
| Jacobi.Pivot | scripts/jacobi_check.cpp:24-58 | one pivot is the modelled step, and clears its entry unless it skips it as tiny |
| Jacobi.StepAngle | scripts/jacobi_check.cpp:28-37 | the code's angle is a rotation by at most 45 degrees, and annihilates its pivot iff theta is not huge |
| Jacobi.RunKeepsInv | scripts/jacobi_check.cpp:16-60 | every run of pivots in any order keeps symmetry, trace and orthonormality, and the decomposition, norm and off-diagonal bound while no theta is huge |
| Jacobi.RunDrains | scripts/jacobi_check.cpp:16-60 | every run of pivots in any order takes exactly twice the squares of the pivots rotated off the off-diagonal squares, and keeps the Frobenius norm iff no theta was huge |
| Jacobi.HugeThetaInARun | scripts/jacobi_check.cpp:16-60 | a 3 x 3 matrix on which every run of sweeps meets a huge theta and does not keep the norm |
| Jacobi.SmallIsModerate | scripts/jacobi_check.cpp:24-30 | in a matrix whose squares add up to at most 2 no pivot that is not skipped has a huge theta |
| Jacobi.SmallMatrixRuns | scripts/jacobi_check.cpp:16-60 | so every run of pivots on such an input is exact |
| Jacobi.OffAbs | scripts/jacobi_check.cpp:17-20 | the sum of magnitudes above the diagonal: no entry there is larger, and twice it is the sum over all off-diagonal entries of a symmetric matrix |
| Jacobi.EntriesWithinOffAbs | scripts/jacobi_check.cpp:17-20 | no entry above the diagonal exceeds the sum in magnitude |
| Jacobi.OffAbsIsHalf | scripts/jacobi_check.cpp:17-20 | the sum is half that over all off-diagonal entries |
| Jacobi.SweepTakesEveryPair | scripts/jacobi_check.cpp:22-23 | a sweep takes every pair above the diagonal exactly once |
| Jacobi.Sweep | scripts/jacobi_check.cpp:22-60 | one sweep takes all pivots, row by row |
| Jacobi.JacobiEigen | scripts/jacobi_check.cpp:9-64 | the result is that of the pivots of the sweeps made, which end exactly when the sum off the diagonal is below 1e-12, and then so is every entry there, or after 50; symmetric, trace kept, eigenvectors orthonormal; the off-diagonal squares are the input's less twice the squares of the pivots rotated; the Frobenius norm is kept iff no theta was huge, and then the decomposition is that of the input, for certain when the squares of the input add up to at most 2 |
| Panorama.SuffixNormTable | scripts/spike_panorama_rerank.cpp:208-223 | the table holds the squared norm of the rest from every level start |
| Panorama.YNorms | scripts/spike_panorama_rerank.cpp:252-266 | the same table for every candidate |
| Panorama.IpUpperBound | scripts/spike_panorama_rerank.cpp:306-310 | partial similarity plus the root bound is at least the full similarity |
| Panorama.L2LowerBound | scripts/spike_panorama_rerank.cpp:300-301 | partial squared distance is at most the full one |
| Panorama.GoodCandidateStays | scripts/spike_panorama_rerank.cpp:305-317 | a candidate at least as good as the threshold is never pruned, for both metrics at any position |
| Panorama.PrunesIff | scripts/spike_panorama_rerank.cpp:305-317 | a candidate is pruned iff its bound shows that it cannot reach the threshold |
| Panorama.PairOrderIsTotal | scripts/spike_panorama_rerank.cpp:336-343 | pairs are ordered by distance, then by id |
| Panorama.AddLevel | scripts/spike_panorama_rerank.cpp:278-294 | active candidates' partial scores move on to the end of the level |
| Panorama.PruneLevel | scripts/spike_panorama_rerank.cpp:302-330 | an active candidate stays active iff it can still reach the threshold; none within the threshold is lost, no false prune is counted |
| Panorama.RunLevel | scripts/spike_panorama_rerank.cpp:269-331 | one level keeps the invariant between levels and counts no false prune |
| Panorama.RunLevels | scripts/spike_panorama_rerank.cpp:269-331 | after all levels survivors' partial scores are their full scores, nothing within the threshold is lost, no false prune is counted, and a candidate is active iff it could reach the threshold at the end of every level but the last |
| Panorama.SurvivorsBegin | scripts/spike_panorama_rerank.cpp:336-340 | the survivors begin with the shortlist's first k |
| Panorama.Rerank | scripts/spike_panorama_rerank.cpp:235-351 | the top k after pruning are the top k of the full rerank, for any dimension and level width, and a candidate survives iff it could reach the threshold at the end of every level but the last |
| Lloyd.NearestIsMinimal | scripts/spike_large_k.cpp:94-99 | the assigned centroid is the first at the least distance |
| Lloyd.NearestCentroid | scripts/spike_large_k.cpp:94-99 | the loop finds the first nearest centroid |
| Lloyd.CostChange | scripts/spike_large_k.cpp:116-119 | moving one centroid coordinate changes the total cost by that coordinate's cost alone |
| Vectors.MeanIsBest | scripts/spike_large_k.cpp:119-119 | the mean minimizes the squared differences from one value |
| Lloyd.LloydStepImproves | scripts/spike_large_k.cpp:81-120 | one iteration never increases the total squared distance, empty clusters included |
| Lloyd.LloydStepIsCheapest | scripts/spike_large_k.cpp:112-119 | for the assignment it is made for, no centroids are cheaper than those of the step |
| Lloyd.EmptyClusterStays | scripts/spike_large_k.cpp:116-117 | a centroid that is nearest to no point stays where it is |
| Lloyd.OnCentroidsCostsNothing | scripts/spike_large_k.cpp:94-99 | points that lie on their centroids cost nothing |
| Lloyd.StepsImprove | scripts/spike_large_k.cpp:81-120 | neither do any number of them |
| Lloyd.RangesPartition | scripts/spike_large_k.cpp:107-108 | the thread ranges cover all points in order without gap or overlap |
| Lloyd.RangesBalanced | scripts/spike_large_k.cpp:107-108 | the ranges differ in length by at most one point |
| Lloyd.SumSplits | scripts/spike_large_k.cpp:112-115 | a cluster's sum splits over adjacent ranges |
| Lloyd.TakePoint | scripts/spike_large_k.cpp:91-103 | one pass of a thread's loop adds the point to its nearest centroid in the thread's own accumulators |
| Lloyd.Turn | scripts/spike_large_k.cpp:89-104 | any thread's next point leaves the shares of all other threads and the centroids alone |
| Lloyd.RunThreads | scripts/spike_large_k.cpp:105-111 | whatever the schedule, when all threads have ended each holds the sums and counts of its whole range |
| Lloyd.ReduceAll | scripts/spike_large_k.cpp:112-115 | the threads' accumulators add up to those of all points |
| Lloyd.Reduce | scripts/spike_large_k.cpp:112-115 | adding a thread's part extends the sums by its range |
| Lloyd.UpdateCentroids | scripts/spike_large_k.cpp:116-119 | non-empty clusters move to their mean, empty ones stay |
| Lloyd.Iterate | scripts/spike_large_k.cpp:81-120 | one parallel iteration computes the sequential step, for every number of threads and every interleaving of them |
| Lloyd.Refine | scripts/spike_large_k.cpp:81-121 | all iterations do, and the distortion has not grown |
| FbinSource.TickKeepsInv | sources/fbin_source.cpp:191-197 | a prefetch step keeps the invariant and never writes the buffer last handed out |
| FbinSource.NextKeepsInv | sources/fbin_source.cpp:139-201 | every call of next keeps it, in whatever state the prefetch is |
| FbinSource.ChunksAreFull | sources/fbin_source.cpp:168-187 | a delivered chunk has chunk_size rows, or what is left, and the cursor moves on by its size |
| FbinSource.ResetKeepsInv | sources/fbin_source.cpp:96-104 | so does reset |
| FbinSource.DeliversFileInOrder | sources/fbin_source.cpp:96-201 | under every interleaving of next, reset and prefetch steps the ids are 0, 1, 2, ... and the rows are the file's rows in order iff, since the last reset, no call followed one that failed with a chunk already delivered |
| FbinSource.WrongRowAfterFailure | sources/fbin_source.cpp:139-201 | two rows promised and one there: delivered, failed, delivered, and the second row handed out was never read |
| FbinSource.RunReflects | sources/fbin_source.cpp:139-201 | after every schedule the fields a caller cannot see are what the outcomes so far say |
| FbinSource.EndMeansAllDelivered | sources/fbin_source.cpp:168-168 | end of data is reported iff every row was handed out |
| FbinSource.CompleteFileNeverFails | sources/fbin_source.cpp:106-137 | with a complete file no schedule sees an error |
| FbinSource.LastChunkSurvivesPrefetch | sources/fbin_source.hpp:61-67 | the last chunk is untouched by any amount of prefetching until the next call |
| FbinSource.ValidForTwoCallsIffNothingLeft | sources/fbin_source.hpp:66-67 | a chunk survives the call after it and any number of prefetch steps iff there are none or nothing was left to prefetch |
| FbinSource.OverwrittenAfterOneCall | sources/fbin_source.hpp:66-67 | three chunks of one row: one prefetch step after the next call the first chunk is gone |
| FbinSource.Source.constructor | sources/fbin_source.hpp:58-81 | a new source is in the start state |
| FbinSource.Source.PrefetchStep | sources/fbin_source.cpp:191-197 | the thread's step on the object is the modelled step |
| FbinSource.Source.Reset | sources/fbin_source.cpp:96-104 | joins the thread and returns to the start, as the state function says |
| FbinSource.Source.ReadChunk | sources/fbin_source.cpp:106-137 | fills the buffer with the file's rows; fails iff the file ends first |
| FbinSource.Source.JoinThread | sources/fbin_source.cpp:147-149 | joining runs the prefetch to its end |
| FbinSource.Source.ReadNow | sources/fbin_source.cpp:168-180 | the synchronous read uses the buffer not in use and hands it out, or fails |
| FbinSource.Source.TakePending | sources/fbin_source.cpp:163-199 | what was read ahead is handed out with its ids, complete or not |
| FbinSource.Source.HandOut | sources/fbin_source.cpp:174-199 | ids, cursor and current buffer are set and the next prefetch starts |
| FbinSource.Source.Launch | sources/fbin_source.cpp:183-198 | the prefetch is aimed at the other buffer for the rows that follow |
| FbinSource.Source.Next | sources/fbin_source.cpp:139-201 | refines the modelled call; row ids continue from the cursor |
| LabelBuffer.LabelStringBuf.Append | sources/parquet_glob_source.cpp:14-29 | the column's rows go to the back of the queue; the 32-bit offsets are exact while the bytes fit |
| LabelBuffer.LabelStringBuf.Push | sources/parquet_glob_source.cpp:21-28 | one pass of the append loop puts exactly one row at the back |
| LabelBuffer.LabelStringBuf.Consume | sources/parquet_glob_source.cpp:31-40 | the view shows the next n waiting rows through pointers into the buffer, and they leave the queue |
| LabelBuffer.LabelStringBuf.Compact | sources/parquet_glob_source.cpp:42-71 | the waiting rows stay the same and the consumed ones are gone |
| LabelBuffer.Rebased | sources/parquet_glob_source.cpp:52-62 | the remaining offsets counted from the first remaining byte |
| LabelBuffer.LabelStringBuf.Clear | sources/parquet_glob_source.hpp:104-109 | empties the queue |
| LabelBuffer.LabelStringBuf.Available | sources/parquet_glob_source.hpp:92-94 | the number of waiting rows |
| LabelBuffer.ExtendedRows | sources/parquet_glob_source.cpp:21-28 | pushing offset, length and bytes adds exactly one row and leaves the others |
| LabelBuffer.ShiftedRows | sources/parquet_glob_source.cpp:51-70 | rebased offsets, dropped lengths and erased bytes hold the remaining rows |
| LabelBuffer.ViewRows | sources/parquet_glob_source.cpp:34-38 | pointers moved k rows into the arrays show the rows from k on |
| LabelBuffer.DataIsRows | sources/parquet_glob_source.cpp:14-29 | the bytes kept are those of the rows kept, so the offsets fit whenever the resident rows do |
| GlobSource.ChunkInCorpus | sources/parquet_glob_source.cpp:280-294 | a chunk read from a shard stands in the corpus at the shard's base plus the file cursor |
| GlobSource.ShardBases | sources/parquet_glob_source.cpp:143-144 | each base is the number of rows in all earlier shards |
| GlobSource.Rebase | sources/parquet_glob_source.cpp:291-298 | per-file ids plus the base |
| GlobSource.Source.AppendToAll | sources/parquet_glob_source.cpp:239-250 | one read of the label file keeps all columns in step |
| GlobSource.Source.EnsureLabelRows | sources/parquet_glob_source.cpp:232-252 | succeeds iff the label file has rows for everything up to the chunk's end, and then every column has them waiting; the 32-bit offsets stay exact because compaction keeps at most two batches of rows |
| GlobSource.Source.FillColumn | sources/parquet_glob_source.cpp:236-250 | reading on for one column keeps all columns in step, and ends short only when the file does |
| GlobSource.Source.ConsumeLabels | sources/parquet_glob_source.cpp:254-261 | every column shows the label rows with the chunk's numbers, and its pointers stay live |
| GlobSource.Source.ReadVectors | sources/parquet_glob_source.cpp:280-298 | one read of the open shard, its ids counted on from the shard's position in the corpus |
| GlobSource.Source.Deliver | sources/parquet_glob_source.cpp:280-309 | the open shard's next chunk joined with the labels waiting, or a throw when they run short, after which the source is still consistent |
| GlobSource.Source.Next | sources/parquet_glob_source.cpp:263-317 | answers as the position model, also after a call that threw: a chunk has the corpus rows that follow with their global ids and in every column the label rows the model says; the end comes when all rows are out |
| GlobSource.AdvanceKeepsSane | sources/parquet_glob_source.cpp:263-317 | a chunk's labels are its own rows' iff no call has thrown before; labels run short only if the file has fewer rows than the corpus |
| GlobSource.JoinedIffNeverShort | sources/parquet_glob_source.cpp:222-317 | for every sequence of next and reset a delivered chunk carries the labels with its own row numbers iff no call since the last reset threw for missing labels |
| GlobSource.MisjoinedAfterShort | sources/parquet_glob_source.cpp:263-317 | chunks of 10 and 3 vectors with 5 label rows: after the throw vectors 10 to 12 come with label rows 0 to 2 |
| GlobSource.Source.Reset | sources/parquet_glob_source.cpp:222-230 | the source is back at row 0 with empty buffers |
| GlobSource.Source.constructor | sources/parquet_glob_source.cpp:77-207 | a new source is at row 0 |
| GlobSource.Pass | sources/parquet_glob_source.cpp:222-317 | a whole pass gives every vector once with ids 0..N-1 and label row i with vector i in every column, whatever the chunks; it completes iff there are labels for all vectors |
| ClaimCounter.StepKeepsInv | sources/parquet_glob_source.cpp:338-346 | every step of every worker keeps the invariant: one owner per claimed task, what is handed on is what the tasks' progress says |
| ClaimCounter.AllWorkDoneOnce | sources/parquet_glob_source.cpp:325-349 | when all workers have stopped, under any schedule, every item was handed on exactly as often as by one worker alone |
| ClaimCounter.NoSharedTask | sources/parquet_glob_source.cpp:339-340 | two workers never hold the same task |
| ClaimCounter.CounterBound | sources/parquet_glob_source.cpp:325-340 | the counter overshoots by at most one per worker |
| ClaimCounter.EveryStepProgresses | sources/parquet_glob_source.cpp:338-346 | each step of a worker that has not stopped lowers the work left by one |
| ClaimCounter.CanEnd | sources/parquet_glob_source.cpp:338-346 | every schedule can be continued until all workers have stopped |
| SharedReplay.ParallelDeliversCorpus | sources/parquet_glob_source.cpp:319-351 | parallel streaming delivers the vectors of the sequential pass, each as often |
| SharedReplay.ParallelRunsIff | sources/parquet_glob_source.cpp:319-345 | it runs iff there are two shards and two workers, with one worker a shard at most, and hands on no empty chunk |
| SharedReplay.CollectSets | scripts/subtree_major.cpp:89-96 | distinct leaves, total visits and both plans' bytes |
| SharedReplay.ExtentsAreWholePages | scripts/subtree_major.cpp:93-107 | an extent is whole pages of 4096 bytes |
| SharedReplay.BytesOnce | scripts/subtree_major.cpp:95-96 | the sum over a set is that over any list of its pages |
| SharedReplay.BuildFanout | scripts/subtree_major.cpp:153-155 | the fanout of a page is the number of its visits |
| SharedReplay.ByPageIsByVisit | scripts/subtree_major.cpp:91-96 | adding up by distinct page with its visits is adding up by visit |
| SharedReplay.SubtreeMajorServesAll | scripts/subtree_major.cpp:150-171 | under any interleaving every visited leaf is read exactly once, the bytes are those of the distinct leaves, and the evaluations equal the visits |
| SharedReplay.QueryMajorReadsPerVisit | scripts/subtree_major.cpp:122-140 | the query-major bytes are the distinct leaves' bytes times their fanout |
| FastScan.LoadSegment | scripts/bench_kernel.cpp:39-44 | the 32 lanes are the table entries of the low and high nibbles in vector order |
| FastScan.Store | scripts/bench_kernel.cpp:50-57 | the eight stores put the lanes in output order |
| FastScan.Baseline | scripts/bench_kernel.cpp:30-58 | lane j is the sum of its entries modulo 65536 |
| FastScan.TwoChains | scripts/bench_kernel.cpp:147-211 | so is the two-chain kernel's, for every segment count and table: it equals the baseline |
| FastScan.ByteLanes | scripts/bench_kernel.cpp:74-141 | the 8-bit kernel's lane: every run of 16 segments, and the rest, modulo 256, added modulo 65536 |
| FastScan.ByteLanesAgreeIff | scripts/bench_kernel.cpp:74-141 | it equals the baseline in a lane iff the lane's 8-bit wraps number a multiple of 256 |
| FastScan.ByteLanesExactIff | scripts/bench_kernel.cpp:60-73 | it equals the baseline for all codes and all tables with entries up to c iff min(m, 16) * c <= 255; always for 4-bit entries |
| FastScan.WideExactIff | scripts/bench_kernel.cpp:30-58 | the 16-bit sums are exact for all inputs with entries up to c iff m * c < 65536 |
| Lut4Scan.Spans | scripts/spike_pq4_recall.cpp:119-131 | segment minima and the widest span |
| Lut4Scan.BuildLut4 | scripts/spike_pq4_recall.cpp:114-144 | every entry is its distance above the segment minimum, scaled, rounded and clamped |
| Lut4Scan.SegmentMin | scripts/spike_pq4_recall.cpp:123-126 | the least of a segment's 16 entries |
| Lut4Scan.WidenSpan | scripts/spike_pq4_recall.cpp:127-130 | the widest span over the segments so far |
| Lut4Scan.RoundsToNearest | scripts/spike_pq4_recall.cpp:140-141 | truncating after adding 1/2 rounds to the nearest, and the clamp leaves 0..15 alone |
| Lut4Scan.PackedPairsReadBack | scripts/spike_pq4_recall.cpp:159-166 | codes packed two to a byte, the even segment low, read back |
| Lut4Scan.TableEntry | scripts/spike_pq4_recall.cpp:133-143 | every entry is within 1/2 of its scaled value and in 0..15 without the clamp acting |
| Lut4Scan.ScaledRange | scripts/spike_pq4_recall.cpp:133-133 | the scale maps all spans into 0..15 and the widest to 15 |
| Lut4Scan.EncodeDataset | scripts/spike_pq4_recall.cpp:149-187 | byte k of a segment holds the codes of vectors 32b+k and 32b+16+k; missing vectors are zero |
| Lut4Scan.BlocksCover | scripts/spike_pq4_recall.cpp:152-152 | there are just enough blocks of 32 for all vectors |
| Lut4Scan.EncodeBlock | scripts/spike_pq4_recall.cpp:174-184 | one block's bytes are written, all others stay |
| Lut4Scan.BlockNibble | scripts/spike_pq4_recall.cpp:168-183 | the nibble the kernel takes for lane j is the code of vector 32b+j |
| Lut4Scan.LaneNibble | scripts/spike_pq4_recall.cpp:173-183 | that nibble is the vector's code, or 0 past the last vector |
| Lut4Scan.LaneIsVector | scripts/spike_pq4_recall.cpp:168-183 | after the transpose, lane j of a block's scan is the sum for vector 32b+j |
| Lut4Scan.Scan | scripts/spike_pq4_recall.cpp:283-292 | every vector's distance is the sum of its selected entries modulo 65536 |
| Lut4Scan.ScanBlock | scripts/spike_pq4_recall.cpp:285-291 | a block's lanes go to its vectors; lanes past the last vector are dropped |
| Lut4Scan.SumWithinHalfM | scripts/spike_pq4_recall.cpp:114-144 | the integer sum is within m/2 of the scaled distance above the minima, and at most 15m |
| Lut4Scan.FarApartKeepOrder | scripts/spike_pq4_recall.cpp:281-301 | vectors whose scaled distances are at least m apart keep their order |
| Lut4Scan.ScanQuery | scripts/spike_pq4_recall.cpp:279-292 | for one query: exact integer sums, and far-apart vectors in order, for 15 * m < 65536 |
| TopKMerge.Smallest | scripts/gen_ground_truth.py:125-129 | a sorted list of the k nearest, ties in any order |
| TopKMerge.MergeStep | scripts/gen_ground_truth.py:106-131 | merging only what beats the worst of a full list keeps the k nearest of everything seen |
| TopKMerge.NoWorseThanKept | scripts/gen_ground_truth.py:117-129 | merging never lets in an entry worse than everything that was kept |
| TopKMerge.MergeChunk | scripts/gen_ground_truth.py:106-131 | one chunk for one query: the list stays the nearest k of its pool; assignment fails iff an external start has the wrong size |
| TopKMerge.MergeAll | scripts/gen_ground_truth.py:110-131 | one chunk for all queries in turn |
| TopKMerge.PlaceholdersLose | scripts/gen_ground_truth.py:85-86 | placeholders never win against k real rows |
| TopKMerge.GroundTruth | scripts/gen_ground_truth.py:85-134 | the whole pass: when it fails, and what each list holds after every chunk read and at the end |
| TopKMerge.SampledIsExact | scripts/gen_ground_truth.py:85-134 | a sampled query ends with the k nearest rows other than itself, with multiplicity |
| TopKMerge.ExternalIsExact | scripts/gen_ground_truth.py:119-124 | so does an external query whose first chunk has at least k rows |
| TopKMerge.NearestEntriesAreRows | scripts/gen_ground_truth.py:125-129 | a sorted choice of the k nearest entries is k different rows, none the query's own, in the order of their real distances, and no other row is nearer |
| TopKMerge.EndsWithNearestRows | scripts/gen_ground_truth.py:85-134 | so ends every sampled pass, and every external one whose first chunk has k rows |
| TopKMerge.SameDistances | scripts/gen_ground_truth.py:125-131 | two sorted choices of the k nearest have the same distances |
| TopKMerge.ChunkSizeIrrelevant | scripts/gen_ground_truth.py:91-133 | the distances do not depend on the chunk size |
| TopKMerge.OneRowStartRightIff | scripts/gen_ground_truth.py:121-131 | after a single-row external start the distances are right iff the first row is no nearer than the k-th nearest |
| TopKMerge.ReportedIsShifted | scripts/gen_ground_truth.py:68-101 | reported distances order rows rightly, and are right iff the squared query norm was added |
| TopKMerge.PlainNormRightIff | scripts/gen_ground_truth.py:68-101 | the distances reported for an external query, which is given its plain norm, are the true ones iff that norm is 0 or 1 |

## Left out

- The tree index, its quantizers and the C interface: they are called by the modelled code, and their results (codes, tables, probe sets, leaf lists) are arbitrary inputs here.
- File formats, memory maps, thread creation, command lines, environment settings, metrics counters, printing and percentiles.
- Floating-point rounding: all statements about distances, tables and matrices are about exact real arithmetic.
- Lloyd.Refine: starts from arbitrary centroids, since the random seeding of `kmeans` gives no invariant.
- Lloyd.Iterate: needs at least one centroid and one thread, as the code does; a thread's step is a whole point, since threads write only accumulators of their own.
- Scheduler.RunIsSafe: probe sets are non-empty, costs are not negative, the arrival step is positive and there is at least one thread, which the script's set-up provides; the fit of the costs is not modelled.
- Scheduler.DispatchedAtCloseOrFreedSlot: latencies recorded for a sweep's members are not lengthened when joiners extend it, because the code does not do so either.
- SaqDp.TrainSaq: the number of dimensions is a multiple of 8, and the total variance is below the code's infinity of 1e300, as it is for every sample of finite floats.
- PlanePack.ScoreMember: the groups at widths 2 and 4 fill whole bytes, which widths chosen per 8 dimensions guarantee; the scale factors of the `+pv` variant and the maximum over members are not modelled.
- Quantizers.Encode: the Lloyd-Max centroids and the sign scale are arbitrary inputs; their training is not modelled.
- Jacobi.JacobiEigen: after a pivot whose theta exceeds 1e15 only symmetry, trace and orthonormality are stated, because that rotation is not exact; convergence of the sweeps is not claimed.
- Panorama.Rerank: the shortlist has at least k entries, as the loops over its first k demand.
- FbinSource.Source.ReadChunk: rows are read one at a time and as single values, so partial rows and the widening of 8-bit elements are not modelled; the file's row count fits 32 bits, as its header does.
- GlobSource.Source.Next: string label columns only, no projection of label columns and no filter columns in the shards, since the code pairs reader columns and output slots by position from 0; payload columns are not modelled.
- LabelBuffer.LabelStringBuf.Append: the bytes kept in a buffer stay below 2^32.
- GlobSource.Source.constructor: vector chunks have at most `batch` rows, as the readers deliver them, and each read of the label file fits 2^32 bytes together with the two batches of label rows before it; a label column as a whole may be of any size.
- SharedReplay.ParallelDeliversCorpus: is about vectors only, since the row ids in this mode are local to a shard.
- SharedReplay.SubtreeMajorServesAll: an extent's bytes are counted whether or not the read succeeds, as the code counts them.
- Lut4Scan.ScanQuery: recall after reranking depends on the data and is not stated.
- TopKMerge.GroundTruth: k is at least 1 and below the number of rows, and the chunk size is at least 1; NaN distances are not modelled.
- `isotonic` in `scripts/spike_lcq.cpp`, the in-memory source, the benchmarks and the recall studies: easy members or no invariant.
