# ATLAS memory: models and proofs

ATLAS memory is a long-term memory for agents. This project models its algorithms in Dafny and
proves what they promise, over every input or every run. One file holds one module.

- `Isotonic`, `CalibrationCurve`, `QuantileBins`, `IsotonicCalibrator`, `KolmogorovSmirnov` (calibration_engine.py):
  the pool-adjacent-violators loop is the unique weighted least-squares fit; the fitted curve is
  monotone, stays in [0,1] and keeps the mass of the labels; quantiles split the scores where they
  should; the two cut-offs are the best on their grids; the two-sample statistic is a supremum over the real line.
- `CriticalNodes`, `WhatIf`, `Diffusion`, `RouteSums` on top of `RelationGraph` (retro_causal_edge.py): critical
  nodes are dominators and their affected sets are laminar; the backtracking search lists every
  simple path once; layered diffusion reports shortest distances and sums of routes.
- `Annealer`, `AnnealingSteps` (annealer.py, energy_module.py): the array kernel with its running sums and the scalar
  kernel that sums everything again are both proved equal to one function, and agree on a topology
  exactly when a condition on its degrees holds; which moves a run takes, and where it stops.
- `Arbiter`, `ConfidenceGate`, `WritePath`, `WriteEffects`, `WriteGuarantees` (conflict_arbiter.py,
  write_path.py): the arbiter's entity boundary and confidence gate, what a write stores, supersession
  chains over whole runs of writes, and what an aborted write leaves behind.
- `Levenshtein` (write_path.py): the fast test for edit distance at most one is exact.
- `JsonScan`, `Rubric` (build_retrieval_calibration.py): the brace scanner cuts out the objects of
  RFC 8259, sections 4 and 7; the judge's composite score against its three probes.
- `ShadowWorker` (shadow_worker.py): every interleaving of the worker loop with any number of flush
  calls.
- `Dedup` (atlas_dedup_kv.py): what scanning, planning and deleting leave of the table.
- `Reals`, `Rounding`, `SortedReals`, `StableSort`, `MemoryRecords`, `Wrappers`: shared arithmetic, Python's
  `round` and its stable `sort`, the stored record, and Option.

Loops and objects of the program are methods and classes here, each proved equal to a function of
its inputs or of the old state; the properties are then proved of that function. Floating-point
numbers are exact reals, and `round` goes to the nearest multiple with ties to even. Clocks, random
draws, `exp`, `sqrt`, word lists, hashes, parsers and the success of external calls are parameters.

## What the proofs turned up

Where the code does not do what its comments or the names of its parts suggest, the model follows
the code, one lemma exhibits an input, and another gives the exact condition. The one exception is
hash collisions: the hash is a parameter, so only the condition is given.

- The floor of 1e-12 under the divisor in `pava` breaks optimality for neighbouring weights whose sum
  is positive and below the floor (`OptimalExactlyWhenSafe`, `UnsafeProbeFails`).
- The array annealer divides reach by all nodes, the scalar one by the sources only; two edges in a
  row already give different critics, and from all weights at zero different energies, whatever the
  square root and the exponential are (`ChainDisagrees`, `ProbeTellsApart`, `KernelsAgreeExactlyWhen`).
- The arbiter crosses entity roots as soon as the metadata asks for a revision of any kind, also
  without naming the record (`UnnamedRootIsCrossed`, `CrossesRootExactlyWhenAsked`).
- If marking the old record and purging its vectors both fail, a tombstone can still be written: the
  old record is then superseded by nothing (`GapIsReached`, `WrittenKeepsLinks`, `RunKeepsLinks`).
- A write that fails on graph insertion after a same-key revision returns to a savepoint taken after
  the record was marked, and leaves it superseded by itself (`SelfMarkIsReached`,
  `GraphAbortRestores`, `SelfMarkedLoops`).
- If the key-value store refuses the new value, the mark on the old record is not undone
  (`MarkIsKept`, `KvFailureKeepsMark`).
- A polarity of zero in the first or second probe zeroes that probe's latent but not the composite
  (`EarlyInversionSlips`, `GateExactly`); raising a negative polarity to zero lowers the latent
  (`NegativePolarityLifted`, `LatentMonotoneExactly`).
- The comment on the energy gives a gradient without the movement of the cost; the code has that term,
  and with it the gradient is the derivative (`GradientIsDerivative`).
- Deduplication keeps the set of contents exactly when no two contents share a hash
  (`ContentsKeptExactly`).

## Model

| member | source | states |
|---|---|---|
| Isotonic.Pava | src/atlas_memory/cognitive/calibration_engine.py:85-125 | the three-list loop, with unit weights where none are given, computes Fit |
| Isotonic.Fit | src/atlas_memory/cognitive/calibration_engine.py:85-125 | one value per sample, never decreasing, whatever the numbers |
| Isotonic.FitOptimal | src/atlas_memory/cognitive/calibration_engine.py:85-125 | error(z) is at least error(fit) plus the weighted distance from fit to z, for every non-decreasing z |
| Isotonic.FitUnique | src/atlas_memory/cognitive/calibration_engine.py:85-125 | with positive weights no other non-decreasing sequence is as good |
| Isotonic.FitKeepsWeightedSum | src/atlas_memory/cognitive/calibration_engine.py:85-125 | the fit has the weighted sum of the data |
| Isotonic.UnsafeProbeFails | src/atlas_memory/cognitive/calibration_engine.py:104-112 | a concrete target on which the divisor's floor loses optimality, wherever an unsafe pair of weights stands |
| Isotonic.OptimalExactlyWhenSafe | src/atlas_memory/cognitive/calibration_engine.py:85-125 | for non-negative weights: optimal for every target if and only if no neighbouring pair sums to strictly between 0 and 1e-12 |
| CalibrationCurve.OneBinEach | src/atlas_memory/cognitive/calibration_engine.py:392-401 | unless all scores coincide, every training score lies in exactly one quantile bin |
| CalibrationCurve.KnotsInOrder | src/atlas_memory/cognitive/calibration_engine.py:392-419 | both knot lists are sorted, after rounding and with ties |
| CalibrationCurve.PredictMonotone | src/atlas_memory/cognitive/calibration_engine.py:392-527 | a higher score never gets a lower probability, for any training set |
| CalibrationCurve.InterpolatedBounds | src/atlas_memory/cognitive/calibration_engine.py:513-526 | the interpolated value lies between the first and the last knot value |
| CalibrationCurve.ClipIsIdle | src/atlas_memory/cognitive/calibration_engine.py:392-527 | labels in [0,1] and non-negative weights put all knots in [0,1], so clipping changes nothing |
| CalibrationCurve.CurveKeepsLabelMass | src/atlas_memory/cognitive/calibration_engine.py:392-416 | before rounding, the curve's weighted sum over the bins is the weighted sum of the labels over the samples, if scores vary and every bin that holds a sample has weight 1e-12 or more |
| CalibrationCurve.PlacesKeepScores | src/atlas_memory/cognitive/calibration_engine.py:403-415 | the places of the knots before rounding, each times its number of samples, add up to the scores |
| CalibrationCurve.CurveMeetsKnots | src/atlas_memory/cognitive/calibration_engine.py:513-526 | the curve takes a knot's value at a knot that shares its place with no other |
| CalibrationCurve.CurveIsLine | src/atlas_memory/cognitive/calibration_engine.py:513-526 | between neighbouring knots the curve is the line through both |
| QuantileBins.QuantileCounts | src/atlas_memory/cognitive/calibration_engine.py:393 | with pos = q (n - 1), at least floor(pos) + 1 of n scores are at most the q-quantile and at least n - ceil(pos) are at least it |
| QuantileBins.QuantileOfSpaced | src/atlas_memory/cognitive/calibration_engine.py:393 | on scores lo + i h the q-quantile is lo + pos h |
| QuantileBins.NoBinIsEmpty | src/atlas_memory/cognitive/calibration_engine.py:393-415 | with distinct scores and fewer bins than scores no bin is empty, and there is one knot per bin |
| IsotonicCalibrator.SelectThreshold | src/atlas_memory/cognitive/calibration_engine.py:421-446 | the first of the cheapest admissible thresholds of the grid, more recall breaking ties; none exactly if none is admissible |
| IsotonicCalibrator.ConfusionCounts | src/atlas_memory/cognitive/calibration_engine.py:430-433 | the counts are the numbers of samples at or above, or below, the cut with a label on either side of one half |
| IsotonicCalibrator.RatesAreShares | src/atlas_memory/cognitive/calibration_engine.py:434-436 | precision is the true share of accepted samples and recall of positive ones, zero where there are none |
| IsotonicCalibrator.F1IsHarmonic | src/atlas_memory/cognitive/calibration_engine.py:459 | F1 is the harmonic mean of both above the floor of its divisor |
| IsotonicCalibrator.SelectMargin | src/atlas_memory/cognitive/calibration_engine.py:448-466 | the first of the admissible margins with the largest F1; none exactly if none is admissible |
| IsotonicCalibrator.Calibrator.Fit | src/atlas_memory/cognitive/calibration_engine.py:373-469 | knots are the rounded bin means and the rounded pooled fit, and both cut-offs are the best of their grids |
| IsotonicCalibrator.Calibrator.PredictProba | src/atlas_memory/cognitive/calibration_engine.py:510-527 | the scalar branch reads the clipped curve, in [0,1] |
| KolmogorovSmirnov.KsStatistic | src/atlas_memory/cognitive/calibration_engine.py:200-213 | sorting and right-sided searching compute the maximal gap between the empirical distribution functions over the pooled points |
| KolmogorovSmirnov.StatisticIsSupremum | src/atlas_memory/cognitive/calibration_engine.py:192-213 | that maximum bounds the gap at every real number and is attained |
| KolmogorovSmirnov.StatisticUnit | src/atlas_memory/cognitive/calibration_engine.py:192-213 | it lies in [0,1] |
| KolmogorovSmirnov.StatisticSymmetric | src/atlas_memory/cognitive/calibration_engine.py:192-213 | swapping the samples does not change it |
| KolmogorovSmirnov.ZeroExactlyWhenSame | src/atlas_memory/cognitive/calibration_engine.py:192-213 | it is zero if and only if the two distribution functions coincide |
| Annealer.RunVectorized | src/atlas_memory/causal/annealer.py:143-325 | the array kernel computes Anneal with every node counted |
| Annealer.MoveWeight | src/atlas_memory/causal/annealer.py:284-290 | an accepted move changes one weight and keeps every node's two running sums equal to the sums over its out-edges |
| Annealer.VectorStep | src/atlas_memory/causal/annealer.py:200-293 | one edge of the array kernel does what recomputing the critic from scratch does |
| Annealer.SumsKeptUpdate | src/atlas_memory/causal/annealer.py:193-290 | adding the change of one weight to its source's sums keeps them exact at every node |
| Annealer.RunReference | src/atlas_memory/causal/annealer.py:327-422 | the scalar kernel, which rebuilds edge objects and their index, computes Anneal with only the sources counted |
| Annealer.OutgoingSums | src/atlas_memory/causal/energy_module.py:111-170 | the critic's sums over a node's edge list are the sums over the graph at the current weights |
| AnnealingSteps.VisitTakes | src/atlas_memory/causal/annealer.py:256-293 | a visit changes one weight and adds its energy; a move that does not raise the energy is always taken and draws nothing more; below 1e-8 no visit raises the energy; otherwise a rise is taken exactly when the next uniform draw is below exp(-rise/temp), or never beyond 700 |
| AnnealingSteps.GradientIsDerivative | src/atlas_memory/causal/energy_module.py:172-233 | while the cost moves along one line, a step of h changes the energy by h times the gradient plus h h (dc (1 + k) + reg) |
| AnnealingSteps.SameSide | src/atlas_memory/causal/energy_module.py:195-204 | the cost moves along one line between weights on the same side of its cap |
| AnnealingSteps.CostIsAffine | src/atlas_memory/causal/energy_module.py:195-204 | the cost is the base cost at weight one half and moves by four tenths of it per unit, up above 0.4 and down below, capped at one |
| AnnealingSteps.EnergyAtEnds | src/atlas_memory/causal/energy_module.py:212-218 | the energy of a kept, a dropped and a half-kept edge |
| AnnealingSteps.ShareIsFraction | src/atlas_memory/causal/energy_module.py:156-163 | the critical share is the critical fraction of the outgoing confidence, halved for a single edge |
| AnnealingSteps.RunStopsAtFirstEnd | src/atlas_memory/causal/annealer.py:245-325 | a run makes sweep after sweep, each at the temperature cooled once more, and ends at the first that settles within 1e-6, is at the lowest temperature, or is the last allowed; weights, trace, flag and temperature are those of that sweep |
| Annealer.CriticIsMax | src/atlas_memory/causal/energy_module.py:111-170 | the critic is the larger of the rounded reach and the rounded critical share |
| Annealer.IterateAgrees | src/atlas_memory/causal/annealer.py:143-422 | where the reach terms agree, both node counts give the same weights, trace, iteration count, convergence flag and temperature |
| Annealer.ChainDisagrees | src/atlas_memory/causal/annealer.py:200-211 | on two edges in a row the two kernels give the middle node different critics |
| Annealer.ProbeTellsApart | src/atlas_memory/causal/annealer.py:143-422 | where the reach terms differ, the kernels' energies differ on the graph's own edges with all weights at zero, for any positive square root and any exponential |
| Annealer.KernelsAgreeExactlyWhen | src/atlas_memory/causal/annealer.py:143-422 | for any fixed positive square root and exponential: the kernels agree on all graphs with these sources and targets, over all weights, costs, criticality, precisions, parameters and random draws, if and only if the rounded reach of every target with out-edges is the same under both node counts |
| Annealer.AgreeEverywhere | src/atlas_memory/causal/annealer.py:143-422 | where the reach terms of a topology agree, the kernels agree on every graph, parameter set and stream of draws over it |
| RelationGraph.BuildAdjacency | src/atlas_memory/causal/retro_causal_edge.py:72-88 | the loop builds the adjacency of the relations kept |
| RelationGraph.AdjacencyEdges | src/atlas_memory/causal/retro_causal_edge.py:72-88 | an edge is listed if and only if a kept relation gives it |
| CriticalNodes.GetReachable | src/atlas_memory/causal/retro_causal_edge.py:291-301 | the stack loop terminates and finds exactly the ends of walks that avoid the excluded node after the start, also on cycles through the root |
| CriticalNodes.AffectedIsDominated | src/atlas_memory/causal/retro_causal_edge.py:303-313 | affected are exactly the reachable nodes all of whose walks pass through the candidate after the start |
| CriticalNodes.AffectsItself | src/atlas_memory/causal/retro_causal_edge.py:303-313 | a reachable candidate is in its own affected set |
| CriticalNodes.AffectedLaminar | src/atlas_memory/causal/retro_causal_edge.py:303-324 | two affected sets are nested or disjoint |
| CriticalNodes.AffectedDistinct | src/atlas_memory/causal/retro_causal_edge.py:303-324 | different candidates have different affected sets |
| CriticalNodes.MajorityCutsFormChain | src/atlas_memory/causal/retro_causal_edge.py:303-324 | the candidates that cut off more than half form a strict chain under inclusion |
| CriticalNodes.DetectCpof | src/atlas_memory/causal/retro_causal_edge.py:271-325 | the list holds exactly the candidates that cut off at least half, once each, with their affected sets and rounded severities, most severe first |
| CriticalNodes.SeverityWithin | src/atlas_memory/causal/retro_causal_edge.py:314-319 | the severity is within 0.00005 of the affected share |
| CriticalNodes.SeverityTellsSizesExactlyWhen | src/atlas_memory/causal/retro_causal_edge.py:314-324 | different sizes have different severities, in their order, if and only if at most 10000 nodes are reachable |
| CriticalNodes.ReportDescendsInSize | src/atlas_memory/causal/retro_causal_edge.py:314-324 | in such graphs the list descends in the size of the affected set |
| WhatIf.PathSearch.Record | src/atlas_memory/causal/retro_causal_edge.py:361-419 | a path is stored once per signature |
| WhatIf.PathSearch.Traverse | src/atlas_memory/causal/retro_causal_edge.py:361-419 | a call adds exactly the simple continuations of its path up to the depth, and gives `visited` back as it was |
| WhatIf.CausalWhatIf | src/atlas_memory/causal/retro_causal_edge.py:328-423 | exactly one path for every simple path of 1 to `depth` edges from the roots, its confidence the running rounded product over the edges listed first |
| WhatIf.ConfidenceWithin | src/atlas_memory/causal/retro_causal_edge.py:361-419 | a path's confidence is within 0.00005 per edge of the product of its edges' confidences |
| Diffusion.Diffuse | src/atlas_memory/causal/retro_causal_edge.py:181-259 | the layered loop over dictionaries computes WaveAt, stopping early included, and the deepest layer reached |
| Diffusion.ReportedByDistance | src/atlas_memory/causal/retro_causal_edge.py:209-259 | reported are exactly the nodes other than the start at distance at most the clamped depth, with that distance as path length |
| Diffusion.ReportedExactly | src/atlas_memory/causal/retro_causal_edge.py:209-259 | reported are exactly the ends of admissible routes of 1 to d edges |
| Diffusion.PathLengthIsShortest | src/atlas_memory/causal/retro_causal_edge.py:209-259 | path length is attained by a route and no route is shorter |
| Diffusion.StatsHoldRoute | src/atlas_memory/causal/retro_causal_edge.py:209-259 | confidence is at least the product along every route of that many edges or fewer, impact at least its decayed product |
| RouteSums.RoutesHas | src/atlas_memory/causal/retro_causal_edge.py:209-259 | the enumeration lists exactly the admissible routes of d edges |
| RouteSums.LayerAtMostRoutes | src/atlas_memory/causal/retro_causal_edge.py:214-255 | a node of layer d holds at most the sum of the products of all routes of d edges to it |
| RouteSums.LayerIsRouteSum | src/atlas_memory/causal/retro_causal_edge.py:214-255 | and exactly that sum while no such sum exceeds one |
| RouteSums.FullNode | src/atlas_memory/causal/retro_causal_edge.py:255 | a node into which one or more flows holds exactly one |
| RouteSums.ImpactIsRouteSum | src/atlas_memory/causal/retro_causal_edge.py:238-254 | impact is at most the sum of decay^length times product over all routes of 1 to d edges, and exactly that while no sum below the last layer exceeds one |
| RouteSums.ConfidenceAttained | src/atlas_memory/causal/retro_causal_edge.py:242-252 | a reported confidence is that of some transition into the node |
| RouteSums.ConfidenceBounds | src/atlas_memory/causal/retro_causal_edge.py:242-252 | and no transition into the node is stronger |
| RouteSums.SingleRoute | src/atlas_memory/causal/retro_causal_edge.py:209-259 | a node with a single route has its product as confidence and its decayed product as impact, whatever is capped elsewhere |
| Arbiter.SplitOn | src/atlas_memory/cognitive/conflict_arbiter.py:51-93 | no part contains the separator and joining the parts gives the key back, which together fix the parts |
| Arbiter.CoordinateKeepsParts | src/atlas_memory/cognitive/conflict_arbiter.py:62-93 | entity and slot of a longer key keep its parts, exchanged before a functional slot, except an empty last of four |
| Arbiter.RootParts | src/atlas_memory/cognitive/conflict_arbiter.py:50-60 | the entity root is made of the first three parts under hermes, of two in a known namespace or with a slot, else of one |
| Arbiter.RootsAgreeExactlyWhen | src/atlas_memory/cognitive/conflict_arbiter.py:50-60 | two keys share a root if and only if these parts agree |
| Arbiter.GenerateCandidates | src/atlas_memory/cognitive/conflict_arbiter.py:242-282 | the loop collects the candidates in dictionary order and sorts them by score |
| Arbiter.SortedCandidates | src/atlas_memory/cognitive/conflict_arbiter.py:242-282 | sorting keeps every candidate, orders by score, and puts the earliest of the best first |
| Arbiter.CollectedFrom | src/atlas_memory/cognitive/conflict_arbiter.py:332-429 | a candidate under another key comes from a live existing record, and is a revision only if the metadata named it |
| Arbiter.SupersedeRespectsBoundary | src/atlas_memory/cognitive/conflict_arbiter.py:122-194 | superseding another key never touches a multi-valued slot, stays in the entity root unless asked, and names a live record |
| Arbiter.CrossesRootExactlyWhenAsked | src/atlas_memory/cognitive/conflict_arbiter.py:792-865 | for a best candidate in another root: supersede if and only if both slots are single-valued and the metadata asked |
| Arbiter.UnnamedRootIsCrossed | src/atlas_memory/cognitive/conflict_arbiter.py:792-865 | a claim, a record and a clash between them: the claim asks for a revision without naming the record, and supersedes it in another root |
| Arbiter.UnaskedSupersedeIsEarned | src/atlas_memory/cognitive/conflict_arbiter.py:140-194 | without being asked, only scores of 35 or more supersede another record, by a confident enough claim or a melted rule |
| ConfidenceGate.ScanGuards | src/atlas_memory/cognitive/conflict_arbiter.py:350-448 | the scan warns of an inversion if and only if the record is live, under the claim's key, established and undercut, not named, and no melted rule |
| ConfidenceGate.ScanRevises | src/atlas_memory/cognitive/conflict_arbiter.py:350-430 | the scan finds a revision of the claim's key if and only if the metadata names it, or a new value comes from a user who is as confident, or on a melted rule |
| ConfidenceGate.ScanForeign | src/atlas_memory/cognitive/conflict_arbiter.py:350-383 | under another key it finds the named record or a clash between single-valued slots, and nothing else |
| ConfidenceGate.InversionExactlyWhen | src/atlas_memory/cognitive/conflict_arbiter.py:432-448 | the verdict is an inversion, and the write gate closes, if and only if the claim's own record is guarded, gives the best candidate, and neither request nor melted rule lets the claim through |
| ConfidenceGate.GuardedIsBest | src/atlas_memory/cognitive/conflict_arbiter.py:242-282 | it gives the best candidate where no other candidate scores 90 or more |
| ConfidenceGate.GuardedIsLeft | src/atlas_memory/cognitive/write_path.py:573-590 | a write that is no replay leaves the store exactly as it was in that case |
| ConfidenceGate.SupersedesExactlyWhen | src/atlas_memory/cognitive/conflict_arbiter.py:792-865 | by the best candidate, when a claim supersedes a record of its own key and when one of another |
| ConfidenceGate.WeakerIsBlocked | src/atlas_memory/cognitive/conflict_arbiter.py:432-448 | on a record of 0.95 a claim of 0.5 is blocked and one of 0.99 is not |
| WritePath.Writer.Write | src/atlas_memory/cognitive/write_path.py:382-949 | gates, arbitration, revision, persistence and compensation leave exactly the store and outcome of WriteStep |
| WritePath.Writer.ReviseBelief | src/atlas_memory/cognitive/write_path.py:613-680 | marking and tombstoning leave the store of AfterRevision |
| WritePath.Writer.Commit | src/atlas_memory/cognitive/write_path.py:728-949 | from the savepoint to the end: the store and outcome of CommitStep |
| WritePath.Writer.UndoVector | src/atlas_memory/cognitive/write_path.py:759-809 | the compensation for a failed vector insertion |
| WritePath.Writer.UndoGraph | src/atlas_memory/cognitive/write_path.py:859-896 | the compensation for a failed graph insertion |
| WriteEffects.OutcomeExactly | src/atlas_memory/cognitive/write_path.py:382-949 | the outcome is that of the first gate or call that fails |
| WriteEffects.RejectedChangesNothing | src/atlas_memory/cognitive/write_path.py:424-590 | a rejected write leaves the store as it was |
| WriteEffects.ReplayStoresRequest | src/atlas_memory/cognitive/write_path.py:454-490 | a replay stores value, confidence and metadata as they came, or nothing |
| WriteEffects.WrittenHoldsValue | src/atlas_memory/cognitive/write_path.py:737-744 | a write that reports success holds the requested value and confidence |
| WriteEffects.WrittenRecordsPrior | src/atlas_memory/cognitive/write_path.py:697-706 | the prior value and the revision count are recorded if and only if the fetched value differed |
| WriteEffects.WrittenMeta | src/atlas_memory/cognitive/write_path.py:382-744 | every other field of the stored metadata |
| WriteEffects.WrittenLeavesOthers | src/atlas_memory/cognitive/write_path.py:613-744 | every key other than the written and the superseded one is unchanged |
| WriteEffects.SupersededRecord | src/atlas_memory/cognitive/write_path.py:613-686 | what a revision writes over the record of another key |
| WriteEffects.SupersededKeepsValue | src/atlas_memory/cognitive/write_path.py:613-686 | a superseded record that was fetched as stored keeps value and confidence |
| WriteGuarantees.LinksAcyclic | src/atlas_memory/cognitive/write_path.py:613-636 | where every chain ends at a record that arbitration does not ignore, the links form no cycle |
| WriteGuarantees.OldWasFetched | src/atlas_memory/cognitive/write_path.py:593-639 | a superseded record other than the written one was fetched live |
| WriteGuarantees.WrittenKeepsLinks | src/atlas_memory/cognitive/write_path.py:593-745 | a stored write keeps all chains if and only if it does not fall into the tombstone gap |
| WriteGuarantees.GapIsReached | src/atlas_memory/cognitive/write_path.py:613-680 | a store with sound chains and a write without supersession flags that reports success and falls into the gap |
| WriteGuarantees.OtherSuccessKeepsLinks | src/atlas_memory/cognitive/write_path.py:382-592 | rejected writes and replays keep all chains |
| WriteGuarantees.RunKeepsLinks | src/atlas_memory/cognitive/write_path.py:382-949 | over every run of successful writes whose metadata carries no supersession flag or link: all states keep the chains if and only if no write falls into the gap |
| WriteGuarantees.VectorAbortRestores | src/atlas_memory/cognitive/write_path.py:759-809 | the store is as before if and only if the records restored by hand had been fetched as stored |
| WriteGuarantees.GraphAbortRestores | src/atlas_memory/cognitive/write_path.py:859-896 | the same, and no same-key revision had been marked before the savepoint |
| WriteGuarantees.SelfMarkedLoops | src/atlas_memory/cognitive/write_path.py:859-896 | in that case the record is superseded by itself and its chain never ends |
| WriteGuarantees.SelfMarkIsReached | src/atlas_memory/cognitive/write_path.py:859-896 | a store with sound chains and a same-key revision whose graph insertion fails, with every rollback call succeeding, that ends so |
| WriteGuarantees.KvFailureKeepsMark | src/atlas_memory/cognitive/write_path.py:728-745 | a refused value leaves the store as before if and only if the revision wrote no mark or tombstone that the store did not hold already |
| WriteGuarantees.MarkIsKept | src/atlas_memory/cognitive/write_path.py:728-745 | a store and a refused write that leaves the old record marked |
| Levenshtein.WithinOne | src/atlas_memory/cognitive/write_path.py:62-85 | true if and only if the recursively defined edit distance is at most one |
| Levenshtein.OneLonger | src/atlas_memory/cognitive/write_path.py:73-85 | the same for the two-pointer walk over lengths that differ by one |
| Levenshtein.MismatchesDecide | src/atlas_memory/cognitive/write_path.py:70-72 | for equal lengths, at most one differing place if and only if the edit distance is at most one |
| Levenshtein.DistanceSymmetric | src/atlas_memory/cognitive/write_path.py:62-85 | the distance, hence the test, is symmetric |
| JsonScan.FindEnd | scripts/build_retrieval_calibration.py:637-661 | the loop with depth, string and escape flags finds the character at which the state machine is done, or none |
| JsonScan.ExtractObjects | scripts/build_retrieval_calibration.py:632-673 | the scan terminates, and collects in order the blocks that the parser accepts |
| JsonScan.BlocksOfWeave | scripts/build_retrieval_calibration.py:632-673 | balanced blocks between fillers without an opening brace are cut out exactly |
| JsonScan.TextIsWeave | scripts/build_retrieval_calibration.py:632-673 | every text is put together in this way from the blocks the scan cuts out |
| JsonScan.KeepsValue | scripts/build_retrieval_calibration.py:643-661 | inside an object, any well-formed value leaves the scanner at its depth and outside strings |
| JsonScan.ObjectIsBalanced | scripts/build_retrieval_calibration.py:637-661 | the scan of a well-formed object ends at its own closing brace and not before |
| JsonScan.ObjectsAreCutOut | scripts/build_retrieval_calibration.py:632-673 | well-formed objects separated by text without an opening brace are cut out exactly, in order, whatever their strings contain |
| Rubric.Compose | scripts/build_retrieval_calibration.py:1019-1031 | every entry comes from the last probe that measures and has it, else from the first rubric; any true veto sets the flag |
| Rubric.GateExactly | scripts/build_retrieval_calibration.py:1019-1033 | the composite is gated if and only if some probe vetoed or the third read a polarity of zero |
| Rubric.AnyVetoForcesZero | scripts/build_retrieval_calibration.py:1019-1034 | one hard veto in any probe forces latent, label and vote to zero |
| Rubric.CompositeIsWeightedMean | scripts/build_retrieval_calibration.py:501-563 | with complete rubrics and open gates, the composite latent is within 0.0001 of 0.55 l1 + 0.20 l2 + 0.25 l3 |
| Rubric.MajorityExactly | scripts/build_retrieval_calibration.py:1033-1034 | the vote accepts if and only if the composite label is 1 and the first or third probe's label is 1 |
| Rubric.EarlyInversionSlips | scripts/build_retrieval_calibration.py:1019-1034 | three rubrics, the first with polarity zero, whose composite is accepted with latent 1 |
| Rubric.LatentMonotoneExactly | scripts/build_retrieval_calibration.py:501-540 | raising dimensions never lowers the full latent, except when a negative polarity is lifted to zero in a rubric without a veto and with a weighted sum above 0.00005 |
| Rubric.NegativePolarityLifted | scripts/build_retrieval_calibration.py:523-526 | two rubrics that show the exception |
| Rubric.LabelMonotone | scripts/build_retrieval_calibration.py:541-563 | raising dimensions never turns label 1 into 0 |
| Rubric.NormOnScale | scripts/build_retrieval_calibration.py:531-537 | entailment and actionability are read on a scale of three, the others of two, in proportion |
| Rubric.AcceptsExactlyWhen | scripts/build_retrieval_calibration.py:541-561 | the full rubric accepts if and only if nothing vetoes, polarity allows it, the weighted sum reaches 0.74995, and the candidate entails the answer |
| Rubric.ProbesAcceptExactlyWhen | scripts/build_retrieval_calibration.py:552-557 | when each of the three probes accepts, by its own dimensions |
| Rubric.HardNegativeIsRejected | scripts/build_retrieval_calibration.py:545-551 | entailment 2 on a merely related entity is never accepted |
| ShadowWorker.StepKeeps | src/atlas_memory/active/shadow_worker.py:96-203 | every step of any consumer keeps the invariant |
| ShadowWorker.StartsInOrder | src/atlas_memory/active/shadow_worker.py:122-203 | in every reachable state the started turns are a prefix of the enqueued ones and the queue is the rest |
| ShadowWorker.ExactlyOnePlace | src/atlas_memory/active/shadow_worker.py:155-203 | every turn is queued, in flight with one consumer, or finished, and the counter counts those in flight |
| ShadowWorker.NothingUnreadIsLost | src/atlas_memory/active/shadow_worker.py:80-94 | the buffer is the end of the results, as long as what was not popped, up to a thousand |
| ShadowWorker.FlushDrains | src/atlas_memory/active/shadow_worker.py:96-108 | a flush call returns only after every turn enqueued before it has started; if nothing is in flight then, all of them are finished |
| ShadowWorker.UnfinishedExactlyInFlight | src/atlas_memory/active/shadow_worker.py:96-108 | at any return, an earlier turn is unfinished if and only if another consumer holds it |
| ShadowWorker.Worker.EnqueueTurn | src/atlas_memory/active/shadow_worker.py:122-129 | appends to the queue, or waits while it is full |
| ShadowWorker.Worker.TakeTurn | src/atlas_memory/active/shadow_worker.py:159-187 | takes the oldest turn and counts it as in flight, in one step |
| ShadowWorker.Worker.FinishTurn | src/atlas_memory/active/shadow_worker.py:188-203 | counts down, and records the turn if it succeeded, dropping the oldest result of a full buffer |
| ShadowWorker.Worker.CheckFlush | src/atlas_memory/active/shadow_worker.py:96-108 | between two awaits a flush call takes a turn, returns or sleeps, as the state machine says |
| Dedup.FindDuplicates | scripts/atlas_dedup_kv.py:104-134 | exactly the groups of two or more records of one hash, each once, in table order |
| Dedup.PlanDeduplication | scripts/atlas_dedup_kv.py:137-161 | every group keeps the first record of highest rank and deletes the others; the total is their number |
| Dedup.ExecuteDeduplication | scripts/atlas_dedup_kv.py:190-199 | removes exactly the planned keys that the store does not refuse, and counts them |
| Dedup.PlannedExactly | scripts/atlas_dedup_kv.py:104-161 | a record is planned for deletion if and only if its group has a record that goes before it |
| Dedup.Deduplicate | scripts/atlas_dedup_kv.py:104-199 | scan, plan and delete leave the kept records and the refused ones |
| Dedup.OneKeptPerContent | scripts/atlas_dedup_kv.py:81-161 | without hash collisions each non-empty content keeps exactly one record, of maximal rank |
| Dedup.RetentionRule | scripts/atlas_dedup_kv.py:86-101 | of one content a canonical memory key is kept before a hermes key before any other, then the newest, then the longest key |
| Dedup.ContentsKeptExactly | scripts/atlas_dedup_kv.py:104-199 | the set of contents survives if and only if no two contents share a hash |
| Dedup.SecondScanIsEmpty | scripts/atlas_dedup_kv.py:104-199 | a second scan finds no duplicates |
| Dedup.DeletionsCounted | scripts/atlas_dedup_kv.py:104-199 | the deletions number the records with content minus the distinct contents |
| StableSort.SortOk | scripts/atlas_dedup_kv.py:138-144 | the stable descending sort orders every list and puts the earliest of its best elements first |
| Rounding.RoundMonotone | src/atlas_memory/cognitive/calibration_engine.py:418-419 | rounding keeps order |
| Rounding.TiesToEven | src/atlas_memory/cognitive/calibration_engine.py:418-419 | halfway between two multiples the even one is taken |

## Left out

- Floating point: numbers are exact reals, so drift, NaN and infinity are not modelled.
- The key-value, vector and graph stores, the hot buffer, the audit chain, HTTP, the language-model judge, sockets and SQL: only the calls the modelled code makes appear, as maps or as success flags.
- WritePath.Writer.Write: does not model vector, graph and hot-buffer contents, because the program does not undo the edges and purged vectors of an aborted write; the model follows the key-value store.
- `_auto_insert_graph_edges` and `commit_relation`: they write to the graph only; their failure is one flag of a write.
- Concurrent writes: a write is one step, its fetched records are given, and only the lemmas that need it say that they match the store.
- The lexical detectors of the arbiter, its word lists, stripping and case folding are parameters; the messages and candidate metadata of its results are not modelled.
- WhatIf.CausalWhatIf: does not model the final sort and the risk level of a path, because both rest on keyword scores; a signature is the sequence of triples, not the joined string.
- Diffusion.Diffuse: does not model the rounding of the results, the list of collected edges and the divergence estimate, because the properties are those of the values before rounding.
- KolmogorovSmirnov.KsStatistic: does not model the scipy branch and the p-value, which is a truncated series of exponentials.
- IsotonicCalibrator.Calibrator.Fit: does not model the metrics, the reference sample and the version stamp, nor an empty training set, which numpy rejects.
- IsotonicCalibrator.Calibrator.PredictProba: does not model the multivariate prior, calibration per query type and the array branch.
- Grid points of the threshold searches are exact hundredths, from 0.05 to 1.10 and from 0.01 to 0.24.
- The first two extraction strategies of `_extract_json_batch` and its single-object fallback; the test that a parsed block is a rubric is part of the parser parameter.
- The grammar of numbers: an atom is any non-empty text of number characters or one of the three literal names, so the scanner's theorems hold for more texts than RFC 8259 allows.
- Latent reasons, thinking text, caching, the variance of the probes and the batch transport of the judge. A dictionary score that is not a number raises in the program and is not modelled.
- Starting and stopping the worker: cancelling it counts as a failed turn. The steps split what runs between two awaits, so the runs of the model include all those of the program. Time is a flag of each check.
- ShadowWorker.Worker.FinishTurn: a result is named by its turn's place in the order of starting, and its payload is not modelled.
- Dedup.ExecuteDeduplication: does not model the vector deletions, because they leave the table alone; the command line of the script is left out too.
- The t-SNE, clustering and risk-scoring code, which has no crisp specification.
