# Verification models for the TrioFuzz learners, its concurrency cores and FuzzBench

This project models the parts of the repository whose correctness is hard to see from one function, and proves
what they are for. Each module follows one component and, where the source updates state in place, its form:
classes with fields, arrays and loops, proved against functions and relations whose properties are lemmas.

| Module | Component |
|---|---|
| `Markov`, `AliasTable`, `RowMajor` | operator transitions and Vose alias tables of the unified learner |
| `MoptPso`, `MoptOnline`, `Swarm` | the two particle-swarm operator learners and their common arithmetic |
| `ThompsonLayer`, `BetaPosterior`, `ConfigArms` | Thompson sampling over configuration arms |
| `UnifiedLearner` | the coordinator: task generation and routing of results |
| `SpscQueue` | the single-producer, single-consumer queue |
| `VirginMap`, `TraceBitmap`, `Buckets` | AFL-compatible coverage: shared virgin bits, edge histogram, count classes |
| `InlineCounters` | the chunked scan of inline 8-bit counters |
| `RingBuffer`, `CasAccumulators` | circular metrics buffer and compare-and-swap accumulators of the engine threads |
| `CombinationKey` | the key printer and its two parsers |
| `EffectSize` | the A12 effect size |
| `ImportClosure` | the memoised import search for fuzzer dependencies |
| `Scheduler` | CPU allocation of local experiments |
| `Retry` | the retry decorator for functions and generators |
| `Clobber` | choosing the data of the latest experiment |

`Sums`, `Sets`, `Reals`, `Circular`, `Naturals` and `Options` hold shared arithmetic and data types.

Concurrent code is a transition system over atomic steps, one per load, store, exchange or locked section, under
sequentially consistent memory. Invariants are proved for every step, and the main results for every schedule; a
class beside each system takes the steps in place. Random draws, the clock, square roots and logarithms, the
outcome of starting a trial and the behaviour of wrapped functions are inputs. `double` is `real`. A weighted draw
takes the outcome whose share of the unit interval holds a uniform draw.

Where code and documentation disagree the model follows the code:

- The learner's header speaks of 16 configuration arms and its constants of 14; the code builds 15, or 13 without
  EcoFuzz, counting the analysis arm (`ConfigArms.GetConfigArms`).
- The stagnation check divides the finds since the last check by all executions so far, not by those since the
  check (`ThompsonLayer.ThompsonSampler.CheckAndHandleStagnation`).
- `total_edges_` of the AFL-compatible coverage counts the calls that found something, not edges
  (`VirginMap.QuiescentRunIsDeterministic`).
- `full()` of the circular buffer is true only for a buffer without slots, because one slot always stays free
  (`RingBuffer.FullOnlyWithoutSlots`).
- Both key parsers drop a last empty algorithm name (`CombinationKey.SplitJoin`).
- A12 is not a number for an empty sample (`EffectSize.RankSumIsPairwise`).

## Model

| member | source | states |
|---|---|---|
| `AliasTable.PickHits` | include/core/triofuzz_unified_learner.hpp:860-868 | In one column, the uniform draws that select an outcome form exactly the interval whose length counts as its probability |
| `AliasTable.DrawsExactly` | include/core/triofuzz_unified_learner.hpp:860-868 | Main result: a table row that splits a distribution exactly is drawn from with exactly that distribution |
| `AliasTable.PairingStep` | include/core/triofuzz_unified_learner.hpp:907-916 | Pairing a small with a large column keeps every outcome's mass and the sum of the shares |
| `AliasTable.Leftovers` | include/core/triofuzz_unified_learner.hpp:917-924 | When only small or only large columns are left, every share is exactly one, so the loop over small leftovers has nothing to do |
| `AliasTable.FinishedSplits` | include/core/triofuzz_unified_learner.hpp:897-924 | A finished construction is well formed and gives every outcome its mass |
| `Markov.MarkovLearner.constructor` | include/core/triofuzz_unified_learner.hpp:738-747 | At least one operator; all counts one, all rows uniform, the default stack size best |
| `Markov.MarkovLearner.BuildAlias` | include/core/triofuzz_unified_learner.hpp:897-924 | The built row represents its probabilities exactly, and no other row changes |
| `Markov.MarkovLearner.RebuildAlias` | include/core/triofuzz_unified_learner.hpp:880-895 | Afterwards every row's probabilities are its find counts over their total, every alias row represents them exactly, and these counts are the ones the tables follow from now on |
| `Markov.FollowingIsDistribution` | include/core/triofuzz_unified_learner.hpp:883-891 | Find counts over their total are a distribution, positive wherever a count is |
| `Markov.SmallRunsOut` | include/core/triofuzz_unified_learner.hpp:907-924 | The main loop ends with no small column left, so only the loop over large leftovers writes |
| `Markov.SamplerDrawsProbabilities` | include/core/triofuzz_unified_learner.hpp:860-868 | Main result: in every reachable state the constant-time sampler draws each successor with the learner's probability, which is positive |
| `Markov.SamplerDrawsCounts` | include/core/triofuzz_unified_learner.hpp:860-895 | In every reachable state the sampler draws each successor with probability finds over total of its row, as the counts stood at the last rebuild |
| `Markov.MarkovLearner.Update` | include/core/triofuzz_unified_learner.hpp:791-828 | Counts every in-range transition, the stack slot and the totals; rebuilds exactly when the interval is full or the period is over with enough samples, and otherwise adds the execution to those the tables lag behind |
| `Markov.TablesLag` | include/core/triofuzz_unified_learner.hpp:816-826 | Main result: in every reachable state the counts that the tables follow are the present ones without the feedback of fewer executions than the rebuild interval |
| `Markov.CountPairsCell` | include/core/triofuzz_unified_learner.hpp:795-803 | Each cell grows by exactly the number of its transitions; entries of a sequence that are no operators take part in none |
| `Markov.CountPairsTotal` | include/core/triofuzz_unified_learner.hpp:795-803 | The table total grows by exactly the number of counted pairs |
| `Markov.AllPairsCounted` | include/core/triofuzz_unified_learner.hpp:795-803 | A sequence of in-range operators books every one of its transitions |
| `Markov.ToIntWraps` | include/core/triofuzz_unified_learner.hpp:796-802 | The cast of an operator index to a signed int keeps its low 32 bits |
| `Markov.MarkovLearner.UpdateBestStack` | include/core/triofuzz_unified_learner.hpp:870-878 | The best stack size is the first with the most finds |
| `Markov.MarkovLearner.SampleAlias` | include/core/triofuzz_unified_learner.hpp:860-868 | The result is in range and is the table's pick for the drawn column and number |
| `Markov.MarkovLearner.SelectNext` | include/core/triofuzz_unified_learner.hpp:762-768 | Uniform without a valid predecessor, an alias draw otherwise; always in range |
| `Markov.MarkovLearner.SelectStack` | include/core/triofuzz_unified_learner.hpp:755-776 | A legal stack size: uniform while exploring, the best one otherwise |
| `Markov.MarkovLearner.GenerateSequence` | include/core/triofuzz_unified_learner.hpp:778-789 | A sequence of legal length whose operators are all in range, each what the alias draw selects after the one before |
| `Swarm.NormalisedSumsToOne` | include/core/triofuzz_unified_learner.hpp:670-678 | Dividing by a non-zero sum puts the positions on the probability simplex |
| `Swarm.NormalisedKeepsRatios` | include/core/triofuzz_unified_learner.hpp:673-678 | A probability is to the sum of the positions as its position is, and two probabilities stand in the ratio of their positions |
| `Swarm.NormalisedAboveFloor` | include/core/mopt_online_learner.hpp:242-257 | No operator starves: clamped positions give every probability at least v_min/(v_min+(n-1)v_max) |
| `Swarm.FloorReached` | include/core/mopt_online_learner.hpp:242-257 | The floor is reached by an operator at the lower bound with all others at the upper one |
| `Swarm.CountExecution` | include/core/triofuzz_unified_learner.hpp:589-593 | Every known operator of the sequence gets a cycle, and a find when something was found; unknown indices are skipped |
| `Swarm.RecordGlobalBest` | include/core/triofuzz_unified_learner.hpp:649-656 | The global best becomes the share of each operator in all finds, once there is one |
| `Swarm.SharesAreProportional` | include/core/triofuzz_unified_learner.hpp:649-654 | The shares are in proportion to the finds and sum to one |
| `Swarm.CountedTotal` | include/core/triofuzz_unified_learner.hpp:589-593 | The cycles grow by exactly the number of operators in the sequence; unknown indices are skipped |
| `Swarm.CountedKeepsCounters` | include/core/triofuzz_unified_learner.hpp:589-593 | Finds never exceed cycles, in total and in the open window, so no window subtraction underflows |
| `Swarm.BestsStayFractions` | include/core/triofuzz_unified_learner.hpp:625-633 | Recorded best efficiencies and positions stay within [0,1] |
| `Swarm.RememberedIsBest` | include/core/triofuzz_unified_learner.hpp:625-633 | What is remembered is the best window so far, with the position it was reached at |
| `Swarm.VelocityBounded` | include/core/mopt_online_learner.hpp:237-239 | One unclamped velocity update keeps |v| within 2/(1-w_init) |
| `Swarm.VelocityIsDampedPlusPulls` | include/core/mopt_online_learner.hpp:237-239 | A velocity is the damped old one plus the trusted sum of the two pulls; a full pull alone leads exactly to the local or the global best |
| `Swarm.InertiaBetween` | include/core/mopt_online_learner.hpp:213-219 | The inertia stays between its two end points in every generation |
| `Swarm.GenerationsCycle` | include/core/mopt_online_learner.hpp:209-212 | The generations run through 0 to g_max again and again |
| `Swarm.InertiaFalls` | include/core/mopt_online_learner.hpp:213-219 | Over the generations the inertia falls by equal steps from w_init to w_end |
| `Swarm.SelectOperator` | include/core/triofuzz_unified_learner.hpp:575-583 | A weighted draw returns the operator whose stretch of the unit interval holds the draw, and its probability is positive; without weights it returns index 0 |
| `MoptPso.LearnedKeepsSwarm` | include/core/triofuzz_unified_learner.hpp:623-682 | Main result: every update keeps the probabilities a distribution above the floor, the velocities within their limit and all remembered values fractions |
| `MoptPso.EmptierWindowsLearnLess` | include/core/triofuzz_unified_learner.hpp:644-657 | The emptier the window, the less its pulls are trusted, down to 0.3, and the larger the inertia, up to half way to one; a full window changes neither |
| `MoptPso.ProbabilitiesFollowPositions` | include/core/triofuzz_unified_learner.hpp:668-678 | The new probabilities stand in the ratio of the moved and clamped positions, and in their order |
| `MoptPso.MoreFindsMoreProbable` | include/core/triofuzz_unified_learner.hpp:649-678 | Main result: of two operators that stood alike and were pulled alike, the one with more finds is not less probable after an update, and more probable unless a limit stopped both |
| `MoptPso.PlacedOnSimplex` | include/core/triofuzz_unified_learner.hpp:670-680 | Renormalising keeps the sum one; positions that sum to nothing keep the old probabilities |
| `MoptPso.MovedWithin` | include/core/triofuzz_unified_learner.hpp:658-668 | Clamped velocities stay within the limit |
| `MoptPso.PsoLearner.constructor` | include/core/triofuzz_unified_learner.hpp:554-567 | Uniform positions and probabilities, velocities 0.1, no counts |
| `MoptPso.PsoLearner.Update` | include/core/triofuzz_unified_learner.hpp:585-613 | The execution is counted; exactly when the period is full, or the time is over with enough samples, the swarm learns from the window, with the share of the period as sample ratio when the window closed early |
| `MoptPso.PsoLearner.UpdateProbsAdaptive` | include/core/triofuzz_unified_learner.hpp:623-682 | The whole new swarm: efficiencies, global bests, adapted inertia, clamped velocities and positions, probabilities, snapshots |
| `MoptPso.PsoLearner.GenerateSequence` | include/core/triofuzz_unified_learner.hpp:575-583 | Every operator of the sequence is the one its draw selects, and has a positive probability; a learner without operators names index 0 only |
| `MoptOnline.LearnedKeepsSwarm` | include/core/mopt_online_learner.hpp:182-263 | Main result: every update keeps the simplex, the floor, the fractions and, though nothing clamps them, the velocities within 2/(1-w_init) |
| `MoptOnline.ProbabilitiesFollowPositions` | include/core/mopt_online_learner.hpp:241-258 | The new probabilities stand in the ratio of the moved and cut positions, and in their order |
| `MoptOnline.MoreFindsMoreProbable` | include/core/mopt_online_learner.hpp:221-258 | Main result: of two operators that stood alike and were pulled alike, the one with more finds is not less probable after an update without a restart, and more probable unless both were cut off at a bound |
| `MoptOnline.MovedStaysBounded` | include/core/mopt_online_learner.hpp:213-240 | All velocities of an update stay within 2/(1-w_init), which is 20 for the default 0.9 |
| `MoptOnline.PlacedOnSimplex` | include/core/mopt_online_learner.hpp:251-258 | Both the renormalised and the restarted swarm are on the simplex |
| `MoptOnline.PositiveBoundsNeverRestart` | include/core/mopt_online_learner.hpp:251-253 | With positive bounds the swarm never starts afresh |
| `MoptOnline.NextPeriod` | include/core/mopt_online_learner.hpp:129-131 | One more execution completes a period exactly when the remainder becomes zero |
| `MoptOnline.OnlineLearner.Update` | include/core/mopt_online_learner.hpp:109-132 | Empty sequences and learners change nothing; otherwise the execution is counted and every update_period-th one learns; with positive bounds updates = executions / update_period |
| `MoptOnline.OnlineLearner.UpdateProbabilities` | include/core/mopt_online_learner.hpp:182-263 | The whole new swarm, the window totals and the snapshots; positions without weight restart it |
| `MoptOnline.OnlineLearner.GenerateSequence` | include/core/mopt_online_learner.hpp:80-101 | A length between the normalised bounds, operators in range with positive probability, nothing for an empty learner |
| `MoptOnline.OnlineLearner.BoundsInOrder` | include/core/mopt_online_learner.hpp:80-90 | Zero length bounds count as one and swapped bounds are put in order |
| `MoptOnline.OnlineLearner.constructor` | include/core/mopt_online_learner.hpp:54-69 | Uniform positions and probabilities, velocities 0.1, no counts |
| `BetaPosterior.UpdatedIsProper` | include/core/triofuzz_unified_learner.hpp:165-191 | Whatever the prior, window and decay, the updated shapes are positive and sum to at most 50 |
| `BetaPosterior.RescaleKeepsMean` | include/core/triofuzz_unified_learner.hpp:183-187 | The joint rescale leaves the posterior mean unchanged and brings the sum of the shapes to exactly 50 |
| `BetaPosterior.MoreFindsLargerMean` | include/core/triofuzz_unified_learner.hpp:165-191 | With the same prior and window size, more finds give a strictly larger mean, for every decay in [0,1] |
| `BetaPosterior.ZeroDecayForgets` | include/core/triofuzz_unified_learner.hpp:173-174 | Decay zero forgets the prior: the window alone decides |
| `BetaPosterior.FullDecayAdds` | include/core/triofuzz_unified_learner.hpp:173-174 | Decay one forgets nothing: below the cap the counts are added |
| `BetaPosterior.DecaysMultiply` | include/core/triofuzz_unified_learner.hpp:173-174 | Main result: over two windows below the cap, what was known before has faded by both decays, the first counts by the second one, and the second counts not at all |
| `BetaPosterior.EmptyWindowsCompose` | include/core/triofuzz_unified_learner.hpp:173-174 | Two empty windows fade a posterior like one whose decay is the product |
| `BetaPosterior.SofteningIsFading` | include/core/triofuzz_unified_learner.hpp:470-478 | Softening does what an empty window with decay 0.7 would do |
| `BetaPosterior.SofteningMovesTowardsHalf` | include/core/triofuzz_unified_learner.hpp:470-478 | Softening keeps the posterior proper and moves its mean towards one half without passing it |
| `ConfigArms.GetConfigArms` | include/core/triofuzz_unified_learner.hpp:122-151 | 15 arms with EcoFuzz and 13 without, numbered by position; every offered configuration has exactly one arm and the last arm is the analysis arm |
| `ThompsonLayer.SomeArmUnderused` | include/core/triofuzz_unified_learner.hpp:290-313 | Some allowed arm is never above the average use, so the exploration list is never empty and its fallback never runs |
| `ThompsonLayer.AverageIsMean` | include/core/triofuzz_unified_learner.hpp:290-297 | The average is the rounded mean use of all arms, or of all but the analysis arm |
| `ThompsonLayer.UnderusedHas` | include/core/triofuzz_unified_learner.hpp:299-305 | The exploration list holds exactly the allowed arms used no more than the average |
| `ThompsonLayer.OneDominant` | include/core/triofuzz_unified_learner.hpp:454-466 | At most one arm holds more than half of all uses, and it is the most used one |
| `ThompsonLayer.DominantIsMajority` | include/core/triofuzz_unified_learner.hpp:454-466 | An arm dominates exactly when it has more uses than all others together |
| `ThompsonLayer.BoostDiesOut` | include/core/triofuzz_unified_learner.hpp:425-433 | A full boost is gone after five checks without stagnation; four leave a sixteenth |
| `ThompsonLayer.ThompsonSampler.constructor` | include/core/triofuzz_unified_learner.hpp:238-249 | Uniform posteriors, empty windows, no boost |
| `ThompsonLayer.ThompsonSampler.SelectArm` | include/core/triofuzz_unified_learner.hpp:283-352 | An allowed arm: under a boost one used no more than the average, otherwise the first best score |
| `ThompsonLayer.ThompsonSampler.UnusedArmsLead` | include/core/triofuzz_unified_learner.hpp:332-342 | An unused arm is ahead of a used one by the difference of their samples and a tenth of what the other's bonus lacks to ten |
| `ThompsonLayer.ThompsonSampler.BonusCounts` | include/core/triofuzz_unified_learner.hpp:332-342 | Between two used arms a larger exploration bonus counts a tenth of a larger sample |
| `ThompsonLayer.ThompsonSampler.Update` | include/core/triofuzz_unified_learner.hpp:354-400 | The use is booked; a window that is full, or over in time with enough samples, goes to the posterior, with a smaller decay factor when it closed early; stagnation is checked once per check window, by finds against the threshold times all executions. Flushed plus open windows equal uses and finds, the uses sum to the executions, open windows stay below the period |
| `ThompsonLayer.ThompsonSampler.UpdateWindow` | include/core/triofuzz_unified_learner.hpp:165-191 | The arm's posterior becomes the decayed, floored and rescaled one, and no other changes; what decay and rescaling mean is stated by the laws of BetaPosterior |
| `ThompsonLayer.ThompsonSampler.CheckAndHandleStagnation` | include/core/triofuzz_unified_learner.hpp:406-440 | Few finds since the last check against all executions trigger recovery; otherwise the boost halves and dies out; the find subtraction never underflows |
| `ThompsonLayer.ThompsonSampler.TriggerStagnationRecovery` | include/core/triofuzz_unified_learner.hpp:445-489 | The boost is set and exactly an arm with more than half of all uses is softened |
| `UnifiedLearner.SelectStackSize` | include/core/triofuzz_unified_learner.hpp:1342-1349 | A power of two between 2 and 1024 |
| `UnifiedLearner.RandomSequence` | include/core/triofuzz_unified_learner.hpp:1369-1377 | A sequence of the asked length with all operators in range |
| `UnifiedLearner.Learner.constructor` | include/core/triofuzz_unified_learner.hpp:1012-1041 | Each enabled layer exists with its configured parameters and operator count, splice and no-splice learners are distinct |
| `UnifiedLearner.Learner.LearnersConfigured` | include/core/triofuzz_unified_learner.hpp:1012-1041 | Each learner has the operator count, periods and sample minimum that the configuration names for it |
| `UnifiedLearner.OperatorsInRange` | include/core/triofuzz_unified_learner.hpp:1093-1167 | The operators of every well-formed task stay below the operator count that the configuration names for its kind |
| `UnifiedLearner.Learner.GenerateWorkerTask` | include/core/triofuzz_unified_learner.hpp:1093-1167 | The arm is the one Thompson sampling chooses; every task fits its arm and every operator index is in range for whoever receives the result; MOpt operators have positive probability; no analysis task without permission |
| `UnifiedLearner.Learner.GenerateExplorerTask` | include/core/triofuzz_unified_learner.hpp:1172-1247 | The same guarantees for random tasks; an analysis task exactly when the draw is below the clamped probability |
| `UnifiedLearner.Learner.ProcessResult` | include/core/triofuzz_unified_learner.hpp:1252-1283 | Layer 1 learns from every result; a result with operators that is no analysis result reaches the MOpt or the Markov learner of its splice mode, if that layer is enabled, which counts it; every other learner is unchanged; the books stay balanced |
| `UnifiedLearner.Learner.Serve` | include/core/triofuzz_unified_learner.hpp:1093-1283 | Main result: for any sequence of requests and results, each request is answered in order by a well-formed task of its kind, exactly the results of tasks issued before them are processed, and at the end the uses of every arm, the finds, and the cycles and executions of the MOpt and Markov learners are those of the processed tasks; the executions of an enabled layer grow by exactly the uses of its arms |
| `SpscQueue.StepRefinesFifo` | include/utils/lockfree_queue.hpp:22-53 | Main result: every atomic step is an enqueue or a dequeue of a bounded FIFO or leaves it alone; full and empty are reported exactly |
| `SpscQueue.EveryRunIsSafe` | include/utils/lockfree_queue.hpp:22-53 | Main result: under every interleaving the dequeued values are a prefix of the enqueued ones, at most Size-1 items are queued, no item is freed twice or used after, the null-item fallback is unreachable and free slots are null |
| `SpscQueue.StepKeepsInv` | include/utils/lockfree_queue.hpp:22-53 | Every step of either thread keeps the queue invariant |
| `SpscQueue.CheckRoom` | include/utils/lockfree_queue.hpp:23-28 | Enqueue gives up exactly when Size-1 items are queued |
| `SpscQueue.CheckItems` | include/utils/lockfree_queue.hpp:37-41 | Dequeue finds nothing exactly when nothing is queued |
| `SpscQueue.LockFreeQueue.Enqueue` | include/utils/lockfree_queue.hpp:22-34 | Appends the item, or fails exactly when the queue is full, wherever the consumer pauses |
| `SpscQueue.LockFreeQueue.Dequeue` | include/utils/lockfree_queue.hpp:36-53 | Takes the oldest item, or nothing exactly when the queue is empty, wherever the producer pauses |
| `SpscQueue.LockFreeQueue.Empty` | include/utils/lockfree_queue.hpp:55-58 | With any steps of both threads between its two loads: true exactly when the items sent by the second load and received by the first differ by whole rounds of the buffer; so when only the producer moves meanwhile it is exact at the second load, and when only the consumer does, at the first |
| `SpscQueue.LoadsMeet` | include/utils/lockfree_queue.hpp:55-58 | What comparing a head loaded first with a tail loaded later tells, whatever happens in between |
| `SpscQueue.LockFreeQueue.Take` | include/utils/lockfree_queue.hpp:22-53 | Each event changes the fields in place as the step relation says |
| `SpscQueue.LockFreeQueue.Execute` | include/utils/lockfree_queue.hpp:22-53 | Any schedule executed in place reaches the state of the run |
| `Buckets.ClearOneBit` | include/core/afl_compatible_coverage.hpp:199-202 | Clearing a count class clears its bit and no other |
| `Buckets.ClassesSplit` | include/core/afl_compatible_coverage.hpp:66-100 | Two hit counts have the same class exactly when they lie in the same of the ranges 1, 2, 3, 4-7, 8-15, 16-31, 32-127 and 128-255, and a higher range has a higher bit |
| `VirginMap.StepOnlyClears` | include/core/afl_compatible_coverage.hpp:196-204 | Virgin bits only go from one to zero, and a claim keeps its owner |
| `VirginMap.StepKeepsInv` | include/core/afl_compatible_coverage.hpp:185-221 | Every step of every thread keeps the map invariant |
| `VirginMap.EveryRunCountsClaims` | include/core/afl_compatible_coverage.hpp:185-221 | Main result: each cleared (edge, class) bit has exactly one claiming call, a call returns true exactly when it claimed a bit, and total_edges is at most the number of cleared bits, at most 8 per entry |
| `VirginMap.QuiescentRunIsDeterministic` | include/core/afl_compatible_coverage.hpp:185-221 | Main result: between calls the global map is exactly the entries that lost a bit, total_edges counts the calls that returned true, total_execs all calls, and the cleared bits are the classes of the inputs |
| `VirginMap.NewCoverageIff` | include/core/afl_compatible_coverage.hpp:185-221 | Main result: of the calls between two quiet moments, however interleaved, some returns true exactly when one of their inputs brings an edge into a hit-count range that no input before did |
| `VirginMap.LoneCallFindsNewRange` | include/core/afl_compatible_coverage.hpp:185-221 | A call that runs alone returns true exactly when it brings an edge into a hit-count range that no earlier input did |
| `VirginMap.CoverageMap.Take` | include/core/afl_compatible_coverage.hpp:185-221 | Each event changes the fields in place as the step relation says |
| `VirginMap.CoverageMap.Execute` | include/core/afl_compatible_coverage.hpp:185-221 | Any schedule executed in place reaches the state of the run |
| `TraceBitmap.Trace.Reset` | include/core/afl_compatible_coverage.hpp:137-140 | All counters zero, previous location zero |
| `TraceBitmap.Trace.RecordEdge` | include/core/afl_compatible_coverage.hpp:159-167 | The masked entry counts up to 255, no other changes |
| `TraceBitmap.Trace.ComputeEdgeId` | include/core/afl_compatible_coverage.hpp:174-179 | The id is the exclusive or with the previous location, which becomes half the current one |
| `TraceBitmap.Trace.RunInput` | include/core/afl_compatible_coverage.hpp:137-179 | Main result: after an input the bitmap is the saturated histogram of its edges, whatever ran before |
| `TraceBitmap.XorIsBitwise` | include/core/afl_compatible_coverage.hpp:176 | The exclusive or on numbers is the bitwise one |
| `TraceBitmap.DirectionsDiffer` | include/core/afl_compatible_coverage.hpp:160-178 | For distinct guards inside the map the two directions of an edge get different entries |
| `TraceBitmap.DirectionsMeetIff` | include/core/afl_compatible_coverage.hpp:160-178 | For arbitrary guards they share an entry exactly when the guards differ in none or all of their low 17 bits |
| `InlineCounters.Inline8BitCoverage.RegisterCounters` | include/core/inline_8bit_coverage.hpp:42-66 | Empty and oversized regions are ignored; otherwise the new region is used and what was seen is kept |
| `InlineCounters.Inline8BitCoverage.HasNewCoverage` | include/core/inline_8bit_coverage.hpp:76-141 | Main result: the chunked scan has exactly the effect and the verdict of one left-to-right pass; total_edges is the number of cleared entries in every reachable state |
| `InlineCounters.PassMeans` | include/core/inline_8bit_coverage.hpp:105-134 | Entry by entry: the verdict is whether a hit counter was virgin, such entries stop being virgin, hit counters are remembered |
| `InlineCounters.NewIffNeverHit` | include/core/inline_8bit_coverage.hpp:76-141 | Main result: over any sequence of scans, one reports new coverage exactly when it finds a counter hit that no earlier scan found hit |
| `InlineCounters.PassKeepsTotal` | include/core/inline_8bit_coverage.hpp:105-134 | A pass keeps the edge total equal to the number of cleared entries |
| `InlineCounters.Inline8BitCoverage.ResetCoverage` | include/core/inline_8bit_coverage.hpp:186-193 | The counters become zero and the tables are untouched |
| `RingBuffer.CircularBuffer.Push` | include/core/engine_thread_helpers.hpp:369-386 | Appends; a full buffer drops exactly its oldest item |
| `RingBuffer.CircularBuffer.Pop` | include/core/engine_thread_helpers.hpp:388-401 | Hands out the oldest item, or nothing when empty |
| `RingBuffer.CircularBuffer.GetAll` | include/core/engine_thread_helpers.hpp:403-416 | The held items in order |
| `RingBuffer.CircularBuffer.Execute` | include/core/engine_thread_helpers.hpp:369-401 | Main result: after any pushes and pops the buffer holds what the abstract bounded queue holds |
| `RingBuffer.PushesKeepNewest` | include/core/engine_thread_helpers.hpp:369-386 | Without pops the buffer holds the newest capacity-1 items |
| `RingBuffer.HoldsConsecutivePushes` | include/core/engine_thread_helpers.hpp:369-401 | Whatever the mix, the held items are a run of consecutive pushed items ending with the newest |
| `RingBuffer.SizeIsDistance` | include/core/engine_thread_helpers.hpp:418-420 | The size is the circular distance from head to tail |
| `CasAccumulators.NoUpdateIsLost` | include/core/engine_thread_helpers.hpp:77-85 | Main result: when all calls have finished, each cell holds the fold of exactly the deltas of all calls, however often exchanges failed |
| `CasAccumulators.BetaParamsExact` | include/core/engine_thread_helpers.hpp:72-86 | Main result: when all calls have finished, alpha is min(50, 1 + the successes of all calls) and beta min(50, 1 + the failures), for success rates in [0,1], whatever the interleaving |
| `CasAccumulators.EvidenceIsShared` | include/core/engine_thread_helpers.hpp:73-74 | Successes and failures share out the weight of all calls, and without failures beta gains nothing |
| `CasAccumulators.CombinationStatsExact` | include/core/engine_thread_helpers.hpp:98-107 | When all calls have finished, the uses are the sum of the executions and the reward the sum of executions times average reward |
| `CasAccumulators.BetaDeltasNonNegative` | include/core/engine_thread_helpers.hpp:73-74 | Success rates in [0,1] only ever add |
| `CasAccumulators.OrderIndependentIff` | include/core/engine_thread_helpers.hpp:78-80 | All orders of the exchanges leave a capped cell at the same value exactly when no delta is negative or the gains alone stay below the cap, and exactly then it is the capped sum |
| `CasAccumulators.SharedCells.Take` | include/core/engine_thread_helpers.hpp:72-107 | Each event changes the cells in place as the step relation says |
| `CasAccumulators.SharedCells.Execute` | include/core/engine_thread_helpers.hpp:72-107 | Any schedule executed in place reaches the state of the run |
| `EffectSize.MidRankIsAveragePosition` | fuzzbench/analysis/stat_tests.py:195-196 | A rank is the mean of the positions that the tied values occupy in sorted order |
| `EffectSize.RankSumIsPairwise` | fuzzbench/analysis/stat_tests.py:192-206 | Main result: the rank-sum formula is the pairwise definition, and a number exactly for non-empty samples |
| `EffectSize.NumeratorCountsWins` | fuzzbench/analysis/stat_tests.py:198-205 | Twice the rank sum less the sample's own ranks is twice the pairwise count |
| `EffectSize.A12IsProbability` | fuzzbench/analysis/stat_tests.py:182-206 | The measure lies in [0,1] and swapping the samples complements it |
| `EffectSize.A12OfSelf` | fuzzbench/analysis/stat_tests.py:182-206 | A sample against itself scores one half, whatever its ties |
| `CombinationKey.ToString` | include/core/engine.hpp:263-288 | The printed key, with "default" for an empty scheduler or feedback name |
| `CombinationKey.EmptyPrintsAsDefault` | include/core/engine.hpp:263-288 | An empty scheduler or feedback name prints as the name default, and every other one as itself at its end of the key |
| `CombinationKey.ParseCombinationName` | include/combination/thompson_sampling.hpp:442-471 | Mode before the first bracket, names up to the first closing one, the last empty name dropped |
| `CombinationKey.ParseCombinationString` | include/combination/unified_thompson_sampling.hpp:612-639 | The same result from the other splitting loop |
| `CombinationKey.ParseBothWays` | include/combination/unified_thompson_sampling.hpp:612-639 | Main result: the two independently written parsers agree on every string, and both compute the bracketed list and the mode |
| `CombinationKey.SplitJoin` | include/combination/unified_thompson_sampling.hpp:623-633 | Splitting undoes joining for comma-free names, except that a last empty name is lost |
| `CombinationKey.ParseOutline` | include/combination/unified_thompson_sampling.hpp:612-639 | The parse of a text by its first brackets: the default mode, no list, the text between them, or all the rest when the closing one comes first |
| `CombinationKey.SplitIff` | include/combination/unified_thompson_sampling.hpp:623-633 | Exactly which texts split into a given list of names: the joined names, with a comma behind them that is needed after a last empty name |
| `CombinationKey.KeyRoundTripIff` | include/core/engine.hpp:263-288 | Main result, for every combination: parsing the printed key recovers the algorithm list exactly when no name holds a comma and, with no bracket in front of the list, no name holds a closing bracket and the last one is not empty, or else the text in front happens to hold the list in its first brackets; the mode is the text before the first opening bracket, "scheduler:mode" as a rule |
| `ImportClosure.DependencyFinder.GetPythonDependencies` | fuzzbench/src_analysis/fuzzer_dependencies.py:98-147 | A search that ends normally returns and caches the module and everything reachable from it; it fails only for import chains beyond the depth limit or an unlocatable import that is really reachable; a failing search adds only complete sets to the cache; it always terminates |
| `ImportClosure.DependencyFinder.GetFuzzerDependencies` | fuzzbench/src_analysis/fuzzer_dependencies.py:77-95 | Exactly the reachable Python files and the docker files; a fuzzer that can reach an import cycle never gets a result |
| `ImportClosure.DependencyFinder.GetFilesDependentFuzzers` | fuzzbench/src_analysis/fuzzer_dependencies.py:150-161 | Exactly the fuzzers that depend on a changed file, in order |
| `ImportClosure.CollectedAll` | fuzzbench/src_analysis/fuzzer_dependencies.py:124-147 | Once all attributes are collected, the set is the closure |
| `ImportClosure.HeightReachesNoCycle` | fuzzbench/src_analysis/fuzzer_dependencies.py:104-118 | Bounded import chains reach no import cycle |
| `Scheduler.BuildCoreTable` | fuzzbench/experiment/scheduler.py:581-594 | Equal, disjoint core ranges inside the budget, as many as fit, all free |
| `Scheduler.LocalScheduler.EndExpiredTrials` | fuzzbench/experiment/scheduler.py:123-155 | Exactly the trials that ran out of time end, and exactly their core sets become free |
| `Scheduler.RoundEndsByAge` | fuzzbench/experiment/scheduler.py:88-97 | A round ends exactly the running trials that have run for the total time and the grace period |
| `Scheduler.LocalScheduler.StartTrials` | fuzzbench/experiment/scheduler.py:655-689 | The shuffled pending trials are started in turn on the free core sets until either runs out |
| `Scheduler.ShuffleReachesEveryOrder` | fuzzbench/experiment/scheduler.py:666-669 | The shuffle of the pending trials can end in every order |
| `Scheduler.RoundReportsItsStarts` | fuzzbench/experiment/scheduler.py:634-652 | A round reports exactly the pending trials that it leaves running |
| `Scheduler.LocalScheduler.UpdateStartedTrials` | fuzzbench/experiment/scheduler.py:634-652 | Every start that succeeded is recorded with its time and core set, and no other |
| `Scheduler.PlacingKeepsBooks` | fuzzbench/experiment/scheduler.py:634-689 | Whatever starts fail, every allocated core set still belongs to one running trial and every running trial owns exactly one |
| `Scheduler.EndingKeepsBooks` | fuzzbench/experiment/scheduler.py:123-155 | Ending expired trials keeps the ownership of the others |
| `Scheduler.StartsUntilBusy` | fuzzbench/experiment/scheduler.py:668-686 | When every start succeeds, no pending trial or no free core set is left |
| `Scheduler.RunningFitBudget` | fuzzbench/experiment/scheduler.py:585-594 | Never more running trials than runners_cpus // runner_num_cpu_cores |
| `Scheduler.NoSharedCores` | fuzzbench/experiment/scheduler.py:589-593 | Two running trials never share a core |
| `Scheduler.LocalScheduler.Schedule` | fuzzbench/experiment/scheduler.py:555-567 | A round leaves exactly the books of the round relation: the expired trials ended and their core sets freed, then the shuffled pending trials placed on the free core sets as far as their starts succeed; it stays within the budget |
| `Scheduler.LocalScheduler.Run` | fuzzbench/experiment/scheduler.py:606-625 | Executing any list of rounds in place reaches the state of the run, with the run's guarantees |
| `Scheduler.EveryRunIsSafe` | fuzzbench/experiment/scheduler.py:606-625 | Main result: after any list of rounds, whatever the shuffles and failed starts, core sets are owned exclusively, no two owners share a core, no trial is restarted or revived, and the running trials fit the budget |
| `Retry.WrapFunction` | fuzzbench/common/retry.py:69-86 | The result of the first decisive attempt, or the last; at most retries+1 attempts; the None after the loop is never returned |
| `Retry.WrapGenerator` | fuzzbench/common/retry.py:88-104 | Main result: the elements handed out are a gapless prefix without duplicates, all of them when an attempt completes |
| `Retry.ReplayOnce` | fuzzbench/common/retry.py:96-101 | Replayed elements that were already handed out are skipped |
| `Retry.HandleRetry` | fuzzbench/common/retry.py:53-67 | Another try exactly for a retried exception or a false result with tries left, after the sleep for it |
| `Retry.SleepBounded` | fuzzbench/common/retry.py:61 | The total sleep is at most that of a run in which every attempt fails, and reached only there |
| `Retry.DelaysMultiply` | fuzzbench/common/utils.py:80-82 | The first wait is the delay, and each later one the backoff factor longer than the one before |
| `Retry.PowersClosedForm` | fuzzbench/common/utils.py:80-82 | The sum of the backoff powers in closed form |
| `Clobber.ClobberExperimentsData` | fuzzbench/analysis/data_utils.py:69-96 | The fold yields, best ranked experiment first, the rows no better ranked experiment has data for; no experiments are an error |
| `Clobber.ClobberKeepsSurvivors` | fuzzbench/analysis/data_utils.py:69-96 | Main result: a row is in the result exactly as often as in the data when its experiment is listed and no experiment listed behind it has its pair, and not at all otherwise |
| `Clobber.ClobberKeepsOrder` | fuzzbench/analysis/data_utils.py:69-96 | Rows of later listed experiments come first, and rows of one experiment in the order of the data |
| `Clobber.NoPairLost` | fuzzbench/analysis/data_utils.py:69-96 | No benchmark and fuzzer pair of a listed experiment is lost |
| `Clobber.OneExperimentPerPair` | fuzzbench/analysis/data_utils.py:69-96 | All rows of a pair come from one experiment |
| `Clobber.GroupsCover` | fuzzbench/analysis/data_utils.py:86-94 | The covered pairs are exactly those of the experiments handled so far |

## Left out

- Floating-point rounding: `real` replaces `double`, so the rounding leftovers of the alias construction do not occur.
- Weak memory: all steps are sequentially consistent, and marking the global map under its mutex is one step.
- Integer widths: counters and sizes do not wrap; the narrowing of alias indices to 32 bits, stack shifts by 64 and more, and negative results of casting indices of 2^31 and more outside the Markov learner are not modelled.
- More than one producer or consumer on the queue; concurrent calls into one learner.
- Changing a learner's parameters by its setters after construction: they are constants here.
- The Gamma sampling behind the Thompson score, the square root in the adaptive decay and the logarithm in the exploration bonus: their values are arbitrary inputs.
- Caching of the explorer's analysis probability and its environment variable: the probability is an input.
- Reports, statistics printing, getters and the top-arm query, which only read.
- Of the inline counters: the sampled bucket-upgrade check, which also refreshes the previous counters, the coverage hash and the getters. Of the AFL-compatible coverage: classifying a whole bitmap in place, the Hamming distance and the getters.
- RingBuffer.CircularBuffer.Push: requires at least one slot, because the source divides by the capacity.
- CombinationKey.KeyRoundTripIff: speaks of keys below 2^64 characters, which is every key a string can hold.
- MoptPso.PsoLearner.constructor: requires v_min <= v_max and v_max >= 0, without which the source's clamping is undefined.
- Round trips of combination keys through the unified Thompson sampler: its keys gain a scheduler part every time.
- Non-local experiments: preemption, replacement trials, instances and their deletion; local experiments without a CPU budget; database sessions and the exception handler of the loop.
- Scheduler.BuildCoreTable: requires at least one core per runner, as the configuration does; a budget below one runner yields an empty table, for which the source cannot create its pool.
- Exceptions that a consumer throws into a retried generator, and generators that do not replay the same elements.
- Import hooks, modules that change while they are searched, and relative imports; paths stand for modules.
- pandas, scipy and importlib internals: frames are sequences of rows, ranking is by mid-ranks, attributes are classified once. The pandas behaviour of row-wise tuples on empty frames is not modelled.
- Declared interfaces without bodies: algorithm pools, batch executors, EcoFuzz scheduling, combination fusion, symbolic expressions and constraint solving.
- Process execution, docker, cloud storage, plotting, configuration files, command lines, logging and all other I/O.
