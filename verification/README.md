# A verified model of the agent gateway's algorithmic core

The gateway limits concurrent calls to model providers, trims prompts before they are sent,
learns which prompt strategies pay off, watches traffic for anomalies and records it; a
separate worker pool runs queued jobs. This project models the parts of that system whose
correctness is not visible from a single function, and proves what they promise. Every result
is a statement over all inputs, all runs or all reachable states.

`dafny verify dfyconfig.toml` checks the whole project.

| file | models |
|---|---|
| `Common.dfy` | shared types, byte strings |
| `Vectors.dfy`, `GaussJordan.dfy`, `Bandit.dfy` | the contextual bandit: ridge arms, in-place inverse, scoring, persistence |
| `SlotProtocol.dfy` | the limiter's acquire/release protocol as interleaved atomic steps |
| `LimitController.dfy`, `RttTracker.dfy` | the limit controller under its mutex, the lock-free RTT statistics |
| `Packer.dfy` | the greedy knapsack packer |
| `LineDelta.dfy` | line diff: LCS table, backtracking, reversal, compaction, the encoder's decision |
| `CacheMarkers.dfy` | the prompt-cache marker budget over system blocks, messages and tools |
| `Chunker.dfy` | content-defined chunking and stable-first reordering |
| `Anomaly.dfy` | Welford statistics, z-score classes, streaks |
| `Pacer.dfy`, `JobQueue.dfy` | the worker's sliding-window pacer and the retry life cycle of jobs |
| `Capture.dfy` | the response tee, the capped reader, the upload pipeline |

## How the source is modelled

- Floating point is modelled by exact reals. The square root is a parameter; statements that
  depend on it say that it is exact (`Common.IsRoot`), the others hold for any function.
  Statements about z-scores compare squares, `d > 0 && d^2 n > b^2 m2`.
- Concurrency is modelled by state machines whose steps are the individual atomic operations
  (loads, compare-and-swaps, counter increments, lock and unlock). Timeouts and wake-ups may
  happen at any moment.
- Clocks, HTTP, Redis and Postgres are parameters or maps. A stored bandit state may expire.
- 64-bit wrap-around is explicit in the chunker's hash and in a model's series number; counters
  are unbounded.

Where comments and code disagree, the model follows the code:

- The pacer announces a re-check after waking (`ai-worker/worker.py:58-59`), but the code only
  appends.
- The comment on the last clamp pass says that the tool marker is re-added afterwards
  (`api-gateway/handler/handler.go:2898-2899`), but the ensure step runs before the clamp.

Some promises do not hold of the code for every input. Each has a failing run and the exact
condition under which it holds:

| promise | fails | holds exactly |
|---|---|---|
| limiter counters equal the slots held and return to zero | a slot taken from a model named "" by a lower-series attempt is read as a failure and never returned | unless "" and a model of series 1 are configured (`SlotProtocol.ExactIffNotProne`); with positive limits, two requests at a time are needed as well (`SlotProtocol.PositiveExactIff`) |
| limits stay in range | configured or default limit of 0 or less | limits of at least 1 (`LimitController.ConfiguredIsBounded`, `DefaultIsBounded`) |
| the RTT average stays near the range of RTTs | a zero RTT enters the average but not the minimum | no negative RTT, and no zero together with one above slack + 1 (`RttTracker.InRangeIff`) |
| at most `limit` grants per 60 s | two callers wait for the same slot | every caller that wakes finds room (`Pacer.RespectedIffRoomAtWakes`) |
| the packer's guarantee | negative utility floor | floor of at least 0 (`Packer.GuaranteeIffFloor`) |
| the best-scored arm is chosen | an arm with the empty id leads | only the last arm may have the empty id (`Bandit.FirstMaxIffDecisive`) |
| each job leaves a result that can be fetched | two jobs share a request id, as all jobs without one do | request ids are distinct (`JobQueue.FetchableIffDistinct`) |
| finished executions equal processed plus failed | a response is counted and then cannot be recorded | no such response (`JobQueue.Safety`, `JobQueue.CountedTwice`) |

## Model

| member | source | states |
|---|---|---|
| `Vectors.Exchange` | api-gateway/bandit/bandit.go:264-280 | x·(My) = (xM)·y for the loops' own summation order |
| `GaussJordan.PivotIsQuadraticForm` | api-gateway/bandit/bandit.go:236-254 | at every column the pivot equals e·Me for the current right-half row e, whose diagonal entry is 1 |
| `GaussJordan.EliminateInvariant` | api-gateway/bandit/bandit.go:236-254 | a column step without patch keeps left = right·M, the finished unit columns and the untouched identity columns |
| `GaussJordan.ReduceInvariant` | api-gateway/bandit/bandit.go:236-254 | that invariant holds after every number of unpatched column steps |
| `GaussJordan.EveryPivot` | api-gateway/bandit/bandit.go:236-241 | if x·Mx ≥ x·x for all x, every pivot met is at least 1, so the 1e-12 patch is unreachable |
| `GaussJordan.InverseIsLeftInverse` | api-gateway/bandit/bandit.go:227-262 | whenever no pivot is patched, result·M = I |
| `GaussJordan.InverseIsTwoSided` | api-gateway/bandit/bandit.go:227-262 | on symmetric such M the result is symmetric and M·result = I too |
| `GaussJordan.PatchNudges` | api-gateway/bandit/bandit.go:237-241 | overwriting a pivot has the effect of having started from a matrix with one diagonal entry changed |
| `GaussJordan.InverseOfNearby` | api-gateway/bandit/bandit.go:219-262 | for every square matrix, singular ones included, the result is the exact inverse of a matrix that differs from it only on the diagonal, by less than 2e-12 |
| `GaussJordan.NormalisePivotRow` | api-gateway/bandit/bandit.go:237-244 | the in-place division turns row col into the specified pivot row, patch included, and touches no other row |
| `GaussJordan.SubtractRow` | api-gateway/bandit/bandit.go:249-252 | the in-place inner loop subtracts factor times the pivot row, with the factor read beforehand, and touches no other row |
| `GaussJordan.EliminateColumn` | api-gateway/bandit/bandit.go:236-254 | one pass of the outer loop performs exactly one specified column step |
| `GaussJordan.Invert` | api-gateway/bandit/bandit.go:227-262 | the array algorithm returns the specified inverse; times M, or times the nearby matrix when a pivot is patched, it is I |
| `Bandit.ReachableIsRidge` | api-gateway/bandit/bandit.go:151-156 | every arm matrix reachable from the identity by updates is symmetric with x·Ax ≥ x·x |
| `Bandit.ReachableInverts` | api-gateway/bandit/bandit.go:219-262 | on every reachable arm all pivots are at least 1 and the inverse is exact on both sides |
| `Bandit.VarianceNonNegative` | api-gateway/bandit/bandit.go:128-129 | the uncertainty term is never negative, so Abs is redundant |
| `Bandit.FormAfterUpdate` | api-gateway/bandit/bandit.go:151-156 | rank-one update formula for φ·A⁻¹φ after adding ψψᵀ |
| `Bandit.VarianceNeverRises` | api-gateway/bandit/bandit.go:145-160 | no update of an arm raises any uncertainty |
| `Bandit.VarianceAfterOwnUpdate` | api-gateway/bandit/bandit.go:145-160 | observing φ turns its uncertainty v into exactly v/(1+v) < 1 |
| `Bandit.NeverExploratoryAgain` | api-gateway/bandit/bandit.go:134-135 | after an update with φ, no sequence of further updates lets the arm be flagged exploratory on φ |
| `Bandit.LossIsQuadratic` | api-gateway/bandit/bandit.go:151-160 | A and B are the quadratic and linear part of the regularised squared loss of the history |
| `Bandit.ThetaIsOptimal` | api-gateway/bandit/bandit.go:125 | theta is the unique minimiser of squared error plus squared length: any t loses at least the squared distance |
| `Bandit.FormCauchySchwarz` | api-gateway/bandit/bandit.go:151-156 | Cauchy-Schwarz for the form of a reachable arm matrix |
| `Bandit.ScoreIsOptimistic` | api-gateway/bandit/bandit.go:125-129 | with alpha ≥ 0 and an exact root, the score is the maximum of t·φ over all t with (t-θ)·A(t-θ) ≤ alpha²: an upper bound for each, attained by one |
| `Bandit.UpdateArm` | api-gateway/bandit/bandit.go:151-160 | the nested in-place loops add φφᵀ to A and reward·φ to B |
| `Bandit.Bandit.Load` | api-gateway/bandit/bandit.go:172-200 | only listed arms are loaded; any other id starts from the identity |
| `Bandit.Bandit.Update` | api-gateway/bandit/bandit.go:145-165 | the stored state is the replay of the arm's history plus this observation; an unlisted arm's history restarts |
| `Bandit.ScoreArm` | api-gateway/bandit/bandit.go:125-129 | mean, uncertainty and score on a ridge state, with Abs having no effect; the score is that maximum |
| `Bandit.FirstMaxIffDecisive` | api-gateway/bandit/bandit.go:114-136 | the first arm of maximal score is chosen for all scores iff no arm but the last has the empty id |
| `Bandit.WinnerIsFirstMax` | api-gateway/bandit/bandit.go:131-136 | for such arms the choice is the first maximum |
| `Bandit.Choose` | api-gateway/bandit/bandit.go:114-141 | the loop chooses that arm, empty ids included, and flags it exploratory iff its uncertainty exceeds 1 |
| `Bandit.Bandit.Select` | api-gateway/bandit/bandit.go:110-142 | over the loaded states of the listed arms, the choice is the first whose optimistic value is largest; no arm gives the empty choice |
| `SlotProtocol.ParseSeries` | api-gateway/middleware/adaptive_limiter.go:748-761 | the digit loop computes the series, with 64-bit wrap-around; "" is of series 0 |
| `SlotProtocol.SeriesIsNumber` | api-gateway/middleware/adaptive_limiter.go:746-761 | "glm-" followed by a number below 2^63 and a non-digit or the end has that number as its series; names that do not start with "glm-" have series 0 |
| `SlotProtocol.StepAccounts` | api-gateway/middleware/adaptive_limiter.go:200-302 | every atomic step changes the counters by exactly what its thread gains or gives up, including the cross-series swap, or takes an unreported slot of the model named "" in a configuration prone to that |
| `SlotProtocol.StepGuards` | api-gateway/middleware/adaptive_limiter.go:247-256 | what each step has tested: mutex discipline, counter below the limit, compare-and-swap on the value read |
| `SlotProtocol.NextKeepsInv` | api-gateway/middleware/adaptive_limiter.go:815-825 | every step and every limit change keeps counting, mutual exclusion and bounds |
| `SlotProtocol.EveryRun` | api-gateway/middleware/adaptive_limiter.go:196-302 | the invariant holds at every moment of every interleaving |
| `SlotProtocol.Safety` | api-gateway/middleware/adaptive_limiter.go:200-258 | in every configuration the global counter equals the slots held, each model's counter the slots held plus those leaked from the model named ""; none is negative, they stay within the global limit and the largest limit a model has had; nobody waits inside Acquire while holding a global slot; a grant holds exactly one global slot and the slot Release will return |
| `SlotProtocol.Quiescent` | api-gateway/middleware/adaptive_limiter.go:449-510 | once all threads are outside again, by release or refusal, the counters hold nothing but leaked slots |
| `SlotProtocol.GrantIsLastTaken` | api-gateway/middleware/adaptive_limiter.go:283-335 | in every run a thread is granted the model whose slot it took last, so a cross-series swap ends with the lower model |
| `SlotProtocol.WaitsAfterTryingAll` | api-gateway/middleware/adaptive_limiter.go:462-497 | a thread sleeps waiting for any model only after finding the requested one and then the whole fallback order full |
| `SlotProtocol.LeakAtOne` | api-gateway/middleware/adaptive_limiter.go:314-319 | two requests with all limits at 1 leave a slot of the model named "" taken for ever |
| `SlotProtocol.ExactIffNotProne` | api-gateway/middleware/adaptive_limiter.go:269-319 | counters are exact at every moment of every run, and zero when all have left, iff no model named "" lies one series below a configured model |
| `SlotProtocol.PositiveExactIff` | api-gateway/middleware/adaptive_limiter.go:200-319 | over runs whose limits stay positive, the same iff that or the global limit is 1 |
| `LimitController.SectionKeepsWithin` | api-gateway/middleware/adaptive_limiter.go:573-592 | one critical section keeps the limit in range and below a live ceiling; successes never lower it, overloads never raise it |
| `LimitController.SectionsKeepWithin` | api-gateway/middleware/adaptive_limiter.go:573-687 | so does every sequence of critical sections, whatever RTTs and clocks they read |
| `LimitController.ConfiguredIsBounded` | api-gateway/middleware/adaptive_limiter.go:120-131 | a configured model stays in range forever iff its configured limit is at least 1 |
| `LimitController.DefaultIsBounded` | api-gateway/middleware/adaptive_limiter.go:153-154 | the same for the default model |
| `LimitController.UnconfiguredEscapes` | api-gateway/middleware/adaptive_limiter.go:576-584 | with a configured limit of 0 or less, one overload lifts the limit above its maximum |
| `LimitController.DefaultEscapes` | api-gateway/middleware/adaptive_limiter.go:153-154 | the same for the default model, whose limit the configuration does not filter |
| `LimitController.GradientIs` | api-gateway/middleware/adaptive_limiter.go:657-659 | the gradient is the ratio of the buffered minimum to the RTT, cut off at 0.8 and 2; never above 1.1 as no RTT is below the minimum |
| `LimitController.AdditiveIsRoot` | api-gateway/middleware/adaptive_limiter.go:660 | what a raise adds is the exact root of the limit |
| `LimitController.RaisesIff` | api-gateway/middleware/adaptive_limiter.go:654-686 | without a ceiling a response raises the limit iff (1-g)·limit ≤ √limit - 1 |
| `LimitController.SlowNeverRaises` | api-gateway/middleware/adaptive_limiter.go:654-686 | from a limit of 14 on, an RTT of 1.25 times the buffered minimum or more never raises it |
| `LimitController.RaiseIsBounded` | api-gateway/middleware/adaptive_limiter.go:654-686 | no raise exceeds 1.1·limit + √limit |
| `LimitController.Propose` | api-gateway/middleware/adaptive_limiter.go:654-664 | the computation of the proposed limit |
| `LimitController.CalmRaise` | api-gateway/middleware/adaptive_limiter.go:654-686 | within 10% of the fastest RTT a raise gains at least the whole root of the limit, up to one below a live ceiling or the maximum |
| `LimitController.CalmSuccessesClimb` | api-gateway/middleware/adaptive_limiter.go:598-687 | over any run of calm successes the limit gains one per fifth success until it is one below a ceiling of less than five minutes, or at the maximum |
| `LimitController.OverloadsHalve` | api-gateway/middleware/adaptive_limiter.go:568-591 | k overloads in a row divide the limit by 2^k, rounding down, but not below 1 |
| `LimitController.OverloadsReachMinimum` | api-gateway/middleware/adaptive_limiter.go:579-582 | as soon as 2^k reaches the limit it is at its minimum |
| `LimitController.CooldownFreezesLimit` | api-gateway/middleware/adaptive_limiter.go:636-640 | for five seconds after an overload the limit stays at half or below, whatever responses arrive |
| `LimitController.CeilingHolds` | api-gateway/middleware/adaptive_limiter.go:668-677 | for five minutes after an overload the limit stays below the value that was too much, whatever responses arrive |
| `LimitController.OverloadRestartsCount` | api-gateway/middleware/adaptive_limiter.go:571-644 | the four responses after an overload leave the limit alone |
| `LimitController.OverrideFreezesLimit` | api-gateway/middleware/adaptive_limiter.go:627-634 | while an override is in place successes leave the limit alone |
| `LimitController.StatisticsAreTrue` | api-gateway/middleware/adaptive_limiter.go:563-612 | calls and overloads are counted; the minimum is the least positive RTT of any success |
| `LimitController.StatisticsAreTracked` | api-gateway/middleware/adaptive_limiter.go:600-625 | minimum and average after any calls are those of the lock-free tracker when the successes report in turn |
| `LimitController.ResponsesKeepWithin` | api-gateway/middleware/adaptive_limiter.go:563-687 | any sequence of whole calls keeps the limit in range and below a live ceiling |
| `LimitController.AdaptiveModel.Feedback` | api-gateway/middleware/adaptive_limiter.go:563-687 | the field-by-field update equals the specified transition |
| `LimitController.AdaptiveModel.RaiseLimit` | api-gateway/middleware/adaptive_limiter.go:649-686 | the raise section: cap, ceiling, decay of the ceiling, store only if higher |
| `RttTracker.SmoothedInRange` | api-gateway/middleware/adaptive_limiter.go:617-621 | one truncating smoothing step stays within 3 below the minimum and at most the maximum |
| `RttTracker.EveryRun` | api-gateway/middleware/adaptive_limiter.go:601-625 | in every interleaving of the two compare-and-swap loops with positive RTTs the average is zero or within [minRTT-3, largest RTT] |
| `RttTracker.ReportsCountOnce` | api-gateway/middleware/adaptive_limiter.go:614-625 | in every interleaving each report updates the average exactly once |
| `RttTracker.MinimumWasReported` | api-gateway/middleware/adaptive_limiter.go:600-612 | the minimum is an RTT that was reported |
| `RttTracker.LeastSlack` | api-gateway/middleware/adaptive_limiter.go:614-625 | 3 ns is the least slack with that property: reports of 13 ns settle at 10 |
| `RttTracker.LeavesRange` | api-gateway/middleware/adaptive_limiter.go:603-604 | a run from the start leaves the range by a negative RTT, or by zeros after one above slack + 1 |
| `RttTracker.InRangeIff` | api-gateway/middleware/adaptive_limiter.go:601-625 | for every set of possible RTTs and slack of at least 3, all runs stay in range iff no RTT is negative and zero does not occur together with one above slack + 1 |
| `Packer.EligibleIsFilter` | api-gateway/packer/packer.go:60-65 | each item at or above the floor with tokens is eligible as often as it is given, no other item is |
| `Packer.GreedyPartitions` | api-gateway/packer/packer.go:78-85 | taken and rejected items are together the eligible ones |
| `Packer.GreedyFits` | api-gateway/packer/packer.go:78-85 | the taken items fit and no rejected item would still fit at the end |
| `Packer.OverflowingPrefixWins` | api-gateway/packer/packer.go:67-85 | the ratio-sorted prefix through the first overflowing item beats every rival that fits |
| `Packer.GreedyGuarantee` | api-gateway/packer/packer.go:58-85 | packed utility plus that of the first rejected item is at least that of any fitting sub-collection of eligible items |
| `Packer.NegativeFloorBreaksGuarantee` | api-gateway/packer/packer.go:60-65 | for every negative utility floor there is an input on which the guarantee fails |
| `Packer.GuaranteeIffFloor` | api-gateway/packer/packer.go:58-85 | the guarantee holds for all sorted eligible lists and budgets iff the floor is not negative |
| `Packer.GreedyKeepsOrder` | api-gateway/packer/packer.go:78-85 | packed and rejected items stay in ratio order |
| `Packer.SortByRatio` | api-gateway/packer/packer.go:67-72 | a permutation sorted by descending utility per token |
| `Packer.Pack` | api-gateway/packer/packer.go:58-97 | all of the above for the procedure, stated over the given items, with the excluded bytes |
| `LineDelta.SplitRoundTrip` | api-gateway/delta/delta.go:180-181 | the lines, each with a newline, make up the text plus one newline |
| `LineDelta.SplitLinesAreClean` | api-gateway/delta/delta.go:180-181 | no line contains a newline |
| `LineDelta.FillTable` | api-gateway/delta/delta.go:187-203 | the filled table holds the recurrence at every entry |
| `LineDelta.LcsIsUpperBound` | api-gateway/delta/delta.go:193-203 | no common subsequence of the two prefixes is longer than the entry |
| `LineDelta.LcsIsAttained` | api-gateway/delta/delta.go:193-203 | some common subsequence has exactly that length |
| `LineDelta.Backtrack` | api-gateway/delta/delta.go:205-228 | the loops produce the reversed script |
| `LineDelta.ReverseOps` | api-gateway/delta/delta.go:230-233 | the swapping loop reverses the ops |
| `LineDelta.ScriptEdits` | api-gateway/delta/delta.go:205-233 | the script rewrites the old lines into the new ones and keeps exactly lcs lines |
| `LineDelta.ScriptIsMinimal` | api-gateway/delta/delta.go:205-228 | no edit script for the same lines uses fewer deletions plus insertions |
| `LineDelta.ScriptDeletesFirst` | api-gateway/delta/delta.go:208-233 | no insertion of the script is directly followed by a deletion |
| `LineDelta.CompactDeletesFirst` | api-gateway/delta/delta.go:235-243 | so each stretch between kept lines becomes at most one deletion and then one insertion |
| `LineDelta.SizeIsExact` | api-gateway/delta/delta.go:253-259 | the serialized size is one byte per op plus all data |
| `LineDelta.CompactKeeps` | api-gateway/delta/delta.go:235-243 | compaction keeps old and new text and the number of keeps, and leaves no adjacent deletes or inserts |
| `LineDelta.CompactOps` | api-gateway/delta/delta.go:236-243 | the compaction loop equals the specification |
| `LineDelta.SizeBound` | api-gateway/delta/delta.go:253-259 | the serialized size is at least the new text plus one byte per op |
| `LineDelta.ComputeDelta` | api-gateway/delta/delta.go:178-251 | the compacted script describes both texts, keeps lcs lines, and never saves a byte |
| `LineDelta.Encode` | api-gateway/delta/delta.go:95-133 | content unchanged, saving 0, and a delta reported exactly for small inputs with a baseline and empty content or a threshold that is not positive |
| `CacheMarkers.CountIsSize` | api-gateway/handler/handler.go:2920-2956 | counting gives the number of marked positions |
| `CacheMarkers.RankFollowsOrder` | api-gateway/handler/handler.go:2821-2825 | ranks of markers strictly follow the stripping order and lie below the total |
| `CacheMarkers.PassesStripFirst` | api-gateway/handler/handler.go:2837-2914 | the four passes together remove exactly the markers of rank below the excess and change nothing else |
| `CacheMarkers.ClampedTotal` | api-gateway/handler/handler.go:2826-2917 | clamping leaves min(4, total) markers |
| `CacheMarkers.StripLoop` | api-gateway/handler/handler.go:2839-2857 | one pass strips the first selected markers until the excess is gone and counts them |
| `CacheMarkers.StripMessagesLoop` | api-gateway/handler/handler.go:2859-2881 | the nested pass over messages, oldest first |
| `CacheMarkers.Request.CountMarkers` | api-gateway/handler/handler.go:2920-2956 | the number of markers over system, messages and tools |
| `CacheMarkers.Request.Clamp` | api-gateway/handler/handler.go:2826-2917 | the first total-4 markers of the order are removed, their number is returned, at most 4 remain |
| `CacheMarkers.Request.EnsureTools` | api-gateway/handler/handler.go:2960-2979 | marks the last tool only within the budget, returns how many were added |
| `CacheMarkers.Request.EnsureSystemTail` | api-gateway/handler/handler.go:2988-3007 | the same for the last system block |
| `CacheMarkers.LastIsMarked` | api-gateway/handler/handler.go:2960-3007 | below four markers, a last element that is an object ends up marked and nothing else changes |
| `CacheMarkers.WalkMessagesSpends` | api-gateway/handler/handler.go:2775-2816 | injection adds one marker per unit of budget spent, only to unmarked text objects, and changes nothing else |
| `CacheMarkers.WalkMessagesCovers` | api-gateway/handler/handler.go:2775-2816 | while budget remains, every text block that starts 18 blocks has a marker among them |
| `CacheMarkers.InjectedCovers` | api-gateway/handler/handler.go:2741-2819 | the same for a whole payload with at least 18 messages |
| `CacheMarkers.InjectedIsLate` | api-gateway/handler/handler.go:2757-2816 | each marker that injection adds has at least 17 counted units on its newer side before the next marker, trailing unmarked system blocks included |
| `CacheMarkers.InjectedIsFew` | api-gateway/handler/handler.go:2757-2816 | injection adds at most one marker per 18 counted units |
| `CacheMarkers.SinceIsTail` | api-gateway/handler/handler.go:2762-2773 | the system blocks that count are the objects after the last marked one |
| `CacheMarkers.Request.Inject` | api-gateway/handler/handler.go:2741-2819 | the in-place backward walk equals the specification, marks nothing early and never exceeds 4 |
| `CacheMarkers.PipelineRespectsBudget` | api-gateway/handler/handler.go:1363-1379 | for every payload the sequence ends with at most 4 markers; with fewer and at least 18 messages, no 18 consecutive text blocks are unmarked |
| `CacheMarkers.PipelineMarksTails` | api-gateway/handler/handler.go:1363-1379 | with fewer than four markers the last tool ends up marked, and the last system block if the tool has left room |
| `CacheMarkers.PipelineWhenFull` | api-gateway/handler/handler.go:1363-1379 | with four markers or more the sequence only removes the excess |
| `CacheMarkers.PipelineTouchesOnlyMarkers` | api-gateway/handler/handler.go:1363-1379 | the sequence changes markers and nothing else in the payload |
| `CacheMarkers.Request.Prepare` | api-gateway/handler/handler.go:1366-1379 | the four in-place steps in order compute that pipeline |
| `Chunker.ChunkLoop` | api-gateway/chunker/chunker.go:119-161 | the index loop's chunks make up the content, and with ordered parameters are the one chunking, which is also the suffix-recursive one |
| `Chunker.ChunksPartition` | api-gateway/chunker/chunker.go:119-161 | chunks concatenate to the text; all but the last have a length in [MinChunk, MaxChunk] |
| `Chunker.HashIsPolynomial` | api-gateway/chunker/chunker.go:142-147 | the wrapping hash is the base-31 polynomial of the window modulo 2^64; the boundary test is the same without wrap-around |
| `Chunker.PolynomialRolls` | api-gateway/chunker/chunker.go:142-146 | sliding the window drops the oldest term and shifts the rest |
| `Chunker.ChunksAreChunking` | api-gateway/chunker/chunker.go:119-161 | every part but the last ends where it is complete, none could have been cut earlier |
| `Chunker.ChunkingIsUnique` | api-gateway/chunker/chunker.go:119-161 | no other list of parts has that property |
| `Chunker.ChunksAfterBoundary` | api-gateway/chunker/chunker.go:130-153 | after any boundary the remaining chunks are the chunks of the remaining text |
| `Chunker.SameSuffixSameChunks` | api-gateway/chunker/chunker.go:130-153 | texts that agree after a boundary of each have identical remaining chunks |
| `Chunker.SamePrefixSameBoundaries` | api-gateway/chunker/chunker.go:130-153 | texts with a common prefix have the same boundaries inside it |
| `Chunker.WindowHash` | api-gateway/chunker/chunker.go:142-146 | the inner loop computes the 64-bit wrapping hash of the window |
| `Chunker.SelectPartitions` | api-gateway/chunker/chunker.go:86-97 | stable and novel chunks are together all chunks |
| `Chunker.SelectIsFilter` | api-gateway/chunker/chunker.go:86-104 | each group is the chunks with its flag, in text order |
| `Chunker.StableGrows` | api-gateway/chunker/chunker.go:77-84 | recording more never turns a stable chunk novel; a digest never recorded is novel |
| `Chunker.RepeatedTextIsStable` | api-gateway/chunker/chunker.go:73-117 | a text recorded as often as the threshold asks comes back unchanged |
| `Chunker.ReorderKeepsLength` | api-gateway/chunker/chunker.go:106-116 | reordering never changes the length |
| `Chunker.Chunker.FlagAndRecord` | api-gateway/chunker/chunker.go:77-84 | a chunk is stable iff its digest was recorded before, in the store or earlier in the text, often enough; each chunk is recorded once |
| `Chunker.Chunker.ChunkAndReorder` | api-gateway/chunker/chunker.go:73-117 | stable chunks first, each group in text order; length unchanged and saving 0 for any history |
| `Chunker.Chunker.OptimizeStage` | api-gateway/handler/optimizers.go:118-130 | the stage never replaces the text |
| `Anomaly.WelfordTracks` | api-gateway/middleware/anomaly.go:84-89 | the recurrence keeps the true mean and spread, never lowers the spread and bounds the newest deviation |
| `Anomaly.NewestZScore` | api-gateway/middleware/anomaly.go:101-110 | the squared z-score of the newest of n samples is at most n-1 |
| `Anomaly.SeverityNeedsSamples` | api-gateway/middleware/anomaly.go:144-152 | high severity needs 11 samples, critical 18 |
| `Anomaly.LoneReachesBound` | api-gateway/middleware/anomaly.go:84-110 | a sample after n-1 equal ones has squared z-score exactly n-1 |
| `Anomaly.SeverityIffSamples` | api-gateway/middleware/anomaly.go:144-152 | some n samples end in high or critical severity iff n ≥ 11, in critical iff n ≥ 18 |
| `Anomaly.ZScoreDecides` | api-gateway/middleware/anomaly.go:101-152 | the comparisons of the z-score give the class and the severity |
| `Anomaly.ScoreMeans` | api-gateway/middleware/anomaly.go:101-118 | the reported score has the sign of the deviation, its square is the squared z-score, and it gives the class |
| `Anomaly.SustainedMeansFive` | api-gateway/middleware/anomaly.go:130-142 | a sustained verdict is given iff the last five samples were all spikes, or all drops |
| `Anomaly.AnomalyDetector.Store` | api-gateway/middleware/anomaly.go:80-81 | the ring buffer holds the latest samples |
| `Anomaly.AnomalyDetector.Record` | api-gateway/middleware/anomaly.go:77-158 | the report equals the verdict, severity and z-score of the true statistics; streak fields count the runs, also on the paths that do not reset them |
| `Pacer.PruneLoop` | ai-worker/worker.py:49-51 | exactly the timestamps less than 60 s old, in order |
| `Pacer.ImmediateGrantRespectsLimit` | ai-worker/worker.py:45-63 | in every run, overlapping or not, a grant without waiting leaves at most `limit` grants in the trailing 60 s |
| `Pacer.RespectedIffRoomAtWakes` | ai-worker/worker.py:39-68 | in every run, overlapping or not, every 60 s interval has at most `limit` grants iff every caller that wakes finds fewer than `limit` recent grants |
| `Pacer.SequentialRunsRespectLimit` | ai-worker/worker.py:39-68 | when calls do not overlap, sleepers always find room, so every 60 s interval has at most `limit` grants, waited ones included |
| `Pacer.OverlapIsBounded` | ai-worker/worker.py:53-68 | in every run, every 60 s interval has at most `limit` + 600 grants per caller, as a waited call sleeps more than 0.1 s |
| `Pacer.OverlapExceedsLimit` | ai-worker/worker.py:65-68 | for every limit, two callers waiting together reach limit + 1 grants in 60 s |
| `Pacer.WaitIsTight` | ai-worker/worker.py:53-58 | a caller told to wait has no room until 0.1 s before its waking time, gains some then, and never waits longer than 60.1 s |
| `Pacer.ProviderRateLimiter.TryAcquire` | ai-worker/worker.py:41-63 | the first locked section prunes, then stamps or computes the sleep; unlimited providers pass |
| `Pacer.ProviderRateLimiter.Resume` | ai-worker/worker.py:67-68 | the second locked section is the Wake step of the protocol, leaves other providers alone, and keeps the window within the limit iff there was room |
| `JobQueue.ConservedStep` | ai-worker/worker.py:210-233 | every step keeps each submitted job in exactly one place |
| `JobQueue.BudgetedStep` | ai-worker/worker.py:440-462 | retry counts equal finished runs and never exceed the budget; errors are stored only after the last allowed run |
| `JobQueue.TalliedStep` | ai-worker/worker.py:380-447 | finished executions equal processed plus failed, undecodable entries and responses that were counted but not recorded aside |
| `JobQueue.CountedTwice` | ai-worker/worker.py:380-427 | a run in which one execution is counted twice as processed |
| `JobQueue.BalancedStep` | ai-worker/worker.py:380-462 | successes recorded equal completed results, final failures equal error results |
| `JobQueue.InOrderStep` | ai-worker/worker.py:217-225 | entries leave the queue in the order in which they came, retries included |
| `JobQueue.ChainIsExhausted` | ai-worker/worker.py:335-440 | an execution fails exactly when its whole provider chain has been tried |
| `JobQueue.KeyedStep` | ai-worker/worker.py:464-468 | jobs and results keep their request id, and the store holds the latest result written under each |
| `JobQueue.Safety` | ai-worker/worker.py:329-491 | in every run: one place per job, at most max_retries + 1 runs, error results only after all of them, and the exact counter balance |
| `JobQueue.StepsDoWork` | ai-worker/worker.py:444-491 | every step but a submission lowers the work measure built on max_retries - retry_count |
| `JobQueue.RunsTerminate` | ai-worker/worker.py:444-491 | after the last submission a run has no more steps than the work left |
| `JobQueue.StoppedMeansStored` | ai-worker/worker.py:393-468 | when no worker can move, every job has written exactly one result |
| `JobQueue.ResultsTellTheTruth` | ai-worker/worker.py:393-457 | in every run a result is a completion iff an execution of its job succeeded, and an error iff all max_retries + 1 executions failed |
| `JobQueue.FetchableIffDistinct` | ai-worker/worker.py:464-468 | then every job's result can be fetched iff all request ids differ |
| `Capture.TeeBody.Read` | api-gateway/capture/roundtripper.go:102-118 | the buffer is the longest prefix within the cap and trunc holds iff more was read |
| `Capture.PrefixIsLongest` | api-gateway/capture/roundtripper.go:102-118 | the captured part is a prefix, everything or as long as the cap |
| `Capture.TeeBody.Close` | api-gateway/capture/roundtripper.go:120-147 | the first close emits the record, later ones nothing |
| `Capture.RoundTrip` | api-gateway/capture/roundtripper.go:24-83 | the request side is the capped copy of a body that can be read again, else empty; an upstream error emits one record at once; success emits none and wraps the body |
| `Capture.Exchange` | api-gateway/capture/roundtripper.go:24-147 | for every request body, every split of the response into reads and every positive number of closes, one exchange emits exactly one record with both sides |
| `Capture.ReadCapped` | api-gateway/capture/roundtripper.go:161-170 | the capped prefix, and whether the probing read returned a byte, for failing sources too |
| `Capture.ReadCappedAgreesWithTee` | api-gateway/capture/roundtripper.go:161-170 | reader and tee agree on truncation iff the source does not answer the probe with zero bytes while it has more |
| `Capture.Recorder.Enqueue` | api-gateway/capture/capture.go:195-203 | queues or drops without blocking; enqueued plus dropped equals emitted |
| `Capture.StepAccounts` | api-gateway/capture/capture.go:153-203 | every atomic step of emitters and workers keeps the channel first-in first-out and the counters accounted for |
| `Capture.CountersBalance` | api-gateway/capture/capture.go:153-203 | in every interleaving enqueued (plus increments under way) is uploaded plus failed plus pending, and calls are enqueued plus dropped |
| `Capture.CountersAreTrue` | api-gateway/capture/capture.go:153-203 | uploaded and failed count the uploads that ended well and badly, enqueued and dropped the records accepted and refused |

## Left out

- Routing, authentication, vision, quota and profile handling, the privacy pipeline, text rewriting by regular expressions: plumbing or rule tables around code that is not part of this model.
- Liveness of limiter waiters: wake-ups and deadlines are nondeterministic steps, only safety is claimed.
- The limiter's choice among candidates (rotation, headroom filter, 70% utilisation rule) is any choice from the series bucket; fallback suggestions and status snapshots are not modelled.
- Manual overrides are any limit change in `SlotProtocol` and are outside the range claims of `LimitController`, as an override may exceed the maximum.
- Floating-point rounding and overflow of 64-bit counters.
- Delta decoding: the source has no serializer for its format.
- The bandit's JSON encoding and the two-level store: one map whose entries may expire.
- Bandit.ScoreIsOptimistic: is stated for alpha ≥ 0; a negative alpha would make the score pessimistic.
- Chunker.SameSuffixSameChunks: is stated for 1 ≤ WindowSize ≤ MinChunk ≤ MaxChunk, because a window longer than the minimum chunk reads across the previous boundary.
- JobQueue.Safety: assumes a reliable result store, a key manager that does not fail and no cancellation, and folds waiting for a model slot into the execution.
- JobQueue.FetchableIffDistinct: results do not expire in the model.
- Capture.RoundTrip: leaves out headers, URL, timing, privacy status and the text encoding of bodies.
- Capture.TeeBody.Close: concurrent closes of one body are not modelled, as the source keeps its flag without synchronisation.
- Prefetching, description trimming, disclosure, compression caches, image handling, dashboards and load-test scripts would only add easy members.
