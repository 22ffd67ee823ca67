# Diversified portfolio selection, modelled in Dafny

This project models the core of a portfolio selector. The selector picks a fully invested, long-only portfolio of assets that maximises mean daily return. It is subject to three kinds of constraint:

- a downside-risk constraint: on all but a bounded number of "bad" days, the portfolio return must reach a target `R_var`;
- a diversification constraint over a graph of correlated assets;
- a minimum weight `gamma` for every selected asset.

The model covers five parts of the system:

- **Graphs** (`graphs.dfy`):
  - the correlation graph over asset indices;
  - its k-th power, by "within k hops" reachability;
  - deletion of negative-mean assets;
  - the composition used by the program, which powers first and filters after.
- **Instances** (`instances.dfy`): daily returns from prices, the per-day minimum return, per-asset mean returns, the ordered pair set and the day count.
- **Portfolio model and search** (`portfolio.dfy`, `bounds.dfy`, `outcomes.dfy`, `search.dfy`):
  - rows c1–c8 of the mixed-integer model as a feasibility predicate over real weights `x`, selections `y` and bad-day flags `z`;
  - the closed-form objective bound for exactly `k` assets;
  - the engine status mapping;
  - the incumbent update, the sweep that closes dominated unsolved cardinalities, and the final report;
  - the two-pass bottom-up cardinality search. The solving engine is a parameter: a total function from a request to an outcome record.
- **The earlier snapshot** (`lazy_cuts.dfy`, `backup_search.dfy`):
  - the two lazy-cut callbacks, as pure functions from a candidate to a list of cuts;
  - the eager/lazy switch for the return rows;
  - the looping search that repeats passes until everything is solved or a pass closes nothing new.
- **Results** (`results.dfy`): splitting a results column into its blocks at blank or missing cells.

`sums.dfy` holds sums, dot products, counts and the lemmas about them. `wrappers.dfy` holds `Option` and `Result`.

Reals stand for the program's floating-point numbers as an exact idealisation. A missing correlation (`None`) stands for NaN.

## Model

| member | source | states |
|---|---|---|
| Graphs.CorrelationGraph | application/utils/graph_utils.py:17-36 | The vertices are exactly 0..n-1. The edge set holds a pair exactly when it is listed and its correlation exceeds the threshold; a missing correlation gives no edge. Every edge joins two distinct vertices, lower index first. |
| Graphs.CorrelationAdjacency | application/utils/graph_utils.py:31-34 | With the standard pair set, assets i and j are adjacent (in either order) iff their correlation exceeds the threshold. |
| Graphs.ThresholdMonotone | application/utils/graph_utils.py:32 | Raising the threshold only removes edges. |
| Graphs.BallSound | application/utils/graph_utils.py:47-48 | Every vertex the hop-bounded search from u reports is reachable from u by a walk of at most k edges. |
| Graphs.BallComplete | application/utils/graph_utils.py:47-48 | Every vertex reachable from u by a walk of at most k edges is reported by the hop-bounded search. |
| Graphs.Power | application/utils/graph_utils.py:39-57 | The power graph keeps the vertex set. It is well formed, and u, v are adjacent iff u differs from v and v is within k hops of u. |
| Graphs.WithinHopsSymmetric | application/utils/graph_utils.py:49-51 | Reachability within k hops is symmetric, so the power graph is undirected. |
| Graphs.PowerContainsGraph | application/utils/graph_utils.py:47-51 | For k at least 1 the power graph contains every edge of the graph. |
| Graphs.PowerMonotone | application/utils/graph_utils.py:47-51 | Every edge of the k-th power is an edge of the (k+1)-th power. |
| Graphs.SquareAdjacency | application/utils/graph_utils.py:47-51 | In the square, u and v are adjacent iff they are distinct and either adjacent in the graph or share a neighbour. |
| Graphs.RemoveNegative | application/utils/graph_utils.py:60-65 | Exactly the vertices with mean return at least 0 survive; zero is kept. An edge survives iff both its endpoints do. Well-formedness is preserved. |
| Graphs.RemoveNegativeIdempotent | application/utils/graph_utils.py:60-65 | Filtering twice is filtering once. |
| Graphs.CorrelationPowerGraph | application/utils/graph_utils.py:5-14 | Both graphs are well formed and keep exactly the non-negative-mean assets. Two assets are adjacent in the first graph iff they are adjacent in the correlation graph and both are kept. They are adjacent in the second iff they are distinct, both are kept, and one is within two hops of the other in the correlation graph before filtering. The filtered graph is contained in the filtered square, and so is the square of the filtered graph. |
| Graphs.FilteredSquareFacts | application/utils/graph_utils.py:9-12 | For any graph, filtering after squaring keeps every edge that squaring after filtering produces. |
| Graphs.FilterAfterPowerKeepsDetour | application/utils/graph_utils.py:9-12 | On the path 0-1-2 with vertex 1 negative, the filtered square keeps the edge 0-2. Squaring after filtering would not keep it. |
| Instances.AssetPairs | application/utils/instance_utils.py:16 | The pair set is exactly the pairs (i, j) with i < j < n. |
| Instances.DailyReturns | application/utils/instance_utils.py:11 | The matrix has one row per day after the first, with n entries each. Each entry is the return that turns one day's price into the next day's. |
| Instances.ReturnsCompoundToPrices | application/utils/instance_utils.py:11 | Compounding the daily returns from the first price reproduces every later price. |
| Instances.MinDailyReturn | application/utils/instance_utils.py:12 | Each day's minimum is at most every asset's return that day and is one of them. |
| Instances.MeanReturn | application/utils/instance_utils.py:13 | Each asset's mean is the sum of its daily returns over the number of days. Its meaning is stated by Instances.MeanWithinDailyRange. |
| Instances.MeanWithinDailyRange | application/utils/instance_utils.py:13 | Each asset's mean return lies between its worst and its best daily return. |
| Instances.WeightedReturnAboveDayMinimum | application/utils/instance_utils.py:12 | Any non-negative weighting that sums to 1 earns at least the day's minimum return. |
| Instances.GetInstance | application/utils/instance_utils.py:7-23 | It fails iff there are no assets. Otherwise the instance is consistently shaped, the minima hold, the day count is the price rows minus one, and the pair set is the standard one. Its returns, per-day minima and means are the ones computed from the prices. |
| Instances.GetInstances | application/utils/instance_utils.py:4-25 | It succeeds iff every asset type has assets. On success there is one instance per asset type, each the one built from that type's data. |
| Portfolio.ValidAssets | application/utils/solve_utils.py:34 | S[t] is exactly the graph vertices whose day-t return reaches R_var. |
| Portfolio.Feasible | application/utils/solve_utils.py:34-104 | An assignment is admitted iff it meets the domains, the bad-day fixing, the return rows when present, the delta row, full investment, the diversification rows, the selection links, the valid-day rows when present, the cardinality row and a warm start's objective cutoff. |
| Portfolio.ForcedBadDaySound | application/utils/solve_utils.py:66-76 | On a day when no asset reaches R_var, a fully invested portfolio meeting that day's return row must flag the day as bad. |
| Portfolio.FixingRemovesNothing | application/utils/solve_utils.py:66-68 | Fixing z on such days removes no assignment that meets the return rows and full investment. |
| Portfolio.BadDayRowVacuous | application/utils/solve_utils.py:71-76 | A return row on a flagged day holds for every fully invested portfolio. |
| Portfolio.SelectionBounds | application/utils/solve_utils.py:83-94 | Under c3, c5 and c6 only selected assets carry weight, at least one asset is selected, and for positive gamma at most floor(1/gamma) are. |
| Portfolio.StarSelectsIndependentSet | application/utils/solve_utils.py:88-90 | Under the star rows, no two selected assets are adjacent in G2. |
| Portfolio.CliqueSelectsIndependentSet | application/utils/solve_utils.py:85-87 | Under the clique rows, no two selected assets are adjacent in G2, provided every G2 edge lies in a listed clique. |
| Portfolio.ValidDayRowImplied | application/utils/solve_utils.py:95-97 | The valid-day row for a day follows from that day's return row, c3, c5 and c6. |
| Portfolio.ValidDayRowsRedundant | application/utils/solve_utils.py:95-97 | When the return rows are present, adding the valid-day rows changes no assignment's feasibility, in either direction. |
| Portfolio.ObjectiveWithinBound | application/utils/solve_utils.py:235-252 | A feasible portfolio with exactly k assets has 1 <= k <= n and earns at most the closed-form bound for k. |
| Bounds.SortDesc | application/utils/solve_utils.py:246-247 | The ranking is in descending order and is a permutation of the mean returns. |
| Bounds.UpperBound | application/utils/solve_utils.py:235-252 | The bound for k ranks all mean returns in descending order and weights the top k: 1 - gamma(k-1) on the best and gamma on each of the others. Its guarantees are Bounds.BoundDominates, Bounds.SingleAssetBound and Bounds.BoundNonIncreasing. |
| Bounds.WeightsSumToOne | application/utils/solve_utils.py:248-249 | The bound's weights sum to 1. |
| Bounds.BoundDominates | application/utils/solve_utils.py:246-252 | The bound for k is at least the objective of every k-asset weighting with selected weights at least gamma, unselected weights 0, and total 1. |
| Bounds.SingleAssetBound | application/utils/solve_utils.py:246-252 | The bound for one asset is the largest mean return. |
| Bounds.BoundNonIncreasing | application/utils/solve_utils.py:246-252 | For gamma at least 0, the bound for k+1 is at most the bound for k. |
| Outcomes.FromEngine | application/utils/solve_utils.py:109-126 | Codes 3, 4 and 15 give a solved 'Inf' record with a bound and no portfolio. Code 9 gives an unsolved 'TL' record with a bound and a portfolio iff a solution was found. The record is a solved 'Optimal' one with the portfolio iff the code is none of 3, 4, 15 and 9. On an outcome the program can read back (`Readable`), a portfolio is reported only when the engine stored a solution. |
| Search.ShapedOptimalStored | application/utils/solve_utils.py:122-126 | Under the engine assumption `Shaped`, an 'Optimal' record or any record with a portfolio comes from an engine result that stored a solution, so the search never meets an invented portfolio. |
| Outcomes.EngineRecordsCoherent | application/utils/solve_utils.py:109-126 | Every engine record and every pruned record is unsolved only as a time-limit record carrying a bound. |
| Outcomes.GetBest | application/utils/solve_utils.py:255-263 | The incumbent is replaced, tagged with k, exactly when the new record's objective is strictly larger. A record without an objective counts as minus infinity. |
| Outcomes.GetBestMonotone | application/utils/solve_utils.py:255-263 | The incumbent's objective never decreases. Afterwards it is at least the new record's objective and equals one of the two. |
| Outcomes.UpdateSolutions | application/utils/solve_utils.py:266-274 | Only the solved flag changes. An entry is solved afterwards iff it was solved before, or it is unsolved with a bound at most the incumbent's objective. |
| Outcomes.UpdateSolutionsMonotone | backup/solve_utils_backup.py:292-300 | The sweep never changes a solved entry. |
| Outcomes.UpdateSolutionsIdempotent | application/utils/solve_utils.py:266-274 | Sweeping twice with the same incumbent is sweeping once. |
| Outcomes.UpdateWithoutIncumbent | application/utils/solve_utils.py:266-274 | With no incumbent (objective minus infinity) the sweep changes nothing. |
| Outcomes.Resync | application/utils/solve_utils.py:255-274 | The incumbent shares its record with the slot it came from, so after the sweep it is read back from that slot. An incumbent no longer stored keeps its own record. |
| Outcomes.SetIterResults | application/utils/solve_utils.py:278-291 | It fails iff no record ever beat minus infinity, because the incumbent's k is missing. Otherwise it reports one entry per k: the objective cell and the bound cell of each k are that record's labels, the solved flag is the record's, and the status is 'Optimal' iff every entry is solved. |
| Outcomes.LabelsDescribeRecords | application/utils/solve_utils.py:283-284 | An objective cell that shows text shows the record's status name. A bound cell shows text only for a record without a bound, and shows 'Optimal' only under the status placeholder for an optimal record. |
| Search.WarmStart | application/utils/solve_utils.py:52-59 | A warm start is offered iff the incumbent is a record holding a portfolio, with a non-empty weight map for the current version. When offered it is exactly that portfolio. |
| Search.WarmStartFlavours | backup/solve_utils_backup.py:55-60 | The current version offers a warm start only from a non-empty weight map. The earlier one offers whatever portfolio the incumbent holds, so it warm-starts whenever the current one does, with the same portfolio. |
| Search.BoundList | application/utils/solve_utils.py:146 | There is one bound per k = 1..K, each the closed-form bound for k. |
| Search.RunPass | application/utils/solve_utils.py:152-166 | The pass visits exactly the unsolved k, in increasing order, and leaves solved entries unchanged. A k is skipped without the engine iff its bound is below the incumbent; otherwise the engine receives the pass's request, and slot k holds exactly what the engine returned. The first step sees the starting incumbent, each later step sees the incumbent the previous step left, and the pass returns the incumbent the last step leaves. The incumbent never decreases and ends at least every visited record. |
| Search.Visit | application/utils/solve_utils.py:152-166 | One k of a pass: a solved slot is left alone; otherwise the slot is pruned or solved, overwritten, and offered to the incumbent. Its invariant is Search.PassFromInv. |
| Search.Detach | application/utils/solve_utils.py:165-166 | Overwriting slot k detaches an incumbent stored there and changes nothing else; the incumbent's objective is unchanged. |
| Search.PassFromInv | application/utils/solve_utils.py:152-166 | Visiting the remaining k in increasing order keeps the pass invariant up to the end of the list. |
| Search.PassSettled | application/utils/solve_utils.py:177-195 | A pass from settled records leaves them settled: the kept slots were at most the old incumbent, which only grew. |
| Search.SweepSettled | application/utils/solve_utils.py:169-170 | The sweep and the re-read of the incumbent keep every record coherent and at most the incumbent, keep every pruned bound below it, and leave its objective unchanged. |
| Search.TracedPass | application/utils/solve_utils.py:146-166 | A pass over the closed-form bounds from settled records: the engine trace of Search.RunPass, the incumbent its chain of steps ends with, records still settled, and each visited k pruned iff its closed-form bound is below the incumbent of that moment, or sent with the pass's request. |
| Search.SolveIterative | application/utils/solve_utils.py:132-202 | Pass 1 runs from all slots pending with exactly k assets and 300 s, and its trace is the engine's. The sweep is applied to what pass 1 wrote, with the incumbent pass 1 ended with. Pass 2 runs from the swept records and the re-read incumbent, with at most k assets and 600 s, and visits exactly the k the sweep left unsolved. The report is built from the incumbent pass 2 ends with. Pruning happens iff the closed-form bound is below the incumbent. On success the best record dominates every entry, every pruned entry's bound is below it, and the status is 'Optimal' iff all are solved. Failure means no entry holds an objective. |
| Search.FirstPass | application/utils/solve_utils.py:144-170 | Pass 1 visits k = 1..K in increasing order from all slots pending and no incumbent, and its trace is the engine's. Each k is pruned iff its bound is below the incumbent of that moment; otherwise it is sent with exactly k assets, 300 s and a warm start from that incumbent. The swept records are the sweep of what the pass wrote against the incumbent it ended with. After the sweep every record is coherent and at most the incumbent, and every entry closed by its bound has a bound below the incumbent. |
| Search.SecondPass | application/utils/solve_utils.py:172-195 | Pass 2 runs from the swept records and the incumbent left by the sweep, with at most k assets and 600 s, and its trace is the engine's. It leaves every record present and settled, and each visited k was pruned iff its closed-form bound was below the incumbent of that moment. |
| Search.StepsVisited | application/utils/solve_utils.py:158-161 | Every step of a pass trace visited a k of the list and was pruned iff its bound was below the incumbent of that moment, or else asked as configured. |
| Search.VisitedMeaning | application/utils/solve_utils.py:158-161 | Against the closed-form list, a visited k is pruned iff the closed-form bound for k is below the incumbent of that moment. Otherwise the engine receives k, the pass's constraint kind and time limit, and a warm start from that incumbent. |
| Search.ReportFacts | application/utils/solve_utils.py:278-291 | On success the reported best record is at least every entry, and every entry closed by its bound has a closed-form bound strictly below it. A failure means no entry holds an objective. |
| Search.PrunedCardinalityCannotWin | application/utils/solve_utils.py:158-159 | When the bound for k is below the incumbent, no feasible portfolio with exactly k assets beats the incumbent. |
| LazyCuts.DispatchOf | backup/solve_utils_backup.py:138-144 | Callback 0 solves plainly. The first callback is used iff the value is 1 and the second iff it is 2. Any other value starts no solve. |
| LazyCuts.BackupSpec | backup/solve_utils_backup.py:40-101 | The return rows are added up front iff lazy constraints are off, that is iff callback is 0. The valid-day rows are added iff the setting is 'upfront'. The cardinality row is added iff k is non-zero. |
| LazyCuts.Cuts1 | backup/solve_utils_backup.py:111-116 | A day's return cut is emitted iff the day is violated: not flagged, and the realised return is below R_var. Its valid-day cut is emitted iff, in addition, the setting is 'callback'. |
| LazyCuts.Callback1 | backup/solve_utils_backup.py:105-116 | Outside a new-integer-solution event there are no cuts. Otherwise the cuts are exactly those of each violated day. |
| LazyCuts.Cuts2 | backup/solve_utils_backup.py:125-135 | Each violated day yields its return cut if some selected asset reaches R_var, and otherwise a row asking for an unselected asset. It fails exactly when a violated day meets an empty selection. |
| LazyCuts.Callback2 | backup/solve_utils_backup.py:118-135 | It has no cuts outside a new-integer-solution event. It fails iff the selection is empty and some day is violated. |
| LazyCuts.UnselectedCutValid | backup/solve_utils_backup.py:131-132 | The row asking for an unselected asset holds at every assignment meeting c1, c3, c5 and c6, not only at the candidate. |
| LazyCuts.CutsGloballyValid | backup/solve_utils_backup.py:111-135 | Every cut either callback emits holds at every assignment meeting c1, c3, c5 and c6. |
| LazyCuts.NoCutMeansReturnRows | backup/solve_utils_backup.py:111-114 | A fully invested candidate that draws no cut meets every return row; flagged days hold by the row minimum. |
| LazyCuts.Callback2Total | backup/solve_utils_backup.py:125-131 | At a candidate meeting c3, c5 and c6 some asset is selected, so the maximum never fails. |
| LazyCuts.LazyMatchesEager | backup/solve_utils_backup.py:72-76 | An assignment the eager model admits is admitted by the lazy model and satisfies every cut. A candidate the lazy model admits that draws no cut from the first callback is admitted by the eager model. |
| BackupSearch.PassAndSweep | backup/solve_utils_backup.py:195-213 | One pass from where the loop stands: its trace is the engine's with exactly k assets and 300 s, it ends with the incumbent its chain of steps leaves, and its swept records are the sweep of what it wrote against that incumbent. Afterwards every record is present and settled, and solved flags stay solved. |
| BackupSearch.NextPass | backup/solve_utils_backup.py:191-213 | The next pass starts from the records and the re-read incumbent of the pass before, or from all slots pending and no incumbent, and is appended to the passes so far. |
| BackupSearch.RanSnoc | backup/solve_utils_backup.py:191-213 | A pass that starts where the loop stands extends a chain of passes, each started where the previous one stopped. |
| BackupSearch.SweepKeepsSolved | backup/solve_utils_backup.py:196-213 | A pass keeps solved records and the sweep only sets flags, so every solved k stays solved. |
| BackupSearch.PassesMeaning | backup/solve_utils_backup.py:195-204 | In every pass, each visited k was pruned iff its closed-form bound was below the incumbent of that moment. Otherwise it was sent with exactly k assets, 300 s, a warm start from that incumbent, and the pass's number. |
| BackupSearch.Advance | backup/solve_utils_backup.py:217-220 | A pass that does not stop the loop leaves the previous flags contained in the new ones. It sets at least one new flag, so the passes so far are at most the set flags plus one. |
| BackupSearch.Round | backup/solve_utils_backup.py:191-220 | One pass followed by the sweep and the stop test; the pass is appended to the chain of passes. The loop stops iff every flag is set or the flags equal those of the previous pass. A round that does not stop keeps the progress facts for the next one. |
| BackupSearch.Passes | backup/solve_utils_backup.py:191-220 | The loop ends after at least 1 and at most K+1 passes, with flags that stop it. The first pass starts from all slots pending and no incumbent, and each later pass from the swept records and re-read incumbent of the one before. Each pass's trace is the engine's, and the flags after each pass are its swept records' flags. Every entry is a record at the end. |
| BackupSearch.HistoryBound | backup/solve_utils_backup.py:212-216 | While the loop has not stopped, it has run at most K passes, because each pass set a new flag without setting all of them. |
| BackupSearch.ExtendHistory | backup/solve_utils_backup.py:212-216 | Appending flags that contain the last ones, after a pass that did not stop the loop, keeps every pass's flags within the next and keeps every pass but the last non-stopping. |
| BackupSearch.SolveIterative | backup/solve_utils_backup.py:170-228 | It stops after at least 1 and at most K+1 passes. Each pass runs from where the previous one stopped, and its trace is the engine's. Flags never go from solved to unsolved. Every pass but the last changes the flags without solving all. The last pass solves all or repeats the previous flags. The report is built from the last pass's records and incumbent, and its status is 'Optimal' iff every entry is solved. Pruning uses the closed-form bound for every k, including k = 1 (Search.BoundList), not the placeholder 0 of line 175. Pruned entries are justified by that bound. |
| BackupSearch.PlaceholderBounds | backup/solve_utils_backup.py:175-189 | The earlier bound list: 0 for k = 1, then the closed-form bound for k = 2..K. |
| BackupSearch.PlaceholderMatchesBeyondFirst | backup/solve_utils_backup.py:188-189 | Apart from k = 1 the list is the closed-form list. The closed-form bound for k = 1 is the largest mean return. |
| BackupSearch.PlaceholderClosesBetterPortfolio | backup/solve_utils_backup.py:201-202 | An instance exists where the placeholder closes k = 1, yet a feasible one-asset portfolio beats the incumbent and the closed-form bound does not prune it. |
| Results.SplitRaw | application/utils/results_utils.py:34-44 | The blocks are exactly Results.Blocks of the data: the maximal separator-free runs, in order. No block is empty. The blocks concatenate to the data with separators removed, and there are as many blocks as runs. |
| Results.Blocks | application/utils/results_utils.py:36-44 | The reference split, built one cell at a time: there is one block per maximal separator-free run, and no block is empty. |
| Results.FlattenBlocks | application/utils/results_utils.py:36-44 | Laying the reference blocks end to end gives the data with the separators removed. |
| Results.SplitStep | application/utils/results_utils.py:36-42 | A separator leaves the blocks as they are. A datum joins the open block, or opens one. |
| Results.SplitOnEmpty | application/utils/results_utils.py:33-45 | Each group is the conversion of the matching reference block, and the group count and contents facts of Results.SplitRaw hold after conversion. Only separators give no blocks; a non-empty column without separators gives one block holding every datum. |

## Left out

- **The solving engine.**
  - Model construction, parameters, start hints, `optimize`, and the callback calls are replaced by `Engine`, a total function from a request to an outcome record. A request holds k, the cardinality row, the time limit, the warm start and the pass number.
  - The objective cutoff and the bound stop that a warm start adds exist only as the `cutoff` field of the model rows.
- **The maximum number of assets** is another engine solve, so K is an input. Nothing assumes K <= 1/gamma.
- **Graph library internals.** Maximal clique enumeration is given as a list of sets. The hop-bounded search is modelled by its meaning, as a frontier expansion. Plotting is left out.
- **Correlation and covariance statistics** are given as inputs.
- **Dataset download, caching, reporting, plotting, configuration and the entry script** are I/O and wiring.
  - As written, the instance builder expects a pair of assets and prices per asset type, while the dataset produces partitions. The model follows the instance builder.
- **Timing.** The search constructors pass an argument to a timer class whose constructor takes none, which raises at application/utils/solve_utils.py:148 and backup/solve_utils_backup.py:180. The final report also reads timer attributes the class does not define. The model drops the timer entirely and keeps everything else.
- **The non-iterative solve path** crashes at application/utils/solve_utils.py:53 with the default empty options. It is not modelled beyond the rows.
- Outcomes.FromEngine: the program raises when the status is none of 3, 4, 9 and 15 but no solution is stored (after an interrupt, say), because it reads `x[i].X` unconditionally at application/utils/solve_utils.py:123-126 and backup/solve_utils_backup.py:161-164. That crash is not modelled: the function still builds an 'Optimal' record there, and the searches assume through `Search.Shaped` that the engine never returns such an outcome (`Outcomes.Readable`).
- **Callback values of 3 or more** start no solve at all. `DispatchOf` records this, but the status read afterwards is not modelled.
- **Valid-day rows.** The current solver adds them whenever the setting is truthy; the earlier one adds them only for 'upfront'. Only the earlier rule is written out (`LazyCuts.BackupSpec`). The current one reduces to the `validDayRows` flag of the model rows.
- **Solver numerics.**
  - The bound-stop tolerance and the 0.5 thresholds on binaries are left out; `y` and `z` are booleans.
  - A value reported by the engine is taken as exact.
- **Instances.GetInstance: the price table must be usable.**
  - The model requires at least two rows and nonzero divisor prices. The program would instead produce NaN means or infinite returns, which are not modelled.
  - An empty asset list is modelled as the failure the program raises.
- **Graphs.Power is total only for well-formed graphs.** Every graph the program builds is well formed.
- **Search.SolveIterative:**
  - The per-pass time limits (300 s, then 600 s) are carried only as request fields.
  - The warm-start rule, which needs a non-empty weight map, is the `Application` flavour of `WarmStart`. The earlier version only needs the key, which is the `Backup` flavour.
- **Aliasing.** The program stores the incumbent and the per-k entries as shared dictionaries. The model tracks that sharing explicitly, because the sweep's flag change is then visible through the incumbent: `Incumbent.inList` and `Resync`.
- **Time budgets.** The looping search in the earlier version keeps the same 300 s limit and the same exact-k row in every pass, and the model does the same.
- BackupSearch.SolveIterative: prunes k = 1 with the closed-form bound (the largest mean return) instead of the placeholder 0 at backup/solve_utils_backup.py:175. The placeholder is modelled separately as `BackupSearch.PlaceholderBounds`, with the input that shows the difference under "## Findings".

## Findings

| source | as written | input that shows it | evidently intended | confidence | as-written member | corrected member |
|---|---|---|---|---|---|---|
| backup/solve_utils_backup.py:175 | The bound list starts with a placeholder 0 for k = 1. The prune test at line 201 uses it, so in any later pass an unsolved k = 1 is closed as 'Inf-Ub' as soon as the incumbent is positive. | Two assets with mean returns 0.5 and 0.3, gamma 0.5, and an incumbent worth 0.4. Holding the first asset alone is feasible with exactly one asset and earns 0.5, yet 0 < 0.4 prunes k = 1. The closed-form bound 0.5 does not prune it. | The bound for k = 1 is the closed-form bound, the largest mean return, as the current version computes for every k. | not executed | BackupSearch.PlaceholderClosesBetterPortfolio | BackupSearch.SolveIterative |
