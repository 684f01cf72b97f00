# Verified model of a strategy pipeline

The repository computes trading signals from M1 bars, searches parameter spaces for strategies
that use them, and walks each strategy through a gated pipeline. This project models the parts
of it whose correctness crosses functions, loops or runs, and proves what they are for.

- **Point-in-time signals** (`swings`, `volatility`, `channel_breakout`, `swing_pullback`,
  `repeated_times`, `rollup`, `signal_pipeline`, `built_in_columns`). Swing detection compares with future bars and
  masks by series length; a lag, stateful loops and a shifted as-of merge follow. The main result
  is a statement about two runs: two M1 tables that agree before a bar's period give that bar the
  same enriched value, whatever follows. It is proved for any indicator that is causal on rows
  and for the built-in ones, and shown to fail, at every timeframe, for the two columns that
  skip the lag.
- **OHLC conversion** (`timeframe_converter`, `rollup_composition`, `sessions`). Two conversion
  steps equal one under an exact condition; every bar lands in exactly one row.
- **Optimizer** (`cmaes`, `portfolio`, `branch_budget`). A convergence bound for the restarting
  instance, conservation of what is asked and told, and the bounds of the budget split.
- **Signal cache** (`signal_cache`). Two dictionaries kept in step by every method, eviction
  loops that end, agreement with recomputation whatever others delete or corrupt on disk
  (`Serve`), and exactly which entries an eviction leaves.
- **Grouped dispatch** (`parameter_space`, `score_files`, `grouped_dispatch`). What gathering by
  snapped key, evaluating per group and scattering back gives for any hashes, and that it equals
  scoring every candidate by itself where groups have directories of their own.
- **Pipeline** (`pipeline_state`, `pipeline_runs`, `stage_outcomes`, `stage_runner`). Runner,
  operator and crashes as one step relation, with invariants over all its runs; what one call of
  the runner does as a function of what its executors do, with the exact condition for how far it
  gets; the runner's own code proved to take only those steps and to compute that function.
- **Downsampling** (`downsample`). Streaming over batches equals selecting on the whole curve.

`series`, `bars`, `integers`, `reals` and `wrappers` hold the shared vocabulary. Prices are reals,
a missing value is the constructor `NaN`, integers are unbounded (timestamps are microseconds or,
in the signal pipeline, any unit that its periods are counted in). The sixteen characters of a
hash are taken not to collide among the candidates of one batch; the eight and twelve characters
that name its files may. Classes keep the fields their source counterparts update; a method's
contract ties its new state to a specification function or predicate, about which the lemmas are.
What such a function computes is stated once more without naming it, in the lemmas called `...Iff`
and `...Means`.

`dafny verify dfyconfig.toml` checks everything.

## Where the code and its description part

- `snap_to_grid` is documented to round as `decode_candidate` does. For integers that holds on
  all in-bounds values exactly when both ends decode to values within the bounds: on a whole grid
  when the upper bound rounds down to the grid (range 0..7 with step 4: decoding 7 gives 8,
  snapping gives 7), with integer bounds and no step always. For continuous parameters with a
  step it fails, because decoding never snaps (`IntegerAgreement`, `WholeGridAgreement`,
  `StepFreeAgreement`, `ContinuousAgreement`).
- The tie rule of `_majority_session` is documented as "the session that starts during the
  hour"; the code takes the alphabetically first, and so does the model (`MajorityIsFirst`,
  `TieRulesDiffer`).
- Two-step conversion differs from one-step conversion for daily bars that do not open at 22:00
  and for hourly labels without a schedule (`CompositionCharacterised`).
- The default `gated_stages` of the pipeline configuration names validation-complete; the
  transition graph makes that stage automatic and gates scoring-complete and selection-complete
  too. The model follows the graph. The runner's branch for a stage without a transition is
  unreachable: all fourteen have one.
- `swing_highs` and `swing_lows` are returned unlagged and do look ahead, at every timeframe
  (`UnlaggedSwingsLookAhead`, `UnlaggedEnrichmentLeaks`).
- `_detect_swings` with n = 0 clears its masks entirely, since `mask[-0:]` is the whole array.
- The byte-limit loop reads a file's size after unlinking it, so the total it compares only falls
  when unlinking failed: once triggered it evicts down to one entry.
- With no algorithm instance the portfolio returns the Sobol rows alone, so the shortfall is then
  not bounded by the number of instances (`BatchSize` states both cases).
- External failures are documented to be retried. A retry that succeeds appends its completion,
  in memory only, and still stops the run, since the failure's error is never cleared
  (`SuccessfulRetryStops`); nor does resuming clear it (`ResumeDoesNotRecover`). It is cleared
  only if resource pressure is met after it (`ErrorFreeIff`, `PressureForgivesFailure`).
- Resource pressure is documented to be retried once; the code retries it as often as an external
  failure. If it lasts, neither an error nor a completion is left. After a refine, old completions
  satisfy the preconditions (`OldCompletionsSuffice`), so such a stage is then passed without
  having been executed (`PressurePassesIff`).
- The runner saves its own copy of the state once more when it reaches a gate. An accept that the
  operator saves in between is taken back by that save, and this is the only way the file gets
  ahead of the runner (`StepNotAhead`, `OvertakenAcceptIsLost`, `LostAccept`).
  A refine is taken back the same way (`LostRefine`); only then can a saved state behind a gate
  rest on an accept from before it (`RefineNeedsNewAccept`).
- Of equal access times the entry inserted first goes, since `min` takes the first of the
  dictionary. So a just stored entry is never the one evicted, even if the clock stands still,
  but an entry that a call found again keeps its place and can be (`SurvivalIsRecency`,
  `StandingClockEvictsHit`); liveness of several returned entries is stated for an advancing
  clock or calls that find all or nothing. Enriching for more settings than the cache has entries
  leaves some group without its file once a call misses (`GetOrComputeEach`).
- A group's output directory is named by eight characters of its hash, so groups can share one.
  Then every group finds its own scores exactly when those that share have the same
  (`OwnFilesIffCoincide`, `ManifestRightIff`, `PerGroupRightIff`); otherwise the run that comes
  last replaces the other's file (`CollidingInput`). Numpy broadcasts or refuses a vector of
  another length.
- The pullback bias merges the higher timeframe by time. When it is M1 on M1 bars that repeat a
  time, the merge takes the last of them and sees past the bar (`RepeatedTimesLookAhead`).

## Model

| member | source | states |
|---|---|---|
| Swings.DetectSwings | src/python/orchestrator/signal_precompute.py:715-755 | the shifted in-place masks equal the definition: bar i is a swing iff it has n neighbours on each side and strictly beats all of them; the call raises exactly when n exceeds a length of at least 2 |
| Swings.SwingMeans | src/python/orchestrator/signal_precompute.py:733-755 | a swing high is strictly higher, a swing low strictly lower, than n bars on each side, at least one |
| Swings.SwingsApart | src/python/orchestrator/signal_precompute.py:733-755 | two swings of one side are more than n bars apart |
| Swings.MarkedAscendingComplete | src/python/orchestrator/signal_precompute.py:758-779 | the reference list of swings is strictly ascending and complete |
| Swings.LevelsAreLastTwo | src/python/orchestrator/signal_precompute.py:769-779 | shift, where and ffill give exactly the prices of the last and the second-last swing at index <= i - lag, NaN where there is none |
| Swings.StructureFromSwings | src/python/orchestrator/signal_precompute.py:782-802 | market structure at bar i is +1 / -1 / 0 by comparing the last two confirmed highs and lows, read off the swing list itself |
| Swings.LevelFromPrefix | src/python/orchestrator/signal_precompute.py:715-779 | detection looks n bars ahead and masks by series length, and the lag of n cancels both: levels at bar i depend on bars 0..i only |
| Swings.StructureFromPrefix | src/python/orchestrator/signal_precompute.py:782-802 | market structure at bar i is a function of bars 0..i |
| Volatility.AtrFromPrefix | src/python/orchestrator/signal_precompute.py:653-670 | ATR at bar i is a function of bars 0..i |
| Volatility.TrueRangeMeans | src/python/orchestrator/signal_precompute.py:653-663 | the true range is the largest of the span and the two gaps from the previous close, the span alone on the first bar |
| Volatility.AtrMeans | src/python/orchestrator/signal_precompute.py:653-670 | ATR is NaN before the period is full, then the sum of all true ranges weighted by powers of 1 - 1/period |
| ChannelBreakout.ComputeSignals | src/python/orchestrator/signal_precompute.py:908-1075 | the loop with its growing swing lists and last-signal state computes the reference signal series; it raises exactly when swing detection does |
| ChannelBreakout.ConfirmRun | src/python/orchestrator/signal_precompute.py:1035-1068 | the backward confirmation loop answers whether confirm_bars + 1 consecutive prices lie beyond the channel |
| ChannelBreakout.PivotsAreSwings | src/python/orchestrator/signal_precompute.py:949-987 | registered pivots are detected swings, ascending, neighbours at least swing_bars + 1 bars apart |
| ChannelBreakout.SlopeGuardNeverFires | src/python/orchestrator/signal_precompute.py:993-1000 | with two confirmed highs the denominator of the slope is at least swing_bars + 1, so the guard against a zero distance is dead code |
| ChannelBreakout.ChannelGeometry | src/python/orchestrator/signal_precompute.py:993-1021 | the upper line runs through the last two registered highs, the lower one is its parallel a positive width below, through one of the last two lows |
| ChannelBreakout.AnchorIsConfirmedHigh | src/python/orchestrator/signal_precompute.py:949-1005 | the anchor of the line at bar i is a registered swing high that bars up to i have decided |
| ChannelBreakout.SignalMeaning | src/python/orchestrator/signal_precompute.py:993-1074 | a non-zero signal certifies a channel in force and confirm_bars + 1 consecutive prices strictly beyond it, on the side of the sign |
| ChannelBreakout.SignalIff | src/python/orchestrator/signal_precompute.py:1023-1075 | exactly when a signal fires: +1 iff a channel is in force, every price of the confirmation run lies above it, the last highs and lows have not both fallen, and the gap to the last signal is kept; -1 iff the same downwards, structure has not risen, and no +1 fires |
| ChannelBreakout.ChannelIff | src/python/orchestrator/signal_precompute.py:993-1021 | exactly which channel is in force: the slope through the last two registered highs, the width at the last low or, if that is not positive, at the one before, within 0.3 and 15 ATR |
| ChannelBreakout.QualifiesIff | src/python/orchestrator/signal_precompute.py:949-987 | exactly which swings count: on each side some bar within swing_bars lies at least atr_multiplier ATR away from the swing |
| ChannelBreakout.PivotsComplete | src/python/orchestrator/signal_precompute.py:949-987 | every swing that counts is registered |
| ChannelBreakout.SignalsSpaced | src/python/orchestrator/signal_precompute.py:946-1074 | any two non-zero signals are at least max(3*confirm_bars, 2*swing_bars) bars apart |
| ChannelBreakout.SignalFromPrefix | src/python/orchestrator/signal_precompute.py:945-1075 | no lookahead on rows: the signal at row i is a function of rows 0..i, through the accumulated lists and the last-signal state |
| SwingPullback.ComputeSignals | src/python/orchestrator/signal_precompute.py:815-887 | the loop with its two last-traded prices computes the reference signals, or raises exactly when swing detection does |
| SwingPullback.OneTradePerSwing | src/python/orchestrator/signal_precompute.py:858-887 | of two trades on one side the later one trades a strictly later swing, although the loop compares prices only |
| SwingPullback.SignalIff | src/python/orchestrator/signal_precompute.py:858-887 | exactly when a row trades: +1 iff the bias is up, the close is more than atr_multiplier ATR below the last confirmed low, and that low is not the one bought last; -1 iff the bias is down, the close is that far above the last confirmed high and above the last low, and that high is not the one sold last |
| SwingPullback.BiasMeans | src/python/orchestrator/signal_precompute.py:820-842 | the bias at time t is the structure of the row before the last one that starts at or before t |
| SwingPullback.BiasFromPrefix | src/python/orchestrator/signal_precompute.py:820-842 | the higher-timeframe bias at time t ignores the row still open at t and everything after it |
| SwingPullback.PullbackIsPointInTime | src/python/orchestrator/signal_precompute.py:805-887 | for every pair of timeframes the column is settled by the bars of the rows up to it; when both are M1, on tables of distinct bar times |
| RepeatedTimes.RepeatedTimesLookAhead | src/python/orchestrator/signal_precompute.py:820-842 | distinct times are needed there: two M1 tables with the same first six bars give the sixth different signals, because the as-of merge takes the last of equal times |
| SignalPipeline.EnrichedIsPreviousRow | src/python/orchestrator/signal_precompute.py:1148-1216 | the shifted as-of merge gives an M1 bar the value of the row before its own period |
| SignalPipeline.EnrichMeans | src/python/orchestrator/signal_precompute.py:1148-1216 | a column is enriched exactly when the indicator gives one value per row; on M1 a bar gets the value of the bar before |
| SignalPipeline.BinMeans | src/python/orchestrator/signal_precompute.py:459-501 | a resampled bar belongs to the whole minutes, hours or days it falls into, at every timeframe and before the epoch too |
| SignalPipeline.NoLookahead | src/python/orchestrator/signal_precompute.py:1148-1216 | for any indicator settled by the bars of its rows: two tables that agree before the start of a bar's period give it the same enriched value, whatever follows |
| SignalPipeline.NoLookaheadM1 | src/python/orchestrator/signal_precompute.py:1170-1175 | on timeframe M1, agreement on the bars before bar i suffices |
| SignalPipeline.RowsOfCovered | src/python/orchestrator/signal_precompute.py:459-501 | rows 0..j are the rollup of exactly the bars they cover |
| SignalPipeline.RowCausalIsPointInTime | src/python/orchestrator/signal_precompute.py:109-297 | an indicator that is causal on rows is settled by the bars of its rows at every timeframe |
| BuiltInColumns.ColumnPointInTime | src/python/orchestrator/signal_precompute.py:509-650 | ATR, market structure, channel breakout and swing pullback all meet the hypothesis of the no-lookahead theorem |
| BuiltInColumns.EnrichedIff | src/python/orchestrator/signal_precompute.py:509-650 | a built-in column is enriched on exactly the tables on which swing detection does not raise, at every timeframe |
| BuiltInColumns.EndToEnd | src/python/orchestrator/signal_precompute.py:109-297 | end to end above M1: tables that agree before a bar's period start enrich that bar alike, for every built-in column and pair of timeframes |
| BuiltInColumns.EndToEndM1 | src/python/orchestrator/signal_precompute.py:109-297 | end to end on M1: agreement on the bars before bar i suffices |
| BuiltInColumns.UnlaggedSwingsLookAhead | src/python/orchestrator/signal_precompute.py:620-628 | at every timeframe the unlagged swing_highs / swing_lows columns are point in time if and only if n = 0, where no bar is a swing |
| BuiltInColumns.UnlaggedEnrichmentLeaks | src/python/orchestrator/signal_precompute.py:620-628 | for every n > 0 and timeframe: two tables that agree before a bar's period and give it different enriched swing values |
| Rollup.RollIncreasing | src/python/orchestrator/signal_precompute.py:459-501 | a time-sorted table rolls up to strictly increasing rows, the last one for the period of the last bar |
| Rollup.RollExtends | src/python/orchestrator/signal_precompute.py:459-501 | later bars change no row but the last one of the rows so far |
| TimeframeConverter.SortIsPermutation | src/python/data_pipeline/timeframe_converter.py:134-136 | the stable sort orders the bars by time and keeps each of them, duplicates included |
| TimeframeConverter.SortIsStable | src/python/data_pipeline/timeframe_converter.py:134-136 | bars of equal time keep their order |
| TimeframeConverter.KeptMeans | src/python/data_pipeline/timeframe_converter.py:125-132 | exactly the quarantined bars are dropped, the others keep their order |
| TimeframeConverter.PeriodMeans | src/python/data_pipeline/timeframe_converter.py:57-92 | the start of each period in microseconds, for every timeframe and opening hour: the last start not after the timestamp from the origin on, the first one not before it up to the origin |
| TimeframeConverter.RollIsGroups | src/python/data_pipeline/timeframe_converter.py:203-231 | the streaming fold gives one row per period, aggregating exactly the bars masked for that period |
| TimeframeConverter.GroupMeans | src/python/data_pipeline/timeframe_converter.py:203-213 | a group is exactly the bars assigned to its period, in order |
| TimeframeConverter.RowMeans | src/python/data_pipeline/timeframe_converter.py:203-275 | a row of the output has the open of its first bar, the close and quotes of its last, attained extremes, and the label of its timeframe: mixed for D1 and W, the first bar's for M5, the recomputed or the majority label for H1 |
| TimeframeConverter.DistinctPeriods | src/python/data_pipeline/timeframe_converter.py:180-181 | the distinct period starts, ascending, are the row times |
| TimeframeConverter.AggregateByPeriod | src/python/data_pipeline/timeframe_converter.py:167-246 | the loop of masked aggregations computes first open, greatest high, least low, last close, bid and ask, and the period's session label |
| TimeframeConverter.ConvertTable | src/python/data_pipeline/timeframe_converter.py:95-146 | filter, sort, period starts and aggregation together compute the conversion; a target that is not higher raises |
| TimeframeConverter.TargetsAreHigher | src/python/data_pipeline/timeframe_converter.py:115-123 | exactly the strictly higher timeframes are accepted as targets |
| RollupComposition.TruncatingNest | src/python/data_pipeline/timeframe_converter.py:57-92 | truncating division notwithstanding, coarse periods are unions of fine ones at every timestamp, before the origin too |
| RollupComposition.RollTwice | src/python/data_pipeline/timeframe_converter.py:167-246 | folding to a nested grid and then to the coarser one is folding to the coarser one |
| RollupComposition.TwoStepsAreOne | src/python/data_pipeline/timeframe_converter.py:95-146 | converting in two steps equals converting in one, row for row and label for label, for every nesting pair of frames |
| RollupComposition.CompositionCharacterised | src/python/data_pipeline/timeframe_converter.py:57-92 | two steps equal one on all tables if and only if D1 to W is used with a daily open of 22 and conversions to H1 have a session schedule |
| RollupComposition.MisalignedDay | src/python/data_pipeline/timeframe_converter.py:71-87 | for any other daily open a concrete table shows D1 to W differs from M1 to W |
| RollupComposition.MajorityOfMajorities | src/python/data_pipeline/timeframe_converter.py:278-302 | without a schedule a concrete table shows that a majority of majorities is not the majority |
| RollupComposition.EveryBarLandsOnce | src/python/data_pipeline/timeframe_converter.py:125-146 | the groups of the output rows, laid end to end, are the non-quarantined bars in time order: each lands in exactly one row |
| RollupComposition.ConvertIsOrdered | src/python/data_pipeline/timeframe_converter.py:167-246 | output times strictly increase and no output row is quarantined |
| RollupComposition.ConvertSane | src/python/data_pipeline/timeframe_converter.py:216-225 | low <= open, close <= high is preserved |
| Sessions.AssignSession | src/python/data_pipeline/session_labeler.py:18-58 | the early-return chain is first match, at sub-minute precision |
| Sessions.AssignSessionsBulk | src/python/data_pipeline/session_labeler.py:61-108 | the masked overwrites are last write, with the overlap on top |
| Sessions.LabellersAgree | src/python/data_pipeline/session_labeler.py:18-108 | first match and last write agree at a minute if and only if it is in the overlap window or in at most one base session, midnight-wrapping ones included |
| Sessions.FirstMatchMeans | src/python/data_pipeline/session_labeler.py:33-58 | a single label is the overlap's, else that of the first of the Asian, London, New York and off-hours windows, read clockwise, that covers the minute, else off-hours |
| Sessions.LastWriteMeans | src/python/data_pipeline/session_labeler.py:78-108 | a bulk label is the overlap's, else that of the last of these windows that covers the minute, else off-hours |
| Sessions.TimestampIsFirstMatch | src/python/data_pipeline/timeframe_converter.py:340-385 | the timestamp variant labels every timestamp, also before the epoch, as first match labels its minute of day |
| Sessions.RecomputeH1Session | src/python/data_pipeline/timeframe_converter.py:305-337 | the counting loop over an insertion-ordered dictionary computes the hourly label with its two tie-breaks |
| Sessions.HourLabelsMeans | src/python/data_pipeline/timeframe_converter.py:312-315 | the labels counted for an hour are those of its sixty minutes of day |
| Sessions.H1SessionIsMajority | src/python/data_pipeline/timeframe_converter.py:305-337 | the hourly label covers at least as many minutes of the hour as any other label |
| Sessions.H1TieBreak | src/python/data_pipeline/timeframe_converter.py:316-337 | of the labels that cover most of the hour one whose window opens within it comes before one whose window does not, the first to appear among the former, the first in the alphabet if there are none |
| Sessions.MajorityIsFirst | src/python/data_pipeline/timeframe_converter.py:278-302 | the majority label has the greatest count, and every label before it in the alphabet a smaller one |
| Sessions.TieRulesDiffer | src/python/data_pipeline/timeframe_converter.py:278-302 | an hour of two equally frequent labels, the second of which opens within it: the documented rule gives that one, the code the other |
| CmaEs.CmaEsInstance.Tell | src/python/optimization/portfolio.py:105-146 | the buffered loop takes the state to the reference state; the library accepts each batch, which has exactly its population size |
| CmaEs.CmaEsInstance.RestartInPlace | src/python/optimization/portfolio.py:148-183 | a restart replaces seed, population, library object and buffer as the reference restart does |
| CmaEs.RunKeeps | src/python/optimization/portfolio.py:105-183 | over any sequence of tells: the buffer stays shorter than one population, the population stays in 16..4096 and equal to the library's, convergence is never undone and the generation counter never falls |
| CmaEs.RunConserves | src/python/optimization/portfolio.py:105-183 | over any sequence of tells the told pairs are, in order, the flushed, the discarded-at-restart and the pending ones, and the generation counter counts the flushes |
| CmaEs.RunComplete | src/python/optimization/portfolio.py:105-183 | over any sequence of tells, every generation that any library object was told has the population size in force after the restarts before it, objects that a restart replaced included |
| CmaEs.RunTold | src/python/optimization/portfolio.py:105-131 | over any sequence of tells, the library object in use was told exactly the generations flushed since the last restart, each with its candidates in order and costs that order them exactly opposite to their scores, so that a cheapest one is a best scored one |
| CmaEs.GenerationMeans | src/python/optimization/portfolio.py:115-183 | what one full generation does, by its best score: progress iff it is finite and more than tolfun above the best remembered; at the stagnation limit the instance has converged if no restart is left, else it restarts with a fresh library object, the next seed, and half or twice the population |
| CmaEs.PopulationAlternates | src/python/optimization/portfolio.py:148-160 | an odd restart halves an even population of 32 to 4096, and the next one restores it |
| CmaEs.ConvergenceIsEarned | src/python/optimization/portfolio.py:133-146 | over any sequence of tells: a converged instance has told at least (R+1)*S generations |
| CmaEs.BoundedConvergence | src/python/optimization/portfolio.py:133-183 | with scores in [L,U] the instance is converged after (R+1)*(M*S+1) flushed generations, M = 1 + floor((U-L)/tolfun); with failed folds (minus infinity) after (R+1)*(M+1)*S |
| Portfolio.SobolCovers | src/python/optimization/portfolio.py:407-417 | the power of two drawn covers the request and is less than twice it |
| Portfolio.SobolAsk | src/python/optimization/portfolio.py:407-417 | exactly the first n rows of that draw are returned |
| Portfolio.PortfolioManager.AskBatch | src/python/optimization/portfolio.py:527-564 | the allocations tile the returned batch and each one's rows are what its instance produced, in order; each algorithm instance gets its share or what is left of the budget, the explorer its count |
| Portfolio.SobolShare | src/python/optimization/portfolio.py:529 | the Sobol explorer gets the whole rows of its fraction of the batch, or one |
| Portfolio.InstanceShare | src/python/optimization/portfolio.py:530-533 | each algorithm instance gets the whole rows of an equal part of the budget, or one |
| Portfolio.BatchSize | src/python/optimization/portfolio.py:527-564 | the batch never exceeds the request, and falls short by the remainder of the even split, less than the number of algorithm instances |
| Portfolio.PortfolioManager.TellBatch | src/python/optimization/portfolio.py:566-573 | the loop makes exactly one call per allocation, with that allocation's slice of rows and scores |
| Portfolio.AskTellConserves | src/python/optimization/portfolio.py:527-573 | every instance is told exactly the rows it produced, and all calls together hand over each row and score once, in order |
| Portfolio.PortfolioManager.CandidateKinds | src/python/optimization/portfolio.py:591-596 | one label per row of the last batch |
| Portfolio.KindOfRow | src/python/optimization/portfolio.py:591-596 | row r carries the kind of the instance that produced it |
| BranchBudget.BranchManager.AllocateBudget | src/python/optimization/branch_manager.py:69-111 | one branch gets everything; with an unvisited branch the even split; else the proportional split |
| BranchBudget.BranchManager.TellAll | src/python/optimization/branch_manager.py:124-139 | exactly the branches told are visited once more; once all have been told, the even split is over |
| BranchBudget.EvenSplitExact | src/python/optimization/branch_manager.py:82-92 | while any branch is unvisited the total is exact, shares differ by at most one, and the larger ones come first |
| BranchBudget.UcbSplitBounds | src/python/optimization/branch_manager.py:94-111 | for arbitrary real scores every branch gets at least 1 and the total lies in [total_batch, total_batch + n - 1] |
| BranchBudget.ShareIsProportional | src/python/optimization/branch_manager.py:103-111 | every branch but the last gets exactly the whole rows its part of the total weight earns, or one; the last gets what these leave, or one |
| BranchBudget.HigherScoreNoFewer | src/python/optimization/branch_manager.py:103-109 | of two branches before the last, the one with the higher score never gets fewer rows |
| SignalCache.SignalCacheManager.constructor | src/python/optimization/signal_cache.py:55-91 | a new manager indexes exactly the readable files of key shape |
| SignalCache.SignalCacheManager.GetOrCompute | src/python/optimization/signal_cache.py:93-124 | raises exactly when recomputation would; a hit iff indexed and readable; whatever readable file is under the path holds what recomputation gives; the entry returned is live iff it was a hit or the cache may hold any, whatever the clock; on a miss the access times are the LRU eviction of the old ones with the new entry last, down to max_entries unless the byte cap evicts more |
| SignalCache.SignalCacheManager.Serve | src/python/optimization/signal_cache.py:93-124 | any number of calls, while others delete, corrupt, pad or lock files in between: each raises exactly when recomputation would, the dictionaries stay in step, and what can be read is what recomputation gives |
| SignalCache.SignalCacheManager.ComputeAndStore | src/python/optimization/signal_cache.py:216-275 | atomic replacement, index update, LRU eviction; on failure only the error count moves |
| SignalCache.SignalCacheManager.StoredFile | src/python/optimization/signal_cache.py:234-262 | if the eviction after a store leaves the file, it is the one just written, readable and with its size |
| SignalCache.SignalCacheManager.EvictByCount | src/python/optimization/signal_cache.py:286-290 | evicts oldest entries down to max_entries |
| SignalCache.SignalCacheManager.EvictByBytes | src/python/optimization/signal_cache.py:292-299 | ends with the indexed bytes within the cap or at most one entry; once triggered, and if files can be unlinked, it runs down to one entry |
| SignalCache.BytesMeans | src/python/optimization/signal_cache.py:292-293 | the byte total adds up the sizes of the files of the indexed keys that exist |
| SignalCache.SignalCacheManager.EvictOldest | src/python/optimization/signal_cache.py:301-320 | the entry of least access time, and of equal ones the first inserted, leaves both dictionaries, and its file leaves the disk unless unlinking fails |
| SignalCache.SignalCacheManager.RebuildIndex | src/python/optimization/signal_cache.py:322-344 | index and access times have the same keys: the readable files of key shape |
| SignalCache.SignalCacheManager.GetOrComputeBatch | src/python/optimization/signal_cache.py:126-191 | raises exactly when one of the recomputations would; with at most max_entries distinct keys and no byte eviction every returned entry is live if the clock advances or nothing was found; completions in any order |
| SignalCache.SignalCacheManager.GetOrComputeEach | src/python/optimization/orchestrator.py:646-652 | one call after the other, as the dispatch makes them: under the same conditions, or if everything is found, no call evicts what an earlier one returned; after a miss at most max_entries of the keys are left, and the files of the others are gone unless they cannot be unlinked |
| SignalCache.SurvivalIsRecency | src/python/optimization/signal_cache.py:286-308 | a set of keys survives every eviction that leaves as many entries if and only if every other entry is older: earlier accessed, or at the same time and inserted before |
| SignalCache.RecentSurvive | src/python/optimization/signal_cache.py:286-308 | more recent keys than all others survive any eviction that leaves at least that many entries |
| SignalCache.EvictionIsDetermined | src/python/optimization/signal_cache.py:301-308 | two evictions of one dictionary that leave equally many entries leave the same ones, whatever ties there are |
| SignalCache.NewestSurvives | src/python/optimization/signal_cache.py:301-308 | the newest entry survives as long as any entry does |
| SignalCache.StandingClockEvictsHit | src/python/optimization/signal_cache.py:301-308 | three entries of one time, the first of them just found again: an eviction down to two takes the found one |
| ParameterSpace.RoundDivMeans | src/python/optimization/parameter_space.py:239-243 | two-stage rounding in integers: up past the half, ties to the even quotient |
| ParameterSpace.RoundMeans | src/python/optimization/parameter_space.py:238 | rounding gives the one integer nearer than a half, or the even one of the two at a half |
| ParameterSpace.TruncMeans | src/python/optimization/parameter_space.py:240-241 | truncation drops the fraction, on either side of zero |
| ParameterSpace.IntegerDecodeMeans | src/python/optimization/parameter_space.py:237-243 | a decoded integer is the rounded value or, with a step, a point of the grid from the truncated lower bound at most half a step away; a positive step below one raises |
| ParameterSpace.IntegerSnapMeans | src/python/optimization/parameter_space.py:277-288 | a snapped integer is the decoded one moved into the truncated bounds, the upper one winning when they cross |
| ParameterSpace.ContinuousSnapMeans | src/python/optimization/parameter_space.py:289-297 | a snapped continuous value is the nearest multiple of the step moved into the bounds; a decoded one is unchanged |
| ParameterSpace.CategoricalDecodeMeans | src/python/optimization/parameter_space.py:244-247 | a categorical value picks the choice at the rounded value, the first one below zero and the last one beyond the end |
| ParameterSpace.IntegerAgreement | src/python/optimization/parameter_space.py:233-288 | for every integer parameter, with or without step and bounds: snap_to_grid and decode_candidate agree on all in-bounds values if and only if the step raises, no value is in bounds, or what the two ends decode to lies within the truncated bounds |
| ParameterSpace.WholeGridAgreement | src/python/optimization/parameter_space.py:233-288 | for whole grids the condition is that the upper bound rounds down to the grid, as it does when the step divides the range |
| ParameterSpace.StepFreeAgreement | src/python/optimization/parameter_space.py:233-288 | integer bounds and no step: they always agree |
| ParameterSpace.IntegerSnap | src/python/optimization/parameter_space.py:277-288 | on such grids snapping stays in bounds and on the grid, moves the value by at most (step+1)/2, and is fixed by snapping and decoding again |
| ParameterSpace.ContinuousAgreement | src/python/optimization/parameter_space.py:289-297 | continuous parameters: evaluated and hashed values agree on all in-bounds values if and only if there is no step, or at most one value in bounds |
| ParameterSpace.CategoricalAgreement | src/python/optimization/parameter_space.py:298-300 | categorical parameters agree for any value if and only if there are choices |
| ParameterSpace.DecodeCandidate | src/python/optimization/parameter_space.py:233-250 | the loop builds the reference dictionary, or raises where an entry does |
| ParameterSpace.DecodedIff | src/python/optimization/parameter_space.py:233-250 | decoding raises exactly when the candidate is too short or an entry raises; the keys are the names of the space |
| ParameterSpace.DecodedLast | src/python/optimization/parameter_space.py:233-250 | each name carries the value of the last parameter of that name |
| ParameterSpace.EncodeParams | src/python/optimization/parameter_space.py:253-265 | the zero vector is filled position by position with the reference encoding; the call raises iff an entry does |
| ParameterSpace.EncodeMeans | src/python/optimization/parameter_space.py:256-264 | a missing value and an unlisted choice are encoded as zero, a listed choice as its first index, a number as itself; only a string that is no number raises, outside categories |
| ParameterSpace.EncodedMeans | src/python/optimization/parameter_space.py:253-265 | encoding raises exactly when an entry does; else every position holds its entry |
| ParameterSpace.ValueRoundTrip | src/python/optimization/parameter_space.py:233-265 | for any value and parameter, encoding and then decoding gives the value back (as the same number) if and only if the parameter can take it |
| ParameterSpace.RoundTrip | src/python/optimization/parameter_space.py:233-265 | decode after encode gives back every admissible dictionary over exactly the space's names, numbers compared as numbers |
| ParameterSpace.ExtractParamsByIndices | src/python/optimization/parameter_space.py:304-323 | the loop builds the reference dictionary of snapped values, or raises where an entry does |
| ParameterSpace.ExtractedIff | src/python/optimization/parameter_space.py:304-323 | extraction raises exactly when an index is out of range or its entry raises |
| ParameterSpace.ExtractedLast | src/python/optimization/parameter_space.py:304-323 | each name carries the snapped value of the last index of that name |
| ParameterSpace.KeyMatchesEvaluation | src/python/optimization/parameter_space.py:304-323 | for in-bounds candidates over parameters that meet the agreement conditions, the group key is the decoded dictionary restricted to the key's names |
| ScoreFiles.OwnFilesIffCoincide | src/python/optimization/batch_dispatch.py:116-118 | after all runs, in any order, every run's file holds its own scores if and only if runs of one fold whose hashes share eight characters have the same scores |
| ScoreFiles.CollidingInput | src/python/optimization/batch_dispatch.py:116-118 | two different hashes and one directory: after both runs the first group reads the second group's scores |
| GroupedDispatch.Dispatcher.Gather | src/python/optimization/orchestrator.py:616-644 | the dictionary loop partitions the surviving candidates by group hash, in order |
| GroupedDispatch.Dispatcher.Enrich | src/python/optimization/orchestrator.py:646-652 | every group finds the path of its own signal setting under its signal hash, or the call raises because a setting cannot be computed; with room in the cache, no cap eviction and an advancing clock (or nothing found) every path is live after the last call |
| GroupedDispatch.Dispatcher.Prepare | src/python/optimization/orchestrator.py:662-674 | every group gets its own data; every spec file on disk holds the spec of the last group that writes it, collisions of the twelve characters included |
| GroupedDispatch.Dispatcher.RunManifest | src/rust/crates/backtester/src/bin/forex_backtester.rs:483-536 | one run over the manifest of a fold leaves in every group's file the scores of the last group of its directory, and touches no other fold |
| GroupedDispatch.Dispatcher.ReadManifest | src/python/optimization/batch_dispatch.py:330-364 | the column-by-column reading over all folds and groups; it fails only where a vector of another group does not fit |
| GroupedDispatch.Dispatcher.DispatchManifest | src/python/optimization/batch_dispatch.py:229-364 | exact for any hashes: with folds in any order, column f of a group holds the scores of the last group of its directory (broadcast if that has one row), minus infinity where the fold failed |
| GroupedDispatch.Dispatcher.ManifestRightIff | src/python/optimization/batch_dispatch.py:284-364 | a group's matrix is its own candidates' scores if and only if on every successful fold the last group of its directory has the same scores |
| GroupedDispatch.Dispatcher.DispatchPerGroup | src/python/optimization/batch_dispatch.py:89-227 | for any hashes and any interleaving of runs and reads: each column is exactly what the files hold after the runs before the read, so the scores of some group of the same directory, or minus infinity where the fold failed |
| GroupedDispatch.Dispatcher.PerGroupRightIff | src/python/optimization/batch_dispatch.py:89-227 | every schedule, wherever the groups are read, gives every group its own scores if and only if groups that share a directory score alike wherever both runs succeed |
| GroupedDispatch.Dispatcher.AgreementIsRight | src/python/optimization/batch_dispatch.py:89-227 | so the matrix of a group read in such a schedule holds its candidates scored alone |
| GroupedDispatch.Dispatcher.GroupOwn | src/python/optimization/batch_dispatch.py:89-227 | with different prefixes that group is the group itself: its matrix holds its candidates scored alone |
| GroupedDispatch.Dispatcher.Scatter | src/python/optimization/orchestrator.py:709-713 | rows are scattered back to the global candidate order; untouched rows stay minus infinity |
| GroupedDispatch.Dispatcher.DispatchGrouped | src/python/optimization/orchestrator.py:590-754 | for any hash prefixes and cache: the rows are those of the groups' matrices in the candidates' places, the matrices what one of the two paths leaves, the rest minus infinity; with directories of their own and data that the cache keeps, row i, fold f is candidate i scored by itself under its own group's spec and data; raises if a setting cannot be computed; with more settings than cache entries, a miss leaves some group without its file |
| Downsample.SelectionMeans | src/python/analysis/evidence_pack.py:288-292 | the stride indices and the last row are exactly max_points strictly increasing rows, first and last included |
| Downsample.SelectionIsEven | src/python/analysis/evidence_pack.py:288-292 | selected row i before the last is the integer quotient of i * total by the number of gaps, so neighbouring rows are a floor or a ceiling of the stride apart |
| Downsample.NextBatch | src/python/analysis/evidence_pack.py:296-319 | one batch extends the selection of the rows before it by the global offset |
| Downsample.DownsampleEquityCurve | src/python/analysis/evidence_pack.py:240-321 | for any split into batches the output is that selection of the whole curve; short curves come back whole, one point is a division by zero, fewer give the last row |
| PipelineState.TargetIsNext | src/python/orchestrator/pipeline_state.py:61-151 | every transition leads to the next stage of the order, except the loop of the final stage |
| PipelineState.AcceptedMeans | src/python/orchestrator/gate_manager.py:248-253 | the recursive test is: an accept of the gate, followed by no refine and no other decision on it |
| PipelineState.LastCompletedMeans | src/python/orchestrator/gate_manager.py:255-260 | the reversed scan finds exactly the completion of the stage after which none of that stage follows, or there is none |
| PipelineState.PreconditionsMeans | src/python/orchestrator/gate_manager.py:116-178 | exactly when a stage may be left: at a gate, its latest decision is an accept or a refine; elsewhere, its latest completion succeeded or was skipped, its artifact is valid and no error stands |
| PipelineState.AdvanceMeans | src/python/orchestrator/gate_manager.py:41-114 | every decision is recorded; accept moves to the next stage of the order, reject nowhere, refine to strategy-ready; completions and errors stay; it raises exactly on the eleven stages without a gate |
| PipelineState.AdvanceKeepsJustified | src/python/orchestrator/gate_manager.py:41-114 | accept, reject and refine keep a state justified; the call raises exactly on ungated stages |
| PipelineState.MoveKeepsJustified | src/python/orchestrator/gate_manager.py:116-178 | so does an automatic transition whose preconditions hold |
| PipelineState.OldCompletionsSuffice | src/python/orchestrator/gate_manager.py:141-148 | after a refine the completions from before it already meet the preconditions of every stage passed |
| PipelineRuns.RunsAreJustified | src/python/orchestrator/stage_runner.py:265-347 | over all runs, operator decisions and crashes: each gate behind the current stage has an accept after the last refine, each automatic one a latest completion that did not fail, pending is the rest of the order, in memory and on disk |
| PipelineRuns.ErrorBlocks | src/python/orchestrator/stage_runner.py:301-302 | an error not cleared by resource pressure blocks all automatic transitions through any resumes, retries, crashes and decisions |
| PipelineRuns.OnlyPressureIsForgiven | src/python/orchestrator/errors.py:77-132 | a runner takes an error back only when it was resource pressure, and only in memory |
| PipelineRuns.StepNotAhead | src/python/orchestrator/stage_runner.py:285-296 | the file gets ahead of the memory in exactly one way: an accept at the gate at which a runner stands (the final loop aside) |
| PipelineRuns.OvertakenAcceptIsLost | src/python/orchestrator/stage_runner.py:285-296 | the runner's save after such an accept puts the file back in front of the gate |
| PipelineRuns.LostAccept | src/python/orchestrator/operator_actions.py:422-464 | a concrete run in which the operator's accept is taken back this way |
| PipelineRuns.SavedProgress | src/python/orchestrator/stage_runner.py:129-254 | over all runs in which no accept overtakes a runner, other decisions interleaving freely: the saved stage is never ahead of memory and never goes back except by refine, reset or a new run |
| PipelineRuns.GatesNeedTheOperator | src/python/orchestrator/operator_actions.py:422-552 | between a state in front of a gate and one behind it lies an accept at that gate |
| PipelineRuns.RefineNeedsNewAccept | src/python/orchestrator/operator_actions.py:509-552 | over all runs: between a refine and a later saved state behind a gate lies an accept of that gate after the refine, unless a runner that stood behind the gate was active when it was decided |
| PipelineRuns.LostRefine | src/python/orchestrator/operator_actions.py:509-552 | a concrete run in which the save of such a runner takes the refine back |
| StageRunning.StageRunner.HandleError | src/python/orchestrator/errors.py:77-132 | the error is recorded and saved; resource pressure is then forgiven in memory only |
| StageOutcomes.ErrorFreeIff | src/python/orchestrator/stage_runner.py:349-489 | for any behaviour of the executor, no error is left after a stage if and only if none was met and none stood, or the last one met was resource pressure |
| StageOutcomes.ExecutedByLastAttempt | src/python/orchestrator/stage_runner.py:349-489 | memory and file after a stage, read off the last attempt made and the one before it: attempts go on exactly after resource pressure and external failures, up to the limit |
| StageOutcomes.SomeLastMade | src/python/orchestrator/stage_runner.py:395-433 | at every stage exactly one attempt is the last one made |
| StageOutcomes.OtherErrorsStop | src/python/orchestrator/stage_runner.py:432-433 | a data/logic or other error ends the call at its stage, saved, whatever later attempts and stages would do |
| StageOutcomes.SuccessfulRetryStops | src/python/orchestrator/stage_runner.py:395-433 | an external failure, then success: the completion is in memory only, the error stands in memory and in the file, and the run stops at the stage |
| StageOutcomes.PressureForgivesFailure | src/python/orchestrator/stage_runner.py:395-433 | the same failure, then resource pressure, then success: the run goes on |
| StageOutcomes.PressurePassesIff | src/python/orchestrator/stage_runner.py:395-433 | resource pressure on every attempt: the stage, never executed to its end, is passed if and only if an earlier round completed it and its artifact is valid |
| StageOutcomes.ResumeDoesNotRecover | src/python/orchestrator/stage_runner.py:157-254 | with a standing error a resumed run stays at its stage although all its executors succeed |
| StageOutcomes.ReachesIff | src/python/orchestrator/stage_runner.py:265-347 | how far a call gets, for any behaviour of executors and artifacts: up to the gate it gets to a stage or beyond if and only if every stage before it passes, read off the inputs |
| StageOutcomes.SuccessReachesGate | src/python/orchestrator/stage_runner.py:265-347 | a call in which all executors succeed ends at the next gate, without an error and saved |
| StageOutcomes.WholePipeline | src/python/orchestrator/stage_runner.py:129-347 | with executors that succeed, a new run and an accept at each of two gates end at selection-complete, with exactly those decisions |
| StageRunning.StageRunner.ExecuteStage | src/python/orchestrator/stage_runner.py:349-489 | memory and file after the loop of attempts are exactly the reference outcome of what the executor does: at most one completion, the error by the rule above, and only a reported failure saved with its completion |
| StageRunning.StageRunner.ExecuteStages | src/python/orchestrator/stage_runner.py:265-347 | memory and file are exactly the reference run over the stages; the loop ends by stage order, stops at an error, a gate or unmet preconditions, and passes no gate |
| StageRunning.StageRunner.StartRun | src/python/orchestrator/stage_runner.py:129-155 | the file is exactly that of the reference run from a fresh state; it is justified, at most at the first gate, and at it if all executors succeed |
| StageRunning.StageRunner.ResumeRun | src/python/orchestrator/stage_runner.py:157-254 | the file is exactly that of the reference run from the loaded state; no stage is lost and no gate passed; an artifact that does not verify only records an error |
| StageRunning.StageRunner.OperatorDecides | src/python/orchestrator/operator_actions.py:422-552 | the decision is appended to those saved, completions and error stay, and the saved stage is the next one, the same or strategy-ready; without a file or a gate nothing changes |
| StageRunning.StageRunner.RunBacktest | src/python/orchestrator/operator_actions.py:188-207 | a state with a non-recoverable error is discarded and a new run made, any other is resumed; the file is exactly that of the reference run |

## Left out

- Files, Arrow, Parquet, JSON and TOML: a save is an atomic assignment, a load returns what was saved; schema migration and corrupt state files are not modelled.
- The backtester, subprocesses, memory probing and persistent workers: evaluation is a function of spec, data, decoded parameters and fold; a run that exits with 0 writes one score per row.
- The evaluator's output of a wrong length, the JSON fallback of score files and files left by an earlier run in the same directory.
- `cmaes`, Nevergrad and the Sobol sampler: only the number of vectors they return and the batch size they accept; `narrow_bounds`, `warm_start`, `set_initial_mean`, the differential-evolution instance and reloading checkpoints.
- Portfolio.PortfolioManager.AskBatch: every instance is taken to return as many rows as it is asked for.
- UCB scores, cross-validation objectives: arbitrary real scores.
- RSI, ADX, Bollinger, MACD, stochastic and hidden-smash-day columns: any of them that is causal on rows is covered by `SignalPipeline.RowCausalIsPointInTime`; ATR alone is modelled, as an exponential mean.
- NaN and infinite prices, and floating-point rounding anywhere; counters do not overflow.
- Year filtering, session relabelling and the H1 output resolution of signal precomputation.
- The pandas rollup drops bid and ask and sums volume; the shared `Rollup.Roll` carries bid and ask along and has no volume. No modelled column reads them.
- Tick aggregation, writing and schema validation of converted tables.
- Threads: cache completions and group runs happen one at a time, in any order. An operator decision and a runner step are atomic, but interleave freely in `PipelineRuns`.
- The cache key covers data, year range, resolution and parameters but not the base spec; a cache directory is taken to serve one spec, as the initial honesty of its files.
- Cache statistics on time, log output, the status display, the evidence pack hook, within-stage checkpoints, run ids and configuration hashes.
- Eviction under a failing `stat`, and exceptions raised between the rename and the end of `_compute_and_store`.
- Confidence scoring, fold boundaries, cost models, anomaly thresholds, narratives and charts: outside this model.
- GroupedDispatch.Dispatcher.DispatchGrouped: candidates whose decoding or key extraction raises abort the whole generation in the source and are not modelled; where an enriched file is gone when it is read, the model has no matrix, and what the evaluator reports then is not modelled.
- Sessions.AssignSessionsBulk: works on whole minutes, as the source's minute-of-day column does; a schedule is a record of windows, not a parsed dictionary.
- Downsample.SelectionMeans: exact arithmetic; with floats the last stride index may round differently.
- Downsample.SelectionIsEven: exact arithmetic, for the same reason.
- CmaEs.BoundedConvergence: generations told by `tell` alone, without reloads or narrowed bounds.
- ParameterSpace.EncodeParams: Python's `float` of a string is a parameter of the model.
- PipelineRuns.RunsAreJustified: one runner per strategy at a time; two runners on one state file are not modelled.
