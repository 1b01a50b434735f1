# Trade journal analytics in Dafny

This project models the analytics core of a trade-journal analyzer for
retail (MetaTrader-style) trading accounts. A journal is a list of trades.
Each trade has a ticket, symbol, order type, open and close times, prices,
optional stop-loss and take-profit levels, and a realised profit. The core
derives four reports from the journal:

- **basic statistics**: counts of closed, open, winning, losing and
  breakeven trades; win rate; gross profit and loss; profit factor; averages;
  expectancy; largest win and loss; maximum drawdown; longest winning and
  losing streaks; profit per trading day; profit per symbol; average
  durations;
- **drawdown analysis**: the equity curve, the peak-to-trough drawdown
  periods with their recoveries, and the summary figures;
- **time analysis**: per-hour, per-weekday, per-month, per-session and
  per-period buckets; ranked peak and worst hours; best and worst weekday
  and month; schedule recommendations;
- **performance scoring**: a weighted overall score with a letter grade,
  strengths, weaknesses and advice; a per-trade grade built from
  profitability, holding time and the risk/reward setup.

Modelling conventions:

- Money is `real`, so there is no rounding.
- Timestamps are whole seconds since 1970-01-01 UTC.
- The infinite profit factor of a journal without losses is the
  `Unbounded` case of `Wrappers.Ext`.
- Every report is a pure function of the trade list.
- Python's stable sort, `max`/`min` with a key, and the calendar accessors
  are modelled once, in the `StableSort` and `Calendar` modules.

Behaviours of the code as written, proved here:

- Every losing trade in a journal gets profitability 0 and letter F
  (`PerformanceScorer.PortfolioLoserScoresZero`). The per-trade loss
  normaliser is the *smallest* loss in the journal, so every loss is at
  least one normaliser deep.
- The London/New York overlap session is never filled
  (`TimeAnalysis.OverlapBucketNeverFilled`). The session table is searched
  in order, and London and New York cover the overlap hours first. For the
  same reason, no session recommendation ever names the overlap.
- Trades closed in the last minute of the day, 23:59, belong to no day
  period (`TimeAnalysis.PeriodOf`).
- A balance that returns exactly to its previous peak does not close a
  drawdown period (`Scenarios.ExactRecoveryLeavesPeriodOpen`). Recovery
  needs a balance strictly above the peak.
- The win-rate score exceeds 100 for any win rate above 70%
  (`PerformanceScorer.WinRateScore`). The profit-factor score exceeds 100
  for a profit factor above 4, and is unbounded without losses
  (`PerformanceScorer.ProfitFactorScore`). Both contradict the range
  assertions in test_performance_scorer.py:236-248.
- A journal with no losing trade, the empty journal included, grades A
  with an unbounded overall score (`PerformanceScorer.NoLossesGradeA`).

The modules are:

- `Wrappers`: Option, the extended reals, and the mean and quotient
  predicates.
- `Calendar`: hour, minute, weekday and month of a timestamp.
- `StableSort`: stable sort, arg-max and arg-min.
- `Trades`: the trade record, its derived properties and sequence folds.
- `Buckets`: the per-key tallies behind the `defaultdict` tables.
- `BasicStats`
- `Drawdown`
- `TimeAnalysis`
- `PerformanceScorer`
- `Scenarios`: the concrete journals of the repository's tests.

## Model

| member | source | states |
|---|---|---|
| Trades.Duration | src/models/trade.py:32-37 | a duration exists exactly for closed trades, and it is the time from open to close |
| Trades.Result | src/models/trade.py:43-53 | an open trade is OPEN; a closed trade is WIN, LOSS or BREAKEVEN exactly by the sign of its profit |
| Trades.ByCloseTime | src/analyzers/drawdown.py:54-55 | sorting by close time is a permutation whose close times never decrease, and trades with equal close times keep their journal order, as Python's stable sort does |
| Trades.Filter | src/analyzers/basic_stats.py:61-67 | a list comprehension keeps exactly the elements meeting the predicate and nothing else |
| Trades.FilterCounts | src/analyzers/basic_stats.py:61-67 | the comprehension keeps every copy of a selected element and drops every copy of the others: it is the input's multiset restricted to the predicate |
| Trades.Closed | src/analyzers/basic_stats.py:61 | the closed-trade list holds only closed trades |
| Trades.SumProfitAppend | src/analyzers/basic_stats.py:86-88 | the profit sum of a concatenation is the sum of the parts |
| Trades.FilterSplit | src/analyzers/basic_stats.py:61-62 | closed and open trades partition the journal, in count and in profit |
| Trades.FilterSplit3 | src/analyzers/basic_stats.py:65-67 | winners, losers and breakevens partition the closed trades, in count and in profit |
| Trades.SumProfitSign | src/analyzers/basic_stats.py:86-87 | a sum of non-negative (non-positive, zero) profits is non-negative (non-positive, zero) |
| Trades.SumProfitReorder | src/analyzers/drawdown.py:54-55 | reordering the trades, as sorting by close time does, leaves their total profit unchanged |
| Trades.SumProfitRemoveAt | src/analyzers/basic_stats.py:86-88 | taking one trade out of the list takes exactly its profit out of the total |
| Buckets.Add | src/analyzers/time_analysis.py:114-120 | adding a trade to a bucket raises its count by one, its pnl by the profit, and its win or loss count by the trade's outcome; wins plus losses never exceed the count |
| Buckets.Lookup | src/analyzers/time_analysis.py:81-85 | a missing key reads as the empty bucket, as `defaultdict` does; a present key reads its own bucket |
| Buckets.HasKeyCons | src/analyzers/time_analysis.py:81-85 | a key is in a table exactly when it is the head's key or is in the tail |
| Buckets.Upsert | src/analyzers/time_analysis.py:114-156 | inserting keeps the existing keys in first-insertion order and adds at most one entry; the count and pnl totals grow by exactly the one trade |
| Buckets.UpsertKeys | src/analyzers/time_analysis.py:114-156 | after insertion the key is present, and the table grows exactly when the key was new |
| Buckets.UpsertDistinct | src/analyzers/time_analysis.py:81-85 | insertion never creates a second bucket for a key, as dictionary keys are unique |
| Buckets.UpsertLookup | src/analyzers/time_analysis.py:114-156 | insertion changes only the inserted key's bucket, which gains the trade |
| Buckets.UpsertHasKey | src/analyzers/time_analysis.py:114-156 | after insertion the keys are the old keys plus the inserted one |
| Buckets.UpsertLastIsNew | src/analyzers/time_analysis.py:81-85 | a new key is appended at the end with a one-trade bucket, so dictionary order is first-insertion order |
| Buckets.Group | src/analyzers/time_analysis.py:95-96 | grouping gives distinct, non-empty buckets whose counts and pnl add up to the keyed trades |
| Buckets.GroupIsTally | src/analyzers/time_analysis.py:95-96 | every key's bucket equals an independent tally of the trades with that key, and a key is present exactly when that tally is non-empty |
| Buckets.FirstSeen | src/analyzers/time_analysis.py:81-85 | the first index whose trade carries a key: no earlier trade carries it, and the length when none does |
| Buckets.GroupFirstSeen | src/analyzers/time_analysis.py:95-96 | the buckets are in the order their keys were first seen, as a dictionary filled trade by trade keeps them |
| Buckets.AppendFirstSeen | src/analyzers/time_analysis.py:81-85 | a key first seen at the newest trade goes after every earlier key |
| Buckets.TallyOfMember | src/analyzers/time_analysis.py:95-96 | a trade's own key always has a non-empty tally |
| Buckets.TallyOfAbsent | src/analyzers/time_analysis.py:81-85 | a key no trade carries has the empty tally |
| Buckets.KeyedTotals | src/analyzers/time_analysis.py:114-136 | when every trade has a key, the buckets hold every trade and all of the profit |
| BasicStats.WinRate | src/analyzers/basic_stats.py:84 | the win rate is the fraction of closed trades that won, in [0,1], and 0 without closed trades |
| BasicStats.Average | src/analyzers/basic_stats.py:94-95 | an average is the mean of its total over its count, and 0 for an empty count |
| BasicStats.ProfitFactor | src/analyzers/basic_stats.py:91 | the profit factor is gross profit over gross loss, and unbounded when there is no gross loss |
| BasicStats.LargestProfit | src/analyzers/basic_stats.py:104 | the largest win is the greatest profit among the given trades, and 0 when there are none |
| BasicStats.SmallestProfit | src/analyzers/basic_stats.py:105 | the largest loss is the least profit among the given trades, and 0 when there are none |
| BasicStats.WalkDrawdown | src/analyzers/basic_stats.py:155-182 | the running walk ends at the net balance, with the highest balance reached and the deepest fall from an earlier peak to a later balance |
| BasicStats.DrawdownStep | src/analyzers/basic_stats.py:167-174 | one more trade keeps the running peak and the deepest fall exact |
| BasicStats.PeakUnique | src/analyzers/basic_stats.py:167-174 | the running peak of a journal is uniquely determined |
| BasicStats.DrawdownOf | src/analyzers/basic_stats.py:155-182 | the drawdown amount is the deepest fall of the balance; the percentage is that amount over the peak, and 0 for a non-positive peak |
| BasicStats.MaxDrawdown | src/analyzers/basic_stats.py:155-182 | the drawdown is measured on the trades ordered by close time, and is zero for an empty journal |
| BasicStats.WalkStreaks | src/analyzers/basic_stats.py:184-211 | the walk's streak counters are the trailing and the longest runs of consecutive wins and of consecutive losses |
| BasicStats.RunStep | src/analyzers/basic_stats.py:196-209 | extending or resetting the current streak keeps the trailing and longest runs exact |
| BasicStats.LongestRunUnique | src/analyzers/basic_stats.py:184-211 | the longest streak is uniquely determined |
| BasicStats.RunBoundedByCount | src/analyzers/basic_stats.py:184-211 | a streak is never longer than the number of trades of its kind |
| BasicStats.Consecutive | src/analyzers/basic_stats.py:184-211 | the maximum streaks are the longest runs of wins and of losses in close-time order, bounded by the win and loss counts, and 0 for no trades |
| BasicStats.SameMultisetSameCount | src/analyzers/basic_stats.py:190 | reordering trades does not change how many meet a predicate |
| BasicStats.FilterAppend | src/analyzers/basic_stats.py:61-67 | filtering distributes over concatenation |
| BasicStats.FilterRemoveAt | src/analyzers/basic_stats.py:190 | taking one trade out of the list lowers the count of trades meeting a predicate by one exactly when that trade meets it |
| BasicStats.BreakevenSplitsStreaks | src/analyzers/basic_stats.py:206-209 | a breakeven trade resets both streaks, so the longest streaks are the larger of those before and after it |
| BasicStats.RunsSplit | src/analyzers/basic_stats.py:206-209 | a trade that breaks a streak splits the longest run into the runs before and after it |
| BasicStats.TradingDays | src/analyzers/basic_stats.py:213-229 | the trading days are exactly the dates on which some trade closed; there is at least one for a non-empty list and never more than the trades |
| BasicStats.ProfitPerDay | src/analyzers/basic_stats.py:213-229 | profit per day is the net profit averaged over the distinct close dates, and 0 without trades |
| BasicStats.ProfitColumn | src/analyzers/basic_stats.py:231-241 | the symbol table lists each bucket's symbol with its summed profit |
| BasicStats.ProfitBySymbol | src/analyzers/basic_stats.py:231-241 | each symbol appears once with the summed profit of its trades; a symbol appears exactly when some trade carries it; the rows follow the order in which each symbol was first seen, as the dictionary's insertion order does; the column sums to the net profit |
| BasicStats.SymbolsFirstSeen | src/analyzers/basic_stats.py:235-239 | the symbol rows are ordered by the index of each symbol's first trade |
| BasicStats.AverageDuration | src/analyzers/basic_stats.py:243-270 | the average duration is the mean of the durations, and 0 for no trades |
| BasicStats.PartitionOf | src/analyzers/basic_stats.py:59-67 | the journal splits into closed and open trades, and the closed ones into winners, losers and breakevens, in count and in profit; gross profit is zero exactly without winners, gross loss exactly without losers |
| BasicStats.SignedSumZeroIffEmpty | src/analyzers/basic_stats.py:86-87 | a sum of strictly positive (negative) profits is zero exactly when there are none |
| BasicStats.RatiosOf | src/analyzers/basic_stats.py:84-101 | the ratios are the stated means and quotients, and the expectancy never exceeds the average trade, with equality when there are no breakevens or no losers |
| BasicStats.ExpectancyBound | src/analyzers/basic_stats.py:97-101 | win rate times average win minus loss rate times average loss is at most the average trade; breakevens are what make it smaller |
| BasicStats.ExpectancyArithmetic | src/analyzers/basic_stats.py:97-101 | the real-number inequality behind the expectancy bound |
| BasicStats.Compute | src/analyzers/basic_stats.py:72-153 | every figure is tied to the journal: the counts are the sizes of the closed, winning and losing sub-lists and partition the journal; gross profit and loss are the sums of the winners and losers; the profit factor is their quotient and unbounded exactly without losses; the win rate and averages are the stated means; expectancy is win rate times average win minus loss rate times average loss and never exceeds the average trade; the drawdown amount is the deepest fall and the streaks the longest runs of the close-time ordered trades; the largest win and loss are the extreme profits of the winners and losers; the drawdown percentage and amount, profit per day, profit by symbol and the three average durations are those of the closed trades, the winners and the losers; an empty journal gives zero figures |
| BasicStats.AssembleFigures | src/analyzers/basic_stats.py:104-120 | the report's largest win and loss, drawdown, profit per day, profit by symbol and average durations are each computed from the closed trades or their winners or losers |
| BasicStats.AssembleCounts | src/analyzers/basic_stats.py:61-91 | the report's counts are the sizes of the closed, winning and losing sub-lists, and its gross and net profits are their sums |
| BasicStats.AssembleRatios | src/analyzers/basic_stats.py:84-101 | the report's rate, averages, profit factor and expectancy are the quotients and means of its counts and sums |
| BasicStats.AssembleWalks | src/analyzers/basic_stats.py:104-111 | the report's drawdown amount and streaks are the deepest fall and longest runs of the closed trades in close-time order, bounded by the win and loss counts |
| Drawdown.RunningPoints | src/analyzers/drawdown.py:60-74 | each equity point sits at its trade's close time, with the starting balance plus the running profit |
| Drawdown.EquityCurve | src/analyzers/drawdown.py:60-74 | the curve starts one minute before the first close at the initial balance, then has one point per trade, at its close time, carrying the initial balance plus the running profit; no trades give no curve |
| Drawdown.CurveEnd | src/analyzers/drawdown.py:70-72 | the curve ends at the initial balance plus the total profit of the trades |
| Drawdown.CurveInTimeOrder | src/analyzers/drawdown.py:65-72 | trades in close-time order give a curve whose times never decrease |
| Drawdown.PeakBalance | src/analyzers/drawdown.py:173-179 | the peak balance is the greatest balance on the curve |
| Drawdown.PercentOf | src/analyzers/drawdown.py:100 | a fall as a percentage is the fall over the peak, times 100, and 0 for a non-positive peak |
| Drawdown.Step | src/analyzers/drawdown.py:86-120 | one equity point never lowers the peak and appends a period exactly when a drawdown is in progress and the balance rises above the peak |
| Drawdown.MaxDepth | src/analyzers/drawdown.py:150-153 | the maximum depth bounds every period's depth and is attained by one, or is 0 |
| Drawdown.WitnessedGrows | src/analyzers/drawdown.py:76-138 | a fall seen on part of the curve is still seen on the whole curve |
| Drawdown.StepPeak | src/analyzers/drawdown.py:91-109 | the walk's peak stays the highest balance seen so far |
| Drawdown.StepFalls | src/analyzers/drawdown.py:111-120 | the walk's closed periods and current trough cover every fall seen so far |
| Drawdown.StepPeriods | src/analyzers/drawdown.py:91-109 | closed periods stay well formed, have rising peaks, are actual falls on the curve, and each ends at the time of a curve point strictly above its peak |
| Drawdown.StepOrder | src/analyzers/drawdown.py:91-115 | on a curve in time order, a period closed by a new peak starts at the previous peak time and ends at the current point, so the recorded periods stay in time order and the last one ends no later than the peak time |
| Drawdown.PeakTimeBefore | src/analyzers/drawdown.py:106-108 | the peak time is the time of a curve point, so it is no later than the last point of a curve in time order |
| Drawdown.RecoveredGrows | src/analyzers/drawdown.py:91-103 | a recovery seen on part of the curve is still a recovery on the whole curve |
| Drawdown.WalkCurve | src/analyzers/drawdown.py:76-121 | the walk over the curve keeps its peak, fall and period invariants, and on a curve in time order its periods are in time order |
| Drawdown.FinishShaped | src/analyzers/drawdown.py:123-136 | closing an active drawdown at the last point keeps every period well formed, witnessed on the curve, and every recovered period ending above its peak |
| Drawdown.FinishMaxDepth | src/analyzers/drawdown.py:123-136 | after closing, the maximum depth is the larger of the closed periods' and the active one's |
| Drawdown.FinishDeepest | src/analyzers/drawdown.py:123-136 | the deepest period is the deepest peak-to-later-balance fall on the curve |
| Drawdown.FinishRealized | src/analyzers/drawdown.py:123-136 | the maximum depth is a fall that actually occurs on the curve |
| Drawdown.FinishOpen | src/analyzers/drawdown.py:123-136 | when the last balance is below the peak, the last period is still open |
| Drawdown.FinishOrder | src/analyzers/drawdown.py:123-136 | on a curve in time order the open drawdown starts at the peak time, after every recorded period ended, and has a non-negative duration up to the last point |
| Drawdown.FinishFacts | src/analyzers/drawdown.py:122-138 | closing the walk gives periods that are shaped, whose deepest is the deepest fall, whose last is open below the peak, and that are in time order on a curve in time order |
| Drawdown.IdentifyPeriods | src/analyzers/drawdown.py:76-138 | the periods are well formed with rising peaks; each recovered one ends at the time of a point above its peak; the deepest one is the curve's deepest fall; the last one is open while the balance is below its peak; every period starts at a point that set a new running high, its trough is a balance taken while that high stood, a recovered one ends at the first point above it and an open one's peak is the curve's peak; every point below its running peak lies in a period of that peak whose trough is no higher; on a curve in time order no duration is negative and each period ends no later than the next starts |
| Drawdown.RunPeakIsMax | src/analyzers/drawdown.py:91-109 | the running peak at a point is the greatest balance up to it and is one of them |
| Drawdown.RunPeakAt | src/analyzers/drawdown.py:90 | a later point does not change an earlier running peak |
| Drawdown.RunPeakGrows | src/analyzers/drawdown.py:90 | running peaks and new highs of a prefix are those of the whole curve |
| Drawdown.RunPeakLast | src/analyzers/drawdown.py:173-179 | the running peak at the last point is the curve's peak balance |
| Drawdown.PeakIsPeakBalance | src/analyzers/drawdown.py:91-109 | the walk's peak is the curve's peak balance and its last running peak |
| Drawdown.PeriodOnCurveGrows | src/analyzers/drawdown.py:91-103 | a recovered period read off a prefix is still read off the whole curve |
| Drawdown.StartDips | src/analyzers/drawdown.py:82-88 | the walk starts at a new high with no periods and no dip to cover |
| Drawdown.StepPeakWitness | src/analyzers/drawdown.py:106-108 | after a step the walk's peak is a point that set a new running high |
| Drawdown.StepClosedOnCurve | src/analyzers/drawdown.py:91-103 | a period closed by a new high starts at the high that opened it, has a trough taken under it, and ends at the first point above it |
| Drawdown.StepTroughWitness | src/analyzers/drawdown.py:111-120 | after a step an open drawdown's trough is a balance taken while its peak was the running peak |
| Drawdown.StepWitnesses | src/analyzers/drawdown.py:90-120 | one step keeps the peak, every recorded period and the open trough read off the curve |
| Drawdown.StepCovers | src/analyzers/drawdown.py:90-120 | one step keeps every dip below the running peak covered by a recorded period or the open drawdown |
| Drawdown.WalkDips | src/analyzers/drawdown.py:90-120 | the whole walk keeps its periods read off the curve and every dip covered |
| Drawdown.FinishOnCurve | src/analyzers/drawdown.py:123-136 | closing the walk keeps every period read off the curve, the open one with the curve's peak |
| Drawdown.FinishCovers | src/analyzers/drawdown.py:123-136 | after closing, every dip lies in a reported period of its running peak |
| Drawdown.FinishDips | src/analyzers/drawdown.py:123-136 | closing the walk reports every dip and only periods read off the curve |
| Drawdown.DeepestPeriod | src/analyzers/drawdown.py:150-153 | the deepest period has the maximum depth and is the first one with it, as Python's `max` keeps the first |
| Drawdown.LongestDuration | src/analyzers/drawdown.py:158 | the longest duration is attained by a period and bounds all of them |
| Drawdown.Summarize | src/analyzers/drawdown.py:147-171 | the maximum depth and its percentage come from the first deepest period, as `max` keeps the first; the longest duration bounds every period and is attained by one; the averages are means over all periods and the recovery mean over recovered ones; no periods give all zeros |
| Drawdown.AnalyzeCurve | src/analyzers/drawdown.py:140-192 | the periods are shaped and summarized as above; the maximum drawdown is the curve's deepest fall; the current drawdown is the peak balance minus the last balance and its percentage is taken of the peak; the account is in drawdown exactly when that is positive, and then the last period is open; on a curve in time order the periods are in time order |
| Drawdown.AnalysisFromCurve | src/analyzers/drawdown.py:140-192 | the analysis of a curve reports every dip, is summarized from its periods, and measures the current drawdown from the curve's peak to its last balance |
| Drawdown.SortedFromCurve | src/analyzers/drawdown.py:140-192 | for trades, the current drawdown is measured to the initial balance plus their total profit |
| Drawdown.SortedInTimeOrder | src/analyzers/drawdown.py:54-55 | trades in close-time order give periods in time order |
| Drawdown.ClosedFromCurve | src/analyzers/drawdown.py:53-58 | sorting the closed trades by close time keeps their total profit and gives periods in time order |
| Drawdown.AnalyzeSorted | src/analyzers/drawdown.py:140-192 | no trades give the empty analysis; otherwise the periods are shaped on the equity curve and summarized, and the current drawdown is the curve's peak minus the initial balance plus total profit; trades in close-time order give periods in time order |
| Drawdown.Analyze | src/analyzers/drawdown.py:53-58 | only closed trades count, and a journal without them gives the empty analysis; otherwise the current drawdown is the peak of their close-time ordered curve minus the initial balance plus their total profit, and the periods are always in time order |
| Drawdown.AgreesWithBasicStats | src/analyzers/basic_stats.py:155-182 | the drawdown analyzer's maximum drawdown equals the basic-statistics drawdown amount for every journal and starting balance |
| Drawdown.AgreesOnSorted | src/analyzers/drawdown.py:140-153 | on sorted trades, the maximum drawdown is the deepest fall of the running balance |
| Drawdown.NoTradesNoFall | src/analyzers/basic_stats.py:157-158 | no trades have no fall |
| Drawdown.AgreesOnCurve | src/analyzers/drawdown.py:60-74 | the equity curve's deepest fall is the trades' deepest fall, whatever the initial balance |
| Drawdown.DeepestFallUnique | src/analyzers/drawdown.py:150-153 | the deepest fall of a curve is uniquely determined |
| Drawdown.CurveFallsAreTradeFalls | src/analyzers/drawdown.py:60-74 | shifting by the initial balance and adding the lead-in point preserves the deepest fall |
| TimeAnalysis.FirstMatch | src/analyzers/time_analysis.py:158-166 | the lookup returns the first table entry whose window contains the time, and none when no window does |
| TimeAnalysis.SessionOf | src/analyzers/time_analysis.py:59-64 | the session is Asian before 08:00, London from 08:00 to 16:00, New York from 16:00 to 21:00, none from 21:00, and never the overlap |
| TimeAnalysis.SessionLookup | src/analyzers/time_analysis.py:158-166 | the ordered session search over the table gives those windows |
| TimeAnalysis.PeriodOf | src/analyzers/time_analysis.py:67-73 | the day period follows the 08:00, 12:00, 16:00, 20:00 and 23:59 boundaries, and no period covers the minute from 23:59 |
| TimeAnalysis.PeriodLookup | src/analyzers/time_analysis.py:168-176 | the ordered period search over the table gives those windows |
| TimeAnalysis.StatsOf | src/analyzers/time_analysis.py:178-224 | a bucket's row carries its counts and pnl, with win rate, loss rate and average pnl as means, and win plus loss rate at most 1 |
| TimeAnalysis.StatsTable | src/analyzers/time_analysis.py:178-224 | derived rows match their buckets one for one and keep the totals |
| TimeAnalysis.ByKey | src/analyzers/time_analysis.py:290-366 | each key appears once; each row is the tally of its key's trades; every key carried by a trade appears; totals match the keyed trades |
| TimeAnalysis.ByKeyFirstSeen | src/analyzers/time_analysis.py:81-85 | the rows follow the order in which each key was first seen, as a `defaultdict` filled trade by trade iterates |
| TimeAnalysis.CalendarBucketsCover | src/analyzers/time_analysis.py:109-136 | the hour, weekday and month tables hold every closed trade and all of its profit |
| TimeAnalysis.OverlapBucketNeverFilled | src/analyzers/time_analysis.py:138-146 | no trade lands in the London/New York overlap session |
| TimeAnalysis.ReversedRankFlips | src/analyzers/time_analysis.py:243-247 | the ascending key orders rows exactly opposite to the descending one |
| TimeAnalysis.Qualifying | src/analyzers/time_analysis.py:229-241 | qualifying rows are exactly those with enough trades |
| TimeAnalysis.SortDescending | src/analyzers/time_analysis.py:229-241 | the rows are a permutation ordered by win rate, then average pnl, highest first, with rows of equal rank in their original order |
| TimeAnalysis.ReversedTies | src/analyzers/time_analysis.py:241 | grouping rows by the reversed rank groups them exactly as by the rank itself, so reverse sorting is stable on the original key |
| TimeAnalysis.PermutationQualifies | src/analyzers/time_analysis.py:229-241 | reordering rows keeps every row qualifying |
| TimeAnalysis.PeakHours | src/analyzers/time_analysis.py:229-241 | peak hours are exactly the hours with at least 3 trades, ranked best first, equal ranks in first-seen order |
| TimeAnalysis.WorstHours | src/analyzers/time_analysis.py:243-247 | worst hours are exactly the peak hours with negative average pnl, ranked worst first, equal ranks in peak-hour order |
| TimeAnalysis.Take | src/analyzers/time_analysis.py:368-374 | slicing to a limit keeps a prefix of length min(limit, size), with Python's meaning for a negative limit |
| TimeAnalysis.PrefixKeepsRanking | src/analyzers/time_analysis.py:368-374 | a prefix of a ranked, qualifying list is ranked and qualifying |
| TimeAnalysis.PickExtremes | src/analyzers/time_analysis.py:249-288 | the best row is the first row of greatest rank and the worst the first row of least rank, as `max` and `min` keep the first; neither exists for an empty list |
| TimeAnalysis.CalendarExtremes | src/analyzers/time_analysis.py:249-288 | best and worst weekday or month exist exactly when some one has at least 5 trades, and are the first greatest and first least ranked among those |
| TimeAnalysis.TopPeakHours | src/analyzers/time_analysis.py:368-370 | the top peak hours are a prefix of the ranking, ranked and qualifying; their number is min(limit, size), and for a negative limit the size less that many, as Python's slice gives |
| TimeAnalysis.TopWorstHours | src/analyzers/time_analysis.py:372-374 | the top worst hours are a prefix of the worst ranking, ranked worst first, each with negative average pnl and at least 3 trades; their number is min(limit, size), and for a negative limit the size less that many |
| TimeAnalysis.AllStats | src/analyzers/time_analysis.py:392-407 | the five tables are those of the closed trades by hour, weekday, month, session and period; the peak and worst hours are the top five of each ranking; the weekday and month extremes are those of the closed trades; the hour table covers every closed trade; no overlap session row |
| TimeAnalysis.BestSession | src/analyzers/time_analysis.py:506-516 | the chosen session is the first one with at least 5 trades and the highest positive win rate; no session is chosen when none with 5 trades wins at all |
| TimeAnalysis.AllSoundAppend | src/analyzers/time_analysis.py:475-518 | concatenating justified recommendation lists keeps them justified |
| TimeAnalysis.FocusRule | src/analyzers/time_analysis.py:483-487 | a focus-hours recommendation appears exactly when there are two peak hours and the best has win rate at least 60% over at least 5 trades |
| TimeAnalysis.AvoidRule | src/analyzers/time_analysis.py:490-494 | an avoid-hour recommendation appears exactly when the worst hour has win rate at most 40% over at least 5 trades |
| TimeAnalysis.DayRules | src/analyzers/time_analysis.py:497-503 | with a best and a worst weekday, the strongest-day advice appears exactly when the best wins at least 55% and the weakest-day advice exactly when the worst wins at most 45%, each naming its day and rate; nothing without them |
| TimeAnalysis.SessionRule | src/analyzers/time_analysis.py:506-516 | a session recommendation appears exactly when the best session's win rate is at least 60% |
| TimeAnalysis.Rules | src/analyzers/time_analysis.py:483-516 | every recommendation is justified by its thresholds, names the hour, weekday or session whose figures triggered it, and never names the overlap session; `RulesComplete` gives the converse |
| TimeAnalysis.RulesComplete | src/analyzers/time_analysis.py:475-516 | on the journal's own peak hours, losing hours, weekday extremes and best session, each kind of advice appears exactly when its threshold holds, at most once, in rule order (focus, avoid, strongest day, weakest day, session); the list is empty exactly when no threshold holds |
| TimeAnalysis.RuleListComplete | src/analyzers/time_analysis.py:483-516 | for any ranked hours, weekday extremes and best session, the four rules together fire exactly as their thresholds say |
| TimeAnalysis.DayRulesFire | src/analyzers/time_analysis.py:497-503 | the weekday rule gives strongest-day advice exactly when the best weekday wins at least 55% and weakest-day advice exactly when the worst wins at most 45%, both requiring a best and a worst weekday |
| TimeAnalysis.RulesKinds | src/analyzers/time_analysis.py:475-516 | joining the four rules' outputs keeps each kind of advice present exactly when its rule produced it, and the kinds appear in rule order |
| TimeAnalysis.FocusRuleGrounded | src/analyzers/time_analysis.py:483-487 | the focus-hours advice names the best ranked peak hour and its win rate |
| TimeAnalysis.AvoidRuleGrounded | src/analyzers/time_analysis.py:490-494 | the avoid-hour advice names the worst losing hour and its win rate |
| TimeAnalysis.DayRulesGrounded | src/analyzers/time_analysis.py:497-503 | the weekday advice names the best or worst qualifying weekday and its win rate |
| TimeAnalysis.SessionRuleGrounded | src/analyzers/time_analysis.py:506-516 | the session advice names the best session and its win rate, never the overlap |
| TimeAnalysis.OrKeep | src/analyzers/time_analysis.py:518 | an empty list becomes the single keep-schedule advice; otherwise the recommendations are kept |
| TimeAnalysis.Recommendations | src/analyzers/time_analysis.py:475-518 | there is always advice; insufficient-data exactly without closed trades; keep-schedule appears only alone, exactly when no rule fires |
| PerformanceScorer.WinRateScore | src/analyzers/performance_scorer.py:99-115 | the score falls in [90,..) from 60% up, [70,90) from 50%, [50,70) from 40%, [30,50) below 40%; it exceeds 100 above 70% and reaches 130 at 100% |
| PerformanceScorer.WinRateScoreContinuous | src/analyzers/performance_scorer.py:99-115 | the score never decreases with the win rate and rises by at most 200 points per unit of win rate, so the bands join without jumps |
| PerformanceScorer.RewardRatio | src/analyzers/performance_scorer.py:125 | the reward ratio is average win over average loss, and unbounded exactly when the average loss is 0 |
| PerformanceScorer.ExpectancyScore | src/analyzers/performance_scorer.py:129-135 | the expectancy score lies in [10,100]; it is above 50 exactly for positive expectancy and below 50 exactly for negative; it saturates at 100 and 10 |
| PerformanceScorer.ExpectancyScoreMonotone | src/analyzers/performance_scorer.py:129-135 | higher expectancy never scores lower |
| PerformanceScorer.RewardBonus | src/analyzers/performance_scorer.py:138-145 | the bonus is 20 exactly from a ratio of 2, 10 exactly from 1.5 below 2, 5 exactly from 1 below 1.5, and -10 exactly below 1 |
| PerformanceScorer.RewardBonusMonotone | src/analyzers/performance_scorer.py:138-145 | a better ratio never earns a smaller bonus |
| PerformanceScorer.RiskScore | src/analyzers/performance_scorer.py:117-148 | the risk score is clamped to [0,100]; without losses the ratio counts as best; expectancy of 100 with ratio at least 1 scores 100 |
| PerformanceScorer.RiskScoreMonotone | src/analyzers/performance_scorer.py:117-148 | better expectancy and a better ratio never lower the risk score |
| PerformanceScorer.ProfitFactorScore | src/analyzers/performance_scorer.py:150-166 | the score is at least 10, unbounded exactly for an unbounded profit factor, in the bands at 2, 1.5 and 1.2, below 36 under 1.2, and above 100 past 4 |
| PerformanceScorer.ProfitFactorScoreMonotone | src/analyzers/performance_scorer.py:150-166 | a higher profit factor never scores lower |
| PerformanceScorer.Weighted | src/analyzers/performance_scorer.py:69-73 | the overall score lies between the smallest and largest of its three parts, and is unbounded exactly when the profit-factor part is |
| PerformanceScorer.WeightedSlopes | src/analyzers/performance_scorer.py:69-73 | the weights are 0.4, 0.3 and 0.3: raising one part by d raises the overall score by that weight times d, and all-zero parts score 0 |
| PerformanceScorer.WeightedMonotone | src/analyzers/performance_scorer.py:69-73 | better parts never lower the overall score |
| PerformanceScorer.LetterGrade | src/analyzers/performance_scorer.py:168-179 | the letter is A from 90, B from 80, C from 70, D from 60, F below 60, each an exact band |
| PerformanceScorer.LetterGradeMonotone | src/analyzers/performance_scorer.py:168-179 | a higher score never earns a lower letter |
| PerformanceScorer.Flag | src/analyzers/performance_scorer.py:181-242 | a single weakness brings exactly its own advice |
| PerformanceScorer.Praise | src/analyzers/performance_scorer.py:181-242 | a single strength brings no advice |
| PerformanceScorer.AdvisedUnion | src/analyzers/performance_scorer.py:238-240 | merging insight sets keeps advice exactly matched to weaknesses |
| PerformanceScorer.WinRateFacet | src/analyzers/performance_scorer.py:188-197 | the win-rate verdict follows the win-rate score bands: excellent, good, could improve, low |
| PerformanceScorer.ProfitFactorFacet | src/analyzers/performance_scorer.py:200-206 | strong from a score of 90, decent from 70, low below 70 |
| PerformanceScorer.ExpectancyFacet | src/analyzers/performance_scorer.py:209-213 | positive expectancy exactly when its score exceeds 50, negative otherwise |
| PerformanceScorer.RiskRewardFacet | src/analyzers/performance_scorer.py:216-226 | a verdict exists exactly when both averages are positive; it is excellent exactly from a ratio of 2, good exactly from 1.5 below 2, and room to improve below 1.5, carrying the ratio |
| PerformanceScorer.DrawdownFacet | src/analyzers/performance_scorer.py:229-235 | controlled up to 10%, moderate up to 20%, high above, carrying the figure |
| PerformanceScorer.Combine | src/analyzers/performance_scorer.py:181-242 | the merged insights contain each verdict, the decent profit factor, moderate drawdown and every risk/reward kind included, exactly when its facet produced it |
| PerformanceScorer.CombineAdvised | src/analyzers/performance_scorer.py:238-240 | the merged advice is exactly the advice of the merged weaknesses |
| PerformanceScorer.CombineRiskReward | src/analyzers/performance_scorer.py:216-226 | merging keeps or omits the risk/reward verdict as its facet did |
| PerformanceScorer.InsightsOf | src/analyzers/performance_scorer.py:181-242 | each strength and weakness appears exactly when its score band holds: win rate at 90, 70 and 50; profit factor at 90 and 70; expectancy above 50; risk/reward at 2 and 1.5; drawdown at 10% and 20%; every piece of advice answers a present weakness |
| PerformanceScorer.ScoreOf | src/analyzers/performance_scorer.py:61-97 | each part is its own score of the statistics, the overall score is their 0.4/0.3/0.3 weighting and the letter its grade; the overall score is at least 15 and unbounded exactly with an unbounded profit factor; the insights are those of the statistics |
| PerformanceScorer.OverallScore | src/analyzers/performance_scorer.py:61-97 | for any journal the parts are the scores of its statistics, the overall score is their weighting and at least 15, and it is unbounded exactly when there is no losing trade |
| PerformanceScorer.NoLossesGradeA | src/analyzers/performance_scorer.py:61-97 | a journal with no losing trade, including the empty one, grades A |
| PerformanceScorer.LargestGain | src/analyzers/performance_scorer.py:248 | the profit normaliser is the greatest positive profit, absent when nothing gained |
| PerformanceScorer.SmallestLoss | src/analyzers/performance_scorer.py:249 | the loss normaliser is the smallest loss magnitude, absent when nothing lost |
| PerformanceScorer.OrHundred | src/analyzers/performance_scorer.py:248-249 | a missing normaliser becomes 100, so the divisor is always positive |
| PerformanceScorer.ProfitScore | src/analyzers/performance_scorer.py:251-260 | breakeven scores 50; winners above 30, and 100 from the normaliser up; losers below 50, and 0 from the loss normaliser down; always within [0,100] |
| PerformanceScorer.ProfitScoreMonotone | src/analyzers/performance_scorer.py:251-260 | within winners, and within losers and breakeven, more profit never scores lower |
| PerformanceScorer.SmallWinnerBelowBreakeven | src/analyzers/performance_scorer.py:251-260 | a winner below 2/7 of the largest gain scores below a breakeven trade |
| PerformanceScorer.DurationBonus | src/analyzers/performance_scorer.py:263-282 | a winner earns 10 exactly for 1 to 8 hours, 5 exactly for 30 minutes up to 1 hour or over 8 up to 24 hours, 0 otherwise; a loser or breakeven earns 5 exactly up to 2 hours, 2 exactly over 2 up to 8 hours, 0 beyond; no duration or a zero duration earns 0 |
| PerformanceScorer.QuickerExitNeverWorse | src/analyzers/performance_scorer.py:273-280 | for losing and breakeven trades a shorter hold never earns less |
| PerformanceScorer.WinnerBonusPeak | src/analyzers/performance_scorer.py:265-268 | a winner earns the top 10 exactly when held between 1 and 8 hours |
| PerformanceScorer.RatioBonus | src/analyzers/performance_scorer.py:299-306 | the setup bonus is 15 exactly from a ratio of 2, 10 exactly from 1.5 below 2, 5 exactly from 1 below 1.5, and 0 exactly below 1 |
| PerformanceScorer.RatioBonusMonotone | src/analyzers/performance_scorer.py:299-306 | a better setup ratio never earns less |
| PerformanceScorer.RiskRewardBonus | src/analyzers/performance_scorer.py:288-306 | no bonus without both levels or with a stop at the entry price; otherwise the bonus is the setup bonus of the target distance over the stop distance |
| PerformanceScorer.GradeTrade | src/analyzers/performance_scorer.py:244-344 | the grade keeps the ticket and symbol; its parts are the profit score against the journal's normalisers, the duration bonus and the setup bonus; the score is their sum capped at 100 and the letter its grade; the first feedback matches the profit's sign; the setup praise appears exactly with a bonus |
| PerformanceScorer.PortfolioLoserScoresZero | src/analyzers/performance_scorer.py:249-257 | every losing trade of the journal scores 0 for profitability, at most 20 overall, and grades F |
| PerformanceScorer.PortfolioWinnerScore | src/analyzers/performance_scorer.py:251-253 | every winning trade of the journal scores above 30 for profitability, and the largest gain scores 100 |
| PerformanceScorer.GradeAll | src/analyzers/performance_scorer.py:346-348 | one grade per trade, in journal order, each in range, and every loser graded F |
| Scenarios.TwoDrawdownPeriods | test_drawdown.py:109-134 | a rise, a fall, a new peak and a deeper fall give two periods, the first recovered and the second open |
| Scenarios.TwoDrawdownPeriodsSummary | test_drawdown.py:109-134 | that curve's maximum and current drawdown are the second fall, and the average is the mean of both |
| Scenarios.ExactRecoveryLeavesPeriodOpen | src/analyzers/drawdown.py:91-109 | returning exactly to the peak leaves the period open with no current drawdown |
| Scenarios.Ladder | tests/test_basic_stats_consecutive.py:30-42 | the test journal has one closed trade per profit, a minute apart |
| Scenarios.FilterKeepsAll | src/analyzers/basic_stats.py:61 | filtering keeps a list whose elements all qualify |
| Scenarios.LadderInOrder | tests/test_basic_stats_consecutive.py:30-42 | the ladder journal is already in close-time order |
| Scenarios.BreakevenResetsStreaks | tests/test_basic_stats_consecutive.py:30-46 | wins 10 and 5, breakeven, losses 1, 2, 3, then a win give streaks of 2 wins and 3 losses |
| Scenarios.StreakWins | tests/test_basic_stats_consecutive.py:45 | the longest winning run of that journal is 2 |
| Scenarios.StreakLosses | tests/test_basic_stats_consecutive.py:46 | the longest losing run of that journal is 3 |

## Left out

- Decimal and float arithmetic: money is exact `real`. `round(..., 2)`,
  the `Decimal(str(win_rate))` conversion and float `inf` comparisons are
  not modelled. Infinity is the `Unbounded` case.
- Time deltas: the mean duration and recovery time are reals in seconds,
  not `timedelta` objects.
- The drawdown analyzer tests the start of the current drawdown for
  truthiness. A timestamp is always truthy there, so the model leaves the
  test out.
- Calendar accessors (`hour`, `weekday`, `month`, `date`) are library
  behaviour. They are defined on the proleptic Gregorian calendar in the
  `Calendar` module and get no rows.
- Python's stable sort and `max`/`min` with a key are library behaviour.
  They are modelled in `StableSort` and get no rows.
- Report rendering is left out: summaries, `to_dict`, text reports,
  feedback strings, the weekday and month name lists, and the summary line
  of a trade grade. Messages are datatype constructors instead of text.
- The database, the importers and the command line are outside the
  analytics core.
- Session-overlap helpers and a grade distribution are named by the tests
  but do not exist in the analyzer code, so there is nothing to model.
- Scenarios.TwoDrawdownPeriods: a small curve with the same shape as the
  17-trade scenario of test_drawdown.py. The full 17-trade journal is not
  evaluated.
- TimeAnalysis.AllStats, TimeAnalysis.TopPeakHours and
  TimeAnalysis.TopWorstHours require at least one closed trade. Without
  one the source reads attributes it never set and raises, and the model
  does not represent that exception.
- PerformanceScorer.RiskRewardBonus: reads only the `sl` and `tp` fields.
  The `stop_loss`/`take_profit` aliases do not exist on the trade record.
- PerformanceScorer.InsightsOf: strengths, weaknesses and advice are sets.
  The order of the source's deduplicated lists is not modelled.
- PerformanceScorer.GradeTrade: the ticket stays an integer rather than
  `str(ticket)`, and the score is not rounded.
- The trade direction test `.upper().startswith('B')` is modelled as the
  first character being `B` or `b`; other characters whose upper case is
  `B` are not considered.
