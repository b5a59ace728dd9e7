# Trading-strategy core in Dafny

A Dafny model of the analysis and portfolio core of a stock-screening and
portfolio-tracking application, with its properties proved. The application
analyses a fixed universe of Indian equities. It refreshes their performance
figures during market hours and builds monthly "Momentum Kings" and "Alpha
Titans" model portfolios from them. It tracks the value, peak return and
drawdown of those portfolios day by day and fires one-shot price alerts. Its
other parts covered here are:

- an equal-weight backtester;
- a buy/exit ledger for user portfolios;
- a rebalance planner in the browser, made of two reducers and the page's
  allocation arithmetic.

Each module follows one source file, or one job of `backend/jobs/schedule.js`:

| module | source |
|---|---|
| `Common` | shared helpers: `Option`, `toFixed(2)` as `Round2`, `parseInt` as `Trunc`, sums, ASCII upper-casing |
| `ScheduleHelpers` | `calculatePercentageChange` and `isMarketOpen` of the scheduler |
| `AlertChecks` | the price-alert job (class `AlertBook`, notifications as a ghost log) |
| `IntradayUpdate` | the intraday refresh job (its `bulkWrite` operation list) |
| `PerformanceTracking` | valuation, returns, peak and drawdown, daily history write |
| `PortfolioSelection` | threshold, filters, ranking, top 10, entry prices, new portfolio |
| `PortfolioJobs` | the performance and monthly-creation jobs over a portfolio store (class `PortfolioStore`) |
| `StockRecords` | the stock record the jobs read |
| `Analysis` | `backend/services/analysisService.js` |
| `LegacyAnalysis` | the older `services/analysisService.js` |
| `JobTracker` | `backend/services/jobTrackerService.js` (class `Tracker`) |
| `Backtest` | `backend/controllers/backtestController.js` |
| `CustomPortfolios` | `backend/controllers/customPortfolioController.js` (class `Ledger`) |
| `RebalanceContext` | `rebalanceReducer` of `RebalanceContext.jsx` |
| `RebalanceSlice` | the Redux slice `rebalanceSlice.js` (class `Slice`) |
| `RebalancePage` | the allocation effect, weight total and quote matching of `RebalancePage.jsx` |

State that the source updates in place is modelled as classes. Their methods
are proved equal to specification functions, and the properties are proved
about those functions. This covers the alert book, the model-portfolio store,
the job table, the custom-portfolio ledger and the Redux slice. Pure code
(formulas, filters, reducers, sorting) is modelled as functions.

Outside inputs become parameters:

- market data is given as maps and sequences;
- the clock is given as a day, hour, minute or timestamp;
- the outcome of a job is given directly.

Prices and percentages are `real`. `toFixed(2)` is rounding half away from
zero to cents.

**Stored momentum score.** One might expect a stored record's momentum score
to equal the 0.4/0.4/0.2 blend recomputed from its stored 3-month, 6-month and
1-year figures. The code does not guarantee this, because it rounds the
blend of the unrounded figures, while the stored figures are rounded one by
one. The model follows the code:

- `Analysis.StoredMomentumNearBlend` proves the stored score is within 0.01 of
  the recomputed blend.
- `Analysis.MomentumNotRecomputable` shows inputs where the two roundings
  differ.

The intraday job does store the rounded blend of the figures it stores.
`IntradayUpdate.Refresh` proves this for stored values already in cents.

## Model

| member | source | states |
|---|---|---|
| ScheduleHelpers.PercentChange | backend/jobs/schedule.js:13-16 | 0 when the old or new price is missing or zero; otherwise within half a cent of (new−old)/old·100, and always in cents |
| ScheduleHelpers.PercentChangeFollowsPrice | backend/jobs/schedule.js:13-16 | from a positive old price, a rise gives a change ≥ 0, a fall one ≤ 0, and no move exactly 0 |
| ScheduleHelpers.IsMarketOpen | backend/jobs/schedule.js:18-27 | open iff Monday–Friday and 09:00 ≤ time ≤ 15:40, both ends inclusive |
| AlertChecks.Evaluate | backend/jobs/schedule.js:45-57 | only `isActive` can change; it becomes false iff the alert was active and its price strictly crosses the target in its direction; no price, or a price equal to the target, leaves the alert untouched |
| AlertChecks.EvaluateAll | backend/jobs/schedule.js:45-58 | one alert out per alert in; each keeps every field but `isActive`, which stays true iff the alert was active and did not fire |
| AlertChecks.Notifications | backend/jobs/schedule.js:45-58 | at most one message per alert; each carries the non-zero live price of its ticker |
| AlertChecks.OneNotificationPerDeactivation | backend/jobs/schedule.js:45-58 | the number of notifications equals the number of alerts switched off; active alerts never increase |
| AlertChecks.NoRepeatNotification | backend/jobs/schedule.js:45-58 | a second check with the same prices sends nothing |
| AlertChecks.FiredAlertStaysSilent | backend/jobs/schedule.js:45-58 | a fired alert never fires again, at any later prices; two checks together notify at most once per active alert |
| AlertChecks.AlertBook.CheckAlert | backend/jobs/schedule.js:46-57 | the alert at that position becomes its evaluation and nothing else changes; one message with the live price is sent iff it fires |
| AlertChecks.AlertBook.RunAlertChecks | backend/jobs/schedule.js:31-60 | market closed: no alert and no notification changes; open: the alerts are the evaluated alerts and the log grows by exactly the fired alerts' notifications |
| IntradayUpdate.Refresh | backend/jobs/schedule.js:81-105 | perf1D is the percentage change from the previous close; every horizon moves by perf1D minus the old perf1D (missing read as 0) within half a cent, exactly when stored values are in cents; momentum is the rounded 0.4/0.4/0.2 blend |
| IntradayUpdate.RefreshTwice | backend/jobs/schedule.js:81-105 | refreshing again with the same quote leaves every performance figure as it was; with stored values in cents the whole update is the same |
| IntradayUpdate.IntradayOps | backend/jobs/schedule.js:75-107 | with no live quotes nothing is written |
| IntradayUpdate.UpdateFor | backend/jobs/schedule.js:84-105 | the `$set` built for one stock is its refresh |
| IntradayUpdate.IntradayRerunIsStable | backend/jobs/schedule.js:79-107 | a rerun on the refreshed records writes the same operations |
| IntradayUpdate.IntradayEventuallyStable | backend/jobs/schedule.js:79-107 | from any records, the operations are stable from the second run on |
| IntradayUpdate.OpsComeFromQuotedStocks | backend/jobs/schedule.js:81-107 | each operation is the refresh of a stock with a usable quote; no usable quote means no operation |
| IntradayUpdate.RunIntradayUpdate | backend/jobs/schedule.js:62-114 | market closed: no operation; open: exactly the operations of the stocks with a usable quote |
| PerformanceTracking.Contribution | backend/jobs/schedule.js:149-157 | a constituent with a live price and positive entry price is worth weight·price/entry; otherwise its weight |
| PerformanceTracking.UnpricedIsFlat | backend/jobs/schedule.js:147-158 | with no usable price the value is the initial value split evenly |
| PerformanceTracking.ValuationSplit | backend/jobs/schedule.js:147-158 | one priced constituent moves the value by its own return alone |
| PerformanceTracking.ComputeFigures | backend/jobs/schedule.js:159-164 | day and overall returns reproduce the values; peak ≥ old peak and ≥ current; drawdown ≤ 0, 0 at a new peak, and it is the Drawdown of the new value against the value at the new peak return; max drawdown ≤ old max and ≤ drawdown |
| PerformanceTracking.Drawdown | backend/jobs/schedule.js:162-163 | the peak value moved by the drawdown is the new value when the peak value is positive; 0 otherwise |
| PerformanceTracking.DrawdownNonPositive | backend/jobs/schedule.js:160-163 | the value never exceeds the peak value, so the drawdown is never positive |
| PerformanceTracking.FindDay | backend/jobs/schedule.js:174 | the first history entry of the day, or −1 iff there is none |
| PerformanceTracking.WriteHistory | backend/jobs/schedule.js:174-180 | a same-day entry is replaced in place, otherwise the entry is appended |
| PerformanceTracking.WriteHistoryKeepsOnePerDay | backend/jobs/schedule.js:174-180 | one entry per day is kept, and the day's entry is the new one |
| PerformanceTracking.WriteHistoryIdempotent | backend/jobs/schedule.js:174-180 | writing the same entry twice is writing it once |
| PerformanceTracking.Tracked | backend/jobs/schedule.js:145-181 | previous value is the old current value; the value is the valuation; the current and day returns, the peak and the max drawdown are those computed from the initial, previous and new values and the stored peak and drawdown; peak never falls; max drawdown never rises and is ≤ 0; the history gets today's return; the other fields are unchanged |
| PerformanceTracking.ComputeValue | backend/jobs/schedule.js:147-158 | the `+=` loop computes the valuation |
| PerformanceTracking.ReplayIsMonotone | backend/jobs/schedule.js:161-164 | over any run of days the peak return never falls and the max drawdown never rises |
| PortfolioSelection.SortAsc | backend/jobs/schedule.js:203 | ascending sort that is a permutation of its input |
| PortfolioSelection.RsThreshold | backend/jobs/schedule.js:203-204 | the threshold is one of the 6-month figures |
| PortfolioSelection.QuarterMeetsThreshold | backend/jobs/schedule.js:203-204 | at least n − ⌊3n/4⌋ stocks, and at least one, reach the threshold |
| PortfolioSelection.Candidates | backend/jobs/schedule.js:205 | the candidates are exactly the stocks meeting the strategy's filter |
| PortfolioSelection.SortDesc | backend/jobs/schedule.js:206 | descending by score and a permutation of its input |
| PortfolioSelection.CutKeepsBest | backend/jobs/schedule.js:206 | no stock cut after the tenth outscores the tenth |
| PortfolioSelection.Picks | backend/jobs/schedule.js:205-206 | at most 10 stocks, all eligible, by descending score, taken from the input; an eligible stock left out means 10 were taken, none scoring lower |
| PortfolioSelection.PicksProperties | backend/jobs/schedule.js:214-215 | the same properties for filter, any sort by score and slice |
| PortfolioSelection.FirstWithTicker | backend/jobs/schedule.js:198 | `find` returns the first stock with the ticker |
| PortfolioSelection.EntryPrice | backend/jobs/schedule.js:194-202 | the second-to-last recent close when there are two or more closes, else the stock's current price |
| PortfolioSelection.Entries | backend/jobs/schedule.js:194-210 | one constituent per pick, with its ticker, its score and its entry price |
| PortfolioSelection.NamesDiffer | backend/jobs/schedule.js:208-217 | the two strategies' portfolios of a month have different names |
| PortfolioSelection.NewPortfolio | backend/jobs/schedule.js:209-211 | the month's name for the strategy, active, generated on the run's date, initial and current value 100 per stock, history seeded with one 0% point, and no figure of the performance job set |
| PortfolioJobs.FindByName | backend/jobs/schedule.js:211 | the first portfolio with the name, or −1 iff none |
| PortfolioJobs.SetFields | backend/jobs/schedule.js:211 | an existing portfolio gets the written fields, and keeps the fields the update does not name |
| PortfolioJobs.Upsert | backend/jobs/schedule.js:211-220 | updates the named portfolio in place or appends it; others unchanged; names stay unique |
| PortfolioJobs.Deactivated | backend/jobs/schedule.js:193 | every portfolio is switched off and nothing else changes |
| PortfolioJobs.Proposal | backend/jobs/schedule.js:205-213 | a portfolio is proposed iff there is at least one pick; it is the new portfolio of the picks |
| PortfolioJobs.TwoUpserts | backend/jobs/schedule.js:207-222 | after deactivation and the two upserts, only the written portfolios are active |
| PortfolioJobs.CreatedStructure | backend/jobs/schedule.js:186-223 | names stay unique, none is lost, and every active portfolio is one written this month |
| PortfolioJobs.Created | backend/jobs/schedule.js:186-223 | no stocks: the collection is unchanged; otherwise at most two portfolios are added and no existing one is renamed |
| PortfolioJobs.MonthlyCreationActive | backend/jobs/schedule.js:186-223 | every active portfolio is this month's, with the month's name, 100 per stock and a 0% first point; at most one is active per strategy |
| PortfolioJobs.ActiveIsFresh | backend/jobs/schedule.js:186-223 | any one active portfolio is this month's |
| PortfolioJobs.MonthlyCreationCoverage | backend/jobs/schedule.js:205-222 | a strategy has an active portfolio iff it has at least one pick |
| PortfolioJobs.AllTracked | backend/jobs/schedule.js:145-182 | every portfolio is tracked in place |
| PortfolioJobs.PerformanceUpdateOutcome | backend/jobs/schedule.js:145-182 | names and active flags are kept; every peak never falls and every max drawdown never rises and stays ≤ 0 |
| PortfolioJobs.PortfolioStore.RunPerformanceUpdate | backend/jobs/schedule.js:134-184 | the store becomes every portfolio tracked, keeping the store invariant |
| PortfolioJobs.PortfolioStore.RunMonthlyCreation | backend/jobs/schedule.js:186-223 | the store becomes the deactivated store with both proposals upserted, keeping the invariant |
| Analysis.RawChange | backend/services/analysisService.js:6-9 | 0 for a missing or zero price; otherwise old·(1 + r/100) = new |
| Analysis.LastN | backend/services/analysisService.js:90-91 | `slice(-n)`: the last min(n, length) elements |
| Analysis.MarketPerf1Y | backend/services/analysisService.js:17-31 | 0 without market history; otherwise the change from its first to its last close |
| Analysis.Perfs | backend/services/analysisService.js:51-70 | each horizon is the change from the close 5, 21, 63 or 126 bars back (0 when it does not exist) or from the first bar |
| Analysis.HundredFiftyDayAverage | backend/services/analysisService.js:88-94 | the sum of the last 150 closes over 150, however few there are, to cents |
| Analysis.AvgVolume200Day | backend/services/analysisService.js:99-102 | the last 200 volumes' sum over 200, truncated toward zero |
| Analysis.AnalyzeTicker | backend/services/analysisService.js:49-107 | the ticker, and the quote's name, price, volume, market cap, averages, 52-week range, 3-month average volume (as the 50-day one), EPS and P/E, are copied; perf1D is present iff the quote has a change percent |
| Analysis.StoredAveragesOfHistory | backend/services/analysisService.js:88-102 | the stored 150-day average and 200-day average volume are those computed from the history |
| Analysis.StoredFiguresAreRounded | backend/services/analysisService.js:73-106 | every stored figure, alpha and the momentum score are the rounded raw values |
| Analysis.RecordsOf | backend/services/analysisService.js:45-48 | a ticker yields a record iff it has two or more bars and a quote |
| Analysis.AnalysisSound | backend/services/analysisService.js:33-117 | every result is the analysis of a universe ticker with usable data |
| Analysis.Analyze | backend/services/analysisService.js:33-117 | no more records than tickers |
| Analysis.AnalysisHas | backend/services/analysisService.js:33-117 | every usable ticker has its analysis among the results |
| Analysis.AnalysisOnePerTicker | backend/services/analysisService.js:33-117 | a universe without repeats gives one record per ticker |
| Analysis.AnalysisTickers | backend/services/analysisService.js:33-117 | every record carries a ticker of the universe |
| Analysis.ShortHistoryLeavesZero | backend/services/analysisService.js:51-66 | a history too short for a horizon leaves that figure at 0 |
| Analysis.StoredMomentumNearBlend | backend/services/analysisService.js:73-106 | the stored score is within 0.01 of the blend of the stored figures |
| Analysis.MomentumNotRecomputable | backend/services/analysisService.js:73-106 | some figures give a stored score different from the rounded blend of the rounded figures |
| Analysis.FlatHistoryAverage | backend/services/analysisService.js:88-94 | a flat history averages its close (scaled by length/150 when short) |
| Analysis.RunFullStockAnalysis | backend/services/analysisService.js:11-119 | the indexed loop computes the analysis of the universe |
| LegacyAnalysis.BarBackOrFirst | services/analysisService.js:68-71 | the bar k back, or the first bar when there is none |
| LegacyAnalysis.SixWeightBlend | services/analysisService.js:81 | equal inputs blend to that value; non-negative inputs give a non-negative score |
| LegacyAnalysis.LegacyPerfsOf | services/analysisService.js:62-79 | each figure is the change from its reference bar to the last close |
| LegacyAnalysis.LegacyAnalyzeTicker | services/analysisService.js:62-99 | price and volume are those of the last bar; each stored performance is the two-decimal rounding of that horizon's performance |
| LegacyAnalysis.ShortHistoryFallsBackToFirstBar | services/analysisService.js:68-71 | a short history makes that horizon equal the 1-year figure |
| LegacyAnalysis.LegacyScoreAndAlpha | services/analysisService.js:81-98 | score and alpha are the six-weight blend and perf1Y minus the market, to cents |
| LegacyAnalysis.LegacyRecordsOf | services/analysisService.js:52-60 | a ticker yields a record iff its history was fetched with two or more bars |
| LegacyAnalysis.LegacySkipRule | services/analysisService.js:49-106 | every usable ticker has its record among the results |
| LegacyAnalysis.LegacyAnalyze | services/analysisService.js:49-106 | no more records than tickers |
| LegacyAnalysis.LegacyAnalysisSound | services/analysisService.js:49-106 | every result belongs to a universe ticker with a usable history |
| LegacyAnalysis.LegacyRunFullStockAnalysis | services/analysisService.js:21-110 | the loop computes the legacy analysis of the universe |
| JobTracker.InitialStatuses | backend/services/jobTrackerService.js:4-10 | the five job names, each Idle, never run, without error |
| JobTracker.InitialHasFiveJobs | backend/services/jobTrackerService.js:4-10 | the table starts with five distinct jobs |
| JobTracker.Started | backend/services/jobTrackerService.js:21 | Running, keeping the last run and error; an unknown job has neither |
| JobTracker.Finished | backend/services/jobTrackerService.js:23-30 | OK iff it returned, Failed with the message iff it threw; last run is now |
| JobTracker.RunTouchesOnlyItsJob | backend/services/jobTrackerService.js:18-32 | only the job's entry changes; it ends OK or Failed at the run's time; success clears the error |
| JobTracker.AfterRun | backend/services/jobTrackerService.js:18-32 | the table gains at most the job's own entry, which becomes the finished status; every other entry is unchanged |
| JobTracker.RunsOfDifferentJobsCommute | backend/services/jobTrackerService.js:18-32 | runs of two different jobs commute |
| JobTracker.Tracker.TrackJob | backend/services/jobTrackerService.js:18-32 | the table becomes the run's outcome table |
| JobTracker.Tracker.Begin | backend/services/jobTrackerService.js:21 | only the job's entry changes, to Running with its last run and error kept |
| JobTracker.Tracker.Complete | backend/services/jobTrackerService.js:23-30 | only the job's entry changes, to OK or Failed at the run's time |
| JobTracker.Tracker.GetJobStatuses | backend/services/jobTrackerService.js:38-40 | returns the table |
| Backtest.MonthsBack | backend/controllers/backtestController.js:8-22 | "6m" is 6 months, "1y" is 12, anything else 3 |
| Backtest.Settle | backend/controllers/backtestController.js:10-20 | a month outside 0–11 carries into the year and a day past the month's end rolls over, giving a valid date |
| Backtest.GetStartDate | backend/controllers/backtestController.js:6-24 | a valid date before today about k months back, exactly k months back on the same day when the day is ≤ 28 |
| Backtest.SplitCommas | backend/controllers/backtestController.js:33 | at least one part, and no part holds a comma |
| Backtest.SplitJoin | backend/controllers/backtestController.js:33 | joining the parts with commas gives back the string |
| Backtest.JoinSplit | backend/controllers/backtestController.js:33 | splitting comma-free parts joined with commas gives back the parts |
| Backtest.FetchAll | backend/controllers/backtestController.js:39-43 | one series per ticker, empty for a failed fetch |
| Backtest.NonEmpty | backend/controllers/backtestController.js:45 | keeps exactly the non-empty series; empty iff every series is empty |
| Backtest.NonEmptyOne | backend/controllers/backtestController.js:45 | one series is kept iff it is non-empty |
| Backtest.NonEmptyAppend | backend/controllers/backtestController.js:45 | the filter of a concatenation is the concatenation of the filters, so the kept series stay in order and keep their multiplicity |
| Backtest.Normalize | backend/controllers/backtestController.js:51-57 | dates kept; every price is close/first·100 |
| Backtest.NormalizedStartsAt100 | backend/controllers/backtestController.js:51-57 | the first point, and any at the first close, is 100 |
| Backtest.FlattenOrigin | backend/controllers/backtestController.js:61-62 | every grouped point comes from some stock's series |
| Backtest.DateOrder | backend/controllers/backtestController.js:60-68 | the map's keys in insertion order: exactly the dates, each once |
| Backtest.GroupCollectsPrices | backend/controllers/backtestController.js:60-68 | the keys are the dates, and each date holds every price on it, in order |
| Backtest.Entries | backend/controllers/backtestController.js:71-77 | one entry per date: the mean of its prices minus 100 |
| Backtest.InsertByDate | backend/controllers/backtestController.js:78 | one insertion step keeps every entry |
| Backtest.InsertKeepsOrder | backend/controllers/backtestController.js:78 | the insertion keeps the entries in date order |
| Backtest.SortByDate | backend/controllers/backtestController.js:78 | date order with the same entries; strictly increasing for distinct dates |
| Backtest.BadRequestWhenMissing | backend/controllers/backtestController.js:29-31 | 400 iff tickers or period is missing or empty |
| Backtest.Backtest | backend/controllers/backtestController.js:26-86 | 400 iff a parameter is missing or empty; a success carries the equal-weight returns of the fetched series |
| Backtest.NotFoundWhenNothingFetched | backend/controllers/backtestController.js:45-48 | 404 iff every listed ticker's series is empty |
| Backtest.ReturnsShape | backend/controllers/backtestController.js:51-78 | strictly chronological, one entry per trading date, each the equal-weight mean minus 100 |
| Backtest.FlatDateReturnsZero | backend/controllers/backtestController.js:71-77 | a date where every stock sits at its start shows return 0 |
| Backtest.PushSeries | backend/controllers/backtestController.js:62-67 | the inner loop adds one stock's points to the map and key order |
| Backtest.GroupByDate | backend/controllers/backtestController.js:60-68 | the nested loops build the grouping of all points |
| Backtest.GetBacktestData | backend/controllers/backtestController.js:26-86 | the handler's response is the backtest's |
| CustomPortfolios.OpenCostUpdate | backend/controllers/customPortfolioController.js:102-103 | replacing one trade changes the open cost by that trade's difference |
| CustomPortfolios.CreatePortfolio | backend/controllers/customPortfolioController.js:8-24 | 400 iff the name is empty, and then nothing changes; trades and known tickers are never touched |
| CustomPortfolios.AddStock | backend/controllers/customPortfolioController.js:65-93 | 404 iff the portfolio is not the user's or the upper-cased ticker is unknown, and then nothing changes; the number of portfolios is kept |
| CustomPortfolios.ExitStock | backend/controllers/customPortfolioController.js:95-126 | 404 iff there is no open trade of the user's with that id, and then nothing changes; otherwise one trade is added; the number of portfolios is kept |
| CustomPortfolios.CreateOutcome | backend/controllers/customPortfolioController.js:8-24 | 400 iff no name; otherwise one portfolio appended with nothing invested and value 0 |
| CustomPortfolios.AddStockOutcome | backend/controllers/customPortfolioController.js:65-93 | 404 iff the portfolio is not the user's or the upper-cased ticker is unknown; otherwise one open buy appended and totalInvested grows by quantity·price |
| CustomPortfolios.ExitOutcome | backend/controllers/customPortfolioController.js:95-126 | 404 iff no open trade of the user; otherwise the trade is closed with its P&L, a sell recorded, and totalInvested falls by quantity·buy price |
| CustomPortfolios.ExitTwiceFails | backend/controllers/customPortfolioController.js:98-101 | a trade can be exited only once |
| CustomPortfolios.AddThenExitRestoresInvestment | backend/controllers/customPortfolioController.js:87-121 | adding then exiting restores totalInvested and records (exit − price)·quantity |
| CustomPortfolios.CreateKeepsConsistent | backend/controllers/customPortfolioController.js:8-24 | creating keeps totalInvested equal to the open buys' cost |
| CustomPortfolios.AddKeepsConsistent | backend/controllers/customPortfolioController.js:65-93 | adding keeps totalInvested equal to the open buys' cost |
| CustomPortfolios.ExitKeepsConsistent | backend/controllers/customPortfolioController.js:95-126 | exiting keeps totalInvested equal to the open buys' cost |
| CustomPortfolios.Ledger.CreatePortfolioRequest | backend/controllers/customPortfolioController.js:8-24 | the ledger and reply are those of `CreatePortfolio`, and consistency is kept |
| CustomPortfolios.Ledger.AddStockRequest | backend/controllers/customPortfolioController.js:65-93 | the ledger and reply are those of `AddStock`, and consistency is kept |
| CustomPortfolios.Ledger.ExitStockRequest | backend/controllers/customPortfolioController.js:95-126 | the ledger and reply are those of `ExitStock`, and consistency is kept |
| RebalanceContext.Merge | stock-screener-frontend/src/context/RebalanceContext.jsx:28 | fields present in the updates override, the rest are kept |
| RebalanceContext.MergeIdempotent | stock-screener-frontend/src/context/RebalanceContext.jsx:28 | merging the same updates twice is merging once |
| RebalanceContext.Without | stock-screener-frontend/src/context/RebalanceContext.jsx:23 | keeps exactly the stocks with another id |
| RebalanceContext.WithoutAppend | stock-screener-frontend/src/context/RebalanceContext.jsx:23 | the filter works piecewise, so order is kept |
| RebalanceContext.UpdateAll | stock-screener-frontend/src/context/RebalanceContext.jsx:27-29 | same length; every match merged, the rest identical |
| RebalanceContext.UpdateUniqueAt | stock-screener-frontend/src/context/RebalanceContext.jsx:27-29 | with unique ids an update touches only that stock |
| RebalanceContext.BalancedWeights | stock-screener-frontend/src/context/RebalanceContext.jsx:31-36 | every weight becomes 100/n, nothing else changes, and the weights add up to 100 |
| RebalanceContext.BalancedIdempotent | stock-screener-frontend/src/context/RebalanceContext.jsx:31-36 | auto-balancing twice is auto-balancing once |
| RebalanceContext.OnlyUnknownActionsThrow | stock-screener-frontend/src/context/RebalanceContext.jsx:15-40 | the reducer throws iff the action type is not one of the five |
| RebalanceContext.Reduce | stock-screener-frontend/src/context/RebalanceContext.jsx:15-40 | throws iff the action type is unknown; only SET_TOTAL_AMOUNT changes the total amount, and it leaves the stocks alone |
| RebalanceContext.SetTotalOnlyChangesAmount | stock-screener-frontend/src/context/RebalanceContext.jsx:17-18 | only the total amount changes |
| RebalanceContext.AddAppendsOneBlank | stock-screener-frontend/src/context/RebalanceContext.jsx:19-21 | exactly one stock appended, id now, empty ticker, all numbers 0; the others unchanged |
| RebalanceContext.RemoveDropsEveryMatch | stock-screener-frontend/src/context/RebalanceContext.jsx:22-23 | no stock with the id remains, every other stock does, and an absent id changes nothing |
| RebalanceContext.UpdateMergesEveryMatch | stock-screener-frontend/src/context/RebalanceContext.jsx:24-30 | length kept; every match merged; non-matches identical |
| RebalanceContext.AutoBalanceSumsTo100 | stock-screener-frontend/src/context/RebalanceContext.jsx:31-36 | on a non-empty plan the weights add up to 100 and the amount is kept |
| RebalanceSlice.FirstIndex | stock-screener-frontend/src/redux/rebalanceSlice.js:58 | the first index with the id, or −1 iff there is none |
| RebalanceSlice.FirstMatchIsEveryMatch | stock-screener-frontend/src/redux/rebalanceSlice.js:57-62 | with unique ids the slice's update agrees with the context reducer's |
| RebalanceSlice.DuplicateIdsDiverge | stock-screener-frontend/src/redux/rebalanceSlice.js:57-62 | with a repeated id the slice updates only the first copy |
| RebalanceSlice.Slice.constructor | stock-screener-frontend/src/redux/rebalanceSlice.js:40-45 | total 100000, no stocks, status idle, no error |
| RebalanceSlice.Slice.SetTotalAmount | stock-screener-frontend/src/redux/rebalanceSlice.js:48-50 | only the total amount changes |
| RebalanceSlice.Slice.AddStock | stock-screener-frontend/src/redux/rebalanceSlice.js:51-53 | one zeroed row with unused cash 0 is pushed; nothing else changes |
| RebalanceSlice.Slice.RemoveStock | stock-screener-frontend/src/redux/rebalanceSlice.js:54-56 | the stocks become those with another id |
| RebalanceSlice.Slice.FindIndex | stock-screener-frontend/src/redux/rebalanceSlice.js:58 | the scan returns the first index with the id, or −1 |
| RebalanceSlice.Slice.UpdateStock | stock-screener-frontend/src/redux/rebalanceSlice.js:57-62 | the first match only is merged; no match changes nothing |
| RebalanceSlice.Slice.AutoBalanceWeights | stock-screener-frontend/src/redux/rebalanceSlice.js:63-70 | nothing on an empty list, otherwise every weight set to 100/n |
| RebalanceSlice.Slice.FetchPending | stock-screener-frontend/src/redux/rebalanceSlice.js:76-78 | status becomes loading, nothing else changes |
| RebalanceSlice.Slice.FetchFulfilled | stock-screener-frontend/src/redux/rebalanceSlice.js:79-83 | status succeeded, amount and stocks replaced, an earlier error kept |
| RebalanceSlice.Slice.FetchRejected | stock-screener-frontend/src/redux/rebalanceSlice.js:84-87 | status failed and the error recorded; the plan kept |
| RebalancePage.SharesToBuy | stock-screener-frontend/src/pages/Rebalance/RebalancePage.jsx:48 | shares·price = amount when the price is positive, else 0 shares |
| RebalancePage.AllocationChangesOnlyAmountAndShares | stock-screener-frontend/src/pages/Rebalance/RebalancePage.jsx:47-61 | amount·100 = total·weight, shares as above, all other fields unchanged |
| RebalancePage.NoDispatchIffAllAllocated | stock-screener-frontend/src/pages/Rebalance/RebalancePage.jsx:46-63 | a pass dispatches nothing iff every stock's amount and shares already match |
| RebalancePage.AllocatedIsStable | stock-screener-frontend/src/pages/Rebalance/RebalancePage.jsx:51 | an allocated stock needs no update, and a stock needing none is already allocated |
| RebalancePage.SecondPassDispatchesNothing | stock-screener-frontend/src/pages/Rebalance/RebalancePage.jsx:45-64 | after one pass a second pass dispatches nothing |
| RebalancePage.AllocationEffect | stock-screener-frontend/src/pages/Rebalance/RebalancePage.jsx:45-64 | dispatches exactly for the stocks that differ; the reducer reaches the new state without throwing; with unique ids every stock ends allocated |
| RebalancePage.BalancedWeightIsValid | stock-screener-frontend/src/pages/Rebalance/RebalancePage.jsx:66-124 | after auto-balance the total weight is 100, shown as valid |
| RebalancePage.AddedRowKeepsTotalWeight | stock-screener-frontend/src/pages/Rebalance/RebalancePage.jsx:66 | adding a row keeps the total weight |
| RebalancePage.AllocationKeepsTotalWeight | stock-screener-frontend/src/pages/Rebalance/RebalancePage.jsx:66 | the allocation keeps the total weight |
| RebalancePage.TotalWeight | stock-screener-frontend/src/pages/Rebalance/RebalancePage.jsx:66 | 0 for no stocks, and never negative when no weight is |
| RebalancePage.WeightShownValid | stock-screener-frontend/src/pages/Rebalance/RebalancePage.jsx:124 | shown valid iff the total lies in [99.9, 100.1] |
| RebalancePage.FindByTicker | stock-screener-frontend/src/pages/Rebalance/RebalancePage.jsx:21 | the first stock whose upper-cased ticker equals the upper-cased symbol, or −1 iff none |
| RebalancePage.QuotesChangeOnlyPrices | stock-screener-frontend/src/pages/Rebalance/RebalancePage.jsx:20-28 | only prices change, and a stock no quote matches keeps its price |
| RebalancePage.LastQuoteWins | stock-screener-frontend/src/pages/Rebalance/RebalancePage.jsx:20-28 | the last matching quote sets the stock's price |
| RebalancePage.MatchQuotes | stock-screener-frontend/src/pages/Rebalance/RebalancePage.jsx:18-29 | at most one price-only update per quote; with unique ids the stocks become the quoted stocks |
| RebalancePage.RequestTickers | stock-screener-frontend/src/pages/Rebalance/RebalancePage.jsx:37 | exactly the non-empty tickers |
| RebalancePage.FetchRequest | stock-screener-frontend/src/pages/Rebalance/RebalancePage.jsx:36-41 | a request is sent iff some ticker is non-empty, and it carries those tickers |
| RebalancePage.QuoteActions | stock-screener-frontend/src/pages/Rebalance/RebalancePage.jsx:20-28 | never more UPDATE_STOCK actions than quotes, and each one only sets a price |
| RebalancePage.RunQuoteActions | stock-screener-frontend/src/pages/Rebalance/RebalancePage.jsx:20-28 | with unique ids the reducer applies the quote updates without throwing and the stocks become the quoted stocks |
| RebalancePage.UpdatesNeverThrow | stock-screener-frontend/src/context/RebalanceContext.jsx:24-30 | a run of UPDATE_STOCK actions never reaches the throwing default case and keeps the total amount |
| RebalancePage.RunAllocationPrefix | stock-screener-frontend/src/pages/Rebalance/RebalancePage.jsx:45-64 | with unique ids, the updates dispatched for the first i stocks leave those i allocated and the rest as they were |

## Left out

- Market data and storage: Yahoo Finance and the database are not modelled. Their results are parameters (maps and sequences) and their writes are explicit output states or operation lists; `Promise.all` is modelled as sequential lookups.
- Dates and time zones: the Asia/Kolkata conversion, `new Date()` and `toDateString` are not modelled; the day, hour, minute, date key and timestamps are parameters.
- Floating point: prices are `real`. NaN and Infinity are excluded by preconditions (a trackable portfolio has stocks and a positive initial value; a backtest series has a non-zero first close). `toFixed(2)` is modelled as rounding half away from zero.
- Telegram: messages are not sent; a notification is an entry appended to a ghost log.
- `dailyUpdateLogic`, the `$set` upsert of the full analysis, is not modelled beyond the analysis it stores.
- LegacyAnalysis.LegacyAnalyzeTicker: the legacy service stores its figures as `toFixed` strings; the model stores them as the rounded numbers.
- Common.ToUpper: upper-casing covers ASCII letters only, with no Unicode case mapping.
- Server errors: the 500 responses for database failures are not modelled.
- Backtest.GetStartDate: the time of day is not modelled, nor the rare case where the modelled month index is one above k months back because the day rolled over.
- CustomPortfolios.CreatePortfolio: the schema's trimming of `portfolioName` is not modelled; an all-blank name is accepted.
- The record schemas are used only for field names; the portfolio record shape follows the fields the jobs write.
- The slice's save outcomes (`saveRebalanceStateThunk` fulfilled and rejected) only log messages and change no state, so no operation models them.
- PortfolioSelection.SortDesc: the relative order of stocks with equal scores (the stability of `Array.prototype.sort`) is not stated.
- RebalancePage.SecondPassDispatchesNothing: weights are always numbers in the model. Clearing the weight field stores `parseFloat("")`, which is NaN (RebalancePage.jsx:113); the amount computed from it at line 47 is NaN, and `stock.amount !== amountToInvest` at line 51 then holds on every pass, so the effect dispatches again each time and never settles. A second pass dispatches nothing only for numeric weights.
- RebalancePage.AllocationEffect: for the same NaN weight the pass dispatches for that stock every time; the model states the dispatch list and the reached state for numeric weights only.
- RebalancePage.TotalWeight: weights are always numbers in the model. A weight that is `NaN` or missing (which `|| 0` turns into 0) is not modelled.
- RebalancePage.MatchQuotes: quote prices are numbers; a quote without a price is not modelled.
- RebalancePage.AllocationEffect and RebalancePage.MatchQuotes: the final state is stated for unique ids; with repeated `Date.now()` ids only the dispatched actions are stated.
- Analysis.AnalyzeTicker: a quote without a daily change gives a missing daily change; the code stores `parseFloat(undefined)`, which is NaN, and every later `|| 0` reads it as 0, as it reads a missing value.
- Analysis.AnalysisSound: the existence of a source ticker for each result is stated with `exists`, not as a witness index.
