# Verified model of the trading platform's core

Dafny 4.11 models of the parts of the platform whose correctness lies in whole
runs, and proofs about them. `dafny verify dfyconfig.toml` checks everything.

* **Backtest engine** (`Candles`, `HistoricalFeed`, `FeedOrder`, `SimulatedClock`,
  `MarketDataView`, `BacktestLoop`, `BacktestSafety`, `NoLookahead`). The feed
  is a k-way merge on (close time, interval length, insertion count), the view
  a cursor that only moves forward, the loop ties them to the clock. Proved:
  every bar is delivered once and in order; what a strategy can see at a bar is
  exactly what was delivered with an earlier close; and, as non-interference, two
  data sets that agree up to a time give the same run up to that time for
  *every* strategy.
* **Position accounting** (`Fills`, `Position`, `LotBooks`, `Rounding`).
  Weighted-average cost against the cash statement of the fills and against lot
  books under every lot policy, of which FIFO and LIFO are two.
* **Backfill and gap repair** (`Backfill`, `BackfillRecovery`, `BackfillOutcome`,
  `GapDetection`, `GapAgreement`, `GapRescan`, `GapRecords`, `ScanRecovery`). A
  process that can die before any effect, with an atomic commit per page: every
  committed state, resumption, termination, what a call leaves row by row, the two
  gap detectors against each other, what a scan records and asks for, what a second
  scan finds, and that scans which died on the way do not matter to it.
* **Reconnect gap-fill** (`GapFillStream`, `ReconnectSafety`). The
  halt/fill/resume machine over every sequence of messages, reconnections and
  REST outcomes.
* **Indicators** (`Indicators`, `IncrementalIndicators`, `VectorizedIndicators`,
  `IndicatorEquivalence`, `IndicatorMeaning`). Floating-point operations are
  kept as uninterpreted terms, so "the same term" is "the same float64, bit for
  bit"; comparisons with zero are an arbitrary set of terms. The meaning over the
  reals is proved separately.
* **Event-sourced order** (`Orders`), **tearsheet measures** (`Metrics`),
  **simulated fills and fees** (`FillSimulation`), **funding** (`Funding`) and
  **archival** (`Archival`, `ArchivalReports`).

## How the model stands to the code

Datetimes are integers in microseconds (in `Archival`, calendar fields), UUIDs and
symbols opaque naturals, `Decimal` exact reals except where an error bound is
stated. Exceptions are `Result`/`Option` values. Objects with mutable fields are
classes, each method specified by a function of the old state; `await` chains have
one driver and become plain calls. The database is maps of candles and checkpoints
and a list of quality events, with a commit step; the venue is a fixed ascending
sequence of bars, file storage a map from path to content.

Where the code does less than its documentation says, the exact condition is
proved:

* `backfill_candles` treats a page shorter than `chunk_size` as the last one, but the
  venue returns at most 1000 bars. It fetches the whole range if and only if the
  range is empty or `chunk_size >= 1` and either `chunk_size <= 1000` or the range
  holds at most 1000 bars. A larger `chunk_size` on a longer range leaves the
  checkpoint completed for good, and every bar of the range stored only if those
  beyond the first page were stored already
  (`BackfillRecovery.FetchesWholeRangeIff`, `BackfillRecovery.CompletedMeansStored`).
* A rescan finds only the maintenance gaps exactly if every missing slot of
  every unexplained gap could be fetched; a completed checkpoint left over from an
  earlier run of the same range is one thing that prevents it
  (`GapRescan.RescanFindsOnlyMaintenance`). While every checkpoint tells the truth,
  as backfills with an honoured chunk size keep it, the only other thing is that
  the venue lacks the bar (`ScanRecovery.RecoveredIffVenueHas`).
* The streaming and the batch indicators agree except that the batch ATR and
  rolling volatility raise on no bars at all, and that only the streaming
  volatility raises on a close of zero that another close follows and, once
  warmed up, on a negative `periods_per_year`
  (`IndicatorEquivalence.AtrIsTheSame`, `IndicatorEquivalence.VolatilityIsTheSame`).
* The drawdown duration is documented as the time from a peak to its recovery, but
  the code stops one point before the recovery. The two agree if and only if some
  longest stretch is never recovered, or no time passes from the point before its
  recovery; with points a second or more apart, if and only if no recovered stretch
  is longer than the last, unrecovered one (`Metrics.DurationIsDocumentedIff`).

Behaviour that no documentation describes, with its exact condition:

* Realized profit alone differs between average cost, FIFO and LIFO by exactly the
  difference of the cost bases; only the total and the flat position agree
  (`LotBooks.TotalAgreesWithEveryLotPolicy`, `LotBooks.RealizedAloneDependsOnThePolicy`).
* A partial fill leaves an order on its lot size if and only if what the bar offered
  was whole lots or covered the order, and an order left off it never fills again
  (`FillSimulation.RemainderOnLotIff`, `FillSimulation.OffLotIsStuck`).
* The path of an archive file names neither the interval nor the kind of row. A row
  that is only in a file survives a later call if and only if that call finds no
  row of its own for the same path: another stretch of the month, another
  interval of the symbol, or its trade ticks otherwise overwrite it. The nightly
  job itself archives candles and then ticks to the same paths and keeps a
  month's candles exactly if there are no ticks of it to archive
  (`Archival.ArchivedRowSurvivesIff`, `Archival.NightlyConservesIff`).
* No published bar hides an unfilled hole provided the connection counter never
  returns to zero, which the client sees to; if it did, the gap-fill of the next
  connection would be skipped (`ReconnectSafety.ReconnectIsFilled`,
  `ReconnectSafety.BackToZeroSkipsTheFill`).
* A re-delivered fill that would close is booked as a trade of zero: the trade list
  is that of the first deliveries if and only if there is none
  (`Metrics.RepeatsAddZeroTrades`).

## Model

| member | source | states |
|---|---|---|
| Candles.IntervalIsItsName | infrastructure/jobs/ohlcv_backfill_job.py:70-95 | the table of interval lengths is one to one and an unsupported name is kept, so modelling a timeframe by its length loses nothing |
| Candles.IntervalIsNumberTimesUnit | infrastructure/jobs/ohlcv_backfill_job.py:70-95 | exactly the fourteen names of the table are supported, and each spans the number in its name times its unit |
| HistoricalFeeds.HistoricalFeed.Open | infrastructure/backtest/historical_feed.py:131-140 | construction fails exactly if a non-empty series has an unsupported timeframe; otherwise the heap holds exactly the first bar of every non-empty series |
| HistoricalFeeds.HistoricalFeed.PushNext | infrastructure/backtest/historical_feed.py:142-149 | queues the series' next bar with the next insertion count, or leaves the heap alone when the series is spent |
| HistoricalFeeds.HistoricalFeed.Subscribe | infrastructure/backtest/historical_feed.py:151-154 | registers one handler for one series and changes no other |
| HistoricalFeeds.HistoricalFeed.Unsubscribe | infrastructure/backtest/historical_feed.py:156-157 | removes that series' handler only; removing an absent one is no error |
| HistoricalFeeds.HistoricalFeed.NextEvent | infrastructure/backtest/historical_feed.py:159-176 | delivers the least queued bar and queues its successor, keeping the heap invariant; exhausted exactly if nothing is queued; if that series has a handler it is called once, with the bar, and no other handler is called |
| HistoricalFeeds.HistoricalFeed.NextClosedEvent | infrastructure/backtest/historical_feed.py:178-196 | the same bar, given to the same handler, with its open time plus the length of the interval the bar names as its close; None exactly at exhaustion |
| HistoricalFeeds.NextIsValid | infrastructure/backtest/historical_feed.py:159-176 | the heap invariant (one entry per unfinished series, for its next bar, distinct counts) survives every pop |
| HistoricalFeeds.DrainStep | infrastructure/backtest/historical_feed.py:159-176 | every pop takes one bar off what remains, so draining the feed terminates |
| FeedOrder.EveryBarOnceInOrder | infrastructure/backtest/historical_feed.py:131-176 | restricted to any series, the stream is exactly that series: nothing lost, repeated or reordered |
| FeedOrder.HandlerHearsItsSeries | infrastructure/backtest/historical_feed.py:151-176 | over the whole stream a handler subscribed to one series alone is called with exactly that series' bars, once each, in order |
| FeedOrder.EventsInOrder | infrastructure/backtest/historical_feed.py:131-176 | the stream never goes back in close time, and at one close time shorter intervals come first |
| FeedOrder.ContainedBarsFirst | infrastructure/backtest/historical_feed.py:131-176 | a bar comes only after every loaded shorter bar its span contains |
| FeedOrder.SeriesOrderDoesNotMatter | infrastructure/backtest/historical_feed.py:131-149 | two mappings that list the same series in different orders deliver the same bars with the same sequence of (close, length) |
| SimulatedClocks.SimulatedClock.AdvanceTo | infrastructure/clock.py:110-116 | refuses exactly a strictly earlier time and then keeps the old one |
| MarketDataViews.CursorMarketDataView.Advance | infrastructure/backtest/market_data_view.py:121-131 | moves every cursor past the bars closed strictly before the time, series by series; at an unsupported timeframe it stops with the earlier series already moved |
| MarketDataViews.CursorMarketDataView.Bars | infrastructure/backtest/market_data_view.py:133-139 | the end of what is revealed under the key, as long as asked for or all of it; nothing for n <= 0 or an unknown key |
| MarketDataViews.AdvanceForgetsThePath | infrastructure/backtest/market_data_view.py:121-131 | however the cursor got there, after advancing to a time it shows what one call with that time would show |
| MarketDataViews.StaysBehind | infrastructure/backtest/market_data_view.py:121-131 | time moving forward never leaves a cursor ahead of the clock |
| BacktestLoops.RunBacktest | application/backtest/loop.py:167-233 | the loop over feed, clock and view computes the run of the merged stream and makes exactly its calls out, every `on_data` directly after its own bar's pending fills; the subscribed handlers have had exactly the bars that came out; the result lists the processed bars, signals produced are the bars whose signal was forwarded, produced plus discarded all bars with a signal, opportunities the bars after the warmup |
| BacktestLoops.DeliverBar | application/backtest/loop.py:195-233 | one iteration up to `on_data`: the pending fills, if given, and then `on_data` with the bar, both with clock and view at the bar's close; on an exception neither is called |
| BacktestLoops.CallsBarByBar | application/backtest/loop.py:195-233 | in any run, after all calls of the earlier bars come those of a bar, in this order: its pending fills, `on_data`, and `on_signal` exactly for a forwarded signal, each callback only if given, the first two with clock and view at its close |
| BacktestLoops.CallsHaveFillsBeforeData | application/backtest/loop.py:180-211 | the documented step order over whole runs: every `on_data` comes directly after the pending fills of its own close |
| BacktestLoops.ErrorsStick | application/backtest/loop.py:195-233 | an exception ends the run: no later event is processed |
| BacktestSafety.ViewIsThePast | application/backtest/loop.py:195-215 | at every bar, what is reachable under any key is exactly that key's events delivered so far whose close is strictly before the current close |
| BacktestSafety.BarsEndWithTheLatest | infrastructure/backtest/market_data_view.py:121-139 | what `bars` returns at a bar of a run ends with the latest earlier event of the key that closed strictly before it, and is empty exactly if there is none |
| BacktestSafety.RunStopsAtTheFirst | application/backtest/loop.py:195-233 | on any stream at all, ordered or not, a run processes events up to the first that closes too early or has an unsupported interval or data set, and raises a clock regression or a ValueError there accordingly; up to there each close is the bar's own and signals are forwarded by the warmup rule |
| BacktestSafety.OrderedRunIsFaithful | application/backtest/loop.py:195-233 | on any ordered stream the clock never regresses, and each record holds the bar's close, the revealed past, the strategy's answer to its whole history and the warmup rule |
| BacktestSafety.WellKeyedRunSucceeds | application/backtest/loop.py:167-233 | with series ascending and each bar's interval its key's timeframe, no exception is raised, every event is processed, and `on_signal` fires exactly for the non-null signals after the first `warmup_bars` bars |
| NoLookaheads.NoLookahead | application/backtest/loop.py:195-233 | two data sets that agree on all bars closed by a cutoff give every strategy the same bars, the same view contents and the same signals up to the cutoff, whatever comes later |
| NoLookaheads.SameEarlyEvents | infrastructure/backtest/historical_feed.py:142-176 | the merge's output up to a cutoff does not depend on bars that close after it |
| NoLookaheads.SameSnapshot | infrastructure/backtest/market_data_view.py:121-139 | what the view shows at a time does not depend on bars that close after it |
| Fills.FirstDeliveries | domain/position.py:79-84 | the history with repeats of an id dropped has the same ids, each once |
| Fills.FirstDeliveriesAreFirst | domain/position.py:79-84 | what is kept is a subsequence in order, and of every id the first copy |
| Fills.SumsOrderFree | domain/fill.py:60-70 | the cash statement and the net quantity of a history do not depend on its order |
| Positions.FillMovesTotal | domain/position.py:73-123 | every branch (open, add, reduce, close, flip) moves the total profit at any mark by exactly what the fill is worth at that mark, fee included |
| Positions.CaseByCase | domain/position.py:73-123 | every field after a fill, case by case: a repeat, another currency (which is named first), opening, adding, reducing, closing, flipping |
| Positions.RepeatsAreIgnored | domain/position.py:73-84 | replaying a history with fills re-delivered anywhere later equals replaying first deliveries; the only failure is a first delivery in another currency |
| Positions.TotalIsCash | domain/position.py:73-123 | for every history and mark, realized plus unrealized equals the cash statement, and the quantity is the net of the fills |
| Positions.TotalIsOrderFree | domain/position.py:73-123 | reordering distinct fills changes neither holding nor total; realized alone agrees when flat |
| Positions.EntryIsAnAverage | domain/position.py:88-113 | an open position's average entry lies between the lowest and highest price filled |
| LotBooks.CloseConserves | domain/position.py:9-18 | closing against lots conserves quantity, books proceeds minus the cost that left, and leaves a remainder only when no lot is left, for every policy |
| LotBooks.BookTotalIsCash | domain/position.py:9-18 | every lot policy's book has the cash statement's total and quantity |
| LotBooks.TotalAgreesWithEveryLotPolicy | domain/position.py:9-18 | the position's total equals the lot book's under every policy; realized parts differ exactly by the cost bases and agree when flat |
| LotBooks.FifoAndLifoAgree | domain/position.py:9-18 | the documented instance: FIFO and LIFO totals equal the position's at every mark |
| LotBooks.RealizedAloneDependsOnThePolicy | domain/position.py:9-18 | a three-fill history where FIFO has realized 30 and LIFO 10 |
| LotBooks.ApplyFillPools | domain/position.py:73-123 | apply_fill is: apply to a one-lot book under any policy, then melt the lots into one at their average price; a flat result has entry price 0, and currency and applied ids are as they must be, so every field is fixed |
| Rounding.DriftIsBounded | domain/position.py:86-121 | if every average-cost quotient is off by at most eps, the cash identity drifts by at most eps times the sizes held after opening and adding fills; reductions, closes, flips and repeats add nothing |
| Rounding.RoundedFillMovesTotal | domain/position.py:86-121 | one fill's share of that drift |
| Backfills.ComputeGaps | infrastructure/jobs/ohlcv_backfill_job.py:98-110 | the loop finds as many gaps as there are open times more than one step after the one before, boundary included, and for every such jump the pair of the two |
| Backfills.AsManyGapsAsJumps | infrastructure/jobs/ohlcv_backfill_job.py:98-110 | there is one gap for every jump of more than one step, and no other |
| Backfills.JumpIsAGap | infrastructure/jobs/ohlcv_backfill_job.py:98-110 | it goes from the open time before the jump, or the one carried over, to the jump's own |
| Backfills.FindGapsOverChunks | infrastructure/jobs/ohlcv_backfill_job.py:98-110 | gaps of chunks with the previous open time carried over are the gaps of the whole |
| Backfills.Session.UpsertCandles | infrastructure/jobs/ohlcv_backfill_job.py:179-219 | writes the bars into the open transaction only; dying loses them |
| Backfills.Session.SaveCheckpoint | infrastructure/jobs/ohlcv_backfill_job.py:146-176 | writes one checkpoint into the open transaction only |
| BackfillRecovery.RowsCarryTheCall | infrastructure/jobs/ohlcv_backfill_job.py:179-219 | every bar of a page is stored under its own open time with the job's source, closed exactly if it had closed by the call's clock |
| Backfills.BackfillCandles | infrastructure/jobs/ohlcv_backfill_job.py:222-329 | a process that may die before any effect leaves some whole number of committed pages; if it returns, exactly the uninterrupted result: at once if its own checkpoint row says completed, otherwise from one step after the last bar of that row, with the number of bars fetched, the gaps among them and the one before them, and completed exactly if it stands beyond the range; the loop terminates by `range_end - fetch_from` |
| BackfillOutcomes.CallLeaves | infrastructure/jobs/ohlcv_backfill_job.py:222-329 | row by row what a returning call leaves: every fetched bar under its own open time with the call's source and closed flag, the request's checkpoint at the last of them and at the call's clock, completed exactly if the last page was short or cut by the venue or the range has no room for another bar; nothing else changes, and nothing at all without a bar |
| BackfillOutcomes.InterruptedGapsAddUp | infrastructure/jobs/ohlcv_backfill_job.py:258-306 | however often a request is interrupted, the bars committed and the bars the next call fetches make up what one call fetches, and so do the gaps found, the one across the interruption included |
| BackfillRecovery.EveryCommittedState | infrastructure/jobs/ohlcv_backfill_job.py:222-329 | every state any schedule of crashes and restarts commits is the old table overridden by the venue's bars from the start of the range to the checkpoint, and no other checkpoint has moved |
| BackfillRecovery.CompletedMeansStored | infrastructure/jobs/ohlcv_backfill_job.py:222-329 | after any schedule of crashes and restarts of a fresh request, a completed checkpoint means every venue bar of the range is stored if and only if the chunk size is at most 1000, or the range holds at most 1000 bars, or the bars beyond the first 1000 were stored before; no later call for the range, of whatever chunk size, changes anything |
| BackfillRecovery.ExhaustedMeansWholeRange | infrastructure/jobs/ohlcv_backfill_job.py:222-329 | when nothing is left to fetch, for any chunk size, the table is the old one overlaid by exactly the venue's bars up to where the pages reach: the end of the range if none is skipped |
| BackfillRecovery.ExhaustedStoresRangeIff | infrastructure/jobs/ohlcv_backfill_job.py:222-329 | then every venue bar of the range is stored if and only if the bars the pages skip were stored before |
| BackfillRecovery.InterruptionsDoNotMatter | infrastructure/jobs/ohlcv_backfill_job.py:222-329 | any two schedules that reach the end leave the same rows and checkpoint but for clock readings |
| BackfillRecovery.ResumedEqualsUninterrupted | infrastructure/jobs/ohlcv_backfill_job.py:222-329 | crash as often as you like, the call that returns leaves what one uninterrupted call would |
| BackfillRecovery.CallStoresWholeRange | infrastructure/jobs/ohlcv_backfill_job.py:222-329 | a returning call on a fresh request, of any chunk size, overlays the venue's bars as far as its pages reach and touches nothing else; the whole range is stored if and only if the bars it skips were |
| BackfillRecovery.FetchedThenSkipped | infrastructure/jobs/ohlcv_backfill_job.py:222-329 | what a call fetches followed by what it skips is the venue's history of the range |
| BackfillRecovery.FetchesWholeRangeIff | infrastructure/jobs/ohlcv_backfill_job.py:222-329 | exactly when a call fetches all of the range, given the venue's cap of 1000 bars (infrastructure/venues/binance/client.py:122-141) |
| GapDetections.ExpectedOpenTimes | infrastructure/jobs/gap_detection.py:111-122 | exactly the moments of the window, both ends included, a whole number of steps after its start, one step apart in order |
| GapDetections.SlotsAre | infrastructure/jobs/gap_detection.py:111-122 | a moment is a slot exactly if it lies in the window a whole number of steps after its start |
| GapDetections.ClassifyGap | infrastructure/jobs/gap_detection.py:125-131 | maintenance exactly if some window has not ended before the run starts nor begins after it ends |
| GapDetections.GapsFromExpectedAndActual | infrastructure/jobs/gap_detection.py:134-166 | the sorted difference grouped into runs; each gap reaches from the first to the last slot of its run and is maintenance exactly if some window overlaps it |
| GapDetections.SortedMissing | infrastructure/jobs/gap_detection.py:146-146 | what is grouped is every expected time that is not stored, as often as it is expected, in ascending order |
| GapDetections.DetectGaps | infrastructure/jobs/gap_detection.py:169-202 | the same for the rows stored inside the window |
| GapDetections.RecordGaps | infrastructure/jobs/gap_detection.py:205-241 | appends one event per gap, in order, with the instrument, the interval, the gap's own start, end, slot count and classification and the time of detection, into the open transaction only; rows and checkpoints stay |
| GapDetections.RunGapScanAndBackfill | infrastructure/jobs/gap_detection.py:244-293 | records what was found, field by field, and returns it as found before any backfill; unexplained gaps are backfilled over their own range, maintenance ones never; a process that dies leaves nothing recorded, or all events recorded with the earlier gaps done and whole pages of the current one |
| GapRecords.RowsAreTheMissing | infrastructure/jobs/gap_detection.py:205-293 | the slots from start to end of the event rows a scan adds, one row after the other, are exactly the aligned moments of the window at which no candle of the instrument and interval is stored; no two rows could be one, each counts its slots, and it is flagged exactly if some window overlaps it |
| GapRecords.EveryGapIsRequested | infrastructure/jobs/gap_detection.py:279-291 | after a scan every unexplained gap has been asked for over its own range, in pages of 1000, unless that range was completed: its checkpoint stands at the last bar the venue has of what was left, at that call's clock, and all those bars are stored with the scan's source; a maintenance gap is left as it was |
| GapAgreement.RunsAreMaximal | infrastructure/jobs/gap_detection.py:146-156 | the runs are contiguous, no two neighbours could be joined, and together they are the missing slots |
| GapAgreement.MaximalRunsAreTheRuns | infrastructure/jobs/gap_detection.py:146-156 | there is only one such split, and the loop finds it |
| GapAgreement.DetectorsAgree | infrastructure/jobs/ohlcv_backfill_job.py:98-110 | with sentinels one step outside the window, boundary pairs and exhaustive runs correspond one to one in order: the run of (a, b) is the slots a+step .. b-step |
| GapAgreement.PresentIsTheStored | infrastructure/jobs/gap_detection.py:187-202 | the times boundary detection looks at are exactly the stored slots, ascending |
| GapRescan.StillMissing | infrastructure/jobs/gap_detection.py:267-293 | a slot is missing after the scan exactly if it was missing and no unexplained gap's backfill fetches it, decided from the database before the scan |
| GapRescan.HeldAfterGaps | infrastructure/jobs/gap_detection.py:279-291 | the same after any number of the gaps; backfills of different gaps do not disturb each other's checkpoints |
| GapRescan.RescanFindsOnlyMaintenance | infrastructure/jobs/gap_detection.py:244-293 | a second scan returns exactly the first scan's maintenance gaps if and only if every missing slot of the unexplained gaps is fetchable |
| GapRescan.CompleteVenueRepairsAll | infrastructure/jobs/gap_detection.py:244-293 | in particular it does when the venue has every missing bar and no range was started before |
| GapRescan.SchedulesKeepCheckpointsInRange | infrastructure/jobs/ohlcv_backfill_job.py:222-329 | no schedule of crashes and restarts leaves a checkpoint before its range, which the rescan result relies on |
| ScanRecovery.SchedulesKeepHonest | infrastructure/jobs/ohlcv_backfill_job.py:222-329 | no schedule of crashes and restarts with an honoured chunk size leaves a checkpoint that claims more than the table holds |
| ScanRecovery.NeverStartedIsHonest | infrastructure/jobs/ohlcv_backfill_job.py:123-143 | before any request for the series there is no such checkpoint |
| ScanRecovery.HonestFetches | infrastructure/jobs/gap_detection.py:279-291 | with such checkpoints a gap's backfill fetches a missing slot exactly if it lies in the gap and the venue has it, whatever earlier calls were for |
| ScanRecovery.SameClass | infrastructure/jobs/gap_detection.py:125-166 | when slots of unexplained gaps are filled, each slot still missing keeps its classification, although the runs change |
| ScanRecovery.DeathsOnlyRepair | infrastructure/jobs/gap_detection.py:244-293 | after any number of scans that died anywhere, a scan finds what was missing before them, classified as before, less unexplained slots the venue has |
| ScanRecovery.DeathsDoNotMatter | infrastructure/jobs/gap_detection.py:244-293 | the first scan that then runs through leaves exactly the missing slots, and a rescan finds exactly the gaps, that one undisturbed scan would have left |
| ScanRecovery.RecoveredIffVenueHas | infrastructure/jobs/gap_detection.py:244-293 | and these are only the maintenance gaps of before the first scan if and only if the venue has every slot of the unexplained ones |
| GapFillStreams.GapFillingCandleStream.constructor | infrastructure/venues/binance/gap_fill_stream.py:175-197 | starts unbound, running, with nothing known |
| GapFillStreams.GapFillingCandleStream.Bind | infrastructure/venues/binance/gap_fill_stream.py:199-202 | binding changes nothing else |
| GapFillStreams.GapFillingCandleStream.Publish | infrastructure/venues/binance/gap_fill_stream.py:204-212 | drops while halted, otherwise remembers the bar and passes it on |
| GapFillStreams.GapFillingCandleStream.HandleReconnect | infrastructure/venues/binance/gap_fill_stream.py:233-251 | fills from the last known bar to now; a failure is counted and leaves publication halted; with no known bar nothing is asked for |
| GapFillStreams.GapFillingCandleStream.OnMessage | infrastructure/venues/binance/gap_fill_stream.py:220-231 | raises exactly if never bound; otherwise a changed connection counter, other than the first, is handled before the frame |
| ReconnectSafety.EveryRunKeeps | infrastructure/venues/binance/gap_fill_stream.py:204-251 | after every run, whatever the counter does, the fields say what the log says: bars went out exactly when not halted, and every gap-fill started at the bar published last |
| ReconnectSafety.MessageByMessage | infrastructure/venues/binance/gap_fill_stream.py:204-251 | what each message of any run does: it asks for a gap-fill exactly if the counter changed from a counted value and a bar has been published, from that bar to its own arrival, and then a closed bar is dropped exactly if the stream stands halted; the failure count is the number of failed gap-fills |
| ReconnectSafety.NoHoleIsOpen | infrastructure/venues/binance/websocket_client.py:168-175 | with a counter that never returns to zero, as the client's: after every run, unless halted, the hole between the bar published last and the connection at hand has been filled for that very connection |
| ReconnectSafety.ReconnectIsFilled | infrastructure/venues/binance/gap_fill_stream.py:204-251 | between consecutive published bars of different connections lies a successful gap-fill asked for on the later bar's connection, from exactly the earlier bar's open time to the arrival of that connection's first message |
| ReconnectSafety.MissedBarIsStored | infrastructure/venues/binance/gap_fill_stream.py:118-163 | end to end: that gap-fill's backfill puts every bar missed from the earlier bar to that message into the candle table if the venue has it |
| ReconnectSafety.BackToZeroSkipsTheFill | infrastructure/venues/binance/gap_fill_stream.py:220-231 | a concrete run in which the counter returns to zero publishes over a hole nothing was asked for |
| ReconnectSafety.NothingForwardedWhileHalted | infrastructure/venues/binance/gap_fill_stream.py:204-251 | after a failed gap-fill no bar is published before one has succeeded |
| ReconnectSafety.DroppedOnlyWhileHalted | infrastructure/venues/binance/gap_fill_stream.py:204-212 | a bar is dropped exactly while the last gap-fill asked for had failed |
| ReconnectSafety.EveryClosedBarIsLogged | infrastructure/venues/binance/gap_fill_stream.py:204-231 | every closed bar that arrives is published or dropped, once, in order, under its own connection |
| ReconnectSafety.DroppedBarIsCovered | infrastructure/venues/binance/gap_fill_stream.py:204-251 | with open times never decreasing and never ahead of the clock, a dropped bar lies in the range of the gap-fill that ends its halt, before anything later is published |
| ReconnectSafety.DroppedBarIsStored | infrastructure/venues/binance/gap_fill_stream.py:118-163 | end to end: that gap-fill's backfill puts the dropped bar into the candle table if the venue has it |
| Indicators.TotalsAt | infrastructure/indicators/vectorized/indicators.py:155-156 | the running totals are those of the prefixes |
| IncrementalIndicators.RunningWindowSum.Push | infrastructure/indicators/incremental/indicators.py:135-140 | with at most period+1 totals kept, returns the difference of running totals over the last `period` values pushed, None before that many |
| IncrementalIndicators.IncrementalSMA.Update | infrastructure/indicators/incremental/indicators.py:163-167 | the SMA term of all bars fed so far |
| IncrementalIndicators.IncrementalRSI.Update | infrastructure/indicators/incremental/indicators.py:197-212 | the RSI term of all bars fed so far |
| IncrementalIndicators.IncrementalATR.Update | infrastructure/indicators/incremental/indicators.py:225-239 | the ATR term of all bars fed so far |
| IncrementalIndicators.IncrementalBollingerBands.Update | infrastructure/indicators/incremental/indicators.py:260-275 | the three band terms of all bars fed so far |
| IncrementalIndicators.IncrementalRollingVolatility.Update | infrastructure/indicators/incremental/indicators.py:330-343 | the volatility term of all bars fed so far; a division error that leaves the object as it was, or, once warmed up with a negative number of periods per year, the square root's ValueError |
| IncrementalIndicators.IncrementalEMA.Update | infrastructure/indicators/incremental/indicators.py:180-182 | the recurrence over all bars fed so far, from the first bar on |
| IncrementalIndicators.IncrementalMACD.Update | infrastructure/indicators/incremental/indicators.py:302-313 | the difference of two recurrences, the recurrence of that difference, and their distance, over all bars fed so far |
| VectorizedIndicators.CumSum | infrastructure/indicators/vectorized/indicators.py:155-155 | all running totals with a zero before them |
| VectorizedIndicators.RollingSum | infrastructure/indicators/vectorized/indicators.py:145-156 | entry i is the window term of the first i+1 values, NaN for the first period-1 |
| VectorizedIndicators.RollingMeanStd | infrastructure/indicators/vectorized/indicators.py:163-170 | mean and deviation terms of every prefix |
| VectorizedIndicators.Sma | infrastructure/indicators/vectorized/indicators.py:178-183 | refuses period < 1; otherwise the SMA term of every prefix |
| VectorizedIndicators.BatchRsi | infrastructure/indicators/vectorized/indicators.py:195-213 | refuses period < 1; otherwise the RSI term of every prefix |
| VectorizedIndicators.BatchAtr | infrastructure/indicators/vectorized/indicators.py:216-233 | refuses period < 1 and, by index error, no bars; otherwise the ATR term of every prefix |
| VectorizedIndicators.BatchBollinger | infrastructure/indicators/vectorized/indicators.py:242-251 | refuses period < 2; otherwise the band terms of every prefix |
| VectorizedIndicators.BatchVolatility | infrastructure/indicators/vectorized/indicators.py:280-293 | refuses period < 2 and, by index error, no closes; otherwise the volatility term of every prefix, NaN throughout with a negative number of periods per year |
| IndicatorEquivalence.SmaIsTheSame | tests/infrastructure/indicators/test_equivalence.py:106-117 | for every price sequence and period, streaming and batch SMA are identical at every bar, None exactly before `period` bars |
| IndicatorEquivalence.RsiIsTheSame | tests/infrastructure/indicators/test_equivalence.py:131-142 | the same for RSI, however comparisons with zero come out |
| IndicatorEquivalence.AtrIsTheSame | tests/infrastructure/indicators/test_equivalence.py:143-155 | the same for ATR, exactly except on no bars |
| IndicatorEquivalence.BollingerIsTheSame | tests/infrastructure/indicators/test_equivalence.py:156-174 | the same for all three bands |
| IndicatorEquivalence.VolatilityIsTheSame | tests/infrastructure/indicators/test_equivalence.py:191-201 | the same for rolling volatility, exactly except on no closes, a zero close that another follows, or a negative `periods_per_year` with at least `period` closes |
| IndicatorMeaning.WindowSumIsDirect | infrastructure/indicators/incremental/indicators.py:119-140 | over the reals the difference of running totals is the sum of the window |
| IndicatorMeaning.MeanIsAverage | infrastructure/indicators/vectorized/indicators.py:159-160 | over the reals the SMA is the average of the last `period` values |
| IndicatorMeaning.PopulationVariance | infrastructure/indicators/incremental/indicators.py:268-270 | mean square minus squared mean is the mean squared distance from the mean, hence never negative: the clamp never bites |
| IndicatorMeaning.SampleVarianceIsTextbook | infrastructure/indicators/vectorized/indicators.py:163-170 | the scaled value is the sum of squared distances over period-1 |
| IndicatorMeaning.BollingerIsTextbook | infrastructure/indicators/vectorized/indicators.py:242-251 | middle is the window average, the bands lie num_std textbook deviations on either side |
| IndicatorMeaning.VolatilityIsTextbook | infrastructure/indicators/vectorized/indicators.py:280-293 | the textbook deviation of the window's returns times the annualisation root, the returns being the relative changes wherever the close before is not zero; after a zero close there is no return |
| IndicatorMeaning.GainsAreRises | infrastructure/indicators/incremental/indicators.py:197-205 | what enters the gain window is the rise of the close, the loss window its fall, and nothing on the first bar |
| IndicatorMeaning.RsiIsTextbook | infrastructure/indicators/vectorized/indicators.py:195-213 | RSI lies in [0, 100], is 50 on a flat window, 100 without losses, and 100 - 100/(1+RS) otherwise |
| IndicatorMeaning.TrueRangeIsTheSpan | infrastructure/indicators/incremental/indicators.py:225-234 | true range is true high less true low, and high less low on the first bar |
| IndicatorMeaning.AtrIsTextbook | infrastructure/indicators/incremental/indicators.py:225-239 | ATR is the average true range of the window |
| IndicatorMeaning.EmaIsTextbook | infrastructure/indicators/incremental/indicators.py:143-151 | the recurrence used equals alpha*x + (1-alpha)*y with alpha = 2/(span+1), seeded with the first value, as its documentation claims |
| IndicatorMeaning.EmaStaysWithin | infrastructure/indicators/incremental/indicators.py:170-182 | an exponential average never leaves the range of the values it has seen |
| IndicatorMeaning.MacdIsTextbook | infrastructure/indicators/incremental/indicators.py:302-313 | over the reals the MACD line is the fast average less the slow one at every bar, the signal the average of the line, the histogram the line less the signal |
| Orders.Transition | domain/order.py:321-349 | succeeds exactly along the legal graph, changing status and update time alone and returning the event of the target state with the call's number, time and payload; otherwise names both states |
| Orders.LegalSources | domain/order.py:113-142 | the graph read backwards: fills may come in every working state, a pending cancel included; a cancel completes only a pending one; only terminal states and Unknown have no way out |
| Orders.Require | domain/order.py:199-208 | succeeds exactly if the key is there with the expected type, and then gives its value; otherwise tells a missing key from a wrong type |
| Orders.RequireOptional | domain/order.py:211-222 | fails exactly on a present value that is neither None nor of the expected type; otherwise the value, None if absent |
| Orders.InstancesOf | domain/order.py:46-59 | members of the string enumerations pass for strings too, no other value has two types |
| Orders.Decode | domain/order.py:378-396 | yields only well-typed terms, every one of the eleven read from its own payload key, an absent optional one as None |
| Orders.DecodesIff | domain/order.py:378-396 | a payload decodes exactly if the nine required keys have their types and the two optional ones, if present, are None or well typed |
| Orders.DecodeStopsAtTheFirst | domain/order.py:373-389 | a payload that does not decode is refused for the first of the eleven fields, in the order they are read, that is missing or mistyped, and the error says which |
| Orders.FromEvents | domain/order.py:352-408 | the fold over the log, with the first failure in order; an accepted order has its first event's order id, terms and time and its last event's time; the three refusals of a log as such come exactly for no events, a first one that is not created, and a first number other than 1 |
| Orders.RebuiltOrderIs | domain/order.py:351-408 | the order of any accepted log: every term is the created payload's entry under its own key, created with the first event, updated with the last, in the status the last event's type names |
| Orders.RejectedAtTheFirst | domain/order.py:361-406 | a rejected log is rejected at its first event, or at the first that does not carry on from an accepted prefix: by a number out of sequence, a second created event, or an illegal move, and the error says so |
| Orders.FailureIsFinal | domain/order.py:352-408 | a log that fails keeps failing the same way however it continues: acceptance is prefix-closed |
| Orders.RebuildOfLiveRun | domain/order.py:256-408 | rebuilding from the log of any legal live run gives back exactly the live order, through the payload encoding; that order has the id, terms and birth time it was created with, the last event's time, and the last move's target as status |
| Orders.LiveOrderIs | domain/order.py:256-349 | the same of every live order, whatever types its terms have |
| Orders.LiveLogIs | domain/order.py:256-349 | its log is the created event with every term under its own key and then one event per move, numbered from 1, each with the move's id, time, target and payload |
| Orders.AcceptedIsLive | domain/order.py:352-408 | every accepted log is, but for the later events' order_id and payload entries replay ignores, the log of a live run ending in the same order |
| Orders.AcceptedIffLive | domain/order.py:352-408 | and no other log is accepted |
| Orders.ReplayIgnores | domain/order.py:352-408 | what is put right in that comparison makes no difference to replay |
| Orders.NothingAfterTheEnd | domain/order.py:113-142 | no accepted log continues past a terminal or unknown event |
| Orders.FillsComeAfterAck | domain/order.py:113-142 | every fill, cancel or expiry comes after created, sent, acked, in that order |
| Metrics.ElapsedIsSuperadditive | application/backtest/metrics.py:199-204 | truncation only loses time: two stretches never measure more than the whole |
| Metrics.MaxDrawdownAndDuration | application/backtest/metrics.py:232-249 | the one pass computes the worst drop from the running maximum and the longest wait since it was first attained |
| Metrics.MaxDrawdownIsTheWorstPair | application/backtest/metrics.py:232-249 | that drop is the maximum of (e_i - e_j)/e_i over all pairs i <= j, lies in [0, 1], and is below 1 exactly if equity never reaches zero |
| Metrics.DurationIsTheLongestWait | application/backtest/metrics.py:232-249 | the duration the code measures is the longest time, over all points, since the running maximum was first attained: attained at some point, exceeded at none |
| Metrics.DurationIsDocumentedIff | application/backtest/metrics.py:233-236 | it never exceeds the documented peak-to-recovery duration, and equals it exactly if some longest documented stretch is never recovered or measures the same up to the point before its recovery; with points a second or more apart, exactly if no recovered stretch is longer than the last, unrecovered one |
| Metrics.RecoveryIsNotMeasured | application/backtest/metrics.py:241-248 | 100, 90, 110 at days 0, 10, 20: the code measures 10 days, the documented duration is 20 |
| Metrics.ReplayFills | application/backtest/metrics.py:252-279 | the replay in stable time order, or the first currency mismatch |
| Metrics.LastTrade | application/backtest/metrics.py:269-273 | exactly a fill against the position is a trade, and its value is what it closes at the difference to the entry, less the fee; nothing for a repeat |
| Metrics.DaysAreTimeHeld | application/backtest/metrics.py:266-277 | days in market are the sum of the stretches after each fill that leaves the net quantity of the history non-zero, the one to the end of the curve included |
| Metrics.SortIsSorted | application/backtest/metrics.py:266-266 | sorting keeps every fill and puts them in time order |
| Metrics.SortKeepsTies | application/backtest/metrics.py:266-266 | sorting is stable: fills of one moment keep their order |
| Metrics.TradesAccountForRealized | application/backtest/metrics.py:252-279 | trade profits less the fees of opening and adding fills are the position's realized profit, repeats adding nothing to either sum |
| Metrics.RepeatsAddZeroTrades | application/backtest/metrics.py:266-274 | against the first deliveries alone, the trade list has one zero more for each re-delivered fill that would close and otherwise the same trades in order; it is the same list exactly if there is none |
| Metrics.RoundTripTradesAreCash | application/backtest/metrics.py:252-279 | over a round trip they are the cash the fills moved |
| Metrics.DaysInMarketWithinTotal | application/backtest/metrics.py:252-279 | for exact quotients: with fills inside the curve's span, days in market lie between 0 and the total days despite truncation to whole seconds |
| Metrics.RoundedDaysWithinTotal | application/backtest/metrics.py:199-204 | if quotient and additions of each stretch are off by at most eps together, days in market exceed the total, or fall below 0, by at most eps for every stretch in the market |
| Metrics.InAndOutMakeTheWhole | application/backtest/metrics.py:252-279 | for exact quotients: days in and days out of the market never exceed the time to the last fill and fall short of it by at most a second for each fill; when fills come at whole seconds they make it up exactly |
| Metrics.RoundedInAndOut | application/backtest/metrics.py:252-279 | with every stretch off by at most eps, they are within eps and a second for each fill of that time |
| FillSimulation.TierForVolume | domain/fee_schedule.py:152-158 | the qualifying tier with the highest threshold; none exactly if none qualifies |
| FillSimulation.EveryVolumeHasATier | domain/fee_schedule.py:139-158 | a valid schedule has a tier for every non-negative volume, with non-negative rates |
| FillSimulation.DefaultSlippage | domain/fill_simulation.py:135-143 | never negative on non-negative inputs, zero with zero spread and volatility |
| FillSimulation.FillIsBounded | domain/fill_simulation.py:213-272 | a fill is within the remaining and the available quantity, its notional between minimum and balance (so the Fill checks cannot fail), and a non-negative slippage model never improves the price |
| FillSimulation.RefusedIff | domain/fill_simulation.py:206-229 | exactly when each error, a PRECISION rejection or an unfilled result comes, over all inputs, the last with all that was left |
| FillSimulation.OutcomeIff | domain/fill_simulation.py:226-272 | and otherwise when it is rejected for its notional or the balance, fails for want of a tier, or is filled, and what the fill then holds: the smaller of what is left and what is offered, at the open moved by the slippage for the whole remainder's share of the volume, its time and the remainder |
| FillSimulation.DefaultSlippageCostsTheSpread | domain/fill_simulation.py:135-143 | with the default slippage, a buy pays over a sell of the same remainder at the same bar the whole spread and twice the impact |
| FillSimulation.FeeOfFill | domain/fee_schedule.py:152-181 | the fee is the notional at the maker or taker rate of the last tier whose threshold the volume reaches, in the quote currency, never negative |
| FillSimulation.NeverOverfills | domain/fill_simulation.py:213-272 | over any bars, filled plus remaining is the order quantity, never overfilled, and the fills' net position is the filled quantity, signed |
| FillSimulation.WholeLotsStayWhole | domain/fill_simulation.py:213-235 | if order and available quantities are whole lots, so is the remainder at every bar, and PRECISION is never returned |
| FillSimulation.RemainderOnLotIff | domain/fill_simulation.py:227-235 | an executed call leaves whole lots exactly if the bar's available quantity covers what remained or is itself whole lots |
| FillSimulation.PrecisionIffOffLot | domain/fill_simulation.py:213-225 | PRECISION is returned exactly for a proper call with an off-lot remainder |
| FillSimulation.OffLotIsStuck | domain/fill_simulation.py:213-235 | an off-lot remainder never fills again |
| FillSimulation.HalfALotStrandsTheOrder | domain/fill_simulation.py:227-235 | a one-lot order meeting half a lot of volume gets into that state |
| Funding.FundingAccrualTracker.Accrue | domain/fee_schedule.py:212-238 | one payment per boundary crossed, the k-th stamped opened_at + k*interval and each of the amount -(quantity * mark * rate); times already paid for pay nothing; the loop terminates |
| Funding.AccrueAll | domain/fee_schedule.py:194-238 | over any sequence of calls the k-th payment is stamped exactly opened_at + k*interval for k = 1..n, no call has reached the boundary after the n-th, and each is paid at the quantity, mark and rate of the first call that reached its boundary |
| Funding.PaidAfterIsLatest | domain/fee_schedule.py:194-238 | n is floor((latest time seen - opened_at)/interval), 0 before opening, also when times go backward |
| Funding.SplittingChangesNoStamp | domain/fee_schedule.py:212-238 | after any earlier calls, splitting a call into several at earlier times changes no stamp |
| Archival.MonthBoundaries | infrastructure/jobs/parquet_archival_job.py:172-190 | the cursor loop cuts the range exactly where calendar months begin |
| Archival.CutTiles | infrastructure/jobs/parquet_archival_job.py:172-190 | the windows are adjacent, non-empty, each inside one month, from the start to the end of the range |
| Archival.ExactlyOneWindow | infrastructure/jobs/parquet_archival_job.py:172-190 | a moment lies in exactly one window if it is in the range and in none otherwise |
| Archival.Storage.ArchivePartition | infrastructure/jobs/parquet_archival_job.py:256-319 | rows are deleted only after the file read back; a checksum failure deletes nothing |
| Archival.Storage.ArchiveCandles | infrastructure/jobs/parquet_archival_job.py:322-387 | one partition per month with rows of the interval, reported in order |
| Archival.Storage.ArchiveTradeTicks | infrastructure/jobs/parquet_archival_job.py:390-452 | the same over the tick table, to the same paths |
| Archival.Storage.RunNightlyArchival | infrastructure/jobs/parquet_archival_job.py:455-498 | candles first, then ticks of what the first left, over the same range, each returning its own partitions |
| Archival.ArchiveCandlesConservesRows | infrastructure/jobs/parquet_archival_job.py:322-387 | every row its month's file did not hold before is afterwards in exactly one of the table and that file, verified, with its data unchanged; a failed month stays in place and blocks no other |
| Archival.FileOfWindow | infrastructure/jobs/parquet_archival_job.py:256-319 | what a call leaves at each month's path: exactly that window's rows, or the old file if there were none |
| Archival.FileAfterCall | infrastructure/jobs/parquet_archival_job.py:256-319 | what any path holds after a call: if the call finds a row for it, exactly the rows it selects there, provided they read back; otherwise what it held |
| ArchivalReports.CallMoves | infrastructure/jobs/parquet_archival_job.py:322-387 | a call moves exactly the rows of its instrument, series and range whose path reads back, each to the path of its venue, symbol, year and month; every other row stays |
| ArchivalReports.CallReports | infrastructure/jobs/parquet_archival_job.py:278-319 | a call reports, by month, exactly the months it finds such rows for, with their number, and checksum and deletion exactly if the month's path reads back |
| ArchivalReports.BeforeIsByFields | infrastructure/jobs/parquet_archival_job.py:185-187 | moments compare by year, month and time in the month |
| Archival.ArchivedRowSurvivesIff | infrastructure/jobs/parquet_archival_job.py:357-364 | a row that is only in a file survives a later call of any instrument, series and range if and only if that call finds no row for the path |
| Archival.SecondCallOverwritesIff | infrastructure/jobs/parquet_archival_job.py:357-364 | a row one call archived is in neither table nor file after a second one exactly if the second finds a row for its path |
| Archival.LaterCallOverwrites | infrastructure/jobs/parquet_archival_job.py:421-428 | so any second call that finds a row of the month the first did not take (a later stretch, another interval, a tick) loses the first call's rows |
| Archival.NightlyConservesIff | infrastructure/jobs/parquet_archival_job.py:455-498 | the nightly job conserves every tick it archives, and a candle it archives exactly if it has no tick of the candle's month to archive |
| Archival.RerunChangesNothing | infrastructure/jobs/parquet_archival_job.py:66-74 | the documented idempotence: once a call has had no checksum failure, the same call writes, deletes and reports nothing |
| Archival.RetryArchivesTheFailed | infrastructure/jobs/parquet_archival_job.py:57-65 | a retry archives exactly the failed months: two calls leave what one call leaves in which only the paths that failed both times fail |

## Left out

- HTTP, WebSocket, SQL, Parquet and hashing: a venue request is a page of a fixed history, a hash matches exactly if the content does, the database is its tables as values, with a commit.
- Rate limits, backoff, the staleness watchdog, secrets, metrics counters, logging, the strategy registry, run registry and reference-data jobs: input/output or short branches.
- Decimal precision beyond `Rounding` and `Metrics.RoundedDaysWithinTotal`: quotients elsewhere are exact; context overflow is not modelled.
- Float64 itself: operations are uninterpreted terms, so NaN and infinity arising inside an indicator (rather than as the warmup prefix) and the tie rules of max on signed zeros are not modelled.
- The batch EMA and MACD: they are Polars' `ewm_mean`, which is not part of this model, so the streaming ones are not compared with them.
- Batch indicators on series of different lengths (`atr`) and on Polars containers.
- Metrics.DaysInMarketWithinTotal: stated for exact quotients, because 28-digit ones can exceed the total; `Metrics.RoundedDaysWithinTotal` bounds by how much.
- CAGR, Sharpe, Sortino, Omega and the tearsheet's ratio expressions: roots and quotients with little structure.
- The binary layout of the feed's heap: it is a map from series to entry, and a pop takes its least entry.
- Loading a data set by id: the feed, the view and the clock are given to the loop fresh.
- HistoricalFeeds.HistoricalFeed.NextEvent: handlers only record that they were called, because what they do is outside the feed.
- `process_pending_fills` and `on_signal` of the loop: that, when and with what they are called is modelled, what they do is not.
- Order and venue-fill identifiers on fills, and the maker flag, which accounting never reads.
- Binance timestamps are whole milliseconds; the model's open times are exact.
- Backfills.BackfillCandles: does not count violations per gap, because a metrics counter is never read back; the number of gaps is returned.
- ScanRecovery.DeathsDoNotMatter: compares rows and gaps, not the event rows, because every scan that got to record its gaps has added its own.
- ReconnectSafety.DroppedBarIsStored: takes the gap-fill as the REST backfill alone, because the re-validation after it only reads and records.
- `on_partial_candle` and the latest partial candle: they do not touch publication.
- Dataset versions: a registry keyed by content hash.
- Archival.Storage.ArchiveCandles: does not model an exception in mid-call, because the months already committed are then a shorter range of windows, for which the conservation result holds as it stands.
- Funding.SplittingChangesNoStamp: compares stamps only, because the amount of a boundary is that of the call that first reaches it.
- Type guards against floats, and validation of currency codes.
