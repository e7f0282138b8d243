# crypto-pulse-bot, modelled in Dafny

crypto-pulse-bot is a Telegram bot that sells crypto trading signals.
The market worker runs on a timer. Each cycle asks the advanced signal
generator to scan a fixed list of symbols. The generator returns at most
one buy or sell signal per symbol, decided by an RSI/EMA rule on the last
two hourly candles, with take-profit and stop-loss levels at fixed
multiples of the close. Each new signal goes to the signal tracker, which
keeps at most one open signal per symbol and stores an OPEN row in the
signal history table. It is also broadcast to every PREMIUM user whose
comma-separated pair list contains the symbol, with a position size taken
from that user's deposit and risk. A second loop of the tracker checks
every open signal against the latest prices. It closes the history row
with TP or SL and its profit percentage, notifies the premium users and
drops the signal. An hourly checker downgrades PREMIUM users whose
subscription has run out.

The model also covers:
- the user handlers that edit a user's pair list, switch notifications on
  and off, and read the deposit and risk the user types;
- the multi-exchange market monitor: order book depth, trade flow,
  volume-weighted consensus price and price validation;
- the signal quality rater;
- the signal formatter.

Layout: one module per source file, plus three shared modules:
- `Common`: `Option`, `Result` (a value or a raised exception), `Abs`,
  `Min` and `list.remove`;
- `Text`: the Python `str` methods the bot uses, on ASCII text;
- `Signals`: the signal dict shared by the generator, the tracker and the
  worker.

The database tables are classes over sequences of rows (`UsersTable`,
`SignalHistoryTable`). The signal tracker is a class whose `active` list
its methods update. Every method that loops is proved against a pure
function over the old state, and the properties are proved about those
functions.

The exchange, the clock and the database calls that can fail are
parameters:
- a map from symbol to candles or to last price;
- `now` as an integer number of seconds;
- a set of symbols for which the PREMIUM-user query of
  `notify_all_premium` raises;
- sets of positions in a cycle's signal list at which `save_new_signal`
  or the PREMIUM-user query of `broadcast_signal` raises.

Each single Telegram send is wrapped in its own `try` in the tracker and
in the worker, so a failed send never stops a loop.

The model follows the code, with one exception: the status of a closed
signal, which the model records from the exit branch that fired rather
than from the text of the message (see Findings and "Left out").
Behaviour of the code worth knowing:
- Prices 100, 100.5 and 101.5 with volumes 10, 5 and 5 give a consensus of
  100.5 (`MarketMonitor.ConsensusExample`).
- A new user gets the column default "BTC/USDT,ETH/USDT", not the
  three-pair `DEFAULT_PAIRS`. `/start` only writes `DEFAULT_PAIRS` when the
  list is empty (`UserHandlers.NewUserKeepsColumnDefault`).
- The deposit/risk validator reads a comma as the decimal point, so
  "1,000" is 1.0 (`UserHandlers.ThousandsCommaIsDecimal`).

## Model

| member | source | states |
|---|---|---|
| Common.RemoveFirst | crypto-pulse-bot/handlers/user_handlers.py:145-146 | `list.remove`: removes exactly one element when present and changes nothing when absent |
| Common.RemoveFirstAt | crypto-pulse-bot/handlers/user_handlers.py:146 | removal takes out the first occurrence and keeps everything before and after it |
| Text.TrimLeft | crypto-pulse-bot/handlers/user_handlers.py:143 | leading whitespace: the result is a suffix of the input, everything cut off is whitespace, the result starts with a non-space, and text that already does is unchanged |
| Text.TrimRight | crypto-pulse-bot/handlers/user_handlers.py:143 | trailing whitespace: the result is a prefix of the input, everything cut off is whitespace, the result ends with a non-space, and text that already does is unchanged |
| Text.Strip | crypto-pulse-bot/handlers/user_handlers.py:143 | `str.strip()` yields a contiguous slice of the input with only whitespace before and after it in the input, has no surrounding whitespace itself, and leaves such text unchanged |
| Text.StripIdempotent | crypto-pulse-bot/handlers/user_handlers.py:143 | stripping twice is stripping once |
| Text.StripKeepsOut | crypto-pulse-bot/handlers/user_handlers.py:143 | stripping never introduces a character, so parsed pairs stay comma-free |
| Text.Split | crypto-pulse-bot/core/market_worker.py:125 | `str.split(sep)` returns at least one part and no part contains the separator |
| Text.SplitWithoutSep | crypto-pulse-bot/core/market_worker.py:125 | text without the separator splits into itself alone |
| Text.SplitAtFirstSep | crypto-pulse-bot/core/market_worker.py:125 | splitting cuts at the first separator and continues on the rest |
| Text.SplitJoin | crypto-pulse-bot/handlers/user_handlers.py:143-150 | splitting a join of separator-free parts gives back the parts |
| Text.JoinSplit | crypto-pulse-bot/handlers/user_handlers.py:143-150 | joining the parts of a split gives back the text |
| Text.Upper | crypto-pulse-bot/core/market_worker.py:136 | `str.upper()` keeps the length and upper-cases each character |
| Text.ContainsAt | crypto-pulse-bot/analytics/signal_tracker.py:55 | a substring at any position makes `in` true |
| Text.ReplaceChar | crypto-pulse-bot/handlers/user_handlers.py:259 | `str.replace` of one character keeps the length and replaces exactly the matching positions |
| Signals.DistinctWithout | crypto-pulse-bot/analytics/signal_tracker.py:58 | removing a signal from a list with distinct symbols keeps the symbols distinct |
| AdvancedSignalGenerator.DecideDirection | crypto-pulse-bot/core/advanced_signal_generator.py:36-49 | buy iff 10 < RSI < 40, EMA20 > EMA50 and the previous close is at or below its EMA20; sell iff the buy trend test fails, 60 < RSI < 90, EMA20 < EMA50 and the previous close is at or above its EMA20 |
| AdvancedSignalGenerator.NaNMeansNoSignal | crypto-pulse-bot/core/advanced_signal_generator.py:42-49 | a NaN indicator (fewer bars than the EMA length) never yields a direction |
| AdvancedSignalGenerator.MakeSignal | crypto-pulse-bot/core/advanced_signal_generator.py:51-64 | entry is the close; buy has TP at 1.03 and SL at 0.985 of it, sell has TP at 0.97 and SL at 1.015 |
| AdvancedSignalGenerator.LevelsBracketEntry | crypto-pulse-bot/core/advanced_signal_generator.py:52-61 | for a positive close, a buy has SL < entry < TP, a sell has TP < entry < SL, and the reward is twice the risk |
| AdvancedSignalGenerator.Analyze | crypto-pulse-bot/core/advanced_signal_generator.py:20-67 | no signal when the fetch fails or there are fewer than 20 candles; with at least 20 candles there is a signal iff the last two candles decide a direction, and it is the one `MakeSignal` builds from that direction and the last close |
| AdvancedSignalGenerator.CollectShape | crypto-pulse-bot/core/advanced_signal_generator.py:69-76 | a cycle yields at most one signal per scanned symbol, only for scanned symbols, and distinct symbols for a distinct symbol list |
| AdvancedSignalGenerator.RunAnalysisCycle | crypto-pulse-bot/core/advanced_signal_generator.py:69-76 | the loop returns the signals of the scanned symbols in scan order |
| Database.FindUser | crypto-pulse-bot/database.py:117-118 | finds a row with the user id, or reports that no row has it |
| Database.Expire | crypto-pulse-bot/database.py:50-62 | an expired PREMIUM user becomes FREE with no end date; any other user is unchanged; the result is never expired |
| Database.SweepRows | crypto-pulse-bot/database.py:44-64 | the sweep applies `Expire` to every row and keeps the row count |
| Database.ExpiredIdsExact | crypto-pulse-bot/database.py:50-59 | an id is reported iff some PREMIUM row with that id has an end date before now |
| Database.NothingExpired | crypto-pulse-bot/database.py:50-59 | with no expired row, nobody is reported |
| Database.SweepIdempotent | crypto-pulse-bot/database.py:44-65 | sweeping twice changes nothing more, and a second sweep reports nobody |
| Database.SetPairs | crypto-pulse-bot/database.py:128-134 | only the rows with the user id get the new pair list; nothing else changes |
| Database.GrantPremium | crypto-pulse-bot/database.py:137-147 | the rows with the user id become PREMIUM until now + 30 days; nothing else changes |
| Database.GrantSurvivesSweep | crypto-pulse-bot/database.py:137-147 | a granted user stays PREMIUM through every sweep within the 30 days |
| Database.GetOrCreate | crypto-pulse-bot/database.py:115-125 | an existing row is returned unchanged; otherwise a default row is appended and returned; unique ids stay unique |
| Database.OpenIndicesSound | crypto-pulse-bot/database.py:86-92 | every index found is an OPEN row for the symbol |
| Database.OpenIndicesComplete | crypto-pulse-bot/database.py:86-92 | every OPEN row for the symbol is found |
| Database.OpenIndicesAscending | crypto-pulse-bot/database.py:86-92 | the indices found are strictly increasing, so none is found twice |
| Database.OpenIndicesSpec | crypto-pulse-bot/database.py:86-92 | the OPEN rows for the symbol are found exactly, with no duplicates |
| Database.ProfitSigns | crypto-pulse-bot/database.py:101-104 | for a positive entry, a sell's profit is minus a buy's, a buy profits iff the exit is above the entry and a sell iff it is below |
| Database.CloseRowsSpec | crypto-pulse-bot/database.py:83-105 | `scalar_one_or_none` raises on two OPEN rows; no OPEN row changes nothing; a single OPEN row gets the exit, the status and the profit percentage, and every other row is untouched |
| Database.CloseRowsEffect | crypto-pulse-bot/database.py:83-105 | closing succeeds iff the symbol has at most one OPEN row and that row's entry is non-zero; then every OPEN row of the symbol is closed with the exit, the status and the profit, and every other row is unchanged |
| Database.CloseRowsKeepsIds | crypto-pulse-bot/database.py:94-105 | closing keeps the number of rows and every row's id, symbol and side |
| Database.UsersTable.constructor | crypto-pulse-bot/database.py:14-25 | the users table starts empty |
| Database.UsersTable.ExpireSubscriptions | crypto-pulse-bot/database.py:44-65 | the loop leaves the rows swept and returns the ids of the expired rows in table order |
| Database.UsersTable.GetOrCreateUser | crypto-pulse-bot/database.py:115-125 | the table and the returned user are those of `GetOrCreate`, and ids stay unique |
| Database.UsersTable.UpdateUserPairs | crypto-pulse-bot/database.py:128-134 | the table becomes `SetPairs` of the old table |
| Database.UsersTable.SetUserPremium | crypto-pulse-bot/database.py:137-147 | the table becomes `GrantPremium` of the old table |
| Database.UsersTable.IsUserBanned | crypto-pulse-bot/database.py:170-174 | true iff a row with the user id is banned |
| Database.SignalHistoryTable.constructor | crypto-pulse-bot/database.py:31-41 | the history starts empty |
| Database.SignalHistoryTable.SaveNewSignal | crypto-pulse-bot/database.py:69-79 | appends one OPEN row with the next id and returns that id |
| Database.SignalHistoryTable.CloseSignal | crypto-pulse-bot/database.py:83-105 | succeeds iff `CloseRows` does; the rows are then closed, otherwise they are unchanged |
| SignalTracker.Decide | crypto-pulse-bot/analytics/signal_tracker.py:41-51 | take-profit iff the price is at or beyond TP on the signal's side; stop-loss iff not take-profit and at or beyond SL; a side other than buy/sell never closes |
| SignalTracker.StatusOf | crypto-pulse-bot/analytics/signal_tracker.py:55 | TP for a take-profit and SL for a stop-loss |
| SignalTracker.StatusFollowsTakeProfitTest | crypto-pulse-bot/analytics/signal_tracker.py:41-55 | the recorded status is TP iff the take-profit test held |
| SignalTracker.TakeProfitTextGivesTP | crypto-pulse-bot/analytics/signal_tracker.py:44-55 | a take-profit message is always recorded as TP |
| SignalTracker.StopLossOnStakeRecordedAsTP | crypto-pulse-bot/analytics/signal_tracker.py:50-55 | as written, a stop-loss on STAKE/USDT is recorded as TP (see Findings) |
| SignalTracker.StatusTextAgrees | crypto-pulse-bot/analytics/signal_tracker.py:44-55 | the status as written ("TAKE" in the text) equals the status of the branch that fired whenever neither the symbol nor the printed price contains "TAKE" |
| SignalTracker.GeneratorSymbolsAgree | crypto-pulse-bot/analytics/signal_tracker.py:44-55 | for the three symbols the generator scans, the status as written equals the status of the branch that fired |
| SignalTracker.Step | crypto-pulse-bot/analytics/signal_tracker.py:34-61 | the pass goes on iff the symbol has a price and, when the exit rule fires, the history update succeeds and the PREMIUM-user query does not fail; going on, a closing signal's history row is closed by `close_signal_in_db` and the signal dropped, while a signal that does not close is kept with the rows unchanged; stopping keeps the signal and the rest, with the rows either unchanged or already closed |
| SignalTracker.PassAdvance | crypto-pulse-bot/analytics/signal_tracker.py:34-58 | the pass over a suffix is one step followed by the pass over the next suffix |
| SignalTracker.PassKeepsOrder | crypto-pulse-bot/analytics/signal_tracker.py:34-61 | after a pass the list is the survivors of the handled prefix followed by the unhandled rest, in the original order |
| SignalTracker.PassCompletes | crypto-pulse-bot/analytics/signal_tracker.py:34-61 | a pass completes iff every signal was handled; then every symbol had a price and exactly the signals that did not close remain |
| SignalTracker.PassClosesRows | crypto-pulse-bot/analytics/signal_tracker.py:34-58 | for signals of distinct symbols, after a pass every OPEN history row of a symbol that closed carries that closing's exit price, its status (TP iff the take-profit branch fired) and its profit, and every other row is unchanged; every new closing belongs to a signal of the pass |
| SignalTracker.PassCompletesWhenClosable | crypto-pulse-bot/analytics/signal_tracker.py:30-61 | a pass over distinct symbols completes when every symbol has a price and every closing signal has a closable history row and a working notification; then exactly the non-closing signals remain |
| SignalTracker.RemovedOnlyWhenClosed | crypto-pulse-bot/analytics/signal_tracker.py:53-58 | every closing the pass records is one the exit rule produced at that price, and closings and kept signals are only ever added |
| SignalTracker.Tracker.constructor | crypto-pulse-bot/analytics/signal_tracker.py:9-11 | the tracker starts with no active signals |
| SignalTracker.Tracker.AddSignal | crypto-pulse-bot/analytics/signal_tracker.py:13-20 | a symbol already active changes nothing and succeeds; otherwise a failing save raises and changes nothing, and a successful one saves one OPEN row and appends the signal |
| SignalTracker.Tracker.CheckSignal | crypto-pulse-bot/analytics/signal_tracker.py:35-58 | one loop iteration performs exactly one `Step` of the pass |
| SignalTracker.Tracker.PollPass | crypto-pulse-bot/analytics/signal_tracker.py:30-61 | one pass of the monitoring loop leaves the list, the history and the closings equal to `RunPass` on the old list |
| SignalTracker.ExampleTakeProfit | crypto-pulse-bot/analytics/signal_tracker.py:42-58 | a buy at 100 with TP 103 closes as TP at 103.2 and is dropped |
| SignalTracker.ExampleStopLoss | crypto-pulse-bot/analytics/signal_tracker.py:48-58 | the same buy closes as SL at 98 and is dropped |
| MarketWorker.PositionSize | crypto-pulse-bot/core/market_worker.py:16-28 | the size is never negative, and positive iff deposit, risk and entry are positive and the stop differs from the entry |
| MarketWorker.PositionRisksExactly | crypto-pulse-bot/core/market_worker.py:20-25 | a position of that size loses exactly risk% of the deposit when the stop is hit |
| MarketWorker.PositionSizeMirror | crypto-pulse-bot/core/market_worker.py:21 | a stop the same distance above the entry gives the same size as one below |
| MarketWorker.SideLabel | crypto-pulse-bot/core/market_worker.py:136 | LONG iff the upper-cased side is BUY, SHORT otherwise |
| MarketWorker.SideLabelsOfGeneratedSides | crypto-pulse-bot/core/market_worker.py:136 | "buy" and "BUY" are labelled LONG and "sell" SHORT |
| MarketWorker.NoticesExact | crypto-pulse-bot/core/market_worker.py:118-134 | a notice goes to a user iff the user is PREMIUM and the symbol is one of the comma-separated pairs, and carries that user's position size |
| MarketWorker.EligibleWithTwoPairs | crypto-pulse-bot/core/market_worker.py:125-128 | with two stored pairs, the user is reached for exactly those two symbols |
| MarketWorker.UntrimmedPairMisses | crypto-pulse-bot/core/market_worker.py:125-128 | the split does not strip, so "BTC/USDT, ETH/USDT" never matches ETH/USDT |
| MarketWorker.BroadcastSignal | crypto-pulse-bot/core/market_worker.py:89-161 | the loop sends exactly the notices of `Notices`, in table order |
| MarketWorker.Records | crypto-pulse-bot/database.py:69-79 | the rows saved for the admitted signals are OPEN rows with consecutive ids |
| MarketWorker.RecordsAppend | crypto-pulse-bot/database.py:69-79 | saving one more signal appends one more record with the next id |
| MarketWorker.AdmitAllShape | crypto-pulse-bot/core/market_worker.py:53-56 | admitting a batch extends the active list, keeps symbols distinct and makes every batch symbol active |
| MarketWorker.Dispatch | crypto-pulse-bot/core/market_worker.py:54-58 | one signal is offered to the tracker and then broadcast; a raising save or user query reports failure and sends nothing |
| MarketWorker.FirstRaise | crypto-pulse-bot/core/market_worker.py:49-63 | the position of the first signal whose handling raises: no signal before it raises, and it raises unless it is the end |
| MarketWorker.AdmitStep | crypto-pulse-bot/core/market_worker.py:54-58 | one more signal extends the admitted list by it iff its symbol is new, and the broadcasts by its notices |
| MarketWorker.NoFailureHandlesAll | crypto-pulse-bot/core/market_worker.py:49-63 | without failing database calls every signal of the cycle is handled and admitted |
| MarketWorker.DispatchCycle | crypto-pulse-bot/core/market_worker.py:48-58 | the cycle completes iff no signal's handling raises; the tracker holds the signals admitted up to the first failure (that one included when only its broadcast raised), the history one OPEN row per admitted signal, and exactly the broadcasts of the signals before the failure are sent |
| MarketMonitor.OrderbookDepth | crypto-pulse-bot/analytics/market_monitor.py:71-84 | a missing book or side gives 0; an empty side raises; otherwise the volumes within 0.5% of the mid price |
| MarketMonitor.BandWithinTotal | crypto-pulse-bot/analytics/market_monitor.py:79-82 | a band's volume lies between 0 and the side's total |
| MarketMonitor.DepthBounded | crypto-pulse-bot/analytics/market_monitor.py:71-84 | a full book's bid and ask depths are bounded by the side totals |
| MarketMonitor.TrendOf | crypto-pulse-bot/analytics/market_monitor.py:101 | bullish iff the ratio is above 0.6, bearish iff below 0.4, neutral otherwise |
| MarketMonitor.AnalyzeTradeFlow | crypto-pulse-bot/analytics/market_monitor.py:86-102 | no trades gives zeros and no trend; otherwise the buy ratio of the total, or 0.5 when the total is 0 |
| MarketMonitor.SideVolumeNonNegative | crypto-pulse-bot/analytics/market_monitor.py:91-92 | side volumes of non-negative amounts are non-negative |
| MarketMonitor.RatioIsFraction | crypto-pulse-bot/analytics/market_monitor.py:94-95 | the buy ratio lies in [0, 1] |
| MarketMonitor.OtherSideIgnored | crypto-pulse-bot/analytics/market_monitor.py:91-92 | a trade that is neither buy nor sell changes no volume and no result |
| MarketMonitor.MinPrice | crypto-pulse-bot/analytics/market_monitor.py:121 | `min(prices)` is a price no larger than any other |
| MarketMonitor.MaxPrice | crypto-pulse-bot/analytics/market_monitor.py:120 | `max(prices)` is a price no smaller than any other |
| MarketMonitor.MostLiquidIndex | crypto-pulse-bot/analytics/market_monitor.py:125 | the exchange with the largest volume, the first one on ties |
| MarketMonitor.AnalyzePriceDiscrepancies | crypto-pulse-bot/analytics/market_monitor.py:104-136 | no data gives none; a zero volume-weighted price raises the float division, while a zero numpy mean gives no spread; otherwise the analysis holds the consensus, the mean, the range, the relative spread, the most liquid exchange and the counts |
| MarketMonitor.WeightedSumBounds | crypto-pulse-bot/analytics/market_monitor.py:113-115 | the volume-weighted sum lies between the lowest and highest price times the total volume |
| MarketMonitor.PriceSumBounds | crypto-pulse-bot/analytics/market_monitor.py:117 | the price sum lies between count times the lowest and count times the highest price |
| MarketMonitor.WeightedBetween | crypto-pulse-bot/analytics/market_monitor.py:115 | the weighted mean lies within the price bounds |
| MarketMonitor.MeanBetween | crypto-pulse-bot/analytics/market_monitor.py:117 | the plain mean lies within the price bounds |
| MarketMonitor.ConsensusWithinRange | crypto-pulse-bot/analytics/market_monitor.py:112-121 | the consensus price lies between the lowest and the highest exchange price |
| MarketMonitor.DiscrepancyNonNegative | crypto-pulse-bot/analytics/market_monitor.py:119-122 | for positive prices the relative spread is non-negative |
| MarketMonitor.ConsensusExample | crypto-pulse-bot/analytics/market_monitor.py:113-115 | prices 100, 100.5, 101.5 with volumes 10, 5, 5 give a consensus of 100.5 |
| MarketMonitor.EntryFor | crypto-pulse-bot/analytics/market_monitor.py:30-55 | an exchange contributes iff it answered, its last price is non-zero and its book does not raise; the entry carries its price, volume, spread, depth and flow |
| MarketMonitor.Responding | crypto-pulse-bot/analytics/market_monitor.py:29-55 | no more entries than exchanges |
| MarketMonitor.RespondingAppend | crypto-pulse-bot/analytics/market_monitor.py:29-55 | the entries follow the exchange order: the entries of a concatenation are the entries of each part, in turn |
| MarketMonitor.RespondingOne | crypto-pulse-bot/analytics/market_monitor.py:29-55 | a single exchange gives its entry when it contributes and nothing otherwise |
| MarketMonitor.RespondingCount | crypto-pulse-bot/analytics/market_monitor.py:29-55 | the number of entries, `exchange_count`, is the number of exchanges that contribute |
| MarketMonitor.RespondingExact | crypto-pulse-bot/analytics/market_monitor.py:29-55 | an entry is in `results` iff some exchange whose fetches and entry did not raise produced it; a failing exchange is left out |
| MarketMonitor.RespondingAll | crypto-pulse-bot/analytics/market_monitor.py:29-55 | when every exchange answers there is one entry per exchange, so `exchange_count` is the number of exchanges |
| MarketMonitor.MarketDataOf | crypto-pulse-bot/analytics/market_monitor.py:57-69 | no entries gives none; it raises iff the analysis raises; reliable iff the spread is below 2% |
| MarketMonitor.GetMultiExchangeData | crypto-pulse-bot/analytics/market_monitor.py:25-69 | the loop over the exchanges returns `MarketDataOf` of the responding ones |
| MarketMonitor.ValidateSignalPrice | crypto-pulse-bot/analytics/market_monitor.py:138-157 | raises iff the market data raised; no data gives invalid; otherwise valid iff the relative difference to the consensus is below 1% |
| MarketMonitor.ValidWithinOnePercent | crypto-pulse-bot/analytics/market_monitor.py:145-148 | for a positive consensus, valid iff the signal price is within 1% of it |
| SignalQuality.WeightsSumToOne | crypto-pulse-bot/services/signal_quality.py:13-20 | the six weights sum to 1 |
| SignalQuality.RateTimeframeConsensus | crypto-pulse-bot/services/signal_quality.py:93-105 | 0.5 without timeframes; otherwise in [1/3, 1], 1 from three timeframes on, a third per timeframe without "4h", and that share plus 0.2, capped at 1, with "4h" |
| SignalQuality.RateRiskReward | crypto-pulse-bot/services/signal_quality.py:113-124 | one of 0.2, 0.4, 0.6, 0.8, 1; 1 iff the ratio is at least 3; 0.8 on [2, 3), 0.6 on [1.5, 2), 0.4 on [1, 1.5); 0.2 iff below 1 |
| SignalQuality.RiskRewardMonotone | crypto-pulse-bot/services/signal_quality.py:113-124 | a better ratio never rates lower |
| SignalQuality.RateVolatility | crypto-pulse-bot/services/signal_quality.py:132-147 | 0.9 iff 2–5%, 0.7 iff 1–2% or 5–8%, 0.4 iff below 1%, 0.3 iff above 8%; unparsable text gives 0.5 and a missing field 0.4 |
| SignalQuality.DetermineSignalLevel | crypto-pulse-bot/services/signal_quality.py:149-158 | each level holds iff the rating is in its threshold band |
| SignalQuality.LevelMonotone | crypto-pulse-bot/services/signal_quality.py:149-158 | a higher rating never gives a lower level |
| SignalQuality.LevelEmoji | crypto-pulse-bot/services/signal_quality.py:160-169 | each level's emoji, and the star for any other level |
| SignalQuality.Recommendation | crypto-pulse-bot/services/signal_quality.py:171-180 | the advice for each of the five known levels ends with the symbol; any other level gets the generic advice |
| SignalQuality.RateSignal | crypto-pulse-bot/services/signal_quality.py:29-91 | a missing symbol gives the fallback 0.5/STANDARD/star; otherwise the total is the weighted sum of the factors, the level and emoji follow it, the recommendation is the level's advice for the symbol, and premium iff the total is at least 0.6 |
| SignalQuality.FactorsInUnitInterval | crypto-pulse-bot/services/signal_quality.py:34-63 | every factor but the confidence lies in [0, 1] |
| SignalQuality.TotalInUnitInterval | crypto-pulse-bot/services/signal_quality.py:65-69 | the total lies in [0, 1] whenever the confidence does |
| SignalQuality.UncheckedConfidence | crypto-pulse-bot/services/signal_quality.py:63-72 | a confidence of 5 is taken unchecked and gives a total above 1 and level HIGH |
| SignalQuality.BareSignalRating | crypto-pulse-bot/services/signal_quality.py:29-80 | a signal with only a symbol rates 0.53, LOW and not premium |
| SignalFormatter.CalculatePercentage | crypto-pulse-bot/utils/signal_formatter.py:158-161 | raises iff the entry is 0; otherwise the percentage times the entry is 100 times the move |
| SignalFormatter.PercentageZeroIff | crypto-pulse-bot/utils/signal_formatter.py:158-161 | the change is 0 iff the target equals the entry |
| SignalFormatter.PercentageSign | crypto-pulse-bot/utils/signal_formatter.py:158-161 | for a positive entry the change is positive iff the target is above it and negative iff below |
| SignalFormatter.PercentageRoundTrip | crypto-pulse-bot/utils/signal_formatter.py:158-161 | applying the percentage to the entry gives back the target |
| SignalFormatter.DirectionWording | crypto-pulse-bot/utils/signal_formatter.py:13-24 | the buy wording iff the direction is exactly LONG |
| SignalFormatter.RatingHeader | crypto-pulse-bot/utils/signal_formatter.py:26-34 | no rating gives star/STANDARD/50; otherwise each present key is used (confidence times 100) and each missing key takes its default |
| SignalFormatter.QualityRatingShowsStandard | crypto-pulse-bot/utils/signal_formatter.py:27-30 | a rater result has no `status` key, so its card always reads STANDARD with the rater's emoji and 50% |
| SignalFormatter.LevelPercentages | crypto-pulse-bot/utils/signal_formatter.py:37-40 | raises iff the entry is 0; each level's percentage relates to its price, a missing level counting as 0 |
| SignalFormatter.MissingLevelIsMinusHundred | crypto-pulse-bot/utils/signal_formatter.py:40 | a signal without a stop-loss shows -100% |
| SignalFormatter.FormatSignalWithRating | crypto-pulse-bot/utils/signal_formatter.py:10-80 | raises iff the entry is 0; otherwise the card holds the symbol, the buy wording iff the direction is exactly LONG and the sell wording for every other direction, the rating header and the level percentages |
| SignalFormatter.ClassifyStatus | crypto-pulse-bot/utils/signal_formatter.py:86-101 | profit iff the status starts with SUCCESS; stopped out iff not and it is STOP_LOSS; in progress iff neither and it contains IN_PROGRESS; unknown otherwise |
| SignalFormatter.ClosingLineAgrees | crypto-pulse-bot/utils/signal_formatter.py:122 | the closing line agrees with the classification |
| SignalFormatter.ClassifyExamples | crypto-pulse-bot/utils/signal_formatter.py:86-101 | SUCCESS_IN_PROGRESS is a profit; the tracker's own TP and SL statuses are unknown |
| SignalFormatter.PnlEmoji | crypto-pulse-bot/utils/signal_formatter.py:103 | falling emoji iff a negative PnL is present |
| SignalFormatter.FormatStatistics | crypto-pulse-bot/utils/signal_formatter.py:127-156 | no or empty stats give the unavailable text; otherwise ten values, each the stat or 0 |
| UserHandlers.ParsePairs | crypto-pulse-bot/handlers/user_handlers.py:143 | an empty column gives no pairs; otherwise the i-th pair is the stripped i-th comma-separated part, and no pair holds a comma |
| UserHandlers.ParseJoin | crypto-pulse-bot/handlers/user_handlers.py:143-150 | parsing the stored join of stripped, comma-free pairs gives back the pairs |
| UserHandlers.Toggled | crypto-pulse-bot/handlers/user_handlers.py:145-148 | a present pair is removed once; an absent pair is appended at the end, the rest unchanged |
| UserHandlers.ToggleRemovesFirstOnly | crypto-pulse-bot/handlers/user_handlers.py:145-146 | toggling a present pair removes its first occurrence only |
| UserHandlers.ToggleTwice | crypto-pulse-bot/handlers/user_handlers.py:145-148 | toggling an absent pair twice restores the list |
| UserHandlers.ToggleTwiceRestores | crypto-pulse-bot/handlers/user_handlers.py:140-151 | toggling an absent pair twice stores the normalised original list |
| UserHandlers.CallbackPair | crypto-pulse-bot/handlers/user_handlers.py:140 | the pair is the colon-free second field, and data without a colon raises |
| UserHandlers.CallbackPairBetweenColons | crypto-pulse-bot/handlers/user_handlers.py:140 | the field after the first colon is taken, whatever follows a second colon |
| UserHandlers.NoColonNoPair | crypto-pulse-bot/handlers/user_handlers.py:140 | data without a colon has no second field |
| UserHandlers.RoutedDataHasPair | crypto-pulse-bot/handlers/user_handlers.py:138-140 | data the router lets through always has a pair field |
| UserHandlers.TogglePair | crypto-pulse-bot/handlers/user_handlers.py:138-151 | the user is fetched or created, and the stored pair list is the toggled list joined with commas |
| UserHandlers.SwitchedPairs | crypto-pulse-bot/handlers/user_handlers.py:167-174 | non-empty pairs are cleared; empty pairs become the three-pair default |
| UserHandlers.SwitchTwice | crypto-pulse-bot/handlers/user_handlers.py:167-174 | switching twice leaves the default when notifications were on, and nothing when they were off |
| UserHandlers.ToggleNotifications | crypto-pulse-bot/handlers/user_handlers.py:162-174 | notifications are switched on iff the pairs were empty, and the table stores the switched list |
| UserHandlers.StartPairs | crypto-pulse-bot/handlers/user_handlers.py:73-75 | `/start` leaves a non-empty list alone and fills an empty one with the default |
| UserHandlers.NewUserKeepsColumnDefault | crypto-pulse-bot/handlers/user_handlers.py:70-75 | a new user keeps the two-pair column default, which differs from `DEFAULT_PAIRS` |
| UserHandlers.CmdStart | crypto-pulse-bot/handlers/user_handlers.py:66-76 | the user is fetched or created and an empty pair list is replaced by the default |
| UserHandlers.IndexOf | crypto-pulse-bot/handlers/user_handlers.py:260 | the first occurrence of a character, or the length when it is absent |
| UserHandlers.NumericInputShape | crypto-pulse-bot/handlers/user_handlers.py:259-260 | input is accepted iff, after commas become dots, it is all digits, or digits on both sides of one dot with at least one digit |
| UserHandlers.ParseInput | crypto-pulse-bot/handlers/user_handlers.py:259-263 | a number is read iff the validator accepts the text, and it is never negative |
| UserHandlers.ParseNormalized | crypto-pulse-bot/handlers/user_handlers.py:260-263 | after the comma replacement, a value iff removing the first dot leaves only digits |
| UserHandlers.DecimalInput | crypto-pulse-bot/handlers/user_handlers.py:259-263 | digits, a dot or comma, and digits read as the decimal number |
| UserHandlers.WholeInput | crypto-pulse-bot/handlers/user_handlers.py:259-263 | a digit string reads as its integer value |
| UserHandlers.WholeExample | crypto-pulse-bot/handlers/user_handlers.py:259-263 | "1000" reads as 1000 |
| UserHandlers.FractionExamples | crypto-pulse-bot/handlers/user_handlers.py:259-263 | "1,5" reads as 1.5, "5." as 5 and ".5" as 0.5 |
| UserHandlers.ThousandsCommaIsDecimal | crypto-pulse-bot/handlers/user_handlers.py:259-263 | "1,000" reads as 1.0 |
| UserHandlers.RejectedExamples | crypto-pulse-bot/handlers/user_handlers.py:259-261 | "", ".", "-5", "1.2.3" and "1 000" are rejected |
| UserHandlers.SetRiskSettings | crypto-pulse-bot/handlers/user_handlers.py:280-285 | only the rows with the user id get the new deposit and risk |
| UserHandlers.ProcessRisk | crypto-pulse-bot/handlers/user_handlers.py:271-285 | the settings are saved iff the validator accepts the text, with the parsed risk; otherwise the table is unchanged |

## Left out

- Telegram I/O is not modelled: messages, photos, keyboards, callback answers, Markdown/HTML text and the `reason` line. A notice records only the user, the symbol, the side label and the position size.
- Charts (`core/chart_gen.py`) are not part of this model.
- The `while True` loops, their sleeps and `asyncio.create_task` are not modelled. One iteration of each loop is modelled: `Tracker.PollPass`, `MarketWorker.DispatchCycle`, `UsersTable.ExpireSubscriptions`. The expiry notices of `subscription_checker` are Telegram I/O.
- The exchange SDKs (ccxt) are not modelled. Their answers are parameters: candles per symbol, last prices per symbol, ticker/book/trade answers per exchange. A missing entry models a raising call.
- The pandas/pandas_ta indicators (RSI, EMA) are inputs of a candle, including NaN. They are not computed.
- Floating point is not modelled. All prices and ratios are exact reals, so IEEE rounding, `inf` and NaN arithmetic are absent except for NaN indicators.
- MarketWorker.PositionSize: does not model `round(..., 2)`. The size is the exact quotient.
- MarketMonitor.AnalyzePriceDiscrepancies: `np.median` is not modelled. The median price is not part of the analysis.
- Timestamps of history rows, the ticker timestamp and the `timestamp` of a rating are not modelled. Time is a whole number of seconds passed as `now`.
- The database session, commits and SQL are not modelled. Rows are a sequence, and `order_by(timestamp.desc())` is irrelevant because more than one OPEN row already raises.
- `set_user_ban`, `get_all_users`, `get_total_users_count` and `init_db` are not modelled. They only delegate to SQL; the ban flag is read by `UsersTable.IsUserBanned`.
- SignalFormatter.FormatSignalWithRating: the 2-decimal formatting of the prices and percentages is not modelled. The card keeps the exact values.
- `format_signal_result` always raises a NameError at its PnL line (`bpnl_emoji` is undefined). Only its status classification, PnL emoji and closing line are modelled.
- SignalQuality.RateSignal: the only failure modelled is a missing `symbol`. Fields of the wrong type, which would also raise, are left out because the signal is a typed record.
- SignalQuality.Recommendation: the advice sentences themselves are carried as text; the contract only states that each known level's advice ends with the symbol and that other levels get the generic advice.
- Text handling is ASCII only: `str.strip`, `str.upper` and `str.isdigit` ignore Unicode whitespace, case and digits.
- A raising `save_new_signal` is taken to have saved no row: its only statement after building the row is the commit.
- The FSM state of the deposit/risk dialogue is not modelled. The deposit collected by `process_deposit` is a parameter of `UserHandlers.ProcessRisk`: an already-parsed number, as `process_deposit` stores it in the FSM data after its own validation.
- SignalTracker.Step: records the status from the exit branch that fired (`StatusOf`), not from `"TAKE" in result_text` as written. The two agree whenever neither the symbol nor the printed price contains "TAKE" (`SignalTracker.StatusTextAgrees`), which holds for the generator's symbols (`SignalTracker.GeneratorSymbolsAgree`); they differ on a stop-loss on a symbol such as STAKE/USDT (see Findings).
- SignalTracker.Tracker.CheckSignal: closes the history row with `StatusOf` of the outcome, for the same reason as `SignalTracker.Step`.
- SignalTracker.Tracker.PollPass: inherits the corrected status of `SignalTracker.Step`.
- UserHandlers.TogglePair: requires the `toggle_pair:` prefix that the router filter guarantees. It does not model data routed any other way.
- The admin handlers, payments, webhook server, ban middleware and `run_all.py` are not part of this model.

## Findings

| source | as written | input that shows it | evidently intended | confidence | as-written member | corrected member |
|---|---|---|---|---|---|---|
| crypto-pulse-bot/analytics/signal_tracker.py:55 | the status written to the history row is "TP" when "TAKE" occurs anywhere in the result text, and that text includes the symbol | a stop-loss hit on STAKE/USDT: the text "🛑 **STOP LOSS** по STAKE/USDT…" contains "TAKE" and the row is closed as TP | the status follows the branch that closed the signal: TP for take-profit, SL for stop-loss | not executed | SignalTracker.StopLossOnStakeRecordedAsTP | SignalTracker.StatusFollowsTakeProfitTest |
