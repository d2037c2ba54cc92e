# A verified model of the lhpt quantitative-trading backend core

This project models six sequential components of the `backend/` package of the
lhpt stock-analysis platform in Dafny and proves properties of the model:

- **Backtest engine** (`services/backtest_engine.py`): a long-only,
  single-position simulator. For every bar it records an equity point from the
  state before that bar's trade. It then evaluates the strategy conditions on
  the bar and either buys whole 100-share lots with slippage and commission, or
  sells the whole position. At the end it derives total return, maximum
  drawdown and a win rate over buy/sell pairs. The engine is a `class` whose
  methods update `cash`, `shares`, `trades` and the equity curve in place. Each
  method is proved equal to a step function (`BuyStep`, `SellStep`, `Step`,
  `Simulate`). A ledger invariant is proved about those step functions.
- **Indicator calculator** (`services/indicator_calculator.py`):
  - input guards;
  - MA, EMA, MACD, RSI, BOLL, KDJ, ATR, OBV and VWAP;
  - WR and CCI as formulas;
  - all over exact `real` series, with pandas NaN as `Option.None`.
- **Custom indicator engine** (`services/custom_indicator_engine.py`): the
  six-pattern, case-insensitive blocklist shared by `validate_formula` and
  `_safe_eval`, and the series helpers `cross`, `cross_up`, `cross_down`,
  `ref`, `sum`, `avg`, `mean`, `max`, `min` and `sma`.
- **K-line validator** (`validators/kline_validator.py`):
  - the ordered checks on one record and on a frame;
  - the stock-code pattern;
  - the date-range check, with today passed in.
- **Cache service** (`services/cache_service.py`): the in-memory branch, as a
  class over a `map`; `_match_pattern`; cache-key generation, with the digest
  function passed in; and the `cached` wrapper.
- **Rate limiter** (`middleware/rate_limiter.py`): the token bucket as a class;
  the middleware's bucket table, client-IP extraction, cleanup and dispatch,
  with the clock passed in as `now`.

Shared building blocks are defined once:

- `wrappers.dfy`: `Option` and `Result`.
- `py_text.dfy`: Python string operations (`strip`, `split`, `join`, `lower`,
  `str(int)`, string ordering, `int()` truncation).
- `series.dfy`: pandas series operations (sums, rolling windows,
  `ewm(adjust=False)`, `shift`).
- `data_frame.dfy`: a frame as a row count and named numeric columns.

Where the code does something other than what its own docstrings or the
code around it promise, the model follows the code:

- The stock-code pattern `^\d{6}\.(SH|SZ)$` accepts a trailing newline, because
  `$` in Python matches before a final `"\n"`, although the docstring of
  `validate_stock_code` (backend/validators/kline_validator.py:247) promises
  exactly six digits followed by `.SH` or `.SZ`.
- The strategy API accepts the operators `=`, `cross_up` and `cross_down`
  (backend/api/strategies.py:192), but the engine compares only with `>`, `<`,
  `>=`, `<=` and `==`; any other operator makes the condition false rather than
  being rejected.
- `total_trades` in the metrics is `len(self.trades)`, which counts individual
  trades, not buy/sell pairs (backend/services/backtest_engine.py:386).

## Model

| member | source | states |
|---|---|---|
| BacktestEngine.Engine.constructor | backend/services/backtest_engine.py:68-79 | the engine keeps its four rates and starts with the initial capital in cash, no shares, no trades and an empty equity curve |
| BacktestEngine.MaColumns | backend/services/backtest_engine.py:180-182 | an MA entry yields columns as long as the data |
| BacktestEngine.MacdColumns | backend/services/backtest_engine.py:183-190 | a MACD entry contributes exactly the columns DIF, DEA and MACD, each as long as the data |
| BacktestEngine.RsiColumns | backend/services/backtest_engine.py:191-193 | an RSI entry contributes exactly one column, stored under the key "RSI" whatever the period |
| BacktestEngine.BollColumns | backend/services/backtest_engine.py:194-200 | a BOLL entry contributes exactly the columns upper, middle and lower, each as long as the data |
| BacktestEngine.IndicatorColumns | backend/services/backtest_engine.py:176-203 | every computed column is as long as the data; an indicator type other than MA, MACD, RSI or BOLL contributes nothing |
| BacktestEngine.CalculateIndicators | backend/services/backtest_engine.py:167-205 | every column of the merged indicator table is as long as the data |
| BacktestEngine.RsiStoredUnderRsi | backend/services/backtest_engine.py:191-193 | an RSI configuration yields the table {"RSI": the RSI series} for the period given, default 14 |
| BacktestEngine.UnknownIndicatorIgnored | backend/services/backtest_engine.py:175-205 | appending an indicator of an unknown type leaves the result unchanged |
| BacktestEngine.RowAt | backend/services/backtest_engine.py:105-118 | a row offers every data column and every indicator column by name |
| BacktestEngine.Rows | backend/services/backtest_engine.py:108-118 | there is one row per bar, and row i is built from bar i |
| BacktestEngine.Compare | backend/services/backtest_engine.py:232-257 | a comparison against NaN is false, and an unknown operator is false |
| BacktestEngine.ConditionSignal | backend/services/backtest_engine.py:216-257 | a condition whose indicator is absent or NaN is skipped; one with an unknown operator gives false |
| BacktestEngine.SignalListsMeaning | backend/services/backtest_engine.py:216-264 | the buy list is non-empty iff some evaluated condition is a buy, and holds false iff some evaluated buy condition did not fire; the same holds for sells |
| BacktestEngine.SignalsMeaning | backend/services/backtest_engine.py:260-269 | buy holds iff at least one buy condition was evaluated and all evaluated ones fired; any action other than "buy" counts as sell, with the same rule |
| BacktestEngine.UnknownOperatorBlocksBuy | backend/services/backtest_engine.py:232 | an evaluated buy condition with an unknown operator, such as cross_up, makes the buy signal false |
| BacktestEngine.SignalListsFailurePersists | backend/services/backtest_engine.py:237 | once float() of a condition value fails, the whole evaluation fails with that error |
| BacktestEngine.EvaluateConditions | backend/services/backtest_engine.py:207-269 | the loop over conditions returns exactly the signals the specification function gives, or its float() error |
| BacktestEngine.BuyPrice | backend/services/backtest_engine.py:273 | the buy price is never below the close when close and slippage are non-negative |
| BacktestEngine.SellPrice | backend/services/backtest_engine.py:305 | the sell price lies between 0 and the close when the slippage is in [0,1] |
| BacktestEngine.TradeValue | backend/services/backtest_engine.py:279 | the value of non-negative shares at a non-negative price is non-negative |
| BacktestEngine.Commission | backend/services/backtest_engine.py:280 | the commission lies between 0 and the amount when the rate is in [0,1] |
| BacktestEngine.Lots | backend/services/backtest_engine.py:274 | the share count is a multiple of 100, and non-negative for non-negative cash and a positive price |
| BacktestEngine.LotsAffordable | backend/services/backtest_engine.py:274 | the lots bought never cost more than the cash before commission |
| BacktestEngine.BuyStep | backend/services/backtest_engine.py:271-299 | fails iff the slipped price is 0; otherwise leaves the account unchanged iff the whole lots are none or cost more than the cash with commission, and else appends one Buy trade (date, price close·(1+slippage), shares the 100-share lots of cash/price, amount shares·price, commission amount·rate) after the earlier trades, debits amount plus commission leaving non-negative cash, and makes those shares the position at that cost basis; the equity curve is untouched |
| BacktestEngine.SellStep | backend/services/backtest_engine.py:303-324 | a sell appends one Sell trade of exactly the shares held, at price close·(1−slippage), with amount shares·price and commission amount·rate, credits amount less commission, and leaves no shares and a zero cost basis |
| BacktestEngine.Step | backend/services/backtest_engine.py:117-138 | each bar appends exactly one equity point, computed from the state before that bar's trade |
| BacktestEngine.Simulate | backend/services/backtest_engine.py:117-138 | a run has exactly one equity point per bar |
| BacktestEngine.SimulateFailurePersists | backend/services/backtest_engine.py:117-138 | an error on some bar ends the run with that error |
| BacktestEngine.LedgerAppendBuy | backend/services/backtest_engine.py:286-299 | recording a buy of a positive position on a flat account, with cash left non-negative, keeps the ledger invariant |
| BacktestEngine.BuyKeepsLedger | backend/services/backtest_engine.py:271-299 | a buy from a flat account keeps cash non-negative and the ledger alternating |
| BacktestEngine.SellKeepsLedger | backend/services/backtest_engine.py:303-324 | selling a held position keeps cash non-negative, sells exactly the shares of the preceding buy, and leaves the account flat |
| BacktestEngine.StepKeepsLedger | backend/services/backtest_engine.py:119-138 | one bar keeps the ledger invariant (buys only when flat, sells only when holding, equity = cash + position value) |
| BacktestEngine.SimulateKeepsLedger | backend/services/backtest_engine.py:98-138 | every run from a reset account keeps the ledger invariant, and its first equity point is the initial capital |
| BacktestEngine.StepCashBalance | backend/services/backtest_engine.py:271-324 | one period changes the cash by exactly the cash flow of the trade it records: −(amount + commission) for a buy, amount − commission for a sell, nothing without a trade |
| BacktestEngine.SimulateCashBalance | backend/services/backtest_engine.py:98-138 | throughout a run the cash equals the initial capital plus the net cash flow of the recorded trades |
| BacktestEngine.LastPointPrecedesLastTrade | backend/services/backtest_engine.py:120-138 | the last equity point shows the cash and position before the last bar's trade, so a trade on the final bar is not reflected in it |
| BacktestEngine.WinsLossesCount | backend/services/backtest_engine.py:364-375 | winning plus losing trades is the number of trades divided by two, rounded down |
| BacktestEngine.DrawdownWithinUnit | backend/services/backtest_engine.py:359-361 | with a positive first equity and no negative equity, the maximum drawdown is defined and lies in [-1, 0] |
| BacktestEngine.Equities | backend/services/backtest_engine.py:334 | the equity column holds each point's equity in order |
| BacktestEngine.MetricsCounts | backend/services/backtest_engine.py:364-389 | total_trades counts every trade, wins plus losses is the number of complete pairs, and the win rate lies in [0,1] |
| BacktestEngine.WinRate | backend/services/backtest_engine.py:375-376 | the win rate lies in [0,1] and is 1 exactly when there are winning pairs and no losing one; 0 when there is no complete pair |
| BacktestEngine.RunDrawdownWithinUnit | backend/services/backtest_engine.py:328-361 | every run with positive capital reports a maximum drawdown in [-1, 0] |
| BacktestEngine.CountWins | backend/services/backtest_engine.py:364-373 | the pairing loop counts exactly the wins and losses of pairs (0,1), (2,3), …; a pair wins iff its sell price exceeds its buy price |
| BacktestEngine.Engine.ExecuteBuy | backend/services/backtest_engine.py:271-299 | the new state is the buy step applied to the old state |
| BacktestEngine.Engine.ExecuteSell | backend/services/backtest_engine.py:303-324 | the new state is the sell step applied to the old state |
| BacktestEngine.Engine.ProcessRow | backend/services/backtest_engine.py:118-138 | one iteration of the main loop moves the state by one step, or reports the step's error |
| BacktestEngine.Engine.CalculateMetrics | backend/services/backtest_engine.py:328-389 | the metrics are those of the current state: none for an empty curve, otherwise final capital, total return, drawdown, win rate and trade counts |
| BacktestEngine.Engine.RunRows | backend/services/backtest_engine.py:117-138 | the main loop from a reset state ends in the state the run specification gives, or with its error |
| BacktestEngine.Engine.RunBacktest | backend/services/backtest_engine.py:81-165 | a backtest resets the state, computes the indicators, runs every bar and reports the metrics, trades and equity curve of the specified run, or its error |
| IndicatorCalculator.ValidateData | backend/services/indicator_calculator.py:38-58 | the data passes iff it is non-empty and has every required column; otherwise the error names exactly the missing columns |
| IndicatorCalculator.ValidateDataLength | backend/services/indicator_calculator.py:60-78 | the data passes iff it has at least the minimum length; otherwise the error reports both numbers |
| IndicatorCalculator.ValidatePeriod | backend/services/indicator_calculator.py:80-96 | a period passes iff it is a positive int |
| IndicatorCalculator.NameInjective | backend/services/indicator_calculator.py:143 | different periods give different MA or EMA names |
| IndicatorCalculator.CheckMaPeriods | backend/services/indicator_calculator.py:133-135 | the periods pass iff each is a positive int no longer than the data; otherwise the first failing period is reported with its error |
| IndicatorCalculator.MaTable | backend/services/indicator_calculator.py:140-143 | every MA column is as long as the data and named after one of the periods |
| IndicatorCalculator.MaTableAt | backend/services/indicator_calculator.py:140-143 | MA{p} is present for each requested period and is the rolling mean with window p |
| IndicatorCalculator.CalculateMa | backend/services/indicator_calculator.py:99-152 | succeeds iff the data has a close column and the period list is non-empty and valid; an empty list is an error; every MA series has the data's length |
| IndicatorCalculator.MaIsWindowMean | backend/services/indicator_calculator.py:142 | MA{p}[t] is undefined for t < p-1 and otherwise equals the mean of the last p closes |
| IndicatorCalculator.CalculateEma | backend/services/indicator_calculator.py:578-604 | succeeds iff the data is valid and every period is a positive int; EMA{p} is the adjust=False exponential average with span p, and nothing else is returned |
| IndicatorCalculator.EmaTable | backend/services/indicator_calculator.py:597-600 | each period's entry is the exponential average of the closes with that span |
| IndicatorCalculator.Minus | backend/services/indicator_calculator.py:210 | the difference of two series, point by point |
| IndicatorCalculator.MacdOf | backend/services/indicator_calculator.py:206-216 | DIF, DEA and MACD have the input's length |
| IndicatorCalculator.CalculateMacd | backend/services/indicator_calculator.py:155-232 | succeeds iff the frame is non-empty with a close column, the periods are positive ints, fast < slow, and the data holds at least slow + signal rows; fast ≥ slow on otherwise valid input is reported as a period-order error |
| IndicatorCalculator.MacdCrossings | backend/services/indicator_calculator.py:184-185 | MACD > 0 iff DIF > DEA, and the histogram crosses zero exactly when DIF crosses DEA |
| IndicatorCalculator.MacdFlatMarket | backend/services/indicator_calculator.py:206-216 | constant closes give DIF, DEA and MACD all zero |
| IndicatorCalculator.Gains | backend/services/indicator_calculator.py:280 | gains are never negative |
| IndicatorCalculator.Losses | backend/services/indicator_calculator.py:281 | losses are never negative |
| IndicatorCalculator.GainsLossesSplit | backend/services/indicator_calculator.py:277-281 | gain minus loss is the price change, and at most one of them is non-zero |
| IndicatorCalculator.RsiValue | backend/services/indicator_calculator.py:288-294 | RSI lies in [0,100], is 100 where the average loss is 0, and is 100·gain/(gain+loss) otherwise |
| IndicatorCalculator.RsiOf | backend/services/indicator_calculator.py:276-294 | every RSI value lies in [0,100], the first is 100, and it is 100 wherever the smoothed loss is 0 |
| IndicatorCalculator.CalculateRsi | backend/services/indicator_calculator.py:235-301 | succeeds iff the frame is non-empty with a close column, the period is a positive int and the data has at least period + 1 rows; the result is the RSI of the closes |
| IndicatorCalculator.SampleVariance | backend/services/indicator_calculator.py:355 | the rolling variance is never negative |
| IndicatorCalculator.BollOf | backend/services/indicator_calculator.py:351-365 | the three bands have the input's length |
| IndicatorCalculator.BollBandsOrdered | backend/services/indicator_calculator.py:351-359 | middle is defined from the p-th bar on and is the window mean; the bands are defined when p ≥ 2; then lower ≤ middle ≤ upper, symmetric about the middle |
| IndicatorCalculator.CalculateBoll | backend/services/indicator_calculator.py:304-374 | succeeds iff the frame is non-empty with a close column, the period is a positive int, std_dev is a positive number and the data has at least period rows; a bad std_dev on otherwise valid input is reported as such; the result is the bands of the closes |
| IndicatorCalculator.WindowRange | backend/services/indicator_calculator.py:400-401 | the rolling lowest low and highest high bound every bar in the window |
| IndicatorCalculator.Rsv | backend/services/indicator_calculator.py:400-403 | one RSV value per bar |
| IndicatorCalculator.KdjOf | backend/services/indicator_calculator.py:406-408 | K, D and J have the input's length |
| IndicatorCalculator.CalculateKdj | backend/services/indicator_calculator.py:376-412 | succeeds iff the data has close, high and low, at least n rows, n ≥ 0 (pandas accepts an empty window), m1 and m2 ≥ 1, and no infinite RSV; the result is K, D, J smoothed from the RSV column |
| IndicatorCalculator.RsvBounded | backend/services/indicator_calculator.py:400-403 | for bars whose close lies within their range, RSV is defined (50 where undefined) and lies in [0,100] |
| IndicatorCalculator.KdjBounded | backend/services/indicator_calculator.py:400-408 | for consistent bars and any window 0 ≤ n ≤ rows, KDJ succeeds, K and D lie in [0,100] and J = 3K − 2D in [−200, 300] |
| IndicatorCalculator.KdjEmptyWindow | backend/services/indicator_calculator.py:397-408 | with n = 0 the NaN extremes make every RSV the filler 50, so KDJ succeeds and K, D and J are 50 throughout |
| IndicatorCalculator.TrueRange | backend/services/indicator_calculator.py:469-473 | the true range is the largest of high−low, abs(high−previous close) and abs(low−previous close); the first bar's is high−low |
| IndicatorCalculator.TrueRanges | backend/services/indicator_calculator.py:473 | one true range per bar |
| IndicatorCalculator.CalculateAtr | backend/services/indicator_calculator.py:449-480 | succeeds iff the frame is non-empty with close, high and low, the period is at least 1 (pandas refuses a smaller span) and there are at least period + 1 rows; ATR is the exponential average of the true ranges |
| IndicatorCalculator.AtrNonnegative | backend/services/indicator_calculator.py:469-476 | ATR is never negative when the first bar has high ≥ low |
| IndicatorCalculator.Sign | backend/services/indicator_calculator.py:499 | the sign is −1, 0 or 1 and agrees with the sign of its argument |
| IndicatorCalculator.ObvRecurrence | backend/services/indicator_calculator.py:499-503 | OBV starts at 0 and adds the volume on an up bar, subtracts it on a down bar, and keeps it otherwise |
| IndicatorCalculator.CalculateObv | backend/services/indicator_calculator.py:482-507 | succeeds iff the data has close and volume |
| IndicatorCalculator.VwapOf | backend/services/indicator_calculator.py:626 | VWAP is defined exactly where the cumulative volume is non-zero |
| IndicatorCalculator.CalculateVwap | backend/services/indicator_calculator.py:606-630 | succeeds iff the data has close, high, low and volume |
| IndicatorCalculator.VwapWithinPriceRange | backend/services/indicator_calculator.py:623-626 | with non-negative volumes, VWAP lies between the lowest and highest typical price so far |
| IndicatorCalculator.CalculateWr | backend/services/indicator_calculator.py:509-535 | succeeds iff the data has close, high and low, at least period rows and a non-negative period; the result is the WR column, undefined everywhere when the period is 0 |
| IndicatorCalculator.WrRange | backend/services/indicator_calculator.py:528-531 | for consistent bars, WR lies in [−100, 0], and it is undefined only when the window's range is zero |
| IndicatorCalculator.AbsDeviations | backend/services/indicator_calculator.py:440 | the absolute deviations from the window mean |
| IndicatorCalculator.CalculateCci | backend/services/indicator_calculator.py:414-447 | succeeds iff the data has close, high and low, at least period rows and a non-negative period; the result is the CCI column of the typical prices, undefined everywhere when the period is 0 |
| IndicatorCalculator.CciFlatWindow | backend/services/indicator_calculator.py:434-443 | where the mean deviation of the window is 0, the current typical price equals the window mean, so the source's quotient is 0/0 and CCI is undefined there |
| CustomIndicatorEngine.FirstMatch | backend/services/custom_indicator_engine.py:155-156 | no pattern matches iff none of them matches the formula; otherwise it finds the first pattern that matches |
| CustomIndicatorEngine.Screen | backend/services/custom_indicator_engine.py:146-160 | a formula passes iff none of the six dangerous patterns matches it, ignoring case |
| CustomIndicatorEngine.ValidateFormula | backend/services/custom_indicator_engine.py:172-217 | a formula is valid iff it passes the pattern screen and compiles; a match is reported with its pattern, a syntax error as such |
| CustomIndicatorEngine.SafeEval | backend/services/custom_indicator_engine.py:135-170 | a screened formula raises before evaluation; otherwise the result or the evaluation error is passed on |
| CustomIndicatorEngine.RejectedNeverEvaluated | backend/services/custom_indicator_engine.py:155-160 | for a formula that matches a pattern, the outcome does not depend on the evaluator, so the formula is never run |
| CustomIndicatorEngine.ScreensAgree | backend/services/custom_indicator_engine.py:146-198 | a formula valid under validate_formula is never refused by _safe_eval's screen, and a refusal names the same pattern |
| CustomIndicatorEngine.ScreenIgnoresCase | backend/services/custom_indicator_engine.py:156 | lower-casing the formula does not change the screen's verdict |
| CustomIndicatorEngine.AbsentCharNoMatch | backend/services/custom_indicator_engine.py:146-153 | a formula without the character a pattern needs cannot match it |
| CustomIndicatorEngine.ImportFormulaRejected | backend/services/custom_indicator_engine.py:148 | "import os; os.system('ls')" is caught by the import pattern |
| CustomIndicatorEngine.MovingAverageFormulaPasses | backend/services/custom_indicator_engine.py:146-156 | an ordinary formula such as "SMA(CLOSE, 20)" passes the screen |
| CustomIndicatorEngine.CrossUp | backend/services/custom_indicator_engine.py:50-51 | cross and cross_up give one flag per bar, and fail on series of different lengths |
| CustomIndicatorEngine.CrossDown | backend/services/custom_indicator_engine.py:52 | cross_down gives one flag per bar, and fails on series of different lengths |
| CustomIndicatorEngine.CrossUpAt | backend/services/custom_indicator_engine.py:50-51 | cross_up holds at t iff t > 0, a[t] > b[t] and a[t−1] ≤ b[t−1], with NaN comparisons false |
| CustomIndicatorEngine.CrossDownAt | backend/services/custom_indicator_engine.py:52 | cross_down holds at t iff t > 0, a[t] < b[t] and a[t−1] ≥ b[t−1] |
| CustomIndicatorEngine.Ref | backend/services/custom_indicator_engine.py:47 | ref(x, n)[t] is x[t−n] when that index exists and NaN otherwise |
| CustomIndicatorEngine.RefLooksBack | backend/services/custom_indicator_engine.py:47 | ref(x, n)[t] equals x[t−n] for t ≥ n and is NaN before |
| CustomIndicatorEngine.RollingHelper | backend/services/custom_indicator_engine.py:37-46 | a rolling helper fails iff the window is negative and otherwise has the input's length; with window 0 every sum is 0 and every mean, maximum and minimum is undefined |
| CustomIndicatorEngine.RollingHelperAt | backend/services/custom_indicator_engine.py:37-46 | sum, avg, mean, max, min and sma at t are defined iff a full window of defined values ends at t, and are then that window's aggregate |
| KLineValidator.FirstFailure | backend/validators/kline_validator.py:57-117 | reports the first failing check in order, or nothing iff every check holds |
| KLineValidator.FirstFailureFacts | backend/validators/kline_validator.py:57-117 | the ten checks, in order: open, close, high, low and volume non-negative, then high ≥ low, high ≥ open, high ≥ close, low ≤ open, low ≤ close |
| KLineValidator.AllChecksMeanWellFormed | backend/validators/kline_validator.py:57-117 | a bar passes every check iff it is non-negative with low ≤ open, close ≤ high |
| KLineValidator.CheckBar | backend/validators/kline_validator.py:57-117 | the record checks report the first failing check |
| KLineValidator.ValidateSingleRecord | backend/validators/kline_validator.py:26-126 | a record is accepted iff it has every field, its bar passes every check and its amount, if present, is non-negative; missing fields are named; otherwise the first failing check is reported |
| KLineValidator.HighBelowLowReportedFirst | backend/validators/kline_validator.py:89-99 | a record with high < low and high < open reports the high ≥ low error |
| KLineValidator.FailingRows | backend/validators/kline_validator.py:159-163 | the reported rows, at most the limit of five, all fail the check and come in increasing order; every failing row up to the last one reported is reported, all of them when fewer than five are, and none are reported iff no row fails |
| KLineValidator.FirstIndicesIncreasing | backend/validators/kline_validator.py:159-163 | the positions `invalid_rows[:5]` reports are strictly increasing |
| KLineValidator.FirstIndicesFirst | backend/validators/kline_validator.py:159-163 | a flagged position is reported whenever fewer than the limit are reported or it precedes the last one reported |
| KLineValidator.CheckColumns | backend/validators/kline_validator.py:159-233 | the column checks pass iff every row passes every check; otherwise the error is that of the first check, in list order, that some row fails, listing its first five failing rows |
| KLineValidator.ReportedAtShift | backend/validators/kline_validator.py:159-233 | when the first check passes on every row, a report for the remaining checks is the report at the next position of the whole list |
| KLineValidator.ReportedAtUnique | backend/validators/kline_validator.py:159-233 | at most one check and one error can be reported for a frame: the first failing check |
| KLineValidator.NegativeAmountRows | backend/validators/kline_validator.py:236-242 | the reported rows, at most five, have a negative amount and come in increasing order; they are the first such rows, all of them when fewer than five are, and there are none iff no amount is negative |
| KLineValidator.ValidateDataframe | backend/validators/kline_validator.py:129-157 | an empty frame is rejected as such; a non-empty frame missing required columns is rejected naming them, in field order |
| KLineValidator.ValidateDataframeReports | backend/validators/kline_validator.py:159-242 | for a frame with every required column, the error of its first failing bar check is the verdict; only when every bar check passes on every row does the amount check follow, rejecting with the first five negative-amount rows when there are any and accepting otherwise |
| KLineValidator.FrameAcceptedIffEveryRowPasses | backend/validators/kline_validator.py:143-242 | a frame is accepted iff every row is well formed and has a non-negative amount where that column exists |
| KLineValidator.OneRowFrameAccepted | backend/validators/kline_validator.py:129-242 | a one-row frame with the required columns is accepted exactly when its row is a well-formed bar with a non-negative amount |
| KLineValidator.TruncatedVolumeSlipsThrough | backend/validators/kline_validator.py:54 | a record with volume −0.5 is accepted by the single-record check but rejected by the frame check |
| KLineValidator.ValidateSingleRecordIntended | backend/validators/kline_validator.py:26-126 | a record is accepted iff every field is present, its bar passes every check, its volume is non-negative before truncation, and its amount is fine |
| KLineValidator.IntendedRecordAgreesWithFrame | backend/validators/kline_validator.py:26-242 | the corrected record check accepts a record iff the frame check accepts the one-row frame made from it |
| KLineValidator.ValidateStockCode | backend/validators/kline_validator.py:260-265 | the verdict is accept or invalid-code, and an accepted code starts with six characters, a dot and two more |
| KLineValidator.AcceptedStockCodeShape | backend/validators/kline_validator.py:260-261 | an accepted code is six digits, ".", SH or SZ, followed by nothing or a single newline |
| KLineValidator.StockCodeOfShapeAccepted | backend/validators/kline_validator.py:260-261 | every six-digit code with market SH or SZ, alone or followed by a newline, is accepted |
| KLineValidator.TrailingNewlineAccepted | backend/validators/kline_validator.py:260-261 | "600000.SH\n" is accepted as written and rejected by the exact check |
| KLineValidator.ValidateStockCodeExact | backend/validators/kline_validator.py:260-265 | accepts exactly nine-character codes of the intended shape |
| KLineValidator.ExactStockCodeShape | backend/validators/kline_validator.py:260-261 | the exact check accepts iff the code is six digits, ".", then SH or SZ, and nothing more |
| KLineValidator.DaysInMonth | backend/validators/kline_validator.py:285-286 | a month has 28 to 31 days, and February has 29 exactly in leap years |
| KLineValidator.ParseDate | backend/validators/kline_validator.py:285-286 | a parsed date is a valid calendar date whose year is the four leading digits |
| KLineValidator.ParseFormatRoundTrip | backend/validators/kline_validator.py:285-286 | parsing a date written as YYYY-MM-DD gives that date back |
| KLineValidator.UnpaddedDateAccepted | backend/validators/kline_validator.py:285-286 | like strptime, "2024-1-5" is read as 5 January 2024 |
| KLineValidator.LeapDay | backend/validators/kline_validator.py:285-286 | 29 February exists exactly in leap years |
| KLineValidator.AfterIsStrictTotalOrder | backend/validators/kline_validator.py:293-307 | date comparison is a strict total order |
| KLineValidator.ValidateDateRange | backend/validators/kline_validator.py:268-311 | a range is rejected for a bad format exactly when either date fails to parse |
| KLineValidator.DateRangeAcceptedIff | backend/validators/kline_validator.py:284-311 | a range is accepted iff both dates parse, start ≤ end and end ≤ today |
| KLineValidator.EndInFutureMeansStartNotInFuture | backend/validators/kline_validator.py:300-311 | when the end-in-future error is reported, both dates parsed and the start is not in the future |
| CacheService.MatchPattern | backend/services/cache_service.py:206-226 | without "*" a key matches iff it equals the pattern, and with two or more "*" nothing matches |
| CacheService.OneStarMatch | backend/services/cache_service.py:221-224 | with exactly one "*", a key matches iff it starts with the prefix and ends with the suffix |
| CacheService.OverlappingPrefixAndSuffix | backend/services/cache_service.py:221-224 | prefix and suffix may overlap: "ab" matches "ab*b" |
| CacheService.InvalidationLaws | backend/services/cache_service.py:194-200 | invalidation removes every matching key and keeps every other entry, the count is the number removed, and a repeat removes nothing |
| CacheService.ShortDigest | backend/services/cache_service.py:74 | the digest part of a key is at most eight characters |
| CacheService.ArgParts | backend/services/cache_service.py:69-74 | one key part per positional argument: scalars by text, others by short digest |
| CacheService.LeastName | backend/services/cache_service.py:77 | a non-empty set of keyword names has a least element in Python string order |
| CacheService.SortedNames | backend/services/cache_service.py:77 | the keyword names in strictly increasing order, each exactly once |
| CacheService.KwargParts | backend/services/cache_service.py:77-81 | one "name=value" part per keyword argument, in the given order |
| CacheService.KeyParts | backend/services/cache_service.py:66-81 | a key has one part for the prefix, one per positional argument and one per keyword argument |
| CacheService.KeyPartsLayout | backend/services/cache_service.py:66-81 | the prefix comes first, then the positional arguments in order, then the keyword arguments sorted by name |
| CacheService.KeyRecoversParts | backend/services/cache_service.py:83 | when no part contains ":", splitting the key at ":" gives the parts back |
| CacheService.MemoryCache.constructor | backend/services/cache_service.py:50-51 | the memory cache starts empty |
| CacheService.MemoryCache.Get | backend/services/cache_service.py:85-104 | get returns the stored value, or None for an absent key |
| CacheService.MemoryCache.Set | backend/services/cache_service.py:106-137 | set stores the value under the key, changes no other key and returns True |
| CacheService.MemoryCache.Delete | backend/services/cache_service.py:139-157 | delete removes only that key and returns True even when it was absent |
| CacheService.MemoryCache.Clear | backend/services/cache_service.py:159-174 | clear leaves the cache empty and returns True |
| CacheService.MemoryCache.InvalidatePattern | backend/services/cache_service.py:176-204 | exactly the matching keys are removed, and their number is returned |
| CacheService.Cached | backend/services/cache_service.py:229-274 | without a cache the function is called; with one, a stored non-None value is returned as is, otherwise the function's result is stored and returned |
| RateLimiter.Accrued | backend/middleware/rate_limiter.py:63 | a non-negative rate over non-negative elapsed time accrues a non-negative number of tokens |
| RateLimiter.AccruedSplits | backend/middleware/rate_limiter.py:59-65 | refilling over two intervals accrues as much as over their union |
| RateLimiter.Refilled | backend/middleware/rate_limiter.py:57-65 | a refill never exceeds the capacity or the tokens plus what the rate allows, and stamps the time |
| RateLimiter.ConsumeKeepsBounds | backend/middleware/rate_limiter.py:39-65 | with a clock that does not run backwards, a consume keeps the tokens between 0 and the capacity |
| RateLimiter.Run | backend/middleware/rate_limiter.py:39-55 | a sequence of consumes grants at most one request per call and ends stamped at the last call's time |
| RateLimiter.RunGrantsAtMostRefill | backend/middleware/rate_limiter.py:39-65 | tokens granted plus tokens left never exceed the starting tokens plus what the rate allows over the elapsed time |
| RateLimiter.RunKeepsBounds | backend/middleware/rate_limiter.py:39-65 | the tokens stay between 0 and the capacity over any run |
| RateLimiter.RateLimit | backend/middleware/rate_limiter.py:39-65 | the requests granted over a run are bounded by the starting tokens plus rate × elapsed time |
| RateLimiter.Burst | backend/middleware/rate_limiter.py:33-55 | k simultaneous requests on a bucket holding n tokens are granted min(k, n) times |
| RateLimiter.TokenBucket.constructor | backend/middleware/rate_limiter.py:25-37 | a new bucket is full and stamped with the creation time |
| RateLimiter.TokenBucket.Refill | backend/middleware/rate_limiter.py:57-65 | the bucket moves to the refilled state |
| RateLimiter.TokenBucket.Consume | backend/middleware/rate_limiter.py:39-55 | after refilling, the request is granted iff enough tokens are there, and then they are taken; a refusal leaves fewer tokens than asked |
| RateLimiter.ClientIp | backend/middleware/rate_limiter.py:105-129 | a non-empty X-Forwarded-For wins and gives its text before the first comma, stripped; otherwise a non-empty X-Real-IP; otherwise the connection's host, or "unknown" without a connection |
| RateLimiter.ForwardedFirstHop | backend/middleware/rate_limiter.py:116-118 | for any forwarded-for list of comma-free hops, the client IP is the first hop stripped, whatever the other headers and the connection say |
| RateLimiter.Middleware.constructor | backend/middleware/rate_limiter.py:78-103 | the table starts empty, and the refill rate is requests per minute divided by 60 |
| RateLimiter.Middleware.GetBucket | backend/middleware/rate_limiter.py:131-147 | an existing bucket is returned unchanged; otherwise a new full bucket is added for that IP only |
| RateLimiter.Middleware.CleanupOldBuckets | backend/middleware/rate_limiter.py:149-168 | within five minutes of the last cleanup nothing changes; otherwise exactly the buckets refilled in the last ten minutes are kept and the cleanup time is updated |
| RateLimiter.Middleware.Dispatch | backend/middleware/rate_limiter.py:170-220 | "/" and "/health" bypass the limiter and change nothing; any other request consumes one token of its client's bucket (created full on first sight) and is served with the remaining whole tokens or refused with status 429; that bucket ends in the consumed state and is the only one that changes; the other buckets are kept, except that a served request past the five-minute interval drops those idle for ten minutes |

## Left out

- Sharpe ratio and annual return (`backtest_engine.py:343-356`) are left out, because they need floating-point `sqrt` and `pow`. The risk-free rate is therefore stored but not used.
- Trade and date serialisation in the report (`backtest_engine.py:144-165`) and the trade's constant `reason` text are left out. Dates are carried as strings given alongside the data, and the bar's `date` column is not an operand of conditions.
- BacktestEngine.MaxDrawdown: when some running maximum of equity is 0, the source divides by zero and yields NaN or infinity. The model gives `None` there and proves the [-1, 0] bound only for positive starting capital.
- Total return is `None` when the initial capital is 0, where the source would divide by zero.
- `float()` on a condition value is a parameter (`parse`). Python's accepted float spellings are not part of this model.
- DMI (`indicator_calculator.py:537-576`) is not modelled.
- The `Exception` wrappers that re-raise as "Failed to calculate …" are not modelled. Without I/O, no other exception can arise in the modelled arithmetic.
- Infinities are not modelled. Where KDJ's raw value would be infinite (a zero-range window whose close is not its low), the model fails explicitly. Where WR, CCI or VWAP would divide by zero, the model gives `None`.
- Standard deviation needs a square root. BOLL takes it as a parameter `root` whose results are non-negative.
- A negative rolling window in a custom helper is modelled as an error, as pandas raises there; a window of 0 is accepted, as pandas does.
- Bool periods: `True` passes the period check because `isinstance(True, int)` holds, and the model then treats it as the int 1 (`False` is refused, as 0 is). It does not model that pandas' rolling refuses a bool window, nor that the EMA result key is then spelled `EMATrue`. No further Python type distinctions are modelled.
- `evaluate_formula` and `_prepare_context` run Python `eval` over a context of series. Expression evaluation and `compile` are parameters, not modelled.
- The math helpers `abs`, `sqrt`, `log`, `exp`, `pow`, `std` and `ema` of the custom engine are not modelled.
- `\w`, `\s` and `\d` in the regular expressions are taken over ASCII letters and digits plus Python's whitespace set. `re.IGNORECASE` is ASCII case folding. Unicode letters and digits are not part of this model.
- Row labels are positions: the "row indices" reported by the frame checks are 0-based positions. NaN values in frames are not modelled.
- `int(volume)` truncation is modelled. `float()` of non-numeric record fields (a `ValueError`/`TypeError` in the source) becomes a "not a number" rejection.
- The Redis branch of the cache, JSON serialisation, TTLs (ignored by the memory branch) and exceptions from the backing store are not modelled. The md5 digest is a parameter.
- Rate limiter locks and threading are not modelled. `time.time()` is the parameter `now`, and one `now` serves a whole request, both the consume and the cleanup.
- The ASGI `call_next`, the response body and the header strings are not modelled. Dispatch returns an outcome that carries the limit and the remaining tokens.
- `exceptions.py` and `config.py` are not part of this model.
- BacktestEngine.Condition: a condition's `action` is either absent (a buy) or a string. A key that is present but set to `None` cannot be represented; in the source `condition.get('action', 'buy')` then returns `None`, which is not `'buy'`, so such a condition counts towards the sell signal (backend/services/backtest_engine.py:260).

## Findings

| source | as written | input that shows it | evidently intended | confidence | as-written member | corrected member |
|---|---|---|---|---|---|---|
| backend/validators/kline_validator.py:54 | the single-record check converts volume with `int()`, which truncates toward zero before the `volume < 0` test | a record with open = close = high = low = 1 and volume = −0.5 is accepted, while the frame check rejects the same bar | reject a negative volume, as `validate_dataframe` does | not executed | KLineValidator.TruncatedVolumeSlipsThrough | KLineValidator.ValidateSingleRecordIntended |
| backend/validators/kline_validator.py:260-261 | the stock-code pattern ends in `$`, which in Python also matches before a final newline | "600000.SH\n" is accepted | accept exactly six digits, ".", then SH or SZ | not executed | KLineValidator.TrailingNewlineAccepted | KLineValidator.ExactStockCodeShape |
