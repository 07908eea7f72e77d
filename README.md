# Day-Trade-Bot trading core in Dafny

This project models the deterministic core of the Day-Trade-Bot trading
simulator and proves properties of the model. The core has four parts:

- **Indicator pipeline** (`indicators.dfy`, module `Indicators`). This is the
  per-symbol feature computation of `Application/scripts/data_fetch.py`:
  - EMA-8, EMA-21 and EMA-50, using pandas' `adjust=False` recurrence.
  - RSI-14, from 14-row rolling means of gains and losses.
  - MACD (EMA-12 − EMA-26) and its EMA-9 signal line.
  - The doji, hammer and engulfing candlestick flags.
  - The cumulative VWAP.

  Each column is a function of the bar sequence. NaN and inf cases that
  pandas would produce are explicit: an `Option`, or the value the
  arithmetic gives.
- **Trading environment** (`trading_env.dfy`, module `TradingEnv`). This is the
  single-symbol gym environment of `Application/scripts/trading_env.py`. The
  class `TradingEnvironment` has the source's fields:
  - `currentStep`, `balance`, `position`, `totalValue`, `done`.

  Its `Reset` and `Step` methods update those fields as the source does.
  Their contracts tie each new state to pure definitions: `Trade` for the
  ledger, `Reward` and `ShapingBonus` for the reward, and `Advance` and
  `Run` for the episode cursor. Lemmas prove properties of those
  definitions.
- **Data preparation** (`data_preparation.dfy`, module `DataPreparation`). This
  covers `Application/data_preparation.py`:
  - the null-row filter of `load_data`;
  - the required-column check of `prepare_data`;
  - its direction labels, with the first row dropped;
  - its unshuffled prefix/suffix split.
- **Ticker list** (`stock_list.dfy`, module `StockList`). This is the `/stocks`
  route of `web/backend/app.py`. The ticker file is the state of a
  `TickerFile` object, held as its text, or `None` while the file does not
  exist. GET, POST and DELETE are methods that return a status and a body,
  with Python's `strip`, `splitlines` and `'\n'.join` written out.

`basics.dfy` (module `Basics`) holds the shared vocabulary:
- `Option` and `Result`;
- order-preserving `Filter` and its lemmas;
- `IndexOf`, `Min`, `Max`;
- small facts about real multiplication and division.

Notes on how the source reads, each with how the model treats it:

- `step` and `render` are written at module level in `trading_env.py`
  (lines 36 and 82), outside the class body. As written they are module
  functions, so the class inherits gym's `Env.step` and `Env.render`, and
  the call `env.step(action)` at `Application/test_ppo.py:55` does not
  reach this code. The `self` parameter and the indentation of `render`'s
  body show they were meant as methods; the model follows that intent and
  makes them methods of `TradingEnvironment`.
- The environment's constructor reads row 0 through `reset`. An empty
  table makes `iloc[0]` raise IndexError there. A column other than
  `datetime` that is not numeric makes `.astype(float)` raise ValueError.
  The table that `data_preparation.py` writes to `prepared_data.csv` keeps
  its string `symbol` column (lines 17 and 78-81), so an environment built
  from that file fails in its constructor. The model's constructor accepts
  only numeric, non-empty tables (see "Left out").
- `compute_indicators` reads every column of the symbol's rows with
  `SELECT *` (data_fetch.py:111), the ten indicator columns included, and
  then calls `df.dropna(inplace=True)` (line 126) with no column subset.
  `ensure_table_exists` adds the indicator columns (lines 39-57), and
  `save_to_database` inserts new rows with those columns left NULL (lines
  91-93). From the code as written, not from a run: a row whose indicators
  were never computed is dropped before the formulas at lines 128-150 see
  it, so for a freshly fetched symbol the frame becomes empty and the
  UPDATE loop writes nothing. The model's `ComputeIndicators` applies the
  formulas to whatever bars it is given.
- With zero average loss and positive average gain, `gain / loss` is inf
  and RSI is exactly 100. With both averages zero it is NaN, modelled as
  `None`. So RSI can be undefined at an index ≥ 13, for example over a flat
  14-row window.
- While the cumulative volume is zero, VWAP is `0/0`, which is NaN,
  modelled as `None`.
- An episode over L ≥ 2 rows lasts exactly L − 1 steps: the step that
  reaches row L − 1 sets `done`, and the next call raises "Episode has
  ended". The `ThreeBarEpisode` scenario runs closes 100, 110, 105 with
  10000 in cash: Buy takes 100 shares and leaves cash 0; Sell at 110 gives
  cash 11000 and sets `done`; the third call is refused.
- A label compares each close with the previous one through the sign of
  `pct_change`. For a negative previous close that sign is the opposite of
  the move. For a zero previous close it is the sign of the difference
  (±inf), or 0 (NaN) when the close stays at zero. The model's `Label`
  gives these same signs.

## Model

| member | source | states |
|---|---|---|
| `TradingEnv.TradingEnvironment.Valid` | Application/scripts/trading_env.py:22-79 | The invariant every public method keeps: cash and position non-negative, `done` exactly when a step has reached the last row, and the cursor on a row except after the single step over a one-row table. |
| `TradingEnv.TradingEnvironment.constructor` | Application/scripts/trading_env.py:7-20 | The declared observation width is the column count minus datetime plus two (cash and position). The object starts in the reset state and satisfies the invariant. |
| `TradingEnv.TradingEnvironment.Reset` | Application/scripts/trading_env.py:22-28 | Sets step 0, balance = initial balance, position 0, total value = balance, not done. Returns row 0's observation, whose length is the declared width. Establishes the invariant. |
| `TradingEnv.TradingEnvironment.Observation` | Application/scripts/trading_env.py:30-32 | The observation has exactly the declared width: the current row's values, then the balance, then the position. |
| `TradingEnv.TradingEnvironment.Step` | Application/scripts/trading_env.py:36-79 | On a finished episode it fails with EpisodeEnded and changes no field. Otherwise: the new balance and position are `Trade` of the old ones at the current close. The total value equals the pre-step balance + position × close (value is conserved). The cursor moves by `Advance`. The result carries the next observation, `Reward` and `done`. With one row it fails with RowOutOfRange, as the lookup past the last row does. It keeps the invariant: cash ≥ 0, position ≥ 0, `done` iff step ≥ len − 1. With at least two rows the cursor stays on a row. |
| `TradingEnv.TradingEnvironment.ApplyTrade` | Application/scripts/trading_env.py:43-54 | The ledger part of a step: the new balance and position are `Trade` of the old ones at the given price, and the total value is the new holding marked to market. That equals the old holding's value. Cash and position stay non-negative; the cursor and `done` are untouched. |
| `TradingEnv.AddShaping` | Application/scripts/trading_env.py:57-69 | Applying the source's sequence of indicator adjustments to the base reward adds exactly `ShapingBonus` for the row, the decoded action and the price. |
| `TradingEnv.Decode` | Application/scripts/trading_env.py:44-51 | Defines how `step` reads an action code: 1 buys, 2 sells, and every other code holds. |
| `TradingEnv.MarkToMarket` | Application/scripts/trading_env.py:54 | Defines the portfolio value: cash plus shares times the price. |
| `TradingEnv.AffordableShares` | Application/scripts/trading_env.py:45 | Defines `balance // price` as the floor of the real quotient. |
| `TradingEnv.Trade` | Application/scripts/trading_env.py:43-51 | Defines one action's effect on cash and shares: Hold keeps both; Buy takes the affordable whole shares and pays for them; Sell turns the whole position into cash. |
| `TradingEnv.ShapingBonus` | Application/scripts/trading_env.py:59-69 | Defines the shaping terms: −5 for a doji row, +5 for a hammer, +10 for engulfing, and +10 for a buy below a defined VWAP or a sell above it. |
| `TradingEnv.Reward` | Application/scripts/trading_env.py:57-69 | Defines the step reward: the total value minus the initial balance, plus the shaping terms. |
| `TradingEnv.BuyLeavesLessThanOneShare` | Application/scripts/trading_env.py:44-47 | Buying with cash ≥ 0 at price > 0 leaves 0 ≤ cash < price. Shares never decrease. The shares bought times the price plus the cash left equals the old cash. |
| `TradingEnv.SellLiquidates` | Application/scripts/trading_env.py:49-51 | After a sell the position is 0 and all value is cash. Selling with no position changes nothing. |
| `TradingEnv.OtherCodesHold` | Application/scripts/trading_env.py:43-51 | Every action code other than 1 and 2 decodes to Hold and leaves the holding unchanged. |
| `TradingEnv.TradeConservesValue` | Application/scripts/trading_env.py:44-54 | For every action, the holding after the trade, marked to market at the trade price, is worth what it was worth before. |
| `TradingEnv.TradeKeepsNonNegative` | Application/scripts/trading_env.py:44-51 | Non-negative cash and shares stay non-negative under every action. |
| `TradingEnv.ShapingBonusBounds` | Application/scripts/trading_env.py:57-69 | The shaping terms add between −5 and +25. Apart from the candle terms they add exactly 0 or 10, so at most one VWAP bonus applies. Under Hold they add at most 15. |
| `TradingEnv.Advance` | Application/scripts/trading_env.py:72-74 | Defines one move of the episode cursor: the step grows by one and `done` is set when it reaches the table's length minus one. |
| `TradingEnv.Run` | Application/scripts/trading_env.py:36-38 | Defines the cursor after k calls of `step` from a reset, or nothing when one of them came after `done` and raised. |
| `TradingEnv.EpisodeLength` | Application/scripts/trading_env.py:72-77 | Over L ≥ 2 rows, k ≤ L − 1 steps from reset leave the cursor at k, done exactly when k = L − 1. Every later step is refused. So an episode is exactly L − 1 steps and the cursor never passes the last row. |
| `TradingEnv.SingleRowOverruns` | Application/scripts/trading_env.py:72-77 | Over a single row, the first step moves the cursor to 1, past the last row, and sets done. |
| `Indicators.Alpha` | Application/scripts/data_fetch.py:129-131 | The smoothing factor 2/(span+1) lies in (0, 1]. |
| `Indicators.Ema` | Application/scripts/data_fetch.py:129-131 | The EMA has one value per input value. |
| `Indicators.EmaRecurrence` | Application/scripts/data_fetch.py:129-131 | ema[0] = close[0], and ema[i] = α·close[i] + (1−α)·ema[i−1]. |
| `Indicators.EmaPrefix` | Application/scripts/data_fetch.py:129-131 | The EMA of a prefix is the prefix of the EMA. |
| `Indicators.EmaCausal` | Application/scripts/data_fetch.py:129-131 | Two series that agree up to index i have equal EMA at i. |
| `Indicators.EmaWithin` | Application/scripts/data_fetch.py:129-131 | If every input lies in [lo, hi], so does every EMA value. |
| `Indicators.EmaBetweenPrefixExtremes` | Application/scripts/data_fetch.py:129-131 | ema[i] lies between the minimum and the maximum of close[0..i]. |
| `Indicators.Macd` | Application/scripts/data_fetch.py:141-143 | MACD has one value per close. |
| `Indicators.MacdSignal` | Application/scripts/data_fetch.py:144 | The signal line has one value per close. |
| `Indicators.MacdWithinRange` | Application/scripts/data_fetch.py:141-143 | abs(macd[i]) is at most the spread (max − min) of close[0..i]. |
| `Indicators.MacdOfFlatSeries` | Application/scripts/data_fetch.py:141-144 | A constant close series has MACD and signal identically 0. |
| `Indicators.MacdPrefix` | Application/scripts/data_fetch.py:141-144 | MACD and signal of a prefix are the prefixes of MACD and signal. |
| `Indicators.Movement` | Application/scripts/data_fetch.py:134-136 | A gain or loss contribution is never negative. |
| `Indicators.WindowSum` | Application/scripts/data_fetch.py:135-136 | A window sum of gains or losses is never negative. |
| `Indicators.RollingMean` | Application/scripts/data_fetch.py:135-136 | The 14-row mean is defined exactly from index 13 on, and is never negative. |
| `Indicators.RsiAt` | Application/scripts/data_fetch.py:134-138 | RSI is undefined before index 13. When defined it lies in [0, 100]. |
| `Indicators.RsiAlgebra` | Application/scripts/data_fetch.py:137-138 | With loss > 0, 100 − 100/(1 + gain/loss) = 100·gain/(gain+loss). |
| `Indicators.RsiIsGainShare` | Application/scripts/data_fetch.py:134-138 | With a full window, RSI is the gain's share of gain + loss, times 100. It is undefined exactly when both are 0. This covers loss = 0 with gain > 0 giving 100. |
| `Indicators.WindowSumPrefix` | Application/scripts/data_fetch.py:135-136 | Window sums read only the closes up to the window's end. |
| `Indicators.RsiCausal` | Application/scripts/data_fetch.py:134-138 | RSI at i computed on any prefix containing i equals RSI on the whole series. |
| `Indicators.Doji` | Application/scripts/data_fetch.py:175 | Defines the doji flag: the body is under a tenth of the range, and false for a flat bar (inf or NaN is not below 0.1). |
| `Indicators.Hammer` | Application/scripts/data_fetch.py:176-178 | Defines the hammer flag: the range exceeds twice the body, and the close and the open both sit above 60% of the padded range. |
| `Indicators.EngulfingAt` | Application/scripts/data_fetch.py:179-182 | Defines the engulfing flag of row i: a bullish or bearish engulfing of the previous bar, false on row 0, which has no previous bar. |
| `Indicators.DojiBodyUnderTenthOfRange` | Application/scripts/data_fetch.py:175 | For high > low, doji holds iff 10·abs(open − close) < high − low. A flat bar is never a doji, by the definition. |
| `Indicators.HammerIsUpperBody` | Application/scripts/data_fetch.py:176-178 | Hammer holds iff all of these hold: high > low; the range exceeds twice the body; open and close both exceed low + 0.6·(0.001 + range). |
| `Indicators.EngulfingIsReversingContainment` | Application/scripts/data_fetch.py:179-182 | Engulfing holds iff i > 0, the bar reverses the previous bar's direction, and its body strictly contains the previous body. The bullish and bearish cases never hold together. |
| `Indicators.CumVolume` | Application/scripts/data_fetch.py:186 | Defines `volume.cumsum()` at n bars: the sum of their volumes. |
| `Indicators.CumTurnover` | Application/scripts/data_fetch.py:186 | Defines `(close * volume).cumsum()` at n bars: the sum of close times volume. |
| `Indicators.VwapAt` | Application/scripts/data_fetch.py:186 | Defines VWAP at i: cumulative turnover over cumulative volume, or nothing while the volume is zero (0/0 is NaN). |
| `Indicators.TurnoverBounds` | Application/scripts/data_fetch.py:186 | If the closes lie in [lo, hi], the cumulative close × volume lies between lo and hi times the cumulative volume. |
| `Indicators.CumVolumeZero` | Application/scripts/data_fetch.py:186 | The cumulative volume is 0 iff every volume so far is 0. |
| `Indicators.VwapDefined` | Application/scripts/data_fetch.py:186 | VWAP at i is defined iff some bar up to i has positive volume. |
| `Indicators.VwapBetween` | Application/scripts/data_fetch.py:186 | Any lower and upper bound on the closes up to i also bounds a defined VWAP at i. |
| `Indicators.VwapWithinPrefixRange` | Application/scripts/data_fetch.py:186 | A defined VWAP lies between the minimum and maximum close of its prefix. |
| `Indicators.CumulativePrefix` | Application/scripts/data_fetch.py:186 | Cumulative volume and turnover read only the bars they sum. |
| `Indicators.ComputeIndicators` | Application/scripts/data_fetch.py:128-150 | There is one feature row per bar, every defined RSI lies in [0, 100], and the first row is never engulfing. |
| `Indicators.IndicatorsCausal` | Application/scripts/data_fetch.py:128-150 | No look-ahead: the rows computed from the first k bars are the first k rows computed from all bars. |
| `DataPreparation.Complete` | Application/data_preparation.py:26 | Defines the row test of `dropna`: none of ema_8, ema_21, ema_50, rsi_14, macd and macd_signal is null. |
| `DataPreparation.LoadData` | Application/data_preparation.py:26 | Keeps only rows of the input with all six indicators present, and never more rows than given. |
| `DataPreparation.LoadDataRemovesExactlyIncomplete` | Application/data_preparation.py:26 | Every complete row survives as often as it occurs. No incomplete row survives. |
| `DataPreparation.LoadDataKeepsOrder` | Application/data_preparation.py:16-26 | Rows in strictly increasing datetime order stay in that order. |
| `DataPreparation.LoadDataSplits` | Application/data_preparation.py:26 | The filter decides row by row, so it distributes over concatenation. |
| `DataPreparation.LoadDataKeepsFlagNulls` | Application/data_preparation.py:26 | Nulls in doji, hammer, engulfing or vwap do not affect the filter. A complete row with such nulls survives. |
| `DataPreparation.MissingColumns` | Application/data_preparation.py:36-37 | A column is reported iff it is required and absent. |
| `DataPreparation.MissingColumnsInRequiredOrder` | Application/data_preparation.py:36-39 | The missing columns are listed in the order of the required-column list. |
| `DataPreparation.Features` | Application/data_preparation.py:42 | A feature row has one value per required column. |
| `DataPreparation.Label` | Application/data_preparation.py:43 | Every label is −1, 0 or 1. |
| `DataPreparation.LabelFollowsDirection` | Application/data_preparation.py:43 | For a positive previous close, the label is 1 iff the close rose, −1 iff it fell, and 0 iff unchanged. |
| `DataPreparation.LabelAfterNegativeClose` | Application/data_preparation.py:43 | For a negative previous close, the label is the opposite of the sign of the move. |
| `DataPreparation.LabelColumn` | Application/data_preparation.py:43 | The label column has one label per close, and every label after the first is `Label` of the previous close and its own. |
| `DataPreparation.DropFirst` | Application/data_preparation.py:46-47 | Dropping the first row shifts every later element down by one and shortens the column by one. An empty column stays empty. |
| `DataPreparation.FeatureRows` | Application/data_preparation.py:42-46 | After the drop there are n − 1 feature rows, and position i holds original row i + 1. |
| `DataPreparation.Labels` | Application/data_preparation.py:43-47 | After the drop there are n − 1 labels, and position i compares original row i + 1 with row i. |
| `DataPreparation.Split` | Application/data_preparation.py:50 | The split succeeds iff both parts are non-empty. The training part has the requested size, and train followed by test is the input. |
| `DataPreparation.PrepareData` | Application/data_preparation.py:35-50 | It succeeds iff no required column is missing, "close" is present, and both parts of the split would be non-empty (0 < nTrain and nTrain + 1 < the row count). Otherwise it raises the missing-columns error iff some required column is absent, listing exactly the absent ones in required order. It raises the KeyError for "close" iff the required columns are all present and "close" is not. In every other case it raises the empty-split error. On success the training parts have nTrain rows, and the training and test features (labels) concatenate to the feature rows (labels) after the first-row drop, with a non-empty test part. |
| `StockList.IsSpace` | web/backend/app.py:24 | Defines the characters `str.strip` removes: those for which Python's `isspace` holds. |
| `StockList.SkipSpace` | web/backend/app.py:37 | The first non-space at or after i, with only spaces skipped on the way. |
| `StockList.SkipSpaceBack` | web/backend/app.py:37 | The position just after the last non-space before j and not below lo, with only spaces skipped on the way. |
| `StockList.Strip` | web/backend/app.py:37 | The stripped text is no longer than the original and has no whitespace at either end. |
| `StockList.StripRemovesEdgeSpace` | web/backend/app.py:37 | The strip is a slice of the text with only whitespace before it and only whitespace after it. Together with `Strip`'s contract, exactly the leading and trailing whitespace goes. |
| `StockList.StripKeepsInnerText` | web/backend/app.py:37 | Every character of the strip occurs in the original text. |
| `StockList.StripOfStripped` | web/backend/app.py:37 | Text with no whitespace at either end is its own strip. |
| `StockList.StripIdempotent` | web/backend/app.py:37 | Stripping twice is stripping once. |
| `StockList.IsHeader` | web/backend/app.py:24 | Defines the header test: the stripped, lower-cased line is "symbol". |
| `StockList.Pieces` | web/backend/app.py:23 | Splitting on '\n' gives at least one piece and no piece holds a newline. |
| `StockList.SplitLines` | web/backend/app.py:23 | No line holds a newline. |
| `StockList.Join` | web/backend/app.py:47 | Defines `'\n'.join`: the lines with one newline between neighbours. |
| `StockList.PiecesOfJoin` | web/backend/app.py:47 | Splitting on '\n' undoes the join of newline-free lines. |
| `StockList.PiecesWithNewline` | web/backend/app.py:47 | A final newline adds exactly one empty piece. |
| `StockList.JoinWithNewlineReadsBack` | web/backend/app.py:46-47 | Lines joined with "\n" plus a final newline split back into the same lines. |
| `StockList.JoinReadsBack` | web/backend/app.py:67-68 | Lines joined with "\n" and no final newline split back into the same lines, unless the last line is empty. |
| `StockList.StripAll` | web/backend/app.py:37 | One stripped line per line, each the strip of the line at the same position. |
| `StockList.CleanLines` | web/backend/app.py:37 | The cleaned lines are non-blank and already stripped. |
| `StockList.CleanLinesKeepsNonBlankStrips` | web/backend/app.py:37 | Cleaning is exactly the strip of every line with the blank strips dropped, in file order. |
| `StockList.CleanLinesNoNewline` | web/backend/app.py:37 | Cleaning newline-free lines gives newline-free lines. |
| `StockList.CleanLinesOfClean` | web/backend/app.py:37 | Cleaning leaves lines that are already clean as they are. |
| `StockList.RemoveFirst` | web/backend/app.py:66 | Removing a present element shortens the list by one. |
| `StockList.RemoveFirstIsSlice` | web/backend/app.py:66 | Exactly the first occurrence goes. The elements before and after it stay, in order. |
| `StockList.RemoveFirstCount` | web/backend/app.py:66 | The result has one copy of the symbol fewer, and every other element is unchanged. |
| `StockList.Listing` | web/backend/app.py:22-24 | The listing contains only file lines that are not the header. |
| `StockList.ListingDropsExactlyHeaders` | web/backend/app.py:24 | Every non-header line is listed as often as it occurs, and no header line is listed. |
| `StockList.TickerFile.Get` | web/backend/app.py:20-27 | A missing file gives 404. Otherwise it gives 200 with the file's lines minus header lines, and the file is unchanged. |
| `StockList.TickerFile.Post` | web/backend/app.py:29-51 | A missing or empty symbol gives 400 with no change. A missing file gives 500 with no change. A symbol among the stripped non-blank lines gives 400 with no change. Otherwise it writes those lines plus the symbol, newline-joined with a final newline, and answers 200. |
| `StockList.TickerFile.Delete` | web/backend/app.py:56-71 | A missing or empty symbol gives 400 with no change. A missing file gives 500 with no change. A symbol not among the raw lines gives 404 with no change. Otherwise it writes the lines minus the first copy, newline-joined without a final newline, and answers 200. |
| `StockList.PostReadsBack` | web/backend/app.py:37-47 | After a successful POST of a newline-free symbol, the file reads back as the cleaned old lines with the symbol as the last line. |
| `StockList.PostTwiceRefused` | web/backend/app.py:36-47 | Posting the same stripped symbol again is refused as already present. |
| `StockList.DeleteReadsBack` | web/backend/app.py:62-68 | After a successful DELETE, the file reads back as the old lines minus the first copy of the symbol. This holds when the remaining last line is non-empty. |

## Left out

- Network, database and file I/O:
  - The Alpha Vantage client, all SQLite reads, inserts and updates, the row-by-row update loop and the throttled driver are not modelled.
  - The SQL query of `load_data` is not modelled. Its rows arrive as a sequence already in datetime order.
  - `pd.to_datetime` is not modelled. Datetimes are integers.
- Flask, CORS and the other routes (`/train`, `/portfolio`, `/tensorboard`) are not part of this model, and neither are `web/backend/training_manager.py`, the training drivers, the launch scripts or the React frontend. They are subprocess, thread-lock, UI and plotting code.
- StockList.SplitLines: splits on '\n' only. GET (app.py:23) and DELETE (app.py:63) read the file with `splitlines`, which also ends a line at `\r`, `\r\n`, `\x0b`, `\x0c`, `\x1c` to `\x1e`, `\x85`, `\u2028` and `\u2029`; the model keeps those characters inside a line.
- StockList.CleanLines: POST (app.py:37) iterates the file object, whose universal-newline reading turns only `\r` and `\r\n` into line ends. The model does not treat `\r` as a line end; the other characters listed above stay inside a line in the source as in the model.
- `TickerFile`: a non-JSON request body or a non-string symbol is not modelled. The symbol is `Option<string>`.
- `TickerFile`: the text of a 500 error is not modelled. It is whatever exception message the OS gives.
- `IsHeader` lowers ASCII letters only. No other character lowers to a letter of "symbol", so the header test agrees with Python's for every line.
- IEEE floating point is not modelled:
  - Prices and indicators are exact reals.
  - A NaN result is `None`. The inf cases (RSI with zero loss, labels after a zero close) are resolved to the values Python then computes.
  - The float32 dtype of the declared observation space and float share counts are not modelled. Positions are integers.
- Indicators.ComputeIndicators: models the formulas of data_fetch.py:128-150 on whichever bars survive the preceding `df.dropna(inplace=True)` (data_fetch.py:126). The query before it, the numeric coercion and that `dropna` are not modelled: a `Bar` has no missing fields. The notes above say which rows that `dropna` lets through.
- TradingEnv.TradingEnvironment.constructor: requires a non-empty table, numeric feature columns, positive closes and a non-negative initial balance, so three failures of the source are not modelled:
  - an empty table makes `iloc[0]` in `_get_observation` raise IndexError while `__init__` runs `reset`;
  - a non-numeric column other than `datetime`, such as the `symbol` column of the prepared CSV, makes `.astype(float)` raise ValueError; `Row.values` holds reals only and cannot represent such a column;
  - a zero close makes `balance // price` in `step` divide by zero.
- TradingEnv.TradingEnvironment.constructor: a negative initial balance is not refused by the source; the model assumes it is non-negative (the default is 10000), which keeps cash and position non-negative.
- A `Row` of the environment takes boolean doji, hammer and engulfing flags. A null flag cell would be NaN, which Python treats as true in `if`. That mapping is left to the caller.
- DataPreparation.PrepareData: takes the training-part size as a parameter. `train_test_split` computes it as `n − ceil(0.2·n)` in floating point, which is not modelled. The refusal of an empty part is modelled.
- `StandardScaler` is not modelled. It is a floating-point library transform. The split returns the unscaled features.
- `render` is not modelled. It only prints.
- The gym action and observation space objects are not modelled. The environment does not validate actions against `Discrete(3)`.
