/** The technical indicators that the intraday data fetcher derives from one
    symbol's OHLCV bars (Application/scripts/data_fetch.py): exponential
    moving averages, RSI over 14 rows, MACD and its signal line, the doji,
    hammer and engulfing candlestick flags, and the cumulative VWAP.

    Every indicator is a column computed from the whole ordered series, and
    every value at row i depends only on rows 0..i. Prices are exact reals;
    a value that pandas leaves as NaN (an RSI warm-up row, a 0/0 ratio, a
    VWAP before any volume has traded) is `None`. */
module Indicators {
  import opened Basics

  /** One OHLCV sample, in the order of the series. */
  datatype Bar = Bar(open: real, high: real, low: real, close: real, volume: nat)

  /** The close column. */
  function Closes(bars: seq<Bar>): (cs: seq<real>)
    ensures |cs| == |bars|
    ensures forall i :: 0 <= i < |bars| ==> cs[i] == bars[i].close
  {
    seq(|bars|, i requires 0 <= i < |bars| => bars[i].close)
  }

  function Abs(x: real): real
  {
    if x < 0.0 then -x else x
  }

  // ---------------------------------------------------------------------
  // Exponential moving average, pandas `ewm(span, adjust=False).mean()`
  // ---------------------------------------------------------------------

  /** The smoothing factor pandas derives from a span. */
  function Alpha(span: nat): (a: real)
    requires span >= 1
    ensures 0.0 < a <= 1.0
  {
    2.0 / (span as real + 1.0)
  }

  /** One smoothing step: weight `a` on the new input, `1 - a` on the
      previous average. */
  function Smooth(a: real, x: real, prev: real): real
  {
    a * x + (1.0 - a) * prev
  }

  /** The EMA of `xs`: the first value is the first input, and each later
      value mixes the new input with the previous average. */
  function Ema(xs: seq<real>, span: nat): (r: seq<real>)
    requires span >= 1
    ensures |r| == |xs|
    decreases |xs|
  {
    if |xs| <= 1 then xs
    else
      var prev := Ema(xs[..|xs| - 1], span);
      prev + [Smooth(Alpha(span), xs[|xs| - 1], prev[|xs| - 2])]
  }

  /** Causality: the EMA of a prefix is the prefix of the EMA. */
  lemma {:induction false} EmaPrefix(xs: seq<real>, span: nat, k: nat)
    requires span >= 1 && k <= |xs|
    ensures Ema(xs[..k], span) == Ema(xs, span)[..k]
    decreases |xs|
  {
    if k == |xs| {
      assert xs[..k] == xs;
    } else if |xs| >= 2 {
      var init := xs[..|xs| - 1];
      assert Ema(xs, span)[..|xs| - 1] == Ema(init, span);
      EmaPrefix(init, span, k);
      assert init[..k] == xs[..k];
    }
  }

  /** The recurrence that defines the adjust=False EMA, stated per index. */
  lemma EmaRecurrence(xs: seq<real>, span: nat, i: nat)
    requires span >= 1 && i < |xs|
    ensures i == 0 ==> Ema(xs, span)[0] == xs[0]
    ensures i > 0 ==> Ema(xs, span)[i] == Smooth(Alpha(span), xs[i], Ema(xs, span)[i - 1])
  {
    EmaPrefix(xs, span, i + 1);
    if i > 0 {
      var p := xs[..i + 1];
      assert p[..|p| - 1] == xs[..i];
      var prev := Ema(xs[..i], span);
      assert Ema(p, span)[i] == Smooth(Alpha(span), p[|p| - 1], prev[|p| - 2]);
      EmaPrefix(xs, span, i);
    }
  }

  /** The EMA value at row i depends only on rows 0..i of its input. */
  lemma EmaCausal(xs: seq<real>, ys: seq<real>, span: nat, i: nat)
    requires span >= 1 && i < |xs| && i < |ys|
    requires xs[..i + 1] == ys[..i + 1]
    ensures Ema(xs, span)[i] == Ema(ys, span)[i]
  {
    EmaPrefix(xs, span, i + 1);
    EmaPrefix(ys, span, i + 1);
  }

  /** A weighted mean of two values in [lo, hi] stays in [lo, hi]. */
  lemma Convex(a: real, x: real, y: real, lo: real, hi: real)
    requires 0.0 <= a <= 1.0 && lo <= x <= hi && lo <= y <= hi
    ensures lo <= a * x + (1.0 - a) * y <= hi
  {
    MulNonNeg(a, x - lo);
    MulNonNeg(1.0 - a, y - lo);
    MulNonNeg(a, hi - x);
    MulNonNeg(1.0 - a, hi - y);
  }

  /** If every input lies in [lo, hi], so does every EMA value. */
  lemma {:induction false} EmaWithin(xs: seq<real>, span: nat, lo: real, hi: real)
    requires span >= 1
    requires forall i :: 0 <= i < |xs| ==> lo <= xs[i] <= hi
    ensures forall i :: 0 <= i < |xs| ==> lo <= Ema(xs, span)[i] <= hi
    decreases |xs|
  {
    if |xs| >= 2 {
      var init := xs[..|xs| - 1];
      var prev := Ema(init, span);
      EmaWithin(init, span, lo, hi);
      Convex(Alpha(span), xs[|xs| - 1], prev[|xs| - 2], lo, hi);
    }
  }

  /** Every EMA value lies between the least and the greatest input of its
      prefix. */
  lemma EmaBetweenPrefixExtremes(xs: seq<real>, span: nat, i: nat)
    requires span >= 1 && i < |xs|
    ensures Min(xs[..i + 1]) <= Ema(xs, span)[i] <= Max(xs[..i + 1])
  {
    var p := xs[..i + 1];
    EmaWithin(p, span, Min(p), Max(p));
    EmaPrefix(xs, span, i + 1);
  }

  // ---------------------------------------------------------------------
  // MACD: EMA(12) - EMA(26), and its signal line EMA(9) of the MACD
  // ---------------------------------------------------------------------

  function Macd(closes: seq<real>): (m: seq<real>)
    ensures |m| == |closes|
  {
    var fast := Ema(closes, 12);
    var slow := Ema(closes, 26);
    seq(|closes|, i requires 0 <= i < |closes| => fast[i] - slow[i])
  }

  function MacdSignal(closes: seq<real>): (s: seq<real>)
    ensures |s| == |closes|
  {
    Ema(Macd(closes), 9)
  }

  /** The MACD at row i is at most the spread of the closes seen so far. */
  lemma MacdWithinRange(closes: seq<real>, i: nat)
    requires i < |closes|
    ensures Abs(Macd(closes)[i]) <= Max(closes[..i + 1]) - Min(closes[..i + 1])
  {
    EmaBetweenPrefixExtremes(closes, 12, i);
    EmaBetweenPrefixExtremes(closes, 26, i);
  }

  /** A flat price series has a zero MACD and a zero signal line. */
  lemma MacdOfFlatSeries(closes: seq<real>, c: real)
    requires forall i :: 0 <= i < |closes| ==> closes[i] == c
    ensures forall i :: 0 <= i < |closes| ==> Macd(closes)[i] == 0.0
    ensures forall i :: 0 <= i < |closes| ==> MacdSignal(closes)[i] == 0.0
  {
    EmaWithin(closes, 12, c, c);
    EmaWithin(closes, 26, c, c);
    EmaWithin(Macd(closes), 9, 0.0, 0.0);
  }

  /** MACD and its signal line of a prefix are the prefixes of both lines. */
  lemma MacdPrefix(closes: seq<real>, k: nat)
    requires k <= |closes|
    ensures Macd(closes[..k]) == Macd(closes)[..k]
    ensures MacdSignal(closes[..k]) == MacdSignal(closes)[..k]
  {
    EmaPrefix(closes, 12, k);
    EmaPrefix(closes, 26, k);
    assert Macd(closes[..k]) == Macd(closes)[..k];
    EmaPrefix(Macd(closes), 9, k);
  }

  // ---------------------------------------------------------------------
  // RSI over a 14-row window of close-to-close moves
  // ---------------------------------------------------------------------

  const RsiWindow: nat := 14

  /** The close-to-close move into row j; the first row's move is NaN in
      pandas, which both `where` calls replace by 0. */
  function Delta(closes: seq<real>, j: nat): real
    requires j < |closes|
  {
    if j == 0 then 0.0 else closes[j] - closes[j - 1]
  }

  /** The upward (`up`) or downward part of the move into row j. */
  function Movement(closes: seq<real>, j: nat, up: bool): (m: real)
    requires j < |closes|
    ensures m >= 0.0
  {
    var d := Delta(closes, j);
    if up then (if d > 0.0 then d else 0.0) else (if d < 0.0 then -d else 0.0)
  }

  /** The sum of the movements into rows lo..hi-1. */
  function WindowSum(closes: seq<real>, lo: nat, hi: nat, up: bool): (s: real)
    requires lo <= hi <= |closes|
    ensures s >= 0.0
    decreases hi
  {
    if lo == hi then 0.0 else WindowSum(closes, lo, hi - 1, up) + Movement(closes, hi - 1, up)
  }

  /** pandas `rolling(window=14).mean()`: defined once 14 rows are there. */
  function RollingMean(closes: seq<real>, i: nat, up: bool): (r: Option<real>)
    requires i < |closes|
    ensures r.Some? <==> i + 1 >= RsiWindow
    ensures r.Some? ==> r.value >= 0.0
  {
    if i + 1 < RsiWindow then None
    else Some(WindowSum(closes, i + 1 - RsiWindow, i + 1, up) / RsiWindow as real)
  }

  /** `100 - 100 / (1 + gain / loss)` with pandas' float rules: a zero loss
      with a positive gain gives an infinite ratio and so 100; 0/0 is NaN. */
  function RsiAt(closes: seq<real>, i: nat): (r: Option<real>)
    requires i < |closes|
    ensures r.Some? ==> 0.0 <= r.value <= 100.0
    ensures i + 1 < RsiWindow ==> r.None?
  {
    match (RollingMean(closes, i, true), RollingMean(closes, i, false))
    case (Some(gain), Some(loss)) =>
      if loss > 0.0 then
        assert 1.0 + gain / loss >= 1.0;
        Some(100.0 - 100.0 / (1.0 + gain / loss))
      else if gain > 0.0 then Some(100.0)
      else None
    case _ => None
  }

  // The algebra behind RsiIsGainShare, one division identity at a time.

  lemma OnePlusRatio(g: real, l: real, t: real)
    requires l > 0.0 && t == l + g
    ensures 1.0 + g / l == t / l
  {
    DivCancel(g, l);
    DivCancel(t, l);
    assert (1.0 + g / l) * l == l + (g / l) * l;
    MulCancel(1.0 + g / l, t / l, l);
  }

  lemma DivByRatio(c: real, t: real, l: real)
    requires t > 0.0 && l > 0.0
    ensures c / (t / l) == c * l / t
  {
    var q := t / l;
    DivCancel(t, l);
    DivCancel(c, q);
    DivCancel(c * l, t);
    assert (c / q) * t == (c / q) * (q * l) == ((c / q) * q) * l;
    MulCancel(c / q, c * l / t, t);
  }

  lemma ShareComplement(g: real, l: real, t: real)
    requires t > 0.0 && t == g + l
    ensures 100.0 - 100.0 * l / t == 100.0 * g / t
  {
    DivCancel(100.0 * l, t);
    DivCancel(100.0 * g, t);
    assert (100.0 - 100.0 * l / t) * t == 100.0 * t - (100.0 * l / t) * t;
    MulCancel(100.0 - 100.0 * l / t, 100.0 * g / t, t);
  }

  lemma RsiAlgebra(gain: real, loss: real)
    requires gain >= 0.0 && loss > 0.0
    ensures 100.0 - 100.0 / (1.0 + gain / loss) == 100.0 * gain / (gain + loss)
  {
    var total := gain + loss;
    OnePlusRatio(gain, loss, total);
    DivByRatio(100.0, total, loss);
    ShareComplement(gain, loss, total);
  }

  /** For every row with a full window, RSI is the gain's share of all
      movement, in percent, and is undefined exactly when nothing moved. */
  lemma RsiIsGainShare(closes: seq<real>, i: nat)
    requires RsiWindow <= i + 1 <= |closes|
    ensures var gain := RollingMean(closes, i, true).value;
            var loss := RollingMean(closes, i, false).value;
            RsiAt(closes, i) == if gain + loss > 0.0 then Some(100.0 * gain / (gain + loss)) else None
  {
    var gain := RollingMean(closes, i, true).value;
    var loss := RollingMean(closes, i, false).value;
    if loss > 0.0 {
      RsiAlgebra(gain, loss);
    } else if gain > 0.0 {
      assert 100.0 * gain / (gain + loss) == 100.0;
    }
  }

  /** Window sums over rows below k are the same on the prefix of length k. */
  lemma {:induction false} WindowSumPrefix(closes: seq<real>, k: nat, lo: nat, hi: nat, up: bool)
    requires lo <= hi <= k <= |closes|
    ensures WindowSum(closes[..k], lo, hi, up) == WindowSum(closes, lo, hi, up)
    decreases hi
  {
    if lo < hi {
      WindowSumPrefix(closes, k, lo, hi - 1, up);
      assert Movement(closes[..k], hi - 1, up) == Movement(closes, hi - 1, up);
    }
  }

  /** The RSI at row i depends only on rows 0..i. */
  lemma RsiCausal(closes: seq<real>, k: nat, i: nat)
    requires i < k <= |closes|
    ensures RsiAt(closes[..k], i) == RsiAt(closes, i)
  {
    if i + 1 >= RsiWindow {
      WindowSumPrefix(closes, k, i + 1 - RsiWindow, i + 1, true);
      WindowSumPrefix(closes, k, i + 1 - RsiWindow, i + 1, false);
    }
  }

  // ---------------------------------------------------------------------
  // Candlestick flags
  // ---------------------------------------------------------------------

  /** `|open - close| / (high - low) < 0.1`; a flat bar divides by zero,
      which yields inf or NaN, and neither is below 0.1. */
  predicate Doji(b: Bar)
  {
    b.high != b.low && Abs(b.open - b.close) / (b.high - b.low) < 0.1
  }

  /** On a bar with a positive range, a doji is a body under a tenth of the
      range. */
  lemma DojiBodyUnderTenthOfRange(b: Bar)
    requires b.high > b.low
    ensures Doji(b) <==> 10.0 * Abs(b.open - b.close) < b.high - b.low
  {
    DivLess(Abs(b.open - b.close), b.high - b.low, 0.1);
  }

  /** The range exceeds twice the body and both open and close sit above
      60% of the padded range `0.001 + high - low`. The first conjunct makes
      the padded range positive, so the divisions are well defined. */
  predicate Hammer(b: Bar)
  {
    var range := b.high - b.low;
    range > 2.0 * Abs(b.open - b.close)
    && (b.close - b.low) / (0.001 + range) > 0.6
    && (b.open - b.low) / (0.001 + range) > 0.6
  }

  /** The division-free reading of the hammer rule: a bar with a real range
      whose open and close both lie in the top 40% of the padded range. */
  lemma HammerIsUpperBody(b: Bar)
    ensures Hammer(b) <==>
      var padded := 0.001 + b.high - b.low;
      b.high > b.low
      && b.high - b.low > 2.0 * Abs(b.open - b.close)
      && b.close - b.low > 0.6 * padded
      && b.open - b.low > 0.6 * padded
  {
    var range := b.high - b.low;
    if range > 2.0 * Abs(b.open - b.close) {
      DivGreater(b.close - b.low, 0.001 + range, 0.6);
      DivGreater(b.open - b.low, 0.001 + range, 0.6);
    }
  }

  predicate Bullish(prev: Bar, cur: Bar)
  {
    cur.close > cur.open && prev.close < prev.open && cur.close > prev.open && cur.open < prev.close
  }

  predicate Bearish(prev: Bar, cur: Bar)
  {
    cur.close < cur.open && prev.close > prev.open && cur.close < prev.open && cur.open > prev.close
  }

  /** The engulfing flag of row i; row 0 compares against a shifted NaN
      row, so every comparison there is false. */
  predicate EngulfingAt(bars: seq<Bar>, i: nat)
    requires i < |bars|
  {
    i > 0 && (Bullish(bars[i - 1], bars[i]) || Bearish(bars[i - 1], bars[i]))
  }

  function BodyLow(b: Bar): real { if b.open <= b.close then b.open else b.close }
  function BodyHigh(b: Bar): real { if b.open <= b.close then b.close else b.open }

  /** Engulfing means: the bar reverses the previous bar's direction (neither
      is flat) and its body strictly contains the previous body. The bullish
      and bearish cases never hold together. */
  lemma EngulfingIsReversingContainment(bars: seq<Bar>, i: nat)
    requires i < |bars|
    ensures EngulfingAt(bars, i) <==>
      i > 0
      && ((bars[i].close > bars[i].open && bars[i - 1].close < bars[i - 1].open)
          || (bars[i].close < bars[i].open && bars[i - 1].close > bars[i - 1].open))
      && BodyLow(bars[i]) < BodyLow(bars[i - 1])
      && BodyHigh(bars[i - 1]) < BodyHigh(bars[i])
    ensures i > 0 ==> !(Bullish(bars[i - 1], bars[i]) && Bearish(bars[i - 1], bars[i]))
  {
  }

  // ---------------------------------------------------------------------
  // Cumulative VWAP
  // ---------------------------------------------------------------------

  /** Volume traded in the first n bars. */
  function CumVolume(bars: seq<Bar>, n: nat): nat
    requires n <= |bars|
  {
    if n == 0 then 0 else CumVolume(bars, n - 1) + bars[n - 1].volume
  }

  /** Sum of close times volume over the first n bars. */
  function CumTurnover(bars: seq<Bar>, n: nat): real
    requires n <= |bars|
  {
    if n == 0 then 0.0 else CumTurnover(bars, n - 1) + bars[n - 1].close * bars[n - 1].volume as real
  }

  /** `cumsum(close * volume) / cumsum(volume)`; NaN (0/0) while no volume
      has traded yet. */
  function VwapAt(bars: seq<Bar>, i: nat): Option<real>
    requires i < |bars|
  {
    var v := CumVolume(bars, i + 1);
    if v == 0 then None else Some(CumTurnover(bars, i + 1) / v as real)
  }

  /** Adding one more bar keeps the turnover between lo and hi times the
      volume. */
  lemma BoundsStep(lo: real, hi: real, c: real, v: real, vs: real, ts: real, vol: real, turnover: real)
    requires lo <= c <= hi && v >= 0.0 && lo * vs <= ts <= hi * vs
    requires vol == vs + v && turnover == ts + c * v
    ensures lo * vol <= turnover <= hi * vol
  {
    MulMonotone(lo, c, v);
    MulMonotone(c, hi, v);
  }

  lemma {:induction false} TurnoverBounds(bars: seq<Bar>, n: nat, lo: real, hi: real)
    requires n <= |bars|
    requires forall j :: 0 <= j < n ==> lo <= bars[j].close <= hi
    ensures lo * CumVolume(bars, n) as real <= CumTurnover(bars, n) <= hi * CumVolume(bars, n) as real
  {
    if n > 0 {
      TurnoverBounds(bars, n - 1, lo, hi);
      var v := bars[n - 1].volume as real;
      var vs := CumVolume(bars, n - 1) as real;
      var ts := CumTurnover(bars, n - 1);
      var c := bars[n - 1].close;
      assert CumVolume(bars, n) as real == vs + v;
      assert CumTurnover(bars, n) == ts + c * v;
      BoundsStep(lo, hi, c, v, vs, ts, CumVolume(bars, n) as real, CumTurnover(bars, n));
    }
  }

  lemma {:induction false} CumVolumeZero(bars: seq<Bar>, n: nat)
    requires n <= |bars|
    ensures CumVolume(bars, n) == 0 <==> forall j :: 0 <= j < n ==> bars[j].volume == 0
  {
    if n > 0 {
      CumVolumeZero(bars, n - 1);
    }
  }

  /** VWAP is defined exactly once some volume has traded. */
  lemma VwapDefined(bars: seq<Bar>, i: nat)
    requires i < |bars|
    ensures VwapAt(bars, i).Some? <==> exists j :: 0 <= j <= i && bars[j].volume > 0
  {
    CumVolumeZero(bars, i + 1);
  }

  /** A defined VWAP lies within any bounds on the closes seen so far. */
  lemma VwapBetween(bars: seq<Bar>, i: nat, lo: real, hi: real)
    requires i < |bars| && VwapAt(bars, i).Some?
    requires forall j :: 0 <= j <= i ==> lo <= bars[j].close <= hi
    ensures lo <= VwapAt(bars, i).value <= hi
  {
    var t := CumTurnover(bars, i + 1);
    var v := CumVolume(bars, i + 1) as real;
    TurnoverBounds(bars, i + 1, lo, hi);
    DivBounds(t, v, lo, hi);
  }

  /** A defined VWAP lies between the least and the greatest close seen so
      far. */
  lemma VwapWithinPrefixRange(bars: seq<Bar>, i: nat)
    requires i < |bars| && VwapAt(bars, i).Some?
    ensures Min(Closes(bars)[..i + 1]) <= VwapAt(bars, i).value <= Max(Closes(bars)[..i + 1])
  {
    var p := Closes(bars)[..i + 1];
    forall j | 0 <= j <= i
      ensures Min(p) <= bars[j].close <= Max(p)
    {
      assert bars[j].close == p[j];
    }
    VwapBetween(bars, i, Min(p), Max(p));
  }

  lemma {:induction false} CumulativePrefix(bars: seq<Bar>, k: nat, n: nat)
    requires n <= k <= |bars|
    ensures CumVolume(bars[..k], n) == CumVolume(bars, n)
    ensures CumTurnover(bars[..k], n) == CumTurnover(bars, n)
  {
    if n > 0 {
      CumulativePrefix(bars, k, n - 1);
    }
  }

  // ---------------------------------------------------------------------
  // The indicator columns computed over the bars that reach the formulas
  // ---------------------------------------------------------------------

  datatype FeatureRow = FeatureRow(
    ema8: real, ema21: real, ema50: real, rsi14: Option<real>,
    macd: real, macdSignal: real,
    doji: bool, hammer: bool, engulfing: bool, vwap: Option<real>)

  /** All indicator columns, one row per bar, in bar order. */
  function ComputeIndicators(bars: seq<Bar>): (rows: seq<FeatureRow>)
    ensures |rows| == |bars|
    ensures forall i :: 0 <= i < |rows| && rows[i].rsi14.Some? ==> 0.0 <= rows[i].rsi14.value <= 100.0
    ensures |rows| > 0 ==> !rows[0].engulfing
  {
    var closes := Closes(bars);
    var ema8, ema21, ema50 := Ema(closes, 8), Ema(closes, 21), Ema(closes, 50);
    var macd, signal := Macd(closes), MacdSignal(closes);
    seq(|bars|, i requires 0 <= i < |bars| =>
      FeatureRow(ema8[i], ema21[i], ema50[i], RsiAt(closes, i), macd[i], signal[i],
                 Doji(bars[i]), Hammer(bars[i]), EngulfingAt(bars, i), VwapAt(bars, i)))
  }

  /** No look-ahead: the rows computed from the first k bars are the first k
      rows computed from the whole series. */
  lemma IndicatorsCausal(bars: seq<Bar>, k: nat)
    requires k <= |bars|
    ensures ComputeIndicators(bars[..k]) == ComputeIndicators(bars)[..k]
  {
    var closes := Closes(bars);
    assert Closes(bars[..k]) == closes[..k];
    EmaPrefix(closes, 8, k);
    EmaPrefix(closes, 21, k);
    EmaPrefix(closes, 50, k);
    MacdPrefix(closes, k);
    forall i | 0 <= i < k
      ensures ComputeIndicators(bars[..k])[i] == ComputeIndicators(bars)[i]
    {
      RsiCausal(closes, k, i);
      CumulativePrefix(bars, k, i + 1);
    }
  }
}
