/** The single-symbol trading environment (Application/scripts/trading_env.py):
    an episode walks the feature table one row at a time; each step applies
    Hold, Buy or Sell at the row's close, revalues the portfolio, computes a
    reward shaped by the row's candlestick and VWAP columns, and advances the
    cursor until the last row is reached.

    The pure part (what a trade does to cash and shares, the reward, the
    cursor) is stated as functions with lemmas; the environment itself is a
    class whose methods update its fields as the source does, and whose
    contracts tie each new state to those functions. */
module TradingEnv {
  import opened Basics

  // ---------------------------------------------------------------------
  // Actions and the ledger
  // ---------------------------------------------------------------------

  datatype Action = Hold | Buy | Sell

  /** `step` compares the action code with 1 (Buy) and 2 (Sell); any other
      code, 0 included, holds. */
  function Decode(code: int): (a: Action)
  {
    if code == 1 then Buy else if code == 2 then Sell else Hold
  }

  /** Cash balance and number of shares held. */
  datatype Holding = Holding(cash: real, shares: int)

  /** `balance + position * price`. */
  function MarkToMarket(h: Holding, price: real): real
  {
    h.cash + h.shares as real * price
  }

  /** `balance // price`: Python's floored division. */
  function AffordableShares(cash: real, price: real): int
    requires price > 0.0
  {
    (cash / price).Floor
  }

  /** The effect of one action at one price: Buy spends on as many whole
      shares as the cash affords, Sell liquidates the whole position. */
  function Trade(h: Holding, a: Action, price: real): Holding
    requires price > 0.0
  {
    match a
    case Hold => h
    case Buy =>
      var n := AffordableShares(h.cash, price);
      Holding(h.cash - n as real * price, h.shares + n)
    case Sell => Holding(h.cash + h.shares as real * price, 0)
  }

  /** Buy with non-negative cash never overdraws, never sells, and leaves
      less cash than one more share would cost. */
  lemma BuyLeavesLessThanOneShare(h: Holding, price: real)
    requires price > 0.0 && h.cash >= 0.0
    ensures var r := Trade(h, Buy, price);
      0.0 <= r.cash < price && r.shares >= h.shares
      && (r.shares - h.shares) as real * price + r.cash == h.cash
  {
    var n := AffordableShares(h.cash, price);
    DivLess(h.cash, price, 0.0);
    FloorRemainder(h.cash, price, n as real);
  }

  /** The remainder left by m whole units of v out of t, when m is the
      floor of t / v. */
  lemma FloorRemainder(t: real, v: real, m: real)
    requires v > 0.0 && m <= t / v < m + 1.0
    ensures 0.0 <= t - m * v < v
  {
    var q := t / v;
    DivCancel(t, v);
    assert q * v == t;
    MulMonotone(m, q, v);
    var next := m + 1.0;
    MulStrict(q, next, v);
    assert t < next * v;
    assert next * v == m * v + v;
  }

  /** Selling with no position changes nothing; after a sell the whole value
      is cash. */
  lemma SellLiquidates(h: Holding, price: real)
    requires price > 0.0
    ensures Trade(h, Sell, price).shares == 0
    ensures MarkToMarket(Trade(h, Sell, price), price) == Trade(h, Sell, price).cash
    ensures h.shares == 0 ==> Trade(h, Sell, price) == h
  {
  }

  /** Every code other than 1 and 2 leaves the holding as it is. */
  lemma OtherCodesHold(code: int, h: Holding, price: real)
    requires price > 0.0 && code != 1 && code != 2
    ensures Decode(code) == Hold && Trade(h, Decode(code), price) == h
  {
  }

  /** Trading at a price does not change what the holding is worth at that
      price: the portfolio value is conserved by every action. */
  lemma TradeConservesValue(h: Holding, a: Action, price: real)
    requires price > 0.0
    ensures MarkToMarket(Trade(h, a, price), price) == MarkToMarket(h, price)
  {
    match a
    case Hold =>
    case Buy =>
      var n := AffordableShares(h.cash, price);
      assert (h.shares + n) as real * price == h.shares as real * price + n as real * price;
    case Sell =>
  }

  /** Cash and shares stay non-negative under every action. */
  lemma TradeKeepsNonNegative(h: Holding, a: Action, price: real)
    requires price > 0.0 && h.cash >= 0.0 && h.shares >= 0
    ensures Trade(h, a, price).cash >= 0.0 && Trade(h, a, price).shares >= 0
  {
    match a
    case Hold =>
    case Buy => BuyLeavesLessThanOneShare(h, price);
    case Sell => MulNonNeg(h.shares as real, price);
  }

  // ---------------------------------------------------------------------
  // Reward
  // ---------------------------------------------------------------------

  /** One row of the feature table: the non-datetime values that make up
      the observation, and the cells `step` reads by name. A NaN VWAP cell
      is `None`; a NaN in a comparison is false. */
  datatype Row = Row(values: seq<real>, close: real, doji: bool, hammer: bool, engulfing: bool, vwap: Option<real>)

  /** The indicator-based shaping terms, each on its own. */
  function ShapingBonus(row: Row, a: Action, price: real): real
  {
    (if row.doji then -5.0 else 0.0)
    + (if row.hammer then 5.0 else 0.0)
    + (if row.engulfing then 10.0 else 0.0)
    + (if a == Buy && row.vwap.Some? && price < row.vwap.value then 10.0 else 0.0)
    + (if a == Sell && row.vwap.Some? && price > row.vwap.value then 10.0 else 0.0)
  }

  /** The step reward: the portfolio's gain over the initial balance plus
      the shaping terms. */
  function Reward(totalValue: real, initialBalance: real, row: Row, a: Action, price: real): real
  {
    totalValue - initialBalance + ShapingBonus(row, a, price)
  }

  /** The penalties and bonuses `step` adds to the portfolio return, term
      by term. */
  method AddShaping(base: real, row: Row, action: int, price: real) returns (reward: real)
    ensures reward == base + ShapingBonus(row, Decode(action), price)
  {
    reward := base;
    if row.doji {
      reward := reward - 5.0;
    }
    if row.hammer {
      reward := reward + 5.0;
    }
    if row.engulfing {
      reward := reward + 10.0;
    }
    if action == 1 && row.vwap.Some? && price < row.vwap.value {
      reward := reward + 10.0;
    } else if action == 2 && row.vwap.Some? && price > row.vwap.value {
      reward := reward + 10.0;
    }
  }

  /** The shaping terms add between -5 and +25, and at most one of the two
      VWAP bonuses applies. */
  lemma ShapingBonusBounds(row: Row, a: Action, price: real)
    ensures -5.0 <= ShapingBonus(row, a, price) <= 25.0
    ensures var candles := (if row.doji then -5.0 else 0.0) + (if row.hammer then 5.0 else 0.0)
                           + (if row.engulfing then 10.0 else 0.0);
            ShapingBonus(row, a, price) - candles in {0.0, 10.0}
    ensures a == Hold ==> ShapingBonus(row, a, price) <= 15.0
  {
  }

  // ---------------------------------------------------------------------
  // The episode cursor
  // ---------------------------------------------------------------------

  datatype Cursor = Cursor(step: nat, done: bool)

  /** One step of the cursor over a table of `rows` rows: advance by one and
      finish when the cursor reaches `rows - 1`. */
  function Advance(c: Cursor, rows: nat): Cursor
  {
    Cursor(c.step + 1, c.step + 1 >= rows - 1)
  }

  /** The cursor after k calls of `step` from a reset, or None when one of
      them was made on a finished episode (and raised). */
  function Run(rows: nat, k: nat): Option<Cursor>
  {
    if k == 0 then Some(Cursor(0, false))
    else match Run(rows, k - 1)
      case None => None
      case Some(c) => if c.done then None else Some(Advance(c, rows))
  }

  /** A table of L >= 2 rows gives exactly L - 1 successful steps, the last
      of which finishes the episode; the cursor never passes the last row,
      and every further call raises. */
  lemma {:induction false} EpisodeLength(rows: nat, k: nat)
    requires rows >= 2
    ensures k <= rows - 1 ==> Run(rows, k) == Some(Cursor(k, k == rows - 1))
    ensures k >= rows ==> Run(rows, k) == None
  {
    if k > 0 {
      EpisodeLength(rows, k - 1);
    }
  }

  /** With a single row, the first step already moves the cursor past the
      last row (so the observation lookup that follows fails). */
  lemma SingleRowOverruns()
    ensures Run(1, 1) == Some(Cursor(1, true))
  {
  }

  // ---------------------------------------------------------------------
  // The environment
  // ---------------------------------------------------------------------

  datatype StepError =
    | EpisodeEnded    // RuntimeError("Episode has ended. Call reset to start a new episode.")
    | RowOutOfRange   // IndexError from the observation lookup past the last row

  datatype StepOutput = StepOutput(observation: seq<real>, reward: real, done: bool)

  /** A usable table: at least one row, every row as wide as the feature
      count, every close positive. */
  predicate WellFormed(data: seq<Row>, width: nat)
  {
    |data| >= 1 && forall i :: 0 <= i < |data| ==> |data[i].values| == width && data[i].close > 0.0
  }

  class TradingEnvironment {
    const data: seq<Row>
    const initialBalance: real
    /** Columns of the table except datetime. */
    const numFeatures: nat
    /** The declared observation shape: the features plus cash and position. */
    const observationWidth: nat

    var currentStep: nat
    var balance: real
    var position: int
    var totalValue: real
    var done: bool

    predicate Configured()
    {
      WellFormed(data, numFeatures) && initialBalance >= 0.0 && observationWidth == numFeatures + 2
    }

    /** The ledger never goes negative; `done` is set exactly when a step
        has reached the last row; the cursor stays on a row, except that a
        single-row table lets the first step move it to 1. */
    ghost predicate Valid()
      reads this
    {
      && Configured()
      && balance >= 0.0 && position >= 0
      && done == (currentStep > 0 && currentStep >= |data| - 1)
      && (currentStep < |data| || currentStep == 1)
    }

    /** `__init__`: the table has `columnCount` columns, datetime among them. */
    constructor (data: seq<Row>, columnCount: nat, initialBalance: real)
      requires columnCount >= 1 && WellFormed(data, columnCount - 1) && initialBalance >= 0.0
      ensures Valid()
      ensures this.data == data && this.initialBalance == initialBalance
      ensures numFeatures == columnCount - 1 && observationWidth == columnCount + 1
      ensures currentStep == 0 && balance == initialBalance && position == 0
      ensures totalValue == initialBalance && !done
    {
      this.data := data;
      this.initialBalance := initialBalance;
      numFeatures := columnCount - 1;
      observationWidth := columnCount - 1 + 2;
      new;
      var _ := Reset();
    }

    /** `_get_observation`: the current row's values followed by cash and
        position, as wide as the declared observation shape. */
    function Observation(): (obs: seq<real>)
      reads this
      requires Configured() && currentStep < |data|
      ensures |obs| == observationWidth
      ensures obs[..numFeatures] == data[currentStep].values
      ensures obs[numFeatures] == balance && obs[numFeatures + 1] == position as real
    {
      data[currentStep].values + [balance, position as real]
    }

    method Reset() returns (obs: seq<real>)
      requires Configured()
      modifies this
      ensures Valid()
      ensures currentStep == 0 && balance == initialBalance && position == 0
      ensures totalValue == initialBalance && !done
      ensures obs == Observation() && |obs| == observationWidth
    {
      currentStep := 0;
      balance := initialBalance;
      position := 0;
      totalValue := balance;
      done := false;
      obs := Observation();
    }

    /** The ledger part of `step`: buy as many whole shares as the cash
        covers, or sell the whole position, then mark to market. */
    method ApplyTrade(action: int, price: real)
      requires Valid() && price > 0.0
      modifies this
      ensures Holding(balance, position) == Trade(old(Holding(balance, position)), Decode(action), price)
      ensures totalValue == MarkToMarket(Holding(balance, position), price)
      ensures totalValue == MarkToMarket(old(Holding(balance, position)), price)
      ensures balance >= 0.0 && position >= 0
      ensures currentStep == old(currentStep) && done == old(done)
    {
      ghost var before := Holding(balance, position);
      TradeKeepsNonNegative(before, Decode(action), price);
      TradeConservesValue(before, Decode(action), price);
      if action == 1 {
        var maxShares := (balance / price).Floor;
        position := position + maxShares;
        balance := balance - maxShares as real * price;
      } else if action == 2 {
        balance := balance + position as real * price;
        position := 0;
      }
      totalValue := balance + position as real * price;
    }

    /** `step`: refuse once the episode has ended; otherwise trade at the
        current close, mark to market, shape the reward, advance the cursor
        and return the next observation. */
    method Step(action: int) returns (r: Result<StepOutput, StepError>)
      requires Valid()
      modifies this
      ensures Valid()
      ensures old(done) ==> r == Failure(EpisodeEnded) && unchanged(this)
      ensures !old(done) ==>
        Holding(balance, position) == Trade(old(Holding(balance, position)), Decode(action), data[old(currentStep)].close)
      ensures !old(done) ==>
        && totalValue == MarkToMarket(Holding(balance, position), data[old(currentStep)].close)
        && totalValue == MarkToMarket(old(Holding(balance, position)), data[old(currentStep)].close)
      ensures !old(done) ==> Cursor(currentStep, done) == Advance(Cursor(old(currentStep), old(done)), |data|)
      ensures !old(done) && currentStep < |data| ==>
        r == Success(StepOutput(Observation(),
                                Reward(totalValue, initialBalance, data[old(currentStep)], Decode(action), data[old(currentStep)].close),
                                done))
      ensures !old(done) && currentStep >= |data| ==> r == Failure(RowOutOfRange)
      ensures |data| >= 2 ==> currentStep < |data|
    {
      if done {
        return Failure(EpisodeEnded);
      }
      var row := data[currentStep];
      var price := row.close;
      ApplyTrade(action, price);
      var reward := AddShaping(totalValue - initialBalance, row, action, price);

      currentStep := currentStep + 1;
      if currentStep >= |data| - 1 {
        done := true;
      }
      if currentStep >= |data| {
        return Failure(RowOutOfRange);
      }
      r := Success(StepOutput(Observation(), reward, done));
    }
  }

  /** A three-bar episode: buy at 100 with 10000 in cash, sell at 110,
      and the episode is over before a third action can be applied. */
  method ThreeBarEpisode()
  {
    var env := new TradingEnvironment(
      [Row([100.0], 100.0, false, false, false, None),
       Row([110.0], 110.0, false, false, false, None),
       Row([105.0], 105.0, false, false, false, None)],
      2, 10000.0);
    var r := env.Step(1);
    assert (10000.0 / 100.0).Floor == 100;
    assert env.position == 100 && env.balance == 0.0 && !env.done;
    r := env.Step(2);
    assert env.balance == 11000.0 && env.position == 0 && env.totalValue == 11000.0;
    assert env.done;
    r := env.Step(0);
    assert r == Failure(EpisodeEnded);
  }
}
