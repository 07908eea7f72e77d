/** Loading and preparing one symbol's training data
    (Application/data_preparation.py): the query result is filtered to the
    rows whose six numeric indicators are all present; the required feature
    columns are checked; every row after the first gets a direction label
    from the change in close; and the rows are split, unshuffled, into a
    training prefix and a test suffix. */
module DataPreparation {
  import opened Basics

  /** One row of the symbol's query result, in datetime order; a null cell
      is `None`. */
  datatype Record = Record(
    datetime: int, close: real,
    ema8: Option<real>, ema21: Option<real>, ema50: Option<real>,
    rsi14: Option<real>, macd: Option<real>, macdSignal: Option<real>,
    doji: Option<bool>, hammer: Option<bool>, engulfing: Option<bool>,
    vwap: Option<real>)

  // ---------------------------------------------------------------------
  // load_data: the null filter
  // ---------------------------------------------------------------------

  /** No null among the six columns the filter looks at. */
  predicate Complete(r: Record)
  {
    r.ema8.Some? && r.ema21.Some? && r.ema50.Some? && r.rsi14.Some? && r.macd.Some? && r.macdSignal.Some?
  }

  /** The rows `load_data` returns for the query result `rows`. */
  function LoadData(rows: seq<Record>): (kept: seq<Record>)
    ensures |kept| <= |rows|
    ensures forall r :: r in kept ==> r in rows && Complete(r)
  {
    Filter(rows, Complete)
  }

  /** Exactly the incomplete rows are removed: a complete row survives as
      many times as it occurs, an incomplete one not at all. */
  lemma LoadDataRemovesExactlyIncomplete(rows: seq<Record>, r: Record)
    ensures multiset(LoadData(rows))[r] == if Complete(r) then multiset(rows)[r] else 0
  {
    FilterCount(rows, Complete, r);
  }

  /** The filter keeps datetime order. */
  lemma LoadDataKeepsOrder(rows: seq<Record>)
    requires StrictlyIncreasing(rows, (r: Record) => r.datetime)
    ensures StrictlyIncreasing(LoadData(rows), (r: Record) => r.datetime)
  {
    FilterKeepsOrder(rows, Complete, (r: Record) => r.datetime);
  }

  /** The filter decides on each row alone: it distributes over
      concatenation. */
  lemma LoadDataSplits(a: seq<Record>, b: seq<Record>)
    ensures LoadData(a + b) == LoadData(a) + LoadData(b)
  {
    FilterConcat(a, b, Complete);
  }

  /** Nulls in doji, hammer, engulfing and vwap do not decide the filter,
      so a complete row with such nulls survives. */
  lemma LoadDataKeepsFlagNulls(rows: seq<Record>, r: Record)
    requires r in rows && Complete(r)
    ensures Complete(r.(doji := None, hammer := None, engulfing := None, vwap := None))
    ensures r in LoadData(rows)
  {
    LoadDataRemovesExactlyIncomplete(rows, r);
  }

  // ---------------------------------------------------------------------
  // prepare_data: the column check
  // ---------------------------------------------------------------------

  const RequiredColumns: seq<string> :=
    ["ema_8", "ema_21", "ema_50", "rsi_14", "macd", "macd_signal", "doji", "hammer", "engulfing", "vwap"]

  /** The required columns absent from `columns`, in required-column order. */
  function MissingColumns(columns: set<string>): (missing: seq<string>)
    ensures forall c :: c in missing <==> c in RequiredColumns && c !in columns
  {
    Filter(RequiredColumns, c => c !in columns)
  }

  function RequiredIndex(c: string): int
  {
    IndexOf(RequiredColumns, c)
  }

  lemma RequiredColumnsDistinct()
    ensures forall i, j :: 0 <= i < j < |RequiredColumns| ==> RequiredColumns[i] != RequiredColumns[j]
  {
  }

  /** The missing columns are listed in the order the required columns are
      declared. */
  lemma MissingColumnsInRequiredOrder(columns: set<string>)
    ensures StrictlyIncreasing(MissingColumns(columns), RequiredIndex)
  {
    RequiredColumnsDistinct();
    forall i | 0 <= i < |RequiredColumns|
      ensures RequiredIndex(RequiredColumns[i]) == i
    {
      var k := IndexOf(RequiredColumns, RequiredColumns[i]);
      assert !(k < i);
    }
    FilterKeepsOrder(RequiredColumns, c => c !in columns, RequiredIndex);
  }

  // ---------------------------------------------------------------------
  // prepare_data: features and labels
  // ---------------------------------------------------------------------

  /** A boolean cell as a feature value. */
  function Flag(b: Option<bool>): Option<real>
  {
    match b
    case None => None
    case Some(v) => Some(if v then 1.0 else 0.0)
  }

  /** The required columns of one row, in required-column order. */
  function Features(r: Record): (x: seq<Option<real>>)
    ensures |x| == |RequiredColumns|
  {
    [r.ema8, r.ema21, r.ema50, r.rsi14, r.macd, r.macdSignal, Flag(r.doji), Flag(r.hammer), Flag(r.engulfing), r.vwap]
  }

  function Sign(x: real): int
  {
    if x > 0.0 then 1 else if x < 0.0 then -1 else 0
  }

  /** The label of a row from the previous close and its own: the sign of
      the fractional change (cur - prev) / prev. A zero previous close makes
      that change infinite with the sign of the difference, or undefined
      (label 0) when both are zero. */
  function Label(prev: real, cur: real): (l: int)
    ensures l in {-1, 0, 1}
  {
    if prev == 0.0 then Sign(cur - prev) else Sign((cur - prev) / prev)
  }

  /** For a positive previous close: 1 exactly when the close rose, -1
      exactly when it fell, 0 exactly when it did not move. */
  lemma LabelFollowsDirection(prev: real, cur: real)
    requires prev > 0.0
    ensures Label(prev, cur) == 1 <==> cur > prev
    ensures Label(prev, cur) == -1 <==> cur < prev
    ensures Label(prev, cur) == 0 <==> cur == prev
  {
    DivGreater(cur - prev, prev, 0.0);
    DivLess(cur - prev, prev, 0.0);
  }

  /** For a negative previous close the fractional change has the opposite
      sign of the move. */
  lemma LabelAfterNegativeClose(prev: real, cur: real)
    requires prev < 0.0
    ensures Label(prev, cur) == -Sign(cur - prev)
  {
    var d := cur - prev;
    var q := d / prev;
    DivCancel(d, prev);
    assert q * prev == d;
    if d > 0.0 {
      if q >= 0.0 {
        MulNonNeg(q, -prev);
      }
    } else if d < 0.0 {
      if q <= 0.0 {
        MulNonNeg(-q, -prev);
      }
    }
  }

  /** The label column before the first row is dropped: the first change
      is undefined and labelled 0. */
  function LabelColumn(closes: seq<real>): (y: seq<int>)
    ensures |y| == |closes|
    ensures forall i :: 1 <= i < |y| ==> y[i] == Label(closes[i - 1], closes[i])
  {
    seq(|closes|, i requires 0 <= i < |closes| => if i == 0 then 0 else Label(closes[i - 1], closes[i]))
  }

  function Closes(rows: seq<Record>): (c: seq<real>)
    ensures |c| == |rows|
    ensures forall i :: 0 <= i < |c| ==> c[i] == rows[i].close
  {
    seq(|rows|, i requires 0 <= i < |rows| => rows[i].close)
  }

  /** The feature columns, row by row. */
  function FeatureMatrix(rows: seq<Record>): (x: seq<seq<Option<real>>>)
    ensures |x| == |rows|
  {
    seq(|rows|, i requires 0 <= i < |rows| => Features(rows[i]))
  }

  /** `iloc[1:]`: everything after the first row (nothing for an empty
      frame). */
  function DropFirst<T>(s: seq<T>): (r: seq<T>)
    ensures |r| == if |s| == 0 then 0 else |s| - 1
    ensures forall i :: 0 <= i < |r| ==> r[i] == s[i + 1]
  {
    if |s| == 0 then [] else s[1..]
  }

  /** The features after the first-row drop: position i holds original
      row i + 1. */
  function FeatureRows(rows: seq<Record>): (x: seq<seq<Option<real>>>)
    ensures |x| == if |rows| == 0 then 0 else |rows| - 1
    ensures forall i :: 0 <= i < |x| ==> x[i] == Features(rows[i + 1])
  {
    DropFirst(FeatureMatrix(rows))
  }

  /** The labels after the first-row drop: position i labels original row
      i + 1 against row i, so every remaining label is defined. */
  function Labels(rows: seq<Record>): (y: seq<int>)
    ensures |y| == if |rows| == 0 then 0 else |rows| - 1
    ensures forall i :: 0 <= i < |y| ==> y[i] == Label(rows[i].close, rows[i + 1].close)
  {
    DropFirst(LabelColumn(Closes(rows)))
  }

  // ---------------------------------------------------------------------
  // prepare_data: the split and the whole operation
  // ---------------------------------------------------------------------

  /** The unshuffled split with the training size given: a prefix of that
      size and the rest, or nothing when either part would be empty. */
  function Split<T>(s: seq<T>, nTrain: nat): (r: Option<(seq<T>, seq<T>)>)
    ensures r.Some? <==> 0 < nTrain < |s|
    ensures r.Some? ==> |r.value.0| == nTrain && r.value.0 + r.value.1 == s
  {
    if nTrain == 0 || nTrain >= |s| then None
    else
      assert s[..nTrain] + s[nTrain..] == s;
      Some((s[..nTrain], s[nTrain..]))
  }

  /** A frame: its column names and its rows; a row's cell for an absent
      column is never read. */
  datatype Frame = Frame(columns: set<string>, rows: seq<Record>)

  datatype PrepareError =
    | MissingRequired(missing: seq<string>)   // the ValueError listing the missing columns
    | MissingClose                            // the KeyError from reading "close"
    | EmptySplit                              // train_test_split refusing an empty part

  datatype Prepared = Prepared(
    xTrain: seq<seq<Option<real>>>, xTest: seq<seq<Option<real>>>,
    yTrain: seq<int>, yTest: seq<int>)

  /** `prepare_data` with the training-part size supplied. */
  function PrepareData(df: Frame, nTrain: nat): (r: Result<Prepared, PrepareError>)
    ensures r.Failure? && r.error.MissingRequired? <==> MissingColumns(df.columns) != []
    ensures r.Failure? && r.error.MissingRequired? ==> r.error.missing == MissingColumns(df.columns)
    ensures r.Failure? && r.error.MissingClose? <==> MissingColumns(df.columns) == [] && "close" !in df.columns
    ensures r.Failure? && r.error.EmptySplit? <==>
      MissingColumns(df.columns) == [] && "close" in df.columns && !(0 < nTrain && nTrain + 1 < |df.rows|)
    ensures r.Success? <==>
      MissingColumns(df.columns) == [] && "close" in df.columns && 0 < nTrain && nTrain + 1 < |df.rows|
    ensures r.Success? ==>
      && |r.value.xTrain| == |r.value.yTrain| == nTrain
      && r.value.xTrain + r.value.xTest == FeatureRows(df.rows)
      && r.value.yTrain + r.value.yTest == Labels(df.rows)
      && |r.value.xTest| > 0
  {
    var missing := MissingColumns(df.columns);
    if missing != [] then Failure(MissingRequired(missing))
    else if "close" !in df.columns then Failure(MissingClose)
    else
      match (Split(FeatureRows(df.rows), nTrain), Split(Labels(df.rows), nTrain))
      case (Some((xTrain, xTest)), Some((yTrain, yTest))) => Success(Prepared(xTrain, xTest, yTrain, yTest))
      case _ => Failure(EmptySplit)
  }
}
