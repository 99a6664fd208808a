/**
 * The recursive multi-step forecast: from the windows seeded by a county's
 * history, each step builds the features, asks the model for the next
 * monthly total, emits that total rounded together with its date, and feeds
 * the unrounded value back into both windows.
 */
module Forecaster {
  import opened Numeric
  import opened SlidingWindow
  import opened Calendar
  import opened Features
  import opened LeastSquares

  datatype ForecastError =
    | NoData               // the filtered county data is empty
    | InsufficientHistory  // fewer than three observations to read the lags from

  datatype Result<T> = Ok(value: T) | Err(error: ForecastError)

  /** One emitted forecast row: the month and the rounded predicted total. */
  datatype ForecastRecord = ForecastRecord(date: YearMonth, total: int)

  /**
   * What the loop starts from: the county's totals in row order, the largest
   * month index, the latest date and the county's encoded code.
   */
  datatype Setup = Setup(history: seq<real>, monthsSince: int, lastDate: YearMonth, county: int)

  /** Windows with enough observations for a step to read its three lags. */
  predicate Readable(recent: seq<real>, cumEv: seq<real>)
  {
    |recent| >= 3 && |cumEv| >= 2
  }

  /**
   * The unrounded predictions of the first k steps, where step i (1-based)
   * obtains its prediction from the predictions made so far and the month
   * index m0 + i.
   */
  function Predictions(step: (seq<real>, int) -> real, m0: int, k: nat): (ps: seq<real>)
    ensures |ps| == k
    decreases k
  {
    if k == 0 then []
    else
      var ps := Predictions(step, m0, k - 1);
      ps + [step(ps, m0 + k)]
  }

  /**
   * The forecaster's step: the model applied to the features of the windows
   * holding the history followed by the predictions so far.  The forecaster
   * only ever presents windows it can read (ForecastReadable); on any other
   * windows this answers 0.
   */
  function ModelStep(predict: Features -> real, history: seq<real>, county: int): (seq<real>, int) -> real
  {
    (ps: seq<real>, m: int) =>
      if |history| > 0 && Readable(RecentAfter(history, ps), CumulativeAfter(history, ps))
      then predict(StepFeatures(RecentAfter(history, ps), CumulativeAfter(history, ps), m, county))
      else 0.0
  }

  /** On readable windows the step is the model applied to the step's features. */
  lemma {:induction false} ModelStepAt(predict: Features -> real, history: seq<real>, county: int, ps: seq<real>, m: int)
    requires |history| > 0 && Readable(RecentAfter(history, ps), CumulativeAfter(history, ps))
    ensures ModelStep(predict, history, county)(ps, m)
         == predict(StepFeatures(RecentAfter(history, ps), CumulativeAfter(history, ps), m, county))
  {
  }

  /** The predictions of the forecaster proper: from the county's history, stepping with the model. */
  function ForecastRun(s: Setup, predict: Features -> real, k: nat): (ps: seq<real>)
    ensures |ps| == k
  {
    Predictions(ModelStep(predict, s.history, s.county), s.monthsSince, k)
  }

  /** The rows emitted for the unrounded predictions ps, the first dated one month after lastDate. */
  function RecordsOf(lastDate: YearMonth, ps: seq<real>): (rs: seq<ForecastRecord>)
    ensures |rs| == |ps|
    decreases |ps|
  {
    if |ps| == 0 then []
    else RecordsOf(lastDate, ps[..|ps| - 1]) + [ForecastRecord(AddMonths(lastDate, |ps|), RoundHalfEven(Last(ps)))]
  }

  /** Row i is dated i+1 months after lastDate and carries the i-th prediction rounded half to even. */
  lemma {:induction false} RecordAt(lastDate: YearMonth, ps: seq<real>, i: nat)
    requires i < |ps|
    ensures RecordsOf(lastDate, ps)[i] == ForecastRecord(AddMonths(lastDate, i + 1), RoundHalfEven(ps[i]))
    decreases |ps|
  {
    if i < |ps| - 1 {
      RecordAt(lastDate, ps[..|ps| - 1], i);
    }
  }

  /**
   * The outcome of a forecast over horizon months: no rows for a zero
   * horizon; otherwise an error when the history is too short to read three
   * lags, else one row per step.
   */
  function ForecastSpec(s: Setup, predict: Features -> real, horizon: nat): (r: Result<seq<ForecastRecord>>)
    ensures r.Err? <==> horizon > 0 && |s.history| < 3
    ensures r.Err? ==> r.error == InsufficientHistory
    ensures r.Ok? ==> |r.value| == horizon
  {
    if horizon == 0 then Ok([])
    else if |s.history| < 3 then Err(InsufficientHistory)
    else Ok(RecordsOf(s.lastDate, ForecastRun(s, predict, horizon)))
  }

  /** Emitting one more prediction appends one row, dated one month after the previous. */
  lemma {:induction false} RecordsOfAppend(lastDate: YearMonth, ps: seq<real>, pred: real)
    ensures RecordsOf(lastDate, ps + [pred])
         == RecordsOf(lastDate, ps) + [ForecastRecord(AddMonths(lastDate, |ps| + 1), RoundHalfEven(pred))]
  {
    assert (ps + [pred])[..|ps|] == ps;
  }

  /** Before the first step the windows are the seed and no row has been emitted. */
  lemma {:induction false} ForecastStart(s: Setup, predict: Features -> real)
    requires |s.history| > 0
    ensures RecentAfter(s.history, ForecastRun(s, predict, 0)) == LastN(s.history, Capacity)
    ensures CumulativeAfter(s.history, ForecastRun(s, predict, 0)) == PrefixSums(LastN(s.history, Capacity))
    ensures RecordsOf(s.lastDate, ForecastRun(s, predict, 0)) == []
  {
  }

  /** The forecaster can read three lags at every step. */
  lemma {:induction false} ForecastReadable(s: Setup, predict: Features -> real, k: nat)
    requires |s.history| >= 3
    ensures Readable(RecentAfter(s.history, ForecastRun(s, predict, k)), CumulativeAfter(s.history, ForecastRun(s, predict, k)))
  {
    AfterConsistent(s.history, ForecastRun(s, predict, k));
  }

  /**
   * Step k+1 of the forecaster appends the model's answer on the features of
   * the windows left by the first k steps.
   */
  lemma {:induction false} ForecastRunStep(s: Setup, predict: Features -> real, k: nat, m: int, recent: seq<real>, cumEv: seq<real>)
    requires |s.history| >= 3 && m == s.monthsSince + k + 1
    requires recent == RecentAfter(s.history, ForecastRun(s, predict, k))
    requires cumEv == CumulativeAfter(s.history, ForecastRun(s, predict, k))
    ensures Readable(recent, cumEv)
    ensures ForecastRun(s, predict, k + 1) == ForecastRun(s, predict, k) + [predict(StepFeatures(recent, cumEv, m, s.county))]
  {
    ForecastReadable(s, predict, k);
    PredictionsStep(ModelStep(predict, s.history, s.county), s.monthsSince, k);
    ModelStepAt(predict, s.history, s.county, ForecastRun(s, predict, k), m);
  }

  /**
   * The body of the forecast loop for step i: build the features from the
   * windows, ask the model, append the rounded row dated i months after the
   * latest date, and push the unrounded prediction into both windows.
   */
  method ForecastStep(s: Setup, predict: Features -> real, i: nat, monthsSince: int,
                      recent: seq<real>, cumEv: seq<real>, futureData: seq<ForecastRecord>)
    returns (recent': seq<real>, cumEv': seq<real>, futureData': seq<ForecastRecord>)
    requires |s.history| >= 3 && i >= 1 && monthsSince == s.monthsSince + i
    requires recent == RecentAfter(s.history, ForecastRun(s, predict, i - 1))
    requires cumEv == CumulativeAfter(s.history, ForecastRun(s, predict, i - 1))
    requires futureData == RecordsOf(s.lastDate, ForecastRun(s, predict, i - 1))
    ensures recent' == RecentAfter(s.history, ForecastRun(s, predict, i))
    ensures cumEv' == CumulativeAfter(s.history, ForecastRun(s, predict, i))
    ensures futureData' == RecordsOf(s.lastDate, ForecastRun(s, predict, i))
  {
    ForecastRunStep(s, predict, i - 1, monthsSince, recent, cumEv);
    var futureDate := AddMonths(s.lastDate, i);
    var features := StepFeatures(recent, cumEv, monthsSince, s.county);
    var pred := predict(features);
    futureData' := futureData + [ForecastRecord(futureDate, RoundHalfEven(pred))];
    recent' := Push(recent, pred);
    cumEv' := Push(cumEv, Last(cumEv) + pred);
    RecordsOfAppend(s.lastDate, ForecastRun(s, predict, i - 1), pred);
    AfterStep(s.history, ForecastRun(s, predict, i - 1), pred);
  }

  /**
   * The forecast loop.  The windows and the output rows are local lists
   * updated in place each step; the result is the specification above.
   */
  method Forecast(s: Setup, predict: Features -> real, horizon: nat)
    returns (res: Result<seq<ForecastRecord>>)
    ensures res == ForecastSpec(s, predict, horizon)
  {
    var recent := LastN(s.history, Capacity);
    var cumEv := PrefixSums(recent);
    var monthsSince := s.monthsSince;
    var futureData: seq<ForecastRecord> := [];
    if |s.history| >= 3 {
      ForecastStart(s, predict);
      ForecastReadable(s, predict, 0);
    }
    for i := 1 to horizon + 1
      invariant monthsSince == s.monthsSince + (i - 1)
      invariant |s.history| < 3 ==> i == 1 && |recent| < 3
      invariant |s.history| >= 3 ==> |recent| >= 3
      invariant |s.history| >= 3 ==> recent == RecentAfter(s.history, ForecastRun(s, predict, i - 1))
      invariant |s.history| >= 3 ==> cumEv == CumulativeAfter(s.history, ForecastRun(s, predict, i - 1))
      invariant |s.history| >= 3 ==> futureData == RecordsOf(s.lastDate, ForecastRun(s, predict, i - 1))
      invariant |s.history| < 3 ==> futureData == []
    {
      monthsSince := monthsSince + 1;
      if |recent| < 3 {
        return Err(InsufficientHistory);
      }
      recent, cumEv, futureData := ForecastStep(s, predict, i, monthsSince, recent, cumEv, futureData);
      ForecastReadable(s, predict, i);
    }
    return Ok(futureData);
  }

  /** A run of k+1 steps is the run of k steps followed by step k+1's prediction. */
  lemma {:induction false} PredictionsStep(step: (seq<real>, int) -> real, m0: int, k: nat)
    ensures Predictions(step, m0, k + 1) == Predictions(step, m0, k) + [step(Predictions(step, m0, k), m0 + k + 1)]
  {
  }

  /** Later steps never revise earlier predictions: the first j predictions of a longer run are those of the run of j steps. */
  lemma {:induction false} PredictionsPrefix(step: (seq<real>, int) -> real, m0: int, j: nat, k: nat)
    requires j <= k
    ensures Predictions(step, m0, j) == Predictions(step, m0, k)[..j]
    decreases k
  {
    if j < k {
      PredictionsPrefix(step, m0, j, k - 1);
      var ps := Predictions(step, m0, k - 1);
      assert Predictions(step, m0, k)[..k - 1] == ps;
      assert ps[..j] == Predictions(step, m0, k)[..j];
    }
  }

  /**
   * The prediction of step i (1-based) is the step applied to the first i-1
   * predictions, with month index m0 + i.
   */
  lemma {:induction false} PredictionAt(step: (seq<real>, int) -> real, m0: int, k: nat, i: nat)
    requires 1 <= i <= k
    ensures Predictions(step, m0, k)[i - 1] == step(Predictions(step, m0, i - 1), m0 + i)
  {
    PredictionsPrefix(step, m0, i, k);
    var ps := Predictions(step, m0, i);
    assert ps[i - 1] == Predictions(step, m0, k)[..i][i - 1];
  }

  /**
   * In the forecaster, step i's prediction is the model applied to the
   * features of the windows holding the history and the first i-1
   * predictions, with month index monthsSince + i and the county's code.
   */
  lemma {:induction false} ForecastPredictionAt(s: Setup, predict: Features -> real, k: nat, i: nat)
    requires |s.history| >= 3 && 1 <= i <= k
    ensures Readable(RecentAfter(s.history, ForecastRun(s, predict, i - 1)), CumulativeAfter(s.history, ForecastRun(s, predict, i - 1)))
    ensures ForecastRun(s, predict, k)[i - 1]
         == predict(StepFeatures(RecentAfter(s.history, ForecastRun(s, predict, i - 1)),
                                 CumulativeAfter(s.history, ForecastRun(s, predict, i - 1)),
                                 s.monthsSince + i, s.county))
  {
    PredictionAt(ModelStep(predict, s.history, s.county), s.monthsSince, k, i);
    ForecastReadable(s, predict, i - 1);
    ModelStepAt(predict, s.history, s.county, ForecastRun(s, predict, i - 1), s.monthsSince + i);
  }

  /**
   * From the second step on, the lag-1 feature is the previous step's
   * unrounded prediction, not its rounded row.
   */
  lemma {:induction false} LagIsPreviousPrediction(s: Setup, predict: Features -> real, k: nat, monthsSince: int)
    requires |s.history| >= 3 && k >= 1
    ensures Readable(RecentAfter(s.history, ForecastRun(s, predict, k)), CumulativeAfter(s.history, ForecastRun(s, predict, k)))
    ensures StepFeatures(RecentAfter(s.history, ForecastRun(s, predict, k)),
                         CumulativeAfter(s.history, ForecastRun(s, predict, k)), monthsSince, s.county).lag1
         == ForecastRun(s, predict, k)[k - 1]
  {
    ForecastReadable(s, predict, k);
    AfterNewest(s.history, ForecastRun(s, predict, k));
  }

  /**
   * The growth-slope feature at every step is the slope of the running sums
   * of the observation window: the cumulative window's offset does not matter.
   */
  lemma {:induction false} ForecastGrowthSlope(s: Setup, predict: Features -> real, k: nat, monthsSince: int)
    requires |s.history| >= 3
    ensures Readable(RecentAfter(s.history, ForecastRun(s, predict, k)), CumulativeAfter(s.history, ForecastRun(s, predict, k)))
    ensures StepFeatures(RecentAfter(s.history, ForecastRun(s, predict, k)),
                         CumulativeAfter(s.history, ForecastRun(s, predict, k)), monthsSince, s.county).growthSlope
         == Slope(PrefixSums(RecentAfter(s.history, ForecastRun(s, predict, k))))
  {
    var ps := ForecastRun(s, predict, k);
    AfterConsistent(s.history, ps);
    GrowthSlopeOfObservations(RecentAfter(s.history, ps), CumulativeAfter(s.history, ps), monthsSince, s.county);
  }

  /** Consecutive output rows are one calendar month apart, the first one month after lastDate. */
  lemma {:induction false} ConsecutiveMonths(lastDate: YearMonth, ps: seq<real>, i: nat)
    requires i < |ps|
    ensures MonthIndex(RecordsOf(lastDate, ps)[i].date) == MonthIndex(lastDate) + i + 1
    ensures i >= 1 ==> MonthIndex(RecordsOf(lastDate, ps)[i].date) == MonthIndex(RecordsOf(lastDate, ps)[i - 1].date) + 1
  {
    RecordAt(lastDate, ps, i);
    if i >= 1 {
      RecordAt(lastDate, ps, i - 1);
    }
  }

  /** Each emitted total is a nearest integer to the unrounded value that was fed back. */
  lemma {:induction false} EmittedNearPrediction(lastDate: YearMonth, ps: seq<real>, i: nat)
    requires i < |ps|
    ensures -0.5 <= RecordsOf(lastDate, ps)[i].total as real - ps[i] <= 0.5
  {
    RecordAt(lastDate, ps, i);
  }

  /**
   * An example: six observations 100, 110, ..., 150 and a model that
   * answers 160.4 give one row totalling 160, while the observation window
   * becomes 110, ..., 150, 160.4 (unrounded).
   */
  lemma {:induction false} ExampleOneStep(lastDate: YearMonth, monthsSince: int, county: int)
    ensures var s := Setup([100.0, 110.0, 120.0, 130.0, 140.0, 150.0], monthsSince, lastDate, county);
            var predict := (f: Features) => 160.4;
            && ForecastSpec(s, predict, 1) == Ok([ForecastRecord(AddMonths(lastDate, 1), 160)])
            && RecentAfter(s.history, ForecastRun(s, predict, 1)) == [110.0, 120.0, 130.0, 140.0, 150.0, 160.4]
  {
    var h := [100.0, 110.0, 120.0, 130.0, 140.0, 150.0];
    var s := Setup(h, monthsSince, lastDate, county);
    var predict := (f: Features) => 160.4;
    ForecastStart(s, predict);
    ForecastRunStep(s, predict, 0, monthsSince + 1, LastN(h, Capacity), PrefixSums(LastN(h, Capacity)));
    assert ForecastRun(s, predict, 1) == [160.4];
    AfterStep(h, [], 160.4);
    assert [] + [160.4] == [160.4];
    assert (h + [160.4])[1..] == [110.0, 120.0, 130.0, 140.0, 150.0, 160.4];
    RoundIsNearest(160.4, 160);
    assert RecordsOf(lastDate, [160.4]) == [ForecastRecord(AddMonths(lastDate, 1), 160)];
  }
}
