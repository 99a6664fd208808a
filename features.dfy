/**
 * The feature record handed to the regression model at each forecast step,
 * and the per-step feature computations: the three lags, their mean, the two
 * zero-guarded percent changes and the growth slope of the cumulative window.
 */
module Features {
  import opened Numeric
  import opened LeastSquares
  import opened SlidingWindow

  /** One row of model input, field for field as the model was trained on. */
  datatype Features = Features(
    monthsSinceStart: int,
    countyEncoded: int,
    lag1: real,
    lag2: real,
    lag3: real,
    rollMean3: real,
    pctChange1: real,
    pctChange3: real,
    growthSlope: real)

  /**
   * Relative change from prior to latest, or 0 when prior is 0 (the division
   * is skipped rather than raising): otherwise the factor that, added to 1,
   * scales prior to latest.
   */
  function PctChange(latest: real, prior: real): (r: real)
    ensures prior == 0.0 ==> r == 0.0
    ensures prior != 0.0 ==> prior * (1.0 + r) == latest
  {
    if prior != 0.0 then (latest - prior) / prior else 0.0
  }

  /** The relative change is the only number that scales prior to latest. */
  lemma {:induction false} PctChangeUnique(latest: real, prior: real, r: real)
    requires prior != 0.0 && prior * (1.0 + r) == latest
    ensures PctChange(latest, prior) == r
  {
    var q := PctChange(latest, prior);
    assert prior * (q - r) == 0.0;
  }

  /** No change gives a relative change of 0, whether or not the guard fires. */
  lemma {:induction false} PctChangeOfEqual(x: real)
    ensures PctChange(x, x) == 0.0
  {
    if x != 0.0 {
      PctChangeUnique(x, x, 0.0);
    }
  }

  /** Arithmetic mean of three values. */
  function Mean3(a: real, b: real, c: real): (m: real)
    ensures 3.0 * m == a + b + c
    ensures m >= a || m >= b || m >= c
    ensures m <= a || m <= b || m <= c
  {
    (a + b + c) / 3.0
  }

  /**
   * The features for one step from the current windows: lags are the last
   * three observations (unrounded), the slope is fitted over the cumulative
   * window.  At least three observations are needed to read the lags.
   */
  function StepFeatures(recent: seq<real>, cumEv: seq<real>, monthsSince: int, county: int): (f: Features)
    requires |recent| >= 3 && |cumEv| >= 2
    ensures f.monthsSinceStart == monthsSince && f.countyEncoded == county
    ensures f.lag1 == recent[|recent| - 1] && f.lag2 == recent[|recent| - 2] && f.lag3 == recent[|recent| - 3]
    ensures 3.0 * f.rollMean3 == f.lag1 + f.lag2 + f.lag3
    ensures f.pctChange1 == PctChange(f.lag1, f.lag2) && f.pctChange3 == PctChange(f.lag1, f.lag3)
    ensures f.growthSlope == Slope(cumEv)
  {
    var n := |recent|;
    var lag1, lag2, lag3 := recent[n - 1], recent[n - 2], recent[n - 3];
    Features(monthsSince, county, lag1, lag2, lag3, Mean3(lag1, lag2, lag3),
             PctChange(lag1, lag2), PctChange(lag1, lag3), Slope(cumEv))
  }

  /**
   * For windows that keep their invariant, the growth slope is a function of
   * the observations alone: the slope of their running sums.
   */
  lemma {:induction false} GrowthSlopeOfObservations(recent: seq<real>, cumEv: seq<real>, monthsSince: int, county: int)
    requires Consistent(recent, cumEv) && |recent| >= 3
    ensures StepFeatures(recent, cumEv, monthsSince, county).growthSlope == Slope(PrefixSums(recent))
  {
    GrowthSlopeFromObservations(recent, cumEv);
  }

  /**
   * A flat tail (last three observations equal) gives no relative change and
   * a mean equal to that level.
   */
  lemma {:induction false} FlatTailFeatures(recent: seq<real>, cumEv: seq<real>, monthsSince: int, county: int)
    requires |recent| >= 3 && |cumEv| >= 2
    requires recent[|recent| - 1] == recent[|recent| - 2] == recent[|recent| - 3]
    ensures StepFeatures(recent, cumEv, monthsSince, county).pctChange1 == 0.0
    ensures StepFeatures(recent, cumEv, monthsSince, county).pctChange3 == 0.0
    ensures StepFeatures(recent, cumEv, monthsSince, county).rollMean3 == Last(recent)
  {
    PctChangeOfEqual(Last(recent));
  }
}
