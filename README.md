# EV adoption forecast: the recursive forecast loop

A Dafny model of the forecasting core of the EV dashboard (`EV_App.py`). The
page works in five steps:

1. It takes the selected county's monthly electric-vehicle totals.
2. It stops when the selection is empty.
3. It turns the sidebar's mode and duration into a horizon of months.
4. It runs a recursive multi-step forecast. Each step:
   - reads three lags, their mean, two zero-guarded percent changes and a
     least-squares growth slope from two sliding windows of at most six
     entries;
   - hands these features to a regression model;
   - emits the rounded prediction with its date;
   - feeds the unrounded prediction back into both windows.
5. It continues the cumulative column over the forecast rows and reports the
   growth of the forecast total over the historical total.

Modules, one file each:

| module | what it holds |
|---|---|
| `Numeric` (`numeric.dfy`) | sums, running sums (a cumulative-sum column), Python's round-half-to-even on exact reals |
| `LeastSquares` (`least_squares.dfy`) | the closed-form slope of a degree-one least-squares fit over positions 0..n-1, and the facts the forecaster relies on: it is exact on a line, and it is unchanged by a constant offset |
| `Calendar` (`calendar.dfy`) | year/month dates and whole-month offsets |
| `SlidingWindow` (`window.dfy`) | the two windows: seeding, push with eviction at six entries, the invariant the pair keeps, and the windows after any run of predictions |
| `Features` (`features.dfy`) | the feature record and its per-step computation |
| `Forecaster` (`forecaster.dfy`) | the loop as an imperative `method` (`Forecast`, with its body step `ForecastStep`), proved equal to the specification `ForecastSpec` built on the recursive `ForecastRun` |
| `Dashboard` (`dashboard.dfy`) | the horizon, the empty-data guard, the setup read off the rows, the forecast cumulative column and the growth percentage, with `RunForecastPage` proved equal to `PageSpec` |

How the model is organised:

- **The regression model is a parameter.** It is any function
  `predict: Features -> real`.
- **Where the two windows live.** In the loop they are local `seq<real>`
  variables, reassigned each step, as the source mutates its two Python
  lists. The specification side describes the same windows with
  `RecentAfter(history, ps)` and `CumulativeAfter(history, ps)`: the windows
  after feeding the predictions `ps` one by one.
- **Where the loop and the specification meet.** The loop's invariants tie
  its variables to those functions at every iteration.

Two choices follow the code where a reader might expect otherwise:

- **Forecast dates.** Forecast row `i` is dated the latest historical date
  plus `i` months (EV_App.py:162), not the previous row's date plus one
  month. The two differ only through day-of-month clamping, which is not
  modelled.
- **Fewer than three observations.** Line 163 raises an index error when the
  window holds fewer than three entries. The model returns
  `Err(InsufficientHistory)` instead: only for a positive horizon and before
  any row is emitted.

## Model

| member | source | states |
|---|---|---|
| Dashboard.HorizonMonths | EV_App.py:135-137 | for a slider value in 1..5 the horizon lies between 1 and 60 months |
| Dashboard.HorizonValue | EV_App.py:137 | a yearly horizon is a whole number of years equal to the slider value; a monthly horizon is the slider value itself |
| Dashboard.HorizonOrder | EV_App.py:135-137 | a larger slider value gives a strictly longer horizon in either mode, and the yearly horizon is never shorter than the monthly one |
| Dashboard.Totals | EV_App.py:153 | the history is the county's totals in row order, one per row |
| Dashboard.MaxMonths | EV_App.py:155 | the starting month index is attained by some row and is at least every row's month index |
| Dashboard.LatestDate | EV_App.py:156 | the latest date is some row's date and no row is later |
| Dashboard.SetupOf | EV_App.py:153-157 | the loop starts from the rows' totals in row order, the largest month index and the latest date among the rows, and the first row's county code |
| Dashboard.HistoricalTotal | EV_App.py:189-202 | the last entry of the historical cumulative column is the sum of all the county's totals |
| Dashboard.ForecastTotals | EV_App.py:193 | the forecast totals column holds each row's rounded total, in row order |
| Dashboard.ForecastCumulative | EV_App.py:193 | the forecast cumulative column has one entry per forecast row (its entries are given by ForecastCumulativeAt) |
| Dashboard.ForecastCumulativeAt | EV_App.py:189-193 | forecast cumulative entry k is the historical total plus the first k+1 rounded forecast totals |
| Dashboard.ForecastCumulativeSteps | EV_App.py:193 | the first forecast cumulative entry is the historical total plus the first rounded total; later entries grow by exactly the row's rounded total |
| Dashboard.GrowthPct | EV_App.py:204 | the growth is 0 when the historical total is 0; otherwise it is the percentage that, applied to the historical total, gives the increase of the forecast total over it |
| Dashboard.GrowthPctSign | EV_App.py:204 | with a positive historical total, the growth is positive or zero exactly when the forecast total is above or equal to it |
| Dashboard.PageOf | EV_App.py:193-204 | the page keeps the forecast rows and their cumulative column; the forecast total (the column's last entry) is the historical total plus every rounded forecast total, and the growth is computed from it |
| Dashboard.PageSpec | EV_App.py:137-204 | a page is produced only for a non-empty selection; it reports the sum of the historical totals and has one forecast row and one cumulative entry per month of the horizon |
| Dashboard.RunForecastPage | EV_App.py:137-204 | the page equals PageSpec. It stops with no data on an empty selection; otherwise it runs the loop, propagates its error, and builds the cumulative column, the forecast total and the growth |
| Dashboard.PageOutcome | EV_App.py:148-163 | no data exactly for an empty selection; too short a history exactly for one or two rows; otherwise one forecast row per month of the horizon |
| Dashboard.PageTotals | EV_App.py:190-204 | the forecast total is the historical total plus every rounded forecast total, and growth times historical total equals 100 times that sum |
| Dashboard.GrowthNotNegative | EV_App.py:193-204 | if no forecast total is rounded below zero and the historical total is positive, the forecast total does not fall below it and the growth is not negative |
| Forecaster.Forecast | EV_App.py:152-186 | the loop's result equals ForecastSpec: no rows for a zero horizon; an error for fewer than three observations; otherwise the rows of ForecastRun, dated and rounded |
| Forecaster.ForecastSpec | EV_App.py:158-186 | an error exactly when a positive horizon meets fewer than three observations, and then the error is too short a history; otherwise exactly one row per month of the horizon |
| Forecaster.Predictions | EV_App.py:159-181 | k steps give exactly k predictions (what each is: PredictionAt) |
| Forecaster.ModelStep | EV_App.py:169-181 | the step that turns the windows after the predictions so far into the next prediction (on readable windows the model applied to the step's features: ModelStepAt) |
| Forecaster.ForecastRun | EV_App.py:159-186 | the unrounded predictions of k steps, one per step |
| Forecaster.ForecastStep | EV_App.py:160-186 | one iteration takes the windows and rows left by i-1 predictions to those left by i predictions |
| Forecaster.ForecastRunStep | EV_App.py:163-181 | step k+1 can read its three lags, and it appends the model's answer on the features of the windows left by the first k steps, with month index start + k + 1 |
| Forecaster.ForecastStart | EV_App.py:153-158 | before the first step the windows are the seed (last six totals and their running sums) and no row has been emitted |
| Forecaster.ForecastReadable | EV_App.py:163 | with at least three observations, every step can read three lags and the slope window has at least two points |
| Forecaster.ModelStepAt | EV_App.py:169-181 | on readable windows, a step's prediction is the model applied to that step's features |
| Forecaster.RecordAt | EV_App.py:162-182 | row i is dated i+1 months after the latest date and carries prediction i rounded half to even |
| Forecaster.RecordsOfAppend | EV_App.py:182 | one more prediction appends exactly one row, dated one month after the previous row, with the rounded prediction |
| Forecaster.PredictionsStep | EV_App.py:159-181 | a run of k+1 steps is the run of k steps followed by the next step's answer on them |
| Forecaster.PredictionsPrefix | EV_App.py:159-186 | later steps never revise earlier predictions |
| Forecaster.PredictionAt | EV_App.py:159-181 | prediction i is the step applied to the first i-1 predictions, with month index start + i |
| Forecaster.ForecastPredictionAt | EV_App.py:160-181 | step i's prediction is the model applied to the features of the windows after i-1 predictions, with month index start + i and the county's code |
| Forecaster.LagIsPreviousPrediction | EV_App.py:163-184 | from the second step on, lag 1 is the previous step's unrounded prediction, not its rounded row |
| Forecaster.ForecastGrowthSlope | EV_App.py:167-186 | the growth slope at every step equals the slope of the running sums of the observation window |
| Forecaster.ConsecutiveMonths | EV_App.py:162 | row i is i+1 months after the latest date, and consecutive rows are one month apart |
| Forecaster.EmittedNearPrediction | EV_App.py:182-185 | each emitted total is within one half of the unrounded value fed back into the windows |
| Forecaster.RecordsOf | EV_App.py:182 | one row per prediction |
| Forecaster.ExampleOneStep | EV_App.py:152-186 | totals 100..150 and a model answering 160.4 give one row totalling 160; the window becomes 110..150 followed by the unrounded 160.4 |
| Features.StepFeatures | EV_App.py:163-179 | a step's features: the month index and county code; the last three observations as lags 1-3; three times the mean is their sum; the two zero-guarded percent changes; the slope of the cumulative window |
| Features.Mean3 | EV_App.py:164 | three times the mean is the sum, and the mean lies between the smallest and largest lag |
| Features.PctChange | EV_App.py:165-166 | a zero divisor gives exactly 0; otherwise prior times (1 + change) is latest |
| Features.PctChangeUnique | EV_App.py:165-166 | for a non-zero prior, the change is the only number that scales prior to latest |
| Features.PctChangeOfEqual | EV_App.py:165-166 | equal values give a change of 0, whether or not the guard fires |
| Features.GrowthSlopeOfObservations | EV_App.py:167 | for consistent windows, the growth-slope feature is the slope of the observations' running sums |
| Features.FlatTailFeatures | EV_App.py:163-166 | three equal last observations give zero percent changes and a mean equal to that level |
| SlidingWindow.LastN | EV_App.py:153 | the seed holds the last min(len, 6) totals, in order |
| SlidingWindow.Push | EV_App.py:183-186 | after a push the newest entry is the value pushed, and a window of at most six entries grows by one up to six |
| SlidingWindow.PushIsLastN | EV_App.py:183-184 | pushing onto a window of at most six entries keeps exactly the last six of the window and the value |
| SlidingWindow.LastNAppend | EV_App.py:183-184 | truncating to the last n before appending loses nothing the window will keep |
| SlidingWindow.SeedConsistent | EV_App.py:153-154 | the seeded windows have equal lengths, at most six; consecutive cumulative differences are the observations, and the first cumulative entry is the first observation |
| SlidingWindow.AdvanceKeepsConsistent | EV_App.py:183-186 | one step's pushes with eviction keep that invariant, and the observation window grows by one up to six |
| SlidingWindow.AfterStep | EV_App.py:183-186 | feeding one more prediction is one push on each window: the prediction into the observations, the last cumulative entry plus the prediction into the cumulative window |
| SlidingWindow.RecentAfter | EV_App.py:183-184 | the observation window after feeding predictions holds min(min(len(history), 6) + steps, 6) entries, the newest being the last prediction |
| SlidingWindow.CumulativeAfter | EV_App.py:185-186 | the cumulative window after feeding predictions is non-empty and holds min(min(len(history), 6) + steps, 6) entries |
| SlidingWindow.CumulativeClosedForm | EV_App.py:154-186 | the cumulative window after any predictions is the last six running sums of the seeded observations followed by the predictions |
| SlidingWindow.PushRunningSum | EV_App.py:185-186 | pushing the newest running sum plus a prediction onto the last six running sums gives the last six running sums with that prediction appended |
| SlidingWindow.AfterConsistent | EV_App.py:153-186 | after any number of predictions the windows keep the invariant |
| SlidingWindow.AfterNewest | EV_App.py:183-186 | after a step the newest observation is the prediction, and the newest cumulative entry grew by exactly the prediction |
| SlidingWindow.RecentClosedForm | EV_App.py:153-184 | the observation window after any predictions is the last six entries of the history followed by the predictions |
| SlidingWindow.CumulativeOffsetAt | EV_App.py:185-186 | in consistent windows, each cumulative entry differs from the running sum of the observations at its position by the same amount |
| SlidingWindow.CumulativeIsShiftedPrefixSums | EV_App.py:185-186 | the cumulative window is the running sums of the observation window moved by a constant |
| SlidingWindow.GrowthSlopeFromObservations | EV_App.py:167 | for consistent windows, the slope over the cumulative window equals the slope over the running sums of the observations |
| LeastSquares.Slope | EV_App.py:167 | on two or more points the slope times the fit's denominator is its numerator (the normal equations of a degree-one fit); on fewer it is 0 |
| LeastSquares.SpreadPositive | EV_App.py:167 | the fit's denominator is non-zero exactly when there are at least two points |
| LeastSquares.SlopeOfRamp | EV_App.py:167 | on points b*i the fitted slope is b |
| LeastSquares.SlopeOfLine | EV_App.py:167 | on points a + b*i the fitted slope is b |
| LeastSquares.SlopeShiftInvariant | EV_App.py:167 | adding a constant to every value leaves the fitted slope unchanged |
| Numeric.PrefixSums | EV_App.py:154 | one running sum per value, the last being the total (entry by entry: PrefixSumsAt) |
| Numeric.PrefixSumsAt | EV_App.py:154 | running-sum entry k is the sum of the first k+1 values |
| Numeric.PrefixSumsAppend | EV_App.py:185 | appending a value appends one running sum: the previous total plus that value |
| Numeric.PrefixSumsSteps | EV_App.py:154 | the first running sum is the first value; consecutive running sums differ by the value added |
| Numeric.SumNonNegative | EV_App.py:193 | a sum of non-negative totals is non-negative |
| Numeric.RoundHalfEven | EV_App.py:182 | the rounded value is within one half of its argument, and on a tie it is even |
| Numeric.RoundIsNearest | EV_App.py:182 | an integer strictly closer than one half to the argument is what rounding gives |
| Numeric.RoundOfInteger | EV_App.py:182 | rounding a whole number gives that number |
| Calendar.AddMonths | EV_App.py:162 | the month i months after a date is a valid month whose month index is the date's plus i |
| Calendar.AddZeroMonths | EV_App.py:162 | an offset of zero months leaves a valid date unchanged |
| Calendar.AddMonthsAdditive | EV_App.py:162 | moving by i months and then by j months is moving by i + j months |
| Calendar.AddMonthsMonotonic | EV_App.py:162 | a larger offset gives a strictly later month |

## Left out

- Page setup, the CSS block, images, the sidebar widgets and the clock
  (EV_App.py:13-133): user interface only. The sidebar's radio and slider
  appear only as the parameters `mode` and `value` of the horizon.
  `value` lies in 1..5 because the slider allows nothing else; that is the
  one `requires` on the page.
- Loading the model and the CSV, with caching: these are file I/O. The
  county selection and date-range filtering are pandas operations. All of
  this is represented by the already-filtered `rows` handed to the page.
- The regression model's `predict`: a foreign call. It is the parameter
  `predict`, of any real-valued function of the feature record.
- Floating point. Totals, features and predictions are exact reals.
  `np.polyfit`'s slope is its closed form over the reals, with no claim of
  float fidelity. Python's `round` is round-half-to-even on exact reals.
- LeastSquares.Slope: on fewer than two points the slope is taken to be 0.
  The forecaster never fits fewer than three points: its observation window
  holds at least three entries (Forecaster.ForecastReadable) and the
  cumulative window always has the same length (SlidingWindow.AfterConsistent),
  so this case does not arise in the model.
- Calendar.AddMonths: month offsets keep only the year and month. The
  day-of-month clamping of a calendar month offset is not modelled.
- Forecaster.ModelStep: its answer of 0 on windows too short to read is never
  reached. The forecaster only presents readable windows (ForecastReadable).
- Forecaster.Forecast: the index error raised on line 163 when the window
  holds fewer than three entries is modelled as the error value
  `InsufficientHistory` instead of an exception.
- The page after the metrics is presentation only: the number formatting of
  the metrics, the combined historical/forecast table, the matplotlib
  charts, the month-over-month percent change of the forecast totals and the
  CSV/PNG downloads.
- The historical cumulative column is represented only by its last entry,
  `Dashboard.HistoricalTotal`, the sum of the totals. Numeric.PrefixSumsAt
  relates a running-sum column to that sum.
