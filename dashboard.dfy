/**
 * The forecast page around the loop: the horizon chosen in the sidebar, the
 * guard on an empty county selection, the setup read off the county's rows,
 * the forecast cumulative column and the summary metrics.
 */
module Dashboard {
  import opened Numeric
  import opened LeastSquares
  import opened Calendar
  import opened Features
  import opened Forecaster

  /** The sidebar's forecast type. */
  datatype ForecastMode = Monthly | Yearly

  /** Number of forecast months: the slider value in years or in months. */
  function HorizonMonths(mode: ForecastMode, value: int): (h: int)
    ensures 1 <= value <= 5 ==> 1 <= h <= 60
  {
    if mode == Yearly then value * 12 else value * 1
  }

  /** The slider value is recovered from the horizon: whole years in the yearly mode, months otherwise. */
  lemma {:induction false} HorizonValue(mode: ForecastMode, value: int)
    ensures mode == Yearly ==> HorizonMonths(mode, value) % 12 == 0 && HorizonMonths(mode, value) / 12 == value
    ensures mode == Monthly ==> HorizonMonths(mode, value) == value
  {
  }

  /**
   * Different slider values give different horizons within a mode, and a
   * yearly horizon is never shorter than the monthly one for the same value.
   */
  lemma {:induction false} HorizonOrder(mode: ForecastMode, v: int, w: int)
    requires 1 <= v < w
    ensures HorizonMonths(mode, v) < HorizonMonths(mode, w)
    ensures HorizonMonths(Monthly, v) <= HorizonMonths(Yearly, v)
  {
  }

  /** One row of the selected county's data, in file order. */
  datatype Row = Row(date: YearMonth, total: real, monthsSinceStart: int, countyEncoded: int)

  /** The county's monthly totals in row order. */
  function Totals(rows: seq<Row>): (ts: seq<real>)
    ensures |ts| == |rows|
    ensures forall i :: 0 <= i < |rows| ==> ts[i] == rows[i].total
  {
    seq(|rows|, i requires 0 <= i < |rows| => rows[i].total)
  }

  /** The largest month index among the rows. */
  function MaxMonths(rows: seq<Row>): (m: int)
    requires |rows| > 0
    ensures exists i :: 0 <= i < |rows| && rows[i].monthsSinceStart == m
    ensures forall i :: 0 <= i < |rows| ==> rows[i].monthsSinceStart <= m
    decreases |rows|
  {
    if |rows| == 1 then rows[0].monthsSinceStart
    else
      var m := MaxMonths(rows[..|rows| - 1]);
      assert forall i :: 0 <= i < |rows| - 1 ==> rows[..|rows| - 1][i] == rows[i];
      if rows[|rows| - 1].monthsSinceStart > m then rows[|rows| - 1].monthsSinceStart else m
  }

  /** The latest date among the rows. */
  function LatestDate(rows: seq<Row>): (d: YearMonth)
    requires |rows| > 0
    ensures exists i :: 0 <= i < |rows| && rows[i].date == d
    ensures forall i :: 0 <= i < |rows| ==> MonthIndex(rows[i].date) <= MonthIndex(d)
    decreases |rows|
  {
    if |rows| == 1 then rows[0].date
    else
      var d := LatestDate(rows[..|rows| - 1]);
      assert forall i :: 0 <= i < |rows| - 1 ==> rows[..|rows| - 1][i] == rows[i];
      if MonthIndex(rows[|rows| - 1].date) > MonthIndex(d) then rows[|rows| - 1].date else d
  }

  /**
   * What the loop starts from: the totals in row order, the largest month
   * index, the latest date, and the code on the first row.
   */
  function SetupOf(rows: seq<Row>): (s: Setup)
    requires |rows| > 0
    ensures s.history == Totals(rows) && s.county == rows[0].countyEncoded
    ensures s.monthsSince == MaxMonths(rows) && s.lastDate == LatestDate(rows)
    ensures forall i :: 0 <= i < |rows| ==> rows[i].monthsSinceStart <= s.monthsSince
    ensures forall i :: 0 <= i < |rows| ==> MonthIndex(rows[i].date) <= MonthIndex(s.lastDate)
  {
    Setup(Totals(rows), MaxMonths(rows), LatestDate(rows), rows[0].countyEncoded)
  }

  /**
   * The last entry of the historical cumulative column (the running sums of
   * the totals in row order): every historical total added up.
   */
  function HistoricalTotal(rows: seq<Row>): (t: real)
    requires |rows| > 0
    ensures t == Sum(Totals(rows))
  {
    var ts := Totals(rows);
    PrefixSumsAt(ts, |ts| - 1);
    assert ts[..|ts|] == ts;
    PrefixSums(ts)[|ts| - 1]
  }

  /** The rounded totals of the forecast rows, as numbers. */
  function ForecastTotals(records: seq<ForecastRecord>): (ts: seq<real>)
    ensures |ts| == |records|
    ensures forall k :: 0 <= k < |records| ==> ts[k] == records[k].total as real
  {
    seq(|records|, k requires 0 <= k < |records| => records[k].total as real)
  }

  /**
   * The forecast cumulative column: running sums of the rounded forecast
   * totals, continued from the historical total.
   */
  function ForecastCumulative(histTotal: real, records: seq<ForecastRecord>): (c: seq<real>)
    ensures |c| == |records|
  {
    Shifted(PrefixSums(ForecastTotals(records)), histTotal)
  }

  /**
   * Entry k of the forecast cumulative column is the historical total plus
   * the first k+1 rounded forecast totals.
   */
  lemma {:induction false} ForecastCumulativeAt(histTotal: real, records: seq<ForecastRecord>, k: nat)
    requires k < |records|
    ensures ForecastCumulative(histTotal, records)[k] == histTotal + Sum(ForecastTotals(records)[..k + 1])
  {
    PrefixSumsAt(ForecastTotals(records), k);
  }

  /** Successive forecast cumulative entries differ by the rounded forecast total added. */
  lemma {:induction false} ForecastCumulativeSteps(histTotal: real, records: seq<ForecastRecord>)
    ensures |records| > 0 ==> ForecastCumulative(histTotal, records)[0] == histTotal + records[0].total as real
    ensures forall k :: 1 <= k < |records| ==>
              ForecastCumulative(histTotal, records)[k] - ForecastCumulative(histTotal, records)[k - 1]
              == records[k].total as real
  {
    PrefixSumsSteps(ForecastTotals(records));
  }

  /**
   * Growth of the forecast total over the historical total, in percent: 0
   * when the historical total is 0, otherwise the percentage that, applied
   * to the historical total, yields the forecast increase.
   */
  function GrowthPct(totalHist: real, totalForecast: real): (g: real)
    ensures totalHist == 0.0 ==> g == 0.0
    ensures totalHist != 0.0 ==> totalHist * g == (totalForecast - totalHist) * 100.0
  {
    if totalHist != 0.0 then ((totalForecast - totalHist) / totalHist) * 100.0 else 0.0
  }

  /** With a positive historical total, the growth is positive, zero or negative as the forecast total is above, at or below it. */
  lemma {:induction false} GrowthPctSign(totalHist: real, totalForecast: real)
    requires totalHist > 0.0
    ensures GrowthPct(totalHist, totalForecast) > 0.0 <==> totalForecast > totalHist
    ensures GrowthPct(totalHist, totalForecast) == 0.0 <==> totalForecast == totalHist
  {
  }

  /** The two metrics shown above the chart, and the growth between them. */
  datatype Summary = Summary(totalHist: real, totalForecast: real, growthPct: real)

  /** What the page computes once the forecast rows are known. */
  datatype Page = Page(records: seq<ForecastRecord>, cumulative: seq<real>, summary: Summary)

  /**
   * The page from the forecast rows: the cumulative column, its last entry
   * as the forecast total, and the growth.  There is at least one row since
   * the horizon is at least one month.
   */
  function PageOf(histTotal: real, records: seq<ForecastRecord>): (p: Page)
    requires |records| > 0
    ensures p.records == records && p.cumulative == ForecastCumulative(histTotal, records)
    ensures p.summary.totalHist == histTotal
    ensures p.summary.totalForecast == histTotal + Sum(ForecastTotals(records))
    ensures p.summary.growthPct == GrowthPct(histTotal, p.summary.totalForecast)
  {
    ForecastCumulativeAt(histTotal, records, |records| - 1);
    assert ForecastTotals(records)[..|records|] == ForecastTotals(records);
    var cumulative := ForecastCumulative(histTotal, records);
    var totalForecast := cumulative[|cumulative| - 1];
    Page(records, cumulative, Summary(histTotal, totalForecast, GrowthPct(histTotal, totalForecast)))
  }

  /**
   * The outcome of the forecast page for the selected county's rows: no data
   * stops the page; otherwise the forecast over the chosen horizon, and the
   * page built from its rows.
   */
  function PageSpec(rows: seq<Row>, mode: ForecastMode, value: int, predict: Features -> real): (r: Result<Page>)
    requires 1 <= value <= 5
    ensures r.Ok? ==> |rows| > 0 && r.value.summary.totalHist == Sum(Totals(rows))
    ensures r.Ok? ==> |r.value.records| == |r.value.cumulative| == HorizonMonths(mode, value)
  {
    if |rows| == 0 then Err(NoData)
    else
      match ForecastSpec(SetupOf(rows), predict, HorizonMonths(mode, value))
      case Err(e) => Err(e)
      case Ok(records) => Ok(PageOf(HistoricalTotal(rows), records))
  }

  /**
   * The forecast page: guard on empty data, run the forecast loop, then the
   * cumulative column and the metrics.
   */
  method RunForecastPage(rows: seq<Row>, mode: ForecastMode, value: int, predict: Features -> real)
    returns (res: Result<Page>)
    requires 1 <= value <= 5
    ensures res == PageSpec(rows, mode, value, predict)
  {
    if |rows| == 0 {
      return Err(NoData);
    }
    var horizon := HorizonMonths(mode, value);
    var futureData := Forecast(SetupOf(rows), predict, horizon);
    if futureData.Err? {
      return Err(futureData.error);
    }
    var records := futureData.value;
    var histTotal := HistoricalTotal(rows);
    var cumulative := ForecastCumulative(histTotal, records);
    var totalForecast := cumulative[|cumulative| - 1];
    var growth := GrowthPct(histTotal, totalForecast);
    return Ok(Page(records, cumulative, Summary(histTotal, totalForecast, growth)));
  }

  /**
   * The outcomes of the page: no data exactly for an empty selection, too
   * short a history exactly for one or two rows, and otherwise one forecast
   * row per month of the horizon.
   */
  lemma {:induction false} PageOutcome(rows: seq<Row>, mode: ForecastMode, value: int, predict: Features -> real)
    requires 1 <= value <= 5
    ensures PageSpec(rows, mode, value, predict) == Err(NoData) <==> |rows| == 0
    ensures PageSpec(rows, mode, value, predict) == Err(InsufficientHistory) <==> 0 < |rows| < 3
    ensures PageSpec(rows, mode, value, predict).Ok? ==>
              |PageSpec(rows, mode, value, predict).value.records| == HorizonMonths(mode, value)
  {
  }

  /**
   * The forecast total is the historical total plus every rounded forecast
   * total, and the growth is that increase relative to the historical total.
   */
  lemma {:induction false} PageTotals(histTotal: real, records: seq<ForecastRecord>)
    requires |records| > 0
    ensures PageOf(histTotal, records).summary.totalForecast == histTotal + Sum(ForecastTotals(records))
    ensures histTotal != 0.0 ==>
              histTotal * PageOf(histTotal, records).summary.growthPct == Sum(ForecastTotals(records)) * 100.0
  {
  }

  /**
   * When no forecast month is rounded below zero, the forecast total does not
   * fall below a positive historical total, so the growth shown is not negative.
   */
  lemma {:induction false} GrowthNotNegative(histTotal: real, records: seq<ForecastRecord>)
    requires |records| > 0 && histTotal > 0.0
    requires forall k :: 0 <= k < |records| ==> records[k].total >= 0
    ensures PageOf(histTotal, records).summary.totalForecast >= histTotal
    ensures PageOf(histTotal, records).summary.growthPct >= 0.0
  {
    PageTotals(histTotal, records);
    SumNonNegative(ForecastTotals(records));
    GrowthPctSign(histTotal, PageOf(histTotal, records).summary.totalForecast);
  }
}
