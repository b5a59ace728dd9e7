/**
 * The stored per-stock metrics record: what the daily analysis in
 * backend/services/analysisService.js produces and what the monthly
 * portfolio construction of backend/jobs/schedule.js reads back.
 */
module StockRecords {
  import opened Common

  /**
   * Quote fields that the market-data source leaves undefined for some
   * stocks (the 1-day change, EPS, P/E) are optional; the rest are numbers.
   */
  datatype StockRecord = StockRecord(
    ticker: string,
    longName: string,
    currentPrice: real,
    volume: real,
    marketCap: real,
    perf1D: Option<real>,
    perf1W: real,
    perf1M: real,
    perf3M: real,
    perf6M: real,
    perf1Y: real,
    fiftyDayAverage: real,
    hundredFiftyDayAverage: real,
    twoHundredDayAverage: real,
    fiftyTwoWeekLow: real,
    fiftyTwoWeekHigh: real,
    avgVolume50Day: real,
    avgVolume200Day: int,
    epsTrailingTwelveMonths: Option<real>,
    trailingPE: Option<real>,
    alpha: real,
    momentumScore: real)

  /** A JavaScript `x > 0` on a possibly undefined number (undefined compares false). */
  predicate Positive(x: Option<real>) {
    x.Some? && x.value > 0.0
  }
}
