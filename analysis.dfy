/**
 * The daily full analysis of backend/services/analysisService.js
 * (`runFullStockAnalysis`): for each ticker of the universe, in order, the
 * year of daily bars and the quote become one stored metrics record, or the
 * ticker is skipped. Fetches are inputs: a ticker whose fetch threw is
 * `FetchFailed`, and the market index history is `None` when its fetch
 * threw.
 */
module Analysis {
  import opened Common
  import opened StockRecords

  datatype Bar = Bar(close: real, volume: real)

  /** The quote fields the record copies; the optional ones may be undefined. */
  datatype Quote = Quote(
    longName: string,
    regularMarketPrice: real,
    regularMarketChangePercent: Option<real>,
    regularMarketVolume: real,
    marketCap: real,
    fiftyDayAverage: real,
    twoHundredDayAverage: real,
    fiftyTwoWeekLow: real,
    fiftyTwoWeekHigh: real,
    averageDailyVolume3Month: real,
    epsTrailingTwelveMonths: Option<real>,
    trailingPE: Option<real>)

  /** What the two parallel fetches of one ticker gave. */
  datatype TickerData = FetchFailed | Fetched(bars: seq<Bar>, quote: Option<Quote>)

  /** The service's own percentage change, which does not round. */
  function RawChange(oldPrice: Option<real>, newPrice: Option<real>): (r: real)
    ensures !Truthy(oldPrice) || !Truthy(newPrice) ==> r == 0.0
    ensures Truthy(oldPrice) && Truthy(newPrice) ==> oldPrice.value * (1.0 + r / 100.0) == newPrice.value
  {
    if Truthy(oldPrice) && Truthy(newPrice) then (newPrice.value - oldPrice.value) / oldPrice.value * 100.0
    else 0.0
  }

  /** `historicalData[historicalData.length - k]?.close`: undefined when the history is shorter than k. */
  function CloseBack(bars: seq<Bar>, k: nat): Option<real>
    requires k >= 1
  {
    if k <= |bars| then Some(bars[|bars| - k].close) else None
  }

  function Closes(bars: seq<Bar>): (cs: seq<real>)
    ensures |cs| == |bars| && forall i :: 0 <= i < |bars| ==> cs[i] == bars[i].close
  {
    seq(|bars|, i requires 0 <= i < |bars| => bars[i].close)
  }

  function Volumes(bars: seq<Bar>): (vs: seq<real>)
    ensures |vs| == |bars| && forall i :: 0 <= i < |bars| ==> vs[i] == bars[i].volume
  {
    seq(|bars|, i requires 0 <= i < |bars| => bars[i].volume)
  }

  /** `slice(-n)`: the last n elements, or all of them. */
  function LastN(s: seq<real>, n: nat): (r: seq<real>)
    ensures |r| == if |s| <= n then |s| else n
    ensures r == s[|s| - |r|..]
  {
    if |s| <= n then s else s[|s| - n..]
  }

  /** The index performance over the year, or 0 when the fetch threw or returned nothing. */
  function MarketPerf1Y(marketCloses: Option<seq<real>>): (r: real)
    ensures marketCloses.None? || |marketCloses.value| == 0 ==> r == 0.0
    ensures marketCloses.Some? && |marketCloses.value| > 0 ==>
      r == RawChange(Some(marketCloses.value[0]), Some(marketCloses.value[|marketCloses.value| - 1]))
  {
    match marketCloses
    case None => 0.0
    case Some(cs) => if |cs| > 0 then RawChange(Some(cs[0]), Some(cs[|cs| - 1])) else 0.0
  }

  /** A ticker gives a record when both fetches succeeded, there are two bars and a quote. */
  predicate Usable(d: TickerData) {
    d.Fetched? && |d.bars| >= 2 && d.quote.Some?
  }

  /** The unrounded performances over 1 week, 1 month, 3 and 6 months and the year. */
  datatype RawPerfs = RawPerfs(perf1W: real, perf1M: real, perf3M: real, perf6M: real, perf1Y: real)

  function Perfs(bars: seq<Bar>, price: real): (p: RawPerfs)
    requires |bars| >= 2
    ensures p.perf1W == RawChange(CloseBack(bars, 5), Some(price))
    ensures p.perf1M == RawChange(CloseBack(bars, 21), Some(price))
    ensures p.perf3M == RawChange(CloseBack(bars, 63), Some(price))
    ensures p.perf6M == RawChange(CloseBack(bars, 126), Some(price))
    ensures p.perf1Y == RawChange(Some(bars[0].close), Some(price))
  {
    RawPerfs(RawChange(CloseBack(bars, 5), Some(price)),
             RawChange(CloseBack(bars, 21), Some(price)),
             RawChange(CloseBack(bars, 63), Some(price)),
             RawChange(CloseBack(bars, 126), Some(price)),
             RawChange(Some(bars[0].close), Some(price)))
  }

  function RoundOpt(x: Option<real>): Option<real> {
    match x
    case None => None
    case Some(v) => Some(Round2(v))
  }

  /** The sum of the last 150 closes over 150, to two decimals, however short the history. */
  function HundredFiftyDayAverage(bars: seq<Bar>): (avg: real)
    ensures IsCents(avg)
    ensures WithinHalfCent(avg, Sum(LastN(Closes(bars), 150)) / 150.0)
  {
    Round2(Sum(LastN(Closes(bars), 150)) / 150.0)
  }

  /** `parseInt` of the sum of the last 200 volumes over 200. */
  function AvgVolume200Day(bars: seq<Bar>): (n: int)
    ensures var mean := Sum(LastN(Volumes(bars), 200)) / 200.0;
      && (mean >= 0.0 ==> n as real <= mean < n as real + 1.0)
      && (mean < 0.0 ==> n as real - 1.0 < mean <= n as real)
  {
    Trunc(Sum(LastN(Volumes(bars), 200)) / 200.0)
  }

  /**
   * The record pushed for one ticker. Every stored performance, the alpha
   * and the momentum score are rounded to two decimals; the score and the
   * alpha are computed from the unrounded performances. A quote without a
   * daily change gives no daily change here; the code stores NaN there
   * (`parseFloat(undefined)`), which every later `|| 0` reads as 0, as it
   * reads a missing value.
   */
  function AnalyzeTicker(ticker: string, bars: seq<Bar>, q: Quote, marketPerf1Y: real): (s: StockRecord)
    requires |bars| >= 2
    ensures s.ticker == ticker && s.currentPrice == q.regularMarketPrice
    ensures s.perf1D.Some? <==> q.regularMarketChangePercent.Some?
    ensures s.fiftyDayAverage == q.fiftyDayAverage && s.twoHundredDayAverage == q.twoHundredDayAverage
    ensures s.fiftyTwoWeekHigh == q.fiftyTwoWeekHigh && s.fiftyTwoWeekLow == q.fiftyTwoWeekLow
    ensures s.epsTrailingTwelveMonths == q.epsTrailingTwelveMonths && s.trailingPE == q.trailingPE
    ensures s.longName == q.longName && s.volume == q.regularMarketVolume && s.marketCap == q.marketCap
    ensures s.avgVolume50Day == q.averageDailyVolume3Month
  {
    var p := Perfs(bars, q.regularMarketPrice);
    var momentumScore := MomentumBlend(p.perf3M, p.perf6M, p.perf1Y);
    StockRecord(
      ticker, q.longName, q.regularMarketPrice, q.regularMarketVolume, q.marketCap,
      RoundOpt(q.regularMarketChangePercent),
      Round2(p.perf1W), Round2(p.perf1M), Round2(p.perf3M), Round2(p.perf6M), Round2(p.perf1Y),
      q.fiftyDayAverage,
      HundredFiftyDayAverage(bars),
      q.twoHundredDayAverage, q.fiftyTwoWeekLow, q.fiftyTwoWeekHigh,
      q.averageDailyVolume3Month,
      AvgVolume200Day(bars),
      q.epsTrailingTwelveMonths, q.trailingPE,
      Round2(p.perf1Y - marketPerf1Y),
      Round2(momentumScore))
  }

  /** Each stored performance is its unrounded value to two decimals; so are the alpha and the score. */
  lemma StoredFiguresAreRounded(ticker: string, bars: seq<Bar>, q: Quote, marketPerf1Y: real)
    requires |bars| >= 2
    ensures var s := AnalyzeTicker(ticker, bars, q, marketPerf1Y);
      var p := Perfs(bars, q.regularMarketPrice);
      && s.perf1W == Round2(p.perf1W) && s.perf1M == Round2(p.perf1M) && s.perf3M == Round2(p.perf3M)
      && s.perf6M == Round2(p.perf6M) && s.perf1Y == Round2(p.perf1Y)
      && s.alpha == Round2(p.perf1Y - marketPerf1Y)
      && s.momentumScore == Round2(MomentumBlend(p.perf3M, p.perf6M, p.perf1Y))
      && (s.perf1D.Some? ==> s.perf1D.value == Round2(q.regularMarketChangePercent.value))
  {
  }

  /** The stored 150-day average and 200-day average volume are those of the history's helpers. */
  lemma StoredAveragesOfHistory(ticker: string, bars: seq<Bar>, q: Quote, marketPerf1Y: real)
    requires |bars| >= 2
    ensures var s := AnalyzeTicker(ticker, bars, q, marketPerf1Y);
      && s.hundredFiftyDayAverage == HundredFiftyDayAverage(bars)
      && s.avgVolume200Day == AvgVolume200Day(bars)
  {
  }

  /** A record is the ticker's analysis, from usable data. */
  predicate IsAnalysisOf(rec: StockRecord, ticker: string, data: map<string, TickerData>, marketPerf1Y: real) {
    var d := DataFor(data, ticker);
    Usable(d) && rec == AnalyzeTicker(ticker, d.bars, d.quote.value, marketPerf1Y)
  }

  /** An absent ticker reads as a failed fetch. */
  function DataFor(data: map<string, TickerData>, ticker: string): TickerData {
    if ticker in data then data[ticker] else FetchFailed
  }

  /** The record one ticker contributes: none when its data is unusable. */
  function RecordsOf(data: map<string, TickerData>, ticker: string, marketPerf1Y: real): (r: seq<StockRecord>)
    ensures |r| <= 1
    ensures |r| == 1 <==> Usable(DataFor(data, ticker))
    ensures |r| == 1 ==> IsAnalysisOf(r[0], ticker, data, marketPerf1Y) && r[0].ticker == ticker
  {
    var d := DataFor(data, ticker);
    if Usable(d) then [AnalyzeTicker(ticker, d.bars, d.quote.value, marketPerf1Y)] else []
  }

  /** The records of the universe, in universe order. */
  function Analyze(universe: seq<string>, data: map<string, TickerData>, marketPerf1Y: real): (r: seq<StockRecord>)
    ensures |r| <= |universe|
  {
    if universe == [] then []
    else Analyze(universe[..|universe| - 1], data, marketPerf1Y) + RecordsOf(data, universe[|universe| - 1], marketPerf1Y)
  }

  /** Every record belongs to a usable ticker of the universe and is that ticker's analysis; no more records than tickers. */
  lemma {:induction false} AnalysisSound(universe: seq<string>, data: map<string, TickerData>, marketPerf1Y: real)
    ensures var r := Analyze(universe, data, marketPerf1Y);
      && |r| <= |universe|
      && forall k :: 0 <= k < |r| ==>
           exists i :: 0 <= i < |universe| && IsAnalysisOf(r[k], universe[i], data, marketPerf1Y) && r[k].ticker == universe[i]
  {
    if universe != [] {
      var init := universe[..|universe| - 1];
      var last := universe[|universe| - 1];
      AnalysisSound(init, data, marketPerf1Y);
      var r0 := Analyze(init, data, marketPerf1Y);
      var tail := RecordsOf(data, last, marketPerf1Y);
      var r := Analyze(universe, data, marketPerf1Y);
      assert r == r0 + tail;
      forall k | 0 <= k < |r|
        ensures exists i :: 0 <= i < |universe| && IsAnalysisOf(r[k], universe[i], data, marketPerf1Y) && r[k].ticker == universe[i]
      {
        if k < |r0| {
          var i :| 0 <= i < |init| && IsAnalysisOf(r0[k], init[i], data, marketPerf1Y) && r0[k].ticker == init[i];
          assert r[k] == r0[k] && universe[i] == init[i];
        } else {
          assert r[k] == tail[0] && universe[|universe| - 1] == last;
        }
      }
    }
  }

  /** The usable ticker at position i of the universe has a record, at position k. */
  lemma {:induction false} AnalysisHas(universe: seq<string>, data: map<string, TickerData>, marketPerf1Y: real, i: nat)
    returns (k: nat)
    requires i < |universe| && Usable(DataFor(data, universe[i]))
    ensures k < |Analyze(universe, data, marketPerf1Y)|
    ensures Analyze(universe, data, marketPerf1Y)[k].ticker == universe[i]
    ensures IsAnalysisOf(Analyze(universe, data, marketPerf1Y)[k], universe[i], data, marketPerf1Y)
  {
    var init := universe[..|universe| - 1];
    var r0 := Analyze(init, data, marketPerf1Y);
    var tail := RecordsOf(data, universe[|universe| - 1], marketPerf1Y);
    var r := Analyze(universe, data, marketPerf1Y);
    assert r == r0 + tail;
    if i == |universe| - 1 {
      k := |r0|;
      assert r[k] == tail[0];
    } else {
      assert init[i] == universe[i];
      k := AnalysisHas(init, data, marketPerf1Y, i);
      assert r[k] == r0[k];
    }
  }

  /** Every record carries a ticker of the universe. */
  lemma {:induction false} AnalysisTickers(universe: seq<string>, data: map<string, TickerData>, marketPerf1Y: real)
    ensures forall k :: 0 <= k < |Analyze(universe, data, marketPerf1Y)| ==>
      Analyze(universe, data, marketPerf1Y)[k].ticker in universe
  {
    if universe != [] {
      var init := universe[..|universe| - 1];
      AnalysisTickers(init, data, marketPerf1Y);
      var r0 := Analyze(init, data, marketPerf1Y);
      var r := Analyze(universe, data, marketPerf1Y);
      var tail := RecordsOf(data, universe[|universe| - 1], marketPerf1Y);
      assert r == r0 + tail;
      forall k | 0 <= k < |r| ensures r[k].ticker in universe {
        if k < |r0| {
          assert r[k] == r0[k];
          assert universe == init + [universe[|universe| - 1]];
        } else {
          assert r[k] == tail[0];
        }
      }
    }
  }

  /** A universe without repeated tickers gives at most one record per ticker. */
  lemma {:induction false} AnalysisOnePerTicker(universe: seq<string>, data: map<string, TickerData>, marketPerf1Y: real)
    requires forall i, j :: 0 <= i < j < |universe| ==> universe[i] != universe[j]
    ensures forall k, l :: 0 <= k < l < |Analyze(universe, data, marketPerf1Y)| ==>
      Analyze(universe, data, marketPerf1Y)[k].ticker != Analyze(universe, data, marketPerf1Y)[l].ticker
  {
    if universe != [] {
      var init := universe[..|universe| - 1];
      var last := universe[|universe| - 1];
      assert forall i :: 0 <= i < |init| ==> init[i] == universe[i];
      AnalysisOnePerTicker(init, data, marketPerf1Y);
      AnalysisTickers(init, data, marketPerf1Y);
      assert last !in init;
      AppendKeepsTickersDistinct(Analyze(init, data, marketPerf1Y), RecordsOf(data, last, marketPerf1Y), init, last);
    }
  }

  /** Appending at most one record for a ticker not yet among the records keeps their tickers distinct. */
  lemma AppendKeepsTickersDistinct(r0: seq<StockRecord>, tail: seq<StockRecord>, init: seq<string>, last: string)
    requires forall k, l :: 0 <= k < l < |r0| ==> r0[k].ticker != r0[l].ticker
    requires forall k :: 0 <= k < |r0| ==> r0[k].ticker in init
    requires last !in init
    requires |tail| <= 1 && (|tail| == 1 ==> tail[0].ticker == last)
    ensures forall k, l :: 0 <= k < l < |r0 + tail| ==> (r0 + tail)[k].ticker != (r0 + tail)[l].ticker
  {
    var r := r0 + tail;
    forall k, l | 0 <= k < l < |r| ensures r[k].ticker != r[l].ticker {
      if l >= |r0| {
        assert r[k] == r0[k] && r[l] == tail[0];
      } else {
        assert r[k] == r0[k] && r[l] == r0[l];
      }
    }
  }

  /** A history too short for a horizon leaves that performance at 0, and never the 1-year one. */
  lemma ShortHistoryLeavesZero(ticker: string, bars: seq<Bar>, q: Quote, marketPerf1Y: real)
    requires |bars| >= 2
    ensures var s := AnalyzeTicker(ticker, bars, q, marketPerf1Y);
      && (|bars| < 5 ==> s.perf1W == 0.0)
      && (|bars| < 21 ==> s.perf1M == 0.0)
      && (|bars| < 63 ==> s.perf3M == 0.0)
      && (|bars| < 126 ==> s.perf6M == 0.0)
      && (|bars| < 63 ==> s.momentumScore == Round2(0.2 * Perfs(bars, q.regularMarketPrice).perf1Y))
  {
    StoredFiguresAreRounded(ticker, bars, q, marketPerf1Y);
    var p := Perfs(bars, q.regularMarketPrice);
    if |bars| < 63 {
      assert MomentumBlend(p.perf3M, p.perf6M, p.perf1Y) == 0.2 * p.perf1Y;
    }
  }

  /**
   * The stored momentum score is within a cent of the blend of the stored
   * (rounded) performances, but not always equal to its rounding.
   */
  lemma StoredMomentumNearBlend(ticker: string, bars: seq<Bar>, q: Quote, marketPerf1Y: real)
    requires |bars| >= 2
    ensures var s := AnalyzeTicker(ticker, bars, q, marketPerf1Y);
      var b := MomentumBlend(s.perf3M, s.perf6M, s.perf1Y);
      b - 0.01 <= s.momentumScore <= b + 0.01
  {
    StoredFiguresAreRounded(ticker, bars, q, marketPerf1Y);
  }

  /** Three 3-, 6-month and yearly performances for which rounding first and blending first differ by a cent. */
  lemma MomentumNotRecomputable()
    ensures exists p3: real, p6: real, p1y: real ::
      Round2(MomentumBlend(p3, p6, p1y)) != Round2(MomentumBlend(Round2(p3), Round2(p6), Round2(p1y)))
  {
    var p3, p6, p1y := 10.0149, 10.0149, 10.0249;
    assert Round2(p3) == 10.01 && Round2(p1y) == 10.02;
    assert Round2(MomentumBlend(10.01, 10.01, 10.02)) == 10.01;
    assert Round2(MomentumBlend(p3, p6, p1y)) == 10.02;
  }

  /**
   * The 150-day average divides by 150 whatever the length of the
   * history: a flat history of 150 bars or more averages to its price,
   * a shorter one to that fraction of it.
   */
  lemma FlatHistoryAverage(bars: seq<Bar>, c: real)
    requires forall i :: 0 <= i < |bars| ==> bars[i].close == c
    ensures |bars| >= 150 ==> HundredFiftyDayAverage(bars) == Round2(c)
    ensures |bars| < 150 ==> HundredFiftyDayAverage(bars) == Round2(c * |bars| as real / 150.0)
  {
    FlatWindowSum(bars, c);
    var total := Sum(LastN(Closes(bars), 150));
    if |bars| >= 150 {
      ScaledMean(total, 150.0, c);
      AverageOfMean(bars, c);
    } else {
      ScaledMean(total, |bars| as real, c);
      AverageOfMean(bars, c * |bars| as real / 150.0);
    }
  }

  /** A total of n equal prices, over 150. */
  lemma ScaledMean(total: real, n: real, c: real)
    requires total == n * c
    ensures total / 150.0 == c * n / 150.0
    ensures n == 150.0 ==> total / 150.0 == c
  {
  }

  /** The 150-day average is the rounded mean of the window's closes over 150. */
  lemma AverageOfMean(bars: seq<Bar>, mean: real)
    requires Sum(LastN(Closes(bars), 150)) / 150.0 == mean
    ensures HundredFiftyDayAverage(bars) == Round2(mean)
  {
  }

  /** The closes in the window of a flat history add up to the price times the window's length. */
  lemma FlatWindowSum(bars: seq<Bar>, c: real)
    requires forall i :: 0 <= i < |bars| ==> bars[i].close == c
    ensures |bars| >= 150 ==> Sum(LastN(Closes(bars), 150)) == 150.0 * c
    ensures |bars| < 150 ==> Sum(LastN(Closes(bars), 150)) == |bars| as real * c
  {
    var window := LastN(Closes(bars), 150);
    forall i | 0 <= i < |window| ensures window[i] == c {
      assert window[i] == Closes(bars)[|bars| - |window| + i];
    }
    SumConst(window, c);
    assert |window| == if |bars| >= 150 then 150 else |bars|;
  }

  /** One more ticker of the universe appends its records. */
  lemma AnalyzeStep(universe: seq<string>, data: map<string, TickerData>, marketPerf1Y: real, i: nat)
    requires i < |universe|
    ensures Analyze(universe[..i + 1], data, marketPerf1Y)
      == Analyze(universe[..i], data, marketPerf1Y) + RecordsOf(data, universe[i], marketPerf1Y)
  {
    assert universe[..i + 1][..i] == universe[..i];
  }

  /** The loop of `runFullStockAnalysis` over the universe. */
  method RunFullStockAnalysis(universe: seq<string>, data: map<string, TickerData>, marketCloses: Option<seq<real>>)
    returns (analysisResults: seq<StockRecord>)
    ensures analysisResults == Analyze(universe, data, MarketPerf1Y(marketCloses))
  {
    analysisResults := [];
    var marketPerf1Y := 0.0;
    if marketCloses.Some? && |marketCloses.value| > 0 {
      var marketHistory := marketCloses.value;
      marketPerf1Y := RawChange(Some(marketHistory[0]), Some(marketHistory[|marketHistory| - 1]));
    }
    assert marketPerf1Y == MarketPerf1Y(marketCloses);
    var i := 0;
    while i < |universe|
      invariant 0 <= i <= |universe|
      invariant analysisResults == Analyze(universe[..i], data, marketPerf1Y)
    {
      var ticker := universe[i];
      AnalyzeStep(universe, data, marketPerf1Y, i);
      var fetched := DataFor(data, ticker);
      if fetched.Fetched? {
        var historicalData := fetched.bars;
        if |historicalData| >= 2 && fetched.quote.Some? {
          var record := AnalyzeTicker(ticker, historicalData, fetched.quote.value, marketPerf1Y);
          assert RecordsOf(data, ticker, marketPerf1Y) == [record];
          analysisResults := analysisResults + [record];
        } else {
          assert RecordsOf(data, ticker, marketPerf1Y) == [];
        }
      } else {
        assert RecordsOf(data, ticker, marketPerf1Y) == [];
      }
      i := i + 1;
    }
    assert universe[..i] == universe;
  }
}
