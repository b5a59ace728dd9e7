/**
 * The older analysis of services/analysisService.js: the history alone
 * gives the price, the volume and six performances; a missing offset bar
 * falls back to the first bar; the momentum score weighs all six
 * performances; the alpha is the 1-year performance over the market's.
 * A ticker whose history fetch threw is `None`.
 */
module LegacyAnalysis {
  import opened Common
  import opened Analysis

  /** The pushed record; the `toFixed(2)` strings are kept as the numbers they spell. */
  datatype LegacyRecord = LegacyRecord(
    ticker: string,
    currentPrice: real,
    volume: real,
    perf1D: real,
    perf1W: real,
    perf1M: real,
    perf3M: real,
    perf6M: real,
    perf1Y: real,
    momentumScore: real,
    alpha: real)

  /** `historicalData[length - k] || historicalData[0]`: a bar object is always truthy. */
  function BarBackOrFirst(bars: seq<Bar>, k: nat): (b: Bar)
    requires k >= 1 && |bars| >= 1
    ensures k <= |bars| ==> b == bars[|bars| - k]
    ensures k > |bars| ==> b == bars[0]
  {
    if k <= |bars| then bars[|bars| - k] else bars[0]
  }

  /** 10% of the day, 15% of the week, 20% of the month, 3 and 6 months, 15% of the year. */
  function SixWeightBlend(perf1D: real, perf1W: real, perf1M: real, perf3M: real, perf6M: real, perf1Y: real): (m: real)
    ensures perf1D == perf1W == perf1M == perf3M == perf6M == perf1Y ==> m == perf1Y
    ensures perf1D >= 0.0 && perf1W >= 0.0 && perf1M >= 0.0 && perf3M >= 0.0 && perf6M >= 0.0 && perf1Y >= 0.0 ==> m >= 0.0
  {
    perf1D * 0.1 + perf1W * 0.15 + perf1M * 0.2 + perf3M * 0.2 + perf6M * 0.2 + perf1Y * 0.15
  }

  /** The unrounded performances of the older analysis. */
  datatype LegacyPerfs = LegacyPerfs(perf1D: real, perf1W: real, perf1M: real, perf3M: real, perf6M: real, perf1Y: real)

  function LegacyPerfsOf(bars: seq<Bar>): (p: LegacyPerfs)
    requires |bars| >= 2
    ensures var price := Some(bars[|bars| - 1].close);
      && p.perf1D == RawChange(Some(bars[|bars| - 2].close), price)
      && p.perf1W == RawChange(Some(BarBackOrFirst(bars, 5).close), price)
      && p.perf1M == RawChange(Some(BarBackOrFirst(bars, 21).close), price)
      && p.perf3M == RawChange(Some(BarBackOrFirst(bars, 63).close), price)
      && p.perf6M == RawChange(Some(BarBackOrFirst(bars, 126).close), price)
      && p.perf1Y == RawChange(Some(bars[0].close), price)
  {
    var currentPrice := Some(bars[|bars| - 1].close);
    LegacyPerfs(RawChange(Some(bars[|bars| - 2].close), currentPrice),
                RawChange(Some(BarBackOrFirst(bars, 5).close), currentPrice),
                RawChange(Some(BarBackOrFirst(bars, 21).close), currentPrice),
                RawChange(Some(BarBackOrFirst(bars, 63).close), currentPrice),
                RawChange(Some(BarBackOrFirst(bars, 126).close), currentPrice),
                RawChange(Some(bars[0].close), currentPrice))
  }

  /** The record of one ticker: price and volume of the latest bar, everything else to two decimals. */
  function LegacyAnalyzeTicker(ticker: string, bars: seq<Bar>, marketPerf1Y: real): (s: LegacyRecord)
    requires |bars| >= 2
    ensures s.ticker == ticker && s.currentPrice == bars[|bars| - 1].close && s.volume == bars[|bars| - 1].volume
    ensures var p := LegacyPerfsOf(bars);
      && s.perf1D == Round2(p.perf1D) && s.perf1W == Round2(p.perf1W) && s.perf1M == Round2(p.perf1M)
      && s.perf3M == Round2(p.perf3M) && s.perf6M == Round2(p.perf6M) && s.perf1Y == Round2(p.perf1Y)
  {
    var p := LegacyPerfsOf(bars);
    LegacyRecord(ticker, bars[|bars| - 1].close, bars[|bars| - 1].volume,
                 Round2(p.perf1D), Round2(p.perf1W), Round2(p.perf1M), Round2(p.perf3M), Round2(p.perf6M), Round2(p.perf1Y),
                 Round2(SixWeightBlend(p.perf1D, p.perf1W, p.perf1M, p.perf3M, p.perf6M, p.perf1Y)),
                 Round2(p.perf1Y - marketPerf1Y))
  }

  /**
   * A history shorter than a horizon measures that horizon from the first
   * bar, so its stored performance is the 1-year one.
   */
  lemma ShortHistoryFallsBackToFirstBar(ticker: string, bars: seq<Bar>, marketPerf1Y: real)
    requires |bars| >= 2
    ensures var s := LegacyAnalyzeTicker(ticker, bars, marketPerf1Y);
      && (|bars| < 5 ==> s.perf1W == s.perf1Y)
      && (|bars| < 21 ==> s.perf1M == s.perf1Y)
      && (|bars| < 63 ==> s.perf3M == s.perf1Y)
      && (|bars| < 126 ==> s.perf6M == s.perf1Y)
  {
    var p := LegacyPerfsOf(bars);
    var s := LegacyAnalyzeTicker(ticker, bars, marketPerf1Y);
    assert s.perf1W == Round2(p.perf1W) && s.perf1M == Round2(p.perf1M) && s.perf3M == Round2(p.perf3M);
    assert s.perf6M == Round2(p.perf6M) && s.perf1Y == Round2(p.perf1Y);
  }

  /**
   * The score is the six-weight blend and the alpha the market-relative
   * year, both to two decimals of the unrounded values; the score of a
   * history that moved the same over every horizon is that move.
   */
  lemma LegacyScoreAndAlpha(ticker: string, bars: seq<Bar>, marketPerf1Y: real)
    requires |bars| >= 2
    ensures var s := LegacyAnalyzeTicker(ticker, bars, marketPerf1Y);
      var p := LegacyPerfsOf(bars);
      && WithinHalfCent(s.momentumScore, SixWeightBlend(p.perf1D, p.perf1W, p.perf1M, p.perf3M, p.perf6M, p.perf1Y))
      && WithinHalfCent(s.alpha, p.perf1Y - marketPerf1Y)
      && IsCents(s.momentumScore) && IsCents(s.alpha)
      && (p.perf1D == p.perf1W == p.perf1M == p.perf3M == p.perf6M == p.perf1Y ==> s.momentumScore == Round2(p.perf1Y))
  {
    var p := LegacyPerfsOf(bars);
    var s := LegacyAnalyzeTicker(ticker, bars, marketPerf1Y);
    var blend := SixWeightBlend(p.perf1D, p.perf1W, p.perf1M, p.perf3M, p.perf6M, p.perf1Y);
    assert s.momentumScore == Round2(blend);
    assert s.alpha == Round2(p.perf1Y - marketPerf1Y);
  }

  /** A history of at least two bars gives a record; a failed fetch or a shorter history does not. */
  predicate LegacyUsable(h: Option<seq<Bar>>) {
    h.Some? && |h.value| >= 2
  }

  function HistoryFor(histories: map<string, Option<seq<Bar>>>, ticker: string): Option<seq<Bar>> {
    if ticker in histories then histories[ticker] else None
  }

  function LegacyRecordsOf(histories: map<string, Option<seq<Bar>>>, ticker: string, marketPerf1Y: real): (r: seq<LegacyRecord>)
    ensures |r| <= 1
    ensures |r| == 1 <==> LegacyUsable(HistoryFor(histories, ticker))
    ensures |r| == 1 ==> r[0] == LegacyAnalyzeTicker(ticker, HistoryFor(histories, ticker).value, marketPerf1Y)
  {
    var h := HistoryFor(histories, ticker);
    if LegacyUsable(h) then [LegacyAnalyzeTicker(ticker, h.value, marketPerf1Y)] else []
  }

  function LegacyAnalyze(universe: seq<string>, histories: map<string, Option<seq<Bar>>>, marketPerf1Y: real): (r: seq<LegacyRecord>)
    ensures |r| <= |universe|
  {
    if universe == [] then []
    else LegacyAnalyze(universe[..|universe| - 1], histories, marketPerf1Y)
           + LegacyRecordsOf(histories, universe[|universe| - 1], marketPerf1Y)
  }

  /** The ticker at position i has a record, at position k, exactly when its history is usable. */
  lemma {:induction false} LegacySkipRule(universe: seq<string>, histories: map<string, Option<seq<Bar>>>,
                                          marketPerf1Y: real, i: nat) returns (k: nat)
    requires i < |universe| && LegacyUsable(HistoryFor(histories, universe[i]))
    ensures k < |LegacyAnalyze(universe, histories, marketPerf1Y)|
    ensures LegacyAnalyze(universe, histories, marketPerf1Y)[k] ==
      LegacyAnalyzeTicker(universe[i], HistoryFor(histories, universe[i]).value, marketPerf1Y)
  {
    var init := universe[..|universe| - 1];
    var r0 := LegacyAnalyze(init, histories, marketPerf1Y);
    var tail := LegacyRecordsOf(histories, universe[|universe| - 1], marketPerf1Y);
    var r := LegacyAnalyze(universe, histories, marketPerf1Y);
    assert r == r0 + tail;
    if i == |universe| - 1 {
      k := |r0|;
      assert r[k] == tail[0];
    } else {
      assert init[i] == universe[i];
      k := LegacySkipRule(init, histories, marketPerf1Y, i);
      assert r[k] == r0[k];
    }
  }

  /** Every record comes from a usable history of a universe ticker; no more records than tickers. */
  lemma {:induction false} LegacyAnalysisSound(universe: seq<string>, histories: map<string, Option<seq<Bar>>>, marketPerf1Y: real)
    ensures var r := LegacyAnalyze(universe, histories, marketPerf1Y);
      && |r| <= |universe|
      && forall k :: 0 <= k < |r| ==> r[k].ticker in universe && LegacyUsable(HistoryFor(histories, r[k].ticker))
  {
    if universe != [] {
      var init := universe[..|universe| - 1];
      var last := universe[|universe| - 1];
      LegacyAnalysisSound(init, histories, marketPerf1Y);
      var r0 := LegacyAnalyze(init, histories, marketPerf1Y);
      var tail := LegacyRecordsOf(histories, last, marketPerf1Y);
      var r := LegacyAnalyze(universe, histories, marketPerf1Y);
      assert r == r0 + tail;
      forall k | 0 <= k < |r|
        ensures r[k].ticker in universe && LegacyUsable(HistoryFor(histories, r[k].ticker))
      {
        if k < |r0| {
          assert r[k] == r0[k];
          assert r0[k].ticker in init;
        } else {
          assert r[k] == tail[0];
          assert tail[0] == LegacyAnalyzeTicker(last, HistoryFor(histories, last).value, marketPerf1Y);
        }
      }
    }
  }

  /** The loop of the older `runFullStockAnalysis`. */
  method LegacyRunFullStockAnalysis(universe: seq<string>, histories: map<string, Option<seq<Bar>>>,
                                    marketCloses: Option<seq<real>>)
    returns (analysisResults: seq<LegacyRecord>)
    ensures analysisResults == LegacyAnalyze(universe, histories, MarketPerf1Y(marketCloses))
  {
    analysisResults := [];
    var marketPerf1Y := 0.0;
    if marketCloses.Some? && |marketCloses.value| > 0 {
      var marketHistory := marketCloses.value;
      marketPerf1Y := RawChange(Some(marketHistory[0]), Some(marketHistory[|marketHistory| - 1]));
    }
    var i := 0;
    while i < |universe|
      invariant 0 <= i <= |universe|
      invariant analysisResults == LegacyAnalyze(universe[..i], histories, marketPerf1Y)
    {
      var ticker := universe[i];
      assert universe[..i + 1][..i] == universe[..i];
      assert LegacyAnalyze(universe[..i + 1], histories, marketPerf1Y)
        == LegacyAnalyze(universe[..i], histories, marketPerf1Y) + LegacyRecordsOf(histories, ticker, marketPerf1Y);
      var fetched := HistoryFor(histories, ticker);
      if fetched.Some? {
        var historicalData := fetched.value;
        if |historicalData| >= 2 {
          var record := LegacyAnalyzeTicker(ticker, historicalData, marketPerf1Y);
          assert LegacyRecordsOf(histories, ticker, marketPerf1Y) == [record];
          analysisResults := analysisResults + [record];
        } else {
          assert LegacyRecordsOf(histories, ticker, marketPerf1Y) == [];
        }
      } else {
        assert LegacyRecordsOf(histories, ticker, marketPerf1Y) == [];
      }
      i := i + 1;
    }
    assert universe[..i] == universe;
  }
}
