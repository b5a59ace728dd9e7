/**
 * The selection half of `portfolioCreationLogic` in backend/jobs/schedule.js:
 * the 75th-percentile relative-strength threshold, the momentum and alpha
 * filters, the descending ranking cut at ten, the entry-price fallback and
 * the portfolio documents that are upserted.
 */
module PortfolioSelection {
  import opened Common
  import opened StockRecords
  import opened PerformanceTracking

  predicate SortedAsc(s: seq<real>) {
    forall i, j :: 0 <= i < j < |s| ==> s[i] <= s[j]
  }

  function InsertAsc(x: real, s: seq<real>): (r: seq<real>)
    requires SortedAsc(s)
    ensures multiset(r) == multiset(s) + multiset{x}
    ensures forall k :: 0 <= k < |r| ==> r[k] == x || r[k] in s
    ensures SortedAsc(r)
  {
    if s == [] then [x]
    else if x <= s[0] then
      InFrontKeepsAsc(x, s);
      [x] + s
    else
      var rest := InsertAsc(x, s[1..]);
      PrependKeepsAsc(s, x, rest);
      [s[0]] + rest
  }

  lemma InFrontKeepsAsc(x: real, s: seq<real>)
    requires SortedAsc(s) && |s| > 0 && x <= s[0]
    ensures SortedAsc([x] + s)
    ensures multiset([x] + s) == multiset(s) + multiset{x}
    ensures forall k :: 0 <= k < |[x] + s| ==> ([x] + s)[k] == x || ([x] + s)[k] in s
  {
    forall k | 1 <= k < |[x] + s| ensures ([x] + s)[k] in s {
      assert ([x] + s)[k] == s[k - 1];
    }
  }

  lemma PrependKeepsAsc(s: seq<real>, x: real, rest: seq<real>)
    requires SortedAsc(s) && |s| > 0 && s[0] < x
    requires SortedAsc(rest) && multiset(rest) == multiset(s[1..]) + multiset{x}
    requires forall k :: 0 <= k < |rest| ==> rest[k] == x || rest[k] in s[1..]
    ensures SortedAsc([s[0]] + rest)
    ensures multiset([s[0]] + rest) == multiset(s) + multiset{x}
    ensures forall k :: 0 <= k < |[s[0]] + rest| ==> ([s[0]] + rest)[k] == x || ([s[0]] + rest)[k] in s
  {
    assert s == [s[0]] + s[1..];
    var r := [s[0]] + rest;
    forall k | 0 <= k < |rest| ensures s[0] <= rest[k] && (rest[k] == x || rest[k] in s) {
      if rest[k] != x {
        var m :| 0 <= m < |s[1..]| && s[1..][m] == rest[k];
        assert s[m + 1] == rest[k];
      }
    }
    forall k | 1 <= k < |r| ensures r[k] == rest[k - 1] {
    }
  }

  /** `sort((a, b) => a - b)` on numbers. */
  function SortAsc(s: seq<real>): (r: seq<real>)
    ensures SortedAsc(r) && multiset(r) == multiset(s)
  {
    if s == [] then []
    else
      assert s == [s[0]] + s[1..];
      InsertAsc(s[0], SortAsc(s[1..]))
  }

  function Perf6MValues(stocks: seq<StockRecord>): (v: seq<real>)
    ensures |v| == |stocks| && forall i :: 0 <= i < |stocks| ==> v[i] == stocks[i].perf6M
  {
    seq(|stocks|, i requires 0 <= i < |stocks| => stocks[i].perf6M)
  }

  /** The number of values at or above t. */
  function CountAtLeast(s: seq<real>, t: real): nat
  {
    if s == [] then 0 else CountAtLeast(s[..|s| - 1], t) + (if s[|s| - 1] >= t then 1 else 0)
  }

  lemma {:induction false} CountAtLeastAppend(a: seq<real>, b: seq<real>, t: real)
    ensures CountAtLeast(a + b, t) == CountAtLeast(a, t) + CountAtLeast(b, t)
  {
    if b == [] {
      assert a + b == a;
    } else {
      assert (a + b)[..|a + b| - 1] == a + b[..|b| - 1];
      CountAtLeastAppend(a, b[..|b| - 1], t);
    }
  }

  /** Taking one element out of a sequence takes it out of the multiset and the count. */
  lemma RemoveOne(b: seq<real>, j: nat, t: real)
    requires j < |b|
    ensures multiset(b[..j] + b[j + 1..]) == multiset(b) - multiset{b[j]}
    ensures CountAtLeast(b, t) == CountAtLeast(b[..j] + b[j + 1..], t) + (if b[j] >= t then 1 else 0)
  {
    assert b == b[..j] + [b[j]] + b[j + 1..];
    CountAtLeastAppend(b[..j] + [b[j]], b[j + 1..], t);
    CountAtLeastAppend(b[..j], [b[j]], t);
    CountAtLeastAppend(b[..j], b[j + 1..], t);
    assert CountAtLeast([b[j]], t) == CountAtLeast([], t) + (if b[j] >= t then 1 else 0);
  }

  lemma {:induction false} CountAtLeastPermutation(a: seq<real>, b: seq<real>, t: real)
    requires multiset(a) == multiset(b)
    ensures CountAtLeast(a, t) == CountAtLeast(b, t)
    decreases |a|
  {
    if a == [] {
      assert |multiset(b)| == 0;
    } else {
      var x := a[|a| - 1];
      var a' := a[..|a| - 1];
      assert a == a' + [x];
      assert x in multiset(b);
      var j :| 0 <= j < |b| && b[j] == x;
      var b' := b[..j] + b[j + 1..];
      RemoveOne(b, j, t);
      assert multiset(a') == multiset(b') by {
        assert multiset(a) == multiset(a') + multiset{x};
      }
      CountAtLeastPermutation(a', b', t);
    }
  }

  lemma {:induction false} CountAtLeastOfSortedSuffix(s: seq<real>, k: nat)
    requires SortedAsc(s) && k < |s|
    ensures CountAtLeast(s, s[k]) >= |s| - k
    decreases |s|
  {
    if k < |s| - 1 {
      CountAtLeastOfSortedSuffix(s[..|s| - 1], k);
    }
  }

  /** `perf6MValues[Math.floor(perf6MValues.length * 0.75)]` of the ascending perf6M values. */
  function RsThreshold(stocks: seq<StockRecord>): (t: real)
    requires |stocks| > 0
    ensures t in Perf6MValues(stocks)
  {
    var sorted := SortAsc(Perf6MValues(stocks));
    assert sorted[(3 * |stocks|) / 4] in multiset(sorted);
    sorted[(3 * |stocks|) / 4]
  }

  /** At least a quarter of the universe (rounded up) has a 6-month performance at or above the threshold. */
  lemma QuarterMeetsThreshold(stocks: seq<StockRecord>)
    requires |stocks| > 0
    ensures CountAtLeast(Perf6MValues(stocks), RsThreshold(stocks)) >= |stocks| - (3 * |stocks|) / 4
    ensures CountAtLeast(Perf6MValues(stocks), RsThreshold(stocks)) >= 1
  {
    var values := Perf6MValues(stocks);
    var sorted := SortAsc(values);
    CountAtLeastOfSortedSuffix(sorted, (3 * |stocks|) / 4);
    CountAtLeastPermutation(values, sorted, RsThreshold(stocks));
  }

  /** The six momentum filters: positive score, above both averages, trend aligned, near the high, strong enough. */
  predicate MomentumEligible(s: StockRecord, rsThreshold: real) {
    && s.momentumScore > 0.0
    && s.currentPrice > s.fiftyDayAverage
    && s.currentPrice > s.twoHundredDayAverage
    && s.hundredFiftyDayAverage > s.twoHundredDayAverage
    && s.currentPrice >= s.fiftyTwoWeekHigh * 0.75
    && s.perf6M >= rsThreshold
  }

  /** The alpha filters: positive alpha, positive EPS, positive P/E. */
  predicate AlphaEligible(s: StockRecord) {
    s.alpha > 0.0 && Positive(s.epsTrailingTwelveMonths) && Positive(s.trailingPE)
  }

  predicate Eligible(s: StockRecord, strategy: Strategy, rsThreshold: real) {
    match strategy
    case Momentum => MomentumEligible(s, rsThreshold)
    case Alpha => AlphaEligible(s)
  }

  /** The ranking key: the momentum score or the alpha. */
  function Score(s: StockRecord, strategy: Strategy): real {
    match strategy
    case Momentum => s.momentumScore
    case Alpha => s.alpha
  }

  /** `filter` with the strategy's predicate. */
  function Candidates(stocks: seq<StockRecord>, strategy: Strategy, rsThreshold: real): (r: seq<StockRecord>)
    ensures forall i :: 0 <= i < |r| ==> Eligible(r[i], strategy, rsThreshold)
    ensures multiset(r) <= multiset(stocks)
    ensures forall i :: 0 <= i < |stocks| && Eligible(stocks[i], strategy, rsThreshold) ==> stocks[i] in r
  {
    if stocks == [] then []
    else
      var rest := Candidates(stocks[1..], strategy, rsThreshold);
      CandidatesStep(stocks, strategy, rsThreshold, rest);
      if Eligible(stocks[0], strategy, rsThreshold) then [stocks[0]] + rest else rest
  }

  /** What the filter of the tail gives, lifted to the whole list. */
  lemma CandidatesStep(stocks: seq<StockRecord>, strategy: Strategy, rsThreshold: real, rest: seq<StockRecord>)
    requires |stocks| > 0
    requires multiset(rest) <= multiset(stocks[1..])
    requires forall i :: 0 <= i < |stocks[1..]| && Eligible(stocks[1..][i], strategy, rsThreshold) ==> stocks[1..][i] in rest
    ensures multiset(rest) <= multiset(stocks)
    ensures multiset([stocks[0]] + rest) <= multiset(stocks)
    ensures forall i :: 1 <= i < |stocks| && Eligible(stocks[i], strategy, rsThreshold) ==> stocks[i] in rest
  {
    assert stocks == [stocks[0]] + stocks[1..];
    assert multiset(stocks) == multiset{stocks[0]} + multiset(stocks[1..]);
    assert multiset([stocks[0]] + rest) == multiset{stocks[0]} + multiset(rest);
    forall i | 1 <= i < |stocks| && Eligible(stocks[i], strategy, rsThreshold) ensures stocks[i] in rest {
      assert stocks[i] == stocks[1..][i - 1];
    }
  }

  predicate SortedDesc(s: seq<StockRecord>, strategy: Strategy) {
    forall i, j :: 0 <= i < j < |s| ==> Score(s[i], strategy) >= Score(s[j], strategy)
  }

  /** Insert before the first element whose score is no higher than x's, so ahead of equal scores. */
  function InsertDesc(x: StockRecord, s: seq<StockRecord>, strategy: Strategy): (r: seq<StockRecord>)
    requires SortedDesc(s, strategy)
    ensures multiset(r) == multiset(s) + multiset{x}
    ensures forall k :: 0 <= k < |r| ==> r[k] == x || r[k] in s
    ensures SortedDesc(r, strategy)
  {
    if s == [] then [x]
    else if Score(x, strategy) >= Score(s[0], strategy) then
      InFrontKeepsSorted(x, s, strategy);
      [x] + s
    else
      var rest := InsertDesc(x, s[1..], strategy);
      PrependKeepsSorted(s, x, rest, strategy);
      [s[0]] + rest
  }

  lemma InFrontKeepsSorted(x: StockRecord, s: seq<StockRecord>, strategy: Strategy)
    requires SortedDesc(s, strategy) && |s| > 0 && Score(x, strategy) >= Score(s[0], strategy)
    ensures SortedDesc([x] + s, strategy)
    ensures multiset([x] + s) == multiset(s) + multiset{x}
    ensures forall k :: 0 <= k < |[x] + s| ==> ([x] + s)[k] == x || ([x] + s)[k] in s
  {
    forall k | 1 <= k < |[x] + s| ensures ([x] + s)[k] in s {
      assert ([x] + s)[k] == s[k - 1];
    }
  }

  lemma PrependKeepsSorted(s: seq<StockRecord>, x: StockRecord, rest: seq<StockRecord>, strategy: Strategy)
    requires SortedDesc(s, strategy) && |s| > 0 && Score(x, strategy) < Score(s[0], strategy)
    requires SortedDesc(rest, strategy) && multiset(rest) == multiset(s[1..]) + multiset{x}
    requires forall k :: 0 <= k < |rest| ==> rest[k] == x || rest[k] in s[1..]
    ensures SortedDesc([s[0]] + rest, strategy)
    ensures multiset([s[0]] + rest) == multiset(s) + multiset{x}
    ensures forall k :: 0 <= k < |[s[0]] + rest| ==> ([s[0]] + rest)[k] == x || ([s[0]] + rest)[k] in s
  {
    assert s == [s[0]] + s[1..];
    var r := [s[0]] + rest;
    forall k | 0 <= k < |rest| ensures Score(s[0], strategy) >= Score(rest[k], strategy) && (rest[k] == x || rest[k] in s) {
      if rest[k] != x {
        var m :| 0 <= m < |s[1..]| && s[1..][m] == rest[k];
        assert s[m + 1] == rest[k];
      }
    }
    forall k | 1 <= k < |r| ensures r[k] == rest[k - 1] {
    }
  }

  /** `sort((a, b) => b.score - a.score)`. */
  function SortDesc(s: seq<StockRecord>, strategy: Strategy): (r: seq<StockRecord>)
    ensures SortedDesc(r, strategy) && multiset(r) == multiset(s)
  {
    if s == [] then []
    else
      assert s == [s[0]] + s[1..];
      InsertDesc(s[0], SortDesc(s[1..], strategy), strategy)
  }

  /** Whatever a cut at ten leaves out of a descending ranking scores no higher than the tenth pick. */
  lemma CutKeepsBest(ranked: seq<StockRecord>, strategy: Strategy)
    requires SortedDesc(ranked, strategy) && |ranked| > 10
    ensures forall j :: 10 <= j < |ranked| ==> Score(ranked[j], strategy) <= Score(ranked[..10][9], strategy)
  {
  }

  /** The picks of one strategy: the candidates ranked by score, descending, cut at ten. */
  function Picks(stocks: seq<StockRecord>, strategy: Strategy, rsThreshold: real): (r: seq<StockRecord>)
    ensures |r| <= 10
    ensures forall i :: 0 <= i < |r| ==> Eligible(r[i], strategy, rsThreshold)
    ensures SortedDesc(r, strategy)
    ensures multiset(r) <= multiset(stocks)
    ensures forall i :: 0 <= i < |r| ==> r[i] in stocks
    ensures forall i :: 0 <= i < |stocks| && Eligible(stocks[i], strategy, rsThreshold) && stocks[i] !in r ==>
      |r| == 10 && Score(stocks[i], strategy) <= Score(r[9], strategy)
  {
    var candidates := Candidates(stocks, strategy, rsThreshold);
    var ranked := SortDesc(candidates, strategy);
    var top := if |ranked| <= 10 then ranked else ranked[..10];
    PicksProperties(stocks, strategy, rsThreshold, candidates, ranked, top);
    top
  }

  lemma SubMultisetMembers(a: seq<StockRecord>, b: seq<StockRecord>)
    requires multiset(a) <= multiset(b)
    ensures forall i :: 0 <= i < |a| ==> a[i] in b
  {
    forall i | 0 <= i < |a| ensures a[i] in b {
      assert a[i] in multiset(a);
    }
  }

  /** Everything the ranking holds is a candidate, so eligible and from the universe. */
  lemma RankedAreCandidates(stocks: seq<StockRecord>, strategy: Strategy, rsThreshold: real,
                            candidates: seq<StockRecord>, ranked: seq<StockRecord>, top: seq<StockRecord>)
    requires candidates == Candidates(stocks, strategy, rsThreshold)
    requires multiset(ranked) == multiset(candidates)
    requires |top| <= |ranked| && top == ranked[..|top|]
    ensures forall i :: 0 <= i < |top| ==> Eligible(top[i], strategy, rsThreshold)
    ensures multiset(top) <= multiset(stocks)
  {
    assert ranked == top + ranked[|top|..];
    assert multiset(ranked) == multiset(top) + multiset(ranked[|top|..]);
    forall i | 0 <= i < |top| ensures Eligible(top[i], strategy, rsThreshold) {
      assert top[i] in multiset(top);
      assert top[i] in multiset(candidates);
      var m :| 0 <= m < |candidates| && candidates[m] == top[i];
    }
  }

  /** An eligible stock the cut leaves out ranks at or after the tenth place. */
  lemma LeftOutRanksLow(stocks: seq<StockRecord>, strategy: Strategy, rsThreshold: real,
                        candidates: seq<StockRecord>, ranked: seq<StockRecord>, top: seq<StockRecord>, i: int)
    requires candidates == Candidates(stocks, strategy, rsThreshold)
    requires SortedDesc(ranked, strategy) && multiset(ranked) == multiset(candidates)
    requires top == if |ranked| <= 10 then ranked else ranked[..10]
    requires 0 <= i < |stocks| && Eligible(stocks[i], strategy, rsThreshold) && stocks[i] !in top
    ensures |top| == 10 && Score(stocks[i], strategy) <= Score(top[9], strategy)
  {
    assert stocks[i] in candidates;
    assert stocks[i] in multiset(candidates);
    assert stocks[i] in multiset(ranked);
    var j :| 0 <= j < |ranked| && ranked[j] == stocks[i];
    assert j >= |top|;
    CutKeepsBest(ranked, strategy);
  }

  lemma PicksProperties(stocks: seq<StockRecord>, strategy: Strategy, rsThreshold: real,
                        candidates: seq<StockRecord>, ranked: seq<StockRecord>, top: seq<StockRecord>)
    requires candidates == Candidates(stocks, strategy, rsThreshold)
    requires SortedDesc(ranked, strategy) && multiset(ranked) == multiset(candidates)
    requires top == if |ranked| <= 10 then ranked else ranked[..10]
    ensures forall i :: 0 <= i < |top| ==> Eligible(top[i], strategy, rsThreshold)
    ensures SortedDesc(top, strategy)
    ensures multiset(top) <= multiset(stocks)
    ensures forall i :: 0 <= i < |top| ==> top[i] in stocks
    ensures forall i :: 0 <= i < |stocks| && Eligible(stocks[i], strategy, rsThreshold) && stocks[i] !in top ==>
      |top| == 10 && Score(stocks[i], strategy) <= Score(top[9], strategy)
  {
    assert top == ranked[..|top|];
    RankedAreCandidates(stocks, strategy, rsThreshold, candidates, ranked, top);
    SubMultisetMembers(top, stocks);
    forall i | 0 <= i < |stocks| && Eligible(stocks[i], strategy, rsThreshold) && stocks[i] !in top
      ensures |top| == 10 && Score(stocks[i], strategy) <= Score(top[9], strategy)
    {
      LeftOutRanksLow(stocks, strategy, rsThreshold, candidates, ranked, top, i);
    }
  }

  /** `allStocks.find((s) => s.ticker === ticker)`. */
  function FirstWithTicker(stocks: seq<StockRecord>, ticker: string): (s: StockRecord)
    requires exists i :: 0 <= i < |stocks| && stocks[i].ticker == ticker
    ensures s.ticker == ticker
    ensures exists i :: 0 <= i < |stocks| && stocks[i] == s && forall j :: 0 <= j < i ==> stocks[j].ticker != ticker
  {
    if stocks[0].ticker == ticker then stocks[0]
    else
      var s := FirstWithTicker(stocks[1..], ticker);
      assert forall j :: 1 <= j < |stocks| ==> stocks[j] == stocks[1..][j - 1];
      s
  }

  /**
   * `getEntryPrice`: the close of the second-to-last bar of the last few
   * days, or the stored current price when fewer than two bars came back or
   * the fetch failed (a ticker absent from `recentCloses`).
   */
  function EntryPrice(ticker: string, recentCloses: map<string, seq<real>>, allStocks: seq<StockRecord>): (p: real)
    requires exists i :: 0 <= i < |allStocks| && allStocks[i].ticker == ticker
    ensures ticker in recentCloses && |recentCloses[ticker]| > 1 ==>
      p == recentCloses[ticker][|recentCloses[ticker]| - 2]
    ensures !(ticker in recentCloses && |recentCloses[ticker]| > 1) ==>
      exists i :: 0 <= i < |allStocks| && allStocks[i].ticker == ticker && p == allStocks[i].currentPrice
  {
    if ticker in recentCloses && |recentCloses[ticker]| > 1 then recentCloses[ticker][|recentCloses[ticker]| - 2]
    else FirstWithTicker(allStocks, ticker).currentPrice
  }

  /** `{ ticker, priceAtAddition, momentumScore | alpha }` for each pick, in ranked order. */
  function Entries(picks: seq<StockRecord>, strategy: Strategy, recentCloses: map<string, seq<real>>,
                   allStocks: seq<StockRecord>): (cs: seq<Constituent>)
    requires forall i :: 0 <= i < |picks| ==> picks[i] in allStocks
    ensures |cs| == |picks|
    ensures forall i :: 0 <= i < |picks| ==>
      cs[i].ticker == picks[i].ticker && cs[i].score == Score(picks[i], strategy)
    ensures forall i :: 0 <= i < |picks| ==> cs[i].priceAtAddition == EntryPrice(picks[i].ticker, recentCloses, allStocks)
  {
    seq(|picks|, i requires 0 <= i < |picks| =>
      Constituent(picks[i].ticker, EntryPrice(picks[i].ticker, recentCloses, allStocks), Score(picks[i], strategy)))
  }

  function Label(strategy: Strategy): string {
    match strategy
    case Momentum => "Momentum Kings"
    case Alpha => "Alpha Titans"
  }

  /** `"{label} - {month} {year}"`, with the period text passed in. */
  function PortfolioName(strategy: Strategy, period: string): string {
    Label(strategy) + " - " + period
  }

  lemma NamesDiffer(period: string)
    ensures PortfolioName(Momentum, period) != PortfolioName(Alpha, period)
  {
    assert PortfolioName(Momentum, period)[0] == 'M';
    assert PortfolioName(Alpha, period)[0] == 'A';
  }

  /**
   * The document the job upserts: the month's name, 100 per constituent,
   * active, generated on the run's date, a first history point of 0 %, and
   * none of the figures the performance job writes.
   */
  function NewPortfolio(strategy: Strategy, stocks: seq<Constituent>, period: string, date: int): (p: ModelPortfolio)
    requires |stocks| > 0
    ensures Trackable(p) && p.isActive && p.strategy == strategy && p.stocks == stocks
    ensures p.initialValue == 100.0 * |stocks| as real && p.currentValue == p.initialValue
    ensures p.performanceHistory == [HistoryEntry(date, 0.0)]
    ensures p.name == PortfolioName(strategy, period) && p.generationDate == date
    ensures p.previousValue.None? && p.dayReturnPercent.None? && p.currentReturnPercent.None?
    ensures p.peakReturnPercent.None? && p.maxDrawdownPercent.None? && p.lastPerformanceUpdate.None?
  {
    var initialValue := 100.0 * |stocks| as real;
    ModelPortfolio(PortfolioName(strategy, period), strategy, stocks, date, true, initialValue, initialValue,
                   None, None, None, None, None, None, [HistoryEntry(date, 0.0)])
  }
}
