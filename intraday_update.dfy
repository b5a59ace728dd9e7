/**
 * The intraday refresh of backend/jobs/schedule.js (`intradayUpdateLogic`).
 * For every stored stock with a usable live quote, the new 1-day move is
 * computed from the previous close, the change against the stored 1-day move
 * is added to every longer horizon, and the momentum score is recomputed.
 * The job's output is the list of `updateOne` operations it hands to
 * `bulkWrite`; ApplyUpdate is the effect of one of them on the stored fields.
 */
module IntradayUpdate {
  import opened Common
  import opened ScheduleHelpers

  /** The fields the job selects from a stored stock; any of them may be missing. */
  datatype PerfSnapshot = PerfSnapshot(
    ticker: string,
    perf1D: Option<real>,
    perf1W: Option<real>,
    perf1M: Option<real>,
    perf3M: Option<real>,
    perf6M: Option<real>,
    perf1Y: Option<real>)

  /** The two fields of a live quote that the job reads. */
  datatype Quote = Quote(price: Option<real>, previousClose: Option<real>)

  /** The `$set` of one `updateOne` operation (the timestamp is left out). */
  datatype StockUpdate = StockUpdate(
    ticker: string,
    currentPrice: real,
    perf1D: real,
    perf1W: real,
    perf1M: real,
    perf3M: real,
    perf6M: real,
    perf1Y: real,
    momentumScore: real)

  predicate Usable(q: Quote) {
    Truthy(q.price) && Truthy(q.previousClose)
  }

  predicate HasUsableQuote(s: PerfSnapshot, quotes: map<string, Quote>) {
    s.ticker in quotes && Usable(quotes[s.ticker])
  }

  ghost predicate OptCents(x: Option<real>) {
    x.Some? ==> IsCents(x.value)
  }

  /** Every stored performance has at most two decimals (what both update jobs store). */
  ghost predicate StoredInCents(s: PerfSnapshot) {
    OptCents(s.perf1D) && OptCents(s.perf1W) && OptCents(s.perf1M)
    && OptCents(s.perf3M) && OptCents(s.perf6M) && OptCents(s.perf1Y)
  }

  /**
   * The update for one stock. Each longer horizon moves by the same delta as
   * the 1-day figure, up to the half-cent of rounding; with stored values in
   * cents the delta is carried over exactly and the stored momentum score is
   * the rounded blend of the stored horizons.
   */
  function Refresh(s: PerfSnapshot, q: Quote): (u: StockUpdate)
    requires Usable(q)
    ensures u.ticker == s.ticker && u.currentPrice == q.price.value
    ensures u.perf1D == PercentChange(q.previousClose, q.price)
    ensures var d := u.perf1D - OrZero(s.perf1D);
      && WithinHalfCent(u.perf1W, OrZero(s.perf1W) + d)
      && WithinHalfCent(u.perf1M, OrZero(s.perf1M) + d)
      && WithinHalfCent(u.perf3M, OrZero(s.perf3M) + d)
      && WithinHalfCent(u.perf6M, OrZero(s.perf6M) + d)
      && WithinHalfCent(u.perf1Y, OrZero(s.perf1Y) + d)
      && WithinHalfCent(u.momentumScore,
           MomentumBlend(OrZero(s.perf3M) + d, OrZero(s.perf6M) + d, OrZero(s.perf1Y) + d))
    ensures IsCents(u.perf1D) && IsCents(u.perf1W) && IsCents(u.perf1M)
    ensures IsCents(u.perf3M) && IsCents(u.perf6M) && IsCents(u.perf1Y) && IsCents(u.momentumScore)
    ensures StoredInCents(s) ==>
      var d := u.perf1D - OrZero(s.perf1D);
      && u.perf1W == OrZero(s.perf1W) + d
      && u.perf1M == OrZero(s.perf1M) + d
      && u.perf3M == OrZero(s.perf3M) + d
      && u.perf6M == OrZero(s.perf6M) + d
      && u.perf1Y == OrZero(s.perf1Y) + d
      && u.momentumScore == Round2(MomentumBlend(u.perf3M, u.perf6M, u.perf1Y))
  {
    var livePrice := q.price.value;
    var perf1D := PercentChange(q.previousClose, q.price);
    var dailyChange := perf1D - OrZero(s.perf1D);
    var perf1W := OrZero(s.perf1W) + dailyChange;
    var perf1M := OrZero(s.perf1M) + dailyChange;
    var perf3M := OrZero(s.perf3M) + dailyChange;
    var perf6M := OrZero(s.perf6M) + dailyChange;
    var perf1Y := OrZero(s.perf1Y) + dailyChange;
    CentsShift(s, perf1D);
    StockUpdate(s.ticker, livePrice, perf1D, Round2(perf1W), Round2(perf1M), Round2(perf3M),
                Round2(perf6M), Round2(perf1Y), Round2(MomentumBlend(perf3M, perf6M, perf1Y)))
  }

  /** Adding a two-decimal delta to two-decimal stored values stays in cents. */
  lemma CentsShift(s: PerfSnapshot, perf1D: real)
    ensures StoredInCents(s) && IsCents(perf1D) ==>
      var d := perf1D - OrZero(s.perf1D);
      && IsCents(d)
      && IsCents(OrZero(s.perf1W) + d) && IsCents(OrZero(s.perf1M) + d) && IsCents(OrZero(s.perf3M) + d)
      && IsCents(OrZero(s.perf6M) + d) && IsCents(OrZero(s.perf1Y) + d)
  {
    if StoredInCents(s) && IsCents(perf1D) {
      CentsOfInt(0);
      assert IsCents(0.0);
      var d := perf1D - OrZero(s.perf1D);
      CentsAdd(perf1D, OrZero(s.perf1D));
      CentsAdd(OrZero(s.perf1W), d);
      CentsAdd(OrZero(s.perf1M), d);
      CentsAdd(OrZero(s.perf3M), d);
      CentsAdd(OrZero(s.perf6M), d);
      CentsAdd(OrZero(s.perf1Y), d);
    }
  }

  /** The operations of one run, in stored order; stocks without a usable quote get none. */
  function IntradayOps(stocks: seq<PerfSnapshot>, quotes: map<string, Quote>): (r: seq<StockUpdate>)
    ensures |quotes| == 0 ==> r == []
  {
    if stocks == [] then []
    else
      var s := stocks[|stocks| - 1];
      IntradayOps(stocks[..|stocks| - 1], quotes)
        + (if HasUsableQuote(s, quotes) then [Refresh(s, quotes[s.ticker])] else [])
  }

  /** What the `$set` of an operation leaves in the selected fields of the stored stock. */
  function ApplyUpdate(s: PerfSnapshot, u: StockUpdate): (t: PerfSnapshot)
    requires u.ticker == s.ticker
    ensures t.ticker == s.ticker
  {
    PerfSnapshot(s.ticker, Some(u.perf1D), Some(u.perf1W), Some(u.perf1M), Some(u.perf3M),
                 Some(u.perf6M), Some(u.perf1Y))
  }

  /** The stored stocks once a run's operations are written. */
  function Refreshed(stocks: seq<PerfSnapshot>, quotes: map<string, Quote>): (r: seq<PerfSnapshot>)
    ensures |r| == |stocks|
  {
    seq(|stocks|, i requires 0 <= i < |stocks| =>
      if HasUsableQuote(stocks[i], quotes) then ApplyUpdate(stocks[i], Refresh(stocks[i], quotes[stocks[i].ticker]))
      else stocks[i])
  }

  /**
   * Refreshing a stock a second time with the same quote changes no
   * performance figure (the delta is 0); the momentum score is also unchanged
   * when the stored figures were already in cents.
   */
  lemma RefreshTwice(s: PerfSnapshot, q: Quote)
    requires Usable(q)
    ensures var u := Refresh(s, q);
      var u2 := Refresh(ApplyUpdate(s, u), q);
      && u2.perf1D == u.perf1D && u2.perf1W == u.perf1W && u2.perf1M == u.perf1M
      && u2.perf3M == u.perf3M && u2.perf6M == u.perf6M && u2.perf1Y == u.perf1Y
      && (StoredInCents(s) ==> u2 == u)
  {
    var u := Refresh(s, q);
    var t := ApplyUpdate(s, u);
    assert StoredInCents(t);
    var u2 := Refresh(t, q);
    assert u2.perf1D - OrZero(t.perf1D) == 0.0;
  }

  /** With stored figures in cents, a second run with the same quotes writes exactly what the first wrote. */
  lemma {:induction false} IntradayRerunIsStable(stocks: seq<PerfSnapshot>, quotes: map<string, Quote>)
    requires forall i :: 0 <= i < |stocks| && HasUsableQuote(stocks[i], quotes) ==> StoredInCents(stocks[i])
    ensures IntradayOps(Refreshed(stocks, quotes), quotes) == IntradayOps(stocks, quotes)
  {
    if stocks != [] {
      var init := stocks[..|stocks| - 1];
      IntradayRerunIsStable(init, quotes);
      var r := Refreshed(stocks, quotes);
      assert r[..|stocks| - 1] == Refreshed(init, quotes);
      RerunOfOne(stocks[|stocks| - 1], quotes);
    }
  }

  /** A refreshed stock in cents has a usable quote again, and that quote gives the same operation. */
  lemma RerunOfOne(s: PerfSnapshot, quotes: map<string, Quote>)
    requires HasUsableQuote(s, quotes) ==> StoredInCents(s)
    ensures HasUsableQuote(s, quotes) ==>
      var t := ApplyUpdate(s, Refresh(s, quotes[s.ticker]));
      HasUsableQuote(t, quotes) && Refresh(t, quotes[t.ticker]) == Refresh(s, quotes[s.ticker])
  {
    if HasUsableQuote(s, quotes) {
      RefreshTwice(s, quotes[s.ticker]);
    }
  }

  /** Whatever was stored before, from the second run on the job writes the same operations. */
  lemma IntradayEventuallyStable(stocks: seq<PerfSnapshot>, quotes: map<string, Quote>)
    ensures var once := Refreshed(stocks, quotes);
      IntradayOps(Refreshed(once, quotes), quotes) == IntradayOps(once, quotes)
  {
    var once := Refreshed(stocks, quotes);
    forall i | 0 <= i < |once| && HasUsableQuote(once[i], quotes) ensures StoredInCents(once[i]) {
      if HasUsableQuote(stocks[i], quotes) {
        var u := Refresh(stocks[i], quotes[stocks[i].ticker]);
        assert once[i] == ApplyUpdate(stocks[i], u);
      }
    }
    IntradayRerunIsStable(once, quotes);
  }

  /** Each operation belongs to a stored stock with a usable quote, and there is at most one per stock. */
  lemma {:induction false} OpsComeFromQuotedStocks(stocks: seq<PerfSnapshot>, quotes: map<string, Quote>)
    ensures |IntradayOps(stocks, quotes)| <= |stocks|
    ensures forall k :: 0 <= k < |IntradayOps(stocks, quotes)| ==>
      exists i :: 0 <= i < |stocks| && HasUsableQuote(stocks[i], quotes)
        && IntradayOps(stocks, quotes)[k] == Refresh(stocks[i], quotes[stocks[i].ticker])
    ensures (forall i :: 0 <= i < |stocks| ==> !HasUsableQuote(stocks[i], quotes)) ==> IntradayOps(stocks, quotes) == []
  {
    if stocks != [] {
      var init := stocks[..|stocks| - 1];
      OpsComeFromQuotedStocks(init, quotes);
      var ops := IntradayOps(stocks, quotes);
      var prev := IntradayOps(init, quotes);
      forall k | 0 <= k < |ops|
        ensures exists i :: 0 <= i < |stocks| && HasUsableQuote(stocks[i], quotes) &&
                  ops[k] == Refresh(stocks[i], quotes[stocks[i].ticker])
      {
        if k < |prev| {
          var i :| 0 <= i < |init| && HasUsableQuote(init[i], quotes) && prev[k] == Refresh(init[i], quotes[init[i].ticker]);
          assert stocks[i] == init[i];
        } else {
          assert HasUsableQuote(stocks[|stocks| - 1], quotes);
        }
      }
      if forall i :: 0 <= i < |stocks| ==> !HasUsableQuote(stocks[i], quotes) {
        assert forall i :: 0 <= i < |init| ==> init[i] == stocks[i];
      }
    }
  }

  /** The body of the loop for one stock with a usable quote: the `$set` it builds. */
  method UpdateFor(stock: PerfSnapshot, quote: Quote) returns (update: StockUpdate)
    requires Usable(quote)
    ensures update == Refresh(stock, quote)
  {
    var livePrice := quote.price.value;
    var oldPerf1D := OrZero(stock.perf1D);
    var perf1D := PercentChange(quote.previousClose, quote.price);
    var dailyChange := perf1D - oldPerf1D;
    var perf1W := OrZero(stock.perf1W) + dailyChange;
    var perf1M := OrZero(stock.perf1M) + dailyChange;
    var perf3M := OrZero(stock.perf3M) + dailyChange;
    var perf6M := OrZero(stock.perf6M) + dailyChange;
    var perf1Y := OrZero(stock.perf1Y) + dailyChange;
    var momentumScore := Round2(MomentumBlend(perf3M, perf6M, perf1Y));
    update := StockUpdate(stock.ticker, livePrice, perf1D, Round2(perf1W), Round2(perf1M),
                          Round2(perf3M), Round2(perf6M), Round2(perf1Y), momentumScore);
  }

  /** The job: nothing outside market hours or without any quote, else one operation per quoted stock. */
  method RunIntradayUpdate(day: int, hour: int, minute: int, stocks: seq<PerfSnapshot>, quotes: map<string, Quote>)
    returns (operations: seq<StockUpdate>)
    requires 0 <= day <= 6 && 0 <= hour < 24 && 0 <= minute < 60
    ensures !IsMarketOpen(day, hour, minute) ==> operations == []
    ensures IsMarketOpen(day, hour, minute) ==> operations == IntradayOps(stocks, quotes)
  {
    operations := [];
    if !IsMarketOpen(day, hour, minute) || |stocks| == 0 {
      return;
    }
    if |quotes| == 0 {
      return;
    }
    var i := 0;
    while i < |stocks|
      invariant 0 <= i <= |stocks|
      invariant operations == IntradayOps(stocks[..i], quotes)
    {
      var stock := stocks[i];
      IntradayOpsStep(stocks, quotes, i);
      if stock.ticker in quotes {
        var quote := quotes[stock.ticker];
        if Truthy(quote.price) && Truthy(quote.previousClose) {
          var update := UpdateFor(stock, quote);
          operations := operations + [update];
        }
      }
      i := i + 1;
    }
    assert stocks[..i] == stocks;
  }

  /** The operations for one more stock. */
  lemma IntradayOpsStep(stocks: seq<PerfSnapshot>, quotes: map<string, Quote>, i: int)
    requires 0 <= i < |stocks|
    ensures IntradayOps(stocks[..i + 1], quotes) == IntradayOps(stocks[..i], quotes)
      + (if HasUsableQuote(stocks[i], quotes) then [Refresh(stocks[i], quotes[stocks[i].ticker])] else [])
  {
    assert stocks[..i + 1][..i] == stocks[..i];
  }
}
