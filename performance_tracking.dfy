/**
 * The model-portfolio record written by backend/jobs/schedule.js and the
 * daily performance computation of `performanceUpdateLogic`: equal-weight
 * valuation, day and overall return, running peak return, running maximum
 * drawdown, and the one-entry-per-day history write.
 */
module PerformanceTracking {
  import opened Common

  datatype Strategy = Momentum | Alpha

  /** A constituent with its entry price and the strategy's score at selection. */
  datatype Constituent = Constituent(ticker: string, priceAtAddition: real, score: real)

  /** A history point; `day` is the calendar day (`toDateString`). */
  datatype HistoryEntry = HistoryEntry(day: int, portfolioReturn: real)

  /**
   * A stored model portfolio. The figures the creation job does not write are
   * optional: they are missing until the first performance update.
   */
  datatype ModelPortfolio = ModelPortfolio(
    name: string,
    strategy: Strategy,
    stocks: seq<Constituent>,
    generationDate: int,
    isActive: bool,
    initialValue: real,
    currentValue: real,
    previousValue: Option<real>,
    dayReturnPercent: Option<real>,
    currentReturnPercent: Option<real>,
    peakReturnPercent: Option<real>,
    maxDrawdownPercent: Option<real>,
    lastPerformanceUpdate: Option<int>,
    performanceHistory: seq<HistoryEntry>)

  /** What the performance job needs of a portfolio (a division by the count and by the initial value). */
  predicate Trackable(p: ModelPortfolio) {
    |p.stocks| > 0 && p.initialValue > 0.0
  }

  /** A constituent is marked to market when it has a live price and a positive entry price. */
  predicate Priced(c: Constituent, prices: map<string, real>) {
    c.ticker in prices && prices[c.ticker] != 0.0 && c.priceAtAddition > 0.0
  }

  function Contribution(c: Constituent, weight: real, prices: map<string, real>): (v: real)
    ensures !Priced(c, prices) ==> v == weight
    ensures Priced(c, prices) ==> v * c.priceAtAddition == weight * prices[c.ticker]
  {
    if Priced(c, prices) then weight * (prices[c.ticker] / c.priceAtAddition) else weight
  }

  /** The sum of the contributions, in constituent order. */
  function Valuation(stocks: seq<Constituent>, weight: real, prices: map<string, real>): real
  {
    if stocks == [] then 0.0
    else Valuation(stocks[..|stocks| - 1], weight, prices) + Contribution(stocks[|stocks| - 1], weight, prices)
  }

  /** With no constituent marked to market the value is the initial value. */
  lemma {:induction false} UnpricedIsFlat(stocks: seq<Constituent>, weight: real, prices: map<string, real>)
    requires forall i :: 0 <= i < |stocks| ==> !Priced(stocks[i], prices)
    ensures Valuation(stocks, weight, prices) == |stocks| as real * weight
  {
    if stocks != [] {
      UnpricedIsFlat(stocks[..|stocks| - 1], weight, prices);
    }
  }

  /** A constituent's contribution can only move the value by its own change. */
  lemma {:induction false} ValuationSplit(stocks: seq<Constituent>, k: nat, weight: real, prices: map<string, real>)
    requires k < |stocks|
    requires forall i :: 0 <= i < |stocks| && i != k ==> !Priced(stocks[i], prices)
    ensures Valuation(stocks, weight, prices) == (|stocks| - 1) as real * weight + Contribution(stocks[k], weight, prices)
  {
    var init := stocks[..|stocks| - 1];
    if k == |stocks| - 1 {
      UnpricedIsFlat(init, weight, prices);
    } else {
      ValuationSplit(init, k, weight, prices);
    }
  }

  /** The figures the job derives from the new value. */
  datatype Figures = Figures(
    dayReturn: real,
    currentReturn: real,
    peakReturn: real,
    drawdown: real,
    maxDrawdown: real)

  /** The portfolio value at a given return on the initial value. */
  function PeakValue(initialValue: real, peakReturn: real): real {
    initialValue * (1.0 + peakReturn / 100.0)
  }

  function Max(a: real, b: real): real { if a >= b then a else b }
  function Min(a: real, b: real): real { if a <= b then a else b }

  /**
   * Day return against the previous value (0 when there is none), overall
   * return against the initial value, running peak and running maximum
   * drawdown (missing stored values read as 0).
   */
  function ComputeFigures(initialValue: real, previousValue: real, newValue: real,
                          storedPeak: Option<real>, storedMaxDrawdown: Option<real>): (f: Figures)
    requires initialValue > 0.0
    ensures previousValue == 0.0 ==> f.dayReturn == 0.0
    ensures previousValue != 0.0 ==> newValue == previousValue * (1.0 + f.dayReturn / 100.0)
    ensures newValue == initialValue * (1.0 + f.currentReturn / 100.0)
    ensures f.peakReturn >= OrZero(storedPeak) && f.peakReturn >= f.currentReturn
    ensures f.peakReturn == OrZero(storedPeak) || f.peakReturn == f.currentReturn
    ensures f.drawdown <= 0.0
    ensures f.currentReturn == f.peakReturn ==> f.drawdown == 0.0
    ensures f.drawdown == Drawdown(PeakValue(initialValue, f.peakReturn), newValue)
    ensures f.maxDrawdown <= OrZero(storedMaxDrawdown) && f.maxDrawdown <= f.drawdown
    ensures f.maxDrawdown == OrZero(storedMaxDrawdown) || f.maxDrawdown == f.drawdown
    ensures f.maxDrawdown <= 0.0
  {
    var dayReturn := if previousValue != 0.0 then (newValue - previousValue) / previousValue * 100.0 else 0.0;
    var currentReturn := (newValue - initialValue) / initialValue * 100.0;
    var peakReturn := Max(OrZero(storedPeak), currentReturn);
    var drawdown := Drawdown(PeakValue(initialValue, peakReturn), newValue);
    DrawdownNonPositive(initialValue, newValue, currentReturn, peakReturn);
    Figures(dayReturn, currentReturn, peakReturn, drawdown, Min(OrZero(storedMaxDrawdown), drawdown))
  }

  /**
   * The drawdown of the new value against the value at the peak return, in
   * percent: that peak value, moved by the drawdown, is the new value; 0 when
   * the peak value is not positive.
   */
  function Drawdown(peakValue: real, newValue: real): (d: real)
    ensures peakValue > 0.0 ==> newValue == peakValue * (1.0 + d / 100.0)
    ensures peakValue <= 0.0 ==> d == 0.0
  {
    if peakValue > 0.0 then
      var d := (newValue / peakValue - 1.0) * 100.0;
      assert peakValue * (1.0 + d / 100.0) == peakValue * (newValue / peakValue);
      d
    else 0.0
  }

  /** The value at the peak return is never below the current value, so the drawdown is never positive. */
  lemma DrawdownNonPositive(initialValue: real, newValue: real, currentReturn: real, peakReturn: real)
    requires initialValue > 0.0
    requires currentReturn == (newValue - initialValue) / initialValue * 100.0
    requires peakReturn >= currentReturn
    ensures newValue == initialValue * (1.0 + currentReturn / 100.0)
    ensures var peakValue := initialValue * (1.0 + peakReturn / 100.0);
      && newValue <= peakValue
      && (peakValue > 0.0 ==> (newValue / peakValue - 1.0) * 100.0 <= 0.0)
      && (peakValue > 0.0 && peakReturn == currentReturn ==> (newValue / peakValue - 1.0) * 100.0 == 0.0)
  {
    var peakValue := initialValue * (1.0 + peakReturn / 100.0);
    assert initialValue * (1.0 + currentReturn / 100.0) == initialValue + (newValue - initialValue);
    assert peakValue - newValue == initialValue * ((peakReturn - currentReturn) / 100.0);
    if peakValue > 0.0 {
      assert newValue / peakValue <= 1.0 by {
        assert newValue == (newValue / peakValue) * peakValue;
      }
      if peakReturn == currentReturn {
        assert peakValue == newValue;
        assert newValue / peakValue == 1.0;
      }
    }
  }

  /** The position of the first entry of that day, or -1 (`findIndex`). */
  function FindDay(history: seq<HistoryEntry>, day: int): (i: int)
    ensures -1 <= i < |history|
    ensures i >= 0 ==> history[i].day == day && forall j :: 0 <= j < i ==> history[j].day != day
    ensures i == -1 ==> forall j :: 0 <= j < |history| ==> history[j].day != day
  {
    if history == [] then -1
    else if history[0].day == day then 0
    else
      var k := FindDay(history[1..], day);
      if k == -1 then -1 else k + 1
  }

  /** Replace the first entry of the entry's day, or append the entry when that day has none. */
  function WriteHistory(history: seq<HistoryEntry>, entry: HistoryEntry): (r: seq<HistoryEntry>)
    ensures FindDay(history, entry.day) >= 0 ==>
      |r| == |history| && r[FindDay(history, entry.day)] == entry
      && forall j :: 0 <= j < |history| && j != FindDay(history, entry.day) ==> r[j] == history[j]
    ensures FindDay(history, entry.day) == -1 ==> r == history + [entry]
  {
    var i := FindDay(history, entry.day);
    if i > -1 then history[i := entry] else history + [entry]
  }

  /** At most one entry per calendar day. */
  predicate DaysDistinct(history: seq<HistoryEntry>) {
    forall i, j :: 0 <= i < j < |history| ==> history[i].day != history[j].day
  }

  /** The write keeps one entry per day, and the entry of its day is the new one. */
  lemma WriteHistoryKeepsOnePerDay(history: seq<HistoryEntry>, entry: HistoryEntry)
    requires DaysDistinct(history)
    ensures var r := WriteHistory(history, entry);
      && DaysDistinct(r)
      && FindDay(r, entry.day) >= 0 && r[FindDay(r, entry.day)] == entry
      && forall j :: 0 <= j < |r| && r[j].day == entry.day ==> r[j] == entry
  {
    var r := WriteHistory(history, entry);
    var i := FindDay(history, entry.day);
    if i == -1 {
      assert r[|history|] == entry;
    } else {
      assert r[i] == entry;
    }
  }

  /** A same-day rerun changes nothing further. */
  lemma WriteHistoryIdempotent(history: seq<HistoryEntry>, entry: HistoryEntry)
    ensures WriteHistory(WriteHistory(history, entry), entry) == WriteHistory(history, entry)
  {
    var r := WriteHistory(history, entry);
    var i := FindDay(history, entry.day);
    if i == -1 {
      assert r[|history|] == entry;
      assert FindDay(r, entry.day) == |history|;
    } else {
      assert FindDay(r, entry.day) == i;
    }
  }

  /**
   * One portfolio after a daily update: the new value, the figures, the
   * update day and the history write; the constituents, the initial value
   * and everything else are kept.
   */
  function Tracked(p: ModelPortfolio, prices: map<string, real>, today: int): (q: ModelPortfolio)
    requires Trackable(p)
    ensures Trackable(q)
    ensures q.name == p.name && q.strategy == p.strategy && q.stocks == p.stocks && q.isActive == p.isActive
    ensures q.initialValue == p.initialValue && q.generationDate == p.generationDate
    ensures q.previousValue == Some(p.currentValue)
    ensures q.currentValue == Valuation(p.stocks, p.initialValue / |p.stocks| as real, prices)
    ensures q.peakReturnPercent.Some? && q.peakReturnPercent.value >= OrZero(p.peakReturnPercent)
    ensures q.maxDrawdownPercent.Some? && q.maxDrawdownPercent.value <= OrZero(p.maxDrawdownPercent)
    ensures q.maxDrawdownPercent.value <= 0.0
    ensures q.currentReturnPercent.Some? && q.peakReturnPercent.value >= q.currentReturnPercent.value
    ensures var f := ComputeFigures(p.initialValue, p.currentValue, q.currentValue, p.peakReturnPercent, p.maxDrawdownPercent);
      && q.currentReturnPercent == Some(f.currentReturn)
      && q.dayReturnPercent == Some(f.dayReturn)
      && q.peakReturnPercent == Some(f.peakReturn)
      && q.maxDrawdownPercent == Some(f.maxDrawdown)
    ensures q.lastPerformanceUpdate == Some(today)
    ensures q.performanceHistory == WriteHistory(p.performanceHistory, HistoryEntry(today, q.currentReturnPercent.value))
  {
    var newValue := Valuation(p.stocks, p.initialValue / |p.stocks| as real, prices);
    var f := ComputeFigures(p.initialValue, p.currentValue, newValue, p.peakReturnPercent, p.maxDrawdownPercent);
    p.(previousValue := Some(p.currentValue),
       currentValue := newValue,
       dayReturnPercent := Some(f.dayReturn),
       currentReturnPercent := Some(f.currentReturn),
       peakReturnPercent := Some(f.peakReturn),
       maxDrawdownPercent := Some(f.maxDrawdown),
       lastPerformanceUpdate := Some(today),
       performanceHistory := WriteHistory(p.performanceHistory, HistoryEntry(today, f.currentReturn)))
  }

  /** The accumulator loop of the job: the sum of the contributions. */
  method ComputeValue(stocks: seq<Constituent>, weight: real, prices: map<string, real>) returns (newCurrentValue: real)
    ensures newCurrentValue == Valuation(stocks, weight, prices)
  {
    newCurrentValue := 0.0;
    var i := 0;
    while i < |stocks|
      invariant 0 <= i <= |stocks|
      invariant newCurrentValue == Valuation(stocks[..i], weight, prices)
    {
      var stock := stocks[i];
      assert stocks[..i + 1][..i] == stocks[..i];
      if stock.ticker in prices && prices[stock.ticker] != 0.0 && stock.priceAtAddition > 0.0 {
        var returnRatio := prices[stock.ticker] / stock.priceAtAddition;
        newCurrentValue := newCurrentValue + weight * returnRatio;
      } else {
        newCurrentValue := newCurrentValue + weight;
      }
      i := i + 1;
    }
    assert stocks[..i] == stocks;
  }

  /** A run of the job on each of several days, one price map per day. */
  function Replay(p: ModelPortfolio, days: seq<(map<string, real>, int)>): (q: ModelPortfolio)
    requires Trackable(p)
    ensures Trackable(q) && q.stocks == p.stocks && q.initialValue == p.initialValue
  {
    if days == [] then p
    else Tracked(Replay(p, days[..|days| - 1]), days[|days| - 1].0, days[|days| - 1].1)
  }

  /**
   * Over any sequence of daily runs, the peak return never falls and the
   * maximum drawdown never rises; after at least one run it is at most 0.
   */
  lemma {:induction false} ReplayIsMonotone(p: ModelPortfolio, days: seq<(map<string, real>, int)>)
    requires Trackable(p)
    ensures OrZero(Replay(p, days).peakReturnPercent) >= OrZero(p.peakReturnPercent)
    ensures OrZero(Replay(p, days).maxDrawdownPercent) <= OrZero(p.maxDrawdownPercent)
    ensures days != [] ==> OrZero(Replay(p, days).maxDrawdownPercent) <= 0.0
  {
    if days != [] {
      ReplayIsMonotone(p, days[..|days| - 1]);
    }
  }
}
