/**
 * The portfolio collection as the two portfolio jobs of
 * backend/jobs/schedule.js change it: the daily performance update of every
 * stored portfolio, and the monthly rebuild, which deactivates every
 * portfolio and upserts this month's "Momentum Kings" and "Alpha Titans".
 */
module PortfolioJobs {
  import opened Common
  import opened StockRecords
  import opened PerformanceTracking
  import opened PortfolioSelection

  /** The collection's unique `name` index. */
  predicate NamesDistinct(ps: seq<ModelPortfolio>) {
    forall i, j :: 0 <= i < j < |ps| ==> ps[i].name != ps[j].name
  }

  /** What both jobs keep: unique names, and every portfolio can be valued. */
  predicate StoreInvariant(ps: seq<ModelPortfolio>) {
    NamesDistinct(ps) && forall i :: 0 <= i < |ps| ==> Trackable(ps[i])
  }

  /** `findOne({ name })`: the first portfolio with that name, or -1. */
  function FindByName(ps: seq<ModelPortfolio>, name: string): (i: int)
    ensures -1 <= i < |ps|
    ensures i >= 0 ==> ps[i].name == name && forall j :: 0 <= j < i ==> ps[j].name != name
    ensures i == -1 ==> forall j :: 0 <= j < |ps| ==> ps[j].name != name
  {
    if ps == [] then -1
    else if ps[|ps| - 1].name == name then
      var i := FindByName(ps[..|ps| - 1], name);
      if i >= 0 then i else |ps| - 1
    else FindByName(ps[..|ps| - 1], name)
  }

  /** The fields the monthly job writes carry the document's values. */
  predicate Written(p: ModelPortfolio, doc: ModelPortfolio) {
    && p.name == doc.name && p.strategy == doc.strategy && p.stocks == doc.stocks
    && p.initialValue == doc.initialValue && p.currentValue == doc.currentValue
    && p.isActive == doc.isActive && p.generationDate == doc.generationDate
    && p.performanceHistory == doc.performanceHistory
  }

  /**
   * The update part of `findOneAndUpdate` on an existing portfolio: a plain
   * object is applied as `$set`, so the fields the document does not name
   * (the previous value, the day, current and peak return, the drawdown and
   * the last update time) keep their stored values.
   */
  function SetFields(stored: ModelPortfolio, doc: ModelPortfolio): (p: ModelPortfolio)
    requires stored.name == doc.name
    ensures Written(p, doc)
    ensures p.previousValue == stored.previousValue && p.dayReturnPercent == stored.dayReturnPercent
    ensures p.currentReturnPercent == stored.currentReturnPercent
    ensures p.peakReturnPercent == stored.peakReturnPercent && p.maxDrawdownPercent == stored.maxDrawdownPercent
    ensures p.lastPerformanceUpdate == stored.lastPerformanceUpdate
  {
    stored.(strategy := doc.strategy, stocks := doc.stocks, initialValue := doc.initialValue,
            currentValue := doc.currentValue, isActive := doc.isActive, generationDate := doc.generationDate,
            performanceHistory := doc.performanceHistory)
  }

  /** `findOneAndUpdate({ name }, doc, { upsert: true })`: update the match in place, or insert at the end. */
  function Upsert(ps: seq<ModelPortfolio>, doc: ModelPortfolio): (r: seq<ModelPortfolio>)
    ensures |r| == |ps| || |r| == |ps| + 1
    ensures forall i :: 0 <= i < |ps| ==> r[i].name == ps[i].name
    ensures forall i :: 0 <= i < |r| ==> Written(r[i], doc) || (i < |ps| && r[i] == ps[i])
    ensures forall i :: 0 <= i < |ps| && ps[i].name != doc.name ==> r[i] == ps[i]
    ensures exists i :: 0 <= i < |r| && Written(r[i], doc)
    ensures FindByName(ps, doc.name) >= 0 ==>
      |r| == |ps| && r[FindByName(ps, doc.name)] == SetFields(ps[FindByName(ps, doc.name)], doc)
    ensures FindByName(ps, doc.name) == -1 ==> r == ps + [doc]
    ensures NamesDistinct(ps) ==> NamesDistinct(r)
  {
    var i := FindByName(ps, doc.name);
    if i >= 0 then
      var r := ps[i := SetFields(ps[i], doc)];
      assert NamesDistinct(ps) ==> forall j :: 0 <= j < |ps| && j != i ==> ps[j].name != doc.name;
      r
    else
      var r := ps + [doc];
      assert Written(r[|ps|], doc);
      r
  }

  /** `updateMany({ isActive: true }, { $set: { isActive: false } })`. */
  function Deactivated(ps: seq<ModelPortfolio>): (r: seq<ModelPortfolio>)
    ensures |r| == |ps|
    ensures forall i :: 0 <= i < |ps| ==> r[i] == ps[i].(isActive := false)
  {
    seq(|ps|, i requires 0 <= i < |ps| => ps[i].(isActive := false))
  }

  /** The portfolio document of one strategy for this month, if it has any pick. */
  function Proposal(strategy: Strategy, allStocks: seq<StockRecord>, recentCloses: map<string, seq<real>>,
                    period: string, date: int): (doc: Option<ModelPortfolio>)
    requires |allStocks| > 0
    ensures doc.Some? <==> |Picks(allStocks, strategy, RsThreshold(allStocks))| > 0
    ensures doc.Some? ==>
      var picks := Picks(allStocks, strategy, RsThreshold(allStocks));
      && doc.value == NewPortfolio(strategy, Entries(picks, strategy, recentCloses, allStocks), period, date)
      && doc.value.name == PortfolioName(strategy, period)
  {
    var picks := Picks(allStocks, strategy, RsThreshold(allStocks));
    if |picks| > 0 then Some(NewPortfolio(strategy, Entries(picks, strategy, recentCloses, allStocks), period, date))
    else None
  }

  function UpsertProposal(ps: seq<ModelPortfolio>, doc: Option<ModelPortfolio>): (r: seq<ModelPortfolio>)
    ensures |ps| <= |r| <= |ps| + 1
    ensures forall i :: 0 <= i < |ps| ==> r[i].name == ps[i].name
  {
    match doc
    case Some(d) => Upsert(ps, d)
    case None => ps
  }

  /** The collection after the monthly job; an empty stock collection leaves it as it is. */
  function Created(ps: seq<ModelPortfolio>, allStocks: seq<StockRecord>, recentCloses: map<string, seq<real>>,
                   period: string, date: int): (r: seq<ModelPortfolio>)
    ensures |allStocks| == 0 ==> r == ps
    ensures |ps| <= |r| <= |ps| + 2
    ensures forall i :: 0 <= i < |ps| ==> r[i].name == ps[i].name
  {
    if |allStocks| == 0 then ps
    else
      var deactivated := Deactivated(ps);
      var withMomentum := UpsertProposal(deactivated, Proposal(Momentum, allStocks, recentCloses, period, date));
      UpsertProposal(withMomentum, Proposal(Alpha, allStocks, recentCloses, period, date))
  }

  /** An active portfolio after the monthly job is this month's portfolio of its strategy, freshly written. */
  predicate FreshOfMonth(p: ModelPortfolio, allStocks: seq<StockRecord>, recentCloses: map<string, seq<real>>,
                         period: string, date: int)
    requires |allStocks| > 0
  {
    var doc := Proposal(p.strategy, allStocks, recentCloses, period, date);
    doc.Some? && Written(p, doc.value)
  }

  /** Two upserts of active, differently named documents into a collection with nothing active. */
  lemma TwoUpserts(ps: seq<ModelPortfolio>, m: Option<ModelPortfolio>, a: Option<ModelPortfolio>)
    requires StoreInvariant(ps) && forall i :: 0 <= i < |ps| ==> !ps[i].isActive
    requires m.Some? ==> Trackable(m.value) && m.value.isActive
    requires a.Some? ==> Trackable(a.value) && a.value.isActive
    requires m.Some? && a.Some? ==> m.value.name != a.value.name
    ensures var r := UpsertProposal(UpsertProposal(ps, m), a);
      && StoreInvariant(r)
      && |r| >= |ps|
      && (forall i :: 0 <= i < |ps| ==> r[i].name == ps[i].name)
      && (forall i :: 0 <= i < |r| && r[i].isActive ==>
            (m.Some? && Written(r[i], m.value)) || (a.Some? && Written(r[i], a.value)))
      && (m.Some? ==> exists i :: 0 <= i < |r| && Written(r[i], m.value))
      && (a.Some? ==> exists i :: 0 <= i < |r| && Written(r[i], a.value))
  {
    var r1 := UpsertProposal(ps, m);
    var r := UpsertProposal(r1, a);
    if m.Some? {
      forall i | 0 <= i < |r1| ensures Trackable(r1[i]) {
        if !Written(r1[i], m.value) {
          assert r1[i] == ps[i];
        }
      }
    }
    if a.Some? {
      forall i | 0 <= i < |r| ensures Trackable(r[i]) {
        if !Written(r[i], a.value) {
          assert r[i] == r1[i];
        }
      }
    }
    forall i | 0 <= i < |r| && r[i].isActive
      ensures (m.Some? && Written(r[i], m.value)) || (a.Some? && Written(r[i], a.value))
    {
      if !(a.Some? && Written(r[i], a.value)) {
        assert r[i] == r1[i];
      }
    }
    if m.Some? {
      var i :| 0 <= i < |r1| && Written(r1[i], m.value);
      if a.Some? {
        assert r1[i].name != a.value.name;
        assert r[i] == r1[i];
      }
      assert Written(r[i], m.value);
    }
  }

  /** The monthly job on a non-empty stock collection is the two upserts into the deactivated collection. */
  lemma CreatedStructure(ps: seq<ModelPortfolio>, allStocks: seq<StockRecord>,
                         recentCloses: map<string, seq<real>>, period: string, date: int)
    requires StoreInvariant(ps) && |allStocks| > 0
    ensures var m := Proposal(Momentum, allStocks, recentCloses, period, date);
      var a := Proposal(Alpha, allStocks, recentCloses, period, date);
      var r := Created(ps, allStocks, recentCloses, period, date);
      && StoreInvariant(r)
      && |r| >= |ps|
      && (forall i :: 0 <= i < |ps| ==> r[i].name == ps[i].name)
      && (forall i :: 0 <= i < |r| && r[i].isActive ==>
            (m.Some? && Written(r[i], m.value)) || (a.Some? && Written(r[i], a.value)))
      && (m.Some? ==> exists i :: 0 <= i < |r| && Written(r[i], m.value))
      && (a.Some? ==> exists i :: 0 <= i < |r| && Written(r[i], a.value))
  {
    var d := Deactivated(ps);
    var m := Proposal(Momentum, allStocks, recentCloses, period, date);
    var a := Proposal(Alpha, allStocks, recentCloses, period, date);
    DeactivatedReady(ps);
    ProposalReady(Momentum, allStocks, recentCloses, period, date);
    ProposalReady(Alpha, allStocks, recentCloses, period, date);
    NamesDiffer(period);
    TwoUpserts(d, m, a);
  }

  /** Deactivating keeps the names and the store invariant and leaves no portfolio active. */
  lemma DeactivatedReady(ps: seq<ModelPortfolio>)
    requires StoreInvariant(ps)
    ensures var d := Deactivated(ps);
      && StoreInvariant(d)
      && forall i :: 0 <= i < |ps| ==> d[i].name == ps[i].name && !d[i].isActive
  {
  }

  /** A proposal is trackable, active and named after its strategy and month. */
  lemma ProposalReady(strategy: Strategy, allStocks: seq<StockRecord>, recentCloses: map<string, seq<real>>,
                      period: string, date: int)
    requires |allStocks| > 0
    ensures var doc := Proposal(strategy, allStocks, recentCloses, period, date);
      doc.Some? ==> Trackable(doc.value) && doc.value.isActive && doc.value.name == PortfolioName(strategy, period)
  {
  }

  /**
   * After the monthly job every active portfolio is this month's portfolio
   * of its strategy, with 100 per constituent and a single 0 % history
   * point, and no two active portfolios share a strategy.
   */
  lemma MonthlyCreationActive(ps: seq<ModelPortfolio>, allStocks: seq<StockRecord>,
                              recentCloses: map<string, seq<real>>, period: string, date: int)
    requires StoreInvariant(ps) && |allStocks| > 0
    ensures var r := Created(ps, allStocks, recentCloses, period, date);
      && (forall i :: 0 <= i < |r| && r[i].isActive ==>
            FreshOfMonth(r[i], allStocks, recentCloses, period, date)
            && r[i].name == PortfolioName(r[i].strategy, period)
            && r[i].initialValue == 100.0 * |r[i].stocks| as real
            && r[i].performanceHistory == [HistoryEntry(date, 0.0)])
      && (forall i, j :: 0 <= i < j < |r| && r[i].isActive && r[j].isActive ==> r[i].strategy != r[j].strategy)
  {
    var r := Created(ps, allStocks, recentCloses, period, date);
    forall i | 0 <= i < |r| && r[i].isActive
      ensures FreshOfMonth(r[i], allStocks, recentCloses, period, date)
      ensures r[i].name == PortfolioName(r[i].strategy, period)
      ensures r[i].initialValue == 100.0 * |r[i].stocks| as real
      ensures r[i].performanceHistory == [HistoryEntry(date, 0.0)]
    {
      ActiveIsFresh(ps, allStocks, recentCloses, period, date, i);
    }
    CreatedStructure(ps, allStocks, recentCloses, period, date);
    forall i, j | 0 <= i < j < |r| && r[i].isActive && r[j].isActive
      ensures r[i].strategy != r[j].strategy
    {
      assert r[i].name != r[j].name;
    }
  }

  lemma ActiveIsFresh(ps: seq<ModelPortfolio>, allStocks: seq<StockRecord>,
                      recentCloses: map<string, seq<real>>, period: string, date: int, i: nat)
    requires StoreInvariant(ps) && |allStocks| > 0
    requires var r := Created(ps, allStocks, recentCloses, period, date); i < |r| && r[i].isActive
    ensures var r := Created(ps, allStocks, recentCloses, period, date);
      && FreshOfMonth(r[i], allStocks, recentCloses, period, date)
      && r[i].name == PortfolioName(r[i].strategy, period)
      && r[i].initialValue == 100.0 * |r[i].stocks| as real
      && r[i].performanceHistory == [HistoryEntry(date, 0.0)]
  {
    CreatedStructure(ps, allStocks, recentCloses, period, date);
  }

  /** After the monthly job a strategy has an active portfolio exactly when it has at least one pick. */
  lemma MonthlyCreationCoverage(ps: seq<ModelPortfolio>, allStocks: seq<StockRecord>,
                                recentCloses: map<string, seq<real>>, period: string, date: int, s: Strategy)
    requires StoreInvariant(ps) && |allStocks| > 0
    ensures var r := Created(ps, allStocks, recentCloses, period, date);
      (exists i :: 0 <= i < |r| && r[i].isActive && r[i].strategy == s) <==>
      |Picks(allStocks, s, RsThreshold(allStocks))| > 0
  {
    var r := Created(ps, allStocks, recentCloses, period, date);
    CreatedStructure(ps, allStocks, recentCloses, period, date);
    var doc := Proposal(s, allStocks, recentCloses, period, date);
    if doc.Some? {
      var i :| 0 <= i < |r| && Written(r[i], doc.value);
      assert r[i].isActive && r[i].strategy == s;
    }
  }

  /** The daily performance job on the whole collection. */
  function AllTracked(ps: seq<ModelPortfolio>, prices: map<string, real>, today: int): (r: seq<ModelPortfolio>)
    requires forall i :: 0 <= i < |ps| ==> Trackable(ps[i])
    ensures |r| == |ps| && forall i :: 0 <= i < |ps| ==> r[i] == Tracked(ps[i], prices, today)
  {
    seq(|ps|, i requires 0 <= i < |ps| => Tracked(ps[i], prices, today))
  }

  /**
   * The performance job keeps the unique names and leaves every portfolio
   * valuable; the active ones stay the active ones and no peak falls.
   */
  lemma PerformanceUpdateOutcome(ps: seq<ModelPortfolio>, prices: map<string, real>, today: int)
    requires StoreInvariant(ps)
    ensures var r := AllTracked(ps, prices, today);
      && StoreInvariant(r)
      && (forall i :: 0 <= i < |ps| ==> r[i].isActive == ps[i].isActive && r[i].name == ps[i].name)
      && (forall i :: 0 <= i < |ps| ==>
            r[i].peakReturnPercent.value >= OrZero(ps[i].peakReturnPercent)
            && r[i].maxDrawdownPercent.value <= OrZero(ps[i].maxDrawdownPercent)
            && r[i].maxDrawdownPercent.value <= 0.0)
  {
    var r := AllTracked(ps, prices, today);
    assert forall i :: 0 <= i < |ps| ==> r[i].name == ps[i].name;
  }

  class PortfolioStore {
    var portfolios: seq<ModelPortfolio>

    ghost predicate Valid()
      reads this
    {
      StoreInvariant(portfolios)
    }

    constructor ()
      ensures Valid() && portfolios == []
    {
      portfolios := [];
    }

    /** `performanceUpdateLogic`: each portfolio in turn is revalued and saved. */
    method RunPerformanceUpdate(prices: map<string, real>, today: int)
      requires Valid()
      modifies this
      ensures Valid()
      ensures portfolios == AllTracked(old(portfolios), prices, today)
    {
      if |portfolios| == 0 {
        return;
      }
      var i := 0;
      while i < |portfolios|
        invariant 0 <= i <= |portfolios| == |old(portfolios)|
        invariant forall k :: 0 <= k < i ==> portfolios[k] == Tracked(old(portfolios)[k], prices, today)
        invariant forall k :: i <= k < |portfolios| ==> portfolios[k] == old(portfolios)[k]
      {
        var portfolio := portfolios[i];
        var previousValue := portfolio.currentValue;
        var weightPerStock := portfolio.initialValue / |portfolio.stocks| as real;
        var newCurrentValue := ComputeValue(portfolio.stocks, weightPerStock, prices);
        var f := ComputeFigures(portfolio.initialValue, previousValue, newCurrentValue,
                                portfolio.peakReturnPercent, portfolio.maxDrawdownPercent);
        var newHistoryEntry := HistoryEntry(today, f.currentReturn);
        var existingEntryIndex := FindDay(portfolio.performanceHistory, today);
        var history := portfolio.performanceHistory;
        if existingEntryIndex > -1 {
          history := history[existingEntryIndex := newHistoryEntry];
        } else {
          history := history + [newHistoryEntry];
        }
        portfolios := portfolios[i := portfolio.(previousValue := Some(previousValue),
                                                 currentValue := newCurrentValue,
                                                 dayReturnPercent := Some(f.dayReturn),
                                                 currentReturnPercent := Some(f.currentReturn),
                                                 peakReturnPercent := Some(f.peakReturn),
                                                 maxDrawdownPercent := Some(f.maxDrawdown),
                                                 lastPerformanceUpdate := Some(today),
                                                 performanceHistory := history)];
        i := i + 1;
      }
      PerformanceUpdateOutcome(old(portfolios), prices, today);
    }

    /**
     * `portfolioCreationLogic`: nothing happens without stock records;
     * otherwise every portfolio is deactivated and each strategy with at
     * least one pick has its portfolio for `period` upserted.
     */
    method RunMonthlyCreation(allStocks: seq<StockRecord>, recentCloses: map<string, seq<real>>,
                              period: string, date: int)
      requires Valid()
      modifies this
      ensures Valid()
      ensures portfolios == Created(old(portfolios), allStocks, recentCloses, period, date)
    {
      if |allStocks| == 0 {
        return;
      }
      CreatedStructure(portfolios, allStocks, recentCloses, period, date);
      portfolios := Deactivated(portfolios);
      var rsThreshold := RsThreshold(allStocks);
      var topMomentumStocks := Picks(allStocks, Momentum, rsThreshold);
      if |topMomentumStocks| > 0 {
        var stocksWithEntryPrice := Entries(topMomentumStocks, Momentum, recentCloses, allStocks);
        portfolios := Upsert(portfolios, NewPortfolio(Momentum, stocksWithEntryPrice, period, date));
      }
      var topAlphaStocks := Picks(allStocks, Alpha, rsThreshold);
      if |topAlphaStocks| > 0 {
        var stocksWithEntryPrice := Entries(topAlphaStocks, Alpha, recentCloses, allStocks);
        portfolios := Upsert(portfolios, NewPortfolio(Alpha, stocksWithEntryPrice, period, date));
      }
    }
  }
}
