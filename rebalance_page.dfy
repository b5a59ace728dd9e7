/**
 * The arithmetic of the rebalance page,
 * stock-screener-frontend/src/pages/Rebalance/RebalancePage.jsx: the effect
 * that writes each stock's amount and share count back through the
 * context reducer, the weight total with its valid band, and the matching
 * of fetched quotes to planned stocks. Each pass reads the stocks of one
 * render (the snapshot) and dispatches actions that the reducer applies in
 * order to the latest state.
 */
module RebalancePage {
  import opened Common
  import opened RebalanceContext

  /** `totalAmount * (stock.weight / 100)`. */
  function AmountToInvest(totalAmount: real, weight: real): real {
    totalAmount * (weight / 100.0)
  }

  /** `stock.price > 0 ? amountToInvest / stock.price : 0`. */
  function SharesToBuy(amount: real, price: real): (shares: real)
    ensures price > 0.0 ==> shares * price == amount
    ensures price <= 0.0 ==> shares == 0.0
  {
    if price > 0.0 then amount / price else 0.0
  }

  /** The stock once the effect has written its allocation. */
  function Allocate(totalAmount: real, s: Stock): Stock {
    var amount := AmountToInvest(totalAmount, s.weight);
    s.(amount := amount, shares := SharesToBuy(amount, s.price))
  }

  /** A stock whose stored amount or share count differs from its allocation. */
  predicate NeedsUpdate(totalAmount: real, s: Stock) {
    var amount := AmountToInvest(totalAmount, s.weight);
    s.amount != amount || s.shares != SharesToBuy(amount, s.price)
  }

  /** The UPDATE_STOCK the effect dispatches for one stock. */
  function AllocationAction(totalAmount: real, s: Stock): Action {
    var amount := AmountToInvest(totalAmount, s.weight);
    UpdateStock(s.id, NoUpdates.(amount := Some(amount), shares := Some(SharesToBuy(amount, s.price))))
  }

  /** The actions one pass of the effect dispatches, in order. */
  function AllocationDispatches(totalAmount: real, snapshot: seq<Stock>): seq<Action>
  {
    if snapshot == [] then []
    else
      var last := snapshot[|snapshot| - 1];
      AllocationDispatches(totalAmount, snapshot[..|snapshot| - 1])
        + (if NeedsUpdate(totalAmount, last) then [AllocationAction(totalAmount, last)] else [])
  }

  /** The reducer applied to a queue of dispatched actions; a throw stops the queue. */
  function Run(state: State, actions: seq<Action>): Reduced
  {
    if actions == [] then Next(state)
    else
      match Run(state, actions[..|actions| - 1])
      case Unhandled(t) => Unhandled(t)
      case Next(s) => Reduce(s, actions[|actions| - 1])
  }

  lemma RunSnoc(state: State, actions: seq<Action>, a: Action)
    ensures Run(state, actions + [a]) ==
      match Run(state, actions)
      case Unhandled(t) => Unhandled(t)
      case Next(s) => Reduce(s, a)
  {
    assert (actions + [a])[..|actions|] == actions;
  }

  /** A pass dispatches nothing exactly when no stock needs an update. */
  lemma {:induction false} NoDispatchIffAllAllocated(totalAmount: real, snapshot: seq<Stock>)
    ensures AllocationDispatches(totalAmount, snapshot) == [] <==>
      forall i :: 0 <= i < |snapshot| ==> !NeedsUpdate(totalAmount, snapshot[i])
  {
    if snapshot != [] {
      var init := snapshot[..|snapshot| - 1];
      NoDispatchIffAllAllocated(totalAmount, init);
      assert forall i :: 0 <= i < |init| ==> init[i] == snapshot[i];
    }
  }

  /** An allocated stock needs no further update. */
  lemma AllocatedIsStable(totalAmount: real, s: Stock)
    ensures !NeedsUpdate(totalAmount, Allocate(totalAmount, s))
    ensures !NeedsUpdate(totalAmount, s) ==> Allocate(totalAmount, s) == s
  {
  }

  /** Every stock of the snapshot allocated. */
  function AllAllocated(totalAmount: real, stocks: seq<Stock>): (r: seq<Stock>)
    ensures |r| == |stocks|
    ensures forall i :: 0 <= i < |stocks| ==> r[i] == Allocate(totalAmount, stocks[i])
  {
    seq(|stocks|, i requires 0 <= i < |stocks| => Allocate(totalAmount, stocks[i]))
  }

  /**
   * The effect reaches a fixpoint: after one pass a second pass over its
   * result dispatches nothing.
   */
  lemma SecondPassDispatchesNothing(totalAmount: real, stocks: seq<Stock>)
    ensures AllocationDispatches(totalAmount, AllAllocated(totalAmount, stocks)) == []
  {
    var r := AllAllocated(totalAmount, stocks);
    forall i | 0 <= i < |r| ensures !NeedsUpdate(totalAmount, r[i]) {
      AllocatedIsStable(totalAmount, stocks[i]);
    }
    NoDispatchIffAllAllocated(totalAmount, r);
  }

  /** Allocation writes only the amount and the share count. */
  lemma AllocationChangesOnlyAmountAndShares(totalAmount: real, s: Stock)
    ensures var a := Allocate(totalAmount, s);
      && a.id == s.id && a.ticker == s.ticker && a.weight == s.weight && a.price == s.price
      && a.unusedCash == s.unusedCash
      && a.amount * 100.0 == totalAmount * s.weight
      && (s.price > 0.0 ==> a.shares * s.price == a.amount)
      && (s.price <= 0.0 ==> a.shares == 0.0)
  {
  }

  /** Two stock lists with the same ids in the same places. */
  predicate SameIds(a: seq<Stock>, b: seq<Stock>) {
    |a| == |b| && forall i :: 0 <= i < |a| ==> a[i].id == b[i].id
  }

  /** Ids that sit where unique ids sit are unique too. */
  lemma SameIdsUnique(cur: seq<Stock>, stocks: seq<Stock>)
    requires UniqueIds(stocks) && SameIds(cur, stocks)
    ensures UniqueIds(cur)
  {
    forall a, b | 0 <= a < b < |cur| ensures cur[a].id != cur[b].id {
      assert cur[a].id == stocks[a].id && cur[b].id == stocks[b].id;
    }
  }

  /** With unique ids, the reducer applies a stock's allocation to that stock alone. */
  lemma AllocateOne(totalAmount: real, stocks: seq<Stock>, cur: seq<Stock>, i: int)
    requires UniqueIds(stocks) && SameIds(cur, stocks) && 0 <= i < |stocks| && cur[i] == stocks[i]
    ensures Reduce(State(totalAmount, cur), AllocationAction(totalAmount, stocks[i]))
      == Next(State(totalAmount, cur[i := Allocate(totalAmount, stocks[i])]))
  {
    SameIdsUnique(cur, stocks);
    UpdateUniqueAt(cur, i, AllocationAction(totalAmount, stocks[i]).updates);
  }

  /** The stocks once the first `i` are allocated. */
  function AllocatedUpTo(totalAmount: real, stocks: seq<Stock>, i: int): (r: seq<Stock>)
    requires 0 <= i <= |stocks|
    ensures SameIds(r, stocks)
    ensures forall k :: 0 <= k < i ==> r[k] == Allocate(totalAmount, stocks[k])
    ensures forall k :: i <= k < |stocks| ==> r[k] == stocks[k]
  {
    AllAllocated(totalAmount, stocks[..i]) + stocks[i..]
  }

  /** Allocating one more stock. */
  lemma AllocatedUpToStep(totalAmount: real, stocks: seq<Stock>, i: int)
    requires 0 <= i < |stocks|
    ensures AllocatedUpTo(totalAmount, stocks, i)[i := Allocate(totalAmount, stocks[i])]
      == AllocatedUpTo(totalAmount, stocks, i + 1)
  {
  }

  /** One more stock of the snapshot dispatches its allocation when it needs one. */
  lemma AllocationDispatchesStep(totalAmount: real, stocks: seq<Stock>, i: int)
    requires 0 <= i < |stocks|
    ensures AllocationDispatches(totalAmount, stocks[..i + 1]) == AllocationDispatches(totalAmount, stocks[..i])
      + (if NeedsUpdate(totalAmount, stocks[i]) then [AllocationAction(totalAmount, stocks[i])] else [])
  {
    assert stocks[..i + 1][..i] == stocks[..i];
  }

  /** With unique ids, the dispatches of one more stock allocate that stock. */
  lemma RunAllocationStep(state: State, i: int)
    requires UniqueIds(state.stocks) && 0 <= i < |state.stocks|
    requires var t, s := state.totalAmount, state.stocks;
      Run(state, AllocationDispatches(t, s[..i])) == Next(State(t, AllocatedUpTo(t, s, i)))
    ensures var t, s := state.totalAmount, state.stocks;
      Run(state, AllocationDispatches(t, s[..i + 1])) == Next(State(t, AllocatedUpTo(t, s, i + 1)))
  {
    var t, s := state.totalAmount, state.stocks;
    var stock := s[i];
    var cur := AllocatedUpTo(t, s, i);
    var before := AllocationDispatches(t, s[..i]);
    AllocationDispatchesStep(t, s, i);
    AllocatedUpToStep(t, s, i);
    if NeedsUpdate(t, stock) {
      var action := AllocationAction(t, stock);
      assert AllocationDispatches(t, s[..i + 1]) == before + [action];
      RunSnoc(state, before, action);
      AllocateOne(t, s, cur, i);
    } else {
      AllocatedIsStable(t, stock);
      assert AllocationDispatches(t, s[..i + 1]) == before + [];
      assert before + [] == before;
      assert cur[i := Allocate(t, stock)] == cur;
    }
  }

  /**
   * While ids are unique, the reducer applies the first `i` stocks' dispatched
   * allocations without throwing: those stocks end allocated, the rest as they were.
   */
  lemma {:induction false} RunAllocationPrefix(state: State, i: int)
    requires UniqueIds(state.stocks) && 0 <= i <= |state.stocks|
    ensures var t, s := state.totalAmount, state.stocks;
      Run(state, AllocationDispatches(t, s[..i])) == Next(State(t, AllocatedUpTo(t, s, i)))
  {
    var t, s := state.totalAmount, state.stocks;
    if i == 0 {
      assert s[..0] == [];
      assert AllocatedUpTo(t, s, 0) == s;
    } else {
      RunAllocationPrefix(state, i - 1);
      RunAllocationStep(state, i - 1);
    }
  }

  /**
   * One run of the allocation effect over the state of a render: the
   * dispatched actions are those of `AllocationDispatches`, which the reducer
   * then applies. While ids are unique, every stock ends allocated.
   */
  method AllocationEffect(state: State) returns (dispatched: seq<Action>, next: State)
    ensures dispatched == AllocationDispatches(state.totalAmount, state.stocks)
    ensures Run(state, dispatched) == Next(next)
    ensures next.totalAmount == state.totalAmount
    ensures UniqueIds(state.stocks) ==> next.stocks == AllAllocated(state.totalAmount, state.stocks)
  {
    var stocks := state.stocks;
    var totalAmount := state.totalAmount;
    dispatched := [];
    var i := 0;
    while i < |stocks|
      invariant 0 <= i <= |stocks|
      invariant dispatched == AllocationDispatches(totalAmount, stocks[..i])
      invariant forall k :: 0 <= k < |dispatched| ==> dispatched[k].UpdateStock?
    {
      var stock := stocks[i];
      assert stocks[..i + 1][..i] == stocks[..i];
      if NeedsUpdate(totalAmount, stock) {
        dispatched := dispatched + [AllocationAction(totalAmount, stock)];
      }
      i := i + 1;
    }
    assert stocks[..i] == stocks;
    UpdatesNeverThrow(state, dispatched);
    next := Run(state, dispatched).state;
    if UniqueIds(stocks) {
      RunAllocationPrefix(state, |stocks|);
      assert AllocatedUpTo(totalAmount, stocks, |stocks|) == AllAllocated(totalAmount, stocks);
    }
  }

  /** `totalWeight`: the weights added up from 0. */
  function TotalWeight(stocks: seq<Stock>): (w: real)
    ensures stocks == [] ==> w == 0.0
    ensures (forall i :: 0 <= i < |stocks| ==> stocks[i].weight >= 0.0) ==> w >= 0.0
  {
    SumNonNegative(Weights(stocks));
    Sum(Weights(stocks))
  }

  /** The footer shows the total in green unless it is above 100.1 or below 99.9. */
  predicate WeightShownValid(totalWeight: real): (v: bool)
    ensures v <==> 99.9 <= totalWeight <= 100.1
  {
    !(totalWeight > 100.1 || totalWeight < 99.9)
  }

  /** After AUTO_BALANCE_WEIGHTS on a non-empty plan the footer shows the total as valid. */
  lemma BalancedWeightIsValid(stocks: seq<Stock>)
    requires |stocks| > 0
    ensures TotalWeight(Balanced(stocks)) == 100.0
    ensures WeightShownValid(TotalWeight(Balanced(stocks)))
  {
    BalancedWeights(stocks);
  }

  /** An added row weighs 0, so ADD_STOCK leaves the total weight as it was. */
  lemma AddedRowKeepsTotalWeight(state: State, now: int)
    ensures TotalWeight(Reduce(state, AddStock(now)).state.stocks) == TotalWeight(state.stocks)
  {
    var r := Reduce(state, AddStock(now)).state.stocks;
    assert Weights(r) == Weights(state.stocks) + [0.0];
    SumAppend(Weights(state.stocks), [0.0]);
    assert Sum([0.0]) == Sum([]) + 0.0;
  }

  /** Allocation keeps every weight, so it keeps the total weight. */
  lemma AllocationKeepsTotalWeight(totalAmount: real, stocks: seq<Stock>)
    ensures TotalWeight(AllAllocated(totalAmount, stocks)) == TotalWeight(stocks)
  {
    assert Weights(AllAllocated(totalAmount, stocks)) == Weights(stocks);
  }

  /** One fetched quote: its symbol and `regularMarketPrice`. */
  datatype Quote = Quote(symbol: string, regularMarketPrice: real)

  /** `s.ticker.toUpperCase() === quote.symbol.toUpperCase()`. */
  predicate TickerMatches(s: Stock, symbol: string) {
    ToUpper(s.ticker) == ToUpper(symbol)
  }

  /** `stocks.find(...)` by case-insensitive ticker, as an index or -1. */
  function FindByTicker(stocks: seq<Stock>, symbol: string): (k: int)
    ensures -1 <= k < |stocks|
    ensures k == -1 <==> forall i :: 0 <= i < |stocks| ==> !TickerMatches(stocks[i], symbol)
    ensures k >= 0 ==> (TickerMatches(stocks[k], symbol)
      && forall i :: 0 <= i < k ==> !TickerMatches(stocks[i], symbol))
  {
    if stocks == [] then -1
    else if TickerMatches(stocks[0], symbol) then 0
    else
      var k := FindByTicker(stocks[1..], symbol);
      if k == -1 then -1 else k + 1
  }

  /** The price-only update a matched quote dispatches. */
  function PriceUpdate(price: real): StockUpdates {
    NoUpdates.(price := Some(price))
  }

  /** The snapshot with each quote's price written to its matching stock, in quote order. */
  function Quoted(snapshot: seq<Stock>, quotes: seq<Quote>): (r: seq<Stock>)
    ensures SameIds(r, snapshot)
  {
    if quotes == [] then snapshot
    else
      var prev := Quoted(snapshot, quotes[..|quotes| - 1]);
      var q := quotes[|quotes| - 1];
      var k := FindByTicker(snapshot, q.symbol);
      if k == -1 then prev else prev[k := prev[k].(price := q.regularMarketPrice)]
  }

  /** No quote of the list is matched to the stock at index `i`. */
  predicate NoQuoteFor(snapshot: seq<Stock>, quotes: seq<Quote>, i: int) {
    forall j :: 0 <= j < |quotes| ==> FindByTicker(snapshot, quotes[j].symbol) != i
  }

  /** Matching quotes changes prices only; a stock no quote names keeps its price. */
  lemma {:induction false} QuotesChangeOnlyPrices(snapshot: seq<Stock>, quotes: seq<Quote>)
    ensures var r := Quoted(snapshot, quotes);
      && (forall i :: 0 <= i < |snapshot| ==> r[i] == snapshot[i].(price := r[i].price))
      && (forall i :: 0 <= i < |snapshot| && NoQuoteFor(snapshot, quotes, i) ==> r[i] == snapshot[i])
  {
    if quotes != [] {
      var init := quotes[..|quotes| - 1];
      var last := quotes[|quotes| - 1];
      QuotesChangeOnlyPrices(snapshot, init);
      var r := Quoted(snapshot, quotes);
      var prev := Quoted(snapshot, init);
      var k := FindByTicker(snapshot, last.symbol);
      assert r == if k == -1 then prev else prev[k := prev[k].(price := last.regularMarketPrice)];
      forall i | 0 <= i < |snapshot| && NoQuoteFor(snapshot, quotes, i) ensures r[i] == snapshot[i] {
        assert k != i;
        forall j | 0 <= j < |init| ensures FindByTicker(snapshot, init[j].symbol) != i {
          assert init[j] == quotes[j];
        }
        assert NoQuoteFor(snapshot, init, i);
      }
    }
  }

  /** The last quote for a stock decides its price. */
  lemma LastQuoteWins(snapshot: seq<Stock>, quotes: seq<Quote>, q: Quote)
    requires FindByTicker(snapshot, q.symbol) >= 0
    ensures Quoted(snapshot, quotes + [q])[FindByTicker(snapshot, q.symbol)].price == q.regularMarketPrice
  {
    assert (quotes + [q])[..|quotes|] == quotes;
  }

  /** A dispatched action that writes a price and nothing else. */
  predicate IsPriceUpdate(a: Action) {
    a.UpdateStock? && a.updates.price.Some? && a.updates == PriceUpdate(a.updates.price.value)
  }

  /** Merging a price-only update writes the price alone. */
  lemma MergePrice(s: Stock, price: real)
    ensures Merge(s, PriceUpdate(price)) == s.(price := price)
  {
  }

  /** The UPDATE_STOCK actions `onSuccess` dispatches, one per quote that matches a stock. */
  function QuoteActions(snapshot: seq<Stock>, quotes: seq<Quote>): (acts: seq<Action>)
    ensures |acts| <= |quotes|
    ensures forall i :: 0 <= i < |acts| ==> IsPriceUpdate(acts[i])
  {
    if quotes == [] then []
    else
      var q := quotes[|quotes| - 1];
      var k := FindByTicker(snapshot, q.symbol);
      QuoteActions(snapshot, quotes[..|quotes| - 1])
        + (if k == -1 then [] else [UpdateStock(snapshot[k].id, PriceUpdate(q.regularMarketPrice))])
  }

  /** With unique ids, the price update for the last quote takes `Quoted` one quote further. */
  lemma QuoteStep(stocks: seq<Stock>, quotes: seq<Quote>)
    requires UniqueIds(stocks) && |quotes| > 0
    ensures var q := quotes[|quotes| - 1];
      var k := FindByTicker(stocks, q.symbol);
      var prev := Quoted(stocks, quotes[..|quotes| - 1]);
      k != -1 ==> UpdateAll(prev, stocks[k].id, PriceUpdate(q.regularMarketPrice)) == Quoted(stocks, quotes)
  {
    var q := quotes[|quotes| - 1];
    var k := FindByTicker(stocks, q.symbol);
    if k != -1 {
      var prev := Quoted(stocks, quotes[..|quotes| - 1]);
      SameIdsUnique(prev, stocks);
      assert prev[k].id == stocks[k].id;
      UpdateUniqueAt(prev, k, PriceUpdate(q.regularMarketPrice));
      MergePrice(prev[k], q.regularMarketPrice);
    }
  }

  /** With unique ids, the dispatches of one more quote take the planned stocks one quote further. */
  lemma RunQuoteStep(state: State, quotes: seq<Quote>)
    requires UniqueIds(state.stocks) && |quotes| > 0
    requires var init := quotes[..|quotes| - 1];
      Run(state, QuoteActions(state.stocks, init)) == Next(state.(stocks := Quoted(state.stocks, init)))
    ensures Run(state, QuoteActions(state.stocks, quotes)) == Next(state.(stocks := Quoted(state.stocks, quotes)))
  {
    var init := quotes[..|quotes| - 1];
    var q := quotes[|quotes| - 1];
    var k := FindByTicker(state.stocks, q.symbol);
    var before := QuoteActions(state.stocks, init);
    if k == -1 {
      assert QuoteActions(state.stocks, quotes) == before + [];
      assert before + [] == before;
    } else {
      var prev := state.(stocks := Quoted(state.stocks, init));
      var action := UpdateStock(state.stocks[k].id, PriceUpdate(q.regularMarketPrice));
      assert QuoteActions(state.stocks, quotes) == before + [action];
      RunSnoc(state, before, action);
      QuoteStep(state.stocks, quotes);
      ReduceUpdateStock(prev, action.updateId, action.updates);
    }
  }

  /**
   * While ids are unique, the reducer applies the dispatched price updates
   * without throwing and reaches the quoted stocks.
   */
  lemma {:induction false} RunQuoteActions(state: State, quotes: seq<Quote>)
    requires UniqueIds(state.stocks)
    ensures Run(state, QuoteActions(state.stocks, quotes)) == Next(state.(stocks := Quoted(state.stocks, quotes)))
  {
    if quotes != [] {
      RunQuoteActions(state, quotes[..|quotes| - 1]);
      RunQuoteStep(state, quotes);
    }
  }

  /** The reducer never throws on UPDATE_STOCK actions, and they leave the total amount alone. */
  lemma {:induction false} UpdatesNeverThrow(state: State, actions: seq<Action>)
    requires forall i :: 0 <= i < |actions| ==> actions[i].UpdateStock?
    ensures Run(state, actions).Next? && Run(state, actions).state.totalAmount == state.totalAmount
  {
    if actions != [] {
      UpdatesNeverThrow(state, actions[..|actions| - 1]);
    }
  }

  /**
   * `onSuccess` of the price fetch: for each quote whose symbol matches a
   * stock of the snapshot, an UPDATE_STOCK of that stock's price, which the
   * reducer then applies. While ids are unique, the new stocks are `Quoted`.
   */
  method MatchQuotes(state: State, quotes: seq<Quote>) returns (dispatched: seq<Action>, next: State)
    ensures dispatched == QuoteActions(state.stocks, quotes)
    ensures Run(state, dispatched) == Next(next)
    ensures |dispatched| <= |quotes|
    ensures forall i :: 0 <= i < |dispatched| ==> IsPriceUpdate(dispatched[i])
    ensures next.totalAmount == state.totalAmount
    ensures UniqueIds(state.stocks) ==> next.stocks == Quoted(state.stocks, quotes)
  {
    var stocks := state.stocks;
    dispatched := [];
    var j := 0;
    while j < |quotes|
      invariant 0 <= j <= |quotes|
      invariant dispatched == QuoteActions(stocks, quotes[..j])
    {
      var quote := quotes[j];
      var k := FindByTicker(stocks, quote.symbol);
      assert quotes[..j + 1][..j] == quotes[..j];
      if k != -1 {
        dispatched := dispatched + [UpdateStock(stocks[k].id, PriceUpdate(quote.regularMarketPrice))];
      }
      j := j + 1;
    }
    assert quotes[..j] == quotes;
    UpdatesNeverThrow(state, dispatched);
    next := Run(state, dispatched).state;
    if UniqueIds(stocks) {
      RunQuoteActions(state, quotes);
    }
  }

  /** `stocks.map(s => s.ticker).filter(Boolean)`: every non-empty ticker, in order. */
  function RequestTickers(stocks: seq<Stock>): (t: seq<string>)
    ensures forall x :: x in t ==> x != ""
    ensures forall i :: 0 <= i < |stocks| && stocks[i].ticker != "" ==> stocks[i].ticker in t
    ensures forall x :: x in t ==> exists i :: 0 <= i < |stocks| && stocks[i].ticker == x
  {
    if stocks == [] then []
    else (if stocks[0].ticker != "" then [stocks[0].ticker] else []) + RequestTickers(stocks[1..])
  }

  /** `handleFetchPrices`: the tickers sent, or nothing when every ticker is empty. */
  function FetchRequest(stocks: seq<Stock>): (r: Option<seq<string>>)
    ensures r.Some? ==> r.value == RequestTickers(stocks) && |r.value| > 0
    ensures r.None? <==> forall i :: 0 <= i < |stocks| ==> stocks[i].ticker == ""
  {
    var tickers := RequestTickers(stocks);
    if |tickers| > 0 then
      assert tickers[0] in tickers;
      Some(tickers)
    else None
  }
}
