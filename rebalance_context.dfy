/**
 * The rebalance planner's reducer, `rebalanceReducer` of
 * stock-screener-frontend/src/context/RebalanceContext.jsx: a total amount
 * to invest and a list of planned stocks, each action returning a new state.
 * `Date.now()` for the id of an added stock is the `now` of its action.
 */
module RebalanceContext {
  import opened Common

  /** One planned stock; `unusedCash` is set only by the Redux slice's `addStock`. */
  datatype Stock = Stock(
    id: int,
    ticker: string,
    weight: real,
    price: real,
    shares: real,
    amount: real,
    unusedCash: Option<real>)

  /** The fields of an `updates` object; a field that is present overrides the stock's. */
  datatype StockUpdates = StockUpdates(
    id: Option<int>,
    ticker: Option<string>,
    weight: Option<real>,
    price: Option<real>,
    shares: Option<real>,
    amount: Option<real>,
    unusedCash: Option<real>)

  const NoUpdates := StockUpdates(None, None, None, None, None, None, None)

  function Pick<T>(update: Option<T>, current: T): (r: T)
    ensures update.None? ==> r == current
    ensures update.Some? ==> r == update.value
  {
    if update.Some? then update.value else current
  }

  /** `{ ...stock, ...updates }`. */
  function Merge(stock: Stock, u: StockUpdates): (s: Stock)
    ensures u == NoUpdates ==> s == stock
    ensures u.id.None? ==> s.id == stock.id
    ensures u.id.Some? ==> s.id == u.id.value
    ensures u.ticker.None? ==> s.ticker == stock.ticker
    ensures u.ticker.Some? ==> s.ticker == u.ticker.value
    ensures u.weight.None? ==> s.weight == stock.weight
    ensures u.weight.Some? ==> s.weight == u.weight.value
    ensures u.price.None? ==> s.price == stock.price
    ensures u.price.Some? ==> s.price == u.price.value
    ensures u.shares.None? ==> s.shares == stock.shares
    ensures u.shares.Some? ==> s.shares == u.shares.value
    ensures u.amount.None? ==> s.amount == stock.amount
    ensures u.amount.Some? ==> s.amount == u.amount.value
    ensures u.unusedCash.None? ==> s.unusedCash == stock.unusedCash
    ensures u.unusedCash.Some? ==> s.unusedCash == u.unusedCash
  {
    Stock(Pick(u.id, stock.id), Pick(u.ticker, stock.ticker), Pick(u.weight, stock.weight),
          Pick(u.price, stock.price), Pick(u.shares, stock.shares), Pick(u.amount, stock.amount),
          if u.unusedCash.Some? then u.unusedCash else stock.unusedCash)
  }

  /** Merging is idempotent: applying the same updates twice is applying them once. */
  lemma MergeIdempotent(stock: Stock, u: StockUpdates)
    ensures Merge(Merge(stock, u), u) == Merge(stock, u)
  {
  }

  datatype State = State(totalAmount: real, stocks: seq<Stock>)

  datatype Action =
    | SetTotalAmount(payload: real)
    | AddStock(now: int)
    | RemoveStock(removeId: int)
    | UpdateStock(updateId: int, updates: StockUpdates)
    | AutoBalanceWeights
    | Other(actionType: string)

  /** A reducer either returns the next state or throws for an action it does not know. */
  datatype Reduced = Next(state: State) | Unhandled(actionType: string)

  const InitialState := State(100000.0, [Stock(1, "RELIANCE.NS", 50.0, 0.0, 0.0, 50000.0, None)])

  /** A freshly added row: no ticker and every number 0. */
  function BlankStock(id: int): Stock {
    Stock(id, "", 0.0, 0.0, 0.0, 0.0, None)
  }

  /** `stocks.filter(stock => stock.id !== id)`. */
  function Without(stocks: seq<Stock>, id: int): (r: seq<Stock>)
    ensures |r| <= |stocks|
    ensures forall x :: x in r <==> x in stocks && x.id != id
  {
    if stocks == [] then []
    else (if stocks[0].id != id then [stocks[0]] else []) + Without(stocks[1..], id)
  }

  /** The filter works piecewise, so the kept stocks stay in their order. */
  lemma {:induction false} WithoutAppend(a: seq<Stock>, b: seq<Stock>, id: int)
    ensures Without(a + b, id) == Without(a, id) + Without(b, id)
  {
    if a == [] {
      assert a + b == b;
    } else {
      assert (a + b)[0] == a[0];
      assert (a + b)[1..] == a[1..] + b;
      WithoutAppend(a[1..], b, id);
    }
  }

  /** Removing an id no stock carries changes nothing. */
  lemma {:induction false} WithoutAbsent(stocks: seq<Stock>, id: int)
    requires forall i :: 0 <= i < |stocks| ==> stocks[i].id != id
    ensures Without(stocks, id) == stocks
  {
    if stocks != [] {
      WithoutAbsent(stocks[1..], id);
      assert stocks == [stocks[0]] + stocks[1..];
    }
  }

  /** `stocks.map(stock => stock.id === id ? { ...stock, ...updates } : stock)`. */
  function UpdateAll(stocks: seq<Stock>, id: int, u: StockUpdates): (r: seq<Stock>)
    ensures |r| == |stocks|
    ensures forall i :: 0 <= i < |stocks| ==> r[i] == if stocks[i].id == id then Merge(stocks[i], u) else stocks[i]
  {
    seq(|stocks|, i requires 0 <= i < |stocks| => if stocks[i].id == id then Merge(stocks[i], u) else stocks[i])
  }

  /** No two planned stocks share an id, as `Date.now()` ids are meant to ensure. */
  predicate UniqueIds(stocks: seq<Stock>) {
    forall i, j :: 0 <= i < j < |stocks| ==> stocks[i].id != stocks[j].id
  }

  /** With unique ids, updating one stock's id touches that stock alone. */
  lemma UpdateUniqueAt(stocks: seq<Stock>, k: int, u: StockUpdates)
    requires UniqueIds(stocks) && 0 <= k < |stocks|
    ensures UpdateAll(stocks, stocks[k].id, u) == stocks[k := Merge(stocks[k], u)]
  {
    var r := UpdateAll(stocks, stocks[k].id, u);
    forall i | 0 <= i < |stocks| ensures r[i] == stocks[k := Merge(stocks[k], u)][i] {
      if i < k {
        assert stocks[i].id != stocks[k].id;
      } else if i > k {
        assert stocks[k].id != stocks[i].id;
      }
    }
  }

  /** Every stock's weight, in order. */
  function Weights(stocks: seq<Stock>): (w: seq<real>)
    ensures |w| == |stocks|
    ensures forall i :: 0 <= i < |stocks| ==> w[i] == stocks[i].weight
  {
    seq(|stocks|, i requires 0 <= i < |stocks| => stocks[i].weight)
  }

  /** Every stock weighted `100 / stocks.length`; an empty list stays empty. */
  function Balanced(stocks: seq<Stock>): (r: seq<Stock>)
    ensures |r| == |stocks|
  {
    if |stocks| == 0 then stocks
    else
      var equalWeight := 100.0 / |stocks| as real;
      seq(|stocks|, i requires 0 <= i < |stocks| => stocks[i].(weight := equalWeight))
  }

  /** Auto-balancing gives every stock the same weight, the weights add up to 100, and nothing else changes. */
  lemma BalancedWeights(stocks: seq<Stock>)
    requires |stocks| > 0
    ensures var r := Balanced(stocks);
      && (forall i :: 0 <= i < |r| ==> r[i] == stocks[i].(weight := 100.0 / |stocks| as real))
      && (forall i, j :: 0 <= i < |r| && 0 <= j < |r| ==> r[i].weight == r[j].weight)
      && Sum(Weights(r)) == 100.0
  {
    var r := Balanced(stocks);
    var n := |stocks| as real;
    SumConst(Weights(r), 100.0 / n);
    assert n * (100.0 / n) == 100.0;
  }

  /** Auto-balancing twice is auto-balancing once. */
  lemma BalancedIdempotent(stocks: seq<Stock>)
    ensures Balanced(Balanced(stocks)) == Balanced(stocks)
  {
  }

  /** `rebalanceReducer`. */
  function Reduce(state: State, action: Action): (r: Reduced)
    ensures r.Unhandled? <==> action.Other?
    ensures r.Next? && !action.SetTotalAmount? ==> r.state.totalAmount == state.totalAmount
    ensures action.SetTotalAmount? ==> r.Next? && r.state.stocks == state.stocks
  {
    match action
    case SetTotalAmount(payload) => Next(state.(totalAmount := payload))
    case AddStock(now) => Next(state.(stocks := state.stocks + [BlankStock(now)]))
    case RemoveStock(id) => Next(state.(stocks := Without(state.stocks, id)))
    case UpdateStock(id, updates) => Next(state.(stocks := UpdateAll(state.stocks, id, updates)))
    case AutoBalanceWeights => Next(state.(stocks := Balanced(state.stocks)))
    case Other(actionType) => Unhandled(actionType)
  }

  /** The UPDATE_STOCK case of the reducer on its own. */
  lemma ReduceUpdateStock(state: State, id: int, u: StockUpdates)
    ensures Reduce(state, UpdateStock(id, u)) == Next(state.(stocks := UpdateAll(state.stocks, id, u)))
  {
  }

  /** Only an action type the reducer does not list throws. */
  lemma OnlyUnknownActionsThrow(state: State, action: Action)
    ensures Reduce(state, action).Unhandled? <==> action.Other?
  {
  }

  /** SET_TOTAL_AMOUNT changes the amount and nothing else. */
  lemma SetTotalOnlyChangesAmount(state: State, payload: real)
    ensures Reduce(state, SetTotalAmount(payload)) == Next(State(payload, state.stocks))
  {
  }

  /** ADD_STOCK appends exactly one blank stock and leaves the others as they were. */
  lemma AddAppendsOneBlank(state: State, now: int)
    ensures var r := Reduce(state, AddStock(now)).state;
      && r.totalAmount == state.totalAmount
      && |r.stocks| == |state.stocks| + 1
      && r.stocks[..|state.stocks|] == state.stocks
      && (var s := r.stocks[|state.stocks|];
          s.id == now && s.ticker == "" && s.weight == 0.0 && s.price == 0.0 && s.shares == 0.0 && s.amount == 0.0)
  {
    var r := Reduce(state, AddStock(now)).state;
    assert r.stocks[..|state.stocks|] == state.stocks;
  }

  /** REMOVE_STOCK drops every stock with the id and keeps the rest. */
  lemma RemoveDropsEveryMatch(state: State, id: int)
    ensures var r := Reduce(state, RemoveStock(id)).state;
      && r.totalAmount == state.totalAmount
      && (forall i :: 0 <= i < |r.stocks| ==> r.stocks[i].id != id)
      && (forall x :: x in state.stocks && x.id != id ==> x in r.stocks)
      && ((forall i :: 0 <= i < |state.stocks| ==> state.stocks[i].id != id) ==> r.stocks == state.stocks)
  {
    var r := Reduce(state, RemoveStock(id)).state;
    assert forall i :: 0 <= i < |r.stocks| ==> r.stocks[i] in r.stocks;
    if forall i :: 0 <= i < |state.stocks| ==> state.stocks[i].id != id {
      WithoutAbsent(state.stocks, id);
    }
  }

  /** UPDATE_STOCK keeps the length, merges into every match and leaves the rest identical. */
  lemma UpdateMergesEveryMatch(state: State, id: int, u: StockUpdates)
    ensures var r := Reduce(state, UpdateStock(id, u)).state;
      && r.totalAmount == state.totalAmount
      && |r.stocks| == |state.stocks|
      && (forall i :: 0 <= i < |state.stocks| && state.stocks[i].id == id ==> r.stocks[i] == Merge(state.stocks[i], u))
      && (forall i :: 0 <= i < |state.stocks| && state.stocks[i].id != id ==> r.stocks[i] == state.stocks[i])
  {
  }

  /** After AUTO_BALANCE_WEIGHTS on a non-empty list the weights add up to 100. */
  lemma AutoBalanceSumsTo100(state: State)
    requires |state.stocks| > 0
    ensures var r := Reduce(state, AutoBalanceWeights).state;
      r.totalAmount == state.totalAmount && Sum(Weights(r.stocks)) == 100.0
  {
    BalancedWeights(state.stocks);
  }
}
