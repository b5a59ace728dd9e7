/**
 * The Redux slice of stock-screener-frontend/src/redux/rebalanceSlice.js.
 * Its reducers change the state in place; the fetch and save thunks are
 * represented by the reducer cases that handle their outcomes, and
 * `Date.now()` by a parameter.
 */
module RebalanceSlice {
  import opened Common
  import opened RebalanceContext

  datatype LoadStatus = Idle | Loading | Succeeded | Failed

  /** `findIndex(stock => stock.id === id)`: the first match, or -1. */
  function FirstIndex(stocks: seq<Stock>, id: int): (k: int)
    ensures -1 <= k < |stocks|
    ensures k == -1 <==> forall i :: 0 <= i < |stocks| ==> stocks[i].id != id
    ensures k >= 0 ==> stocks[k].id == id && forall i :: 0 <= i < k ==> stocks[i].id != id
  {
    if stocks == [] then -1
    else if stocks[0].id == id then 0
    else
      var k := FirstIndex(stocks[1..], id);
      if k == -1 then -1 else k + 1
  }

  /** The slice's `updateStock`: only the first stock with the id is merged. */
  function UpdateFirst(stocks: seq<Stock>, id: int, u: StockUpdates): seq<Stock> {
    var k := FirstIndex(stocks, id);
    if k == -1 then stocks else stocks[k := Merge(stocks[k], u)]
  }

  /**
   * While ids are unique, updating the first match is updating every match,
   * so the slice and the context reducer agree on UPDATE_STOCK.
   */
  lemma FirstMatchIsEveryMatch(stocks: seq<Stock>, id: int, u: StockUpdates)
    requires UniqueIds(stocks)
    ensures UpdateFirst(stocks, id, u) == UpdateAll(stocks, id, u)
  {
    var k := FirstIndex(stocks, id);
    var r := UpdateFirst(stocks, id, u);
    var all := UpdateAll(stocks, id, u);
    assert |r| == |all|;
    forall i | 0 <= i < |stocks| ensures r[i] == all[i] {
      if k >= 0 && i != k {
        assert stocks[i].id != id;
      }
    }
  }

  /** With a repeated id the two reducers part: the slice leaves the second copy alone. */
  lemma DuplicateIdsDiverge()
    ensures var s := Stock(7, "A", 0.0, 0.0, 0.0, 0.0, None);
      var u := NoUpdates.(weight := Some(10.0));
      UpdateFirst([s, s], 7, u) != UpdateAll([s, s], 7, u)
  {
    var s := Stock(7, "A", 0.0, 0.0, 0.0, 0.0, None);
    var u := NoUpdates.(weight := Some(10.0));
    assert UpdateFirst([s, s], 7, u)[1].weight == 0.0;
    assert UpdateAll([s, s], 7, u)[1].weight == 10.0;
  }

  /** The row the slice's `addStock` pushes: the context's blank row plus no unused cash. */
  function NewRow(now: int): Stock {
    BlankStock(now).(unusedCash := Some(0.0))
  }

  class Slice {
    var totalAmount: real
    var stocks: seq<Stock>
    var status: LoadStatus
    var error: Option<string>

    constructor ()
      ensures totalAmount == 100000.0 && stocks == [] && status == Idle && error == None
    {
      totalAmount := 100000.0;
      stocks := [];
      status := Idle;
      error := None;
    }

    method SetTotalAmount(payload: real)
      modifies this
      ensures totalAmount == payload
      ensures stocks == old(stocks) && status == old(status) && error == old(error)
    {
      totalAmount := payload;
    }

    method AddStock(now: int)
      modifies this
      ensures stocks == old(stocks) + [NewRow(now)]
      ensures totalAmount == old(totalAmount) && status == old(status) && error == old(error)
    {
      stocks := stocks + [Stock(now, "", 0.0, 0.0, 0.0, 0.0, Some(0.0))];
    }

    method RemoveStock(id: int)
      modifies this
      ensures stocks == Without(old(stocks), id)
      ensures totalAmount == old(totalAmount) && status == old(status) && error == old(error)
    {
      stocks := Without(stocks, id);
    }

    /** The `findIndex` scan. */
    method FindIndex(id: int) returns (index: int)
      ensures index == FirstIndex(stocks, id)
    {
      index := 0;
      while index < |stocks|
        invariant 0 <= index <= |stocks|
        invariant forall i :: 0 <= i < index ==> stocks[i].id != id
      {
        if stocks[index].id == id {
          return;
        }
        index := index + 1;
      }
      index := -1;
    }

    method UpdateStock(id: int, updates: StockUpdates)
      modifies this
      ensures stocks == UpdateFirst(old(stocks), id, updates)
      ensures totalAmount == old(totalAmount) && status == old(status) && error == old(error)
    {
      var index := FindIndex(id);
      if index != -1 {
        stocks := stocks[index := Merge(stocks[index], updates)];
      }
    }

    method AutoBalanceWeights()
      modifies this
      ensures stocks == Balanced(old(stocks))
      ensures totalAmount == old(totalAmount) && status == old(status) && error == old(error)
    {
      if |stocks| > 0 {
        var equalWeight := 100.0 / |stocks| as real;
        var i := 0;
        while i < |stocks|
          invariant 0 <= i <= |stocks| == |old(stocks)|
          invariant forall k :: 0 <= k < i ==> stocks[k] == old(stocks)[k].(weight := equalWeight)
          invariant forall k :: i <= k < |stocks| ==> stocks[k] == old(stocks)[k]
          invariant totalAmount == old(totalAmount) && status == old(status) && error == old(error)
        {
          stocks := stocks[i := stocks[i].(weight := equalWeight)];
          i := i + 1;
        }
      }
    }

    /** `fetchRebalanceState.pending`. */
    method FetchPending()
      modifies this
      ensures status == Loading
      ensures totalAmount == old(totalAmount) && stocks == old(stocks) && error == old(error)
    {
      status := Loading;
    }

    /** `fetchRebalanceState.fulfilled`: the stored plan replaces the current one; an earlier error stays. */
    method FetchFulfilled(payload: State)
      modifies this
      ensures status == Succeeded && totalAmount == payload.totalAmount && stocks == payload.stocks
      ensures error == old(error)
    {
      status := Succeeded;
      totalAmount := payload.totalAmount;
      stocks := payload.stocks;
    }

    /** `fetchRebalanceState.rejected`: the plan is kept and the message recorded. */
    method FetchRejected(payload: string)
      modifies this
      ensures status == Failed && error == Some(payload)
      ensures totalAmount == old(totalAmount) && stocks == old(stocks)
    {
      status := Failed;
      error := Some(payload);
    }
  }
}
