/**
 * The buy/exit ledger of backend/controllers/customPortfolioController.js.
 * A user's custom portfolio records how much is invested in its open
 * positions; buying a stock opens a trade and adds its cost, exiting a
 * trade closes it, records a matching sell and takes the cost back out.
 *
 * The collections are sequences whose positions are the record ids; the
 * user is the authenticated user's id and `now` the clock.
 */
module CustomPortfolios {
  import opened Common

  datatype Portfolio = Portfolio(id: nat, portfolioName: string, user: nat, totalInvested: real, currentValue: real)

  datatype TradeType = Buy | Sell
  datatype TradeStatus = Open | Closed

  datatype Trade = Trade(
    id: nat,
    user: nat,
    portfolio: nat,
    ticker: string,
    quantity: real,
    price: real,
    tradeDate: int,
    tradeType: TradeType,
    status: TradeStatus,
    closingTradeFor: Option<nat>,
    realizedPnL: Option<real>)

  /** The HTTP outcome: 400, 404, or 201/200 with the id of the record sent back. */
  datatype Reply = BadRequest | NotFound | Created(id: nat) | Done(id: nat)

  /** The three collections the controller reads and writes; `stockTickers` are the analysed tickers. */
  datatype LedgerState = LedgerState(portfolios: seq<Portfolio>, trades: seq<Trade>, stockTickers: set<string>)

  datatype Outcome = Outcome(state: LedgerState, reply: Reply)

  // ---------------------------------------------------------------------
  // What is invested in open positions
  // ---------------------------------------------------------------------

  /** What a position of `quantity` shares bought at `price` cost. */
  function Notional(quantity: real, price: real): real {
    quantity * price
  }

  /** The profit of selling at `exitPrice` what was bought at `price`. */
  function ProfitOf(exitPrice: real, price: real, quantity: real): real {
    (exitPrice - price) * quantity
  }

  /** What a trade contributes to its portfolio's open cost. */
  function Cost(t: Trade, pid: nat): real {
    if t.portfolio == pid && t.tradeType == Buy && t.status == Open then Notional(t.quantity, t.price) else 0.0
  }

  /** The cost of the open buy trades of one portfolio. */
  function OpenCost(trades: seq<Trade>, pid: nat): real {
    if trades == [] then 0.0 else OpenCost(trades[..|trades| - 1], pid) + Cost(trades[|trades| - 1], pid)
  }

  lemma OpenCostAppend(trades: seq<Trade>, t: Trade, pid: nat)
    ensures OpenCost(trades + [t], pid) == OpenCost(trades, pid) + Cost(t, pid)
  {
    assert (trades + [t])[..|trades|] == trades;
  }

  /** Replacing one trade changes the open cost by the difference of the two contributions. */
  lemma {:induction false} OpenCostUpdate(trades: seq<Trade>, k: nat, t: Trade, pid: nat)
    requires k < |trades|
    ensures OpenCost(trades[k := t], pid) == OpenCost(trades, pid) - Cost(trades[k], pid) + Cost(t, pid)
  {
    var n := |trades|;
    var updated := trades[k := t];
    if k == n - 1 {
      assert updated[..n - 1] == trades[..n - 1];
    } else {
      assert updated[..n - 1] == trades[..n - 1][k := t];
      OpenCostUpdate(trades[..n - 1], k, t, pid);
    }
  }

  /** A portfolio no trade belongs to has nothing invested. */
  lemma {:induction false} OpenCostOfNoTrades(trades: seq<Trade>, pid: nat)
    requires forall i :: 0 <= i < |trades| ==> trades[i].portfolio != pid
    ensures OpenCost(trades, pid) == 0.0
  {
    if trades != [] {
      OpenCostOfNoTrades(trades[..|trades| - 1], pid);
    }
  }

  /**
   * The ledger is consistent when ids are positions, every trade belongs to
   * an existing portfolio, every sell is closed, and each portfolio's
   * `totalInvested` is the cost of its open buy trades.
   */
  ghost predicate Consistent(st: LedgerState) {
    && (forall i :: 0 <= i < |st.portfolios| ==>
          st.portfolios[i].id == i && st.portfolios[i].totalInvested == OpenCost(st.trades, i))
    && (forall i :: 0 <= i < |st.trades| ==>
          && st.trades[i].id == i && st.trades[i].portfolio < |st.portfolios|
          && (st.trades[i].tradeType == Sell ==> st.trades[i].status == Closed))
  }

  // ---------------------------------------------------------------------
  // The three operations
  // ---------------------------------------------------------------------

  /** `createPortfolio`: a name is required; the new portfolio has nothing invested and no value. */
  function CreatePortfolio(st: LedgerState, portfolioName: string, user: nat): (o: Outcome)
    ensures o.reply == BadRequest <==> portfolioName == ""
    ensures o.reply == BadRequest ==> o.state == st
    ensures o.state.trades == st.trades && o.state.stockTickers == st.stockTickers
  {
    if portfolioName == "" then Outcome(st, BadRequest)
    else
      var id := |st.portfolios|;
      Outcome(st.(portfolios := st.portfolios + [Portfolio(id, portfolioName, user, 0.0, 0.0)]), Created(id))
  }

  predicate Owns(st: LedgerState, user: nat, portfolioId: nat) {
    portfolioId < |st.portfolios| && st.portfolios[portfolioId].user == user
  }

  /** The buy trade `addStockToPortfolio` creates. */
  function BuyTrade(id: nat, user: nat, portfolioId: nat, ticker: string, quantity: real, price: real, tradeDate: int): Trade {
    Trade(id, user, portfolioId, ToUpper(ticker), quantity, price, tradeDate, Buy, Open, None, None)
  }

  /** `addStockToPortfolio`: the portfolio must be the user's and the ticker one that is analysed. */
  function AddStock(st: LedgerState, user: nat, portfolioId: nat, ticker: string,
                    quantity: real, price: real, tradeDate: int): (o: Outcome)
    ensures o.reply == NotFound <==> !Owns(st, user, portfolioId) || ToUpper(ticker) !in st.stockTickers
    ensures o.reply == NotFound ==> o.state == st
    ensures o.state.stockTickers == st.stockTickers && |o.state.portfolios| == |st.portfolios|
  {
    if !Owns(st, user, portfolioId) then Outcome(st, NotFound)
    else if ToUpper(ticker) !in st.stockTickers then Outcome(st, NotFound)
    else
      var id := |st.trades|;
      var p := st.portfolios[portfolioId];
      Outcome(LedgerState(st.portfolios[portfolioId := p.(totalInvested := p.totalInvested + Notional(quantity, price))],
                          st.trades + [BuyTrade(id, user, portfolioId, ticker, quantity, price, tradeDate)],
                          st.stockTickers),
              Created(id))
  }

  /** An exit needs an open trade of the user's. */
  predicate CanExit(st: LedgerState, user: nat, tradeId: nat) {
    tradeId < |st.trades| && st.trades[tradeId].user == user && st.trades[tradeId].status == Open
  }

  /** The opening trade once exited at `exitPrice`. */
  function ClosedTrade(t: Trade, exitPrice: real): Trade {
    t.(status := Closed, realizedPnL := Some(ProfitOf(exitPrice, t.price, t.quantity)))
  }

  /** The sell trade that records an exit. */
  function SellTrade(id: nat, closed: Trade, exitPrice: real, now: int): Trade {
    Trade(id, closed.user, closed.portfolio, closed.ticker, closed.quantity, exitPrice, now, Sell, Closed,
          Some(closed.id), closed.realizedPnL)
  }

  /** `exitStockFromPortfolio`. */
  function ExitStock(st: LedgerState, user: nat, tradeId: nat, exitPrice: real, now: int): (o: Outcome)
    ensures o.reply == NotFound <==> !CanExit(st, user, tradeId)
    ensures o.reply == NotFound ==> o.state == st
    ensures o.reply != NotFound ==> |o.state.trades| == |st.trades| + 1
    ensures o.state.stockTickers == st.stockTickers && |o.state.portfolios| == |st.portfolios|
  {
    if !CanExit(st, user, tradeId) then Outcome(st, NotFound)
    else
      var closed := ClosedTrade(st.trades[tradeId], exitPrice);
      var trades := st.trades[tradeId := closed] + [SellTrade(|st.trades|, closed, exitPrice, now)];
      var portfolios :=
        if closed.portfolio < |st.portfolios| then
          var p := st.portfolios[closed.portfolio];
          st.portfolios[closed.portfolio := p.(totalInvested := p.totalInvested - Notional(closed.quantity, closed.price))]
        else st.portfolios;
      Outcome(LedgerState(portfolios, trades, st.stockTickers), Done(tradeId))
  }

  // ---------------------------------------------------------------------
  // Properties
  // ---------------------------------------------------------------------

  /** Without a name nothing is created; with one, one portfolio is appended with nothing invested. */
  lemma CreateOutcome(st: LedgerState, portfolioName: string, user: nat)
    ensures var o := CreatePortfolio(st, portfolioName, user);
      && (o.reply == BadRequest <==> portfolioName == "")
      && (portfolioName == "" ==> o.state == st)
      && (portfolioName != "" ==>
            o.reply == Created(|st.portfolios|)
            && o.state.trades == st.trades
            && |o.state.portfolios| == |st.portfolios| + 1
            && o.state.portfolios[..|st.portfolios|] == st.portfolios
            && var p := o.state.portfolios[|st.portfolios|];
               p.portfolioName == portfolioName && p.user == user && p.totalInvested == 0.0 && p.currentValue == 0.0)
  {
    var o := CreatePortfolio(st, portfolioName, user);
    if portfolioName != "" {
      assert o.state.portfolios[..|st.portfolios|] == st.portfolios;
    }
  }

  /**
   * A buy is refused with 404, and nothing changes, unless the portfolio is
   * the user's and the upper-cased ticker is known; otherwise exactly one
   * open buy trade is appended and that portfolio's investment grows by
   * quantity times price.
   */
  lemma AddStockOutcome(st: LedgerState, user: nat, portfolioId: nat, ticker: string,
                        quantity: real, price: real, tradeDate: int)
    ensures var o := AddStock(st, user, portfolioId, ticker, quantity, price, tradeDate);
      && (o.reply == NotFound <==> !Owns(st, user, portfolioId) || ToUpper(ticker) !in st.stockTickers)
      && (o.reply == NotFound ==> o.state == st)
      && (o.reply != NotFound ==>
            o.reply == Created(|st.trades|)
            && |o.state.trades| == |st.trades| + 1
            && o.state.trades[..|st.trades|] == st.trades
            && (var t := o.state.trades[|st.trades|];
                t.ticker == ToUpper(ticker) && t.tradeType == Buy && t.status == Open
                && t.portfolio == portfolioId && t.user == user && t.quantity == quantity && t.price == price)
            && |o.state.portfolios| == |st.portfolios|
            && o.state.portfolios[portfolioId].totalInvested == st.portfolios[portfolioId].totalInvested + Notional(quantity, price)
            && forall i :: 0 <= i < |st.portfolios| && i != portfolioId ==> o.state.portfolios[i] == st.portfolios[i])
  {
    var o := AddStock(st, user, portfolioId, ticker, quantity, price, tradeDate);
    if o.reply != NotFound {
      assert o.state.trades[..|st.trades|] == st.trades;
    }
  }

  /**
   * An exit is refused with 404, and nothing changes, unless the trade is an
   * open one of the user's; otherwise it is closed with the realised profit,
   * a closed sell of the same quantity is linked to it, and its cost leaves
   * its portfolio's investment.
   */
  lemma ExitOutcome(st: LedgerState, user: nat, tradeId: nat, exitPrice: real, now: int)
    ensures var o := ExitStock(st, user, tradeId, exitPrice, now);
      && (o.reply == NotFound <==> !CanExit(st, user, tradeId))
      && (o.reply == NotFound ==> o.state == st)
      && (o.reply != NotFound ==>
            var t := st.trades[tradeId];
            var pnl := ProfitOf(exitPrice, t.price, t.quantity);
            && |o.state.trades| == |st.trades| + 1
            && o.state.trades[tradeId] == t.(status := Closed, realizedPnL := Some(pnl))
            && (forall i :: 0 <= i < |st.trades| && i != tradeId ==> o.state.trades[i] == st.trades[i])
            && (var s := o.state.trades[|st.trades|];
                s.tradeType == Sell && s.status == Closed && s.closingTradeFor == Some(t.id)
                && s.quantity == t.quantity && s.price == exitPrice && s.realizedPnL == Some(pnl)
                && s.portfolio == t.portfolio && s.ticker == t.ticker)
            && (t.portfolio < |st.portfolios| ==>
                  o.state.portfolios[t.portfolio].totalInvested
                    == st.portfolios[t.portfolio].totalInvested - Notional(t.quantity, t.price)))
  {
  }

  /** The same trade cannot be exited twice: the second attempt finds no open trade. */
  lemma ExitTwiceFails(st: LedgerState, user: nat, tradeId: nat, exitPrice: real, now: int,
                       secondPrice: real, later: int)
    requires ExitStock(st, user, tradeId, exitPrice, now).reply != NotFound
    ensures var after := ExitStock(st, user, tradeId, exitPrice, now).state;
      ExitStock(after, user, tradeId, secondPrice, later) == Outcome(after, NotFound)
  {
  }

  /**
   * Buying and then exiting that trade leaves the portfolio's investment
   * as it was, and books the price difference times the quantity as profit.
   */
  lemma AddThenExitRestoresInvestment(st: LedgerState, user: nat, portfolioId: nat, ticker: string,
                                      quantity: real, price: real, tradeDate: int, exitPrice: real, now: int)
    requires Consistent(st)
    requires AddStock(st, user, portfolioId, ticker, quantity, price, tradeDate).reply != NotFound
    ensures var bought := AddStock(st, user, portfolioId, ticker, quantity, price, tradeDate);
      var tradeId := |st.trades|;
      var exited := ExitStock(bought.state, user, tradeId, exitPrice, now);
      && exited.reply == Done(tradeId)
      && exited.state.portfolios[portfolioId].totalInvested == st.portfolios[portfolioId].totalInvested
      && exited.state.trades[tradeId].realizedPnL == Some(ProfitOf(exitPrice, price, quantity))
  {
  }

  /** The empty ledger is consistent. */
  lemma EmptyConsistent(stockTickers: set<string>)
    ensures Consistent(LedgerState([], [], stockTickers))
  {
  }

  /** Creating a portfolio keeps the ledger consistent. */
  lemma CreateKeepsConsistent(st: LedgerState, portfolioName: string, user: nat)
    requires Consistent(st)
    ensures Consistent(CreatePortfolio(st, portfolioName, user).state)
  {
    if portfolioName != "" {
      var n := |st.portfolios|;
      OpenCostOfNoTrades(st.trades, n);
    }
  }

  /** A buy keeps every portfolio's investment equal to its open cost. */
  lemma AddKeepsConsistent(st: LedgerState, user: nat, portfolioId: nat, ticker: string,
                           quantity: real, price: real, tradeDate: int)
    requires Consistent(st)
    ensures Consistent(AddStock(st, user, portfolioId, ticker, quantity, price, tradeDate).state)
  {
    var o := AddStock(st, user, portfolioId, ticker, quantity, price, tradeDate);
    if o.reply != NotFound {
      var t := BuyTrade(|st.trades|, user, portfolioId, ticker, quantity, price, tradeDate);
      assert o.state.trades == st.trades + [t];
      forall i | 0 <= i < |o.state.portfolios|
        ensures o.state.portfolios[i].totalInvested == OpenCost(o.state.trades, i)
      {
        OpenCostAppend(st.trades, t, i);
      }
      forall i | 0 <= i < |o.state.trades|
        ensures o.state.trades[i].id == i && o.state.trades[i].portfolio < |o.state.portfolios|
        ensures o.state.trades[i].tradeType == Sell ==> o.state.trades[i].status == Closed
      {
        if i < |st.trades| {
          assert o.state.trades[i] == st.trades[i];
        }
      }
    }
  }

  /** An exit keeps every portfolio's investment equal to its open cost. */
  lemma ExitKeepsConsistent(st: LedgerState, user: nat, tradeId: nat, exitPrice: real, now: int)
    requires Consistent(st)
    ensures Consistent(ExitStock(st, user, tradeId, exitPrice, now).state)
  {
    var o := ExitStock(st, user, tradeId, exitPrice, now);
    if o.reply != NotFound {
      var t := st.trades[tradeId];
      var closed := ClosedTrade(t, exitPrice);
      var sell := SellTrade(|st.trades|, closed, exitPrice, now);
      var updated := st.trades[tradeId := closed];
      assert o.state.trades == updated + [sell];
      assert t.tradeType == Buy && t.portfolio < |st.portfolios|;
      forall i | 0 <= i < |o.state.portfolios|
        ensures o.state.portfolios[i].totalInvested == OpenCost(o.state.trades, i)
      {
        OpenCostUpdate(st.trades, tradeId, closed, i);
        OpenCostAppend(updated, sell, i);
        assert Cost(closed, i) == 0.0 && Cost(sell, i) == 0.0;
        if i == t.portfolio {
          assert Cost(t, i) == Notional(t.quantity, t.price);
        } else {
          assert Cost(t, i) == 0.0;
        }
      }
      forall i | 0 <= i < |o.state.trades|
        ensures o.state.trades[i].id == i && o.state.trades[i].portfolio < |o.state.portfolios|
        ensures o.state.trades[i].tradeType == Sell ==> o.state.trades[i].status == Closed
      {
        if i < |st.trades| && i != tradeId {
          assert o.state.trades[i] == st.trades[i];
        }
      }
    }
  }

  // ---------------------------------------------------------------------
  // The stored records
  // ---------------------------------------------------------------------

  class Ledger {
    var portfolios: seq<Portfolio>
    var trades: seq<Trade>
    var stockTickers: set<string>

    function State(): LedgerState
      reads this
    {
      LedgerState(portfolios, trades, stockTickers)
    }

    constructor (stockTickers: set<string>)
      ensures State() == LedgerState([], [], stockTickers) && Consistent(State())
    {
      portfolios := [];
      trades := [];
      this.stockTickers := stockTickers;
    }

    method CreatePortfolioRequest(portfolioName: string, user: nat) returns (reply: Reply)
      modifies this
      ensures Outcome(State(), reply) == CreatePortfolio(old(State()), portfolioName, user)
      ensures old(Consistent(State())) ==> Consistent(State())
    {
      ghost var before := State();
      if Consistent(before) { CreateKeepsConsistent(before, portfolioName, user); }
      if portfolioName == "" {
        return BadRequest;
      }
      var id := |portfolios|;
      portfolios := portfolios + [Portfolio(id, portfolioName, user, 0.0, 0.0)];
      reply := Created(id);
    }

    method AddStockRequest(user: nat, portfolioId: nat, ticker: string, quantity: real, price: real, tradeDate: int)
      returns (reply: Reply)
      modifies this
      ensures Outcome(State(), reply) == AddStock(old(State()), user, portfolioId, ticker, quantity, price, tradeDate)
      ensures old(Consistent(State())) ==> Consistent(State())
    {
      ghost var before := State();
      if Consistent(before) { AddKeepsConsistent(before, user, portfolioId, ticker, quantity, price, tradeDate); }
      if !(portfolioId < |portfolios| && portfolios[portfolioId].user == user) {
        return NotFound;
      }
      var portfolio := portfolios[portfolioId];
      if ToUpper(ticker) !in stockTickers {
        return NotFound;
      }
      var id := |trades|;
      trades := trades + [Trade(id, user, portfolioId, ToUpper(ticker), quantity, price, tradeDate, Buy, Open, None, None)];
      portfolio := portfolio.(totalInvested := portfolio.totalInvested + Notional(quantity, price));
      portfolios := portfolios[portfolioId := portfolio];
      reply := Created(id);
    }

    method ExitStockRequest(user: nat, tradeId: nat, exitPrice: real, now: int) returns (reply: Reply)
      modifies this
      ensures Outcome(State(), reply) == ExitStock(old(State()), user, tradeId, exitPrice, now)
      ensures old(Consistent(State())) ==> Consistent(State())
    {
      ghost var before := State();
      if Consistent(before) { ExitKeepsConsistent(before, user, tradeId, exitPrice, now); }
      if !(tradeId < |trades| && trades[tradeId].user == user && trades[tradeId].status == Open) {
        return NotFound;
      }
      var trade := trades[tradeId];
      trade := trade.(status := Closed);
      trade := trade.(realizedPnL := Some(ProfitOf(exitPrice, trade.price, trade.quantity)));
      trades := trades[tradeId := trade];
      trades := trades + [Trade(|trades|, trade.user, trade.portfolio, trade.ticker, trade.quantity, exitPrice, now,
                                Sell, Closed, Some(trade.id), trade.realizedPnL)];
      if trade.portfolio < |portfolios| {
        var portfolio := portfolios[trade.portfolio];
        portfolio := portfolio.(totalInvested := portfolio.totalInvested - Notional(trade.quantity, trade.price));
        portfolios := portfolios[trade.portfolio := portfolio];
      }
      reply := Done(tradeId);
    }
  }
}
