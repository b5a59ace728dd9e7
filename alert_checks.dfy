/**
 * The price-alert job of backend/jobs/schedule.js (`alertChecksLogic`).
 * Every active alert whose ticker has a live price that strictly crosses the
 * target is notified and switched off. The chat message that is sent is
 * recorded as an entry of a ghost log.
 */
module AlertChecks {
  import opened Common
  import opened ScheduleHelpers

  datatype Condition = Above | Below

  datatype Alert = Alert(
    user: string,
    ticker: string,
    targetPrice: real,
    condition: Condition,
    isActive: bool,
    chatId: string)

  /** What is sent to the alert's chat when it fires. */
  datatype Notification = Notification(
    chatId: string,
    ticker: string,
    condition: Condition,
    targetPrice: real,
    price: real)

  /** Strict crossing: "above" needs a higher price, "below" a lower one. */
  predicate Crossed(condition: Condition, price: real, target: real)
  {
    match condition
    case Above => price > target
    case Below => price < target
  }

  /** A live price is usable when it is present and non-zero (`if (!currentPrice) continue`). */
  predicate HasPrice(ticker: string, prices: map<string, real>)
  {
    ticker in prices && prices[ticker] != 0.0
  }

  predicate Fires(a: Alert, prices: map<string, real>)
  {
    a.isActive && HasPrice(a.ticker, prices) && Crossed(a.condition, prices[a.ticker], a.targetPrice)
  }

  /** One alert after a pass: only `isActive` can change, and only from true to false. */
  function Evaluate(a: Alert, prices: map<string, real>): (b: Alert)
    ensures b == a.(isActive := b.isActive)
    ensures b.isActive <==> a.isActive && !Fires(a, prices)
    ensures !HasPrice(a.ticker, prices) ==> b == a
    ensures a.isActive && HasPrice(a.ticker, prices) && prices[a.ticker] == a.targetPrice ==> b == a
  {
    if Fires(a, prices) then a.(isActive := false) else a
  }

  function EvaluateAll(alerts: seq<Alert>, prices: map<string, real>): (r: seq<Alert>)
    ensures |r| == |alerts|
    ensures forall i :: 0 <= i < |alerts| ==>
      r[i] == alerts[i].(isActive := r[i].isActive) && (r[i].isActive <==> alerts[i].isActive && !Fires(alerts[i], prices))
  {
    seq(|alerts|, i requires 0 <= i < |alerts| => Evaluate(alerts[i], prices))
  }

  function NotificationFor(a: Alert, price: real): Notification
  {
    Notification(a.chatId, a.ticker, a.condition, a.targetPrice, price)
  }

  /** The messages one pass sends, in alert order. */
  function Notifications(alerts: seq<Alert>, prices: map<string, real>): (r: seq<Notification>)
    ensures |r| <= |alerts|
    ensures forall k :: 0 <= k < |r| ==> r[k].ticker in prices && r[k].price == prices[r[k].ticker] && r[k].price != 0.0
  {
    if alerts == [] then []
    else
      var a := alerts[|alerts| - 1];
      Notifications(alerts[..|alerts| - 1], prices)
        + (if Fires(a, prices) then [NotificationFor(a, prices[a.ticker])] else [])
  }

  function ActiveCount(alerts: seq<Alert>): nat
  {
    if alerts == [] then 0
    else ActiveCount(alerts[..|alerts| - 1]) + (if alerts[|alerts| - 1].isActive then 1 else 0)
  }

  /** Every alert that is switched off is notified exactly once, and no other alert is. */
  lemma {:induction false} OneNotificationPerDeactivation(alerts: seq<Alert>, prices: map<string, real>)
    ensures ActiveCount(EvaluateAll(alerts, prices)) <= ActiveCount(alerts)
    ensures |Notifications(alerts, prices)| == ActiveCount(alerts) - ActiveCount(EvaluateAll(alerts, prices))
  {
    if alerts != [] {
      var init := alerts[..|alerts| - 1];
      OneNotificationPerDeactivation(init, prices);
      assert EvaluateAll(alerts, prices)[..|alerts| - 1] == EvaluateAll(init, prices);
    }
  }

  /** A second pass at the same prices sends nothing: what fired is now inactive. */
  lemma {:induction false} NoRepeatNotification(alerts: seq<Alert>, prices: map<string, real>)
    ensures Notifications(EvaluateAll(alerts, prices), prices) == []
  {
    if alerts != [] {
      var init := alerts[..|alerts| - 1];
      NoRepeatNotification(init, prices);
      assert EvaluateAll(alerts, prices)[..|alerts| - 1] == EvaluateAll(init, prices);
    }
  }

  /** An alert that fired never fires again, whatever the later prices are. */
  lemma {:induction false} FiredAlertStaysSilent(alerts: seq<Alert>, p: map<string, real>, q: map<string, real>)
    ensures forall i :: 0 <= i < |alerts| && Fires(alerts[i], p) ==> !Fires(EvaluateAll(alerts, p)[i], q)
    ensures |Notifications(alerts, p)| + |Notifications(EvaluateAll(alerts, p), q)| <= ActiveCount(alerts)
  {
    var once := EvaluateAll(alerts, p);
    NoRepeatNotification(once, q);
    OneNotificationPerDeactivation(alerts, p);
    OneNotificationPerDeactivation(once, q);
  }

  /** One more alert checked: the messages for a prefix grow by that alert's message, if it fires. */
  lemma NotificationsStep(alerts: seq<Alert>, prices: map<string, real>, i: nat)
    requires i < |alerts|
    ensures Notifications(alerts[..i + 1], prices) == Notifications(alerts[..i], prices)
      + (if Fires(alerts[i], prices) then [NotificationFor(alerts[i], prices[alerts[i].ticker])] else [])
  {
    assert alerts[..i + 1][..i] == alerts[..i];
  }

  class AlertBook {
    var alerts: seq<Alert>
    /** The chat messages sent so far. */
    ghost var sent: seq<Notification>

    constructor (alerts: seq<Alert>)
      ensures this.alerts == alerts && sent == []
    {
      this.alerts := alerts;
      sent := [];
    }

    /** The check of the alert at position i: it is evaluated, and a message is sent if it fires. */
    method CheckAlert(i: nat, prices: map<string, real>)
      requires i < |alerts|
      modifies this
      ensures alerts == old(alerts)[i := Evaluate(old(alerts)[i], prices)]
      ensures sent == old(sent) + if Fires(old(alerts)[i], prices) then [NotificationFor(old(alerts)[i], prices[old(alerts)[i].ticker])] else []
    {
      var alert := alerts[i];
      if alert.isActive && alert.ticker in prices && prices[alert.ticker] != 0.0 {
        var currentPrice := prices[alert.ticker];
        var triggered := false;
        if alert.condition == Above && currentPrice > alert.targetPrice {
          triggered := true;
        } else if alert.condition == Below && currentPrice < alert.targetPrice {
          triggered := true;
        }
        if triggered {
          sent := sent + [NotificationFor(alert, currentPrice)];
          alerts := alerts[i := alert.(isActive := false)];
        }
      }
    }

    /**
     * One run of the job: outside market hours nothing is read or written;
     * otherwise each alert is evaluated against the live prices, in order.
     * (The query for active alerts becomes the `isActive` test in Fires.)
     */
    method RunAlertChecks(day: int, hour: int, minute: int, prices: map<string, real>)
      requires 0 <= day <= 6 && 0 <= hour < 24 && 0 <= minute < 60
      modifies this
      ensures !IsMarketOpen(day, hour, minute) ==> alerts == old(alerts) && sent == old(sent)
      ensures IsMarketOpen(day, hour, minute) ==>
        alerts == EvaluateAll(old(alerts), prices) && sent == old(sent) + Notifications(old(alerts), prices)
    {
      if !IsMarketOpen(day, hour, minute) {
        return;
      }
      var i := 0;
      while i < |alerts|
        invariant 0 <= i <= |alerts| == |old(alerts)|
        invariant forall k :: 0 <= k < i ==> alerts[k] == Evaluate(old(alerts)[k], prices)
        invariant forall k :: i <= k < |alerts| ==> alerts[k] == old(alerts)[k]
        invariant sent == old(sent) + Notifications(old(alerts)[..i], prices)
      {
        NotificationsStep(old(alerts), prices, i);
        CheckAlert(i, prices);
        i := i + 1;
      }
      assert old(alerts)[..i] == old(alerts);
    }
  }
}
