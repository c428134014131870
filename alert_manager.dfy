/**
 * The price-alert engine that may also trade: alerts are registered with
 * duplicate protection on ticker, target and condition, and one checking
 * pass fires every alert whose price condition holds (inclusive
 * comparisons), runs its automatic trade if it has one, broadcasts a
 * notice and finally deletes exactly the fired alerts.
 */
module AlertManagement {
  import opened Wrappers
  import Text
  import opened AlertMessages
  import PortfolioLedger

  const InvalidData: string := "Invalid alert data."
  const AlreadySet: string := "Identical alert already set."

  /** The alert as posted: any of its keys may be missing. */
  datatype AlertData = AlertData(
    ticker: Option<string>,
    targetPrice: Option<real>,
    condition: Option<string>,
    autoAction: Option<string>,
    autoQuantity: Option<int>)

  /** A registered alert: the three required keys are present. */
  datatype PriceAlert = PriceAlert(
    ticker: string,
    targetPrice: real,
    condition: string,
    autoAction: Option<string>,
    autoQuantity: Option<int>)

  datatype AlertReply = AlertReply(success: bool, message: string)

  predicate Complete(d: AlertData) {
    d.ticker.Some? && d.targetPrice.Some? && d.condition.Some?
  }

  function ToAlert(d: AlertData): PriceAlert
    requires Complete(d)
  {
    PriceAlert(d.ticker.value, d.targetPrice.value, d.condition.value, d.autoAction, d.autoQuantity)
  }

  /** An alert and a request agree on ticker, target price and condition; the trade keys are not compared. */
  predicate SameTarget(a: PriceAlert, d: AlertData) {
    d.ticker == Some(a.ticker) && d.targetPrice == Some(a.targetPrice) && d.condition == Some(a.condition)
  }

  /** `set_price_alert` on the list of alerts: the new list and the reply. */
  function Registration(alerts: seq<PriceAlert>, d: AlertData): (seq<PriceAlert>, AlertReply)
  {
    if !Complete(d) then (alerts, AlertReply(false, InvalidData))
    else if exists i :: 0 <= i < |alerts| && SameTarget(alerts[i], d) then (alerts, AlertReply(false, AlreadySet))
    else (alerts + [ToAlert(d)], AlertReply(true, "Alert for " + d.ticker.value + " set successfully."))
  }

  /**
   * A request is refused, leaving the list alone, when a required key is
   * missing or an alert with the same ticker, target and condition exists;
   * otherwise it is appended at the end.
   */
  lemma RegistrationCases(alerts: seq<PriceAlert>, d: AlertData)
    ensures var (a, r) := Registration(alerts, d);
      && (r.success <==> Complete(d) && forall i :: 0 <= i < |alerts| ==> !SameTarget(alerts[i], d))
      && (!r.success ==> a == alerts)
      && (r.success ==> a == alerts + [ToAlert(d)] && SameTarget(a[|a| - 1], d))
      && (r.message == InvalidData <==> !Complete(d))
  {
  }

  /** Registering the same alert twice: the second attempt is refused as a duplicate. */
  lemma RegisterTwiceRefused(alerts: seq<PriceAlert>, d: AlertData)
    requires Registration(alerts, d).1.success
    ensures var a := Registration(alerts, d).0;
      Registration(a, d) == (a, AlertReply(false, AlreadySet))
  {
    var a := Registration(alerts, d).0;
    assert SameTarget(a[|alerts|], d);
  }

  // ------------------------------------------------------------ one pass

  /** The inclusive trigger rule: "above" at or over the target, "below" at or under it, nothing else. */
  predicate Crosses(a: PriceAlert, price: real) {
    (a.condition == "above" && price >= a.targetPrice) || (a.condition == "below" && price <= a.targetPrice)
  }

  /** The alert fires: its ticker has a known, non-zero price that crosses the target. */
  predicate Fires(a: PriceAlert, prices: map<string, real>) {
    KnownPrice(prices, a.ticker).Some? && Crosses(a, KnownPrice(prices, a.ticker).value)
  }

  /** Both trade keys are truthy: a non-empty action and a non-zero quantity. */
  predicate AutoTrades(a: PriceAlert) {
    a.autoAction.Some? && a.autoAction.value != "" && a.autoQuantity.Some? && a.autoQuantity.value != 0
  }

  /** The trade an auto-trading alert places: a buy, a sell, or none for any other action. */
  function AutoTrade(l: PortfolioLedger.Ledger, a: PriceAlert): (PortfolioLedger.Ledger, Option<PortfolioLedger.TradeOutcome>)
    requires AutoTrades(a)
  {
    var action, q := a.autoAction.value, a.autoQuantity.value;
    if action == "buy" then
      var (l', o) := PortfolioLedger.BuyEffect(l, a.ticker, q); (l', Some(o))
    else if action == "sell" then
      var (l', o) := PortfolioLedger.SellEffect(l, a.ticker, q); (l', Some(o))
    else (l, None)
  }

  /** The state of a pass: the account, the notices sent, and whether a trade raised. */
  datatype PassResult = PassResult(books: PortfolioLedger.Ledger, sent: seq<Notice>, crashed: bool)

  /**
   * One alert's part of the pass. A buy that raises ends the pass, with
   * nothing sent for that alert; an auto-trading alert reports the trade
   * whatever the trade's outcome; any other fired alert reports the
   * crossing.
   */
  function Fire(r: PassResult, a: PriceAlert, channel: bool): PassResult
  {
    if r.crashed || !Fires(a, r.books.prices) then r
    else
      var price := r.books.prices[a.ticker];
      if AutoTrades(a) then
        var (books, outcome) := AutoTrade(r.books, a);
        if outcome == Some(PortfolioLedger.DivisionByZero) then PassResult(books, r.sent, true)
        else
          var n := AutoTradeExecuted(Text.Upper(a.autoAction.value), a.autoQuantity.value, a.ticker, price);
          PassResult(books, Announce(r.sent, n, channel), false)
      else PassResult(r.books, Announce(r.sent, PriceCrossed(a.ticker, a.targetPrice, price), channel), false)
  }

  /** The first loop of a pass over `alerts`, from the account `start`. */
  function Passed(alerts: seq<PriceAlert>, start: PortfolioLedger.Ledger, channel: bool): PassResult
  {
    if |alerts| == 0 then PassResult(start, [], false)
    else Fire(Passed(alerts[..|alerts| - 1], start, channel), alerts[|alerts| - 1], channel)
  }

  /** The indices of the alerts that fire, in increasing order. */
  function Firing(alerts: seq<PriceAlert>, prices: map<string, real>): seq<nat>
  {
    if |alerts| == 0 then []
    else Firing(alerts[..|alerts| - 1], prices) + (if Fires(alerts[|alerts| - 1], prices) then [|alerts| - 1] else [])
  }

  /** The alerts that do not fire, in their order. */
  function Kept(alerts: seq<PriceAlert>, prices: map<string, real>): seq<PriceAlert>
  {
    if |alerts| == 0 then []
    else (if Fires(alerts[0], prices) then [] else [alerts[0]]) + Kept(alerts[1..], prices)
  }

  /** Trades never move prices, so every alert of a pass is judged on the prices it started with. */
  lemma {:induction false} PassedKeepsPrices(alerts: seq<PriceAlert>, start: PortfolioLedger.Ledger, channel: bool)
    ensures Passed(alerts, start, channel).books.prices == start.prices
    decreases |alerts|
  {
    if |alerts| > 0 {
      var r := Passed(alerts[..|alerts| - 1], start, channel);
      PassedKeepsPrices(alerts[..|alerts| - 1], start, channel);
      var a := alerts[|alerts| - 1];
      if !r.crashed && Fires(a, r.books.prices) && AutoTrades(a) {
        PortfolioLedger.BuyCases(r.books, a.ticker, a.autoQuantity.value);
        PortfolioLedger.SellCases(r.books, a.ticker, a.autoQuantity.value);
      }
    }
  }

  /** Once a trade has raised, the rest of the alerts change nothing. */
  lemma {:induction false} CrashIsFinal(alerts: seq<PriceAlert>, start: PortfolioLedger.Ledger, channel: bool, i: nat)
    requires i <= |alerts| && Passed(alerts[..i], start, channel).crashed
    ensures Passed(alerts, start, channel) == Passed(alerts[..i], start, channel)
    decreases |alerts| - i
  {
    if i < |alerts| {
      assert alerts[..i + 1][..i] == alerts[..i];
      CrashIsFinal(alerts, start, channel, i + 1);
    } else {
      assert alerts[..i] == alerts;
    }
  }

  /** Without a channel a pass sends nothing. */
  lemma {:induction false} SilentWithoutChannel(alerts: seq<PriceAlert>, start: PortfolioLedger.Ledger)
    ensures Passed(alerts, start, false).sent == []
    decreases |alerts|
  {
    if |alerts| > 0 {
      SilentWithoutChannel(alerts[..|alerts| - 1], start);
    }
  }

  /**
   * Without auto-trading alerts a pass leaves the account alone and cannot
   * raise; with a channel it sends one notice per fired alert, in order.
   */
  lemma {:induction false} PlainPass(alerts: seq<PriceAlert>, start: PortfolioLedger.Ledger)
    requires forall i :: 0 <= i < |alerts| ==> !AutoTrades(alerts[i])
    ensures var r := Passed(alerts, start, true);
      && r.books == start && !r.crashed
      && |r.sent| == |Firing(alerts, start.prices)|
      && forall k :: 0 <= k < |r.sent| ==>
           Firing(alerts, start.prices)[k] < |alerts| &&
           var a := alerts[Firing(alerts, start.prices)[k]];
           Fires(a, start.prices) && r.sent[k] == PriceCrossed(a.ticker, a.targetPrice, start.prices[a.ticker])
    decreases |alerts|
  {
    if |alerts| > 0 {
      var init := alerts[..|alerts| - 1];
      assert forall i :: 0 <= i < |init| ==> init[i] == alerts[i];
      PlainPass(init, start);
      var f := Firing(init, start.prices);
      assert forall k :: 0 <= k < |f| ==> alerts[f[k]] == init[f[k]] by {
        FiringFacts(init, start.prices);
      }
    }
  }

  /** `f` lists exactly the indices of the firing alerts, each once, in increasing order. */
  ghost predicate FiringIndices(f: seq<nat>, alerts: seq<PriceAlert>, prices: map<string, real>)
  {
    && (forall k :: 0 <= k < |f| ==> f[k] < |alerts|)
    && (forall k :: 0 <= k < |f| ==> Fires(alerts[f[k]], prices))
    && (forall i :: 0 <= i < |alerts| && Fires(alerts[i], prices) ==> i in f)
    && (forall j, k :: 0 <= j < k < |f| ==> f[j] < f[k])
  }

  lemma {:induction false} FiringFacts(alerts: seq<PriceAlert>, prices: map<string, real>)
    ensures FiringIndices(Firing(alerts, prices), alerts, prices)
    decreases |alerts|
  {
    if |alerts| > 0 {
      var init := alerts[..|alerts| - 1];
      FiringFacts(init, prices);
      assert forall i :: 0 <= i < |init| ==> init[i] == alerts[i];
      var f0 := Firing(init, prices);
      assert forall k :: 0 <= k < |f0| ==> f0[k] < |init|;
      forall i | 0 <= i < |alerts| && Fires(alerts[i], prices) ensures i in Firing(alerts, prices) {
        if i < |init| {
          assert i in f0;
        }
      }
    }
  }

  /** Where the deletions have reached: the `j`-th firing index, or the end once past the last. */
  function Reach(f: seq<nat>, j: nat, n: nat): nat
    requires j <= |f|
  {
    if j == |f| then n else f[j]
  }

  /** Between two consecutive firing indices (or before the first, or after the last) nothing fires. */
  lemma FiringGap(alerts: seq<PriceAlert>, prices: map<string, real>, f: seq<nat>, j: int, lo: int, hi: int)
    requires FiringIndices(f, alerts, prices)
    requires -1 <= j < |f|
    requires lo == if j < 0 then -1 else f[j]
    requires hi == Reach(f, j + 1, |alerts|)
    ensures forall i :: lo < i < hi && 0 <= i < |alerts| ==> !Fires(alerts[i], prices)
  {
    forall i | lo < i < hi && 0 <= i < |alerts| ensures !Fires(alerts[i], prices) {
      forall m | 0 <= m < |f| ensures f[m] != i {
        if m < j {
          assert f[m] < f[j];
        } else if m > j + 1 {
          assert f[j + 1] < f[m];
        }
      }
    }
  }

  /** Deleting the next firing index, from the highest down, keeps the shape `orig[..b] + Kept(orig[b..])`. */
  lemma DeleteStep(orig: seq<PriceAlert>, prices: map<string, real>, f: seq<nat>, j: nat, cur: seq<PriceAlert>)
    requires f == Firing(orig, prices)
    requires 0 < j <= |f| && Reach(f, j, |orig|) <= |orig|
    requires cur == orig[..Reach(f, j, |orig|)] + Kept(orig[Reach(f, j, |orig|)..], prices)
    ensures f[j - 1] < |cur| && f[j - 1] < |orig|
    ensures cur[..f[j - 1]] + cur[f[j - 1] + 1..] == orig[..f[j - 1]] + Kept(orig[f[j - 1]..], prices)
  {
    FiringFacts(orig, prices);
    DeleteAt(orig, prices, f, j, cur);
  }

  lemma DeleteAt(orig: seq<PriceAlert>, prices: map<string, real>, f: seq<nat>, j: nat, cur: seq<PriceAlert>)
    requires FiringIndices(f, orig, prices)
    requires 0 < j <= |f| && Reach(f, j, |orig|) <= |orig|
    requires cur == orig[..Reach(f, j, |orig|)] + Kept(orig[Reach(f, j, |orig|)..], prices)
    ensures f[j - 1] < |cur| && f[j - 1] < |orig|
    ensures cur[..f[j - 1]] + cur[f[j - 1] + 1..] == orig[..f[j - 1]] + Kept(orig[f[j - 1]..], prices)
  {
    var b := Reach(f, j, |orig|);
    var i := f[j - 1];
    assert i < b by {
      if j < |f| {
        assert f[j - 1] < f[j];
      }
    }
    FiringGap(orig, prices, f, j - 1, i, b);
    KeptGap(orig, prices, i, b);
    KeptAppend(orig[i..b], orig[b..], prices);
    assert orig[i..b] + orig[b..] == orig[i..];
    assert cur[..i] == orig[..i];
    assert cur[i + 1..] == orig[i + 1..b] + Kept(orig[b..], prices);
  }

  /** Once every firing index is deleted, what is left is `Kept`. */
  lemma DeleteDone(orig: seq<PriceAlert>, prices: map<string, real>, f: seq<nat>, cur: seq<PriceAlert>)
    requires f == Firing(orig, prices)
    requires Reach(f, 0, |orig|) <= |orig|
    requires cur == orig[..Reach(f, 0, |orig|)] + Kept(orig[Reach(f, 0, |orig|)..], prices)
    ensures cur == Kept(orig, prices)
  {
    FiringFacts(orig, prices);
    var b := Reach(f, 0, |orig|);
    FiringGap(orig, prices, f, -1, -1, b);
    KeptNoneFire(orig[..b], prices);
    KeptAppend(orig[..b], orig[b..], prices);
    assert orig[..b] + orig[b..] == orig;
  }

  lemma {:induction false} KeptAppend(a: seq<PriceAlert>, b: seq<PriceAlert>, prices: map<string, real>)
    ensures Kept(a + b, prices) == Kept(a, prices) + Kept(b, prices)
    decreases |a|
  {
    if |a| > 0 {
      assert (a + b)[0] == a[0];
      assert (a + b)[1..] == a[1..] + b;
      KeptAppend(a[1..], b, prices);
    } else {
      assert a + b == b;
    }
  }

  lemma {:induction false} KeptNoneFire(a: seq<PriceAlert>, prices: map<string, real>)
    requires forall i :: 0 <= i < |a| ==> !Fires(a[i], prices)
    ensures Kept(a, prices) == a
    decreases |a|
  {
    if |a| > 0 {
      KeptNoneFire(a[1..], prices);
    }
  }

  /**
   * The fired alerts are exactly those deleted: an alert survives the pass
   * if and only if it does not fire, and an alert whose ticker has no
   * usable price always survives.
   */
  lemma {:induction false} KeptExactly(alerts: seq<PriceAlert>, prices: map<string, real>)
    ensures forall a :: a in Kept(alerts, prices) <==> a in alerts && !Fires(a, prices)
    ensures forall i :: 0 <= i < |alerts| && KnownPrice(prices, alerts[i].ticker).None? ==> alerts[i] in Kept(alerts, prices)
    ensures |Kept(alerts, prices)| + |Firing(alerts, prices)| == |alerts|
    decreases |alerts|
  {
    if |alerts| > 0 {
      KeptExactly(alerts[1..], prices);
      assert alerts == [alerts[0]] + alerts[1..];
      KeptAppend([alerts[0]], alerts[1..], prices);
      FiringCount(alerts, prices);
      forall i | 0 <= i < |alerts| && KnownPrice(prices, alerts[i].ticker).None?
        ensures alerts[i] in Kept(alerts, prices)
      {
        assert alerts[i] in alerts;
      }
    }
  }

  /** The number of firing alerts, counted from the front. */
  lemma {:induction false} FiringCount(alerts: seq<PriceAlert>, prices: map<string, real>)
    requires |alerts| > 0
    ensures |Firing(alerts, prices)| == |Firing(alerts[1..], prices)| + (if Fires(alerts[0], prices) then 1 else 0)
    decreases |alerts|
  {
    if |alerts| > 1 {
      var init := alerts[..|alerts| - 1];
      assert init[1..] == alerts[1..][..|alerts[1..]| - 1];
      assert init[0] == alerts[0];
      FiringCount(init, prices);
    }
  }

  lemma KeptGap(orig: seq<PriceAlert>, prices: map<string, real>, i: nat, b: nat)
    requires i < b <= |orig| && Fires(orig[i], prices)
    requires forall k :: i < k < b ==> !Fires(orig[k], prices)
    ensures Kept(orig[i..b], prices) == orig[i + 1..b]
  {
    assert orig[i..b][1..] == orig[i + 1..b];
    KeptNoneFire(orig[i + 1..b], prices);
  }

  class AlertManager {
    var priceAlerts: seq<PriceAlert>
    var alertChannel: bool

    constructor ()
      ensures priceAlerts == [] && !alertChannel
    {
      priceAlerts := [];
      alertChannel := false;
    }

    /** `set_alert_channel`: whether a channel is now set. */
    method SetAlertChannel(channel: bool)
      modifies this`alertChannel
      ensures alertChannel == channel
    {
      alertChannel := channel;
    }

    /** `set_price_alert`. */
    method SetPriceAlert(d: AlertData) returns (reply: AlertReply)
      modifies this`priceAlerts
      ensures (priceAlerts, reply) == Registration(old(priceAlerts), d)
    {
      if !Complete(d) {
        return AlertReply(false, InvalidData);
      }
      for i := 0 to |priceAlerts|
        invariant forall k :: 0 <= k < i ==> !SameTarget(priceAlerts[k], d)
      {
        if SameTarget(priceAlerts[i], d) {
          return AlertReply(false, AlreadySet);
        }
      }
      priceAlerts := priceAlerts + [ToAlert(d)];
      reply := AlertReply(true, "Alert for " + d.ticker.value + " set successfully.");
    }

    /**
     * The first loop of one pass of `check_alerts_periodically`: the
     * account and the notices follow `Passed`, and when no trade raised the
     * indices collected are the firing ones.
     */
    method FirePass(pm: PortfolioLedger.PortfolioManager) returns (fired: seq<nat>, sent: seq<Notice>, crashed: bool)
      modifies pm`cash, pm`holdings
      ensures var r := Passed(priceAlerts, old(pm.Books()), alertChannel);
        pm.Books() == r.books && sent == r.sent && crashed == r.crashed
      ensures !crashed ==> fired == Firing(priceAlerts, old(pm.lastKnownPrices))
    {
      ghost var start := pm.Books();
      fired, sent, crashed := [], [], false;
      for i := 0 to |priceAlerts|
        invariant pm.lastKnownPrices == start.prices
        invariant var r := Passed(priceAlerts[..i], start, alertChannel);
          pm.Books() == r.books && sent == r.sent && !crashed && !r.crashed
        invariant fired == Firing(priceAlerts[..i], start.prices)
      {
        var alert := priceAlerts[i];
        assert priceAlerts[..i + 1][..i] == priceAlerts[..i];
        assert priceAlerts[..i + 1][i] == alert;
        ghost var r := Passed(priceAlerts[..i], start, alertChannel);
        assert Passed(priceAlerts[..i + 1], start, alertChannel) == Fire(r, alert, alertChannel);
        assert r.books.prices == start.prices;
        assert Firing(priceAlerts[..i + 1], start.prices) ==
          fired + (if Fires(alert, start.prices) then [i] else []);
        var currentPrice := KnownPrice(pm.lastKnownPrices, alert.ticker);
        if currentPrice.None? {
          assert Fire(r, alert, alertChannel) == r;
          continue;
        }
        var price := currentPrice.value;
        if Crosses(alert, price) {
          var notice;
          if AutoTrades(alert) {
            var action, quantity, ticker := alert.autoAction.value, alert.autoQuantity.value, alert.ticker;
            ghost var before := pm.Books();
            if action == "buy" {
              var outcome := pm.Buy(ticker, quantity);
              assert AutoTrade(before, alert) == (pm.Books(), Some(outcome));
              PortfolioLedger.BuyCases(before, ticker, quantity);
              if outcome == PortfolioLedger.DivisionByZero {
                crashed := true;
                assert Fire(r, alert, alertChannel) == PassResult(pm.Books(), sent, true);
                CrashIsFinal(priceAlerts, start, alertChannel, i + 1);
                return;
              }
            } else if action == "sell" {
              var outcome := pm.Sell(ticker, quantity);
              assert AutoTrade(before, alert) == (pm.Books(), Some(outcome));
              PortfolioLedger.SellCases(before, ticker, quantity);
            } else {
              assert AutoTrade(before, alert) == (pm.Books(), None);
            }
            notice := AutoTradeExecuted(Text.Upper(action), quantity, ticker, price);
          } else {
            notice := PriceCrossed(alert.ticker, alert.targetPrice, price);
          }
          assert Fire(r, alert, alertChannel) == PassResult(pm.Books(), Announce(sent, notice, alertChannel), false);
          if alertChannel {
            sent := sent + [notice];
          }
          fired := fired + [i];
        } else {
          assert Fire(r, alert, alertChannel) == r;
        }
      }
      assert priceAlerts[..|priceAlerts|] == priceAlerts;
    }

    /** The second loop: the collected indices are deleted from the highest down. */
    method RemoveFired(fired: seq<nat>, ghost prices: map<string, real>)
      requires fired == Firing(priceAlerts, prices)
      modifies this`priceAlerts
      ensures priceAlerts == Kept(old(priceAlerts), prices)
    {
      ghost var orig := priceAlerts;
      var j := |fired|;
      while j > 0
        invariant 0 <= j <= |fired|
        invariant Reach(fired, j, |orig|) <= |orig|
        invariant priceAlerts == orig[..Reach(fired, j, |orig|)] + Kept(orig[Reach(fired, j, |orig|)..], prices)
      {
        DeleteStep(orig, prices, fired, j, priceAlerts);
        j := j - 1;
        var i := fired[j];
        assert Reach(fired, j, |orig|) == i;
        priceAlerts := priceAlerts[..i] + priceAlerts[i + 1..];
      }
      DeleteDone(orig, prices, fired, priceAlerts);
    }

    /**
     * One pass of `check_alerts_periodically`. When no trade raised, the
     * fired alerts are gone and the others remain in order; when a buy
     * raised, the pass stops there and no alert is deleted.
     */
    method CheckAlerts(pm: PortfolioLedger.PortfolioManager) returns (sent: seq<Notice>, crashed: bool)
      modifies this`priceAlerts, pm`cash, pm`holdings
      ensures var r := Passed(old(priceAlerts), old(pm.Books()), alertChannel);
        pm.Books() == r.books && sent == r.sent && crashed == r.crashed
      ensures priceAlerts == if crashed then old(priceAlerts) else Kept(old(priceAlerts), old(pm.lastKnownPrices))
    {
      var fired;
      fired, sent, crashed := FirePass(pm);
      if !crashed {
        RemoveFired(fired, old(pm.lastKnownPrices));
      }
    }
  }
}
