/**
 * The alert engine behind the alert endpoint: price alerts keyed by a
 * "ticker-condition-price" id, a checking pass with strict comparisons
 * that drops alerts without a usable price, and at most one news alert
 * per pass, subject to a five-minute cooldown.
 */
module AlertEngine {
  import opened Wrappers
  import Text
  import News
  import opened Llm
  import GenAI
  import opened AlertMessages

  /** Seconds that must pass between two news alerts. */
  const NewsAlertCooldown: real := 300.0
  const RecentlyTriggered: string := "Alert already exists or was recently triggered."

  datatype ServiceAlert = ServiceAlert(ticker: string, targetPrice: real, condition: string)

  datatype AlertReply = AlertReply(success: bool, message: string)

  /** The alert's id; `priceText` is Python's `str` on a float. */
  function AlertId(a: ServiceAlert, priceText: real -> string): string
  {
    a.ticker + "-" + a.condition + "-" + priceText(a.targetPrice)
  }

  /** `add_price_alert`: refused only when the id has already fired; active duplicates are accepted. */
  function Registration(alerts: seq<ServiceAlert>, triggered: set<string>, a: ServiceAlert, priceText: real -> string): (r: (seq<ServiceAlert>, AlertReply))
    ensures r.1.success <==> AlertId(a, priceText) !in triggered
    ensures r.1.success ==> r.0 == alerts + [a]
    ensures !r.1.success ==> r.0 == alerts && r.1.message == RecentlyTriggered
  {
    if AlertId(a, priceText) !in triggered then
      (alerts + [a], AlertReply(true, "Alert set for " + a.ticker + " " + a.condition + " $" + priceText(a.targetPrice)))
    else (alerts, AlertReply(false, RecentlyTriggered))
  }

  // ---------------------------------------------------------- price pass

  /** The strict trigger rule: "above" over the target, "below" under it, nothing else. */
  predicate Crosses(a: ServiceAlert, price: real) {
    (a.condition == "above" && price > a.targetPrice) || (a.condition == "below" && price < a.targetPrice)
  }

  predicate Fires(a: ServiceAlert, prices: map<string, real>) {
    KnownPrice(prices, a.ticker).Some? && Crosses(a, KnownPrice(prices, a.ticker).value)
  }

  /** The alert stays active: its price is known and does not cross. */
  predicate Stays(a: ServiceAlert, prices: map<string, real>) {
    KnownPrice(prices, a.ticker).Some? && !Crosses(a, KnownPrice(prices, a.ticker).value)
  }

  /** The alerts that stay, in their order. */
  function Active(alerts: seq<ServiceAlert>, prices: map<string, real>): seq<ServiceAlert>
  {
    if |alerts| == 0 then []
    else
      var a := alerts[|alerts| - 1];
      Active(alerts[..|alerts| - 1], prices) + (if Stays(a, prices) then [a] else [])
  }

  /** The ids of the alerts that fire. */
  function FiredIds(alerts: seq<ServiceAlert>, prices: map<string, real>, priceText: real -> string): set<string>
  {
    if |alerts| == 0 then {}
    else
      var a := alerts[|alerts| - 1];
      FiredIds(alerts[..|alerts| - 1], prices, priceText) + (if Fires(a, prices) then {AlertId(a, priceText)} else {})
  }

  /** The crossing notices of the alerts that fire, in order. */
  function Crossings(alerts: seq<ServiceAlert>, prices: map<string, real>): seq<Notice>
  {
    if |alerts| == 0 then []
    else
      var a := alerts[|alerts| - 1];
      Crossings(alerts[..|alerts| - 1], prices)
        + (if Fires(a, prices) then [PriceCrossed(a.ticker, a.targetPrice, prices[a.ticker])] else [])
  }

  /**
   * After a price pass an alert is still active exactly when its price is
   * known and does not cross, so an alert without a usable price is
   * dropped; the id of every fired alert is recorded, and nothing else.
   */
  lemma {:induction false} PricePassExactly(alerts: seq<ServiceAlert>, prices: map<string, real>, priceText: real -> string)
    ensures forall a :: a in Active(alerts, prices) <==> a in alerts && Stays(a, prices)
    ensures forall i :: 0 <= i < |alerts| && KnownPrice(prices, alerts[i].ticker).None? ==> alerts[i] !in Active(alerts, prices)
    ensures forall i :: 0 <= i < |alerts| && Fires(alerts[i], prices) ==> AlertId(alerts[i], priceText) in FiredIds(alerts, prices, priceText)
    ensures forall id :: id in FiredIds(alerts, prices, priceText) ==>
      exists i :: 0 <= i < |alerts| && Fires(alerts[i], prices) && AlertId(alerts[i], priceText) == id
    decreases |alerts|
  {
    if |alerts| > 0 {
      var init := alerts[..|alerts| - 1];
      PricePassExactly(init, prices, priceText);
      assert alerts == init + [alerts[|alerts| - 1]];
      assert forall i :: 0 <= i < |init| ==> init[i] == alerts[i];
      forall id | id in FiredIds(alerts, prices, priceText)
        ensures exists i :: 0 <= i < |alerts| && Fires(alerts[i], prices) && AlertId(alerts[i], priceText) == id
      {
        if id in FiredIds(init, prices, priceText) {
          var i :| 0 <= i < |init| && Fires(init[i], prices) && AlertId(init[i], priceText) == id;
          assert alerts[i] == init[i];
        }
      }
    }
  }

  /** A fired alert cannot be set again: its id is now among the triggered ones. */
  lemma FiredAlertRefused(alerts: seq<ServiceAlert>, prices: map<string, real>, priceText: real -> string,
                          triggered: set<string>, later: seq<ServiceAlert>, i: nat)
    requires i < |alerts| && Fires(alerts[i], prices)
    ensures !Registration(later, triggered + FiredIds(alerts, prices, priceText), alerts[i], priceText).1.success
  {
    PricePassExactly(alerts, prices, priceText);
  }

  // ----------------------------------------------------------- news pass

  /** The news half of the state. */
  datatype NewsState = NewsState(processed: set<string>, lastAlert: Option<real>)

  /** The cooldown: no news alert yet, or at least five minutes since the last one. */
  predicate CanSend(last: Option<real>, now: real) {
    last.None? || now - last.value >= NewsAlertCooldown
  }

  /** The held tickers' news, ticker after ticker. */
  function AllNews(held: seq<string>, news: map<string, seq<News.NewsItem>>): seq<News.NewsItem>
  {
    if |held| == 0 then []
    else AllNews(held[..|held| - 1], news) + GenAI.NewsFor(news, held[|held| - 1])
  }

  /** The titles not yet processed, in order. */
  function NewTitles(items: seq<News.NewsItem>, processed: set<string>): (r: seq<string>)
    ensures forall k :: 0 <= k < |r| ==> r[k] !in processed
  {
    if |items| == 0 then []
    else (if items[0].title in processed then [] else [items[0].title]) + NewTitles(items[1..], processed)
  }

  /** The headline chosen is the first unprocessed title; every title before it was processed. */
  lemma {:induction false} FirstNewTitle(items: seq<News.NewsItem>, processed: set<string>)
    ensures |NewTitles(items, processed)| > 0 <==> exists i :: 0 <= i < |items| && items[i].title !in processed
    ensures |NewTitles(items, processed)| > 0 ==>
      exists i :: (0 <= i < |items| && items[i].title == NewTitles(items, processed)[0]
        && forall k :: 0 <= k < i ==> items[k].title in processed)
    decreases |items|
  {
    if |items| > 0 {
      FirstNewTitle(items[1..], processed);
      if items[0].title in processed {
        if exists i :: 0 <= i < |items| && items[i].title !in processed {
          var i :| 0 <= i < |items| && items[i].title !in processed;
          assert items[1..][i - 1] == items[i];
        }
        if |NewTitles(items, processed)| > 0 {
          var j :| 0 <= j < |items[1..]| && items[1..][j].title == NewTitles(items[1..], processed)[0]
            && forall k :: 0 <= k < j ==> items[1..][k].title in processed;
          assert items[j + 1] == items[1..][j];
          forall k | 0 <= k < j + 1 ensures items[k].title in processed {
            if k > 0 {
              assert items[k] == items[1..][k - 1];
            }
          }
        }
      }
    }
  }

  /** The headline names the ticker, ignoring case. */
  predicate Mentions(headline: string, ticker: string) {
    Text.Contains(Text.Lower(headline), Text.Lower(ticker))
  }

  /** The first held ticker the headline mentions. */
  function Relevant(held: seq<string>, headline: string): (r: Option<string>)
    ensures r.Some? <==> exists i :: 0 <= i < |held| && Mentions(headline, held[i])
    ensures r.Some? ==> exists i :: (0 <= i < |held| && held[i] == r.value && Mentions(headline, held[i])
      && forall k :: 0 <= k < i ==> !Mentions(headline, held[k]))
  {
    if |held| == 0 then None
    else if Mentions(headline, held[0]) then Some(held[0])
    else
      var r := Relevant(held[1..], headline);
      assert forall i :: 1 <= i < |held| ==> held[i] == held[1..][i - 1];
      r
  }

  datatype NewsOutcome = NewsOutcome(state: NewsState, sent: seq<Notice>, crashed: bool)

  /**
   * The news half of one pass. When the cooldown allows it and something is
   * held, the first unprocessed headline of the held tickers' news is marked
   * processed; if it mentions a held ticker (a non-empty one), the model
   * writes the alert. A rejected reply raises; otherwise the alert goes out
   * and starts the cooldown only when a channel is set.
   */
  function NewsCycle(s: NewsState, now: real, held: seq<string>, news: map<string, seq<News.NewsItem>>,
                     channel: bool, ask: Prompt -> Reply): NewsOutcome
  {
    if !CanSend(s.lastAlert, now) || |held| == 0 then NewsOutcome(s, [], false)
    else
      var titles := NewTitles(AllNews(held, news), s.processed);
      if |titles| == 0 then NewsOutcome(s, [], false)
      else
        var headline := titles[0];
        var marked := s.(processed := s.processed + {headline});
        var relevant := Relevant(held, headline);
        if relevant.None? || relevant.value == "" then NewsOutcome(marked, [], false)
        else
          match GenAI.RunPrompt(ask(NewsImpact(relevant.value, headline)))
          case None => NewsOutcome(marked, [], true)
          case Some(text) =>
            if channel then NewsOutcome(marked.(lastAlert := Some(now)), [NewsAlert(text)], false)
            else NewsOutcome(marked, [], false)
  }

  /**
   * At most one news alert per pass; none during the cooldown; the cooldown
   * restarts exactly when an alert is sent; and at most one headline, one
   * not processed before, is marked processed.
   */
  lemma NewsCycleRules(s: NewsState, now: real, held: seq<string>, news: map<string, seq<News.NewsItem>>,
                       channel: bool, ask: Prompt -> Reply)
    ensures var o := NewsCycle(s, now, held, news, channel, ask);
      && |o.sent| <= 1
      && (!CanSend(s.lastAlert, now) ==> o == NewsOutcome(s, [], false))
      && (|o.sent| == 1 ==> channel && CanSend(s.lastAlert, now) && o.state.lastAlert == Some(now))
      && (o.state.lastAlert != s.lastAlert <==> |o.sent| == 1)
      && (!channel ==> o.sent == [])
      && (o.state.processed == s.processed || exists h :: h !in s.processed && o.state.processed == s.processed + {h})
  {
    var o := NewsCycle(s, now, held, news, channel, ask);
    if |o.sent| == 1 {
      assert CanSend(s.lastAlert, now);
      if s.lastAlert.Some? {
        assert now - s.lastAlert.value >= NewsAlertCooldown;
      }
    }
    if CanSend(s.lastAlert, now) && |held| > 0 {
      var titles := NewTitles(AllNews(held, news), s.processed);
      if |titles| > 0 {
        assert titles[0] !in s.processed;
      }
    }
  }

  /** Two news alerts from consecutive passes are at least five minutes apart. */
  lemma CooldownSpacing(s: NewsState, t1: real, t2: real, held1: seq<string>, held2: seq<string>,
                        news: map<string, seq<News.NewsItem>>, channel: bool, ask: Prompt -> Reply)
    requires |NewsCycle(s, t1, held1, news, channel, ask).sent| == 1
    requires |NewsCycle(NewsCycle(s, t1, held1, news, channel, ask).state, t2, held2, news, channel, ask).sent| == 1
    ensures t2 - t1 >= NewsAlertCooldown
  {
    NewsCycleRules(s, t1, held1, news, channel, ask);
    NewsCycleRules(NewsCycle(s, t1, held1, news, channel, ask).state, t2, held2, news, channel, ask);
  }

  class AlertService {
    var priceAlerts: seq<ServiceAlert>
    var triggeredAlerts: set<string>
    var processedNews: set<string>
    var alertChannel: bool
    var lastNewsAlertTime: Option<real>
    const priceText: real -> string

    constructor (priceText: real -> string)
      ensures priceAlerts == [] && triggeredAlerts == {} && processedNews == {}
      ensures !alertChannel && lastNewsAlertTime == None && this.priceText == priceText
    {
      priceAlerts := [];
      triggeredAlerts := {};
      processedNews := {};
      alertChannel := false;
      lastNewsAlertTime := None;
      this.priceText := priceText;
    }

    method SetAlertChannel(channel: bool)
      modifies this`alertChannel
      ensures alertChannel == channel
    {
      alertChannel := channel;
    }

    /** `add_price_alert`. */
    method AddPriceAlert(ticker: string, targetPrice: real, condition: string) returns (reply: AlertReply)
      modifies this`priceAlerts
      ensures (priceAlerts, reply) == Registration(old(priceAlerts), triggeredAlerts, ServiceAlert(ticker, targetPrice, condition), priceText)
    {
      var alert := ServiceAlert(ticker, targetPrice, condition);
      var alertId := AlertId(alert, priceText);
      if alertId !in triggeredAlerts {
        priceAlerts := priceAlerts + [alert];
        return AlertReply(true, "Alert set for " + ticker + " " + condition + " $" + priceText(targetPrice));
      }
      return AlertReply(false, RecentlyTriggered);
    }

    /** The price half of one pass of `check_alerts`, on the account's last known prices. */
    method PricePass(prices: map<string, real>) returns (sent: seq<Notice>)
      modifies this`priceAlerts, this`triggeredAlerts
      ensures priceAlerts == Active(old(priceAlerts), prices)
      ensures triggeredAlerts == old(triggeredAlerts) + FiredIds(old(priceAlerts), prices, priceText)
      ensures sent == if alertChannel then Crossings(old(priceAlerts), prices) else []
    {
      var alerts := priceAlerts;
      var activeAlerts: seq<ServiceAlert> := [];
      sent := [];
      for i := 0 to |alerts|
        invariant activeAlerts == Active(alerts[..i], prices)
        invariant triggeredAlerts == old(triggeredAlerts) + FiredIds(alerts[..i], prices, priceText)
        invariant sent == if alertChannel then Crossings(alerts[..i], prices) else []
      {
        var alert := alerts[i];
        assert alerts[..i + 1][..i] == alerts[..i];
        assert alerts[..i + 1][i] == alert;
        var alertId := AlertId(alert, priceText);
        var currentPrice := KnownPrice(prices, alert.ticker);
        if currentPrice.Some? {
          if Crosses(alert, currentPrice.value) {
            if alertChannel {
              sent := sent + [PriceCrossed(alert.ticker, alert.targetPrice, currentPrice.value)];
            }
            triggeredAlerts := triggeredAlerts + {alertId};
          } else {
            activeAlerts := activeAlerts + [alert];
          }
        }
      }
      assert alerts[..|alerts|] == alerts;
      priceAlerts := activeAlerts;
    }

    /**
     * The news half of one pass at time `now` (seconds), for the held
     * tickers `held` in the order the set of holdings yields them.
     */
    method NewsPass(now: real, held: seq<string>, news: map<string, seq<News.NewsItem>>, ask: Prompt -> Reply)
      returns (sent: seq<Notice>, crashed: bool)
      modifies this`processedNews, this`lastNewsAlertTime
      ensures NewsOutcome(NewsState(processedNews, lastNewsAlertTime), sent, crashed)
        == NewsCycle(old(NewsState(processedNews, lastNewsAlertTime)), now, held, news, alertChannel, ask)
    {
      sent, crashed := [], false;
      var canSend := true;
      if lastNewsAlertTime.Some? {
        if now - lastNewsAlertTime.value < NewsAlertCooldown {
          canSend := false;
        }
      }
      if canSend && |held| > 0 {
        var allNews := CollectNews(held, news);
        var titles := NewTitles(allNews, processedNews);
        if |titles| > 0 {
          var headline := titles[0];
          processedNews := processedNews + {headline};
          var relevant := FindRelevant(held, headline);
          if relevant.Some? && relevant.value != "" {
            var aiMessage := GenAI.RunPrompt(ask(NewsImpact(relevant.value, headline)));
            if aiMessage.None? {
              crashed := true;
              return;
            }
            if alertChannel {
              sent := [NewsAlert(aiMessage.value)];
              lastNewsAlertTime := Some(now);
            }
          }
        }
      }
    }

    /** The news of every held ticker, ticker after ticker. */
    method CollectNews(held: seq<string>, news: map<string, seq<News.NewsItem>>) returns (allNews: seq<News.NewsItem>)
      ensures allNews == AllNews(held, news)
    {
      allNews := [];
      for i := 0 to |held|
        invariant allNews == AllNews(held[..i], news)
      {
        assert held[..i + 1][..i] == held[..i];
        allNews := allNews + GenAI.NewsFor(news, held[i]);
      }
      assert held[..|held|] == held;
    }

    /** The search for the first held ticker the headline mentions. */
    method FindRelevant(held: seq<string>, headline: string) returns (relevant: Option<string>)
      ensures relevant == Relevant(held, headline)
    {
      relevant := None;
      for i := 0 to |held|
        invariant forall k :: 0 <= k < i ==> !Mentions(headline, held[k])
      {
        if Mentions(headline, held[i]) {
          relevant := Some(held[i]);
          assert relevant == Relevant(held, headline);
          return;
        }
      }
    }

    /** One pass of `check_alerts`: the price half, then the news half. */
    method CheckAlerts(prices: map<string, real>, now: real, held: seq<string>,
                       news: map<string, seq<News.NewsItem>>, ask: Prompt -> Reply)
      returns (sent: seq<Notice>, crashed: bool)
      modifies this`priceAlerts, this`triggeredAlerts, this`processedNews, this`lastNewsAlertTime
      ensures priceAlerts == Active(old(priceAlerts), prices)
      ensures triggeredAlerts == old(triggeredAlerts) + FiredIds(old(priceAlerts), prices, priceText)
      ensures var o := NewsCycle(old(NewsState(processedNews, lastNewsAlertTime)), now, held, news, alertChannel, ask);
        && NewsState(processedNews, lastNewsAlertTime) == o.state && crashed == o.crashed
        && sent == (if alertChannel then Crossings(old(priceAlerts), prices) else []) + o.sent
    {
      var priceSent := PricePass(prices);
      var newsSent;
      newsSent, crashed := NewsPass(now, held, news, ask);
      sent := priceSent + newsSent;
    }
  }
}
