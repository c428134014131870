/**
 * The simulated brokerage account of the backend: cash, holdings with a
 * weighted average cost, the last price seen for each ticker and a
 * bounded history of total values.
 */
module PortfolioLedger {
  import opened Wrappers
  import opened Sums
  import Text
  import DataLoader

  /** Cash the account starts with, and the base of every profit figure. */
  const InitialCash: real := 1000000.0
  /** The history is trimmed once it holds more than this many entries. */
  const HistoryLimit: nat := 1000

  const NoPriceToBuy: string := "Market price not available for this ticker."
  const NotEnoughCash: string := "Not enough cash to complete this transaction."
  const NoPriceToSell: string := "Market price not available."
  const NotEnoughShares: string := "Not enough shares to sell."

  /** A position: whole shares (any integer; nothing stops it going negative) and average cost. */
  datatype Holding = Holding(shares: int, avgPrice: real)

  /** A point of the value history. */
  datatype HistoryEntry = HistoryEntry(timestamp: string, value: real)

  /** A position as `get_state` reports it, with the price it is valued at. */
  datatype EnrichedHolding = EnrichedHolding(shares: int, avgPrice: real, marketPrice: real)

  /** What `get_state` returns. */
  datatype PortfolioState = PortfolioState(
    cash: real,
    holdings: map<string, EnrichedHolding>,
    portfolioValue: real,
    totalValue: real)

  /** The reply of a trade; `DivisionByZero` is the exception `buy` can raise. */
  datatype TradeOutcome =
    | Bought(quantity: int, ticker: string)
    | Sold(quantity: int, ticker: string)
    | Refused(message: string)
    | DivisionByZero
  {
    predicate Success() { Bought? || Sold? }

    /** The `message` field of the reply. */
    function Message(): string
      requires !DivisionByZero?
    {
      match this
      case Bought(q, t) => "Bought " + Text.IntText(q) + " of " + t
      case Sold(q, t) => "Sold " + Text.IntText(q) + " of " + t
      case Refused(m) => m
    }
  }

  /** The part of the account that trades read and write. */
  datatype Ledger = Ledger(cash: real, holdings: map<string, Holding>, prices: map<string, real>)

  // ---------------------------------------------------------------- valuation

  /** A held ticker is valued at its last price, or at its average cost if no price was seen. */
  function MarketPrice(l: Ledger, t: string): real
    requires t in l.holdings
  {
    if t in l.prices then l.prices[t] else l.holdings[t].avgPrice
  }

  /** The market value of each position (zero for tickers not held). */
  function ValueTerm(l: Ledger): string -> real
  {
    t => if t in l.holdings then l.holdings[t].shares as real * MarketPrice(l, t) else 0.0
  }

  /** The cost basis of each position (zero for tickers not held). */
  function CostTerm(l: Ledger): string -> real
  {
    t => if t in l.holdings then l.holdings[t].shares as real * l.holdings[t].avgPrice else 0.0
  }

  ghost function PortfolioValue(l: Ledger): real
  {
    SumOver(l.holdings.Keys, ValueTerm(l))
  }

  ghost function TotalValue(l: Ledger): real
  {
    l.cash + PortfolioValue(l)
  }

  function Enriched(l: Ledger): map<string, EnrichedHolding>
  {
    map t | t in l.holdings :: EnrichedHolding(l.holdings[t].shares, l.holdings[t].avgPrice, MarketPrice(l, t))
  }

  /** `if timestamp:` — only a non-empty timestamp records a history point. */
  predicate Records(timestamp: Option<string>)
  {
    timestamp.Some? && timestamp.value != ""
  }

  /**
   * The history after a recorded point: once it is over the limit, the
   * oldest entry after the first is dropped, then the new one is appended.
   */
  function Recorded(h: seq<HistoryEntry>, timestamp: Option<string>, value: real): seq<HistoryEntry>
    requires |h| >= 1
  {
    if !Records(timestamp) then h
    else (if |h| > HistoryLimit then [h[0]] + h[2..] else h) + [HistoryEntry(timestamp.value, value)]
  }

  /**
   * The history keeps its first entry (the reset point) and the newest
   * entries after it, at most 1001 in all, ending with the new point.
   */
  lemma RecordedWindow(h: seq<HistoryEntry>, ts: string, value: real)
    requires 1 <= |h| <= HistoryLimit + 1 && ts != ""
    ensures var r := Recorded(h, Some(ts), value);
      var tail := h[1..] + [HistoryEntry(ts, value)];
      && |r| == (if |h| > HistoryLimit then HistoryLimit + 1 else |h| + 1)
      && r[0] == h[0]
      && r[1..] == tail[|tail| - (|r| - 1)..]
      && r[|r| - 1] == HistoryEntry(ts, value)
  {
    var r := Recorded(h, Some(ts), value);
    var tail := h[1..] + [HistoryEntry(ts, value)];
    if |h| > HistoryLimit {
      assert r[1..] == h[2..] + [HistoryEntry(ts, value)];
      assert tail[1..] == h[2..] + [HistoryEntry(ts, value)];
    } else {
      assert r[1..] == tail;
    }
  }

  // ---------------------------------------------------------------- prices

  /** The price of the last tick for `t` in the batch, if any. */
  function LastPrice(ticks: seq<DataLoader.Tick>, t: string): Option<real>
  {
    if |ticks| == 0 then None
    else if ticks[|ticks| - 1].ticker == t then Some(ticks[|ticks| - 1].price)
    else LastPrice(ticks[..|ticks| - 1], t)
  }

  /** The price table after a batch of ticks, applied in order. */
  function WithTicks(prices: map<string, real>, ticks: seq<DataLoader.Tick>): map<string, real>
  {
    if |ticks| == 0 then prices
    else WithTicks(prices, ticks[..|ticks| - 1])[ticks[|ticks| - 1].ticker := ticks[|ticks| - 1].price]
  }

  /** Every ticker of the batch gets the price of its last tick; every other price is kept. */
  lemma {:induction false} WithTicksLookup(prices: map<string, real>, ticks: seq<DataLoader.Tick>, t: string)
    ensures t in WithTicks(prices, ticks) <==> (t in prices || LastPrice(ticks, t).Some?)
    ensures LastPrice(ticks, t).Some? ==> WithTicks(prices, ticks)[t] == LastPrice(ticks, t).value
    ensures LastPrice(ticks, t).None? && t in prices ==> WithTicks(prices, ticks)[t] == prices[t]
  {
    if |ticks| > 0 {
      WithTicksLookup(prices, ticks[..|ticks| - 1], t);
    }
  }

  /** A ticker has a last tick exactly when some tick of the batch names it. */
  lemma {:induction false} LastPriceSome(ticks: seq<DataLoader.Tick>, t: string)
    ensures LastPrice(ticks, t).Some? <==> exists i :: 0 <= i < |ticks| && ticks[i].ticker == t
  {
    if |ticks| > 0 {
      LastPriceSome(ticks[..|ticks| - 1], t);
      if ticks[|ticks| - 1].ticker != t {
        forall i | 0 <= i < |ticks| && ticks[i].ticker == t
          ensures 0 <= i < |ticks| - 1 && ticks[..|ticks| - 1][i].ticker == t
        {
        }
      }
    }
  }

  // ---------------------------------------------------------------- trades

  /** `buy`: the new ledger and the reply. */
  function BuyEffect(l: Ledger, t: string, q: int): (Ledger, TradeOutcome)
  {
    if t !in l.prices then (l, Refused(NoPriceToBuy))
    else if l.cash < Cost(l.prices[t], q) then (l, Refused(NotEnoughCash))
    else Debited(l, t, q, Cost(l.prices[t], q))
  }

  /** `price * quantity`: what a trade of `q` shares at `price` moves. */
  function Cost(price: real, q: int): real
  {
    price * q as real
  }

  /** The rest of `buy` once the cost is known to be covered: the cash is taken, then the position changes. */
  function Debited(l: Ledger, t: string, q: int, cost: real): (Ledger, TradeOutcome)
    requires t in l.prices
  {
    var debited := l.(cash := l.cash - cost);
    if t in l.holdings then
      if l.holdings[t].shares + q == 0 then (debited, DivisionByZero)
      else (debited.(holdings := l.holdings[t := AveragedIn(l.holdings[t], q, cost)]), Bought(q, t))
    else (debited.(holdings := l.holdings[t := Holding(q, l.prices[t])]), Bought(q, t))
  }

  /** The position after buying `q` more shares for `cost`: total cost over total shares. */
  function AveragedIn(e: Holding, q: int, cost: real): Holding
    requires e.shares + q != 0
  {
    Holding(e.shares + q, (e.avgPrice * e.shares as real + cost) / (e.shares + q) as real)
  }

  /** `sell`: the new ledger and the reply. */
  function SellEffect(l: Ledger, t: string, q: int): (Ledger, TradeOutcome)
  {
    if t !in l.prices then (l, Refused(NoPriceToSell))
    else if t !in l.holdings || l.holdings[t].shares < q then (l, Refused(NotEnoughShares))
    else
      var credited := l.(cash := l.cash + l.prices[t] * q as real);
      var left := l.holdings[t].shares - q;
      if left == 0 then (credited.(holdings := l.holdings - {t}), Sold(q, t))
      else (credited.(holdings := l.holdings[t := l.holdings[t].(shares := left)]), Sold(q, t))
  }

  /**
   * A buy is refused, leaving the account as it was, exactly when no price
   * is known or the cost exceeds the cash; it raises, after the cash was
   * taken, exactly when it would bring an existing position to zero shares.
   * Otherwise the cost leaves the cash and the position grows by the
   * quantity at the weighted average cost (a new position is opened at the
   * price, whatever the quantity); nothing else changes.
   */
  lemma BuyCases(l: Ledger, t: string, q: int)
    ensures var (l', o) := BuyEffect(l, t, q);
      && (o == Refused(NoPriceToBuy) <==> t !in l.prices)
      && (o == Refused(NotEnoughCash) <==> t in l.prices && l.cash < l.prices[t] * q as real)
      && (o.Refused? ==> l' == l)
      && (o == DivisionByZero <==>
            t in l.prices && l.cash >= l.prices[t] * q as real && t in l.holdings && l.holdings[t].shares + q == 0)
      && (o == DivisionByZero ==> l' == l.(cash := l.cash - l.prices[t] * q as real))
      && (o.Refused? || o == DivisionByZero || o == Bought(q, t))
      && (o.Bought? ==>
            && l'.cash == l.cash - l.prices[t] * q as real
            && l'.prices == l.prices
            && l'.holdings.Keys == l.holdings.Keys + {t}
            && (forall u :: u in l.holdings && u != t ==> l'.holdings[u] == l.holdings[u])
            && l'.holdings[t].shares == (if t in l.holdings then l.holdings[t].shares else 0) + q
            && l'.holdings[t].avgPrice * l'.holdings[t].shares as real
               == CostTerm(l)(t) + l.prices[t] * q as real
            && (t !in l.holdings ==> l'.holdings[t] == Holding(q, l.prices[t])))
  {
    var (l', o) := BuyEffect(l, t, q);
    if o.Bought? && t in l.holdings {
      var e := l.holdings[t];
      DivTimes(e.avgPrice * e.shares as real + l.prices[t] * q as real, (e.shares + q) as real);
    }
  }

  lemma DivTimes(x: real, n: real)
    requires n != 0.0
    ensures x / n * n == x
  {
  }

  /**
   * A sell is refused, leaving the account as it was, exactly when no price
   * is known or fewer shares are held than asked for. Otherwise the
   * proceeds join the cash, the position shrinks by the quantity and is
   * removed when it reaches zero; nothing else changes.
   */
  lemma SellCases(l: Ledger, t: string, q: int)
    ensures var (l', o) := SellEffect(l, t, q);
      && (o == Refused(NoPriceToSell) <==> t !in l.prices)
      && (o == Refused(NotEnoughShares) <==> t in l.prices && (t !in l.holdings || l.holdings[t].shares < q))
      && (o.Refused? ==> l' == l)
      && (o.Refused? || o == Sold(q, t))
      && (o.Sold? ==>
            && l'.cash == l.cash + l.prices[t] * q as real
            && l'.prices == l.prices
            && (t in l'.holdings <==> l.holdings[t].shares != q)
            && (t in l'.holdings ==> l'.holdings[t] == l.holdings[t].(shares := l.holdings[t].shares - q))
            && (forall u :: u != t ==> (u in l'.holdings <==> u in l.holdings))
            && (forall u :: u in l.holdings && u != t ==> l'.holdings[u] == l.holdings[u]))
  {
  }

  /** Shares of `t` in the ledger, zero when not held. */
  function SharesOf(l: Ledger, t: string): int
  {
    if t in l.holdings then l.holdings[t].shares else 0
  }

  /** The portfolio value is the value of the position in `t` plus that of the others. */
  lemma ValueSplit(l: Ledger, t: string)
    requires t in l.prices
    ensures PortfolioValue(l) == SharesOf(l, t) as real * l.prices[t] + SumOver(l.holdings.Keys - {t}, ValueTerm(l))
  {
    if t in l.holdings {
      SumOverRemove(l.holdings.Keys, ValueTerm(l), t);
    } else {
      assert l.holdings.Keys - {t} == l.holdings.Keys;
    }
  }

  /**
   * Changing only the position in `t`, whose price is known, changes the
   * portfolio value by the change in shares times that price.
   */
  lemma ValueShift(l: Ledger, l': Ledger, t: string)
    requires t in l.prices && l'.prices == l.prices
    requires l'.holdings.Keys - {t} == l.holdings.Keys - {t}
    requires forall u :: u in l.holdings && u != t ==> u in l'.holdings && l'.holdings[u] == l.holdings[u]
    ensures PortfolioValue(l') == PortfolioValue(l) + (SharesOf(l', t) - SharesOf(l, t)) as real * l.prices[t]
  {
    var k := l.holdings.Keys - {t};
    var p := l.prices[t];
    forall u | u in k ensures ValueTerm(l)(u) == ValueTerm(l')(u) { }
    SumOverExt(k, ValueTerm(l), ValueTerm(l'));
    ValueSplit(l, t);
    ValueSplit(l', t);
    assert (SharesOf(l', t) - SharesOf(l, t)) as real * p == SharesOf(l', t) as real * p - SharesOf(l, t) as real * p;
  }

  /** A successful buy at the last price swaps cash for shares of the same market value. */
  lemma BuyKeepsTotalValue(l: Ledger, t: string, q: int)
    requires BuyEffect(l, t, q).1.Bought?
    ensures TotalValue(BuyEffect(l, t, q).0) == TotalValue(l)
  {
    var l' := BuyEffect(l, t, q).0;
    BuyCases(l, t, q);
    assert SharesOf(l', t) == SharesOf(l, t) + q;
    ValueShift(l, l', t);
  }

  /** A successful sell at the last price swaps shares for cash of the same market value. */
  lemma SellKeepsTotalValue(l: Ledger, t: string, q: int)
    requires SellEffect(l, t, q).1.Sold?
    ensures TotalValue(SellEffect(l, t, q).0) == TotalValue(l)
  {
    var l' := SellEffect(l, t, q).0;
    SellCases(l, t, q);
    assert SharesOf(l', t) == SharesOf(l, t) - q;
    ValueShift(l, l', t);
  }

  /** Buying a ticker not held and selling the same quantity back restores the account exactly. */
  lemma BuyThenSellRestores(l: Ledger, t: string, q: int)
    requires t !in l.holdings && q != 0
    requires BuyEffect(l, t, q).1.Bought?
    ensures SellEffect(BuyEffect(l, t, q).0, t, q) == (l, Sold(q, t))
  {
    var l' := BuyEffect(l, t, q).0;
    assert l'.holdings == l.holdings[t := Holding(q, l.prices[t])];
    assert l'.holdings - {t} == l.holdings;
    var (l'', o) := SellEffect(l', t, q);
    assert l''.cash == l.cash;
    assert l''.holdings == l.holdings;
    assert l''.prices == l.prices;
    assert o == Sold(q, t);
  }

  // ---------------------------------------------------------------- the account

  class PortfolioManager {
    var cash: real
    var holdings: map<string, Holding>
    var lastKnownPrices: map<string, real>
    var valueHistory: seq<HistoryEntry>

    ghost predicate Valid()
      reads this
    {
      1 <= |valueHistory| <= HistoryLimit + 1
    }

    function Books(): Ledger
      reads this
    {
      Ledger(cash, holdings, lastKnownPrices)
    }

    /** The account is created in its reset state; `now` is the creation time. */
    constructor (now: string)
      ensures Valid()
      ensures cash == InitialCash && holdings == map[] && lastKnownPrices == map[]
      ensures valueHistory == [HistoryEntry(now, InitialCash)]
    {
      cash := InitialCash;
      holdings := map[];
      lastKnownPrices := map[];
      valueHistory := [HistoryEntry(now, InitialCash)];
    }

    /** `reset`: the starting cash, no positions, no prices, one history point at `now`. */
    method Reset(now: string)
      modifies this
      ensures Valid()
      ensures cash == InitialCash && holdings == map[] && lastKnownPrices == map[]
      ensures valueHistory == [HistoryEntry(now, InitialCash)]
    {
      cash := InitialCash;
      holdings := map[];
      lastKnownPrices := map[];
      valueHistory := [HistoryEntry(now, InitialCash)];
    }

    /**
     * The valuation loop of `get_state`: every position valued at its
     * market price, summed, plus the cash.
     */
    method Valuation() returns (s: PortfolioState)
      ensures s.cash == cash
      ensures s.holdings == Enriched(Books())
      ensures s.portfolioValue == PortfolioValue(Books())
      ensures s.totalValue == TotalValue(Books())
    {
      var l := Books();
      var value := 0.0;
      var enriched: map<string, EnrichedHolding> := map[];
      var todo := holdings.Keys;
      while todo != {}
        invariant todo <= holdings.Keys
        invariant value == SumOver(holdings.Keys - todo, ValueTerm(l))
        invariant enriched == map t | t in holdings.Keys - todo :: Enriched(l)[t]
        decreases todo
      {
        var t :| t in todo;
        var data := holdings[t];
        var currentPrice := if t in lastKnownPrices then lastKnownPrices[t] else data.avgPrice;
        SumOverAdd(holdings.Keys - todo, ValueTerm(l), t);
        assert holdings.Keys - todo + {t} == holdings.Keys - (todo - {t});
        value := value + data.shares as real * currentPrice;
        enriched := enriched[t := EnrichedHolding(data.shares, data.avgPrice, currentPrice)];
        todo := todo - {t};
      }
      assert holdings.Keys - todo == holdings.Keys;
      s := PortfolioState(cash, enriched, value, cash + value);
    }

    /** `get_state`: the valuation, recording a history point when a timestamp is given. */
    method GetState(timestamp: Option<string>) returns (s: PortfolioState)
      requires Valid()
      modifies this`valueHistory
      ensures Valid()
      ensures s.cash == cash && s.holdings == Enriched(Books())
      ensures s.portfolioValue == PortfolioValue(Books()) && s.totalValue == TotalValue(Books())
      ensures valueHistory == Recorded(old(valueHistory), timestamp, s.totalValue)
    {
      s := Valuation();
      if Records(timestamp) {
        if |valueHistory| > HistoryLimit {
          valueHistory := valueHistory[..1] + valueHistory[2..];
        }
        valueHistory := valueHistory + [HistoryEntry(timestamp.value, s.totalValue)];
      }
    }

    /** `update_prices`: every tick of the batch, in order, sets its ticker's last price. */
    method UpdatePrices(ticks: seq<DataLoader.Tick>)
      modifies this`lastKnownPrices
      ensures lastKnownPrices == WithTicks(old(lastKnownPrices), ticks)
    {
      for i := 0 to |ticks|
        invariant lastKnownPrices == WithTicks(old(lastKnownPrices), ticks[..i])
      {
        assert ticks[..i + 1][..i] == ticks[..i];
        lastKnownPrices := lastKnownPrices[ticks[i].ticker := ticks[i].price];
      }
      assert ticks[..|ticks|] == ticks;
    }

    /** `buy`, step by step as the source does it. */
    method Buy(ticker: string, quantity: int) returns (outcome: TradeOutcome)
      modifies this`cash, this`holdings
      ensures (Books(), outcome) == BuyEffect(old(Books()), ticker, quantity)
    {
      ghost var before := Books();
      if ticker !in lastKnownPrices {
        return Refused(NoPriceToBuy);
      }
      var price := lastKnownPrices[ticker];
      var cost := Cost(price, quantity);
      if cash < cost {
        return Refused(NotEnoughCash);
      }
      assert BuyEffect(before, ticker, quantity) == Debited(before, ticker, quantity, cost);
      cash := cash - cost;
      if ticker in holdings {
        var existing := holdings[ticker];
        var oldTotalCost := existing.avgPrice * existing.shares as real;
        var newTotalShares := existing.shares + quantity;
        var newTotalCost := oldTotalCost + cost;
        if newTotalShares == 0 {
          return DivisionByZero;
        }
        var newAvg := newTotalCost / newTotalShares as real;
        assert Holding(newTotalShares, newAvg) == AveragedIn(existing, quantity, cost);
        holdings := holdings[ticker := Holding(newTotalShares, newAvg)];
      } else {
        holdings := holdings[ticker := Holding(quantity, price)];
      }
      return Bought(quantity, ticker);
    }

    /** `sell`, step by step as the source does it. */
    method Sell(ticker: string, quantity: int) returns (outcome: TradeOutcome)
      modifies this`cash, this`holdings
      ensures (Books(), outcome) == SellEffect(old(Books()), ticker, quantity)
    {
      if ticker !in lastKnownPrices {
        return Refused(NoPriceToSell);
      }
      var price := lastKnownPrices[ticker];
      if ticker !in holdings || holdings[ticker].shares < quantity {
        return Refused(NotEnoughShares);
      }
      cash := cash + price * quantity as real;
      ghost var before := holdings;
      holdings := holdings[ticker := holdings[ticker].(shares := holdings[ticker].shares - quantity)];
      if holdings[ticker].shares == 0 {
        holdings := holdings - {ticker};
        assert holdings == before - {ticker};
      }
      return Sold(quantity, ticker);
    }
  }
}
