/** The performance summary the reporting endpoint serves. */
module Reporting {
  import opened Sums
  import opened PortfolioLedger

  datatype Summary = Summary(
    totalInvestedCapital: real,
    currentMarketValue: real,
    totalPnl: real,
    pnlToday: real,
    holdings: map<string, EnrichedHolding>,
    portfolioHistory: seq<HistoryEntry>)

  /** A previous close counts only when it is known and not zero. */
  predicate HasClose(closes: map<string, real>, t: string)
  {
    t in closes && closes[t] != 0.0
  }

  /** Today's profit on each position: the move since the previous close, times the shares. */
  function TodayTerm(l: Ledger, closes: map<string, real>): string -> real
  {
    t => if t in l.holdings && HasClose(closes, t)
         then (MarketPrice(l, t) - closes[t]) * l.holdings[t].shares as real
         else 0.0
  }

  /** The unrealised profit of each position: market value less cost basis. */
  function UnrealisedTerm(l: Ledger): string -> real
  {
    t => if t in l.holdings then l.holdings[t].shares as real * (MarketPrice(l, t) - l.holdings[t].avgPrice) else 0.0
  }

  /**
   * `generate_performance_summary`: the cost basis and today's profit summed
   * over the positions, the market value and total value from the account
   * valuation, total profit measured against the starting cash.
   */
  method GenerateSummary(pm: PortfolioManager, previousCloses: map<string, real>) returns (s: Summary)
    ensures s.totalInvestedCapital == SumOver(pm.holdings.Keys, CostTerm(pm.Books()))
    ensures s.currentMarketValue == PortfolioValue(pm.Books())
    ensures s.totalPnl == TotalValue(pm.Books()) - InitialCash
    ensures s.pnlToday == SumOver(pm.holdings.Keys, TodayTerm(pm.Books(), previousCloses))
    ensures s.holdings == Enriched(pm.Books())
    ensures s.portfolioHistory == pm.valueHistory
  {
    var state := pm.Valuation();
    ghost var l := pm.Books();
    ghost var keys := l.holdings.Keys;
    ghost var done: set<string> := {};
    var invested := 0.0;
    var today := 0.0;
    var todo := state.holdings.Keys;
    while todo != {}
      invariant done + todo == keys && done !! todo
      invariant state.holdings == Enriched(l)
      invariant invested == SumOver(done, CostTerm(l))
      invariant today == SumOver(done, TodayTerm(l, previousCloses))
      decreases todo
    {
      var t :| t in todo;
      var data := state.holdings[t];
      EnrichedTerms(l, previousCloses, t, data);
      SumOverAdd(done, CostTerm(l), t);
      SumOverAdd(done, TodayTerm(l, previousCloses), t);
      invested := invested + data.shares as real * data.avgPrice;
      if t in previousCloses && previousCloses[t] != 0.0 {
        today := today + (data.marketPrice - previousCloses[t]) * data.shares as real;
      }
      todo := todo - {t};
      done := done + {t};
    }
    assert done == keys;
    s := Summary(invested, state.portfolioValue, state.totalValue - InitialCash, today, state.holdings, pm.valueHistory);
  }

  /** The terms of the sums read off the holding `get_state` reports. */
  lemma EnrichedTerms(l: Ledger, closes: map<string, real>, t: string, e: EnrichedHolding)
    requires t in l.holdings && e == Enriched(l)[t]
    ensures && CostTerm(l)(t) == e.shares as real * e.avgPrice
      && TodayTerm(l, closes)(t) == (if HasClose(closes, t) then (e.marketPrice - closes[t]) * e.shares as real else 0.0)
  {
  }

  /** Market value less invested capital is the unrealised profit summed over the positions. */
  lemma MarketValueLessInvested(l: Ledger)
    ensures PortfolioValue(l) - SumOver(l.holdings.Keys, CostTerm(l)) == SumOver(l.holdings.Keys, UnrealisedTerm(l))
  {
    forall t | t in l.holdings.Keys
      ensures UnrealisedTerm(l)(t) == ValueTerm(l)(t) - CostTerm(l)(t)
    {
      var n := l.holdings[t].shares as real;
      assert n * (MarketPrice(l, t) - l.holdings[t].avgPrice) == n * MarketPrice(l, t) - n * l.holdings[t].avgPrice;
    }
    SumOverSub(l.holdings.Keys, ValueTerm(l), CostTerm(l), UnrealisedTerm(l));
  }

  /** Today's profit is zero when every known previous close equals the price a position is valued at. */
  lemma FlatDayHasNoPnl(l: Ledger, closes: map<string, real>)
    requires forall t :: t in l.holdings && HasClose(closes, t) ==> closes[t] == MarketPrice(l, t)
    ensures SumOver(l.holdings.Keys, TodayTerm(l, closes)) == 0.0
  {
    SumOverZero(l.holdings.Keys, TodayTerm(l, closes));
  }

  /** Trading at the last price moves money between cash and positions and leaves the total profit where it was. */
  lemma TradesKeepTotalPnl(l: Ledger, t: string, q: int)
    ensures BuyEffect(l, t, q).1.Bought? ==> TotalValue(BuyEffect(l, t, q).0) - InitialCash == TotalValue(l) - InitialCash
    ensures SellEffect(l, t, q).1.Sold? ==> TotalValue(SellEffect(l, t, q).0) - InitialCash == TotalValue(l) - InitialCash
  {
    if BuyEffect(l, t, q).1.Bought? {
      BuyKeepsTotalValue(l, t, q);
    }
    if SellEffect(l, t, q).1.Sold? {
      SellKeepsTotalValue(l, t, q);
    }
  }

  /** A reset account shows no profit and no invested capital. */
  lemma ResetAccountSummary(prices: map<string, real>)
    ensures var l := Ledger(InitialCash, map[], prices);
      TotalValue(l) - InitialCash == 0.0 && SumOver(l.holdings.Keys, CostTerm(l)) == 0.0
  {
    var l := Ledger(InitialCash, map[], prices);
    assert l.holdings.Keys == {};
  }
}
