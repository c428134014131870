/**
 * The older portfolio page: rows that spread each holding under its
 * ticker, column getters for market value and profit, and the total
 * profit. It reads the server's numbers as they come, with a missing
 * market price read as 0.
 */
module PortfolioPageLegacy {
  import opened Wrappers
  import Js
  import PortfolioPage

  /** A holding as the server sends it; a missing (or zero) market price is `None`. */
  datatype Holding = Holding(shares: real, avgPrice: real, marketPrice: Option<real>)

  /** A row: `id` is the ticker, followed by every field of the holding. */
  datatype Row = Row(id: string, ticker: string, holding: Holding)

  /** `formatNumber`: a number as it is, anything else 0. */
  function FormatNumber(v: Js.JsVal): (r: real)
    ensures !v.Num? ==> r == 0.0
    ensures v.Num? ==> r == v.n
  {
    Js.NumberOrZero(v)
  }

  function Rows(holdings: seq<(string, Holding)>): (rows: seq<Row>)
    ensures |rows| == |holdings|
    ensures forall i :: 0 <= i < |rows| ==>
      rows[i].id == holdings[i].0 && rows[i].ticker == holdings[i].0 && rows[i].holding == holdings[i].1
  {
    seq(|holdings|, i requires 0 <= i < |holdings| => Row(holdings[i].0, holdings[i].0, holdings[i].1))
  }

  /** The market value column: `(market_price || 0) * shares`. */
  function MarketValue(r: Row): real
  {
    Js.OrZero(r.holding.marketPrice) * r.holding.shares
  }

  function CostBasis(r: Row): real
  {
    r.holding.avgPrice * r.holding.shares
  }

  /** The percentage column: 0 for a zero cost basis, otherwise profit over cost basis. */
  function PnlPercent(r: Row): real
  {
    var cost := CostBasis(r);
    if cost == 0.0 then 0.0 else (MarketValue(r) - cost) / cost * 100.0
  }

  /** `totalPnlValue`: each row's value less its cost, added up from the first. */
  function TotalPnl(rows: seq<Row>): real
  {
    if |rows| == 0 then 0.0
    else
      var last := rows[|rows| - 1];
      TotalPnl(rows[..|rows| - 1]) + (MarketValue(last) - CostBasis(last))
  }

  /** The holding as the current page receives it. */
  function AsEntry(ticker: string, h: Holding): PortfolioPage.HoldingEntry
  {
    PortfolioPage.HoldingEntry(ticker, Js.Num(h.shares), Js.Num(h.avgPrice),
      if h.marketPrice.Some? then Js.Num(h.marketPrice.value) else Js.Undefined)
  }

  function Entries(holdings: seq<(string, Holding)>): (entries: seq<PortfolioPage.HoldingEntry>)
    ensures |entries| == |holdings|
    ensures forall i :: 0 <= i < |holdings| ==> entries[i] == AsEntry(holdings[i].0, holdings[i].1)
  {
    seq(|holdings|, i requires 0 <= i < |holdings| => AsEntry(holdings[i].0, holdings[i].1))
  }

  /** One holding: the same profit on both pages, and the same percentage for a positive cost basis. */
  lemma RowAgrees(ticker: string, h: Holding, parseFloat: string -> Js.Number)
    ensures var r := Row(ticker, ticker, h);
      var current := PortfolioPage.RowOf(AsEntry(ticker, h), parseFloat);
      && MarketValue(r) - CostBasis(r) == current.totalPnl
      && (CostBasis(r) > 0.0 ==> PnlPercent(r) == current.totalPnlPercent)
      && (CostBasis(r) <= 0.0 ==> current.totalPnlPercent == 0.0)
  {
    var e := AsEntry(ticker, h);
    var price := Js.OrZero(h.marketPrice);
    assert PortfolioPage.SafeNumber(e.shares, parseFloat) == h.shares;
    assert PortfolioPage.SafeNumber(e.avgPrice, parseFloat) == h.avgPrice;
    assert PortfolioPage.SafeNumber(e.marketPrice, parseFloat) == price;
    var value, cost := price * h.shares, h.avgPrice * h.shares;
    assert PortfolioPage.RowOf(e, parseFloat) == PortfolioPage.Row(ticker, ticker, h.shares, h.avgPrice, price,
      value, value - cost, if cost > 0.0 then (value - cost) / cost * 100.0 else 0.0);
  }

  /**
   * On the same holdings both pages report the same total profit, and the
   * same percentage wherever the cost basis is positive; for a negative cost
   * basis the older page computes one where the current page shows 0.
   */
  lemma {:induction false} AgreesWithCurrentPage(holdings: seq<(string, Holding)>, parseFloat: string -> Js.Number)
    ensures TotalPnl(Rows(holdings)) == PortfolioPage.TotalPnl(PortfolioPage.Rows(Entries(holdings), parseFloat))
    ensures forall i :: 0 <= i < |holdings| && CostBasis(Rows(holdings)[i]) > 0.0 ==>
      PnlPercent(Rows(holdings)[i]) == PortfolioPage.Rows(Entries(holdings), parseFloat)[i].totalPnlPercent
  {
    forall i | 0 <= i < |holdings|
      ensures CostBasis(Rows(holdings)[i]) > 0.0 ==>
        PnlPercent(Rows(holdings)[i]) == PortfolioPage.Rows(Entries(holdings), parseFloat)[i].totalPnlPercent
    {
      RowAgrees(holdings[i].0, holdings[i].1, parseFloat);
    }
    if |holdings| > 0 {
      var n := |holdings| - 1;
      var init := holdings[..n];
      AgreesWithCurrentPage(init, parseFloat);
      PrefixRows(holdings, parseFloat);
      RowAgrees(holdings[n].0, holdings[n].1, parseFloat);
    }
  }

  lemma PrefixRows(holdings: seq<(string, Holding)>, parseFloat: string -> Js.Number)
    requires |holdings| > 0
    ensures var n := |holdings| - 1;
      && Rows(holdings)[..n] == Rows(holdings[..n])
      && PortfolioPage.Rows(Entries(holdings), parseFloat)[..n] == PortfolioPage.Rows(Entries(holdings[..n]), parseFloat)
  {
  }

  /** A row that cost nothing shows 0 %; one with a cost shows its profit relative to that cost. */
  lemma PnlPercentRules(r: Row)
    ensures CostBasis(r) == 0.0 ==> PnlPercent(r) == 0.0
    ensures CostBasis(r) != 0.0 ==> PnlPercent(r) * CostBasis(r) / 100.0 == MarketValue(r) - CostBasis(r)
  {
    var cost := CostBasis(r);
    if cost != 0.0 {
      var q := (MarketValue(r) - cost) / cost;
      assert q * cost == MarketValue(r) - cost;
    }
  }
}
