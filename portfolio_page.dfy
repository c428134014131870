/**
 * The portfolio page: the holdings table with each row's market value and
 * profit, the total profit, the previous closes it hands to the movers
 * card, and the sell dialog with its checks before a sell is sent.
 */
module PortfolioPage {
  import opened Wrappers
  import Js
  import Text
  import LiveData
  import TopMovers

  /**
   * `safeNumber`: 0 for null or undefined; a string loses every `$`, `,`
   * and `%`, is trimmed and parsed; a NaN result is 0.
   */
  function SafeNumber(v: Js.JsVal, parseFloat: string -> Js.Number): (r: real)
    ensures v.Num? ==> r == v.n
    ensures v.Null? || v.Undefined? ==> r == 0.0
    ensures v.Str? ==> r == (match parseFloat(Text.Trim(Undecorated(v.s))) case Finite(x) => x case NaN => 0.0)
  {
    match v
    case Undefined => 0.0
    case Null => 0.0
    case Num(n) => n
    case Str(s) => CleanNumber(s, parseFloat)
  }

  /** A text cell: undecorated, trimmed and parsed, with NaN read as 0. */
  function CleanNumber(s: string, parseFloat: string -> Js.Number): real
  {
    match parseFloat(Text.Trim(Undecorated(s)))
    case Finite(x) => x
    case NaN => 0.0
  }

  predicate Decoration(c: char) { c == '$' || c == ',' || c == '%' }

  /** `replace(/[$,%]/g, '')`. */
  function Undecorated(s: string): string
  {
    if |s| == 0 then [] else (if Decoration(s[0]) then [] else [s[0]]) + Undecorated(s[1..])
  }

  /** The cleaned text has no decoration left and every other character, in order. */
  lemma {:induction false} UndecoratedRules(a: string, b: string)
    ensures Undecorated(a + b) == Undecorated(a) + Undecorated(b)
    ensures forall c :: c in Undecorated(a) <==> c in a && !Decoration(c)
  {
    if |a| > 0 {
      UndecoratedRules(a[1..], b);
      assert (a + b)[1..] == a[1..] + b;
      assert a == [a[0]] + a[1..];
    } else {
      assert a + b == b;
    }
  }

  /** A holding as the page receives it. */
  datatype HoldingEntry = HoldingEntry(ticker: string, shares: Js.JsVal, avgPrice: Js.JsVal, marketPrice: Js.JsVal)

  /** A table row. */
  datatype Row = Row(
    id: string,
    ticker: string,
    shares: real,
    avgPrice: real,
    marketPrice: real,
    marketValue: real,
    totalPnl: real,
    totalPnlPercent: real)

  /** One row: every number made safe, then value, cost, profit and its percentage of the cost. */
  function RowOf(h: HoldingEntry, parseFloat: string -> Js.Number): Row
  {
    var shares := SafeNumber(h.shares, parseFloat);
    var avg := SafeNumber(h.avgPrice, parseFloat);
    var price := SafeNumber(h.marketPrice, parseFloat);
    var marketValue := price * shares;
    var costBasis := avg * shares;
    var pnl := marketValue - costBasis;
    Row(h.ticker, h.ticker, shares, avg, price, marketValue, pnl, if costBasis > 0.0 then pnl / costBasis * 100.0 else 0.0)
  }

  /** `holdingsRows`. */
  function Rows(holdings: seq<HoldingEntry>, parseFloat: string -> Js.Number): (rows: seq<Row>)
    ensures |rows| == |holdings|
    ensures forall i :: 0 <= i < |holdings| ==> rows[i] == RowOf(holdings[i], parseFloat)
  {
    seq(|holdings|, i requires 0 <= i < |holdings| => RowOf(holdings[i], parseFloat))
  }

  /**
   * A row is keyed by its ticker; its percentage, applied back to a positive
   * cost basis, gives its profit, and has the profit's sign; a price at the
   * average cost is no profit at all.
   */
  lemma RowRules(h: HoldingEntry, parseFloat: string -> Js.Number)
    ensures var r := RowOf(h, parseFloat);
      var costBasis := r.avgPrice * r.shares;
      && r.id == h.ticker && r.ticker == h.ticker
      && r.totalPnl == r.marketValue - costBasis
      && (costBasis > 0.0 ==> r.totalPnlPercent * costBasis / 100.0 == r.totalPnl)
      && (costBasis > 0.0 ==> (r.totalPnlPercent > 0.0 <==> r.marketValue > costBasis))
      && (costBasis <= 0.0 ==> r.totalPnlPercent == 0.0)
      && (r.marketPrice == r.avgPrice ==> r.totalPnl == 0.0 && r.totalPnlPercent == 0.0)
  {
    var r := RowOf(h, parseFloat);
    var costBasis := r.avgPrice * r.shares;
    if costBasis > 0.0 {
      var q := r.totalPnl / costBasis;
      assert q * costBasis == r.totalPnl;
      assert r.totalPnlPercent == q * 100.0;
      assert q > 0.0 <==> r.totalPnl > 0.0;
    }
  }

  /** `totalPnlValue`: the rows' profits added up from the first. */
  function TotalPnl(rows: seq<Row>): real
  {
    if |rows| == 0 then 0.0 else TotalPnl(rows[..|rows| - 1]) + rows[|rows| - 1].totalPnl
  }

  function TotalValue(rows: seq<Row>): real
  {
    if |rows| == 0 then 0.0 else TotalValue(rows[..|rows| - 1]) + rows[|rows| - 1].marketValue
  }

  function TotalCost(rows: seq<Row>): real
  {
    if |rows| == 0 then 0.0 else TotalCost(rows[..|rows| - 1]) + rows[|rows| - 1].avgPrice * rows[|rows| - 1].shares
  }

  /** The total profit is the table's total market value less its total cost basis. */
  lemma {:induction false} TotalPnlIsValueLessCost(holdings: seq<HoldingEntry>, parseFloat: string -> Js.Number)
    ensures var rows := Rows(holdings, parseFloat);
      TotalPnl(rows) == TotalValue(rows) - TotalCost(rows)
  {
    var rows := Rows(holdings, parseFloat);
    ValueLessCost(rows);
  }

  lemma {:induction false} ValueLessCost(rows: seq<Row>)
    requires forall i :: 0 <= i < |rows| ==> rows[i].totalPnl == rows[i].marketValue - rows[i].avgPrice * rows[i].shares
    ensures TotalPnl(rows) == TotalValue(rows) - TotalCost(rows)
  {
    if |rows| > 0 {
      var init := rows[..|rows| - 1];
      assert forall i :: 0 <= i < |init| ==> init[i] == rows[i];
      ValueLessCost(init);
    }
  }

  /** `stock.price - stock.change`: NaN when either is missing. */
  function CloseOf(e: LiveData.Entry): Js.Number
  {
    if e.tick.price.Some? && e.tick.change.Some? then Js.Finite(e.tick.price.value - e.tick.change.value) else Js.NaN
  }

  /** `prevDayCloses`: `Object.fromEntries` over the store's values, a later ticker overwriting an earlier one. */
  function PrevDayCloses(values: seq<LiveData.Entry>): map<string, Js.Number>
  {
    if |values| == 0 then map[]
    else PrevDayCloses(values[..|values| - 1])[values[|values| - 1].tick.ticker := CloseOf(values[|values| - 1])]
  }

  /**
   * With one quote per ticker, each quote's ticker maps to its price less
   * its change, and the movers card then counts that ticker as having a
   * previous close exactly when both are known and differ.
   */
  lemma {:induction false} PrevDayClosesRule(values: seq<LiveData.Entry>, i: int)
    requires 0 <= i < |values|
    requires forall j :: i < j < |values| ==> values[j].tick.ticker != values[i].tick.ticker
    ensures var closes := PrevDayCloses(values);
      && values[i].tick.ticker in closes
      && closes[values[i].tick.ticker] == CloseOf(values[i])
      && (TopMovers.HasClose(closes, values[i].tick.ticker) <==>
            values[i].tick.price.Some? && values[i].tick.change.Some? && values[i].tick.price.value != values[i].tick.change.value)
    decreases |values|
  {
    if i < |values| - 1 {
      var init := values[..|values| - 1];
      assert init[i] == values[i];
      PrevDayClosesRule(init, i);
    }
  }

  /** The position the sell dialog is about. */
  datatype Position = Position(ticker: string, shares: real)

  /** What the server says to a sell: a reply, or a failed request with the error body's message if any. */
  datatype SellReply = Replied(success: bool, message: string) | Failed(errorMessage: Option<string>)

  /** The sell request sent. */
  datatype SellRequest = SellRequest(ticker: string, quantity: Js.Number)

  const TooMany: string := "Cannot sell more shares than you own"

  /** `x <= 0` and `x > y` on JavaScript numbers: false whenever a side is NaN. */
  predicate AtMostZero(n: Js.Number) { n.Finite? && n.v <= 0.0 }

  predicate Exceeds(n: Js.Number, limit: real) { n.Finite? && n.v > limit }

  /**
   * The Sell button's `disabled`: while a sell is in flight, with an empty
   * quantity, or when the parsed quantity is at most 0 or above the shares
   * held (0 without a position).
   */
  predicate SellDisabled(loading: bool, quantity: string, position: Option<Position>, parseInt: string -> Js.Number)
  {
    loading || quantity == "" || AtMostZero(parseInt(quantity))
    || Exceeds(parseInt(quantity), if position.Some? && position.value.shares != 0.0 then position.value.shares else 0.0)
  }

  /** A quantity beyond the shares held disables the button, and so does any quantity without a position. */
  lemma SellDisabledRules(loading: bool, quantity: string, position: Option<Position>, parseInt: string -> Js.Number)
    ensures position.Some? && Exceeds(parseInt(quantity), position.value.shares) ==> SellDisabled(loading, quantity, position, parseInt)
    ensures position.None? && parseInt(quantity).Finite? ==> SellDisabled(loading, quantity, position, parseInt)
    ensures (!loading && quantity != "" && position.Some? && parseInt(quantity).Finite?
             && 0.0 < parseInt(quantity).v <= position.value.shares) ==> !SellDisabled(loading, quantity, position, parseInt)
  {
  }

  /** The sell dialog's state. */
  class SellDialog {
    var open: bool
    var position: Option<Position>
    var quantity: string
    var loading: bool

    constructor ()
      ensures !open && position == None && quantity == "" && !loading
    {
      open := false;
      position := None;
      quantity := "";
      loading := false;
    }

    /** `handleSellPosition`: the dialog opens on the position with its share count as the quantity. */
    method Start(p: Position, sharesText: string)
      modifies this
      ensures open && position == Some(p) && quantity == sharesText && loading == old(loading)
    {
      position := Some(p);
      quantity := sharesText;
      open := true;
    }

    /**
     * `handleSellConfirm`: nothing is sent without a position, with an
     * empty quantity or one at most 0 (`sellQuantity <= 0` reads the text
     * as a number), and a parsed quantity above the shares held only warns.
     * Otherwise the sell is sent; a success closes and clears the dialog
     * and asks for the history again, a failure warns and leaves it open.
     */
    method Confirm(toNumber: string -> Js.Number, parseInt: string -> Js.Number, reply: SellReply)
      returns (request: Option<SellRequest>, notice: Option<string>, refresh: bool)
      modifies this
      ensures var blocked := old(position).None? || old(quantity) == "" || AtMostZero(toNumber(old(quantity)));
        && (blocked ==> request == None && notice == None && !refresh)
        && (!blocked && Exceeds(parseInt(old(quantity)), old(position).value.shares) ==>
              request == None && notice == Some(TooMany) && !refresh)
        && (blocked || Exceeds(parseInt(old(quantity)), old(position).value.shares) ==>
              open == old(open) && position == old(position) && quantity == old(quantity) && loading == old(loading))
        && (!blocked && !Exceeds(parseInt(old(quantity)), old(position).value.shares) ==>
              && request == Some(SellRequest(old(position).value.ticker, parseInt(old(quantity))))
              && !loading
              && (refresh <==> reply.Replied? && reply.success)
              && (refresh ==> !open && position == None && quantity == "" && notice == None)
              && (!refresh ==> open == old(open) && position == old(position) && quantity == old(quantity))
              && (reply.Replied? && !reply.success ==> notice == Some("Sell failed: " + reply.message))
              && (reply.Failed? ==> notice == Some("Sell failed: " + (if Js.TruthyStr(reply.errorMessage) then reply.errorMessage.value else "Server error"))))
    {
      request, notice, refresh := None, None, false;
      if position.None? || quantity == "" || AtMostZero(toNumber(quantity)) {
        return;
      }
      var q := parseInt(quantity);
      if Exceeds(q, position.value.shares) {
        notice := Some(TooMany);
        return;
      }
      loading := true;
      request := Some(SellRequest(position.value.ticker, q));
      match reply {
        case Replied(success, message) =>
          if success {
            open := false;
            position := None;
            quantity := "";
            refresh := true;
          } else {
            notice := Some("Sell failed: " + message);
          }
        case Failed(message) =>
          notice := Some("Sell failed: " + (if Js.TruthyStr(message) then message.value else "Server error"));
      }
      loading := false;
    }

    /** `handleSellCancel`. */
    method Cancel()
      modifies this
      ensures !open && position == None && quantity == "" && loading == old(loading)
    {
      open := false;
      position := None;
      quantity := "";
    }
  }
}
