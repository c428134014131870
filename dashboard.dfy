/**
 * The dashboard's watchlist: the store's quotes in ticker order, each with
 * a direction against the previous price, its change colour, its spread,
 * and a pin button; and the gate that holds the page back until the
 * socket is connected and a portfolio has arrived.
 */
module Dashboard {
  import opened Wrappers
  import Js
  import Text
  import Sorting
  import LiveData
  import Pinned

  /** The page shown: the waiting view, or the dashboard itself. */
  datatype Page = Connecting | Ready

  /** The price's move since the previous quote. */
  datatype Move = Up | Down | Flat

  /** The colour of the change chip. */
  datatype Tone = Success | Error | Neutral

  /** `!isConnected || !portfolio` shows only the waiting view (a missing or null portfolio is falsy). */
  function Gate<P>(isConnected: bool, portfolio: Option<P>): (page: Page)
    ensures page == Ready <==> isConnected && portfolio.Some?
  {
    if !isConnected || portfolio.None? then Connecting else Ready
  }

  /** `a.ticker.localeCompare(b.ticker) < 0`, read as code-unit order. */
  predicate ByTicker(a: LiveData.Entry, b: LiveData.Entry)
  {
    Text.StrLt(a.tick.ticker, b.tick.ticker)
  }

  /** The watchlist rows: the store's values sorted by ticker. */
  function Watchlist(values: seq<LiveData.Entry>): seq<LiveData.Entry>
  {
    Sorting.SortBy(values, ByTicker)
  }

  lemma ByTickerOrders()
    ensures Sorting.StrictWeakOrder(ByTicker)
  {
    forall a: LiveData.Entry ensures !ByTicker(a, a) {
      Text.StrLtIrreflexive(a.tick.ticker);
    }
    forall a: LiveData.Entry, b: LiveData.Entry, c: LiveData.Entry | ByTicker(a, b) && ByTicker(b, c)
      ensures ByTicker(a, c)
    {
      Text.StrLtTransitive(a.tick.ticker, b.tick.ticker, c.tick.ticker);
    }
    forall a: LiveData.Entry, b: LiveData.Entry, c: LiveData.Entry | !ByTicker(a, b) && !ByTicker(b, c)
      ensures !ByTicker(a, c)
    {
      Text.StrLeTransitive(a.tick.ticker, b.tick.ticker, c.tick.ticker);
    }
  }

  /** The rows are the store's quotes, each once, in ascending ticker order. */
  lemma WatchlistSorted(values: seq<LiveData.Entry>)
    ensures var rows := Watchlist(values);
      && multiset(rows) == multiset(values)
      && forall i, j :: 0 <= i < j < |rows| ==> !Text.StrLt(rows[j].tick.ticker, rows[i].tick.ticker)
  {
    ByTickerOrders();
    Sorting.SortBySorted(values, ByTicker);
  }

  /**
   * The store's values come in insertion order, but with one quote per
   * ticker the rows do not depend on it: any two orders of the same quotes
   * give the same watchlist.
   */
  lemma WatchlistIgnoresOrder(values: seq<LiveData.Entry>, others: seq<LiveData.Entry>)
    requires multiset(values) == multiset(others)
    requires forall i, j :: 0 <= i < j < |values| ==> values[i].tick.ticker != values[j].tick.ticker
    ensures Watchlist(values) == Watchlist(others)
  {
    ByTickerOrders();
    var s, t := Watchlist(values), Watchlist(others);
    Sorting.SortBySorted(values, ByTicker);
    Sorting.SortBySorted(others, ByTicker);
    forall x, y | x in s && y in s && x != y ensures ByTicker(x, y) || ByTicker(y, x) {
      assert x in multiset(values) && y in multiset(values);
      var i :| 0 <= i < |values| && values[i] == x;
      var j :| 0 <= j < |values| && values[j] == y;
      assert i != j;
      assert x.tick.ticker != y.tick.ticker;
      Text.StrLtTotal(x.tick.ticker, y.tick.ticker);
    }
    Sorting.SortedUnique(s, t, ByTicker);
  }

  /**
   * `price - prevPrice` compared with 0: a missing price on either side
   * gives NaN, which is neither above nor below.
   */
  function Direction(e: LiveData.Entry): Move
  {
    var price, prev := e.tick.price, e.prevPrice;
    if price.Some? && prev.Some? && price.value - prev.value > 0.0 then Up
    else if price.Some? && prev.Some? && price.value - prev.value < 0.0 then Down
    else Flat
  }

  /** Up exactly when the price rose, down exactly when it fell, flat when equal or either is missing. */
  lemma DirectionRules(e: LiveData.Entry)
    ensures Direction(e) == Up <==> e.tick.price.Some? && e.prevPrice.Some? && e.tick.price.value > e.prevPrice.value
    ensures Direction(e) == Down <==> e.tick.price.Some? && e.prevPrice.Some? && e.tick.price.value < e.prevPrice.value
    ensures e.prevPrice.None? ==> Direction(e) == Flat
  {
  }

  /** The change chip: success above 0, error below, neither when 0 or missing. */
  function ChangeTone(change: Option<real>): (t: Tone)
    ensures t == Success <==> change.Some? && change.value > 0.0
    ensures t == Error <==> change.Some? && change.value < 0.0
  {
    if change.Some? && change.value > 0.0 then Success
    else if change.Some? && change.value < 0.0 then Error
    else Neutral
  }

  /** The older page's change cell: success when `change >= 0`, error otherwise, a missing change included. */
  function LegacyChangeTone(change: Option<real>): (t: Tone)
    ensures t != Neutral
    ensures t == Success <==> change.Some? && change.value >= 0.0
  {
    if change.Some? && change.value >= 0.0 then Success else Error
  }

  /** The older page's flash: green, red or none by the same comparison. */
  function LegacyFlash(e: LiveData.Entry): Move
  {
    var price, prev := e.tick.price, e.prevPrice;
    var up := price.Some? && prev.Some? && price.value - prev.value > 0.0;
    var down := price.Some? && prev.Some? && price.value - prev.value < 0.0;
    if down then Down else if up then Up else Flat
  }

  /** Both pages read a price move alone; they differ on the change colour only at 0 and for a missing change. */
  lemma PagesAgreeOnMoves(e: LiveData.Entry)
    ensures LegacyFlash(e) == Direction(e)
    ensures e.tick.change.Some? && e.tick.change.value != 0.0 ==>
      LegacyChangeTone(e.tick.change) == ChangeTone(e.tick.change)
    ensures ChangeTone(Some(0.0)) == Neutral && LegacyChangeTone(Some(0.0)) == Success
    ensures ChangeTone(None) == Neutral && LegacyChangeTone(None) == Error
  {
  }

  /** `(ask || 0) - (bid || 0)`. */
  function Spread(t: LiveData.Tick): real
  {
    Js.OrZero(t.ask) - Js.OrZero(t.bid)
  }

  /** The spread is ask minus bid, with a missing side read as 0. */
  lemma SpreadRules(t: LiveData.Tick)
    ensures t.ask.Some? && t.bid.Some? ==> Spread(t) == t.ask.value - t.bid.value
    ensures t.ask.None? ==> Spread(t) == -Js.OrZero(t.bid)
    ensures t.bid.None? ==> Spread(t) == Js.OrZero(t.ask)
  {
  }

  /** The pin button: highlighted and titled "Unpin" for a pinned ticker, "Pin to Watchlist" otherwise. */
  function PinButton(pinned: seq<string>, ticker: string): (bool, string)
  {
    if Pinned.IsPinned(pinned, ticker) then (true, "Unpin") else (false, "Pin to Watchlist")
  }

  /** Clicking the pin button flips its look for that ticker and leaves every other row's as it was. */
  lemma PinButtonFlips(pinned: seq<string>, ticker: string, other: string)
    ensures PinButton(Pinned.Toggle(pinned, ticker), ticker).0 == !PinButton(pinned, ticker).0
    ensures other != ticker ==> PinButton(Pinned.Toggle(pinned, ticker), other) == PinButton(pinned, other)
  {
    Pinned.ToggleMembers(pinned, ticker);
  }
}
