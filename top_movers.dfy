/**
 * Today's movers: each holding's profit or loss since the previous close,
 * the holdings that moved, and the five biggest gains and the five biggest
 * losses. Both component versions compute the same lists.
 */
module TopMovers {
  import opened Wrappers
  import Js
  import Sorting

  /** How many movers each list shows. */
  const ListLength: nat := 5

  /** A holding as the client receives it: its fields may be of any JSON kind. */
  datatype HoldingView = HoldingView(ticker: string, marketPrice: Js.JsVal, shares: Js.JsVal)

  /** A computed mover. */
  datatype Mover = Mover(ticker: string, pnl: real, pnlPercent: real)

  /** What the card shows. */
  datatype View = Awaiting | Lists(gainers: seq<Mover>, losers: seq<Mover>)

  /** `prevDayCloses[ticker]` is truthy: present, a number, and not zero (NaN is falsy). */
  predicate HasClose(closes: map<string, Js.Number>, t: string)
  {
    t in closes && closes[t].Finite? && closes[t].v != 0.0
  }

  /** One holding's mover: profit since the previous close and its percentage of the position then. */
  function MoverOf(h: HoldingView, closes: map<string, Js.Number>): Mover
  {
    var price := Js.NumberOrZero(h.marketPrice);
    var shares := Js.NumberOrZero(h.shares);
    var pnl := if HasClose(closes, h.ticker) then (price - closes[h.ticker].v) * shares else 0.0;
    var pnlPercent :=
      if HasClose(closes, h.ticker) && shares > 0.0 then
        var base := closes[h.ticker].v * shares;
        assert base != 0.0;
        pnl / base * 100.0
      else 0.0;
    Mover(h.ticker, pnl, pnlPercent)
  }

  /** `movers`: every holding's mover, in holdings order, keeping those with a non-zero P&L. */
  function Movers(holdings: seq<HoldingView>, closes: map<string, Js.Number>): seq<Mover>
  {
    if |holdings| == 0 then []
    else
      var m := MoverOf(holdings[0], closes);
      (if m.pnl != 0.0 then [m] else []) + Movers(holdings[1..], closes)
  }

  /** Comes first among the gainers: the larger P&L (`b.pnl - a.pnl` negative). */
  predicate GainsMore(a: Mover, b: Mover) { a.pnl > b.pnl }

  /** Comes first among the losers: the smaller P&L (`a.pnl - b.pnl` negative). */
  predicate LosesMore(a: Mover, b: Mover) { a.pnl < b.pnl }

  function Top(s: seq<Mover>): (r: seq<Mover>)
    ensures |r| <= ListLength
  {
    if |s| <= ListLength then s else s[..ListLength]
  }

  /** `topGainers`: a sorted copy, first five. */
  function TopGainers(movers: seq<Mover>): seq<Mover>
  {
    Top(Sorting.SortBy(movers, GainsMore))
  }

  /** `topLosers`: a sorted copy, first five. */
  function TopLosers(movers: seq<Mover>): seq<Mover>
  {
    Top(Sorting.SortBy(movers, LosesMore))
  }

  /** A list entry is rendered only when its P&L has the list's sign. */
  function Positive(s: seq<Mover>): seq<Mover>
  {
    if |s| == 0 then [] else (if s[0].pnl > 0.0 then [s[0]] else []) + Positive(s[1..])
  }

  function Negative(s: seq<Mover>): seq<Mover>
  {
    if |s| == 0 then [] else (if s[0].pnl < 0.0 then [s[0]] else []) + Negative(s[1..])
  }

  /** The card: waiting without previous closes (a missing or null `prevDayCloses`), else both lists as shown. */
  function Card(holdings: seq<HoldingView>, prevDayCloses: Option<map<string, Js.Number>>): View
  {
    match prevDayCloses
    case None => Awaiting
    case Some(closes) =>
      var movers := Movers(holdings, closes);
      Lists(Positive(TopGainers(movers)), Negative(TopLosers(movers)))
  }

  /**
   * A holding's P&L is price minus previous close, times shares, with a
   * non-number price or share count read as 0, and 0 without a truthy
   * previous close; its percentage is that P&L over the position's value at
   * the previous close, which is the price's relative change, when there are
   * shares to weigh it, and 0 otherwise.
   */
  lemma MoverRules(h: HoldingView, closes: map<string, Js.Number>)
    ensures var m := MoverOf(h, closes);
      var price := if h.marketPrice.Num? then h.marketPrice.n else 0.0;
      var shares := if h.shares.Num? then h.shares.n else 0.0;
      && m.ticker == h.ticker
      && (HasClose(closes, h.ticker) ==> m.pnl == (price - closes[h.ticker].v) * shares)
      && (!HasClose(closes, h.ticker) ==> m.pnl == 0.0 && m.pnlPercent == 0.0)
      && (HasClose(closes, h.ticker) && shares > 0.0 ==>
            m.pnlPercent == (price - closes[h.ticker].v) / closes[h.ticker].v * 100.0)
      && (shares <= 0.0 ==> m.pnlPercent == 0.0)
  {
    var price := Js.NumberOrZero(h.marketPrice);
    var shares := Js.NumberOrZero(h.shares);
    if HasClose(closes, h.ticker) && shares > 0.0 {
      var c := closes[h.ticker].v;
      RelativeChange(price, c, shares);
    }
  }

  lemma RelativeChange(price: real, close: real, shares: real)
    requires close != 0.0 && shares > 0.0
    ensures (price - close) * shares / (close * shares) == (price - close) / close
  {
    var q := (price - close) / close;
    assert q * close == price - close;
    assert (price - close) * shares == q * (close * shares);
  }

  /**
   * The movers are exactly the holdings whose P&L is not zero, in holdings
   * order: membership both ways, and every mover moved.
   */
  lemma {:induction false} MoversExactly(holdings: seq<HoldingView>, closes: map<string, Js.Number>)
    ensures forall m :: m in Movers(holdings, closes) ==> m.pnl != 0.0
    ensures forall i :: 0 <= i < |holdings| && MoverOf(holdings[i], closes).pnl != 0.0 ==>
      MoverOf(holdings[i], closes) in Movers(holdings, closes)
    ensures forall m :: m in Movers(holdings, closes) ==>
      exists i :: 0 <= i < |holdings| && m == MoverOf(holdings[i], closes)
    ensures |Movers(holdings, closes)| <= |holdings|
  {
    if |holdings| > 0 {
      var rest := holdings[1..];
      MoversExactly(rest, closes);
      forall i | 0 < i < |holdings| ensures holdings[i] == rest[i - 1] { }
      forall m | m in Movers(holdings, closes)
        ensures exists i :: 0 <= i < |holdings| && m == MoverOf(holdings[i], closes)
      {
        if m != MoverOf(holdings[0], closes) {
          assert m in Movers(rest, closes);
          var k :| 0 <= k < |rest| && m == MoverOf(rest[k], closes);
          assert holdings[k + 1] == rest[k];
        }
      }
    }
  }

  /** Computing movers goes holding by holding, so movers keep the holdings' order. */
  lemma {:induction false} MoversAppend(a: seq<HoldingView>, b: seq<HoldingView>, closes: map<string, Js.Number>)
    ensures Movers(a + b, closes) == Movers(a, closes) + Movers(b, closes)
  {
    if |a| > 0 {
      MoversAppend(a[1..], b, closes);
      assert (a + b)[1..] == a[1..] + b;
    } else {
      assert a + b == b;
    }
  }

  /** Both list orders are orders by P&L a comparator sort can use. */
  lemma GainsMoreOrders()
    ensures Sorting.StrictWeakOrder(GainsMore)
  {
  }

  lemma LosesMoreOrders()
    ensures Sorting.StrictWeakOrder(LosesMore)
  {
  }

  /** The first five of a sorted copy: as many as there are up to five, all from the list, none beaten by one left out. */
  lemma {:induction false} TopOfSorted(s: seq<Mover>, lt: (Mover, Mover) -> bool)
    requires Sorting.StrictWeakOrder(lt)
    ensures var sorted := Sorting.SortBy(s, lt);
      var top := Top(sorted);
      && |top| == (if |s| < ListLength then |s| else ListLength)
      && multiset(top) <= multiset(s)
      && Sorting.SortedBy(top, lt)
      && forall i, j :: 0 <= i < |top| <= j < |sorted| ==> !lt(sorted[j], top[i])
  {
    var sorted := Sorting.SortBy(s, lt);
    Sorting.SortBySorted(s, lt);
    var top := Top(sorted);
    assert sorted == top + sorted[|top|..];
    assert multiset(sorted) == multiset(top) + multiset(sorted[|top|..]);
  }

  /**
   * Top gainers: as many as there are movers up to five, taken from the
   * movers, largest P&L first, and each at least as large as that of every
   * mover left out.
   */
  lemma TopGainersAreTop(movers: seq<Mover>)
    ensures var g := TopGainers(movers);
      && |g| == (if |movers| < ListLength then |movers| else ListLength)
      && multiset(g) <= multiset(movers)
      && (forall i, j :: 0 <= i < j < |g| ==> g[i].pnl >= g[j].pnl)
      && (forall i, m :: 0 <= i < |g| && m in multiset(movers) - multiset(g) ==> g[i].pnl >= m.pnl)
  {
    GainsMoreOrders();
    TopOfSorted(movers, GainsMore);
    LeftOutBeaten(movers, GainsMore);
  }

  /** Top losers: the same with the smallest P&L first. */
  lemma TopLosersAreTop(movers: seq<Mover>)
    ensures var l := TopLosers(movers);
      && |l| == (if |movers| < ListLength then |movers| else ListLength)
      && multiset(l) <= multiset(movers)
      && (forall i, j :: 0 <= i < j < |l| ==> l[i].pnl <= l[j].pnl)
      && (forall i, m :: 0 <= i < |l| && m in multiset(movers) - multiset(l) ==> l[i].pnl <= m.pnl)
  {
    LosesMoreOrders();
    TopOfSorted(movers, LosesMore);
    LeftOutBeaten(movers, LosesMore);
  }

  /** A mover left out of the first five is one of the sorted copy's later elements. */
  lemma LeftOutBeaten(s: seq<Mover>, lt: (Mover, Mover) -> bool)
    requires Sorting.StrictWeakOrder(lt)
    ensures var sorted := Sorting.SortBy(s, lt);
      var top := Top(sorted);
      forall i, m :: 0 <= i < |top| && m in multiset(s) - multiset(top) ==> !lt(m, top[i])
  {
    var sorted := Sorting.SortBy(s, lt);
    var top := Top(sorted);
    Sorting.SortBySorted(s, lt);
    var n := |top|;
    var rest := sorted[n..];
    assert sorted == top + rest;
    assert multiset(s) - multiset(top) == multiset(rest);
    forall i, m | 0 <= i < n && m in multiset(s) - multiset(top) ensures !lt(m, top[i]) {
      assert m in rest;
      var k :| 0 <= k < |rest| && rest[k] == m;
      assert sorted[n + k] == m && sorted[i] == top[i];
      Sorting.PrefixDominates(sorted, lt, n, i, n + k);
    }
  }

  /** The lists as shown hold only gains and only losses, each kept when it has that sign. */
  lemma {:induction false} SignFilters(s: seq<Mover>)
    ensures forall m :: m in Positive(s) <==> m in s && m.pnl > 0.0
    ensures forall m :: m in Negative(s) <==> m in s && m.pnl < 0.0
  {
    if |s| > 0 {
      SignFilters(s[1..]);
      assert s == [s[0]] + s[1..];
    }
  }

  /**
   * The card waits exactly when there are no previous closes; otherwise it
   * shows gains among the top gainers and losses among the top losers.
   */
  lemma CardShows(holdings: seq<HoldingView>, prevDayCloses: Option<map<string, Js.Number>>)
    ensures Card(holdings, prevDayCloses).Awaiting? <==> prevDayCloses.None?
    ensures prevDayCloses.Some? ==>
      var movers := Movers(holdings, prevDayCloses.value);
      var v := Card(holdings, prevDayCloses);
      && (forall m :: m in v.gainers <==> m in TopGainers(movers) && m.pnl > 0.0)
      && (forall m :: m in v.losers <==> m in TopLosers(movers) && m.pnl < 0.0)
  {
    if prevDayCloses.Some? {
      var movers := Movers(holdings, prevDayCloses.value);
      SignFilters(TopGainers(movers));
      SignFilters(TopLosers(movers));
    }
  }
}
