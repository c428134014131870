/**
 * The client's shared live-data store: one socket whose open and close
 * flip a connectivity flag, and a message handler that replaces the
 * per-ticker quotes and the portfolio snapshot on every `market_data`
 * message.
 */
module LiveData {
  import opened Wrappers

  /**
   * A quote as the client receives it. Numeric fields a message may lack
   * are `None`; the timestamp is the instant `new Date(timestamp)` reads.
   */
  datatype Tick = Tick(
    ticker: string,
    price: Option<real>,
    change: Option<real>,
    volume: Option<real>,
    open: Option<real>,
    high: Option<real>,
    low: Option<real>,
    bid: Option<real>,
    ask: Option<real>,
    timestamp: Option<int>)

  /** A stored quote: the tick spread out, plus the price the ticker had in the previous store. */
  datatype Entry = Entry(tick: Tick, prevPrice: Option<real>)

  /** A parsed socket message carrying a portfolio payload of type `P`. */
  datatype Message<P> = MarketData(ticks: seq<Tick>, portfolio: Option<P>) | Other

  /** The tickers a batch mentions. */
  function Tickers(ticks: seq<Tick>): set<string>
  {
    set i | 0 <= i < |ticks| :: ticks[i].ticker
  }

  /** `newLiveData`: each tick written under its ticker, in batch order. */
  function Batch(ticks: seq<Tick>): map<string, Tick>
  {
    if |ticks| == 0 then map[]
    else Batch(ticks[..|ticks| - 1])[ticks[|ticks| - 1].ticker := ticks[|ticks| - 1]]
  }

  /** `prevData[key]?.price`. */
  function PrevPrice(prev: map<string, Entry>, key: string): Option<real>
  {
    if key in prev then prev[key].tick.price else None
  }

  /** `updatedData`: one entry per batch key, carrying the previous store's price. */
  function Updated(prev: map<string, Entry>, batch: map<string, Tick>): map<string, Entry>
  {
    map k | k in batch :: Entry(batch[k], PrevPrice(prev, k))
  }

  /** The store after a message: quotes and portfolio, or both untouched for another kind of message. */
  function Step<P>(liveData: map<string, Entry>, portfolio: Option<P>, m: Message<P>): (map<string, Entry>, Option<P>)
  {
    match m
    case MarketData(ticks, p) => (Updated(liveData, Batch(ticks)), p)
    case Other => (liveData, portfolio)
  }

  /**
   * The batch map holds exactly the batch's tickers, and under each the
   * last tick of the batch with that ticker.
   */
  lemma {:induction false} BatchExactly(ticks: seq<Tick>)
    ensures Batch(ticks).Keys == Tickers(ticks)
    ensures forall t :: t in Batch(ticks) ==>
      exists i :: 0 <= i < |ticks| && ticks[i] == Batch(ticks)[t] && ticks[i].ticker == t && LastFor(ticks, i)
    decreases |ticks|
  {
    if |ticks| > 0 {
      var n := |ticks| - 1;
      var init := ticks[..n];
      BatchExactly(init);
      assert forall i :: 0 <= i < n ==> init[i] == ticks[i];
      forall t | t in Tickers(ticks) ensures t in Tickers(init) + {ticks[n].ticker} {
        var i :| 0 <= i < |ticks| && ticks[i].ticker == t;
        if i < n {
          assert init[i].ticker == t;
        }
      }
      forall t | t in Tickers(init) ensures t in Tickers(ticks) {
        var i :| 0 <= i < n && init[i].ticker == t;
        assert ticks[i].ticker == t;
      }
      forall t | t in Batch(ticks)
        ensures exists i :: 0 <= i < |ticks| && ticks[i] == Batch(ticks)[t] && ticks[i].ticker == t && LastFor(ticks, i)
      {
        if t == ticks[n].ticker {
          assert LastFor(ticks, n);
        } else {
          var i :| 0 <= i < n && init[i] == Batch(init)[t] && init[i].ticker == t && LastFor(init, i);
          assert ticks[i] == init[i];
          assert LastFor(ticks, i);
        }
      }
    }
  }

  /** No later tick of the batch has the same ticker as tick `i`. */
  predicate LastFor(ticks: seq<Tick>, i: int)
    requires 0 <= i < |ticks|
  {
    forall j :: i < j < |ticks| ==> ticks[j].ticker != ticks[i].ticker
  }

  /**
   * After a `market_data` message the store holds exactly the batch's
   * tickers, dropping every other one; each entry is the last tick for its
   * ticker plus that ticker's price in the previous store, and the
   * portfolio is the message's, whatever it was before.
   */
  lemma MarketDataReplaces<P>(liveData: map<string, Entry>, portfolio: Option<P>, ticks: seq<Tick>, p: Option<P>)
    ensures var (live, port) := Step(liveData, portfolio, MarketData(ticks, p));
      && live.Keys == Tickers(ticks)
      && port == p
      && (forall t :: t in live ==> live[t].prevPrice == (if t in liveData then liveData[t].tick.price else None))
      && (forall t :: t in live ==>
            exists i :: 0 <= i < |ticks| && ticks[i] == live[t].tick && ticks[i].ticker == t && LastFor(ticks, i))
  {
    BatchExactly(ticks);
  }

  /** Within one batch the later of two ticks for a ticker is the one stored. */
  lemma LaterTickWins<P>(liveData: map<string, Entry>, portfolio: Option<P>, ticks: seq<Tick>, p: Option<P>, i: int)
    requires 0 <= i < |ticks| && LastFor(ticks, i)
    ensures var (live, _) := Step(liveData, portfolio, MarketData(ticks, p));
      ticks[i].ticker in live && live[ticks[i].ticker].tick == ticks[i]
  {
    BatchExactly(ticks);
    var t := ticks[i].ticker;
    assert t in Tickers(ticks);
    var k :| 0 <= k < |ticks| && ticks[k] == Batch(ticks)[t] && ticks[k].ticker == t && LastFor(ticks, k);
    assert k == i;
  }

  /** Any other kind of message leaves quotes and portfolio as they were. */
  lemma OtherMessageChangesNothing<P>(liveData: map<string, Entry>, portfolio: Option<P>)
    ensures Step(liveData, portfolio, Other) == (liveData, portfolio)
  {
  }

  /** The provider's state: the store, the portfolio snapshot and the connectivity flag. */
  class DataContext<P> {
    var liveData: map<string, Entry>
    var portfolio: Option<P>
    var isConnected: bool

    /** `useState({})`, `useState(null)`, `useState(false)`. */
    constructor ()
      ensures liveData == map[] && portfolio == None && !isConnected
    {
      liveData := map[];
      portfolio := None;
      isConnected := false;
    }

    /** `onopen`. */
    method OnOpen()
      modifies this`isConnected
      ensures isConnected
    {
      isConnected := true;
    }

    /** `onclose`. */
    method OnClose()
      modifies this`isConnected
      ensures !isConnected
    {
      isConnected := false;
    }

    /**
     * `onmessage`: build the batch map tick by tick, then the new store key
     * by key; the portfolio is replaced. The connectivity flag is untouched.
     */
    method OnMessage(m: Message<P>)
      modifies this`liveData, this`portfolio
      ensures (liveData, portfolio) == Step(old(liveData), old(portfolio), m)
    {
      if m.Other? {
        return;
      }
      var ticks := m.ticks;
      var newLiveData: map<string, Tick> := map[];
      for i := 0 to |ticks|
        invariant newLiveData == Batch(ticks[..i])
      {
        assert ticks[..i + 1][..i] == ticks[..i];
        newLiveData := newLiveData[ticks[i].ticker := ticks[i]];
      }
      assert ticks[..|ticks|] == ticks;
      var prevData := liveData;
      var updatedData: map<string, Entry> := map[];
      var keys := newLiveData.Keys;
      while keys != {}
        invariant keys <= newLiveData.Keys
        invariant updatedData.Keys == newLiveData.Keys - keys
        invariant forall k :: k in updatedData ==> updatedData[k] == Entry(newLiveData[k], PrevPrice(prevData, k))
        decreases |keys|
      {
        var key :| key in keys;
        updatedData := updatedData[key := Entry(newLiveData[key], PrevPrice(prevData, key))];
        keys := keys - {key};
      }
      assert updatedData == Updated(prevData, newLiveData);
      liveData := updatedData;
      portfolio := m.portfolio;
    }
  }
}
