/**
 * The price chart: its price and volume traces built from the historical
 * bars, then extended one point at a time by live ticks whose timestamp is
 * newer than the last point drawn. The same rules drive the chart on the
 * dashboard page; its older version only draws candlesticks.
 */
module ChartFeed {
  import opened Wrappers
  import LiveData

  /** The two chart kinds the toggle offers. */
  datatype ChartType = Candlestick | LineChart

  /** A historical bar; the timestamp is the instant `new Date(timestamp)` reads. */
  datatype Bar = Bar(timestamp: int, open: real, high: real, low: real, close: real, volume: real)

  /** The price trace: candles with four columns, or a line of closes. */
  datatype PriceTrace =
    | Candles(x: seq<int>, open: seq<Option<real>>, high: seq<Option<real>>, low: seq<Option<real>>, close: seq<Option<real>>)
    | Line(x: seq<int>, y: seq<Option<real>>)

  datatype VolumeTrace = VolumeTrace(x: seq<int>, y: seq<Option<real>>)

  /** What the plot holds: trace 0 and trace 1. */
  datatype Plot = Plot(price: PriceTrace, volume: VolumeTrace)

  /** The text shown when the analysis request fails. */
  const AnalysisError: string := "Error fetching analysis."

  /** Every column of both traces has one value per x, and both traces share their x values. */
  predicate WellFormed(p: Plot)
  {
    && p.volume.x == p.price.x
    && |p.volume.y| == |p.price.x|
    && match p.price
       case Candles(x, o, h, l, c) => |o| == |x| && |h| == |x| && |l| == |x| && |c| == |x|
       case Line(x, y) => |y| == |x|
  }

  predicate KindIs(p: Plot, t: ChartType)
  {
    p.price.Candles? <==> t == Candlestick
  }

  /** Timestamps that keep growing. */
  predicate StrictlyIncreasing(x: seq<int>)
  {
    forall i, j :: 0 <= i < j < |x| ==> x[i] < x[j]
  }

  /** The traces built from the bars for the selected chart kind. */
  function Load(bars: seq<Bar>, t: ChartType): (p: Plot)
    ensures WellFormed(p) && KindIs(p, t)
    ensures |p.price.x| == |bars|
    ensures forall i :: 0 <= i < |bars| ==>
      && p.price.x[i] == bars[i].timestamp
      && p.volume.y[i] == Some(bars[i].volume)
      && (p.price.Candles? ==>
            p.price.open[i] == Some(bars[i].open) && p.price.high[i] == Some(bars[i].high)
            && p.price.low[i] == Some(bars[i].low) && p.price.close[i] == Some(bars[i].close))
      && (p.price.Line? ==> p.price.y[i] == Some(bars[i].close))
  {
    var x := seq(|bars|, i requires 0 <= i < |bars| => bars[i].timestamp);
    var close := seq(|bars|, i requires 0 <= i < |bars| => Some(bars[i].close));
    var price :=
      if t == Candlestick then
        Candles(x,
          seq(|bars|, i requires 0 <= i < |bars| => Some(bars[i].open)),
          seq(|bars|, i requires 0 <= i < |bars| => Some(bars[i].high)),
          seq(|bars|, i requires 0 <= i < |bars| => Some(bars[i].low)),
          close)
      else Line(x, close);
    Plot(price, VolumeTrace(x, seq(|bars|, i requires 0 <= i < |bars| => Some(bars[i].volume))))
  }

  /** `plotlyInstance.data[0].x.slice(-1)[0]`, when there is one. */
  function LastX(p: Plot): Option<int>
  {
    if |p.price.x| == 0 then None else Some(p.price.x[|p.price.x| - 1])
  }

  /**
   * The live effect's guard: a mounted plot, a tick for the ticker, bars
   * loaded, a truthy volume, and a tick timestamp strictly after the last
   * x drawn (a missing date on either side compares false).
   */
  predicate Accepts(p: Plot, mounted: bool, tick: Option<LiveData.Tick>, hasBars: bool)
  {
    && mounted
    && tick.Some?
    && hasBars
    && tick.value.volume.Some? && tick.value.volume.value != 0.0
    && tick.value.timestamp.Some?
    && LastX(p).Some?
    && tick.value.timestamp.value > LastX(p).value
  }

  /**
   * `extendTraces` on both traces with the tick's point, shaped for the
   * selected chart kind: a candle whose close is the tick's price, or the
   * price alone on a line. It applies only to a price trace of that kind.
   */
  function Extend(p: Plot, kind: ChartType, t: LiveData.Tick): Plot
    requires t.timestamp.Some? && KindIs(p, kind)
  {
    var ts := t.timestamp.value;
    var price :=
      if kind == Candlestick then
        Candles(p.price.x + [ts], p.price.open + [t.open], p.price.high + [t.high], p.price.low + [t.low], p.price.close + [t.price])
      else Line(p.price.x + [ts], p.price.y + [t.price]);
    Plot(price, VolumeTrace(p.volume.x + [ts], p.volume.y + [t.volume]))
  }

  /**
   * The guard passes but the drawn price trace is of the other kind (the
   * kind was changed and no new traces were loaded): the point built for
   * the selected kind names a column the trace lacks (`y` on candles,
   * `open` on a line), so the first `extendTraces` call throws and the
   * volume trace is not extended either.
   */
  predicate Mismatch(p: Plot, kind: ChartType, mounted: bool, tick: Option<LiveData.Tick>, hasBars: bool)
  {
    Accepts(p, mounted, tick, hasBars) && !KindIs(p, kind)
  }

  /** The plot after the live effect has seen the store with `kind` selected. */
  function Step(p: Plot, kind: ChartType, mounted: bool, tick: Option<LiveData.Tick>, hasBars: bool): Plot
  {
    if Accepts(p, mounted, tick, hasBars) && KindIs(p, kind) then Extend(p, kind, tick.value) else p
  }

  /**
   * An accepted tick on a plot of the selected kind adds exactly one point
   * to each trace and leaves the points already drawn as they were; the new
   * point is the tick's timestamp, its open, high, low and price (or its
   * price alone on a line), and its volume. A tick that is not accepted, or
   * one that meets a plot of the other kind, changes nothing.
   */
  lemma StepAppendsOne(p: Plot, kind: ChartType, mounted: bool, tick: Option<LiveData.Tick>, hasBars: bool)
    requires WellFormed(p)
    ensures var q := Step(p, kind, mounted, tick, hasBars);
      var n := |p.price.x|;
      && WellFormed(q) && q.price.Candles? == p.price.Candles?
      && (!Accepts(p, mounted, tick, hasBars) || Mismatch(p, kind, mounted, tick, hasBars) ==> q == p)
      && (Accepts(p, mounted, tick, hasBars) && !Mismatch(p, kind, mounted, tick, hasBars) ==>
            var t := tick.value;
            && |q.price.x| == n + 1
            && q.price.x[..n] == p.price.x && q.price.x[n] == t.timestamp.value
            && q.volume.y[..n] == p.volume.y && q.volume.y[n] == t.volume
            && (kind == Candlestick ==>
                  && q.price.open[..n] == p.price.open && q.price.open[n] == t.open
                  && q.price.high[..n] == p.price.high && q.price.high[n] == t.high
                  && q.price.low[..n] == p.price.low && q.price.low[n] == t.low
                  && q.price.close[..n] == p.price.close && q.price.close[n] == t.price)
            && (kind == LineChart ==> q.price.y[..n] == p.price.y && q.price.y[n] == t.price))
  {
    if Accepts(p, mounted, tick, hasBars) && KindIs(p, kind) {
      var n := |p.price.x|;
      var q := Extend(p, kind, tick.value);
      assert q.price.x[..n] == p.price.x;
      assert q.volume.y[..n] == p.volume.y;
      if kind == Candlestick {
        assert q.price.open[..n] == p.price.open && q.price.high[..n] == p.price.high;
        assert q.price.low[..n] == p.price.low && q.price.close[..n] == p.price.close;
      } else {
        assert q.price.y[..n] == p.price.y;
      }
    }
  }

  /** A tick that is not newer than the last point, re-delivered or late, changes nothing. */
  lemma NotNewerIgnored(p: Plot, kind: ChartType, mounted: bool, t: LiveData.Tick, hasBars: bool)
    requires LastX(p).Some? && t.timestamp.Some? && t.timestamp.value <= LastX(p).value
    ensures Step(p, kind, mounted, Some(t), hasBars) == p
  {
  }

  /** Seeing the same store twice draws the point once. */
  lemma StepIdempotent(p: Plot, kind: ChartType, mounted: bool, tick: Option<LiveData.Tick>, hasBars: bool)
    ensures var q := Step(p, kind, mounted, tick, hasBars);
      Step(q, kind, mounted, tick, hasBars) == q
  {
    var q := Step(p, kind, mounted, tick, hasBars);
    if Accepts(p, mounted, tick, hasBars) && KindIs(p, kind) {
      assert LastX(q) == tick.value.timestamp;
    }
  }

  /** The x values drawn keep increasing strictly: each accepted point lies after all the others. */
  lemma StepIncreasing(p: Plot, kind: ChartType, mounted: bool, tick: Option<LiveData.Tick>, hasBars: bool)
    requires StrictlyIncreasing(p.price.x)
    ensures var q := Step(p, kind, mounted, tick, hasBars);
      && StrictlyIncreasing(q.price.x)
      && (q != p ==> LastX(q).Some? && LastX(q).value > LastX(p).value)
  {
    if Accepts(p, mounted, tick, hasBars) && KindIs(p, kind) {
      var q := Step(p, kind, mounted, tick, hasBars);
      var n := |p.price.x|;
      forall i, j | 0 <= i < j < |q.price.x| ensures q.price.x[i] < q.price.x[j] {
        if j == n {
          assert q.price.x[i] == p.price.x[i];
          if i < n - 1 {
            assert p.price.x[i] < p.price.x[n - 1];
          }
        } else {
          assert q.price.x[i] == p.price.x[i] && q.price.x[j] == p.price.x[j];
        }
      }
    }
  }

  /** The chart component's state. */
  class ChartPanel {
    var ticker: string
    var chartType: ChartType
    var bars: seq<Bar>
    var plot: Plot
    var loading: bool
    var analysis: string

    /** Every trace column has one value per point. */
    predicate Valid()
      reads this
    {
      WellFormed(plot)
    }

    constructor (ticker0: string)
      ensures Valid()
      ensures ticker == ticker0 && chartType == Candlestick && bars == [] && loading && analysis == ""
      ensures plot == Load([], Candlestick)
    {
      ticker := ticker0;
      chartType := Candlestick;
      bars := [];
      plot := Load([], Candlestick);
      loading := true;
      analysis := "";
    }

    /**
     * The load effect, run when the ticker or the chart kind changes: the
     * analysis is cleared; with a ticker, the fetched bars (when the request
     * succeeds) replace the bars and the plot, and loading ends.
     */
    method Reload(fetched: Option<seq<Bar>>)
      requires Valid()
      modifies this`bars, this`plot, this`loading, this`analysis
      ensures Valid()
      ensures analysis == ""
      ensures ticker == "" ==> bars == old(bars) && plot == old(plot) && loading == old(loading)
      ensures ticker != "" && fetched.Some? ==> bars == fetched.value && plot == Load(fetched.value, chartType)
      ensures ticker != "" && fetched.None? ==> bars == old(bars) && plot == old(plot)
      ensures ticker != "" ==> !loading
    {
      analysis := "";
      if ticker == "" {
        return;
      }
      loading := true;
      if fetched.Some? {
        bars := fetched.value;
        plot := Load(fetched.value, chartType);
      }
      loading := false;
    }

    /**
     * A new `ticker` prop from the parent. The same ticker re-renders
     * nothing (the component is memoised); another one selects it and runs
     * the load effect, keeping the chart kind. A failed request leaves the
     * previous ticker's bars and plot in place.
     */
    method OnTickerChange(t: string, fetched: Option<seq<Bar>>)
      requires Valid()
      modifies this`ticker, this`bars, this`plot, this`loading, this`analysis
      ensures Valid()
      ensures ticker == t && chartType == old(chartType)
      ensures t == old(ticker) ==>
        bars == old(bars) && plot == old(plot) && loading == old(loading) && analysis == old(analysis)
      ensures t != old(ticker) ==> analysis == ""
      ensures t != old(ticker) && t != "" && fetched.Some? ==>
        bars == fetched.value && plot == Load(fetched.value, chartType) && !loading
      ensures t != old(ticker) && t != "" && fetched.None? ==> bars == old(bars) && plot == old(plot) && !loading
      ensures t != old(ticker) && t == "" ==> bars == old(bars) && plot == old(plot) && loading == old(loading)
    {
      if t == ticker {
        return;
      }
      ticker := t;
      Reload(fetched);
    }

    /**
     * The chart-kind toggle: a null selection is ignored, and so is the kind
     * already selected (the state does not change, so the load effect does
     * not run); any other selects that kind and reloads.
     */
    method OnChartTypeChange(selection: Option<ChartType>, fetched: Option<seq<Bar>>)
      requires Valid()
      modifies this`chartType, this`bars, this`plot, this`loading, this`analysis
      ensures Valid()
      ensures selection.Some? ==> chartType == selection.value
      ensures selection.None? || selection.value == old(chartType) ==>
        (chartType == old(chartType) && bars == old(bars) && plot == old(plot)
         && analysis == old(analysis) && loading == old(loading))
      ensures selection.Some? && selection.value != old(chartType) ==> analysis == ""
      ensures selection.Some? && selection.value != old(chartType) && ticker != "" && fetched.Some? ==>
        bars == fetched.value && plot == Load(fetched.value, selection.value) && KindIs(plot, chartType)
      ensures selection.Some? && selection.value != old(chartType) && (ticker == "" || fetched.None?) ==>
        bars == old(bars) && plot == old(plot)
    {
      if selection.None? || selection.value == chartType {
        return;
      }
      chartType := selection.value;
      Reload(fetched);
    }

    /**
     * The live effect: the selected ticker's entry in the store, through the
     * guard, drawn in the selected chart kind. `failed` reports the throw of
     * a point that meets a price trace of the other kind.
     */
    method OnLiveData(liveData: map<string, LiveData.Entry>, mounted: bool) returns (failed: bool)
      requires Valid()
      modifies this`plot
      ensures Valid()
      ensures var tick := if ticker in liveData then Some(liveData[ticker].tick) else None;
        && plot == Step(old(plot), chartType, mounted, tick, |bars| > 0)
        && (failed <==> Mismatch(old(plot), chartType, mounted, tick, |bars| > 0))
    {
      var tick := if ticker in liveData then Some(liveData[ticker].tick) else None;
      failed := false;
      if Accepts(plot, mounted, tick, |bars| > 0) {
        if !KindIs(plot, chartType) {
          failed := true;
          return;
        }
        StepAppendsOne(plot, chartType, mounted, tick, |bars| > 0);
        plot := Extend(plot, chartType, tick.value);
      }
    }

    /**
     * `handleAnalyzeChart`: no request without bars; otherwise the reply's
     * analysis, or the fixed error text when the request fails.
     */
    method AnalyzeChart(reply: Option<string>) returns (requested: bool)
      modifies this`analysis
      ensures requested <==> |bars| > 0
      ensures !requested ==> analysis == old(analysis)
      ensures requested && reply.Some? ==> analysis == reply.value
      ensures requested && reply.None? ==> analysis == AnalysisError
    {
      if |bars| == 0 {
        return false;
      }
      requested := true;
      analysis := if reply.Some? then reply.value else AnalysisError;
    }
  }
}
