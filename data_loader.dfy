/**
 * The simulator's data: previous-day closes from the historical files,
 * headlines grouped by ticker, and one line-by-line tick generator per
 * ticker with a live price file.
 */
module DataLoader {
  import opened Wrappers
  import Text
  import News

  /** The tickers the simulation knows, in configuration order. */
  const Tickers: seq<string> := ["AAPL", "GOOG", "MSFT", "TSLA", "IBM", "UL", "WMT"]

  /** One live tick as the simulator produces it. */
  datatype Tick = Tick(ticker: string, timestamp: string, price: real, change: real, changePercent: real)

  // ---------------------------------------------------------------- historical data

  /** A row of a historical file (the other columns play no part here). */
  datatype HistRow = HistRow(timestamp: string, close: real)

  /** A historical file as reading it turns out: unreadable, or a table of rows. */
  datatype HistFile = Unreadable | Table(rows: seq<HistRow>)

  function PrimaryHistoryFile(t: string): string { t + "_2025_historical.csv" }
  function SimulatedHistoryFile(t: string): string { "simulated_" + t + "_2025_historical.csv" }

  /** The file used for `t`: the real one if present, else the simulated one, else none. */
  function ChosenFile(t: string, files: map<string, HistFile>): Option<HistFile>
  {
    if PrimaryHistoryFile(t) in files then Some(files[PrimaryHistoryFile(t)])
    else if SimulatedHistoryFile(t) in files then Some(files[SimulatedHistoryFile(t)])
    else None
  }

  /** The rows loaded for `t`, if its chosen file could be read. */
  function LoadedRows(t: string, files: map<string, HistFile>): Option<seq<HistRow>>
  {
    match ChosenFile(t, files)
    case Some(Table(rows)) => Some(rows)
    case _ => None
  }

  /** The rows loaded for the tickers `ts`, walked in order. */
  function LoadedData(ts: seq<string>, files: map<string, HistFile>): map<string, seq<HistRow>>
  {
    if |ts| == 0 then map[]
    else
      var d := LoadedData(ts[..|ts| - 1], files);
      var t := ts[|ts| - 1];
      if LoadedRows(t, files).Some? then d[t := LoadedRows(t, files).value] else d
  }

  /** The previous closes found for the tickers `ts`, walked in order. */
  function LoadedCloses(ts: seq<string>, files: map<string, HistFile>): map<string, real>
  {
    if |ts| == 0 then map[]
    else
      var c := LoadedCloses(ts[..|ts| - 1], files);
      var t := ts[|ts| - 1];
      var rows := LoadedRows(t, files);
      if rows.Some? && |rows.value| > 1 then c[t := rows.value[|rows.value| - 2].close] else c
  }

  /**
   * Exactly the tickers whose chosen file reads have rows, and those rows
   * are the file's; exactly those with at least two rows have a previous
   * close, the second-to-last row's.
   */
  lemma {:induction false} LoadedFacts(ts: seq<string>, files: map<string, HistFile>)
    ensures forall t :: t in LoadedData(ts, files) <==> t in ts && LoadedRows(t, files).Some?
    ensures forall t :: t in LoadedData(ts, files) ==> LoadedData(ts, files)[t] == LoadedRows(t, files).value
    ensures forall t :: t in LoadedCloses(ts, files) <==> t in LoadedData(ts, files) && |LoadedData(ts, files)[t]| > 1
    ensures forall t :: t in LoadedCloses(ts, files) ==>
      LoadedCloses(ts, files)[t] == LoadedData(ts, files)[t][|LoadedData(ts, files)[t]| - 2].close
  {
    LoadedDataFacts(ts, files);
    LoadedClosesFacts(ts, files);
  }

  lemma {:induction false} LoadedDataFacts(ts: seq<string>, files: map<string, HistFile>)
    ensures forall t :: t in LoadedData(ts, files) <==> t in ts && LoadedRows(t, files).Some?
    ensures forall t :: t in LoadedData(ts, files) ==> LoadedData(ts, files)[t] == LoadedRows(t, files).value
  {
    if |ts| > 0 {
      var init := ts[..|ts| - 1];
      LoadedDataFacts(init, files);
      assert forall t :: t in ts <==> t in init || t == ts[|ts| - 1];
    }
  }

  lemma {:induction false} LoadedClosesFacts(ts: seq<string>, files: map<string, HistFile>)
    ensures forall t :: t in LoadedCloses(ts, files) <==> t in ts && LoadedRows(t, files).Some? && |LoadedRows(t, files).value| > 1
    ensures forall t :: t in LoadedCloses(ts, files) ==>
      LoadedCloses(ts, files)[t] == LoadedRows(t, files).value[|LoadedRows(t, files).value| - 2].close
  {
    if |ts| > 0 {
      var init := ts[..|ts| - 1];
      LoadedClosesFacts(init, files);
      assert forall t :: t in ts <==> t in init || t == ts[|ts| - 1];
    }
  }

  /**
   * `_load_historical_data`: the configured tickers in order, each chosen
   * file read; what that loads is stated by `LoadedFacts`.
   */
  method LoadHistorical(files: map<string, HistFile>) returns (data: map<string, seq<HistRow>>, closes: map<string, real>)
    ensures data == LoadedData(Tickers, files) && closes == LoadedCloses(Tickers, files)
  {
    data, closes := map[], map[];
    for i := 0 to |Tickers|
      invariant data == LoadedData(Tickers[..i], files)
      invariant closes == LoadedCloses(Tickers[..i], files)
    {
      var ticker := Tickers[i];
      assert Tickers[..i + 1][..i] == Tickers[..i];
      var fileToUse: Option<HistFile> := None;
      if PrimaryHistoryFile(ticker) in files {
        fileToUse := Some(files[PrimaryHistoryFile(ticker)]);
      } else if SimulatedHistoryFile(ticker) in files {
        fileToUse := Some(files[SimulatedHistoryFile(ticker)]);
      }
      assert fileToUse == ChosenFile(ticker, files);
      assert LoadedData(Tickers[..i + 1], files) ==
        if LoadedRows(ticker, files).Some? then data[ticker := LoadedRows(ticker, files).value] else data;
      assert LoadedCloses(Tickers[..i + 1], files) ==
        if LoadedRows(ticker, files).Some? && |LoadedRows(ticker, files).value| > 1
        then closes[ticker := LoadedRows(ticker, files).value[|LoadedRows(ticker, files).value| - 2].close] else closes;
      if fileToUse.Some? && fileToUse.value.Table? {
        var df := fileToUse.value.rows;
        data := data[ticker := df];
        if |df| > 1 {
          closes := closes[ticker := df[|df| - 2].close];
        }
      }
    }
    assert Tickers[..|Tickers|] == Tickers;
  }

  // ---------------------------------------------------------------- news

  /**
   * An article of a news file: its title, publication time and the tickers
   * of its `ticker_sentiment` entries, in order (none when the key is absent).
   */
  datatype Article = Article(title: string, timePublished: string, mentions: seq<string>)

  /** A news file in directory-listing order: its name and its dates' article lists, in file order. */
  datatype NewsFile = NewsFile(name: string, days: seq<seq<Article>>)

  function Item(a: Article): News.NewsItem
  {
    News.NewsItem(a.title, a.timePublished)
  }

  function Flatten(days: seq<seq<Article>>): seq<Article>
  {
    if |days| == 0 then [] else Flatten(days[..|days| - 1]) + days[|days| - 1]
  }

  /** The articles of the `.json` files, in the order they are read. */
  function JsonArticles(files: seq<NewsFile>): seq<Article>
  {
    if |files| == 0 then []
    else
      var last := files[|files| - 1];
      JsonArticles(files[..|files| - 1]) + (if Text.EndsWith(last.name, ".json") then Flatten(last.days) else [])
  }

  function Get(data: map<string, seq<News.NewsItem>>, t: string): seq<News.NewsItem>
  {
    if t in data then data[t] else []
  }

  /** One article filed under each ticker it mentions, once per mention. */
  function WithMentions(data: map<string, seq<News.NewsItem>>, a: Article, n: nat): map<string, seq<News.NewsItem>>
    requires n <= |a.mentions|
  {
    if n == 0 then data
    else
      var d := WithMentions(data, a, n - 1);
      d[a.mentions[n - 1] := Get(d, a.mentions[n - 1]) + [Item(a)]]
  }

  function WithArticles(data: map<string, seq<News.NewsItem>>, arts: seq<Article>): map<string, seq<News.NewsItem>>
  {
    if |arts| == 0 then data
    else
      var a := arts[|arts| - 1];
      WithMentions(WithArticles(data, arts[..|arts| - 1]), a, |a.mentions|)
  }

  /** The headline of `a` once for each of its first `n` mentions that is `t`. */
  function Filed(a: Article, n: nat, t: string): seq<News.NewsItem>
    requires n <= |a.mentions|
  {
    if n == 0 then [] else Filed(a, n - 1, t) + (if a.mentions[n - 1] == t then [Item(a)] else [])
  }

  /** The headlines filed under `t`: each article, in reading order, once per mention of `t`. */
  function ItemsFor(arts: seq<Article>, t: string): seq<News.NewsItem>
  {
    if |arts| == 0 then []
    else
      var a := arts[|arts| - 1];
      ItemsFor(arts[..|arts| - 1], t) + Filed(a, |a.mentions|, t)
  }

  lemma WithMentionsLookup(data: map<string, seq<News.NewsItem>>, a: Article, n: nat, t: string)
    requires n <= |a.mentions|
    ensures Get(WithMentions(data, a, n), t) == Get(data, t) + Filed(a, n, t)
    ensures t in WithMentions(data, a, n) <==> t in data || Filed(a, n, t) != []
  {
    WithMentionsGet(data, a, n, t);
    WithMentionsKeys(data, a, n, t);
  }

  lemma {:induction false} WithMentionsGet(data: map<string, seq<News.NewsItem>>, a: Article, n: nat, t: string)
    requires n <= |a.mentions|
    ensures Get(WithMentions(data, a, n), t) == Get(data, t) + Filed(a, n, t)
  {
    if n > 0 {
      WithMentionsGet(data, a, n - 1, t);
      var step := if a.mentions[n - 1] == t then [Item(a)] else [];
      assert Get(WithMentions(data, a, n), t) == Get(WithMentions(data, a, n - 1), t) + step;
      assert (Get(data, t) + Filed(a, n - 1, t)) + step == Get(data, t) + (Filed(a, n - 1, t) + step);
    } else {
      assert Get(data, t) + [] == Get(data, t);
    }
  }

  lemma {:induction false} WithMentionsKeys(data: map<string, seq<News.NewsItem>>, a: Article, n: nat, t: string)
    requires n <= |a.mentions|
    ensures t in WithMentions(data, a, n) <==> t in data || Filed(a, n, t) != []
  {
    if n > 0 {
      WithMentionsKeys(data, a, n - 1, t);
      var hit := a.mentions[n - 1] == t;
      assert t in WithMentions(data, a, n) <==> t in WithMentions(data, a, n - 1) || hit;
      assert |Filed(a, n, t)| == |Filed(a, n - 1, t)| + (if hit then 1 else 0);
    }
  }

  lemma {:induction false} WithArticlesLookup(data: map<string, seq<News.NewsItem>>, arts: seq<Article>, t: string)
    ensures Get(WithArticles(data, arts), t) == Get(data, t) + ItemsFor(arts, t)
    ensures t in WithArticles(data, arts) <==> t in data || ItemsFor(arts, t) != []
  {
    if |arts| > 0 {
      var a := arts[|arts| - 1];
      var init := arts[..|arts| - 1];
      WithArticlesLookup(data, init, t);
      WithMentionsLookup(WithArticles(data, init), a, |a.mentions|, t);
      assert (Get(data, t) + ItemsFor(init, t)) + Filed(a, |a.mentions|, t)
          == Get(data, t) + (ItemsFor(init, t) + Filed(a, |a.mentions|, t));
    }
  }

  /**
   * The grouped news has a key exactly for the tickers some article
   * mentions, and under each the articles mentioning it, in reading order,
   * once per mention.
   */
  lemma GroupedNews(files: seq<NewsFile>, t: string)
    ensures var data := WithArticles(map[], JsonArticles(files));
      && (t in data <==> ItemsFor(JsonArticles(files), t) != [])
      && (t in data ==> data[t] == ItemsFor(JsonArticles(files), t))
  {
    WithArticlesLookup(map[], JsonArticles(files), t);
  }

  /** Files every mention of one article. */
  method FileArticle(data: map<string, seq<News.NewsItem>>, a: Article) returns (d: map<string, seq<News.NewsItem>>)
    ensures d == WithMentions(data, a, |a.mentions|)
  {
    d := data;
    for k := 0 to |a.mentions|
      invariant d == WithMentions(data, a, k)
    {
      var ticker := a.mentions[k];
      if ticker !in d {
        d := d[ticker := []];
      }
      d := d[ticker := d[ticker] + [Item(a)]];
    }
  }

  /** Filing two runs of articles one after the other files their concatenation. */
  lemma {:induction false} WithArticlesAppend(data: map<string, seq<News.NewsItem>>, a: seq<Article>, b: seq<Article>)
    ensures WithArticles(WithArticles(data, a), b) == WithArticles(data, a + b)
  {
    if |b| > 0 {
      WithArticlesAppend(data, a, b[..|b| - 1]);
      assert (a + b)[..|a + b| - 1] == a + b[..|b| - 1];
      assert (a + b)[|a + b| - 1] == b[|b| - 1];
    } else {
      assert a + b == a;
    }
  }

  /** Files the articles of one date, in order. */
  method FileArticles(data: map<string, seq<News.NewsItem>>, articles: seq<Article>) returns (d: map<string, seq<News.NewsItem>>)
    ensures d == WithArticles(data, articles)
  {
    d := data;
    for k := 0 to |articles|
      invariant d == WithArticles(data, articles[..k])
    {
      assert articles[..k + 1][..k] == articles[..k];
      d := FileArticle(d, articles[k]);
    }
    assert articles[..|articles|] == articles;
  }

  /** Files the articles of every date of one news file, in order. */
  method FileDays(data: map<string, seq<News.NewsItem>>, days: seq<seq<Article>>) returns (d: map<string, seq<News.NewsItem>>)
    ensures d == WithArticles(data, Flatten(days))
  {
    d := data;
    for j := 0 to |days|
      invariant d == WithArticles(data, Flatten(days[..j]))
    {
      assert days[..j + 1][..j] == days[..j];
      WithArticlesAppend(data, Flatten(days[..j]), days[j]);
      d := FileArticles(d, days[j]);
    }
    assert days[..|days|] == days;
  }

  /** `_load_news_data`: every article of every `.json` file filed under the tickers it mentions. */
  method LoadNews(files: seq<NewsFile>) returns (data: map<string, seq<News.NewsItem>>)
    ensures data == WithArticles(map[], JsonArticles(files))
  {
    data := map[];
    for i := 0 to |files|
      invariant data == WithArticles(map[], JsonArticles(files[..i]))
    {
      var file := files[i];
      assert files[..i + 1][..i] == files[..i];
      assert files[..i + 1][i] == file;
      if Text.EndsWith(file.name, ".json") {
        WithArticlesAppend(map[], JsonArticles(files[..i]), Flatten(file.days));
        assert JsonArticles(files[..i + 1]) == JsonArticles(files[..i]) + Flatten(file.days);
        data := FileDays(data, file.days);
      } else {
        assert JsonArticles(files[..i + 1]) == JsonArticles(files[..i]) + [];
        assert JsonArticles(files[..i]) + [] == JsonArticles(files[..i]);
      }
    }
    assert files[..|files|] == files;
  }

  // ---------------------------------------------------------------- live ticks

  /** What can go wrong reading a live file: a short line, a bad price, or an empty file. */
  datatype Failure = IndexError | ValueError | RuntimeError

  /**
   * One line of a live file: stripped and split on commas; the fifth field
   * is the price (`parse` is Python's `float`), the first the timestamp.
   * The change is measured against the ticker's previous close, or against
   * the price itself when there is none; the percentage is 0 when the
   * previous close is 0.
   */
  function TickFromLine(line: string, ticker: string, closes: map<string, real>, parse: string -> Option<real>): Result<Tick, Failure>
  {
    var parts := Text.Split(Text.Strip(line), ',');
    if |parts| < 5 then Err(IndexError)
    else if parse(parts[4]).None? then Err(ValueError)
    else
      var price := parse(parts[4]).value;
      var prevClose := if ticker in closes then closes[ticker] else price;
      var change := price - prevClose;
      Ok(Tick(ticker, parts[0], price, change, if prevClose != 0.0 then change / prevClose * 100.0 else 0.0))
  }

  /** The change of a tick is measured against the previous close, and its percentage is the change relative to it. */
  lemma TickChange(line: string, ticker: string, closes: map<string, real>, parse: string -> Option<real>)
    requires TickFromLine(line, ticker, closes, parse).Ok?
    ensures var tick := TickFromLine(line, ticker, closes, parse).value;
      && tick.ticker == ticker
      && (ticker in closes ==> tick.change == tick.price - closes[ticker])
      && (ticker in closes && closes[ticker] != 0.0 ==> tick.changePercent * closes[ticker] == tick.change * 100.0)
      && (ticker !in closes ==> tick.change == 0.0 && tick.changePercent == 0.0)
      && (ticker in closes && closes[ticker] == 0.0 ==> tick.changePercent == 0.0)
  {
    var tick := TickFromLine(line, ticker, closes, parse).value;
    if ticker in closes && closes[ticker] != 0.0 {
      var c := closes[ticker];
      assert tick.changePercent == tick.change / c * 100.0;
      assert tick.change / c * c == tick.change;
    }
  }

  /** Where a generator is: not started, about to read line `i`, or finished. */
  datatype Position = Fresh | At(i: nat) | Finished

  /** A live-price generator: its ticker, the lines of its file (the header first) and its position. */
  datatype Cursor = Cursor(ticker: string, lines: seq<string>, pos: Position)

  /** What one `next()` gives: a tick, `StopIteration`, or an exception. */
  datatype Step = Yielded(tick: Tick) | Exhausted | Raised(failure: Failure)

  /**
   * One `next()` on a generator. A fresh one first skips the header; with no
   * header line that `next(f)` stops inside the generator and is reported
   * as a `RuntimeError`. A generator that raised or ran out is finished and
   * only stops from then on.
   */
  function Advance(c: Cursor, closes: map<string, real>, parse: string -> Option<real>): (Step, Cursor)
  {
    match c.pos
    case Finished => (Exhausted, c)
    case Fresh =>
      if |c.lines| == 0 then (Raised(RuntimeError), c.(pos := Finished))
      else ReadLine(c, 1, closes, parse)
    case At(i) => ReadLine(c, i, closes, parse)
  }

  function ReadLine(c: Cursor, i: nat, closes: map<string, real>, parse: string -> Option<real>): (Step, Cursor)
  {
    if i >= |c.lines| then (Exhausted, c.(pos := Finished))
    else match TickFromLine(c.lines[i], c.ticker, closes, parse)
      case Ok(tick) => (Yielded(tick), c.(pos := At(i + 1)))
      case Err(e) => (Raised(e), c.(pos := Finished))
  }

  /**
   * A generator yields the ticks of the lines after the header, in file
   * order, one per `next()`: if the first `k` lines after the header parse,
   * `k` steps from fresh yield exactly their ticks.
   */
  lemma {:induction false} AdvanceYieldsLines(c: Cursor, closes: map<string, real>, parse: string -> Option<real>, i: nat)
    requires c.pos == At(i) && i < |c.lines|
    requires TickFromLine(c.lines[i], c.ticker, closes, parse).Ok?
    ensures Advance(c, closes, parse) == (Yielded(TickFromLine(c.lines[i], c.ticker, closes, parse).value), c.(pos := At(i + 1)))
  {
  }

  /** A finished generator only ever stops, and a generator never changes its ticker or file. */
  lemma AdvanceFacts(c: Cursor, closes: map<string, real>, parse: string -> Option<real>)
    ensures var (step, c') := Advance(c, closes, parse);
      && c'.ticker == c.ticker && c'.lines == c.lines
      && (c.pos == Finished ==> step == Exhausted && c' == c)
      && (!step.Yielded? ==> c'.pos == Finished)
      && (step.Yielded? ==> step.tick.ticker == c.ticker)
      && (c.pos == Fresh && |c.lines| <= 1 ==> !step.Yielded?)
  {
    var (step, c') := Advance(c, closes, parse);
    if step.Yielded? {
      var i := if c.pos == Fresh then 1 else c.pos.i;
      assert TickFromLine(c.lines[i], c.ticker, closes, parse).Ok?;
    }
  }

  function LiveFile(t: string): string { "simulated_" + t + "_live.csv" }

  /** `_create_live_data_generators`: one fresh generator per configured ticker whose live file exists, in configuration order. */
  method CreateGenerators(files: map<string, seq<string>>) returns (gens: seq<Cursor>)
    ensures forall k :: 0 <= k < |gens| ==> gens[k].pos == Fresh && gens[k].ticker in Tickers && LiveFile(gens[k].ticker) in files
    ensures forall k :: 0 <= k < |gens| ==> gens[k].lines == files[LiveFile(gens[k].ticker)]
    ensures forall t :: t in Tickers && LiveFile(t) in files ==> exists k :: 0 <= k < |gens| && gens[k].ticker == t
    ensures forall j, k :: 0 <= j < k < |gens| ==> gens[j].ticker != gens[k].ticker
  {
    gens := [];
    for i := 0 to |Tickers|
      invariant forall k :: 0 <= k < |gens| ==> gens[k].pos == Fresh && gens[k].ticker in Tickers[..i] && LiveFile(gens[k].ticker) in files
      invariant forall k :: 0 <= k < |gens| ==> gens[k].lines == files[LiveFile(gens[k].ticker)]
      invariant forall t :: t in Tickers[..i] && LiveFile(t) in files ==> exists k :: 0 <= k < |gens| && gens[k].ticker == t
      invariant forall j, k :: 0 <= j < k < |gens| ==> gens[j].ticker != gens[k].ticker
    {
      var ticker := Tickers[i];
      assert Tickers[..i + 1] == Tickers[..i] + [ticker];
      assert ticker !in Tickers[..i];
      if LiveFile(ticker) in files {
        ghost var before := gens;
        gens := gens + [Cursor(ticker, files[LiveFile(ticker)], Fresh)];
        forall t | t in Tickers[..i + 1] && LiveFile(t) in files
          ensures exists k :: 0 <= k < |gens| && gens[k].ticker == t
        {
          if t == ticker {
            assert gens[|gens| - 1].ticker == t;
          } else {
            var k :| 0 <= k < |before| && before[k].ticker == t;
            assert gens[k].ticker == t;
          }
        }
      }
    }
    assert Tickers[..|Tickers|] == Tickers;
  }

  /** The outcome of one round over the generators: the ticks so far, and the exception that ended it, if any. */
  datatype Round = Round(ticks: seq<Tick>, cursors: seq<Cursor>, failure: Option<Failure>)

  /** Generator `i` advanced, unless an exception already ended the round. */
  function StepRound(prev: Round, i: nat, closes: map<string, real>, parse: string -> Option<real>): (r: Round)
    requires i < |prev.cursors|
    ensures |r.cursors| == |prev.cursors|
  {
    if prev.failure.Some? then prev
    else
      var (step, c) := Advance(prev.cursors[i], closes, parse);
      var cursors := prev.cursors[i := c];
      match step
      case Yielded(tick) => Round(prev.ticks + [tick], cursors, None)
      case Exhausted => Round(prev.ticks, cursors, None)
      case Raised(e) => Round(prev.ticks, cursors, Some(e))
  }

  /** One step of a round that has not failed: the generator's tick is added, or its exception ends the round. */
  lemma StepRoundIs(prev: Round, i: nat, closes: map<string, real>, parse: string -> Option<real>)
    requires i < |prev.cursors| && prev.failure.None?
    ensures var (step, c) := Advance(prev.cursors[i], closes, parse);
      StepRound(prev, i, closes, parse) ==
        Round(if step.Yielded? then prev.ticks + [step.tick] else prev.ticks, prev.cursors[i := c],
              if step.Raised? then Some(step.failure) else None)
  {
  }

  /** One step changes only generator `i`, keeps its ticker, and adds at most one tick, for that ticker. */
  lemma StepFacts(prev: Round, i: nat, closes: map<string, real>, parse: string -> Option<real>)
    requires i < |prev.cursors|
    ensures var r := StepRound(prev, i, closes, parse);
      && (forall k :: 0 <= k < |prev.cursors| && k != i ==> r.cursors[k] == prev.cursors[k])
      && r.cursors[i].ticker == prev.cursors[i].ticker
      && (r.ticks == prev.ticks || r.ticks == prev.ticks + [r.ticks[|prev.ticks|]])
      && (|r.ticks| > |prev.ticks| ==> r.ticks[|prev.ticks|].ticker == prev.cursors[i].ticker)
  {
    AdvanceFacts(prev.cursors[i], closes, parse);
    if prev.failure.None? {
      StepRoundIs(prev, i, closes, parse);
    }
  }

  /** The first `n` generators advanced once each, in order, stopping at the first exception. */
  function RoundUpTo(cs: seq<Cursor>, n: nat, closes: map<string, real>, parse: string -> Option<real>): (r: Round)
    requires n <= |cs|
    ensures |r.cursors| == |cs|
  {
    if n == 0 then Round([], cs, None)
    else StepRound(RoundUpTo(cs, n - 1, closes, parse), n - 1, closes, parse)
  }

  /** A round leaves the generators after the `n`-th alone and never changes a generator's ticker. */
  lemma {:induction false} RoundCursors(cs: seq<Cursor>, n: nat, closes: map<string, real>, parse: string -> Option<real>)
    requires n <= |cs|
    ensures var r := RoundUpTo(cs, n, closes, parse);
      && (forall k :: n <= k < |cs| ==> r.cursors[k] == cs[k])
      && (forall k :: 0 <= k < |cs| ==> r.cursors[k].ticker == cs[k].ticker)
  {
    if n > 0 {
      RoundCursors(cs, n - 1, closes, parse);
      StepFacts(RoundUpTo(cs, n - 1, closes, parse), n - 1, closes, parse);
    }
  }

  /**
   * A round yields at most one tick per generator, each for the ticker of
   * one of the generators advanced; when the generators are for distinct
   * tickers, no ticker gets two ticks.
   */
  lemma {:induction false} RoundOnePerTicker(cs: seq<Cursor>, n: nat, closes: map<string, real>, parse: string -> Option<real>)
    requires n <= |cs|
    requires forall i, j :: 0 <= i < j < |cs| ==> cs[i].ticker != cs[j].ticker
    ensures var r := RoundUpTo(cs, n, closes, parse);
      && |r.ticks| <= n
      && (forall k :: 0 <= k < |r.ticks| ==> exists j :: 0 <= j < n && r.ticks[k].ticker == cs[j].ticker)
      && (forall i, j :: 0 <= i < j < |r.ticks| ==> r.ticks[i].ticker != r.ticks[j].ticker)
  {
    if n > 0 {
      RoundOnePerTicker(cs, n - 1, closes, parse);
      RoundCursors(cs, n - 1, closes, parse);
      var prev := RoundUpTo(cs, n - 1, closes, parse);
      var r := StepRound(prev, n - 1, closes, parse);
      StepFacts(prev, n - 1, closes, parse);
      assert prev.cursors[n - 1] == cs[n - 1];
      if |r.ticks| > |prev.ticks| {
        var last := r.ticks[|prev.ticks|];
        assert r.ticks == prev.ticks + [last];
        assert last.ticker == cs[n - 1].ticker;
        forall i | 0 <= i < |prev.ticks| ensures prev.ticks[i].ticker != last.ticker {
          var j :| 0 <= j < n - 1 && prev.ticks[i].ticker == cs[j].ticker;
        }
      } else {
        assert r.ticks == prev.ticks;
      }
    }
  }

  /** The loaded simulation data (one instance, built at start-up). */
  class Loader {
    var historicalData: map<string, seq<HistRow>>
    var previousDayCloses: map<string, real>
    var newsData: map<string, seq<News.NewsItem>>
    var generators: seq<Cursor>
    /** Python's `float`, which the generators use to read prices. */
    const parse: string -> Option<real>

    /** `load_all_data`: historical data first (the generators read its closes), then news, then generators. */
    constructor (histFiles: map<string, HistFile>, newsFiles: seq<NewsFile>, liveFiles: map<string, seq<string>>, parse: string -> Option<real>)
      ensures historicalData == LoadedData(Tickers, histFiles) && previousDayCloses == LoadedCloses(Tickers, histFiles)
      ensures forall t :: t in historicalData <==> t in Tickers && LoadedRows(t, histFiles).Some?
      ensures forall t :: t in previousDayCloses <==> t in historicalData && |historicalData[t]| > 1
      ensures newsData == WithArticles(map[], JsonArticles(newsFiles))
      ensures forall k :: 0 <= k < |generators| ==> generators[k].pos == Fresh && generators[k].ticker in Tickers
      ensures forall k :: 0 <= k < |generators| ==>
        LiveFile(generators[k].ticker) in liveFiles && generators[k].lines == liveFiles[LiveFile(generators[k].ticker)]
      ensures forall t :: t in Tickers && LiveFile(t) in liveFiles ==> exists k :: 0 <= k < |generators| && generators[k].ticker == t
      ensures forall j, k :: 0 <= j < k < |generators| ==> generators[j].ticker != generators[k].ticker
      ensures this.parse == parse
    {
      var data, closes := LoadHistorical(histFiles);
      LoadedFacts(Tickers, histFiles);
      var news := LoadNews(newsFiles);
      this.parse := parse;
      historicalData, previousDayCloses := data, closes;
      newsData := news;
      var gens := CreateGenerators(liveFiles);
      generators := gens;
    }

    /**
     * `get_next_tick`: every generator advanced once, in order; a generator
     * that stops contributes nothing, and an exception ends the round and
     * propagates to the caller (the generators after it are not advanced).
     */
    method GetNextTick() returns (ticks: seq<Tick>, failure: Option<Failure>)
      modifies this`generators
      ensures RoundUpTo(old(generators), |old(generators)|, previousDayCloses, parse) == Round(ticks, generators, failure)
    {
      ticks, failure := [], None;
      ghost var start := generators;
      for i := 0 to |generators|
        invariant |generators| == |start|
        invariant RoundUpTo(start, i, previousDayCloses, parse) == Round(ticks, generators, failure)
      {
        ghost var prev := Round(ticks, generators, failure);
        if failure.None? {
          var (step, c) := Advance(generators[i], previousDayCloses, parse);
          StepRoundIs(prev, i, previousDayCloses, parse);
          generators := generators[i := c];
          match step {
            case Yielded(tick) => ticks := ticks + [tick];
            case Exhausted =>
            case Raised(e) => failure := Some(e);
          }
        }
      }
    }
  }
}
