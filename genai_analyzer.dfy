/**
 * The asynchronous analyzer: headline sentiments with a cache, the
 * portfolio briefing and the chart description.
 */
module GenAI {
  import opened Wrappers
  import opened Llm
  import Text
  import News

  /** The text used when the reply has no `response` field. */
  const NoResponse: string := "No respo" + "nse from" + " model."
  /** The text returned when the model cannot be reached. Both texts are written in pieces so lemmas can look inside them. */
  const ConnectionError: string := "Error: Coul" + "d not conne" + "ct to the G" + "enerative A" + "I model."
  const NoHoldings: string := "You have no holdings in your portfolio to analyze."
  const NotEnoughData: string := "Not enough data to perform analysis."

  /** How many headlines the sentiment view and the briefing take per ticker. */
  const SentimentHeadlines: nat := 5
  const BriefingHeadlines: nat := 3
  /** How many of the latest closes the chart description looks at. */
  const ChartWindow: nat := 20

  datatype Sentiment = Bullish | Bearish | Neutral | Error

  /**
   * `_run_genai_prompt`: the stripped `response` field (a fixed text when it
   * is missing), a fixed error text when the model cannot be reached; a
   * rejected reply is an exception (`None`) that the caller does not catch.
   */
  function RunPrompt(reply: Reply): Option<string>
  {
    match reply
    case Answered(r) => Some(Text.Strip(r.GetOr(NoResponse)))
    case Unreachable => Some(ConnectionError)
    case Rejected => None
  }

  /** The validation of a model answer: the first of "bullish" or "bearish" found, ignoring case, else Neutral. */
  function Normalize(text: string): (s: Sentiment)
    ensures s != Error
    ensures s == Bullish <==> Text.Contains(Text.Lower(text), "bullish")
    ensures s == Bearish <==> !Text.Contains(Text.Lower(text), "bullish") && Text.Contains(Text.Lower(text), "bearish")
  {
    if Text.Contains(Text.Lower(text), "bullish") then Bullish
    else if Text.Contains(Text.Lower(text), "bearish") then Bearish
    else Neutral
  }

  /** The analysis of one headline without the cache; `None` when the call raised. */
  function Analysis(headline: string, ask: Prompt -> Reply): Option<Sentiment>
  {
    match RunPrompt(ask(HeadlineSentiment(headline)))
    case Some(text) => Some(Normalize(text))
    case None => None
  }

  /** The connection error text has no letter b in any case. */
  lemma ConnectionErrorLacksB()
    ensures 'b' !in Text.Lower(ConnectionError)
  {
    assert 'b' !in "Error: Coul" && 'B' !in "Error: Coul";
    assert 'b' !in "d not conne" && 'B' !in "d not conne";
    assert 'b' !in "ct to the G" && 'B' !in "ct to the G";
    assert 'b' !in "enerative A" && 'B' !in "enerative A";
    assert 'b' !in "I model." && 'B' !in "I model.";
    assert ('b' as int - 32) as char == 'B';
    Text.LowerLacks(ConnectionError, 'b');
  }

  /** When the model cannot be reached, the error text is read as a Neutral sentiment. */
  lemma UnreachableReadsNeutral(headline: string, ask: Prompt -> Reply)
    requires ask(HeadlineSentiment(headline)) == Unreachable
    ensures Analysis(headline, ask) == Some(Neutral)
  {
    ConnectionErrorLacksB();
    Text.NoFirstCharNoContains(Text.Lower(ConnectionError), "bullish");
    Text.NoFirstCharNoContains(Text.Lower(ConnectionError), "bearish");
    assert RunPrompt(ask(HeadlineSentiment(headline))) == Some(ConnectionError);
  }

  datatype Analyzed = Analyzed(headline: string, sentiment: Sentiment)

  function NewsFor(news: map<string, seq<News.NewsItem>>, ticker: string): seq<News.NewsItem>
  {
    if ticker in news then news[ticker] else []
  }

  /** The cache only holds what analysing the headline afresh would give. */
  ghost predicate CacheSound(cache: map<string, Sentiment>, ask: Prompt -> Reply)
  {
    forall h :: h in cache ==> Analysis(h, ask) == Some(cache[h])
  }

  /**
   * What the cache gains: every headline not cached at the start whose
   * analysis completed, with its analysis (the order the analyses finish
   * in does not matter, since a headline's analysis is fixed).
   */
  function Learned(cache: map<string, Sentiment>, items: seq<News.NewsItem>, ask: Prompt -> Reply): map<string, Sentiment>
  {
    if |items| == 0 then map[]
    else
      var h := items[|items| - 1].title;
      Learned(cache, items[..|items| - 1], ask)
        + (if h !in cache && Analysis(h, ask).Some? then map[h := Analysis(h, ask).value] else map[])
  }

  /** Every headline can be answered: from the cache or by a completed call. */
  ghost predicate AllAnswered(cache: map<string, Sentiment>, items: seq<News.NewsItem>, ask: Prompt -> Reply)
  {
    forall i :: 0 <= i < |items| ==> items[i].title in cache || Analysis(items[i].title, ask).Some?
  }

  /** Learning one more headline: it is added when it was not cached and its analysis completed. */
  lemma LearnedStep(cache: map<string, Sentiment>, items: seq<News.NewsItem>, i: nat, ask: Prompt -> Reply)
    requires i < |items|
    ensures var h := items[i].title;
      Learned(cache, items[..i + 1], ask) == Learned(cache, items[..i], ask)
        + (if h !in cache && Analysis(h, ask).Some? then map[h := Analysis(h, ask).value] else map[])
  {
    assert items[..i + 1][..i] == items[..i];
  }

  /** Answering one more headline. */
  lemma AllAnsweredStep(cache: map<string, Sentiment>, items: seq<News.NewsItem>, i: nat, ask: Prompt -> Reply)
    requires i < |items|
    ensures AllAnswered(cache, items[..i + 1], ask) <==>
      AllAnswered(cache, items[..i], ask) && (items[i].title in cache || Analysis(items[i].title, ask).Some?)
  {
    assert items[..i + 1][i] == items[i];
    assert forall k :: 0 <= k < i ==> items[..i + 1][k] == items[..i][k];
  }

  /** `results` holds, item by item, each headline with what a fresh analysis of it gives. */
  ghost predicate Answers(results: seq<Analyzed>, items: seq<News.NewsItem>, ask: Prompt -> Reply)
  {
    |results| == |items| &&
    forall k :: 0 <= k < |items| ==>
      results[k].headline == items[k].title && Analysis(items[k].title, ask) == Some(results[k].sentiment)
  }

  lemma AnswersStep(results: seq<Analyzed>, items: seq<News.NewsItem>, i: nat, a: Analyzed, ask: Prompt -> Reply)
    requires i < |items| && Answers(results, items[..i], ask)
    requires a.headline == items[i].title && Analysis(a.headline, ask) == Some(a.sentiment)
    ensures Answers(results + [a], items[..i + 1], ask)
  {
    assert forall k :: 0 <= k < i ==> items[..i + 1][k] == items[..i][k];
  }

  lemma UpdateIsAdd<K, V>(a: map<K, V>, b: map<K, V>, k: K, v: V)
    ensures (a + b)[k := v] == a + (b + map[k := v])
  {
  }

  /** The state of the analyses after the first `i` headlines. */
  ghost predicate Progress(start: map<string, Sentiment>, items: seq<News.NewsItem>, i: nat,
                           cache: map<string, Sentiment>, results: seq<Analyzed>, failed: bool, ask: Prompt -> Reply)
  {
    i <= |items|
    && CacheSound(cache, ask)
    && cache == start + Learned(start, items[..i], ask)
    && (failed <==> !AllAnswered(start, items[..i], ask))
    && (!failed ==> Answers(results, items[..i], ask))
  }

  /** Analysing headline `i` moves the state on by one headline. */
  lemma ProgressStep(start: map<string, Sentiment>, items: seq<News.NewsItem>, i: nat,
                     cache: map<string, Sentiment>, results: seq<Analyzed>, failed: bool,
                     s: Option<Sentiment>, ask: Prompt -> Reply)
    requires i < |items| && CacheSound(start, ask) && Progress(start, items, i, cache, results, failed, ask)
    requires s == Analysis(items[i].title, ask)
    requires items[i].title in start ==> s == Some(start[items[i].title])
    ensures var h := items[i].title;
      Progress(start, items, i + 1,
        if h !in start && s.Some? then cache[h := s.value] else cache,
        if s.Some? then results + [Analyzed(h, s.value)] else results,
        failed || s.None?, ask)
  {
    var h := items[i].title;
    LearnedStep(start, items, i, ask);
    AllAnsweredStep(start, items, i, ask);
    if h !in start && s.Some? {
      UpdateIsAdd(start, Learned(start, items[..i], ask), h, s.value);
    } else {
      assert Learned(start, items[..i + 1], ask) == Learned(start, items[..i], ask);
    }
    if s.Some? && !failed {
      AnswersStep(results, items, i, Analyzed(h, s.value), ask);
    }
  }

  class GenAIAnalyzer {
    var cache: map<string, Sentiment>

    constructor ()
      ensures cache == map[]
    {
      cache := map[];
    }

    /**
     * `analyze_headline`: the cached sentiment when `start`, the cache as
     * the concurrent analyses saw it, has the headline; otherwise the
     * model's classification, which is then cached. `None` when the call
     * raised, leaving the cache as it was.
     */
    method AnalyzeHeadline(headline: string, start: map<string, Sentiment>, ask: Prompt -> Reply)
      returns (s: Option<Sentiment>)
      requires CacheSound(start, ask) && CacheSound(cache, ask)
      modifies this`cache
      ensures s == Analysis(headline, ask)
      ensures headline in start ==> s == Some(start[headline])
      ensures cache == if headline !in start && s.Some? then old(cache)[headline := s.value] else old(cache)
      ensures CacheSound(cache, ask)
    {
      if headline in start {
        return Some(start[headline]);
      }
      var text := RunPrompt(ask(HeadlineSentiment(headline)));
      if text.Some? {
        var sentiment := Normalize(text.value);
        cache := cache[headline := sentiment];
        s := Some(sentiment);
      } else {
        s := None;
      }
    }

    /**
     * `get_sentiment_for_ticker`: the five most recent headlines of the
     * ticker, each answered from the cache or by asking the model. The
     * analyses run together, so every lookup sees the cache as it was when
     * they started; each completed analysis is then cached. One raised call
     * makes the whole request fail (`None`), though the others still cache
     * their answers. With a sound cache, every answer is what a fresh
     * analysis gives, and the cache stays sound.
     */
    method GetSentimentForTicker(news: map<string, seq<News.NewsItem>>, ticker: string, ask: Prompt -> Reply)
      returns (r: Option<seq<Analyzed>>)
      requires CacheSound(cache, ask)
      modifies this`cache
      ensures CacheSound(cache, ask)
      ensures var recent := News.Recent(NewsFor(news, ticker), SentimentHeadlines);
        && cache == old(cache) + Learned(old(cache), recent, ask)
        && (r.Some? <==> AllAnswered(old(cache), recent, ask))
        && (r.Some? ==> Answers(r.value, recent, ask))
    {
      var recent := News.Recent(NewsFor(news, ticker), SentimentHeadlines);
      var start := cache;
      var results: seq<Analyzed> := [];
      var failed := false;
      for i := 0 to |recent|
        invariant CacheSound(start, ask)
        invariant Progress(start, recent, i, cache, results, failed, ask)
      {
        ghost var before := cache;
        var sentiment := AnalyzeHeadline(recent[i].title, start, ask);
        ProgressStep(start, recent, i, before, results, failed, sentiment, ask);
        if sentiment.Some? {
          results := results + [Analyzed(recent[i].title, sentiment.value)];
        } else {
          failed := true;
        }
      }
      assert recent[..|recent|] == recent;
      r := if failed then None else Some(results);
    }
  }

  /** The briefing's line for one holding: its latest three headlines. */
  function NewsLine(news: map<string, seq<News.NewsItem>>, ticker: string): string
  {
    var recent := News.Recent(NewsFor(news, ticker), BriefingHeadlines);
    "News for " + ticker + ": " + Text.JoinWith(seq(|recent|, i requires 0 <= i < |recent| => recent[i].title), "; ")
  }

  /** The prompt of the briefing, for the holdings in the account's order, or none when nothing is held. */
  function BriefingPrompt(holdings: seq<(string, int)>, news: map<string, seq<News.NewsItem>>): (p: Option<Prompt>)
    ensures p.None? <==> |holdings| == 0
    ensures p.Some? ==> (p.value.Briefing?
      && p.value.holdingsText == Text.JoinWith(seq(|holdings|, i requires 0 <= i < |holdings| => Text.IntText(holdings[i].1) + " shares of " + holdings[i].0), ", ")
      && p.value.newsText == Text.JoinWith(seq(|holdings|, i requires 0 <= i < |holdings| => NewsLine(news, holdings[i].0)), "\n"))
  {
    if |holdings| == 0 then None
    else
      var holdingsText := Text.JoinWith(seq(|holdings|, i requires 0 <= i < |holdings| => Text.IntText(holdings[i].1) + " shares of " + holdings[i].0), ", ");
      var newsText := Text.JoinWith(seq(|holdings|, i requires 0 <= i < |holdings| => NewsLine(news, holdings[i].0)), "\n");
      Some(Briefing(holdingsText, newsText))
  }

  /** `generate_portfolio_briefing`: a fixed reply when nothing is held, otherwise the model's answer. */
  function GeneratePortfolioBriefing(holdings: seq<(string, int)>, news: map<string, seq<News.NewsItem>>, ask: Prompt -> Reply): (r: Option<string>)
    ensures |holdings| == 0 ==> r == Some(NoHoldings)
    ensures |holdings| > 0 ==> r == RunPrompt(ask(BriefingPrompt(holdings, news).value))
  {
    match BriefingPrompt(holdings, news)
    case None => Some(NoHoldings)
    case Some(p) => RunPrompt(ask(p))
  }

  /**
   * The prompt of the chart description: at least two closes are needed;
   * the latest twenty (or all, if fewer) are shown with the first and last
   * of them as start and end price.
   */
  function ChartPrompt(ticker: string, closes: seq<real>): (p: Option<Prompt>)
    ensures p.None? <==> |closes| < 2
    ensures p.Some? ==> (p.value.ChartTrend? && p.value.ticker == ticker
      && 2 <= |p.value.closes| <= ChartWindow
      && |p.value.closes| == (if |closes| < ChartWindow then |closes| else ChartWindow)
      && p.value.closes == closes[|closes| - |p.value.closes|..]
      && p.value.startPrice == p.value.closes[0]
      && p.value.endPrice == closes[|closes| - 1])
  {
    if |closes| < 2 then None
    else
      var points := if |closes| <= ChartWindow then closes else closes[|closes| - ChartWindow..];
      Some(ChartTrend(ticker, points, points[0], points[|points| - 1]))
  }

  /** `analyze_chart_data`: a fixed reply for fewer than two closes, otherwise the model's answer. */
  function AnalyzeChartData(ticker: string, closes: seq<real>, ask: Prompt -> Reply): (r: Option<string>)
    ensures |closes| < 2 ==> r == Some(NotEnoughData)
    ensures |closes| >= 2 ==> r == RunPrompt(ask(ChartPrompt(ticker, closes).value))
  {
    match ChartPrompt(ticker, closes)
    case None => Some(NotEnoughData)
    case Some(p) => RunPrompt(ask(p))
  }
}
