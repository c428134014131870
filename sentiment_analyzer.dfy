/**
 * The synchronous headline analyzer: one model call per headline not yet
 * seen, made one after another, with every classification cached,
 * including the error marker of a failed call.
 */
module SentimentAnalysis {
  import opened Wrappers
  import opened Llm
  import Text
  import News
  import GenAI

  /** How many of a ticker's headlines are analysed. */
  const RecentHeadlines: nat := 5

  /**
   * `_analyze_headline` on the model's reply: the stripped, lower-cased
   * `response` field (empty when missing) is Bullish when it mentions
   * "bullish", else Bearish when it mentions "bearish", else Neutral; any
   * failed request, be it no connection, an error status or a body that is
   * not JSON, gives Error.
   */
  function Classify(reply: Reply): (s: GenAI.Sentiment)
    ensures s == GenAI.Error <==> !reply.Answered?
    ensures reply.Answered? ==>
      var text := Text.Lower(Text.Strip(reply.response.GetOr("")));
      && (s == GenAI.Bullish <==> Text.Contains(text, "bullish"))
      && (s == GenAI.Bearish <==> !Text.Contains(text, "bullish") && Text.Contains(text, "bearish"))
  {
    match reply
    case Answered(r) =>
      var text := Text.Lower(Text.Strip(r.GetOr("")));
      if Text.Contains(text, "bullish") then GenAI.Bullish
      else if Text.Contains(text, "bearish") then GenAI.Bearish
      else GenAI.Neutral
    case Unreachable => GenAI.Error
    case Rejected => GenAI.Error
  }

  /** The classification a fresh call gives for a headline. */
  function Classified(headline: string, ask: Prompt -> Reply): GenAI.Sentiment
  {
    Classify(ask(HeadlineClassification(headline)))
  }

  /** The empty text mentions nothing. */
  lemma EmptyMentionsNothing(needle: string)
    requires |needle| > 0
    ensures !Text.Contains(Text.Lower(Text.Strip("")), needle)
  {
    assert Text.Strip("") == "";
    Text.NoFirstCharNoContains(Text.Lower(""), needle);
  }

  /** The fixed text for a missing `response` field in the other analyzer names no sentiment. */
  lemma NoResponseIsNeutral()
    ensures GenAI.Normalize(Text.Strip(GenAI.NoResponse)) == GenAI.Neutral
  {
    var s := GenAI.NoResponse;
    assert !Text.IsSpace(s[0]) && !Text.IsSpace(s[|s| - 1]);
    assert Text.TrimStart(s) == s;
    assert Text.Strip(s) == s;
    assert 'b' !in "No respo" && 'B' !in "No respo";
    assert 'b' !in "nse from" && 'B' !in "nse from";
    assert 'b' !in " model." && 'B' !in " model.";
    Text.LowerLacks(s, 'b');
    Text.NoFirstCharNoContains(Text.Lower(s), "bullish");
    Text.NoFirstCharNoContains(Text.Lower(s), "bearish");
  }

  /**
   * Both analyzers read a model answer alike: for a reply that arrived, the
   * classification here is the one the asynchronous analyzer gives the same
   * reply. They differ only on failures: here an unreachable model and a
   * rejected reply both give Error, there the first is Neutral and the
   * second raises.
   */
  lemma AgreesWithAsyncAnalyzer(reply: Reply)
    requires reply.Answered?
    ensures GenAI.RunPrompt(reply).Some?
    ensures Classify(reply) == GenAI.Normalize(GenAI.RunPrompt(reply).value)
  {
    if reply.response.None? {
      EmptyMentionsNothing("bullish");
      EmptyMentionsNothing("bearish");
      NoResponseIsNeutral();
    }
  }

  /** The headlines of some news items. */
  function Titles(items: seq<News.NewsItem>): (t: set<string>)
    ensures forall i :: 0 <= i < |items| ==> items[i].title in t
    ensures forall h :: h in t ==> exists i :: 0 <= i < |items| && items[i].title == h
  {
    set i | 0 <= i < |items| :: items[i].title
  }

  lemma TitlesStep(items: seq<News.NewsItem>, i: nat)
    requires i < |items|
    ensures Titles(items[..i + 1]) == Titles(items[..i]) + {items[i].title}
  {
    var a, b := items[..i + 1], items[..i];
    forall h | h in Titles(a) ensures h in Titles(b) + {items[i].title} {
      var k :| 0 <= k < |a| && a[k].title == h;
      if k < i {
        assert b[k] == a[k];
      }
    }
    forall h | h in Titles(b) + {items[i].title} ensures h in Titles(a) {
      if h != items[i].title {
        var k :| 0 <= k < |b| && b[k].title == h;
        assert a[k] == b[k];
      } else {
        assert a[i] == items[i];
      }
    }
  }

  /** `results` holds, item by item, each headline with its fresh classification. */
  ghost predicate Answers(results: seq<GenAI.Analyzed>, items: seq<News.NewsItem>, ask: Prompt -> Reply)
  {
    |results| == |items| &&
    forall k :: 0 <= k < |items| ==> results[k] == GenAI.Analyzed(items[k].title, Classified(items[k].title, ask))
  }

  lemma AnswersStep(results: seq<GenAI.Analyzed>, items: seq<News.NewsItem>, i: nat, ask: Prompt -> Reply)
    requires i < |items| && Answers(results, items[..i], ask)
    ensures Answers(results + [GenAI.Analyzed(items[i].title, Classified(items[i].title, ask))], items[..i + 1], ask)
  {
    assert forall k :: 0 <= k < i ==> items[..i + 1][k] == items[..i][k];
  }

  /** The cache only holds what a fresh call would give. */
  ghost predicate CacheSound(cache: map<string, GenAI.Sentiment>, ask: Prompt -> Reply)
  {
    forall h :: h in cache ==> cache[h] == Classified(h, ask)
  }

  /** The cache once a headline has been looked up: unchanged when it was there, else with its fresh classification. */
  function Record(cache: map<string, GenAI.Sentiment>, h: string, ask: Prompt -> Reply): map<string, GenAI.Sentiment>
  {
    if h in cache then cache else cache[h := Classified(h, ask)]
  }

  /** Looking a headline up keeps a sound cache sound and adds exactly that headline to its keys. */
  lemma Recorded(cache: map<string, GenAI.Sentiment>, h: string, ask: Prompt -> Reply)
    requires CacheSound(cache, ask)
    ensures CacheSound(Record(cache, h, ask), ask)
    ensures Record(cache, h, ask).Keys == cache.Keys + {h}
    ensures Record(cache, h, ask)[h] == Classified(h, ask)
  {
  }

  class SentimentAnalyzer {
    var cache: map<string, GenAI.Sentiment>

    constructor ()
      ensures cache == map[]
    {
      cache := map[];
    }

    /**
     * `get_sentiment_for_ticker`: the five most recent headlines of the
     * ticker, in that order, each with its cached classification or a fresh
     * one that is then cached. Every headline ends up cached, and with a
     * sound cache every answer is what a fresh call gives.
     */
    method GetSentimentForTicker(news: map<string, seq<News.NewsItem>>, ticker: string, ask: Prompt -> Reply)
      returns (r: seq<GenAI.Analyzed>)
      requires CacheSound(cache, ask)
      modifies this`cache
      ensures CacheSound(cache, ask)
      ensures var recent := News.Recent(GenAI.NewsFor(news, ticker), RecentHeadlines);
        && cache.Keys == old(cache).Keys + Titles(recent)
        && Answers(r, recent, ask)
    {
      r := AnalyzeHeadlines(News.Recent(GenAI.NewsFor(news, ticker), RecentHeadlines), ask);
    }

    /** One headline: its cached classification, or a fresh one that is then cached. */
    method Lookup(headline: string, ask: Prompt -> Reply) returns (sentiment: GenAI.Sentiment)
      requires CacheSound(cache, ask)
      modifies this`cache
      ensures cache == Record(old(cache), headline, ask)
      ensures sentiment == Classified(headline, ask)
    {
      if headline in cache {
        sentiment := cache[headline];
      } else {
        sentiment := Classified(headline, ask);
        cache := cache[headline := sentiment];
      }
    }

    /** The loop of `get_sentiment_for_ticker` over the chosen headlines, in order. */
    method AnalyzeHeadlines(recent: seq<News.NewsItem>, ask: Prompt -> Reply) returns (r: seq<GenAI.Analyzed>)
      requires CacheSound(cache, ask)
      modifies this`cache
      ensures CacheSound(cache, ask)
      ensures cache.Keys == old(cache).Keys + Titles(recent)
      ensures Answers(r, recent, ask)
    {
      ghost var start := cache;
      r := [];
      for i := 0 to |recent|
        invariant CacheSound(cache, ask)
        invariant cache.Keys == start.Keys + Titles(recent[..i])
        invariant Answers(r, recent[..i], ask)
      {
        var headline := recent[i].title;
        ghost var before := cache;
        var sentiment := Lookup(headline, ask);
        Recorded(before, headline, ask);
        TitlesStep(recent, i);
        AnswersStep(r, recent, i, ask);
        r := r + [GenAI.Analyzed(headline, sentiment)];
      }
      assert recent[..|recent|] == recent;
    }
  }
}
