/** Headlines and the "most recent first" selection both analyzers make. */
module News {
  import Text
  import Sorting

  /** A headline as the news loader stores it under a ticker. */
  datatype NewsItem = NewsItem(title: string, timePublished: string)

  /**
   * `a` comes before `b` when it was published later; publication times are
   * compared as strings, which for their fixed-width format is time order.
   */
  predicate NewerFirst(a: NewsItem, b: NewsItem)
  {
    Text.StrLt(b.timePublished, a.timePublished)
  }

  lemma NewerFirstIsStrictWeakOrder()
    ensures Sorting.StrictWeakOrder(NewerFirst)
  {
    forall a: NewsItem ensures !NewerFirst(a, a) {
      Text.StrLtIrreflexive(a.timePublished);
    }
    forall a: NewsItem, b: NewsItem, c: NewsItem | NewerFirst(a, b) && NewerFirst(b, c)
      ensures NewerFirst(a, c)
    {
      Text.StrLtTransitive(c.timePublished, b.timePublished, a.timePublished);
    }
    forall a: NewsItem, b: NewsItem, c: NewsItem | !NewerFirst(a, b) && !NewerFirst(b, c)
      ensures !NewerFirst(a, c)
    {
      Text.StrLeTransitive(c.timePublished, b.timePublished, a.timePublished);
    }
  }

  /**
   * `sorted(items, key=time_published, reverse=True)[:n]`: the sort is
   * stable, so headlines published at the same time keep their order.
   */
  function Recent(items: seq<NewsItem>, n: nat): seq<NewsItem>
  {
    var sorted := Sorting.SortBy(items, NewerFirst);
    if n <= |sorted| then sorted[..n] else sorted
  }

  /**
   * The selection has `min(n, |items|)` headlines, all taken from `items`,
   * newest first, and no headline left out is newer than one kept.
   */
  lemma RecentIsNewest(items: seq<NewsItem>, n: nat)
    ensures var r := Recent(items, n);
      var sorted := Sorting.SortBy(items, NewerFirst);
      && |r| == (if n <= |items| then n else |items|)
      && multiset(r) <= multiset(items)
      && (forall i, j :: 0 <= i < j < |r| ==> r[j].timePublished == r[i].timePublished || Text.StrLt(r[j].timePublished, r[i].timePublished))
      && (forall i, j :: 0 <= i < |r| <= j < |sorted| ==> !Text.StrLt(r[i].timePublished, sorted[j].timePublished))
  {
    var sorted := Sorting.SortBy(items, NewerFirst);
    var r := Recent(items, n);
    NewerFirstIsStrictWeakOrder();
    Sorting.SortBySorted(items, NewerFirst);
    assert sorted == r + sorted[|r|..];
    assert multiset(sorted) == multiset(r) + multiset(sorted[|r|..]);
    forall i, j | 0 <= i < j < |r|
      ensures r[j].timePublished == r[i].timePublished || Text.StrLt(r[j].timePublished, r[i].timePublished)
    {
      assert !NewerFirst(sorted[j], sorted[i]);
      Text.StrLtTotal(r[i].timePublished, r[j].timePublished);
    }
    forall i, j | 0 <= i < |r| <= j < |sorted|
      ensures !Text.StrLt(r[i].timePublished, sorted[j].timePublished)
    {
      Sorting.PrefixDominates(sorted, NewerFirst, |r|, i, j);
    }
  }
}
