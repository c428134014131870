/**
 * A stable insertion sort over a "comes strictly before" relation, the
 * model of JavaScript's `Array.prototype.sort` with a comparator and of
 * Python's `sorted(..., key=...)` (both stable).
 */
module Sorting {

  /** `lt` orders by a key: irreflexive, transitive, and "not before" is transitive too. */
  ghost predicate StrictWeakOrder<T(!new)>(lt: (T, T) -> bool) {
    && (forall a :: !lt(a, a))
    && (forall a, b, c :: lt(a, b) && lt(b, c) ==> lt(a, c))
    && (forall a, b, c :: !lt(a, b) && !lt(b, c) ==> !lt(a, c))
  }

  /** No element comes strictly before an element to its left. */
  ghost predicate SortedBy<T>(s: seq<T>, lt: (T, T) -> bool) {
    forall i, j :: 0 <= i < j < |s| ==> !lt(s[j], s[i])
  }

  /** Insert `x` in front of the first element that does not come strictly before it. */
  function Insert<T>(x: T, s: seq<T>, lt: (T, T) -> bool): (r: seq<T>)
    ensures multiset(r) == multiset(s) + multiset{x}
  {
    if |s| == 0 then [x]
    else if !lt(s[0], x) then [x] + s
    else
      assert s == [s[0]] + s[1..];
      [s[0]] + Insert(x, s[1..], lt)
  }

  /** Stable sort: equal elements keep their relative order. */
  function SortBy<T>(s: seq<T>, lt: (T, T) -> bool): (r: seq<T>)
    ensures multiset(r) == multiset(s)
    ensures |r| == |s|
  {
    if |s| == 0 then []
    else
      assert s == [s[0]] + s[1..];
      Insert(s[0], SortBy(s[1..], lt), lt)
  }

  lemma {:induction false} InsertSorted<T(!new)>(x: T, s: seq<T>, lt: (T, T) -> bool)
    requires StrictWeakOrder(lt) && SortedBy(s, lt)
    ensures SortedBy(Insert(x, s, lt), lt)
  {
    if |s| > 0 && lt(s[0], x) {
      InsertSorted(x, s[1..], lt);
      var r := Insert(x, s, lt);
      var tail := Insert(x, s[1..], lt);
      assert r == [s[0]] + tail;
      forall j | 0 < j < |r| ensures !lt(r[j], s[0]) {
        assert r[j] in multiset(tail);
        assert r[j] in multiset(s[1..]) + multiset{x};
        if r[j] != x {
          assert r[j] in s[1..];
          var k :| 0 <= k < |s[1..]| && s[1..][k] == r[j];
          assert s[k + 1] == r[j];
        }
      }
    }
  }

  /** The sort's output is sorted. */
  lemma {:induction false} SortBySorted<T(!new)>(s: seq<T>, lt: (T, T) -> bool)
    requires StrictWeakOrder(lt)
    ensures SortedBy(SortBy(s, lt), lt)
  {
    if |s| > 0 {
      SortBySorted(s[1..], lt);
      InsertSorted(s[0], SortBy(s[1..], lt), lt);
    }
  }

  predicate Tied<T>(a: T, b: T, lt: (T, T) -> bool) {
    !lt(a, b) && !lt(b, a)
  }

  /** The elements of `s` tied with `y`, in their order in `s`. */
  function Ties<T>(s: seq<T>, y: T, lt: (T, T) -> bool): seq<T> {
    if |s| == 0 then []
    else (if Tied(s[0], y, lt) then [s[0]] else []) + Ties(s[1..], y, lt)
  }

  /** Inserting `x` puts it in front of every element it is tied with. */
  lemma InsertTies<T(!new)>(x: T, s: seq<T>, y: T, lt: (T, T) -> bool)
    requires StrictWeakOrder(lt)
    ensures Ties(Insert(x, s, lt), y, lt) == (if Tied(x, y, lt) then [x] else []) + Ties(s, y, lt)
  {
    forall i | 0 <= i < |s| && lt(s[i], x) && Tied(x, y, lt)
      ensures !Tied(s[i], y, lt)
    {
      assert !lt(y, x);
    }
    InsertTiesPast(x, s, y, lt);
  }

  /** The same, given only that nothing `x` is inserted after is tied with it. */
  lemma {:induction false} InsertTiesPast<T>(x: T, s: seq<T>, y: T, lt: (T, T) -> bool)
    requires forall i :: 0 <= i < |s| && lt(s[i], x) && Tied(x, y, lt) ==> !Tied(s[i], y, lt)
    ensures Ties(Insert(x, s, lt), y, lt) == (if Tied(x, y, lt) then [x] else []) + Ties(s, y, lt)
  {
    if |s| == 0 {
    } else if !lt(s[0], x) {
      TiesCons(x, s, y, lt);
    } else {
      var t := s[1..];
      assert forall i :: 0 <= i < |t| && lt(t[i], x) && Tied(x, y, lt) ==> !Tied(t[i], y, lt) by {
        assert forall i :: 0 <= i < |t| ==> t[i] == s[i + 1];
      }
      InsertTiesPast(x, t, y, lt);
      assert Insert(x, s, lt) == [s[0]] + Insert(x, t, lt);
      TiesCons(s[0], Insert(x, t, lt), y, lt);
      assert s == [s[0]] + t;
      TiesCons(s[0], t, y, lt);
    }
  }

  lemma TiesCons<T>(a: T, t: seq<T>, y: T, lt: (T, T) -> bool)
    ensures Ties([a] + t, y, lt) == (if Tied(a, y, lt) then [a] else []) + Ties(t, y, lt)
  {
    assert ([a] + t)[1..] == t;
  }

  /** The sort is stable: the elements tied with any `y` come out in the order they went in. */
  lemma {:induction false} SortByStable<T(!new)>(s: seq<T>, y: T, lt: (T, T) -> bool)
    requires StrictWeakOrder(lt)
    ensures Ties(SortBy(s, lt), y, lt) == Ties(s, y, lt)
  {
    if |s| > 0 {
      SortByStable(s[1..], y, lt);
      InsertTies(s[0], SortBy(s[1..], lt), y, lt);
    }
  }

  /** In a sorted sequence everything in the first `n` places comes no later than the rest. */
  lemma PrefixDominates<T>(s: seq<T>, lt: (T, T) -> bool, n: nat, i: int, j: int)
    requires SortedBy(s, lt)
    requires 0 <= i < n <= j < |s|
    ensures !lt(s[j], s[i])
  {
  }

  /** The first element of a sorted sequence comes no later than any other element. */
  lemma HeadIsFirst<T>(t: seq<T>, x: T, lt: (T, T) -> bool)
    requires SortedBy(t, lt) && |t| > 0
    ensures x in t && x != t[0] ==> !lt(x, t[0])
  {
    if x in t && x != t[0] {
      var k :| 0 <= k < |t| && t[k] == x;
    }
  }

  /** Two sorted arrangements of the same elements start with the same element when no two differ while tied. */
  lemma SortedSameHead<T>(s: seq<T>, t: seq<T>, lt: (T, T) -> bool)
    requires SortedBy(s, lt) && SortedBy(t, lt)
    requires |s| > 0 && multiset(s) == multiset(t)
    requires s[0] != t[0] ==> lt(s[0], t[0]) || lt(t[0], s[0])
    ensures |t| > 0 && s[0] == t[0]
  {
    assert s[0] in multiset(t) && |t| > 0;
    assert t[0] in multiset(s);
    HeadIsFirst(t, s[0], lt);
    HeadIsFirst(s, t[0], lt);
  }

  lemma TailFacts<T>(s: seq<T>, lt: (T, T) -> bool)
    requires |s| > 0 && SortedBy(s, lt)
    ensures SortedBy(s[1..], lt)
    ensures multiset(s[1..]) == multiset(s) - multiset{s[0]}
    ensures forall x :: x in s[1..] ==> x in s
  {
    assert s == [s[0]] + s[1..];
  }

  /**
   * When `lt` is total on the elements (no two different elements are tied),
   * there is exactly one sorted arrangement of them.
   */
  lemma {:induction false} SortedUnique<T>(s: seq<T>, t: seq<T>, lt: (T, T) -> bool)
    requires SortedBy(s, lt) && SortedBy(t, lt)
    requires multiset(s) == multiset(t)
    requires forall x, y :: x in s && y in s && x != y ==> lt(x, y) || lt(y, x)
    ensures s == t
    decreases |s|
  {
    assert |s| == |multiset(s)| == |multiset(t)| == |t|;
    if |s| > 0 {
      assert s[0] in s && t[0] in multiset(s);
      SortedSameHead(s, t, lt);
      var s', t' := s[1..], t[1..];
      TailFacts(s, lt);
      TailFacts(t, lt);
      assert multiset(s') == multiset(t');
      SortedUnique(s', t', lt);
      assert s == [s[0]] + s' && t == [t[0]] + t';
    }
  }
}
