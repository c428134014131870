/**
 * The pinned-tickers list: pin appends a ticker that is not yet there,
 * unpin filters every occurrence out, toggle does one or the other, and
 * every list the hook holds is written back to browser storage.
 */
module Pinned {
  import opened Wrappers

  /** The storage key the list is kept under. */
  const PinnedKey: string := "pinned_tickers"

  /** What reading the key back gives before the list is first set. */
  datatype Stored =
    | Missing                    // no value under the key: `JSON.parse(null)` is `null`
    | Unparseable                // `JSON.parse` throws
    | ParsedFalsy                // a JSON value that is falsy: `null`, `false`, `0`, `""`
    | ParsedList(items: seq<string>)

  /** The hook's initial list. */
  function Initial(stored: Stored): (r: seq<string>)
    ensures stored.ParsedList? ==> r == stored.items
    ensures !stored.ParsedList? ==> r == []
  {
    match stored
    case ParsedList(items) => items
    case _ => []
  }

  /** `pin`: append the ticker at the end, unless it is already there. */
  function Pin(l: seq<string>, x: string): (r: seq<string>)
    ensures x in r
    ensures x in l ==> r == l
    ensures x !in l ==> r == l + [x]
  {
    if x in l then l else l + [x]
  }

  /** `unpin`: the list without any occurrence of the ticker. */
  function Unpin(l: seq<string>, x: string): seq<string>
  {
    if |l| == 0 then []
    else (if l[0] == x then [] else [l[0]]) + Unpin(l[1..], x)
  }

  /** `toggle`: remove the ticker if it is there, else append it. */
  function Toggle(l: seq<string>, x: string): seq<string>
  {
    if x in l then Unpin(l, x) else l + [x]
  }

  /** `isPinned`: `includes`. */
  predicate IsPinned(l: seq<string>, x: string)
  {
    x in l
  }

  /** No ticker occurs twice. */
  predicate NoDuplicates(l: seq<string>)
  {
    forall i, j :: 0 <= i < j < |l| ==> l[i] != l[j]
  }

  /**
   * Unpinning removes every occurrence of the ticker and keeps every other
   * one, as often as it occurred.
   */
  lemma {:induction false} UnpinCounts(l: seq<string>, x: string)
    ensures forall y :: multiset(Unpin(l, x))[y] == if y == x then 0 else multiset(l)[y]
  {
    if |l| > 0 {
      UnpinCounts(l[1..], x);
      assert l == [l[0]] + l[1..];
    }
  }

  /** Unpinning works element by element, so the kept tickers stay in their order. */
  lemma {:induction false} UnpinAppend(a: seq<string>, b: seq<string>, x: string)
    ensures Unpin(a + b, x) == Unpin(a, x) + Unpin(b, x)
  {
    if |a| > 0 {
      UnpinAppend(a[1..], b, x);
      assert (a + b)[1..] == a[1..] + b;
    } else {
      assert a + b == b;
    }
  }

  /** Unpinning a single ticker: gone if it is the one unpinned, kept otherwise. */
  lemma UnpinOne(y: string, x: string)
    ensures Unpin([y], x) == if y == x then [] else [y]
  {
    assert [y][1..] == [];
  }

  /** Membership after unpinning: every ticker but the unpinned one, exactly when it was there. */
  lemma UnpinMembers(l: seq<string>, x: string)
    ensures x !in Unpin(l, x)
    ensures forall y :: y != x ==> (y in Unpin(l, x) <==> y in l)
  {
    UnpinCounts(l, x);
    assert x !in multiset(Unpin(l, x));
    forall y | y != x ensures y in Unpin(l, x) <==> y in l {
      assert y in multiset(Unpin(l, x)) <==> y in multiset(l);
    }
  }

  /** A list that does not hold the ticker is unchanged by unpinning it. */
  lemma {:induction false} UnpinAbsent(l: seq<string>, x: string)
    requires x !in l
    ensures Unpin(l, x) == l
  {
    if |l| > 0 {
      assert l[0] != x;
      assert x !in l[1..];
      UnpinAbsent(l[1..], x);
      assert l == [l[0]] + l[1..];
    }
  }

  /** Pinning twice is pinning once. */
  lemma PinIdempotent(l: seq<string>, x: string)
    ensures Pin(Pin(l, x), x) == Pin(l, x)
  {
  }

  /** Toggling adds the ticker exactly when it was absent. */
  lemma ToggleMembers(l: seq<string>, x: string)
    ensures IsPinned(Toggle(l, x), x) <==> !IsPinned(l, x)
    ensures forall y :: y != x ==> (IsPinned(Toggle(l, x), y) <==> IsPinned(l, y))
  {
    UnpinMembers(l, x);
  }

  /** In a list without duplicates every ticker occurs at most once. */
  lemma NoDuplicatesCount(l: seq<string>, x: string)
    requires NoDuplicates(l)
    ensures multiset(l)[x] <= 1
    decreases |l|
  {
    if |l| > 0 {
      assert l == [l[0]] + l[1..];
      assert NoDuplicates(l[1..]);
      NoDuplicatesCount(l[1..], x);
      if l[0] == x {
        assert x !in l[1..];
      }
    }
  }

  /** A list in which no ticker is counted twice has no duplicates. */
  lemma CountedOnce(l: seq<string>)
    requires forall y :: multiset(l)[y] <= 1
    ensures NoDuplicates(l)
  {
    forall i, j | 0 <= i < j < |l| ensures l[i] != l[j] {
      var b, c := l[i..j], l[j..];
      assert l == l[..i] + b + c;
      assert multiset(l) == multiset(l[..i]) + multiset(b) + multiset(c);
      assert l[i] in b && l[j] in c;
      assert multiset(b)[l[i]] >= 1 && multiset(c)[l[j]] >= 1;
      assert multiset(l)[l[i]] <= 1;
    }
  }

  /** Pinning, unpinning and toggling keep a duplicate-free list duplicate-free. */
  lemma KeepNoDuplicates(l: seq<string>, x: string)
    requires NoDuplicates(l)
    ensures NoDuplicates(Pin(l, x)) && NoDuplicates(Unpin(l, x)) && NoDuplicates(Toggle(l, x))
  {
    UnpinCounts(l, x);
    forall y ensures multiset(l)[y] <= 1 {
      NoDuplicatesCount(l, y);
    }
    CountedOnce(Unpin(l, x));
    if x !in l {
      forall y ensures multiset(l + [x])[y] <= 1 {
        assert multiset(l + [x]) == multiset(l) + multiset{x};
        if y == x {
          assert x !in multiset(l);
        }
      }
      CountedOnce(l + [x]);
    }
  }

  /**
   * Toggling twice restores a list that lacked the ticker; for a list that
   * held it once, the ticker comes back, but at the end.
   */
  lemma ToggleTwice(l: seq<string>, x: string)
    ensures x !in l ==> Toggle(Toggle(l, x), x) == l
    ensures multiset(l)[x] == 1 ==> Toggle(Toggle(l, x), x) == Unpin(l, x) + [x]
  {
    if x !in l {
      UnpinAppend(l, [x], x);
      UnpinAbsent(l, x);
      UnpinOne(x, x);
    } else {
      UnpinMembers(l, x);
    }
  }

  /** The hook: the list, and the storage it writes back to. */
  class PinStore {
    var pinned: seq<string>
    var storage: map<string, seq<string>>

    /** Start from the stored value; the write-back effect then stores the list read. */
    constructor (stored: Stored, storage0: map<string, seq<string>>)
      ensures pinned == Initial(stored)
      ensures storage == storage0[PinnedKey := pinned]
    {
      pinned := Initial(stored);
      storage := storage0[PinnedKey := Initial(stored)];
    }

    /** `isPinned` on the current list. */
    function IsPinnedNow(x: string): bool
      reads this
    {
      IsPinned(pinned, x)
    }

    method PinTicker(x: string)
      modifies this
      ensures pinned == Pin(old(pinned), x)
      ensures storage == old(storage)[PinnedKey := pinned]
    {
      pinned := Pin(pinned, x);
      storage := storage[PinnedKey := pinned];
    }

    method UnpinTicker(x: string)
      modifies this
      ensures pinned == Unpin(old(pinned), x)
      ensures storage == old(storage)[PinnedKey := pinned]
    {
      pinned := Unpin(pinned, x);
      storage := storage[PinnedKey := pinned];
    }

    method ToggleTicker(x: string)
      modifies this
      ensures pinned == Toggle(old(pinned), x)
      ensures storage == old(storage)[PinnedKey := pinned]
    {
      pinned := Toggle(pinned, x);
      storage := storage[PinnedKey := pinned];
    }
  }
}
