/**
 * Sums over the keys of a dictionary, in no particular order: the model of
 * the `for key, value in d.items(): total += ...` accumulations. Real
 * addition is associative and commutative, so the order the dictionary
 * is walked in does not matter; the lemmas below say so.
 */
module Sums {

  /** Sum of `f(k)` over the finite set `keys`. */
  ghost function SumOver<K>(keys: set<K>, f: K -> real): real
    decreases keys
  {
    if keys == {} then 0.0
    else
      var k :| k in keys;
      f(k) + SumOver(keys - {k}, f)
  }

  /** Any element can be taken out first. */
  lemma {:induction false} SumOverRemove<K>(keys: set<K>, f: K -> real, k: K)
    requires k in keys
    ensures SumOver(keys, f) == f(k) + SumOver(keys - {k}, f)
    decreases keys
  {
    var j :| j in keys && SumOver(keys, f) == f(j) + SumOver(keys - {j}, f);
    if j != k {
      SumOverRemove(keys - {j}, f, k);
      SumOverRemove(keys - {k}, f, j);
      assert keys - {j} - {k} == keys - {k} - {j};
    }
  }

  /** Adding one new element adds its term. */
  lemma SumOverAdd<K>(keys: set<K>, f: K -> real, k: K)
    requires k !in keys
    ensures SumOver(keys + {k}, f) == SumOver(keys, f) + f(k)
  {
    SumOverRemove(keys + {k}, f, k);
    assert keys + {k} - {k} == keys;
  }

  /** The sum depends only on the terms of the keys summed over. */
  lemma {:induction false} SumOverExt<K>(keys: set<K>, f: K -> real, g: K -> real)
    requires forall k :: k in keys ==> f(k) == g(k)
    ensures SumOver(keys, f) == SumOver(keys, g)
    decreases keys
  {
    if keys != {} {
      var k :| k in keys;
      SumOverRemove(keys, f, k);
      SumOverRemove(keys, g, k);
      SumOverExt(keys - {k}, f, g);
    }
  }

  /** Changing one term changes the sum by the difference. */
  lemma SumOverChange<K>(keys: set<K>, f: K -> real, g: K -> real, k: K)
    requires k in keys
    requires forall j :: j in keys && j != k ==> f(j) == g(j)
    ensures SumOver(keys, g) == SumOver(keys, f) - f(k) + g(k)
  {
    SumOverRemove(keys, f, k);
    SumOverRemove(keys, g, k);
    SumOverExt(keys - {k}, f, g);
  }

  /** A sum of zero terms is zero. */
  lemma {:induction false} SumOverZero<K>(keys: set<K>, f: K -> real)
    requires forall k :: k in keys ==> f(k) == 0.0
    ensures SumOver(keys, f) == 0.0
    decreases keys
  {
    if keys != {} {
      var k :| k in keys;
      SumOverRemove(keys, f, k);
      SumOverZero(keys - {k}, f);
    }
  }

  /** The sum of differences is the difference of the sums. */
  lemma {:induction false} SumOverSub<K>(keys: set<K>, f: K -> real, g: K -> real, d: K -> real)
    requires forall k :: k in keys ==> d(k) == f(k) - g(k)
    ensures SumOver(keys, d) == SumOver(keys, f) - SumOver(keys, g)
    decreases keys
  {
    if keys != {} {
      var k :| k in keys;
      SumOverRemove(keys, f, k);
      SumOverRemove(keys, g, k);
      SumOverRemove(keys, d, k);
      SumOverSub(keys - {k}, f, g, d);
    }
  }
}
