/**
 The `ordering = ['-created_at']`-style default orderings of the models: a set of
 primary keys listed by a sort key, largest first. Rows with equal keys may come
 in any order, as in SQL.
 */
module Ordering {

  /** Keys never increase along `s`. */
  predicate Descending<K>(s: seq<K>, key: map<K, int>)
    requires forall i :: 0 <= i < |s| ==> s[i] in key
  {
    forall i, j :: 0 <= i < j < |s| ==> key[s[i]] >= key[s[j]]
  }

  predicate Distinct<K(==)>(s: seq<K>) {
    forall i, j :: 0 <= i < j < |s| ==> s[i] != s[j]
  }

  /** A member of `ids` whose key is at least every other member's. */
  method MaxByKey<K(==)>(ids: set<K>, key: map<K, int>) returns (m: K)
    requires ids != {} && ids <= key.Keys
    ensures m in ids
    ensures forall y :: y in ids ==> key[m] >= key[y]
  {
    m :| m in ids;
    var rest := ids - {m};
    while rest != {}
      invariant rest <= ids && m in ids
      invariant forall y :: y in ids - rest ==> key[m] >= key[y]
      decreases rest
    {
      var y :| y in rest;
      if key[y] > key[m] {
        m := y;
      }
      rest := rest - {y};
    }
  }

  /** Lists every member of `ids` exactly once, largest key first. */
  method SortDescending<K(==)>(ids: set<K>, key: map<K, int>) returns (s: seq<K>)
    requires ids <= key.Keys
    ensures forall x :: x in s <==> x in ids
    ensures Distinct(s)
    ensures |s| == |ids|
    ensures Descending(s, key)
  {
    s := [];
    var rest := ids;
    while rest != {}
      invariant rest <= ids
      invariant forall x :: x in s <==> x in ids && x !in rest
      invariant Distinct(s)
      invariant |s| + |rest| == |ids|
      invariant Descending(s, key)
      invariant forall i, y :: 0 <= i < |s| && y in rest ==> key[s[i]] >= key[y]
      decreases rest
    {
      var m := MaxByKey(rest, key);
      s := s + [m];
      rest := rest - {m};
    }
  }
}
