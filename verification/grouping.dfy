/**
 `values(key).annotate(count=Count('id')).order_by(key)`: the rows of a query
 grouped by one key, one `(key, count)` pair per key that occurs, listed in the
 order of a given enumeration of the possible keys.
 */
module Grouping {
  import opened Ordering

  /** How many times `k` occurs in `s`. */
  function Count<K(==)>(s: seq<K>, k: K): nat
    decreases |s|
  {
    if s == [] then 0 else (if s[0] == k then 1 else 0) + Count(s[1..], k)
  }

  /** The pairs for the keys of `order` that occur in `s`, in the order of `order`. */
  function Groups<K(==)>(s: seq<K>, order: seq<K>): (g: seq<(K, nat)>)
    ensures forall i :: 0 <= i < |g| ==> g[i].0 in order && g[i].1 == Count(s, g[i].0) && g[i].1 > 0
    ensures forall i :: 0 <= i < |order| && Count(s, order[i]) > 0 ==> (order[i], Count(s, order[i])) in g
    decreases |order|
  {
    if order == [] then []
    else
      var n := Count(s, order[0]);
      (if n > 0 then [(order[0], n)] else []) + Groups(s, order[1..])
  }

  /** The sum of the counts of a grouping. */
  function Total<K>(g: seq<(K, nat)>): nat {
    if g == [] then 0 else g[0].1 + Total(g[1..])
  }

  /** The sum, over the keys of `order`, of their counts in `s`. */
  function SumCounts<K(==)>(s: seq<K>, order: seq<K>): nat
    decreases |order|
  {
    if order == [] then 0 else Count(s, order[0]) + SumCounts(s, order[1..])
  }

  /** Dropping the keys that do not occur does not change the total. */
  lemma {:induction false} TotalOfGroups<K>(s: seq<K>, order: seq<K>)
    ensures Total(Groups(s, order)) == SumCounts(s, order)
    decreases |order|
  {
    if order != [] {
      TotalOfGroups(s, order[1..]);
      var n := Count(s, order[0]);
      var head: seq<(K, nat)> := if n > 0 then [(order[0], n)] else [];
      TotalAppend(head, Groups(s, order[1..]));
    }
  }

  lemma {:induction false} TotalAppend<K>(a: seq<(K, nat)>, b: seq<(K, nat)>)
    ensures Total(a + b) == Total(a) + Total(b)
    decreases |a|
  {
    if a != [] {
      assert (a + b)[0] == a[0];
      assert (a + b)[1..] == a[1..] + b;
      TotalAppend(a[1..], b);
    } else {
      assert a + b == b;
    }
  }

  /** Adding one row `x` in front adds one to the count of each key equal to `x`. */
  lemma {:induction false} SumCountsCons<K>(x: K, t: seq<K>, order: seq<K>)
    ensures SumCounts([x] + t, order) == Count(order, x) + SumCounts(t, order)
    decreases |order|
  {
    if order != [] {
      assert ([x] + t)[1..] == t;
      SumCountsCons(x, t, order[1..]);
    }
  }

  /** A key of a list without repetitions occurs in it once. */
  lemma {:induction false} DistinctCountOne<K>(order: seq<K>, x: K)
    requires Distinct(order) && x in order
    ensures Count(order, x) == 1
    decreases |order|
  {
    if order[0] == x {
      CountAbsent(order[1..], x);
    } else {
      DistinctCountOne(order[1..], x);
    }
  }

  lemma {:induction false} CountAbsent<K>(s: seq<K>, x: K)
    requires x !in s
    ensures Count(s, x) == 0
    decreases |s|
  {
    if s != [] {
      CountAbsent(s[1..], x);
    }
  }

  /**
   When `order` lists every key that occurs, once each, the counts of the groups
   add up to the number of rows.
   */
  lemma {:induction false} GroupsSumToTotal<K>(s: seq<K>, order: seq<K>)
    requires Distinct(order)
    requires forall i :: 0 <= i < |s| ==> s[i] in order
    ensures Total(Groups(s, order)) == |s|
    decreases |s|
  {
    TotalOfGroups(s, order);
    SumCountsAll(s, order);
  }

  lemma {:induction false} SumCountsAll<K>(s: seq<K>, order: seq<K>)
    requires Distinct(order)
    requires forall i :: 0 <= i < |s| ==> s[i] in order
    ensures SumCounts(s, order) == |s|
    decreases |s|
  {
    if s == [] {
      SumCountsEmpty(order);
    } else {
      assert s == [s[0]] + s[1..];
      SumCountsCons(s[0], s[1..], order);
      DistinctCountOne(order, s[0]);
      SumCountsAll(s[1..], order);
    }
  }

  lemma {:induction false} SumCountsEmpty<K>(order: seq<K>)
    ensures SumCounts([], order) == 0
    decreases |order|
  {
    if order != [] {
      SumCountsEmpty(order[1..]);
    }
  }

  /** `order` lists keys in strictly ascending rank. */
  predicate AscendingBy<K>(order: seq<K>, rank: K -> int) {
    forall i, j :: 0 <= i < j < |order| ==> rank(order[i]) < rank(order[j])
  }

  /** The keys of `g` come in strictly ascending rank. */
  predicate KeysAscendingBy<K>(g: seq<(K, nat)>, rank: K -> int) {
    forall i, j :: 0 <= i < j < |g| ==> rank(g[i].0) < rank(g[j].0)
  }

  /** Keys listed in ascending rank come out in ascending rank, so in particular once each. */
  lemma {:induction false} GroupsAscending<K>(s: seq<K>, order: seq<K>, rank: K -> int)
    requires AscendingBy(order, rank)
    ensures KeysAscendingBy(Groups(s, order), rank)
    decreases |order|
  {
    if order != [] {
      var tail := order[1..];
      assert AscendingBy(tail, rank) by {
        forall i, j | 0 <= i < j < |tail|
          ensures rank(tail[i]) < rank(tail[j])
        {
          assert tail[i] == order[i + 1] && tail[j] == order[j + 1];
        }
      }
      GroupsAscending(s, tail, rank);
      var rest := Groups(s, tail);
      var n := Count(s, order[0]);
      if n > 0 {
        HeadBelowRest(s, order, rank);
        KeysAscendingCons((order[0], n), rest, rank);
      }
    }
  }

  /** The first key of `order` ranks below every key grouped from the rest of it. */
  lemma HeadBelowRest<K>(s: seq<K>, order: seq<K>, rank: K -> int)
    requires order != [] && AscendingBy(order, rank)
    ensures var rest := Groups(s, order[1..]);
      forall i :: 0 <= i < |rest| ==> rank(order[0]) < rank(rest[i].0)
  {
    var tail := order[1..];
    var rest := Groups(s, tail);
    forall i | 0 <= i < |rest|
      ensures rank(order[0]) < rank(rest[i].0)
    {
      var j :| 0 <= j < |tail| && tail[j] == rest[i].0;
      assert order[j + 1] == tail[j];
    }
  }

  lemma KeysAscendingCons<K>(head: (K, nat), rest: seq<(K, nat)>, rank: K -> int)
    requires KeysAscendingBy(rest, rank)
    requires forall i :: 0 <= i < |rest| ==> rank(head.0) < rank(rest[i].0)
    ensures KeysAscendingBy([head] + rest, rank)
  {
    var g := [head] + rest;
    forall i, j | 0 <= i < j < |g|
      ensures rank(g[i].0) < rank(g[j].0)
    {
      assert g[j] == rest[j - 1];
      if i > 0 {
        assert g[i] == rest[i - 1];
      }
    }
  }

  /** No key appears twice in `g`. */
  predicate KeysDistinct<K(==)>(g: seq<(K, nat)>) {
    forall i, j :: 0 <= i < j < |g| ==> g[i].0 != g[j].0
  }

  /** Keys listed once each in `order` are grouped once each. */
  lemma {:induction false} GroupsDistinct<K>(s: seq<K>, order: seq<K>)
    requires Distinct(order)
    ensures KeysDistinct(Groups(s, order))
    decreases |order|
  {
    if order != [] {
      var tail := order[1..];
      assert Distinct(tail) by {
        forall i, j | 0 <= i < j < |tail|
          ensures tail[i] != tail[j]
        {
          assert tail[i] == order[i + 1] && tail[j] == order[j + 1];
        }
      }
      GroupsDistinct(s, tail);
      var rest := Groups(s, tail);
      var n := Count(s, order[0]);
      if n > 0 {
        forall i | 0 <= i < |rest|
          ensures order[0] != rest[i].0
        {
          var j :| 0 <= j < |tail| && tail[j] == rest[i].0;
          assert order[j + 1] == tail[j];
        }
        var g := [(order[0], n)] + rest;
        forall i, j | 0 <= i < j < |g|
          ensures g[i].0 != g[j].0
        {
          assert g[j] == rest[j - 1];
          if i > 0 {
            assert g[i] == rest[i - 1];
          }
        }
      }
    }
  }

  /** The distinct members of `s`, in order of first occurrence. */
  function Dedup<K(==)>(s: seq<K>): (d: seq<K>)
    ensures Distinct(d)
    ensures forall i :: 0 <= i < |s| ==> s[i] in d
    ensures forall i :: 0 <= i < |d| ==> d[i] in s
    decreases |s|
  {
    if s == [] then []
    else
      var t := Dedup(s[..|s| - 1]);
      if s[|s| - 1] in t then t else t + [s[|s| - 1]]
  }
}
