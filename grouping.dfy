/**
 * The dictionary-filling loops of MetricsCalculator: grouping records by the value of a field
 * and grouping the entries of several dictionaries by key (both `defaultdict(list)`), and
 * adding counts up per key (`defaultdict(int)`). A dictionary is an insertion-ordered list
 * of (key, value) pairs.
 */
module Grouping {
  import opened Ranking

  /** No key occurs twice, as in every Python dictionary. */
  ghost predicate Unique<V>(d: seq<(string, V)>) {
    forall a, b :: 0 <= a < b < |d| ==> d[a].0 != d[b].0
  }

  // ---------------------------------------------------------------------------------------
  // Lists under keys.
  // ---------------------------------------------------------------------------------------

  /** `d[k].append(v)` on a `defaultdict(list)`: a new key opens a list at the end. */
  function Push<V>(d: seq<(string, seq<V>)>, k: string, v: V): seq<(string, seq<V>)> {
    var i := IndexOf(d, k);
    if i >= 0 then d[i := (k, d[i].1 + [v])] else d + [(k, [v])]
  }

  /** The list under `k`, or the empty list when `k` is absent. */
  function ListOf<V>(d: seq<(string, seq<V>)>, k: string): seq<V> {
    var i := IndexOf(d, k);
    if i >= 0 then d[i].1 else []
  }

  /** One append extends the list under its own key, opening it if needed, and no other list. */
  lemma PushEffect<V>(d: seq<(string, seq<V>)>, k: string, v: V, key: string)
    requires Unique(d)
    ensures Unique(Push(d, k, v))
    ensures IndexOf(Push(d, k, v), key) >= 0 <==> IndexOf(d, key) >= 0 || key == k
    ensures ListOf(Push(d, k, v), key) == ListOf(d, key) + (if key == k then [v] else [])
  {
    var i := IndexOf(d, k);
    if i >= 0 {
      assert d[i := (k, d[i].1 + [v])] == d[i := (d[i].0, d[i].1 + [v])];
      IndexOfReplace(d, i, d[i].1 + [v], key);
    } else {
      IndexOfAppend(d, (k, [v]), key);
    }
  }

  /** The records of `ms` whose key is `k`, in their order in `ms`. */
  function Select<T>(ms: seq<T>, key: T -> string, k: string): seq<T> {
    if ms == [] then []
    else Select(ms[..|ms| - 1], key, k) + (if key(ms[|ms| - 1]) == k then [ms[|ms| - 1]] else [])
  }

  /** `_group_metrics_by_field`: the records, grouped by the value of one of their fields. */
  function GroupBy<T>(ms: seq<T>, key: T -> string): seq<(string, seq<T>)> {
    if ms == [] then [] else Push(GroupBy(ms[..|ms| - 1], key), key(ms[|ms| - 1]), ms[|ms| - 1])
  }

  /**
   * Grouping by a field partitions the records: one group per value that occurs, and the
   * group of a value holds exactly the records with that value, in their original order.
   */
  lemma {:induction false} GroupByPartition<T>(ms: seq<T>, key: T -> string, k: string)
    ensures Unique(GroupBy(ms, key))
    ensures IndexOf(GroupBy(ms, key), k) >= 0 <==> exists i :: 0 <= i < |ms| && key(ms[i]) == k
    ensures ListOf(GroupBy(ms, key), k) == Select(ms, key, k)
  {
    if ms != [] {
      var init, last := ms[..|ms| - 1], ms[|ms| - 1];
      GroupByPartition(init, key, k);
      PushEffect(GroupBy(init, key), key(last), last, k);
      if exists i :: 0 <= i < |init| && key(init[i]) == k {
        var i :| 0 <= i < |init| && key(init[i]) == k;
        assert ms[i] == init[i];
      }
      if exists i :: 0 <= i < |ms| && key(ms[i]) == k {
        var i :| 0 <= i < |ms| && key(ms[i]) == k;
        if i < |init| {
          assert init[i] == ms[i];
        }
      }
    }
  }

  /** Every record of a group has the group's value. */
  lemma {:induction false} SelectKeys<T>(ms: seq<T>, key: T -> string, k: string)
    ensures forall m :: m in Select(ms, key, k) ==> m in ms && key(m) == k
  {
    if ms != [] {
      SelectKeys(ms[..|ms| - 1], key, k);
      assert forall m :: m in ms[..|ms| - 1] ==> m in ms;
    }
  }

  /** The inner loop of `_group_metrics_by_id`: appends every entry of one dictionary. */
  function PushAll<V>(d: seq<(string, seq<V>)>, entries: seq<(string, V)>): seq<(string, seq<V>)> {
    if entries == [] then d
    else Push(PushAll(d, entries[..|entries| - 1]), entries[|entries| - 1].0, entries[|entries| - 1].1)
  }

  /** `_group_metrics_by_id`: the entries of a list of dictionaries, grouped by key. */
  function GroupById<V>(ms: seq<seq<(string, V)>>): seq<(string, seq<V>)> {
    if ms == [] then [] else PushAll(GroupById(ms[..|ms| - 1]), ms[|ms| - 1])
  }

  /** The values under `k` in a list of entries, in order. */
  function Picks<V>(entries: seq<(string, V)>, k: string): seq<V> {
    if entries == [] then []
    else
      var last := entries[|entries| - 1];
      Picks(entries[..|entries| - 1], k) + (if last.0 == k then [last.1] else [])
  }

  /** The values under `k` across a list of dictionaries, dictionary after dictionary. */
  function Gathered<V>(ms: seq<seq<(string, V)>>, k: string): seq<V> {
    if ms == [] then [] else Gathered(ms[..|ms| - 1], k) + Picks(ms[|ms| - 1], k)
  }

  lemma {:induction false} PushAllEffect<V>(d: seq<(string, seq<V>)>, entries: seq<(string, V)>, key: string)
    requires Unique(d)
    ensures Unique(PushAll(d, entries))
    ensures IndexOf(PushAll(d, entries), key) >= 0 <==>
      IndexOf(d, key) >= 0 || exists b :: 0 <= b < |entries| && entries[b].0 == key
    ensures ListOf(PushAll(d, entries), key) == ListOf(d, key) + Picks(entries, key)
  {
    if entries != [] {
      var init, last := entries[..|entries| - 1], entries[|entries| - 1];
      var before := PushAll(d, init);
      assert PushAll(d, entries) == Push(before, last.0, last.1);
      PushAllEffect(d, init, key);
      PushEffect(before, last.0, last.1, key);
      KeyOccursSnoc(entries, key);
      assert Picks(entries, key) == Picks(init, key) + (if last.0 == key then [last.1] else []);
      assert ListOf(d, key) + Picks(entries, key) ==
        (ListOf(d, key) + Picks(init, key)) + (if last.0 == key then [last.1] else []);
    }
  }

  /** Some entry of the list has the key. */
  predicate KeyOccurs<V>(entries: seq<(string, V)>, key: string) {
    exists b :: 0 <= b < |entries| && entries[b].0 == key
  }

  /** A key occurs in a list of entries when it occurs before the last entry or is the last key. */
  lemma KeyOccursSnoc<V>(entries: seq<(string, V)>, key: string)
    requires entries != []
    ensures KeyOccurs(entries, key) <==> KeyOccurs(entries[..|entries| - 1], key) || entries[|entries| - 1].0 == key
  {
    var init := entries[..|entries| - 1];
    if exists b :: 0 <= b < |init| && init[b].0 == key {
      var b :| 0 <= b < |init| && init[b].0 == key;
      assert entries[b] == init[b];
    }
    if exists b :: 0 <= b < |entries| && entries[b].0 == key {
      var b :| 0 <= b < |entries| && entries[b].0 == key;
      if b < |init| {
        assert init[b] == entries[b];
      }
    }
  }

  /**
   * Grouping dictionaries by key: one group per key that occurs anywhere, holding that key's
   * values dictionary after dictionary.
   */
  lemma {:induction false} GroupByIdLists<V>(ms: seq<seq<(string, V)>>, key: string)
    ensures Unique(GroupById(ms))
    ensures IndexOf(GroupById(ms), key) >= 0 <==>
      exists a, b :: 0 <= a < |ms| && 0 <= b < |ms[a]| && ms[a][b].0 == key
    ensures ListOf(GroupById(ms), key) == Gathered(ms, key)
  {
    if ms != [] {
      var init: seq<seq<(string, V)>>, last := ms[..|ms| - 1], ms[|ms| - 1];
      GroupByIdLists(init, key);
      PushAllEffect(GroupById(init), last, key);
      KeyOccursInSnoc(ms, key);
    }
  }

  /** A key occurs in some dictionary of a list when it occurs before the last one or in it. */
  lemma KeyOccursInSnoc<V>(ms: seq<seq<(string, V)>>, key: string)
    requires ms != []
    ensures var init := ms[..|ms| - 1];
      (exists a, b :: 0 <= a < |ms| && 0 <= b < |ms[a]| && ms[a][b].0 == key) <==>
      (exists a, b :: 0 <= a < |init| && 0 <= b < |init[a]| && init[a][b].0 == key) ||
      KeyOccurs(ms[|ms| - 1], key)
  {
    var init: seq<seq<(string, V)>> := ms[..|ms| - 1];
    if exists a, b :: 0 <= a < |ms| && 0 <= b < |ms[a]| && ms[a][b].0 == key {
      var a: int, b: int :| 0 <= a < |ms| && 0 <= b < |ms[a]| && ms[a][b].0 == key;
      if a == |ms| - 1 {
        assert KeyOccurs(ms[|ms| - 1], key);
      } else {
        assert init[a][b].0 == key;
      }
    }
    if exists a, b :: 0 <= a < |init| && 0 <= b < |init[a]| && init[a][b].0 == key {
      var a: int, b: int :| 0 <= a < |init| && 0 <= b < |init[a]| && init[a][b].0 == key;
      assert ms[a][b].0 == key;
    }
  }

  /** In a dictionary, the values under a key are its one value, or none when it is absent. */
  lemma {:induction false} PicksUnique<V>(entries: seq<(string, V)>, k: string)
    requires Unique(entries)
    ensures Picks(entries, k) == if IndexOf(entries, k) >= 0 then [entries[IndexOf(entries, k)].1] else []
  {
    if entries != [] {
      var init, last := entries[..|entries| - 1], entries[|entries| - 1];
      PicksUnique(init, k);
      IndexOfAppend(init, last, k);
      assert init + [last] == entries;
    }
  }

  /** A dictionary with every value replaced by its image under `f`; keys and order are kept. */
  function MapValues<A, B>(d: seq<(string, A)>, f: A -> B): (r: seq<(string, B)>)
    ensures |r| == |d| && forall i :: 0 <= i < |d| ==> r[i] == (d[i].0, f(d[i].1))
  {
    if d == [] then [] else MapValues(d[..|d| - 1], f) + [(d[|d| - 1].0, f(d[|d| - 1].1))]
  }

  /** Mapping one more pair of a list maps its value and appends it. */
  lemma MapValuesSnoc<A, B>(d: seq<(string, A)>, f: A -> B, k: nat)
    requires k < |d|
    ensures MapValues(d[..k + 1], f) == MapValues(d[..k], f) + [(d[k].0, f(d[k].1))]
  {
    assert d[..k + 1][..k] == d[..k];
  }

  /** Mapping the values leaves every key where it was. */
  lemma MapValuesKeys<A, B>(d: seq<(string, A)>, f: A -> B, k: string)
    ensures IndexOf(MapValues(d, f), k) == IndexOf(d, k)
    ensures Unique(d) ==> Unique(MapValues(d, f))
  {
    IndexOfSameKeys(d, MapValues(d, f), k);
  }

  // ---------------------------------------------------------------------------------------
  // Counts under keys.
  // ---------------------------------------------------------------------------------------

  /** `d[k]` on a `defaultdict(int)`: the count under `k`, 0 when `k` is absent. */
  function CountOf(d: seq<(string, nat)>, k: string): nat {
    var i := IndexOf(d, k);
    if i >= 0 then d[i].1 else 0
  }

  /** The sum of the counts under `k` in a list of entries. */
  function KeyTotal(entries: seq<(string, nat)>, k: string): nat {
    if entries == [] then 0
    else
      var last := entries[|entries| - 1];
      KeyTotal(entries[..|entries| - 1], k) + (if last.0 == k then last.1 else 0)
  }

  /** Adds every count of one dictionary into `acc`, key by key, in the dictionary's order. */
  function MergeInto(acc: seq<(string, nat)>, entries: seq<(string, nat)>): seq<(string, nat)> {
    if entries == [] then acc
    else
      var last := entries[|entries| - 1];
      AddTo(MergeInto(acc, entries[..|entries| - 1]), last.0, last.1)
  }

  /** The counts of a list of dictionaries added up per key, keys in order of first appearance. */
  function Merge(dicts: seq<seq<(string, nat)>>): seq<(string, nat)> {
    if dicts == [] then [] else MergeInto(Merge(dicts[..|dicts| - 1]), dicts[|dicts| - 1])
  }

  /** The sum over a list of dictionaries of their counts under `k`. */
  function KeyTotals(dicts: seq<seq<(string, nat)>>, k: string): nat {
    if dicts == [] then 0 else KeyTotals(dicts[..|dicts| - 1], k) + KeyTotal(dicts[|dicts| - 1], k)
  }

  /** The sum of all counts of a list of dictionaries. */
  function TotalCounts(dicts: seq<seq<(string, nat)>>): nat {
    if dicts == [] then 0 else TotalCounts(dicts[..|dicts| - 1]) + SumCounts(dicts[|dicts| - 1])
  }

  lemma {:induction false} SumCountsAdd<T>(d: seq<(T, nat)>, i: nat, v: nat)
    requires i < |d|
    ensures SumCounts(d[i := (d[i].0, d[i].1 + v)]) == SumCounts(d) + v
  {
    if i > 0 {
      assert d[i := (d[i].0, d[i].1 + v)][1..] == d[1..][i - 1 := (d[i].0, d[i].1 + v)];
      SumCountsAdd(d[1..], i - 1, v);
    }
  }

  /** One `d[k] += v` raises the count under `k` by `v` and no other count. */
  lemma AddToEffect(d: seq<(string, nat)>, k: string, v: nat, key: string)
    requires Unique(d)
    ensures Unique(AddTo(d, k, v))
    ensures IndexOf(AddTo(d, k, v), key) >= 0 <==> IndexOf(d, key) >= 0 || key == k
    ensures CountOf(AddTo(d, k, v), key) == CountOf(d, key) + (if key == k then v else 0)
    ensures SumCounts(AddTo(d, k, v)) == SumCounts(d) + v
  {
    var i := IndexOf(d, k);
    if i >= 0 {
      AddToPresent(d, i, k, v, key);
    } else {
      AddToAbsent(d, k, v, key);
    }
  }

  lemma AddToPresent(d: seq<(string, nat)>, i: nat, k: string, v: nat, key: string)
    requires Unique(d) && i < |d| && IndexOf(d, k) == i
    ensures AddTo(d, k, v) == d[i := (d[i].0, d[i].1 + v)]
    ensures Unique(AddTo(d, k, v))
    ensures IndexOf(AddTo(d, k, v), key) == IndexOf(d, key)
    ensures CountOf(AddTo(d, k, v), key) == CountOf(d, key) + (if key == k then v else 0)
    ensures SumCounts(AddTo(d, k, v)) == SumCounts(d) + v
  {
    assert AddTo(d, k, v) == d[i := (d[i].0, d[i].1 + v)];
    RaiseCount(d, i, v, key);
  }

  /** Raising the count of the i-th entry keeps the keys and raises that key's count alone. */
  lemma RaiseCount(d: seq<(string, nat)>, i: nat, v: nat, key: string)
    requires Unique(d) && i < |d|
    ensures Unique(d[i := (d[i].0, d[i].1 + v)])
    ensures IndexOf(d[i := (d[i].0, d[i].1 + v)], key) == IndexOf(d, key)
    ensures CountOf(d[i := (d[i].0, d[i].1 + v)], key) == CountOf(d, key) + (if key == d[i].0 then v else 0)
    ensures SumCounts(d[i := (d[i].0, d[i].1 + v)]) == SumCounts(d) + v
  {
    var e := d[i := (d[i].0, d[i].1 + v)];
    assert forall a :: 0 <= a < |d| ==> e[a].0 == d[a].0;
    IndexOfReplace(d, i, d[i].1 + v, key);
    SumCountsAdd(d, i, v);
  }

  lemma AddToAbsent(d: seq<(string, nat)>, k: string, v: nat, key: string)
    requires Unique(d) && IndexOf(d, k) == -1
    ensures Unique(AddTo(d, k, v))
    ensures IndexOf(AddTo(d, k, v), key) >= 0 <==> IndexOf(d, key) >= 0 || key == k
    ensures CountOf(AddTo(d, k, v), key) == CountOf(d, key) + (if key == k then v else 0)
    ensures SumCounts(AddTo(d, k, v)) == SumCounts(d) + v
  {
    IndexOfAppend(d, (k, v), key);
    SumCountsAppend(d, [(k, v)]);
  }

  lemma {:induction false} MergeIntoEffect(acc: seq<(string, nat)>, entries: seq<(string, nat)>, key: string)
    requires Unique(acc)
    ensures Unique(MergeInto(acc, entries))
    ensures IndexOf(MergeInto(acc, entries), key) >= 0 <==>
      IndexOf(acc, key) >= 0 || exists b :: 0 <= b < |entries| && entries[b].0 == key
    ensures CountOf(MergeInto(acc, entries), key) == CountOf(acc, key) + KeyTotal(entries, key)
    ensures SumCounts(MergeInto(acc, entries)) == SumCounts(acc) + SumCounts(entries)
  {
    if entries != [] {
      var init, last := entries[..|entries| - 1], entries[|entries| - 1];
      var before := MergeInto(acc, init);
      assert MergeInto(acc, entries) == AddTo(before, last.0, last.1);
      MergeIntoEffect(acc, init, key);
      AddToEffect(before, last.0, last.1, key);
      assert SumCounts(entries) == SumCounts(init) + last.1 by {
        assert init + [last] == entries;
        SumCountsAppend(init, [last]);
      }
      KeyOccursSnoc(entries, key);
      assert KeyTotal(entries, key) == KeyTotal(init, key) + (if last.0 == key then last.1 else 0);
    }
  }

  /**
   * Merging dictionaries adds counts up per key: one entry per key that occurs anywhere,
   * whose count is the sum of that key's counts, and the grand total is kept.
   */
  lemma {:induction false} MergeCounts(dicts: seq<seq<(string, nat)>>, key: string)
    ensures Unique(Merge(dicts))
    ensures IndexOf(Merge(dicts), key) >= 0 <==>
      exists a, b :: 0 <= a < |dicts| && 0 <= b < |dicts[a]| && dicts[a][b].0 == key
    ensures CountOf(Merge(dicts), key) == KeyTotals(dicts, key)
    ensures SumCounts(Merge(dicts)) == TotalCounts(dicts)
  {
    if dicts != [] {
      var init: seq<seq<(string, nat)>>, last := dicts[..|dicts| - 1], dicts[|dicts| - 1];
      MergeCounts(init, key);
      MergeIntoEffect(Merge(init), last, key);
      if exists a, b :: 0 <= a < |init| && 0 <= b < |init[a]| && init[a][b].0 == key {
        var a, b :| 0 <= a < |init| && 0 <= b < |init[a]| && init[a][b].0 == key;
        assert dicts[a] == init[a];
      }
      if exists a, b :: 0 <= a < |dicts| && 0 <= b < |dicts[a]| && dicts[a][b].0 == key {
        var a, b :| 0 <= a < |dicts| && 0 <= b < |dicts[a]| && dicts[a][b].0 == key;
        if a < |init| {
          assert init[a] == dicts[a];
        } else {
          assert last[b].0 == key;
        }
      }
    }
  }

  lemma SamePresence(d: seq<(string, nat)>, e: seq<(string, nat)>, k: string)
    requires multiset(d) == multiset(e)
    ensures IndexOf(e, k) >= 0 ==> IndexOf(d, k) >= 0
  {
    var j := IndexOf(e, k);
    if j >= 0 {
      assert e[j] in multiset(d);
    }
  }

  /** Reordering a dictionary's entries changes no count. */
  lemma SameCounts(d: seq<(string, nat)>, e: seq<(string, nat)>, k: string)
    requires Unique(d) && Unique(e) && multiset(d) == multiset(e)
    ensures CountOf(e, k) == CountOf(d, k)
  {
    SamePresence(d, e, k);
    var i, j := IndexOf(d, k), IndexOf(e, k);
    if i >= 0 {
      assert d[i] in multiset(e);
      var j' :| 0 <= j' < |e| && e[j'] == d[i];
      assert j == j';
    }
  }

  /** The identity on keys, for the key-based lemmas of Ranking. */
  function Itself(k: string): string {
    k
  }

  lemma UniqueDistinct(d: seq<(string, nat)>)
    ensures Unique(d) <==> DistinctKeys(d, Itself)
  {
  }

  // ---------------------------------------------------------------------------------------
  // The loops.
  // ---------------------------------------------------------------------------------------

  /** `_group_metrics_by_field`, with the field given as a function. */
  method GroupMetricsByField<T>(ms: seq<T>, key: T -> string) returns (groups: seq<(string, seq<T>)>)
    ensures groups == GroupBy(ms, key)
  {
    groups := [];
    for n := 0 to |ms|
      invariant groups == GroupBy(ms[..n], key)
    {
      assert ms[..n + 1][..n] == ms[..n];
      groups := Push(groups, key(ms[n]), ms[n]);
    }
    assert ms[..|ms|] == ms;
  }

  /** `_group_metrics_by_id`, applied to the dictionaries already selected by id. */
  method GroupMetricsById<V>(ms: seq<seq<(string, V)>>) returns (groups: seq<(string, seq<V>)>)
    ensures groups == GroupById(ms)
  {
    groups := [];
    for a := 0 to |ms|
      invariant groups == GroupById(ms[..a])
    {
      var entries := ms[a];
      ghost var start := groups;
      for b := 0 to |entries|
        invariant groups == PushAll(start, entries[..b])
      {
        assert entries[..b + 1][..b] == entries[..b];
        groups := Push(groups, entries[b].0, entries[b].1);
      }
      assert entries[..|entries|] == entries;
      assert ms[..a + 1][..a] == ms[..a];
    }
    assert ms[..|ms|] == ms;
  }
}
