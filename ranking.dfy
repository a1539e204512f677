/**
 * Counted entries and the stable descending sort that Python's
 * `sorted(..., key=count, reverse=True)` performs on them.
 */
module Ranking {

  /** The sum of the counts of a list of counted entries. */
  function SumCounts<T>(s: seq<(T, nat)>): nat {
    if s == [] then 0 else s[0].1 + SumCounts(s[1..])
  }

  /** Counts never increase from left to right. */
  predicate SortedDesc<T>(s: seq<(T, nat)>) {
    forall i, j :: 0 <= i < j < |s| ==> s[i].1 >= s[j].1
  }

  /** The entries of `s` whose count is `c`, in their order in `s`. */
  function WithCount<T>(s: seq<(T, nat)>, c: nat): seq<(T, nat)> {
    if s == [] then [] else (if s[0].1 == c then [s[0]] else []) + WithCount(s[1..], c)
  }

  /** No two entries share a key. */
  ghost predicate DistinctKeys<T, K>(s: seq<(T, nat)>, key: T -> K) {
    forall i, j :: 0 <= i < j < |s| ==> key(s[i].0) != key(s[j].0)
  }

  /**
   * Inserts `x` into a descending list after every entry whose count is at least its own,
   * so that equal counts keep their order of arrival.
   */
  function InsertDesc<T>(x: (T, nat), s: seq<(T, nat)>): (r: seq<(T, nat)>)
    ensures |r| == |s| + 1
  {
    if s == [] then [x]
    else if s[0].1 >= x.1 then [s[0]] + InsertDesc(x, s[1..]) else [x] + s
  }

  lemma {:induction false} InsertDescMember<T>(x: (T, nat), s: seq<(T, nat)>, e: (T, nat))
    ensures e in InsertDesc(x, s) <==> e == x || e in s
  {
    if s != [] && s[0].1 >= x.1 {
      InsertDescMember(x, s[1..], e);
      assert s == [s[0]] + s[1..];
    }
  }

  lemma {:induction false} InsertDescPermutes<T>(x: (T, nat), s: seq<(T, nat)>)
    ensures multiset(InsertDesc(x, s)) == multiset(s) + multiset{x}
  {
    if s != [] {
      assert s == [s[0]] + s[1..];
      if s[0].1 >= x.1 {
        InsertDescPermutes(x, s[1..]);
      }
    }
  }

  lemma {:induction false} InsertDescSorted<T>(x: (T, nat), s: seq<(T, nat)>)
    requires SortedDesc(s)
    ensures SortedDesc(InsertDesc(x, s))
  {
    if s != [] && s[0].1 >= x.1 {
      var rest := InsertDesc(x, s[1..]);
      InsertDescSorted(x, s[1..]);
      forall e | e in rest ensures e.1 <= s[0].1 {
        InsertDescMember(x, s[1..], e);
        if e != x {
          HeadIsLargest(s, e);
        }
      }
      ConsSorted(s[0], rest);
    }
  }

  /** In a descending list, no entry after the first has a larger count than the first. */
  lemma HeadIsLargest<T>(s: seq<(T, nat)>, e: (T, nat))
    requires SortedDesc(s) && s != [] && e in s[1..]
    ensures e.1 <= s[0].1
  {
    var k :| 0 <= k < |s[1..]| && s[1..][k] == e;
    assert s[k + 1] == e;
  }

  /** An entry at least as large as every entry of a descending list can go in front of it. */
  lemma ConsSorted<T>(h: (T, nat), rest: seq<(T, nat)>)
    requires SortedDesc(rest) && forall e :: e in rest ==> e.1 <= h.1
    ensures SortedDesc([h] + rest)
  {
    var r := [h] + rest;
    forall i, j | 0 <= i < j < |r| ensures r[i].1 >= r[j].1 {
      if i == 0 {
        assert r[j] in rest;
      } else {
        assert r[i] == rest[i - 1] && r[j] == rest[j - 1];
      }
    }
  }

  /** The stable descending sort of `s` by count: insertion sort, one entry at a time. */
  function SortDesc<T>(s: seq<(T, nat)>): (r: seq<(T, nat)>)
    ensures |r| == |s|
  {
    if s == [] then [] else InsertDesc(s[|s| - 1], SortDesc(s[..|s| - 1]))
  }

  /** The sort's output is a permutation of its input. */
  lemma {:induction false} SortDescPermutes<T>(s: seq<(T, nat)>)
    ensures multiset(SortDesc(s)) == multiset(s)
  {
    if s != [] {
      SortDescPermutes(s[..|s| - 1]);
      InsertDescPermutes(s[|s| - 1], SortDesc(s[..|s| - 1]));
      assert s == s[..|s| - 1] + [s[|s| - 1]];
    }
  }

  /** The sort's output is in descending order of count. */
  lemma {:induction false} SortDescSorted<T>(s: seq<(T, nat)>)
    ensures SortedDesc(SortDesc(s))
  {
    if s != [] {
      SortDescSorted(s[..|s| - 1]);
      InsertDescSorted(s[|s| - 1], SortDesc(s[..|s| - 1]));
    }
  }

  lemma {:induction false} WithCountAppend<T>(a: seq<(T, nat)>, b: seq<(T, nat)>, c: nat)
    ensures WithCount(a + b, c) == WithCount(a, c) + WithCount(b, c)
  {
    if a == [] {
      assert a + b == b;
    } else {
      assert (a + b)[0] == a[0] && (a + b)[1..] == a[1..] + b;
      WithCountAppend(a[1..], b, c);
      var h := if a[0].1 == c then [a[0]] else [];
      assert WithCount(a + b, c) == h + WithCount(a[1..] + b, c);
      assert WithCount(a, c) == h + WithCount(a[1..], c);
    }
  }

  lemma {:induction false} WithCountNone<T>(s: seq<(T, nat)>, c: nat)
    requires forall e :: e in s ==> e.1 < c
    ensures WithCount(s, c) == []
  {
    if s != [] {
      WithCountNone(s[1..], c);
    }
  }

  lemma {:induction false} InsertDescStable<T>(x: (T, nat), s: seq<(T, nat)>, c: nat)
    requires SortedDesc(s)
    ensures WithCount(InsertDesc(x, s), c) == WithCount(s, c) + (if x.1 == c then [x] else [])
  {
    if s == [] {
    } else if s[0].1 >= x.1 {
      var tail := s[1..];
      SortedTail(s);
      var rest := InsertDesc(x, tail);
      InsertDescStable(x, tail, c);
      var h := if s[0].1 == c then [s[0]] else [];
      assert ([s[0]] + rest)[0] == s[0] && ([s[0]] + rest)[1..] == rest;
      assert WithCount(InsertDesc(x, s), c) == h + WithCount(rest, c);
      assert WithCount(s, c) == h + WithCount(tail, c);
      var added := if x.1 == c then [x] else [];
      assert h + (WithCount(tail, c) + added) == (h + WithCount(tail, c)) + added;
    } else {
      assert ([x] + s)[0] == x && ([x] + s)[1..] == s;
      if x.1 == c {
        BelowHead(s, c);
        WithCountNone(s, c);
        assert WithCount(InsertDesc(x, s), c) == [x] + [];
      } else {
        assert WithCount(InsertDesc(x, s), c) == [] + WithCount(s, c);
      }
    }
  }

  lemma SortedTail<T>(s: seq<(T, nat)>)
    requires SortedDesc(s) && s != []
    ensures SortedDesc(s[1..])
  {
    var tail := s[1..];
    forall i, j | 0 <= i < j < |tail|
      ensures tail[i].1 >= tail[j].1
    {
      assert tail[i] == s[i + 1] && tail[j] == s[j + 1];
    }
  }

  lemma BelowHead<T>(s: seq<(T, nat)>, c: nat)
    requires SortedDesc(s) && s != [] && s[0].1 < c
    ensures forall e :: e in s ==> e.1 < c
  {
    forall e | e in s
      ensures e.1 < c
    {
      var i :| 0 <= i < |s| && s[i] == e;
      if i > 0 {
        assert s[0].1 >= s[i].1;
      }
    }
  }

  /** Entries with equal counts come out of the sort in the order they went in. */
  lemma {:induction false} SortDescStable<T>(s: seq<(T, nat)>, c: nat)
    ensures WithCount(SortDesc(s), c) == WithCount(s, c)
  {
    if s != [] {
      var init, last := s[..|s| - 1], s[|s| - 1];
      SortDescStable(init, c);
      SortDescSorted(init);
      InsertDescStable(last, SortDesc(init), c);
      assert s == init + [last];
      WithCountAppend(init, [last], c);
    }
  }

  lemma {:induction false} InsertDescSum<T>(x: (T, nat), s: seq<(T, nat)>)
    ensures SumCounts(InsertDesc(x, s)) == SumCounts(s) + x.1
  {
    if s != [] && s[0].1 >= x.1 {
      InsertDescSum(x, s[1..]);
    }
  }

  /** Sorting keeps the total of the counts. */
  lemma {:induction false} SortDescSum<T>(s: seq<(T, nat)>)
    ensures SumCounts(SortDesc(s)) == SumCounts(s)
  {
    if s != [] {
      var init, last := s[..|s| - 1], s[|s| - 1];
      SortDescSum(init);
      InsertDescSum(last, SortDesc(init));
      SumCountsAppend(init, [last]);
      assert s == init + [last];
    }
  }

  lemma {:induction false} SumCountsAppend<T>(a: seq<(T, nat)>, b: seq<(T, nat)>)
    ensures SumCounts(a + b) == SumCounts(a) + SumCounts(b)
  {
    if a == [] {
      assert a + b == b;
    } else {
      assert (a + b)[0] == a[0] && (a + b)[1..] == a[1..] + b;
      SumCountsAppend(a[1..], b);
    }
  }

  lemma {:induction false} InsertDescDistinct<T, K>(x: (T, nat), s: seq<(T, nat)>, key: T -> K)
    requires DistinctKeys(s, key)
    requires forall e :: e in s ==> key(e.0) != key(x.0)
    ensures DistinctKeys(InsertDesc(x, s), key)
  {
    if s != [] && s[0].1 >= x.1 {
      var rest := InsertDesc(x, s[1..]);
      InsertDescDistinct(x, s[1..], key);
      assert s == [s[0]] + s[1..];
      assert key(x.0) != key(s[0].0) by { assert s[0] in s; }
      forall e | e in rest ensures key(e.0) != key(s[0].0) {
        InsertDescMember(x, s[1..], e);
        if e != x {
          assert e in s[1..];
          var k :| 0 <= k < |s[1..]| && s[1..][k] == e;
          assert s[k + 1] == e;
        }
      }
      var r := [s[0]] + rest;
      forall i, j | 0 <= i < j < |r| ensures key(r[i].0) != key(r[j].0) {
        if i == 0 {
          assert r[j] in rest;
        } else {
          assert r[i] == rest[i - 1] && r[j] == rest[j - 1];
        }
      }
    }
  }

  /** Sorting keeps keys distinct. */
  lemma {:induction false} SortDescDistinct<T, K>(s: seq<(T, nat)>, key: T -> K)
    requires DistinctKeys(s, key)
    ensures DistinctKeys(SortDesc(s), key)
  {
    if s != [] {
      var init, last := s[..|s| - 1], s[|s| - 1];
      SortDescDistinct(init, key);
      var sorted := SortDesc(init);
      SortDescPermutes(init);
      forall e | e in sorted ensures key(e.0) != key(last.0) {
        assert e in multiset(sorted);
        var i :| 0 <= i < |init| && init[i] == e;
        assert s[i] == e;
      }
      InsertDescDistinct(last, sorted, key);
    }
  }

  /** The position of key `k` in an insertion-ordered dictionary, or -1 when absent. */
  function IndexOf<K(==), V>(d: seq<(K, V)>, k: K): (r: int)
    ensures -1 <= r < |d|
    ensures r >= 0 ==> d[r].0 == k && forall i :: 0 <= i < r ==> d[i].0 != k
    ensures r == -1 ==> forall i :: 0 <= i < |d| ==> d[i].0 != k
  {
    if d == [] then -1
    else if d[0].0 == k then 0
    else var r := IndexOf(d[1..], k); if r == -1 then -1 else r + 1
  }

  /**
   * Python's `d[k] = v` on an insertion-ordered dictionary: an existing key keeps its
   * position and takes the new value, a new key goes last.
   */
  function Assign<K(==), V>(d: seq<(K, V)>, k: K, v: V): (r: seq<(K, V)>)
    ensures IndexOf(d, k) >= 0 ==> |r| == |d| && r[IndexOf(d, k)] == (k, v)
    ensures IndexOf(d, k) >= 0 ==> forall i :: 0 <= i < |d| && i != IndexOf(d, k) ==> r[i] == d[i]
    ensures IndexOf(d, k) == -1 ==> r == d + [(k, v)]
  {
    var i := IndexOf(d, k);
    if i >= 0 then d[i := (k, v)] else d + [(k, v)]
  }

  /** `d[key(x)] = value(x)` for every x of `xs` in turn, starting from an empty dictionary. */
  function AssignEach<T, K(==), V>(xs: seq<T>, key: T -> K, value: T -> V): seq<(K, V)> {
    if xs == [] then []
    else Assign(AssignEach(xs[..|xs| - 1], key, value), key(xs[|xs| - 1]), value(xs[|xs| - 1]))
  }

  lemma AssignEachSnoc<T, K, V>(xs: seq<T>, key: T -> K, value: T -> V, k: nat)
    requires k < |xs|
    ensures AssignEach(xs[..k + 1], key, value) == Assign(AssignEach(xs[..k], key, value), key(xs[k]), value(xs[k]))
  {
    assert xs[..k + 1][..k] == xs[..k];
  }

  /** With distinct keys, every element gets its own entry, in the order of the elements. */
  lemma {:induction false} AssignEachEntries<T, K, V>(xs: seq<T>, key: T -> K, value: T -> V)
    requires forall i, j :: 0 <= i < j < |xs| ==> key(xs[i]) != key(xs[j])
    ensures |AssignEach(xs, key, value)| == |xs|
    ensures forall i :: 0 <= i < |xs| ==> AssignEach(xs, key, value)[i] == (key(xs[i]), value(xs[i]))
  {
    if xs != [] {
      var init, last := xs[..|xs| - 1], xs[|xs| - 1];
      AssignEachEntries(init, key, value);
      var d := AssignEach(init, key, value);
      forall i | 0 <= i < |d| ensures d[i].0 != key(last) {
        assert init[i] == xs[i];
      }
      assert IndexOf(d, key(last)) == -1;
      forall i | 0 <= i < |xs| ensures AssignEach(xs, key, value)[i] == (key(xs[i]), value(xs[i])) {
        if i < |init| {
          assert init[i] == xs[i];
        }
      }
    }
  }

  /** Python's `d[k] += v` on a `defaultdict(int)`, which keeps insertion order. */
  function AddTo<K(==)>(d: seq<(K, nat)>, k: K, v: nat): (r: seq<(K, nat)>)
    ensures IndexOf(d, k) >= 0 ==> |r| == |d| && r[IndexOf(d, k)] == (k, d[IndexOf(d, k)].1 + v)
    ensures IndexOf(d, k) >= 0 ==> forall i :: 0 <= i < |d| && i != IndexOf(d, k) ==> r[i] == d[i]
    ensures IndexOf(d, k) == -1 ==> r == d + [(k, v)]
  {
    var i := IndexOf(d, k);
    if i >= 0 then d[i := (k, d[i].1 + v)] else d + [(k, v)]
  }

  lemma {:induction false} IndexOfAppend<K, V>(d: seq<(K, V)>, x: (K, V), k: K)
    ensures IndexOf(d + [x], k) == (if IndexOf(d, k) >= 0 then IndexOf(d, k) else if x.0 == k then |d| else -1)
  {
    if d != [] {
      assert (d + [x])[0] == d[0] && (d + [x])[1..] == d[1..] + [x];
      IndexOfAppend(d[1..], x, k);
    }
  }

  lemma {:induction false} IndexOfReplace<K, V>(d: seq<(K, V)>, i: nat, v: V, k: K)
    requires i < |d|
    ensures IndexOf(d[i := (d[i].0, v)], k) == IndexOf(d, k)
  {
    if i > 0 {
      assert d[i := (d[i].0, v)][1..] == d[1..][i - 1 := (d[i].0, v)];
      IndexOfReplace(d[1..], i - 1, v, k);
    }
  }

  lemma {:induction false} IndexOfSameKeys<K, V, W>(d: seq<(K, V)>, e: seq<(K, W)>, k: K)
    requires |d| == |e| && forall i :: 0 <= i < |d| ==> d[i].0 == e[i].0
    ensures IndexOf(e, k) == IndexOf(d, k)
  {
    if d != [] {
      IndexOfSameKeys(d[1..], e[1..], k);
    }
  }
}
