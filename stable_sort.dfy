/** The array sort with a comparator, as a stable insertion sort: each element in turn moves
    before the elements of the sorted prefix that compare greater than it. */
module StableSort {

  function InsertBy<T>(x: T, s: seq<T>, cmp: (T, T) -> int): seq<T> {
    if s == [] then [x]
    else if cmp(s[|s| - 1], x) > 0 then InsertBy(x, s[..|s| - 1], cmp) + [s[|s| - 1]]
    else s + [x]
  }

  function SortBy<T>(s: seq<T>, cmp: (T, T) -> int): seq<T> {
    if s == [] then [] else InsertBy(s[|s| - 1], SortBy(s[..|s| - 1], cmp), cmp)
  }

  /** Ascending by `key`. */
  predicate SortedBy<T>(s: seq<T>, key: T -> int) {
    forall i, j :: 0 <= i < j < |s| ==> key(s[i]) <= key(s[j])
  }

  predicate AllAtMost<T>(s: seq<T>, key: T -> int, bound: int) {
    forall i :: 0 <= i < |s| ==> key(s[i]) <= bound
  }

  predicate AllOk<T>(s: seq<T>, ok: T -> bool) {
    forall i :: 0 <= i < |s| ==> ok(s[i])
  }

  /** On the elements `ok` admits, the comparator is the difference of their keys. */
  ghost predicate Consistent<T(!new)>(cmp: (T, T) -> int, key: T -> int, ok: T -> bool) {
    forall a, b :: ok(a) && ok(b) ==> cmp(a, b) == key(a) - key(b)
  }

  /** A non-empty sequence is its prefix and its last element. */
  lemma LastSplit<T>(s: seq<T>)
    requires s != []
    ensures multiset(s) == multiset(s[..|s| - 1]) + multiset{s[|s| - 1]}
  {
    assert s == s[..|s| - 1] + [s[|s| - 1]];
  }

  lemma {:induction false} InsertByMultiset<T>(x: T, s: seq<T>, cmp: (T, T) -> int)
    ensures multiset(InsertBy(x, s, cmp)) == multiset(s) + multiset{x}
  {
    if s != [] && cmp(s[|s| - 1], x) > 0 {
      var init := s[..|s| - 1];
      InsertByMultiset(x, init, cmp);
      LastSplit(s);
      assert InsertBy(x, s, cmp) == InsertBy(x, init, cmp) + [s[|s| - 1]];
    }
  }

  /** The sort is a permutation of its input. */
  lemma {:induction false} SortByMultiset<T>(s: seq<T>, cmp: (T, T) -> int)
    ensures multiset(SortBy(s, cmp)) == multiset(s)
  {
    if s != [] {
      var init := s[..|s| - 1];
      var sorted := SortBy(init, cmp);
      SortByMultiset(init, cmp);
      InsertByMultiset(s[|s| - 1], sorted, cmp);
      LastSplit(s);
      assert SortBy(s, cmp) == InsertBy(s[|s| - 1], sorted, cmp);
    }
  }

  lemma {:induction false} InsertByBounded<T>(x: T, s: seq<T>, cmp: (T, T) -> int, key: T -> int, bound: int)
    requires AllAtMost(s, key, bound) && key(x) <= bound
    ensures AllAtMost(InsertBy(x, s, cmp), key, bound)
  {
    if s != [] && cmp(s[|s| - 1], x) > 0 {
      InsertByBounded(x, s[..|s| - 1], cmp, key, bound);
    }
  }

  lemma SnocSorted<T>(s: seq<T>, y: T, key: T -> int)
    requires SortedBy(s, key) && AllAtMost(s, key, key(y))
    ensures SortedBy(s + [y], key)
  {
  }

  lemma {:induction false} InsertBySorted<T(!new)>(x: T, s: seq<T>, cmp: (T, T) -> int, key: T -> int, ok: T -> bool)
    requires Consistent(cmp, key, ok) && AllOk(s, ok) && ok(x)
    requires SortedBy(s, key)
    ensures SortedBy(InsertBy(x, s, cmp), key)
  {
    if s != [] {
      var init := s[..|s| - 1];
      var last := s[|s| - 1];
      assert ok(last);
      assert AllAtMost(init, key, key(last));
      if cmp(last, x) > 0 {
        InsertBySorted(x, init, cmp, key, ok);
        InsertByBounded(x, init, cmp, key, key(last));
        SnocSorted(InsertBy(x, init, cmp), last, key);
      } else {
        SnocSorted(s, x, key);
      }
    }
  }

  /** With a comparator that is a difference of keys, the sort orders its input by key. */
  lemma {:induction false} SortBySorted<T(!new)>(s: seq<T>, cmp: (T, T) -> int, key: T -> int, ok: T -> bool)
    requires Consistent(cmp, key, ok) && AllOk(s, ok)
    ensures SortedBy(SortBy(s, cmp), key)
  {
    if s != [] {
      var init := s[..|s| - 1];
      SortBySorted(init, cmp, key, ok);
      SortByMultiset(init, cmp);
      var sorted := SortBy(init, cmp);
      forall i | 0 <= i < |sorted| ensures ok(sorted[i]) {
        assert sorted[i] in multiset(init);
        var k :| 0 <= k < |init| && init[k] == sorted[i];
        assert s[k] == sorted[i];
      }
      InsertBySorted(s[|s| - 1], sorted, cmp, key, ok);
    }
  }
}
