/**
 * `Array.prototype.sort` with a comparator `(a, b) => key(a) - key(b)`.
 * ECMAScript requires the sort to be stable, so its result is fully determined:
 * ordered by key, and elements with equal keys keep their relative order.
 * It is modelled by insertion sort, specified here and proved to have exactly
 * those properties.
 */
module StableSort {
  import opened Seqs

  /** Keys never decrease from left to right. */
  predicate SortedBy<T>(key: T -> int, s: seq<T>) {
    forall i, j :: 0 <= i < j < |s| ==> key(s[i]) <= key(s[j])
  }

  /** The test "has key `k`", as a filter predicate. */
  function KeyIs<T>(key: T -> int, k: int): T -> bool {
    x => key(x) == k
  }

  /** Puts `x` after the leading elements whose key is not greater than its own. */
  function Insert<T>(key: T -> int, x: T, s: seq<T>): (r: seq<T>)
    ensures |r| == |s| + 1
    decreases |s|
  {
    if s == [] || key(x) < key(s[0]) then [x] + s
    else [s[0]] + Insert(key, x, s[1..])
  }

  /** Insertion sort: each element in turn goes after the equal keys placed before it. */
  function SortBy<T>(key: T -> int, s: seq<T>): (r: seq<T>)
    ensures |r| == |s|
    decreases |s|
  {
    if s == [] then []
    else Insert(key, s[|s| - 1], SortBy(key, s[..|s| - 1]))
  }

  lemma {:induction false} InsertPermutes<T>(key: T -> int, x: T, s: seq<T>)
    ensures multiset(Insert(key, x, s)) == multiset(s) + multiset{x}
    decreases |s|
  {
    if s != [] && key(x) >= key(s[0]) {
      InsertPermutes(key, x, s[1..]);
      assert s == [s[0]] + s[1..];
    }
  }

  /** The sorted list is a permutation of the input. */
  lemma {:induction false} SortByPermutes<T>(key: T -> int, s: seq<T>)
    ensures multiset(SortBy(key, s)) == multiset(s)
    decreases |s|
  {
    if s != [] {
      SortByPermutes(key, s[..|s| - 1]);
      InsertPermutes(key, s[|s| - 1], SortBy(key, s[..|s| - 1]));
      assert s == s[..|s| - 1] + [s[|s| - 1]];
    }
  }

  lemma {:induction false} InsertSorted<T>(key: T -> int, x: T, s: seq<T>)
    requires SortedBy(key, s)
    ensures SortedBy(key, Insert(key, x, s))
    decreases |s|
  {
    if s != [] && key(x) >= key(s[0]) {
      var rest := s[1..];
      InsertSorted(key, x, rest);
      var t := Insert(key, x, rest);
      assert t[0] == x || (rest != [] && t[0] == rest[0] && t[0] == s[1]);
      assert key(s[0]) <= key(t[0]);
      var r := [s[0]] + t;
      forall i, j | 0 <= i < j < |r| ensures key(r[i]) <= key(r[j]) {
        assert r[j] == t[j - 1];
        if i > 0 {
          assert r[i] == t[i - 1];
        } else if j > 1 {
          assert key(t[0]) <= key(t[j - 1]);
        }
      }
    }
  }

  /** The sorted list is ordered by key. */
  lemma {:induction false} SortBySorted<T>(key: T -> int, s: seq<T>)
    ensures SortedBy(key, SortBy(key, s))
    decreases |s|
  {
    if s != [] {
      SortBySorted(key, s[..|s| - 1]);
      InsertSorted(key, s[|s| - 1], SortBy(key, s[..|s| - 1]));
    }
  }

  /** No element of a sorted list whose first key exceeds `k` has key `k`. */
  lemma NoneWithSmallerKey<T(!new)>(key: T -> int, k: int, s: seq<T>)
    requires SortedBy(key, s) && s != [] && k < key(s[0])
    ensures Filter(KeyIs(key, k), s) == []
  {
    forall j | 0 <= j < |s| ensures !KeyIs(key, k)(s[j]) {
      assert key(s[0]) <= key(s[j]);
    }
    var r := Filter(KeyIs(key, k), s);
    assert forall y :: y in r ==> y in s && KeyIs(key, k)(y);
  }

  /** Inserting `x` into a sorted list appends it to the elements sharing its key. */
  lemma {:induction false} InsertStable<T(!new)>(key: T -> int, k: int, x: T, s: seq<T>)
    requires SortedBy(key, s)
    ensures Filter(KeyIs(key, k), Insert(key, x, s)) ==
            Filter(KeyIs(key, k), s) + (if key(x) == k then [x] else [])
    decreases |s|
  {
    var f := KeyIs(key, k);
    if s == [] {
      FilterCons(f, x, []);
    } else if key(x) < key(s[0]) {
      FilterCons(f, x, s);
      if key(x) == k {
        NoneWithSmallerKey(key, k, s);
      }
    } else {
      InsertStable(key, k, x, s[1..]);
      FilterCons(f, s[0], Insert(key, x, s[1..]));
      FilterCons(f, s[0], s[1..]);
      assert [s[0]] + s[1..] == s;
    }
  }

  /**
   * Stability: for every key, the elements with that key appear in the sorted
   * list in exactly the order (and number) they had in the input.
   */
  lemma {:induction false} SortByStable<T(!new)>(key: T -> int, k: int, s: seq<T>)
    ensures Filter(KeyIs(key, k), SortBy(key, s)) == Filter(KeyIs(key, k), s)
    decreases |s|
  {
    if s != [] {
      var init, last := s[..|s| - 1], s[|s| - 1];
      SortByStable(key, k, init);
      SortBySorted(key, init);
      InsertStable(key, k, last, SortBy(key, init));
      FilterAppend(KeyIs(key, k), init, [last]);
      FilterCons(KeyIs(key, k), last, []);
      assert init + [last] == s;
    }
  }

  /** `Insert` places `x` before the first element with a greater key. */
  lemma {:induction false} InsertAt<T>(key: T -> int, x: T, s: seq<T>, j: nat)
    requires j <= |s|
    requires forall i :: 0 <= i < j ==> key(s[i]) <= key(x)
    requires j == |s| || key(x) < key(s[j])
    ensures Insert(key, x, s) == s[..j] + [x] + s[j..]
    decreases |s|
  {
    if j == 0 {
      assert s[..0] + [x] + s[0..] == [x] + s;
    } else {
      assert key(s[0]) <= key(x);
      var t := s[1..];
      assert forall i :: 0 <= i < j - 1 ==> t[i] == s[i + 1];
      assert j - 1 < |t| ==> t[j - 1] == s[j];
      InsertAt(key, x, t, j - 1);
      assert Insert(key, x, s) == [s[0]] + Insert(key, x, t);
      assert s[..j] == [s[0]] + t[..j - 1];
      assert s[j..] == t[j - 1..];
    }
  }

  /**
   * The sort, as the program runs it on its working list: each element in
   * turn is inserted after the elements before it whose key is not greater.
   */
  method Sort<T>(key: T -> int, s: seq<T>) returns (r: seq<T>)
    ensures r == SortBy(key, s)
  {
    r := [];
    var n := 0;
    while n < |s|
      invariant 0 <= n <= |s|
      invariant r == SortBy(key, s[..n])
    {
      var x := s[n];
      var j := 0;
      while j < |r| && key(r[j]) <= key(x)
        invariant 0 <= j <= |r|
        invariant forall i :: 0 <= i < j ==> key(r[i]) <= key(x)
      {
        j := j + 1;
      }
      InsertAt(key, x, r, j);
      assert s[..n + 1][..n] == s[..n];
      r := r[..j] + [x] + r[j..];
      n := n + 1;
    }
    assert s[..n] == s;
  }
}
