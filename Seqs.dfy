/**
 * Sequence operations shared by the storefront's list pipelines:
 * `Array.prototype.filter`, `map`, `flatMap`, `slice`, and the
 * first-occurrence de-duplication done by `Array.from(new Set(...))`.
 */
module Seqs {

  /** Keeps, in order, the elements of `s` that satisfy `f` (`s.filter(f)`). */
  function Filter<T(!new)>(f: T -> bool, s: seq<T>): (r: seq<T>)
    ensures |r| <= |s|
    ensures forall x :: x in r <==> x in s && f(x)
    decreases |s|
  {
    if s == [] then []
    else (if f(s[0]) then [s[0]] else []) + Filter(f, s[1..])
  }

  /** `r` can be obtained from `s` by deleting elements: same relative order. */
  predicate IsSubseq<T(==)>(r: seq<T>, s: seq<T>)
    decreases |s|
  {
    r == [] ||
    (s != [] && ((r[0] == s[0] && IsSubseq(r[1..], s[1..])) || IsSubseq(r, s[1..])))
  }

  lemma {:induction false} FilterIsSubseq<T(!new)>(f: T -> bool, s: seq<T>)
    ensures IsSubseq(Filter(f, s), s)
    decreases |s|
  {
    if s != [] {
      FilterIsSubseq(f, s[1..]);
      var r := Filter(f, s);
      if f(s[0]) {
        assert r == [s[0]] + Filter(f, s[1..]);
        assert r[1..] == Filter(f, s[1..]);
      } else {
        assert r == Filter(f, s[1..]);
      }
    }
  }

  /** A prefix of a subsequence is a subsequence. */
  lemma {:induction false} PrefixIsSubseq<T>(r: seq<T>, s: seq<T>, m: nat)
    requires IsSubseq(r, s) && m <= |r|
    ensures IsSubseq(r[..m], s)
    decreases |s|
  {
    if m > 0 {
      if r[0] == s[0] && IsSubseq(r[1..], s[1..]) {
        PrefixIsSubseq(r[1..], s[1..], m - 1);
        assert r[..m][1..] == r[1..][..m - 1];
      } else {
        PrefixIsSubseq(r, s[1..], m);
      }
    }
  }

  lemma FilterCons<T(!new)>(f: T -> bool, x: T, s: seq<T>)
    ensures Filter(f, [x] + s) == (if f(x) then [x] else []) + Filter(f, s)
  {
    assert ([x] + s)[1..] == s;
  }

  lemma {:induction false} FilterAppend<T(!new)>(f: T -> bool, a: seq<T>, b: seq<T>)
    ensures Filter(f, a + b) == Filter(f, a) + Filter(f, b)
    decreases |a|
  {
    if a == [] {
      assert a + b == b;
    } else {
      assert (a + b)[0] == a[0];
      assert (a + b)[1..] == a[1..] + b;
      FilterAppend(f, a[1..], b);
    }
  }

  /** Filtering by a predicate every element meets changes nothing. */
  lemma {:induction false} FilterAllPass<T(!new)>(f: T -> bool, s: seq<T>)
    requires forall x :: x in s ==> f(x)
    ensures Filter(f, s) == s
    decreases |s|
  {
    if s != [] {
      assert s[0] in s;
      assert forall x :: x in s[1..] ==> x in s;
      FilterAllPass(f, s[1..]);
      assert [s[0]] + s[1..] == s;
    }
  }

  /** Two predicates that agree on the elements of `s` filter it alike. */
  lemma {:induction false} FilterExt<T(!new)>(f: T -> bool, g: T -> bool, s: seq<T>)
    requires forall x :: x in s ==> f(x) == g(x)
    ensures Filter(f, s) == Filter(g, s)
    decreases |s|
  {
    if s != [] {
      assert s[0] in s;
      assert forall x :: x in s[1..] ==> x in s;
      FilterExt(f, g, s[1..]);
    }
  }

  /** Filtering twice is filtering once by the conjunction. */
  lemma {:induction false} FilterFilter<T(!new)>(f: T -> bool, g: T -> bool, h: T -> bool, s: seq<T>)
    requires forall x :: x in s ==> h(x) == (f(x) && g(x))
    ensures Filter(g, Filter(f, s)) == Filter(h, s)
    decreases |s|
  {
    if s != [] {
      assert s[0] in s;
      assert forall x :: x in s[1..] ==> x in s;
      FilterFilter(f, g, h, s[1..]);
      var rest := Filter(f, s[1..]);
      if f(s[0]) {
        assert Filter(f, s) == [s[0]] + rest;
        assert ([s[0]] + rest)[1..] == rest;
      } else {
        assert Filter(f, s) == rest;
      }
    }
  }

  /**
   * One step of a filter pipeline: a working list that is `s` filtered by
   * `kept`, narrowed by `step` when `active`, is `s` filtered by `next`.
   */
  lemma NarrowStep<T(!new)>(s: seq<T>, res: seq<T>, kept: T -> bool, step: T -> bool, active: bool, next: T -> bool)
    requires res == Filter(kept, s)
    requires forall x :: next(x) == (kept(x) && (active ==> step(x)))
    ensures (if active then Filter(step, res) else res) == Filter(next, s)
  {
    if active {
      FilterFilter(kept, step, next, s);
    } else {
      FilterExt(kept, next, s);
    }
  }

  /** Splitting a list by a test and its negation loses and duplicates nothing. */
  lemma {:induction false} FilterPartition<T(!new)>(keep: T -> bool, drop: T -> bool, s: seq<T>)
    requires forall x :: drop(x) == !keep(x)
    ensures multiset(Filter(keep, s)) + multiset(Filter(drop, s)) == multiset(s)
    ensures |Filter(keep, s)| + |Filter(drop, s)| == |s|
    decreases |s|
  {
    if s != [] {
      FilterPartition(keep, drop, s[1..]);
      assert s == [s[0]] + s[1..];
    }
  }

  /** The number of elements of `s` that satisfy `f`. */
  function Count<T(!new)>(f: T -> bool, s: seq<T>): (n: nat)
    ensures n == |Filter(f, s)|
    decreases |s|
  {
    if s == [] then 0 else (if f(s[0]) then 1 else 0) + Count(f, s[1..])
  }

  /** `s.reduce((acc, x) => acc + f(x), 0)`, accumulated from the left. */
  function Sum<T>(f: T -> int, s: seq<T>): int
    decreases |s|
  {
    if s == [] then 0 else Sum(f, s[..|s| - 1]) + f(s[|s| - 1])
  }

  /** The sum over a list with a first element is that element's term plus the sum over the rest. */
  lemma SumCons<T>(f: T -> int, x: T, s: seq<T>)
    ensures Sum(f, [x] + s) == f(x) + Sum(f, s)
  {
    SumAppend(f, [x], s);
    assert Sum(f, [x]) == Sum(f, []) + f(x) by { assert [x][..0] == []; }
  }

  lemma {:induction false} SumAppend<T>(f: T -> int, a: seq<T>, b: seq<T>)
    ensures Sum(f, a + b) == Sum(f, a) + Sum(f, b)
    decreases |b|
  {
    if b == [] {
      assert a + b == a;
    } else {
      var init := b[..|b| - 1];
      assert (a + b)[..|a + b| - 1] == a + init;
      assert (a + b)[|a + b| - 1] == b[|b| - 1];
      SumAppend(f, a, init);
    }
  }

  /** Splitting a list by a test and its negation splits its sum. */
  lemma {:induction false} SumPartition<T(!new)>(f: T -> int, keep: T -> bool, drop: T -> bool, s: seq<T>)
    requires forall x :: drop(x) == !keep(x)
    ensures Sum(f, Filter(keep, s)) + Sum(f, Filter(drop, s)) == Sum(f, s)
    decreases |s|
  {
    if s != [] {
      var init, last := s[..|s| - 1], s[|s| - 1];
      assert s == init + [last];
      SumPartition(f, keep, drop, init);
      FilterAppend(keep, init, [last]);
      FilterAppend(drop, init, [last]);
      FilterCons(keep, last, []);
      FilterCons(drop, last, []);
      var k, d := Filter(keep, [last]), Filter(drop, [last]);
      SumAppend(f, Filter(keep, init), k);
      SumAppend(f, Filter(drop, init), d);
      assert Sum(f, k) + Sum(f, d) == f(last) by {
        if keep(last) {
          assert k == [last] && d == [];
        } else {
          assert k == [] && d == [last];
        }
      }
    }
  }

  /** Replacing one element changes the sum by the difference of the two terms. */
  lemma SumReplace<T>(f: T -> int, s: seq<T>, k: nat, x: T)
    requires k < |s|
    ensures Sum(f, s[k := x]) == Sum(f, s) - f(s[k]) + f(x)
  {
    assert s == s[..k] + [s[k]] + s[k + 1..];
    assert s[k := x] == s[..k] + [x] + s[k + 1..];
    SumAppend(f, s[..k] + [s[k]], s[k + 1..]);
    SumAppend(f, s[..k] + [x], s[k + 1..]);
    SumAppend(f, s[..k], [s[k]]);
    SumAppend(f, s[..k], [x]);
  }

  /** `s.map(f)`. */
  function Map<T, U>(f: T -> U, s: seq<T>): (r: seq<U>)
    ensures |r| == |s|
    ensures forall i :: 0 <= i < |s| ==> r[i] == f(s[i])
  {
    seq(|s|, i requires 0 <= i < |s| => f(s[i]))
  }

  /** `s.flatMap(f)`: the lists `f(x)` for `x` in `s`, concatenated in order. */
  function FlatMap<T, U(!new)>(f: T -> seq<U>, s: seq<T>): (r: seq<U>)
    ensures forall y :: y in r <==> exists i :: 0 <= i < |s| && y in f(s[i])
    decreases |s|
  {
    if s == [] then []
    else
      var rest := FlatMap(f, s[1..]);
      assert forall i :: 0 <= i < |s| - 1 ==> s[1..][i] == s[i + 1];
      f(s[0]) + rest
  }

  /** JavaScript's `s.slice(start, end)`: negative positions count from the end, all are clamped. */
  function Slice<T>(s: seq<T>, start: int, end: int): (r: seq<T>)
    ensures |r| <= |s|
  {
    var lo := Clamp(if start < 0 then |s| + start else start, |s|);
    var hi := Clamp(if end < 0 then |s| + end else end, |s|);
    if lo < hi then s[lo..hi] else []
  }

  function Clamp(i: int, n: nat): (r: nat)
    ensures r <= n
    ensures 0 <= i <= n ==> r == i
  {
    if i < 0 then 0 else if i > n then n else i
  }

  function Min(a: int, b: int): int { if a <= b then a else b }

  /** For non-negative bounds `slice` is the ordinary clamped sub-range. */
  lemma SliceNonNegative<T>(s: seq<T>, start: nat, end: nat)
    ensures Slice(s, start, end) ==
            if start < Min(end, |s|) then s[start..Min(end, |s|)] else []
  {
  }

  /** `slice(0, k)` with `k >= 0` keeps the first `min(k, |s|)` elements. */
  lemma SliceTake<T>(s: seq<T>, k: nat)
    ensures Slice(s, 0, k) == s[..Min(k, |s|)]
    ensures |Slice(s, 0, k)| == Min(k, |s|)
  {
  }

  /** `slice(0, end)` is always a prefix of `s`. */
  lemma SliceFromStart<T>(s: seq<T>, end: int)
    ensures exists m :: 0 <= m <= |s| && Slice(s, 0, end) == s[..m]
  {
    var hi := Clamp(if end < 0 then |s| + end else end, |s|);
    if 0 < hi {
      assert Slice(s, 0, end) == s[..hi];
    } else {
      assert Slice(s, 0, end) == s[..0];
    }
  }

  predicate NoDuplicates<T(==)>(s: seq<T>) {
    forall i, j :: 0 <= i < j < |s| ==> s[i] != s[j]
  }

  /** `Array.from(new Set(s))`: the first occurrence of every value, in order. */
  function Dedup<T(==,!new)>(s: seq<T>): (r: seq<T>)
    ensures NoDuplicates(r)
    ensures forall x :: x in r <==> x in s
    decreases |s|
  {
    if s == [] then []
    else
      var d := Dedup(s[..|s| - 1]);
      var last := s[|s| - 1];
      assert s == s[..|s| - 1] + [last];
      if last in d then d else d + [last]
  }

  /** The position of the first occurrence of `x` in `s`. */
  function IndexOf<T(==)>(s: seq<T>, x: T): (i: nat)
    requires x in s
    ensures i < |s| && s[i] == x
    ensures forall j :: 0 <= j < i ==> s[j] != x
    decreases |s|
  {
    if s[0] == x then 0 else 1 + IndexOf(s[1..], x)
  }

  lemma {:induction false} IndexOfSnoc<T>(s: seq<T>, y: T, x: T)
    requires x in s
    ensures x in s + [y] && IndexOf(s + [y], x) == IndexOf(s, x)
    decreases |s|
  {
    if s[0] != x {
      assert (s + [y])[1..] == s[1..] + [y];
      IndexOfSnoc(s[1..], y, x);
    }
  }

  /** The de-duplicated list is ordered by the values' first occurrences in `s`. */
  lemma {:induction false} DedupFirstOccurrenceOrder<T(!new)>(s: seq<T>)
    ensures forall i, j :: 0 <= i < j < |Dedup(s)| ==>
              Dedup(s)[i] in s && Dedup(s)[j] in s &&
              IndexOf(s, Dedup(s)[i]) < IndexOf(s, Dedup(s)[j])
    decreases |s|
  {
    if s != [] {
      var init, last := s[..|s| - 1], s[|s| - 1];
      assert s == init + [last];
      DedupFirstOccurrenceOrder(init);
      var d := Dedup(init);
      forall x | x in init ensures x in s && IndexOf(s, x) == IndexOf(init, x) {
        IndexOfSnoc(init, last, x);
      }
      var r := Dedup(s);
      assert r == if last in d then d else d + [last];
      forall i, j | 0 <= i < j < |r|
        ensures r[i] in s && r[j] in s && IndexOf(s, r[i]) < IndexOf(s, r[j])
      {
        assert r[i] == d[i] && d[i] in init;
        if j < |d| {
          assert r[j] == d[j] && d[j] in init;
          assert IndexOf(init, d[i]) < IndexOf(init, d[j]);
        } else {
          assert r[j] == last && last !in init;
          assert IndexOf(s, last) == |s| - 1;
        }
      }
    } else {
      assert Dedup(s) == [];
    }
  }
}
