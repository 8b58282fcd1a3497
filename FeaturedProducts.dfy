/**
 * The featured strip: the products of one audience, newest first, cut to a
 * limit (filter, then sort by `create_at` descending, then `slice(0, limit)`).
 */
module FeaturedProducts {
  import opened Wrappers
  import opened Types
  import opened Seqs
  import opened Text
  import StableSort

  const DefaultLimit: int := 5

  /**
   * The audience test: no gender (or an empty one) lets everything through;
   * otherwise the product's tag must equal it ignoring case, or, for an array
   * tag, one of its elements must. A product without a tag never passes.
   */
  predicate GenderPasses(gender: Option<string>, p: Product) {
    if gender.None? || gender.value == "" then true
    else match p.gender
      case One(name) => Lower(name) == Lower(gender.value)
      case Many(names) => exists i :: 0 <= i < |names| && Lower(names[i]) == Lower(gender.value)
      case Unset => false
  }

  function ForGender(gender: Option<string>): Product -> bool {
    p => GenderPasses(gender, p)
  }

  /** The comparator `b.create_at - a.create_at` sorts ascending on this key. */
  function NewestKey(p: Product): int {
    -p.createdAt
  }

  function Featured(products: seq<Product>, gender: Option<string>, limit: int := DefaultLimit): seq<Product> {
    Slice(StableSort.SortBy(NewestKey, Filter(ForGender(gender), products)), 0, limit)
  }

  /** Without a gender every product is a candidate. */
  lemma NoGenderKeepsAll(products: seq<Product>, gender: Option<string>, limit: int)
    requires gender.None? || gender.value == ""
    ensures Featured(products, gender, limit) == Slice(StableSort.SortBy(NewestKey, products), 0, limit)
  {
    FilterAllPass(ForGender(gender), products);
  }

  /**
   * Every featured product comes from the list and passes the audience test,
   * none appears more often than among the matching products, and the strip
   * runs from newest to oldest.
   */
  lemma FeaturedMeaning(products: seq<Product>, gender: Option<string>, limit: int)
    ensures forall p :: p in Featured(products, gender, limit) ==> p in products && GenderPasses(gender, p)
    ensures var r := Featured(products, gender, limit);
            forall i, j :: 0 <= i < j < |r| ==> r[i].createdAt >= r[j].createdAt
    ensures multiset(Featured(products, gender, limit)) <= multiset(Filter(ForGender(gender), products))
  {
    var m := Filter(ForGender(gender), products);
    var sorted := StableSort.SortBy(NewestKey, m);
    StableSort.SortByPermutes(NewestKey, m);
    StableSort.SortBySorted(NewestKey, m);
    SliceFromStart(sorted, limit);
    var k :| 0 <= k <= |sorted| && Featured(products, gender, limit) == sorted[..k];
    forall p | p in sorted[..k] ensures p in products && GenderPasses(gender, p) {
      assert p in multiset(sorted);
    }
    assert sorted == sorted[..k] + sorted[k..];
    assert multiset(sorted) == multiset(sorted[..k]) + multiset(sorted[k..]);
  }

  /** A non-negative limit keeps `min(limit, number of matching products)` of them. */
  lemma FeaturedLength(products: seq<Product>, gender: Option<string>, limit: nat)
    ensures |Featured(products, gender, limit)| == Min(limit, Count(ForGender(gender), products))
  {
    SliceTake(StableSort.SortBy(NewestKey, Filter(ForGender(gender), products)), limit);
  }

  /** No matching product cut off by the limit is newer than a product kept. */
  lemma CutOffIsOlder(products: seq<Product>, gender: Option<string>, limit: int, p: Product)
    requires p in products && GenderPasses(gender, p)
    requires p !in Featured(products, gender, limit)
    ensures forall x :: x in Featured(products, gender, limit) ==> p.createdAt <= x.createdAt
  {
    var m := Filter(ForGender(gender), products);
    var sorted := StableSort.SortBy(NewestKey, m);
    StableSort.SortByPermutes(NewestKey, m);
    StableSort.SortBySorted(NewestKey, m);
    SliceFromStart(sorted, limit);
    var k :| 0 <= k <= |sorted| && Featured(products, gender, limit) == sorted[..k];
    assert p in multiset(m);
    var j :| 0 <= j < |sorted| && sorted[j] == p;
    assert j >= k;
    forall x | x in sorted[..k] ensures p.createdAt <= x.createdAt {
      var i :| 0 <= i < k && sorted[i] == x;
      assert NewestKey(sorted[i]) <= NewestKey(sorted[j]);
    }
  }
}
