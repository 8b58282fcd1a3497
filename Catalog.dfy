/**
 * The catalog page: the facet lists taken from the whole catalog, the
 * filter-then-sort pipeline that produces the visible products, the
 * multi-select toggles and the page title.
 */
module Catalog {
  import opened Wrappers
  import opened Types
  import opened Seqs
  import opened Text
  import StableSort

  datatype SortMode = Relevance | Asc | Desc

  /**
   * The page's inputs to the pipeline. `search` is the debounced search text;
   * a price bound left empty (`""`) is `None`.
   */
  datatype Query = Query(
    gender: Option<string>,
    search: string,
    sort: SortMode,
    categories: seq<string>,
    sizes: seq<string>,
    colors: seq<string>,
    minPrice: Option<int>,
    maxPrice: Option<int>)

  // ----------------------------------------------------------------- filters

  /** `if (gender)`: a gender prop that is present and non-empty. */
  predicate GenderActive(q: Query) {
    q.gender.Some? && q.gender.value != ""
  }

  /** `p.gender === gender`: exact, case-sensitive, and never true of an array tag. */
  predicate GenderIs(g: string, p: Product) {
    p.gender == One(g)
  }

  /** `p.title.toLowerCase().includes(search.toLowerCase())`, untrimmed search. */
  predicate TitleHas(search: string, p: Product) {
    Includes(Lower(p.title), Lower(search))
  }

  /** The title search ignores letter case, in the query and in the title alike. */
  lemma TitleHasIgnoresCase(search: string, other: string, p: Product, title: string)
    requires SameUpToCase(search, other) && SameUpToCase(p.title, title)
    ensures TitleHas(search, p) <==> TitleHas(other, p.(title := title))
  {
    SameUpToCaseLower(search, other);
    SameUpToCaseLower(p.title, title);
  }

  /** Some element of `have` is among `selected` (`have.some(x => selected.includes(x))`). */
  predicate AnySelected(have: seq<string>, selected: seq<string>) {
    exists i :: 0 <= i < |have| && have[i] in selected
  }

  /** Inclusive bounds; a missing bound does not constrain. */
  predicate PriceWithin(min: Option<int>, max: Option<int>, p: Product) {
    (min.None? || p.price >= min.value) && (max.None? || p.price <= max.value)
  }

  /** A product survives every active filter of the query. */
  predicate Matches(q: Query, p: Product) {
    && (GenderActive(q) ==> GenderIs(q.gender.value, p))
    && (!IsBlank(q.search) ==> TitleHas(q.search, p))
    && (q.categories != [] ==> p.category in q.categories)
    && (q.sizes != [] ==> AnySelected(p.sizes.GetOr([]), q.sizes))
    && (q.colors != [] ==> AnySelected(p.colors.GetOr([]), q.colors))
    && PriceWithin(q.minPrice, q.maxPrice, p)
  }

  function Matcher(q: Query): Product -> bool {
    p => Matches(q, p)
  }

  /** The filtered products before sorting: the matching ones, in catalog order. */
  function Matching(all: seq<Product>, q: Query): (r: seq<Product>)
    ensures forall p :: p in r ==> p in all && Matches(q, p)
    ensures forall p :: p in all && Matches(q, p) ==> p in r
    ensures IsSubseq(r, all)
  {
    FilterIsSubseq(Matcher(q), all);
    Filter(Matcher(q), all)
  }

  // -------------------------------------------------------------------- sort

  /** The comparator's key: `a.price - b.price` for `asc`, `b.price - a.price` for `desc`. */
  function PriceKey(mode: SortMode): Product -> int {
    if mode == Desc then (p: Product) => -p.price else (p: Product) => p.price
  }

  /** The sort step: none for relevance, otherwise the stable sort by price. */
  function Arranged(s: seq<Product>, mode: SortMode): seq<Product> {
    if mode == Relevance then s else StableSort.SortBy(PriceKey(mode), s)
  }

  function PriceIs(v: int): Product -> bool {
    (p: Product) => p.price == v
  }

  /**
   * The arranged list is a permutation of its input, ordered by price in the
   * requested direction, and products of equal price keep their relative order.
   */
  lemma ArrangedPermutes(s: seq<Product>, mode: SortMode)
    ensures multiset(Arranged(s, mode)) == multiset(s)
    ensures mode == Relevance ==> Arranged(s, mode) == s
  {
    if mode != Relevance {
      StableSort.SortByPermutes(PriceKey(mode), s);
    }
  }

  /** `asc` gives non-decreasing prices, `desc` non-increasing ones. */
  lemma ArrangedOrdered(s: seq<Product>, mode: SortMode)
    ensures |Arranged(s, mode)| == |s|
    ensures mode == Asc ==> forall i, j :: 0 <= i < j < |s| ==>
              Arranged(s, mode)[i].price <= Arranged(s, mode)[j].price
    ensures mode == Desc ==> forall i, j :: 0 <= i < j < |s| ==>
              Arranged(s, mode)[i].price >= Arranged(s, mode)[j].price
  {
    if mode != Relevance {
      var key := PriceKey(mode);
      StableSort.SortBySorted(key, s);
      var r := StableSort.SortBy(key, s);
      assert forall i, j :: 0 <= i < j < |r| ==> key(r[i]) <= key(r[j]);
    }
  }

  /** Stability: the products of any one price appear in the order they had. */
  lemma ArrangedStable(s: seq<Product>, mode: SortMode, v: int)
    ensures Filter(PriceIs(v), Arranged(s, mode)) == Filter(PriceIs(v), s)
  {
    if mode != Relevance {
      var key := PriceKey(mode);
      var r := StableSort.SortBy(key, s);
      var k := if mode == Desc then -v else v;
      StableSort.SortByStable(key, k, s);
      FilterExt(PriceIs(v), StableSort.KeyIs(key, k), r);
      FilterExt(PriceIs(v), StableSort.KeyIs(key, k), s);
    }
  }

  // ---------------------------------------------------------------- pipeline

  function ByGender(g: string): Product -> bool { p => GenderIs(g, p) }
  function ByTitle(search: string): Product -> bool { p => TitleHas(search, p) }
  function ByCategory(cats: seq<string>): Product -> bool { (p: Product) => p.category in cats }
  function BySize(sizes: seq<string>): Product -> bool {
    (p: Product) => AnySelected(p.sizes.GetOr([]), sizes)
  }
  function ByColor(colors: seq<string>): Product -> bool {
    (p: Product) => AnySelected(p.colors.GetOr([]), colors)
  }
  function ByPrice(min: Option<int>, max: Option<int>): Product -> bool {
    p => PriceWithin(min, max, p)
  }

  /**
   * The `filtered` computation: a working list narrowed by each active filter
   * in turn, then sorted in place when a price order is chosen.
   */
  method Filtered(all: seq<Product>, q: Query) returns (res: seq<Product>)
    ensures res == Arranged(Matching(all, q), q.sort)
  {
    res := all;
    ghost var kept: Product -> bool := _ => true;
    FilterAllPass(kept, all);

    ghost var next: Product -> bool :=
      p => kept(p) && (GenderActive(q) ==> GenderIs(q.gender.GetOr(""), p));
    NarrowStep(all, res, kept, ByGender(q.gender.GetOr("")), GenderActive(q), next);
    if GenderActive(q) {
      res := Filter(ByGender(q.gender.value), res);
    }
    kept := next;

    next := p => kept(p) && (!IsBlank(q.search) ==> TitleHas(q.search, p));
    NarrowStep(all, res, kept, ByTitle(q.search), !IsBlank(q.search), next);
    if !IsBlank(q.search) {
      res := Filter(ByTitle(q.search), res);
    }
    kept := next;

    next := p => kept(p) && (q.categories != [] ==> p.category in q.categories);
    NarrowStep(all, res, kept, ByCategory(q.categories), q.categories != [], next);
    if q.categories != [] {
      res := Filter(ByCategory(q.categories), res);
    }
    kept := next;

    next := p => kept(p) && (q.sizes != [] ==> AnySelected(p.sizes.GetOr([]), q.sizes));
    NarrowStep(all, res, kept, BySize(q.sizes), q.sizes != [], next);
    if q.sizes != [] {
      res := Filter(BySize(q.sizes), res);
    }
    kept := next;

    next := p => kept(p) && (q.colors != [] ==> AnySelected(p.colors.GetOr([]), q.colors));
    NarrowStep(all, res, kept, ByColor(q.colors), q.colors != [], next);
    if q.colors != [] {
      res := Filter(ByColor(q.colors), res);
    }
    kept := next;

    next := p => kept(p) && PriceWithin(q.minPrice, q.maxPrice, p);
    NarrowStep(all, res, kept, ByPrice(q.minPrice, q.maxPrice), true, next);
    res := Filter(ByPrice(q.minPrice, q.maxPrice), res);
    FilterExt(next, Matcher(q), all);
    assert res == Matching(all, q);
    res := SortStep(res, q.sort);
  }

  /** `if (sort === "asc") res.sort(...)`, then the same for `"desc"`. */
  method SortStep(s: seq<Product>, mode: SortMode) returns (res: seq<Product>)
    ensures res == Arranged(s, mode)
  {
    res := s;
    if mode == Asc {
      res := StableSort.Sort(PriceKey(Asc), res);
    }
    if mode == Desc {
      res := StableSort.Sort(PriceKey(Desc), res);
    }
  }

  /**
   * What the page shows: exactly the catalog's products that pass every active
   * filter, in catalog order under relevance, reordered by the sort otherwise.
   */
  lemma FilteredMeaning(all: seq<Product>, q: Query)
    ensures forall p :: p in Arranged(Matching(all, q), q.sort) <==> p in all && Matches(q, p)
    ensures q.sort == Relevance ==> IsSubseq(Arranged(Matching(all, q), q.sort), all)
  {
    var m := Matching(all, q);
    ArrangedPermutes(m, q.sort);
    var r := Arranged(m, q.sort);
    forall p ensures p in r <==> p in m {
      assert p in r <==> p in multiset(r);
      assert p in m <==> p in multiset(m);
    }
  }

  // ------------------------------------------------------------------ facets

  /** `Array.from(new Set(all.map(p => p.category)))`. */
  function Categories(all: seq<Product>): seq<string> {
    Dedup(Map((p: Product) => p.category, all))
  }

  /** `Array.from(new Set(all.flatMap(p => p.size ?? [])))`. */
  function Sizes(all: seq<Product>): seq<string> {
    Dedup(FlatMap((p: Product) => p.sizes.GetOr([]), all))
  }

  /** `Array.from(new Set(all.flatMap(p => p.colors ?? [])))`. */
  function Colors(all: seq<Product>): seq<string> {
    Dedup(FlatMap((p: Product) => p.colors.GetOr([]), all))
  }

  /**
   * Each facet list holds every value some product of the catalog has, once,
   * in order of first occurrence.
   */
  lemma FacetsMeaning(all: seq<Product>)
    ensures NoDuplicates(Categories(all)) && NoDuplicates(Sizes(all)) && NoDuplicates(Colors(all))
    ensures forall c :: c in Categories(all) <==> exists i :: 0 <= i < |all| && all[i].category == c
    ensures forall s :: s in Sizes(all) <==> exists i :: 0 <= i < |all| && s in all[i].sizes.GetOr([])
    ensures forall c :: c in Colors(all) <==> exists i :: 0 <= i < |all| && c in all[i].colors.GetOr([])
    ensures var names := Map((p: Product) => p.category, all);
            forall i, j :: 0 <= i < j < |Categories(all)| ==>
              IndexOf(names, Categories(all)[i]) < IndexOf(names, Categories(all)[j])
    ensures var sizes := FlatMap((p: Product) => p.sizes.GetOr([]), all);
            forall i, j :: 0 <= i < j < |Sizes(all)| ==>
              Sizes(all)[i] in sizes && Sizes(all)[j] in sizes &&
              IndexOf(sizes, Sizes(all)[i]) < IndexOf(sizes, Sizes(all)[j])
    ensures var colors := FlatMap((p: Product) => p.colors.GetOr([]), all);
            forall i, j :: 0 <= i < j < |Colors(all)| ==>
              Colors(all)[i] in colors && Colors(all)[j] in colors &&
              IndexOf(colors, Colors(all)[i]) < IndexOf(colors, Colors(all)[j])
  {
    var names := Map((p: Product) => p.category, all);
    DedupFirstOccurrenceOrder(names);
    DedupFirstOccurrenceOrder(FlatMap((p: Product) => p.sizes.GetOr([]), all));
    DedupFirstOccurrenceOrder(FlatMap((p: Product) => p.colors.GetOr([]), all));
    forall c ensures c in names <==> exists i :: 0 <= i < |all| && all[i].category == c {
      if c in names {
        var i :| 0 <= i < |names| && names[i] == c;
        assert all[i].category == c;
      }
      if i :| 0 <= i < |all| && all[i].category == c {
        assert names[i] == c;
      }
    }
  }

  // ----------------------------------------------------------------- toggles

  /** The test `x => x !== v` that removes a value, and its negation. */
  function Without(v: string): string -> bool {
    x => x != v
  }

  function Is(v: string): string -> bool {
    x => x == v
  }

  /** `prev.includes(v) ? prev.filter(x => x !== v) : [...prev, v]`. */
  function Toggle(s: seq<string>, v: string): seq<string> {
    if v in s then Filter(Without(v), s) else s + [v]
  }

  /**
   * Toggling flips the membership of `v` and no other: an absent value is
   * appended at the end, a present one loses all its occurrences and the rest
   * keep their order.
   */
  lemma ToggleMeaning(s: seq<string>, v: string)
    ensures v in Toggle(s, v) <==> v !in s
    ensures forall x :: x != v ==> (x in Toggle(s, v) <==> x in s)
    ensures v !in s ==> Toggle(s, v) == s + [v]
    ensures v in s ==> IsSubseq(Toggle(s, v), s)
    ensures v in s ==> multiset(Toggle(s, v)) == multiset(s)[v := 0]
    ensures v in s ==> |Toggle(s, v)| == |s| - Count(Is(v), s)
  {
    FilterIsSubseq(Without(v), s);
    if v in s {
      var kept, gone := Filter(Without(v), s), Filter(Is(v), s);
      FilterPartition(Without(v), Is(v), s);
      forall x ensures multiset(kept)[x] == multiset(s)[v := 0][x] {
        if x == v {
          assert x !in kept;
        } else {
          assert x !in gone;
        }
      }
      assert multiset(kept) == multiset(s)[v := 0];
    }
  }

  /** Toggling twice restores membership, and restores the list itself when `v` was absent. */
  lemma ToggleTwice(s: seq<string>, v: string)
    ensures forall x :: x in Toggle(Toggle(s, v), v) <==> x in s
    ensures v !in s ==> Toggle(Toggle(s, v), v) == s
  {
    ToggleMeaning(s, v);
    ToggleMeaning(Toggle(s, v), v);
    if v !in s {
      FilterAppend(Without(v), s, [v]);
      FilterCons(Without(v), v, []);
      FilterAllPass(Without(v), s);
    }
  }

  // -------------------------------------------------------------- page title

  function PageTitle(gender: Option<string>): (t: string)
    ensures gender == Some("men") ==> t == "Men's Collection"
    ensures gender == Some("women") ==> t == "Women's Collection"
    ensures gender != Some("men") && gender != Some("women") ==> t == "All Collections"
  {
    if gender == Some("men") then "Men's Collection"
    else if gender == Some("women") then "Women's Collection"
    else "All Collections"
  }
}
