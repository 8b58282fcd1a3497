/**
 * The sidebar filter panel: a filter record replaced one key at a time, the
 * colour and size check-boxes toggled in and out of their arrays, and the
 * facet lists read off the catalog. Every new record is handed to the
 * optional change listener.
 */
module SidebarFilter {
  import opened Wrappers
  import opened Types
  import opened Seqs
  import Catalog

  /** The filter record; a key that was never set, or set to `undefined`, is `None`. */
  datatype Filters = Filters(
    category: Option<string>,
    minPrice: Option<int>,
    maxPrice: Option<int>,
    inStock: Option<bool>,
    colors: Option<seq<string>>,
    sizes: Option<seq<string>>)

  const NoFilters := Filters(None, None, None, None, None, None)

  datatype Key = CategoryKey | MinPriceKey | MaxPriceKey | InStockKey | ColorsKey | SizesKey

  /** The two array-valued keys, the only ones the check-boxes toggle. */
  datatype ArrayKey = Colors | Sizes

  /** One `updateFilter(key, value)` call: the key together with its new value. */
  datatype Update =
    | SetCategory(category: Option<string>)
    | SetMinPrice(minPrice: Option<int>)
    | SetMaxPrice(maxPrice: Option<int>)
    | SetInStock(inStock: Option<bool>)
    | SetArray(key: ArrayKey, values: Option<seq<string>>)

  function KeyOf(u: Update): Key {
    match u
    case SetCategory(_) => CategoryKey
    case SetMinPrice(_) => MinPriceKey
    case SetMaxPrice(_) => MaxPriceKey
    case SetInStock(_) => InStockKey
    case SetArray(Colors, _) => ColorsKey
    case SetArray(Sizes, _) => SizesKey
  }

  /** `f` and `g` hold the same value under every key except `k`. */
  predicate SameExcept(f: Filters, g: Filters, k: Key) {
    && (k != CategoryKey ==> f.category == g.category)
    && (k != MinPriceKey ==> f.minPrice == g.minPrice)
    && (k != MaxPriceKey ==> f.maxPrice == g.maxPrice)
    && (k != InStockKey ==> f.inStock == g.inStock)
    && (k != ColorsKey ==> f.colors == g.colors)
    && (k != SizesKey ==> f.sizes == g.sizes)
  }

  /** `g` holds the value that `u` writes, under the key `u` writes it to. */
  predicate Holds(g: Filters, u: Update) {
    match u
    case SetCategory(v) => g.category == v
    case SetMinPrice(v) => g.minPrice == v
    case SetMaxPrice(v) => g.maxPrice == v
    case SetInStock(v) => g.inStock == v
    case SetArray(Colors, v) => g.colors == v
    case SetArray(Sizes, v) => g.sizes == v
  }

  /** `{ ...filters, [key]: value }`. */
  function Apply(f: Filters, u: Update): (r: Filters)
    ensures SameExcept(f, r, KeyOf(u))
    ensures Holds(r, u)
  {
    match u
    case SetCategory(v) => f.(category := v)
    case SetMinPrice(v) => f.(minPrice := v)
    case SetMaxPrice(v) => f.(maxPrice := v)
    case SetInStock(v) => f.(inStock := v)
    case SetArray(Colors, v) => f.(colors := v)
    case SetArray(Sizes, v) => f.(sizes := v)
  }

  /** A record is determined by the key it differs in and that key's value. */
  lemma ApplyUnique(f: Filters, u: Update, g: Filters)
    requires SameExcept(f, g, KeyOf(u)) && Holds(g, u)
    ensures g == Apply(f, u)
  {
  }

  /** A second update of the same key overrides the first. */
  lemma {:induction false} ApplyLastWins(f: Filters, u: Update, w: Update)
    requires KeyOf(u) == KeyOf(w)
    ensures Apply(Apply(f, u), w) == Apply(f, w)
  {
    ApplyUnique(f, w, Apply(Apply(f, u), w));
  }

  /** Updates of different keys commute. */
  lemma {:induction false} ApplyCommutes(f: Filters, u: Update, w: Update)
    requires KeyOf(u) != KeyOf(w)
    ensures Apply(Apply(f, u), w) == Apply(Apply(f, w), u)
  {
    var g := Apply(Apply(f, u), w);
    var h := Apply(Apply(f, w), u);
    assert g.category == h.category && g.minPrice == h.minPrice && g.maxPrice == h.maxPrice;
    assert g.inStock == h.inStock && g.colors == h.colors && g.sizes == h.sizes;
  }

  /** `filters[key]`, for an array key. */
  function Values(f: Filters, key: ArrayKey): Option<seq<string>> {
    match key
    case Colors => f.colors
    case Sizes => f.sizes
  }

  /** Whether the check-box for `v` under `key` is ticked: `filters[key]?.includes(v) ?? false`. */
  predicate Checked(f: Filters, key: ArrayKey, v: string) {
    Values(f, key).Some? && v in Values(f, key).value
  }

  /** The record `toggleArrayFilter(key, v)` passes on: a missing array counts as empty. */
  function Toggled(f: Filters, key: ArrayKey, v: string): (r: Filters)
    ensures SameExcept(f, r, KeyOf(SetArray(key, None)))
    ensures Values(r, key) == Some(Catalog.Toggle(Values(f, key).GetOr([]), v))
  {
    Apply(f, SetArray(key, Some(Catalog.Toggle(Values(f, key).GetOr([]), v))))
  }

  /**
   * Toggling flips the box for `v` and leaves every other box as it was; an
   * unticked value is appended at the end of the array, a ticked one removed
   * with the rest kept in order.
   */
  lemma ToggledMeaning(f: Filters, key: ArrayKey, v: string)
    ensures Checked(Toggled(f, key, v), key, v) <==> !Checked(f, key, v)
    ensures forall x :: x != v ==> (Checked(Toggled(f, key, v), key, x) <==> Checked(f, key, x))
    ensures !Checked(f, key, v) ==>
      Values(Toggled(f, key, v), key).value == Values(f, key).GetOr([]) + [v]
    ensures Checked(f, key, v) ==>
      IsSubseq(Values(Toggled(f, key, v), key).value, Values(f, key).value)
    ensures Checked(f, key, v) ==>
      multiset(Values(Toggled(f, key, v), key).value) == multiset(Values(f, key).value)[v := 0]
  {
    Catalog.ToggleMeaning(Values(f, key).GetOr([]), v);
  }

  /** Ticking and unticking the same box restores every box. */
  lemma ToggledTwice(f: Filters, key: ArrayKey, v: string)
    ensures forall x :: Checked(Toggled(Toggled(f, key, v), key, v), key, x) <==> Checked(f, key, x)
    ensures SameExcept(f, Toggled(Toggled(f, key, v), key, v), KeyOf(SetArray(key, None)))
  {
    var s := Values(f, key).GetOr([]);
    Catalog.ToggleTwice(s, v);
    assert Values(Toggled(f, key, v), key).GetOr([]) == Catalog.Toggle(s, v);
  }

  /** The "All Categories" radio is ticked: `!filters.category`. */
  predicate AllCategoriesChecked(f: Filters) {
    f.category.None? || f.category == Some("")
  }

  class Sidebar {
    /** The panel's filter record. */
    var filters: Filters
    /** Every record handed to the change listener, oldest first. */
    var notified: seq<Filters>
    /** Whether a change listener was supplied. */
    const listening: bool
    var categories: seq<string>
    var colors: seq<string>
    var sizes: seq<string>

    constructor (listening: bool)
      ensures this.listening == listening
      ensures filters == NoFilters && notified == []
      ensures categories == [] && colors == [] && sizes == []
    {
      this.listening := listening;
      filters := NoFilters;
      notified := [];
      categories, colors, sizes := [], [], [];
    }

    /** The fetched catalog arrives: the facet lists are its de-duplicated values. */
    method Loaded(all: seq<Product>)
      modifies this
      ensures categories == Catalog.Categories(all)
      ensures colors == Catalog.Colors(all)
      ensures sizes == Catalog.Sizes(all)
      ensures filters == old(filters) && notified == old(notified)
    {
      categories := Catalog.Categories(all);
      colors := Catalog.Colors(all);
      sizes := Catalog.Sizes(all);
    }

    /** `updateFilter`: the new record replaces the old and, with a listener, is reported. */
    method UpdateFilter(u: Update)
      modifies this
      ensures filters == Apply(old(filters), u)
      ensures notified == old(notified) + (if listening then [filters] else [])
      ensures categories == old(categories) && colors == old(colors) && sizes == old(sizes)
    {
      filters := Apply(filters, u);
      if listening {
        notified := notified + [filters];
      }
    }

    /** `toggleArrayFilter`: tick or untick `v` in the colours or sizes. */
    method ToggleArrayFilter(key: ArrayKey, v: string)
      modifies this
      ensures filters == Toggled(old(filters), key, v)
      ensures notified == old(notified) + (if listening then [filters] else [])
      ensures categories == old(categories) && colors == old(colors) && sizes == old(sizes)
    {
      var current := Values(filters, key).GetOr([]);
      var newValues := Catalog.Toggle(current, v);
      UpdateFilter(SetArray(key, Some(newValues)));
    }

    /** The "All Categories" radio: the category key becomes undefined. */
    method ChooseAllCategories()
      modifies this
      ensures AllCategoriesChecked(filters)
      ensures forall cat :: filters.category != Some(cat)
      ensures SameExcept(old(filters), filters, CategoryKey)
      ensures notified == old(notified) + (if listening then [filters] else [])
      ensures categories == old(categories) && colors == old(colors) && sizes == old(sizes)
    {
      UpdateFilter(SetCategory(None));
    }
  }
}
