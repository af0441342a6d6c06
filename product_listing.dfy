/**
 * The catalogue page's derived views: the category list, the
 * search/category/price filter followed by one of four sort orders, and the
 * "filters active" flag with its reset. Prices and price bounds are integer
 * cents. Lower-casing is a normaliser `lower` supplied by the caller,
 * `includes` is substring search, and `localeCompare(a, b) <= 0` is a
 * caller-supplied relation `nameLe` on titles.
 */
module ProductListing {
  import opened Wrappers
  import opened Types
  import Seqs

  datatype SortOption = Featured | PriceAsc | PriceDesc | Name

  /** The page's filter state: search text, category, price range and sort choice. */
  datatype Filters = Filters(searchQuery: string, selectedCategory: string, priceLow: Cents, priceHigh: Cents, sortBy: SortOption)

  /** The category entry that stands for "no category filter". */
  const All: string := "all"

  /** The default price range, $0 to $1000, in cents. */
  const DefaultPriceLow: Cents := 0
  const DefaultPriceHigh: Cents := 100000

  // ---------------------------------------------------------------------------
  // Categories
  // ---------------------------------------------------------------------------

  predicate NoDuplicates(s: seq<string>)
  {
    forall i, j :: 0 <= i < j < |s| ==> s[i] != s[j]
  }

  /** The elements of `s` in order of first occurrence, each once (what a `Set` iterates). */
  function Distinct(s: seq<string>): (r: seq<string>)
    ensures forall c :: c in r <==> c in s
    ensures NoDuplicates(r)
  {
    if s == [] then []
    else
      var d := Distinct(s[..|s| - 1]);
      assert s == s[..|s| - 1] + [s[|s| - 1]];
      if s[|s| - 1] in d then d else d + [s[|s| - 1]]
  }

  /** `products.map(p => p.category)`. */
  function CategoryOf(products: seq<Product>): seq<string>
  {
    seq(|products|, k requires 0 <= k < |products| => products[k].category)
  }

  /** `categories`: "all", then every product category once. */
  function Categories(products: seq<Product>): (r: seq<string>)
    ensures |r| >= 1 && r[0] == All
    ensures forall c :: c in r[1..] <==> exists p :: p in products && p.category == c
    ensures NoDuplicates(r[1..])
  {
    var cats := CategoryOf(products);
    assert forall c :: c in cats <==> exists p :: p in products && p.category == c by {
      forall c | c in cats ensures exists p :: p in products && p.category == c {
        var k :| 0 <= k < |cats| && cats[k] == c;
        assert products[k] in products;
      }
      forall p | p in products ensures p.category in cats {
        var k :| 0 <= k < |products| && products[k] == p;
        assert cats[k] == p.category;
      }
    }
    var r := [All] + Distinct(cats);
    assert r[1..] == Distinct(cats);
    r
  }

  // ---------------------------------------------------------------------------
  // Filtering
  // ---------------------------------------------------------------------------

  /** `haystack.includes(needle)`. */
  predicate Contains(haystack: string, needle: string)
  {
    exists i :: 0 <= i <= |haystack| && needle <= haystack[i..]
  }

  /** `p.description || ''`. */
  function DescriptionText(p: Product): string
  {
    match p.description
    case None => ""
    case Some(d) => d
  }

  /** The text test: the normalised title, description or category contains `query`. */
  function MatchesQuery(lower: string -> string, query: string): Product -> bool
  {
    (p: Product) =>
      Contains(lower(p.title), query) || Contains(lower(DescriptionText(p)), query) || Contains(lower(p.category), query)
  }

  function InCategory(category: string): Product -> bool
  {
    (p: Product) => p.category == category
  }

  function InPriceRange(low: Cents, high: Cents): Product -> bool
  {
    (p: Product) => low <= p.price <= high
  }

  /** The text filter, applied only for a non-empty query; the query is normalised once. */
  function Searched(products: seq<Product>, searchQuery: string, lower: string -> string): (r: seq<Product>)
    ensures multiset(r) <= multiset(products)
    ensures forall p :: p in r <==> p in products && (searchQuery == "" || MatchesQuery(lower, lower(searchQuery))(p))
  {
    if searchQuery == "" then products else Seqs.Filter(MatchesQuery(lower, lower(searchQuery)), products)
  }

  /** The category filter, applied unless "all" is selected. */
  function Categorised(products: seq<Product>, selectedCategory: string): (r: seq<Product>)
    ensures multiset(r) <= multiset(products)
    ensures forall p :: p in r <==> p in products && (selectedCategory == All || p.category == selectedCategory)
  {
    if selectedCategory == All then products else Seqs.Filter(InCategory(selectedCategory), products)
  }

  /** Whether `p` survives all three filters of `filters`. */
  predicate Selected(filters: Filters, lower: string -> string, p: Product)
  {
    && (filters.searchQuery == "" || MatchesQuery(lower, lower(filters.searchQuery))(p))
    && (filters.selectedCategory == All || p.category == filters.selectedCategory)
    && filters.priceLow <= p.price <= filters.priceHigh
  }

  function SelectedBy(filters: Filters, lower: string -> string): Product -> bool
  {
    (p: Product) => Selected(filters, lower, p)
  }

  /** The three filters in the page's order, before sorting. */
  function Narrowed(products: seq<Product>, filters: Filters, lower: string -> string): (r: seq<Product>)
    ensures multiset(r) <= multiset(products)
    ensures forall p :: p in r <==> p in products && Selected(filters, lower, p)
  {
    var searched := Searched(products, filters.searchQuery, lower);
    var categorised := Categorised(searched, filters.selectedCategory);
    var r := Seqs.Filter(InPriceRange(filters.priceLow, filters.priceHigh), categorised);
    assert forall p :: p in r <==> p in products && Selected(filters, lower, p) by {
      forall p ensures p in r <==> p in products && Selected(filters, lower, p) {
        assert p in r <==> p in categorised && InPriceRange(filters.priceLow, filters.priceHigh)(p);
      }
    }
    r
  }

  // ---------------------------------------------------------------------------
  // Sorting
  // ---------------------------------------------------------------------------

  /** `compare(a, b) <= 0` for the comparator of each sort option. */
  function Precedes(order: SortOption, nameLe: (string, string) -> bool): (Product, Product) -> bool
  {
    match order
    case Featured => (a: Product, b: Product) => a.featured || !b.featured
    case PriceAsc => (a: Product, b: Product) => a.price <= b.price
    case PriceDesc => (a: Product, b: Product) => b.price <= a.price
    case Name => (a: Product, b: Product) => nameLe(a.title, b.title)
  }

  /** Insert `x` into `sorted` after every element that may precede it, scanning from the end. */
  function Insert(le: (Product, Product) -> bool, sorted: seq<Product>, x: Product): (r: seq<Product>)
    ensures multiset(r) == multiset(sorted) + multiset{x}
  {
    if sorted == [] then [x]
    else
      var last := sorted[|sorted| - 1];
      assert sorted == sorted[..|sorted| - 1] + [last];
      if le(last, x) then sorted + [x]
      else Insert(le, sorted[..|sorted| - 1], x) + [last]
  }

  /** A stable sort of `s` by `le`. */
  function Sort(le: (Product, Product) -> bool, s: seq<Product>): (r: seq<Product>)
    ensures multiset(r) == multiset(s)
  {
    if s == [] then []
    else
      assert s == s[..|s| - 1] + [s[|s| - 1]];
      Insert(le, Sort(le, s[..|s| - 1]), s[|s| - 1])
  }

  /** `filteredProducts`: the three filters, then the chosen sort. */
  function FilteredProducts(products: seq<Product>, filters: Filters, lower: string -> string,
                            nameLe: (string, string) -> bool): (r: seq<Product>)
    ensures multiset(r) <= multiset(products)
    ensures forall p :: p in r <==> p in products && Selected(filters, lower, p)
  {
    var narrowed := Narrowed(products, filters, lower);
    var r := Sort(Precedes(filters.sortBy, nameLe), narrowed);
    assert forall p :: p in r <==> p in narrowed by {
      forall p ensures p in r <==> p in narrowed {
        assert p in r <==> p in multiset(r);
        assert p in narrowed <==> p in multiset(narrowed);
      }
    }
    r
  }

  /** `le` orders every pair and is transitive (a consistent comparator). */
  ghost predicate TotalPreorder(le: (Product, Product) -> bool)
  {
    && (forall a, b :: le(a, b) || le(b, a))
    && (forall a, b, c :: le(a, b) && le(b, c) ==> le(a, c))
  }

  /** `localeCompare` as assumed here: a total, transitive order on titles. */
  ghost predicate TitleOrder(nameLe: (string, string) -> bool)
  {
    && (forall a, b :: nameLe(a, b) || nameLe(b, a))
    && (forall a, b, c :: nameLe(a, b) && nameLe(b, c) ==> nameLe(a, c))
  }

  predicate SortedBy(le: (Product, Product) -> bool, s: seq<Product>)
  {
    forall i, j :: 0 <= i < j < |s| ==> le(s[i], s[j])
  }

  /** Each comparator of the page is consistent (the name one when `localeCompare` is). */
  lemma PrecedesIsTotalPreorder(order: SortOption, nameLe: (string, string) -> bool)
    requires order == Name ==> TitleOrder(nameLe)
    ensures TotalPreorder(Precedes(order, nameLe))
  {
    var le := Precedes(order, nameLe);
    forall a, b, c | le(a, b) && le(b, c) ensures le(a, c) {
      if order == Name {
        assert nameLe(a.title, b.title) && nameLe(b.title, c.title);
      }
    }
    forall a, b ensures le(a, b) || le(b, a) {
      if order == Name {
        assert nameLe(a.title, b.title) || nameLe(b.title, a.title);
      }
    }
  }

  /** Inserting into a sorted sequence keeps it sorted. */
  lemma {:induction false} InsertSorted(le: (Product, Product) -> bool, sorted: seq<Product>, x: Product)
    requires TotalPreorder(le) && SortedBy(le, sorted)
    ensures SortedBy(le, Insert(le, sorted, x))
    decreases |sorted|
  {
    if sorted != [] {
      var init, last := sorted[..|sorted| - 1], sorted[|sorted| - 1];
      if le(last, x) {
        var r := sorted + [x];
        forall i, j | 0 <= i < j < |r| ensures le(r[i], r[j]) {
          if j == |sorted| && i < |sorted| - 1 {
            assert le(sorted[i], last);
          }
        }
      } else {
        assert le(x, last);
        InsertSorted(le, init, x);
        var front := Insert(le, init, x);
        var r := front + [last];
        forall i, j | 0 <= i < j < |r| ensures le(r[i], r[j]) {
          if j == |front| {
            assert r[i] in multiset(init) + multiset{x};
            if r[i] != x {
              var k :| 0 <= k < |init| && init[k] == r[i];
              assert le(sorted[k], sorted[|sorted| - 1]);
            }
          }
        }
      }
    }
  }

  /** With a consistent comparator the sort's output is ordered by it. */
  lemma {:induction false} SortSorted(le: (Product, Product) -> bool, s: seq<Product>)
    requires TotalPreorder(le)
    ensures SortedBy(le, Sort(le, s))
    decreases |s|
  {
    if s != [] {
      SortSorted(le, s[..|s| - 1]);
      InsertSorted(le, Sort(le, s[..|s| - 1]), s[|s| - 1]);
    }
  }

  /**
   * The result is ordered by the chosen sort: non-decreasing prices for
   * `price-asc`, non-increasing for `price-desc`, featured products before
   * the others for `featured`, and titles in `localeCompare` order for `name`.
   */
  lemma FilteredProductsSorted(products: seq<Product>, filters: Filters, lower: string -> string,
                               nameLe: (string, string) -> bool)
    ensures var r := FilteredProducts(products, filters, lower, nameLe);
      && (filters.sortBy == PriceAsc ==> forall i, j :: 0 <= i < j < |r| ==> r[i].price <= r[j].price)
      && (filters.sortBy == PriceDesc ==> forall i, j :: 0 <= i < j < |r| ==> r[i].price >= r[j].price)
      && (filters.sortBy == Featured ==> forall i, j :: 0 <= i < j < |r| && r[j].featured ==> r[i].featured)
      && (filters.sortBy == Name && TitleOrder(nameLe) ==>
            forall i, j :: 0 <= i < j < |r| ==> nameLe(r[i].title, r[j].title))
  {
    var le := Precedes(filters.sortBy, nameLe);
    if filters.sortBy != Name || TitleOrder(nameLe) {
      PrecedesIsTotalPreorder(filters.sortBy, nameLe);
      SortSorted(le, Narrowed(products, filters, lower));
    }
  }

  function FeaturedIs(featured: bool): Product -> bool
  {
    (p: Product) => p.featured == featured
  }

  /** One step of `Insert`, for proofs that must unfold it on a sequence built by concatenation. */
  lemma InsertStep(le: (Product, Product) -> bool, sorted: seq<Product>, x: Product)
    requires sorted != []
    ensures Insert(le, sorted, x) ==
      if le(sorted[|sorted| - 1], x) then sorted + [x]
      else Insert(le, sorted[..|sorted| - 1], x) + [sorted[|sorted| - 1]]
  {
  }

  /** One step of `Sort`. */
  lemma SortStep(le: (Product, Product) -> bool, s: seq<Product>)
    requires s != []
    ensures Sort(le, s) == Insert(le, Sort(le, s[..|s| - 1]), s[|s| - 1])
  {
  }

  /** A featured product inserted before a trailing plain product lands where it landed without it. */
  lemma InsertFeaturedPastPlain(nameLe: (string, string) -> bool, front: seq<Product>, init: seq<Product>, last: Product, x: Product)
    requires x.featured && !last.featured
    requires Insert(Precedes(Featured, nameLe), front + init, x) == front + [x] + init
    ensures Insert(Precedes(Featured, nameLe), front + (init + [last]), x) == front + [x] + (init + [last])
  {
    var all := front + (init + [last]);
    assert all[..|all| - 1] == front + init;
    InsertStep(Precedes(Featured, nameLe), all, x);
  }

  /** Under the featured comparator, a featured product goes after the featured block and a plain one at the end. */
  lemma {:induction false} InsertFeatured(nameLe: (string, string) -> bool, front: seq<Product>, back: seq<Product>, x: Product)
    requires forall p :: p in front ==> p.featured
    requires forall p :: p in back ==> !p.featured
    ensures Insert(Precedes(Featured, nameLe), front + back, x) ==
      if x.featured then front + [x] + back else front + back + [x]
    decreases |back|
  {
    var le := Precedes(Featured, nameLe);
    var all := front + back;
    if back == [] {
      assert all == front;
      if front != [] {
        assert front[|front| - 1] in front;
        assert le(all[|all| - 1], x);
      }
    } else {
      var last := back[|back| - 1];
      var init := back[..|back| - 1];
      assert back == init + [last];
      assert last in back;
      if x.featured {
        forall p | p in init ensures !p.featured {
          var k :| 0 <= k < |init| && init[k] == p;
          assert back[k] == p;
        }
        InsertFeatured(nameLe, front, init, x);
        InsertFeaturedPastPlain(nameLe, front, init, last, x);
      } else {
        assert all[|all| - 1] == last;
        assert le(last, x);
      }
    }
  }

  /**
   * The `featured` sort is stable: featured products first, then the rest,
   * each group in its original order.
   */
  lemma {:induction false} FeaturedSortPartitions(nameLe: (string, string) -> bool, s: seq<Product>)
    ensures Sort(Precedes(Featured, nameLe), s) == Seqs.Filter(FeaturedIs(true), s) + Seqs.Filter(FeaturedIs(false), s)
    decreases |s|
  {
    if s != [] {
      var le := Precedes(Featured, nameLe);
      var init, x := s[..|s| - 1], s[|s| - 1];
      var yes, no := Seqs.Filter(FeaturedIs(true), init), Seqs.Filter(FeaturedIs(false), init);
      FeaturedSortPartitions(nameLe, init);
      InsertFeatured(nameLe, yes, no, x);
      SortStep(le, s);
      assert Sort(le, s) == if x.featured then yes + [x] + no else yes + no + [x];
      FeaturedFilterStep(true, s);
      FeaturedFilterStep(false, s);
      Regroup(yes, no, x);
    }
  }

  /** Where the last product goes, both ways of writing it. */
  lemma Regroup(yes: seq<Product>, no: seq<Product>, x: Product)
    ensures (if x.featured then yes + [x] + no else yes + no + [x]) ==
      (yes + if x.featured == true then [x] else []) + (no + if x.featured == false then [x] else [])
  {
    if x.featured {
      assert no + [] == no;
    } else {
      assert yes + [] == yes;
    }
  }

  /** `Seqs.FilterSplitLast` for the featured and plain groups. */
  lemma FeaturedFilterStep(featured: bool, s: seq<Product>)
    requires s != []
    ensures Seqs.Filter(FeaturedIs(featured), s) ==
      Seqs.Filter(FeaturedIs(featured), s[..|s| - 1]) + if s[|s| - 1].featured == featured then [s[|s| - 1]] else []
  {
    Seqs.FilterSplitLast(FeaturedIs(featured), s);
    assert FeaturedIs(featured)(s[|s| - 1]) == (s[|s| - 1].featured == featured);
  }

  /** For `featured`, the result is the filtered featured products, then the other filtered products, each in catalogue order. */
  lemma FilteredProductsFeaturedStable(products: seq<Product>, filters: Filters, lower: string -> string,
                                       nameLe: (string, string) -> bool)
    requires filters.sortBy == Featured
    ensures var narrowed := Narrowed(products, filters, lower);
      FilteredProducts(products, filters, lower, nameLe) ==
        Seqs.Filter(FeaturedIs(true), narrowed) + Seqs.Filter(FeaturedIs(false), narrowed)
  {
    FeaturedSortPartitions(nameLe, Narrowed(products, filters, lower));
  }

  /** The result holds each selected product exactly as often as the catalogue does. */
  lemma FilteredProductsCounts(products: seq<Product>, filters: Filters, lower: string -> string,
                               nameLe: (string, string) -> bool)
    ensures multiset(FilteredProducts(products, filters, lower, nameLe)) ==
            multiset(Seqs.Filter(SelectedBy(filters, lower), products))
  {
    var searched := Searched(products, filters.searchQuery, lower);
    var categorised := Categorised(searched, filters.selectedCategory);
    var narrowed := Narrowed(products, filters, lower);
    forall p
      ensures multiset(narrowed)[p] == multiset(Seqs.Filter(SelectedBy(filters, lower), products))[p]
    {
      Seqs.FilterMultiset(SelectedBy(filters, lower), products, p);
      Seqs.FilterMultiset(InPriceRange(filters.priceLow, filters.priceHigh), categorised, p);
      if filters.selectedCategory != All {
        Seqs.FilterMultiset(InCategory(filters.selectedCategory), searched, p);
      }
      if filters.searchQuery != "" {
        Seqs.FilterMultiset(MatchesQuery(lower, lower(filters.searchQuery)), products, p);
      }
    }
  }

  /** With no active filter, exactly the products priced within the default range are shown, each as often as listed. */
  lemma NoActiveFiltersShowsAll(products: seq<Product>, filters: Filters, lower: string -> string,
                                nameLe: (string, string) -> bool)
    requires !HasActiveFilters(filters)
    ensures multiset(FilteredProducts(products, filters, lower, nameLe)) ==
            multiset(Seqs.Filter(InPriceRange(DefaultPriceLow, DefaultPriceHigh), products))
  {
    FilteredProductsCounts(products, filters, lower, nameLe);
    forall p
      ensures multiset(Seqs.Filter(SelectedBy(filters, lower), products))[p] ==
              multiset(Seqs.Filter(InPriceRange(DefaultPriceLow, DefaultPriceHigh), products))[p]
    {
      Seqs.FilterMultiset(SelectedBy(filters, lower), products, p);
      Seqs.FilterMultiset(InPriceRange(DefaultPriceLow, DefaultPriceHigh), products, p);
    }
  }

  // ---------------------------------------------------------------------------
  // Active filters
  // ---------------------------------------------------------------------------

  /** `hasActiveFilters`: some filter differs from its default; the sort choice does not count. */
  predicate HasActiveFilters(filters: Filters)
  {
    filters.searchQuery != "" || filters.selectedCategory != All ||
    filters.priceLow != DefaultPriceLow || filters.priceHigh != DefaultPriceHigh
  }

  /** `clearFilters`: every filter and the sort back to its default. */
  function ClearFilters(): (r: Filters)
    ensures !HasActiveFilters(r) && r.sortBy == Featured
  {
    Filters("", All, DefaultPriceLow, DefaultPriceHigh, Featured)
  }

  /** Changing the sort choice never turns the flag on or off. */
  lemma ActiveFiltersIgnoreSort(filters: Filters, sortBy: SortOption)
    ensures HasActiveFilters(filters.(sortBy := sortBy)) == HasActiveFilters(filters)
  {
  }
}
