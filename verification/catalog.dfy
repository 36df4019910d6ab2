/** The catalog page's filter and sort engine (src/pages/Catalog/Catalog.jsx):
    a conjunction of facet filters applied to the catalog in file order,
    then one of five orderings; the facet toggles, the reset, the
    active-filter counter and the facet value lists shown in the sidebar. */
module CatalogPage {
  import opened Common
  import opened Text
  import opened Products

  /** The filter panel's state. `priceLo`/`priceHi` are `priceRange[0]` and
      `priceRange[1]`. */
  datatype Filters = Filters(
    search: string,
    brands: seq<string>,
    priceLo: real,
    priceHi: real,
    sizes: seq<real>,
    colors: seq<string>,
    onSale: bool)

  /** The state the page starts in: no facet selected and a price range of
      [0, 500000]. */
  const Initial: Filters := Filters("", [], 0.0, 500000.0, [], [], false)

  // ---------------------------------------------------------------------
  // Facet predicates

  /** Case-insensitive substring test on the name or the brand. */
  function MatchesSearch(p: Product, query: string): (b: bool)
    ensures query == [] ==> b
    ensures b ==> |query| <= |p.name| || |query| <= |p.brand|
  {
    ContainsFacts(Lower(p.name), [], []);
    Contains(Lower(p.name), Lower(query)) || Contains(Lower(p.brand), Lower(query))
  }

  /** The query's letter case does not matter, and a product is always
      found by its own name and by its own brand. */
  lemma SearchFacts(p: Product, q: string)
    ensures MatchesSearch(p, Lower(q)) == MatchesSearch(p, q)
    ensures MatchesSearch(p, p.name) && MatchesSearch(p, p.brand)
  {
    LowerIdempotent(q);
    ContainsFacts([], Lower(p.name), []);
    assert [] + Lower(p.name) + [] == Lower(p.name);
    ContainsFacts([], Lower(p.brand), []);
    assert [] + Lower(p.brand) + [] == Lower(p.brand);
  }

  predicate InPriceRange(p: Product, lo: real, hi: real) {
    lo <= p.price <= hi
  }

  /** Some size of the product is among the selected ones. */
  predicate HasSelectedSize(p: Product, sizes: seq<real>) {
    exists i | 0 <= i < |p.sizes| :: p.sizes[i] in sizes
  }

  /** Some color of the product is among the selected ones. */
  predicate HasSelectedColor(p: Product, colors: seq<string>) {
    exists i | 0 <= i < |p.colors| :: p.colors[i] in colors
  }

  /** `p.onSale || p.discount`: flagged on sale, or a discount that is
      present and non-zero. */
  predicate IsDeal(p: Product) {
    p.onSale || (p.discount.Some? && p.discount.value != 0)
  }

  /** The product passes every active facet: an empty search, an empty list
      or `onSale == false` restricts nothing, the price range always
      applies. */
  function Matches(f: Filters, p: Product): (b: bool)
    ensures f.search == [] && |f.brands| == 0 && |f.sizes| == 0 && |f.colors| == 0 && !f.onSale ==>
      (b <==> InPriceRange(p, f.priceLo, f.priceHi))
    ensures b ==> InPriceRange(p, f.priceLo, f.priceHi)
  {
    && (f.search == [] || MatchesSearch(p, f.search))
    && (|f.brands| == 0 || p.brand in f.brands)
    && InPriceRange(p, f.priceLo, f.priceHi)
    && (|f.sizes| == 0 || HasSelectedSize(p, f.sizes))
    && (|f.colors| == 0 || HasSelectedColor(p, f.colors))
    && (!f.onSale || IsDeal(p))
  }

  // ---------------------------------------------------------------------
  // The filter stages as the page runs them

  /** One `if (active) result = result.filter(pred)` step. */
  function Stage(s: seq<Product>, active: bool, pred: Product -> bool): (r: seq<Product>)
  {
    if active then Filter(s, pred) else s
  }

  // The conjunction of the first stages, one predicate per prefix.
  predicate UpToSearch(f: Filters, p: Product) { f.search == [] || MatchesSearch(p, f.search) }
  predicate UpToBrand(f: Filters, p: Product) { UpToSearch(f, p) && (|f.brands| == 0 || p.brand in f.brands) }
  predicate UpToPrice(f: Filters, p: Product) { UpToBrand(f, p) && InPriceRange(p, f.priceLo, f.priceHi) }
  predicate UpToSize(f: Filters, p: Product) { UpToPrice(f, p) && (|f.sizes| == 0 || HasSelectedSize(p, f.sizes)) }
  predicate UpToColor(f: Filters, p: Product) { UpToSize(f, p) && (|f.colors| == 0 || HasSelectedColor(p, f.colors)) }

  /** The six `if (active) result = result.filter(pred)` steps of
      `filteredProducts`: search, brand, price, size, color and sale, in
      that order. */
  function Stages(catalog: seq<Product>, f: Filters): seq<Product> {
    var r1 := Stage(catalog, f.search != [], p => MatchesSearch(p, f.search));
    var r2 := Stage(r1, |f.brands| > 0, (p: Product) => p.brand in f.brands);
    var r3 := Filter(r2, p => InPriceRange(p, f.priceLo, f.priceHi));
    var r4 := Stage(r3, |f.sizes| > 0, p => HasSelectedSize(p, f.sizes));
    var r5 := Stage(r4, |f.colors| > 0, p => HasSelectedColor(p, f.colors));
    Stage(r5, f.onSale, p => IsDeal(p))
  }

  /** A stage is a filter by "inactive, or the predicate holds". */
  lemma {:induction false} StageIsFilter(s: seq<Product>, active: bool, pred: Product -> bool, g: Product -> bool)
    requires forall p :: g(p) == (!active || pred(p))
    ensures Stage(s, active, pred) == Filter(s, g)
  {
    if active {
      FilterExt(s, pred, g);
    } else {
      FilterAll(s, g);
    }
  }

  /** One more stage after a filter is a filter by the conjunction. */
  lemma {:induction false} StageAfter(s: seq<Product>, before: Product -> bool, active: bool,
                                      pred: Product -> bool, after: Product -> bool)
    requires forall p :: after(p) == (before(p) && (!active || pred(p)))
    ensures Stage(Filter(s, before), active, pred) == Filter(s, after)
  {
    var g := (p: Product) => !active || pred(p);
    StageIsFilter(Filter(s, before), active, pred, g);
    FilterFilter(s, before, g, after);
  }

  /** The staged filters keep exactly the catalog products that match every
      facet, in catalog order. */
  lemma {:induction false} StagesAreOneFilter(catalog: seq<Product>, f: Filters)
    ensures Stages(catalog, f) == Filter(catalog, p => Matches(f, p))
  {
    StageIsFilter(catalog, f.search != [], p => MatchesSearch(p, f.search), p => UpToSearch(f, p));
    StageAfter(catalog, p => UpToSearch(f, p), |f.brands| > 0, (p: Product) => p.brand in f.brands,
      p => UpToBrand(f, p));
    StageAfter(catalog, p => UpToBrand(f, p), true, p => InPriceRange(p, f.priceLo, f.priceHi),
      p => UpToPrice(f, p));
    assert Stage(Filter(catalog, p => UpToBrand(f, p)), true, p => InPriceRange(p, f.priceLo, f.priceHi))
      == Filter(Filter(catalog, p => UpToBrand(f, p)), p => InPriceRange(p, f.priceLo, f.priceHi));
    StageAfter(catalog, p => UpToPrice(f, p), |f.sizes| > 0, p => HasSelectedSize(p, f.sizes),
      p => UpToSize(f, p));
    StageAfter(catalog, p => UpToSize(f, p), |f.colors| > 0, p => HasSelectedColor(p, f.colors),
      p => UpToColor(f, p));
    StageAfter(catalog, p => UpToColor(f, p), f.onSale, p => IsDeal(p),
      p => Matches(f, p));
  }

  /** The filter part of `filteredProducts` as the page computes it: the
      matching catalog products, in catalog order. */
  function Narrow(catalog: seq<Product>, f: Filters): (r: seq<Product>)
    ensures r == Filter(catalog, p => Matches(f, p))
  {
    StagesAreOneFilter(catalog, f);
    Stages(catalog, f)
  }

  // ---------------------------------------------------------------------
  // Orderings

  /** `a.price - b.price` */
  function PriceKey(p: Product): real { p.price }

  /** `b.price - a.price`, as an ascending key. */
  function PriceDescKey(p: Product): real { -p.price }

  /** `new Date(b.createdAt || 0) - new Date(a.createdAt || 0)`, as an
      ascending key: later dates first, a missing date counts as day 0. */
  function NewestKey(p: Product): real { -(p.createdAt.GetOr(0) as real) }

  /** `a.name.localeCompare(b.name) <= 0`, for a caller-supplied collation. */
  function NameLe(collate: (string, string) -> bool): (Product, Product) -> bool {
    (a: Product, b: Product) => collate(a.name, b.name)
  }

  /** The five cases of the `switch (sortBy)`; `Featured` stands for
      `featured` and for every key the switch does not know. */
  datatype SortKey = PriceAsc | PriceDesc | NameAsc | Newest | Featured

  function SortKeyOf(sortBy: string): (k: SortKey)
    ensures k == PriceAsc <==> sortBy == "price-asc"
    ensures k == PriceDesc <==> sortBy == "price-desc"
    ensures k == NameAsc <==> sortBy == "name-asc"
    ensures k == Newest <==> sortBy == "newest"
  {
    if sortBy == "price-asc" then PriceAsc
    else if sortBy == "price-desc" then PriceDesc
    else if sortBy == "name-asc" then NameAsc
    else if sortBy == "newest" then Newest
    else Featured
  }

  /** The `switch (sortBy)`; any other key keeps the order it is given. */
  function Order(s: seq<Product>, sortBy: string, collate: (string, string) -> bool): (r: seq<Product>)
    ensures multiset(r) == multiset(s)
  {
    match SortKeyOf(sortBy)
    case PriceAsc => Sort(s, KeyLe(PriceKey))
    case PriceDesc => Sort(s, KeyLe(PriceDescKey))
    case NameAsc => Sort(s, NameLe(collate))
    case Newest => Sort(s, KeyLe(NewestKey))
    case Featured => s
  }

  /** `filteredProducts`. */
  function Filtered(catalog: seq<Product>, f: Filters, sortBy: string, collate: (string, string) -> bool): (r: seq<Product>)
    ensures multiset(r) == multiset(Filter(catalog, p => Matches(f, p)))
    ensures forall p :: p in r <==> p in catalog && Matches(f, p)
  {
    var r := Order(Narrow(catalog, f), sortBy, collate);
    assert forall p :: p in r <==> p in Narrow(catalog, f) by {
      forall p ensures p in r <==> p in Narrow(catalog, f) {
        assert p in r <==> p in multiset(r);
      }
    }
    r
  }

  /** `featured`, and every key the switch does not know, give the matching
      products in catalog order. */
  lemma FeaturedKeepsCatalogOrder(catalog: seq<Product>, f: Filters, sortBy: string, collate: (string, string) -> bool)
    requires sortBy !in {"price-asc", "price-desc", "name-asc", "newest"}
    ensures Filtered(catalog, f, sortBy, collate) == Filter(catalog, p => Matches(f, p))
  {
  }

  /** Sorting by a key orders by that key and keeps the relative order of
      elements that share one. */
  lemma KeySort(n: seq<Product>, key: Product -> real, k: real)
    ensures var r := Sort(n, KeyLe(key));
      forall i, j | 0 <= i <= j < |r| :: key(r[i]) <= key(r[j])
    ensures WithKey(Sort(n, KeyLe(key)), key, k) == WithKey(n, key, k)
  {
    KeyLeTotal(key);
    SortSorted(n, KeyLe(key));
    KeySortedPairwise(Sort(n, KeyLe(key)), key);
    SortStable(n, key, k);
  }

  lemma FilteredPriceAsc(catalog: seq<Product>, f: Filters, collate: (string, string) -> bool)
    ensures Filtered(catalog, f, "price-asc", collate) == Sort(Narrow(catalog, f), KeyLe(PriceKey))
  {
  }

  lemma FilteredPriceDesc(catalog: seq<Product>, f: Filters, collate: (string, string) -> bool)
    ensures Filtered(catalog, f, "price-desc", collate) == Sort(Narrow(catalog, f), KeyLe(PriceDescKey))
  {
  }

  lemma FilteredNewest(catalog: seq<Product>, f: Filters, collate: (string, string) -> bool)
    ensures Filtered(catalog, f, "newest", collate) == Sort(Narrow(catalog, f), KeyLe(NewestKey))
  {
  }

  lemma FilteredName(catalog: seq<Product>, f: Filters, collate: (string, string) -> bool)
    ensures Filtered(catalog, f, "name-asc", collate) == Sort(Narrow(catalog, f), NameLe(collate))
  {
  }

  /** `price-asc` orders by non-decreasing price, and products of equal
      price keep their catalog order. */
  lemma {:induction false} PriceAscOrder(catalog: seq<Product>, f: Filters, collate: (string, string) -> bool, k: real)
    ensures var r := Filtered(catalog, f, "price-asc", collate);
      forall i, j | 0 <= i <= j < |r| :: r[i].price <= r[j].price
    ensures WithKey(Filtered(catalog, f, "price-asc", collate), PriceKey, k)
         == WithKey(Filter(catalog, p => Matches(f, p)), PriceKey, k)
  {
    FilteredPriceAsc(catalog, f, collate);
    KeySort(Narrow(catalog, f), PriceKey, k);
  }

  /** `price-desc` orders by non-increasing price, and products of equal
      price keep their catalog order. */
  lemma {:induction false} PriceDescOrder(catalog: seq<Product>, f: Filters, collate: (string, string) -> bool, k: real)
    ensures var r := Filtered(catalog, f, "price-desc", collate);
      forall i, j | 0 <= i <= j < |r| :: r[i].price >= r[j].price
    ensures WithKey(Filtered(catalog, f, "price-desc", collate), PriceDescKey, k)
         == WithKey(Filter(catalog, p => Matches(f, p)), PriceDescKey, k)
  {
    var n := Narrow(catalog, f);
    FilteredPriceDesc(catalog, f, collate);
    PriceDescSorted(n);
    KeySort(n, PriceDescKey, k);
  }

  lemma PriceDescSorted(n: seq<Product>)
    ensures var r := Sort(n, KeyLe(PriceDescKey));
      forall i, j | 0 <= i <= j < |r| :: r[i].price >= r[j].price
  {
    KeySort(n, PriceDescKey, 0.0);
    DescendingPrice(Sort(n, KeyLe(PriceDescKey)));
  }

  lemma DescendingPrice(r: seq<Product>)
    requires forall i, j | 0 <= i <= j < |r| :: PriceDescKey(r[i]) <= PriceDescKey(r[j])
    ensures forall i, j | 0 <= i <= j < |r| :: r[i].price >= r[j].price
  {
    forall i, j | 0 <= i <= j < |r| ensures r[i].price >= r[j].price {
      assert PriceDescKey(r[i]) <= PriceDescKey(r[j]);
    }
  }

  /** `newest` orders by non-increasing creation day, a missing date
      counting as day 0. */
  lemma {:induction false} NewestOrder(catalog: seq<Product>, f: Filters, collate: (string, string) -> bool)
    ensures var r := Filtered(catalog, f, "newest", collate);
      forall i, j | 0 <= i <= j < |r| :: r[i].createdAt.GetOr(0) >= r[j].createdAt.GetOr(0)
  {
    FilteredNewest(catalog, f, collate);
    KeySort(Narrow(catalog, f), NewestKey, 0.0);
    DescendingDay(Sort(Narrow(catalog, f), KeyLe(NewestKey)));
  }

  lemma DescendingDay(r: seq<Product>)
    requires forall i, j | 0 <= i <= j < |r| :: NewestKey(r[i]) <= NewestKey(r[j])
    ensures forall i, j | 0 <= i <= j < |r| :: r[i].createdAt.GetOr(0) >= r[j].createdAt.GetOr(0)
  {
    forall i, j | 0 <= i <= j < |r| ensures r[i].createdAt.GetOr(0) >= r[j].createdAt.GetOr(0) {
      assert NewestKey(r[i]) <= NewestKey(r[j]);
    }
  }

  /** Under `newest`, products created the same day keep their catalog
      order. */
  lemma {:induction false} NewestStable(catalog: seq<Product>, f: Filters, collate: (string, string) -> bool, k: real)
    ensures WithKey(Filtered(catalog, f, "newest", collate), NewestKey, k)
         == WithKey(Filter(catalog, p => Matches(f, p)), NewestKey, k)
  {
    FilteredNewest(catalog, f, collate);
    KeySort(Narrow(catalog, f), NewestKey, k);
  }

  /** `name-asc` orders by the collation whenever it is a total order. */
  lemma {:induction false} NameOrder(catalog: seq<Product>, f: Filters, collate: (string, string) -> bool)
    requires forall a, b :: collate(a, b) || collate(b, a)
    ensures var r := Filtered(catalog, f, "name-asc", collate);
      forall i | 0 < i < |r| :: collate(r[i - 1].name, r[i].name)
  {
    var le := NameLe(collate);
    assert TotalOrder(le) by {
      forall a: Product, b: Product ensures le(a, b) || le(b, a) {
        assert collate(a.name, b.name) || collate(b.name, a.name);
      }
    }
    FilteredName(catalog, f, collate);
    SortSorted(Narrow(catalog, f), le);
  }

  // ---------------------------------------------------------------------
  // Facet toggles and reset

  /** `handleArrayFilterToggle` on one list: an absent value is appended, a
      present one is removed with every copy of it. */
  function Toggle<T(==,!new)>(s: seq<T>, v: T): (r: seq<T>)
    ensures v in s ==> v !in r && forall x | x != v :: x in r <==> x in s
    ensures v in s ==> multiset(r) == multiset(s)[v := 0]
    ensures v !in s ==> r == s + [v]
  {
    if v in s then
      FilterOutMultiset(s, x => x != v, v);
      Filter(s, x => x != v)
    else s + [v]
  }

  /** Toggling a value that was absent twice gives the list back. */
  lemma ToggleTwice<T(!new)>(s: seq<T>, v: T)
    requires v !in s
    ensures Toggle(Toggle(s, v), v) == s
  {
    FilterAppend(s, [v], x => x != v);
    FilterAll(s, x => x != v);
    assert [v][1..] == [];
  }

  /** Which list a toggle acts on, and the value toggled. */
  datatype FacetValue = Brand(brand: string) | Size(size: real) | Color(color: string)

  /** `handleArrayFilterToggle(filterType, value)`: only the chosen list
      changes. */
  function ToggleFacet(f: Filters, v: FacetValue): (r: Filters)
    ensures v.Brand? ==> r == f.(brands := Toggle(f.brands, v.brand))
    ensures v.Size? ==> r == f.(sizes := Toggle(f.sizes, v.size))
    ensures v.Color? ==> r == f.(colors := Toggle(f.colors, v.color))
    ensures r.search == f.search && r.priceLo == f.priceLo && r.priceHi == f.priceHi && r.onSale == f.onSale
  {
    match v
    case Brand(b) => f.(brands := Toggle(f.brands, b))
    case Size(z) => f.(sizes := Toggle(f.sizes, z))
    case Color(c) => f.(colors := Toggle(f.colors, c))
  }

  /** The lowest catalog price. */
  function MinPrice(catalog: seq<Product>): (m: real)
    requires |catalog| > 0
    ensures forall i | 0 <= i < |catalog| :: m <= catalog[i].price
    ensures exists i | 0 <= i < |catalog| :: m == catalog[i].price
  {
    if |catalog| == 1 then catalog[0].price
    else
      var m := MinPrice(catalog[1..]);
      assert forall i | 1 <= i < |catalog| :: catalog[i] == catalog[1..][i - 1];
      if catalog[0].price <= m then catalog[0].price else m
  }

  /** The highest catalog price. */
  function MaxPrice(catalog: seq<Product>): (m: real)
    requires |catalog| > 0
    ensures forall i | 0 <= i < |catalog| :: catalog[i].price <= m
    ensures exists i | 0 <= i < |catalog| :: m == catalog[i].price
  {
    if |catalog| == 1 then catalog[0].price
    else
      var m := MaxPrice(catalog[1..]);
      assert forall i | 1 <= i < |catalog| :: catalog[i] == catalog[1..][i - 1];
      if catalog[0].price >= m then catalog[0].price else m
  }

  /** `clearFilters()`: no search, no facet, no sale flag, and the price range
      reset to the catalog's [lowest, highest] price. */
  function Cleared(catalog: seq<Product>): (r: Filters)
    requires |catalog| > 0
    ensures r.search == [] && r.brands == [] && r.sizes == [] && r.colors == [] && !r.onSale
    ensures forall i | 0 <= i < |catalog| :: InPriceRange(catalog[i], r.priceLo, r.priceHi)
  {
    Filters("", [], MinPrice(catalog), MaxPrice(catalog), [], [], false)
  }

  /** After a reset every catalog product is shown. */
  lemma ClearedShowsAll(catalog: seq<Product>, sortBy: string, collate: (string, string) -> bool)
    requires |catalog| > 0
    ensures multiset(Filtered(catalog, Cleared(catalog), sortBy, collate)) == multiset(catalog)
  {
    ClearedListsCatalog(catalog);
  }

  /** Before sorting, the reset state's list is the catalog itself. */
  lemma ClearedListsCatalog(catalog: seq<Product>)
    requires |catalog| > 0
    ensures Filter(catalog, p => Matches(Cleared(catalog), p)) == catalog
  {
    FilterAll(catalog, p => Matches(Cleared(catalog), p));
  }

  /** `activeFiltersCount`: one for each non-empty list, one for the sale
      flag, and one when the price range is not the catalog's [min, max]. */
  function ActiveCount(f: Filters, catalog: seq<Product>): (n: nat)
    requires |catalog| > 0
    ensures n <= 5
    ensures n == 0 <==>
      (&& f.brands == [] && f.sizes == [] && f.colors == [] && !f.onSale
       && f.priceLo == MinPrice(catalog) && f.priceHi == MaxPrice(catalog))
  {
    (if |f.brands| > 0 then 1 else 0)
    + (if |f.sizes| > 0 then 1 else 0)
    + (if |f.colors| > 0 then 1 else 0)
    + (if f.onSale then 1 else 0)
    + (if f.priceLo != MinPrice(catalog) || f.priceHi != MaxPrice(catalog) then 1 else 0)
  }

  /** The search text is never counted, and a reset brings the count to 0. */
  lemma ActiveCountFacts(f: Filters, catalog: seq<Product>, q: string)
    requires |catalog| > 0
    ensures ActiveCount(f.(search := q), catalog) == ActiveCount(f, catalog)
    ensures ActiveCount(Cleared(catalog), catalog) == 0
  {
  }

  // ---------------------------------------------------------------------
  // Facet value lists

  /** `a <= b` in the order of the default `Array.prototype.sort`: code unit
      by code unit, a proper prefix first. */
  predicate LexLe(a: string, b: string) {
    if |a| == 0 then true
    else if |b| == 0 then false
    else if a[0] != b[0] then a[0] < b[0]
    else LexLe(a[1..], b[1..])
  }

  lemma {:induction false} LexLeTotal(a: string, b: string)
    ensures LexLe(a, b) || LexLe(b, a)
    ensures LexLe(a, b) && LexLe(b, a) ==> a == b
  {
    if |a| > 0 && |b| > 0 && a[0] == b[0] {
      LexLeTotal(a[1..], b[1..]);
      assert a == [a[0]] + a[1..] && b == [b[0]] + b[1..];
    }
  }

  function AllBrands(catalog: seq<Product>): (r: seq<string>)
    ensures forall b :: b in r <==> exists p :: p in catalog && p.brand == b
  {
    if |catalog| == 0 then []
    else [catalog[0].brand] + AllBrands(catalog[1..])
  }

  /** `products.flatMap(p => p.sizes || [])` */
  function AllSizes(catalog: seq<Product>): (r: seq<real>)
    ensures forall z :: z in r <==> exists p :: p in catalog && z in p.sizes
  {
    if |catalog| == 0 then []
    else catalog[0].sizes + AllSizes(catalog[1..])
  }

  /** `products.flatMap(p => p.colors || [])` */
  function AllColors(catalog: seq<Product>): (r: seq<string>)
    ensures forall c :: c in r <==> exists p :: p in catalog && c in p.colors
  {
    if |catalog| == 0 then []
    else catalog[0].colors + AllColors(catalog[1..])
  }

  /** A permutation of a duplicate-free sequence is duplicate-free. */
  lemma {:induction false} DistinctPermutation<T>(s: seq<T>, t: seq<T>)
    requires Distinct(s) && multiset(s) == multiset(t)
    ensures Distinct(t)
  {
    forall i, j | 0 <= i < j < |t| ensures t[i] != t[j] {
      if t[i] == t[j] {
        var x := t[i];
        assert t == t[..j] + [t[j]] + t[j + 1..];
        assert x in t[..j];
        assert multiset(t)[x] >= 2 by {
          assert multiset(t) == multiset(t[..j]) + multiset{x} + multiset(t[j + 1..]);
        }
        DistinctCount(s, x);
        assert false;
      }
    }
  }

  lemma {:induction false} DistinctCount<T>(s: seq<T>, x: T)
    requires Distinct(s)
    ensures multiset(s)[x] <= 1
  {
    if |s| > 0 {
      var rest := s[1..];
      assert s == [s[0]] + rest;
      assert Distinct(rest) by {
        forall i, j | 0 <= i < j < |rest| ensures rest[i] != rest[j] {
          assert rest[i] == s[i + 1] && rest[j] == s[j + 1];
        }
      }
      DistinctCount(rest, x);
      if s[0] == x {
        assert x !in rest by {
          forall i | 0 <= i < |rest| ensures rest[i] != x {
            assert rest[i] == s[i + 1];
          }
        }
      }
    }
  }

  /** `uniqueBrands`: the catalog's brands, each once, in default sort order. */
  function UniqueBrands(catalog: seq<Product>): (r: seq<string>)
    ensures Distinct(r)
    ensures forall b :: b in r <==> exists p :: p in catalog && p.brand == b
    ensures forall i | 0 < i < |r| :: LexLe(r[i - 1], r[i]) && r[i - 1] != r[i]
  {
    var d := Dedup(AllBrands(catalog));
    var r := Sort(d, (a: string, b: string) => LexLe(a, b));
    assert TotalOrder((a: string, b: string) => LexLe(a, b)) by {
      forall a: string, b: string ensures LexLe(a, b) || LexLe(b, a) {
        LexLeTotal(a, b);
      }
    }
    SortSorted(d, (a: string, b: string) => LexLe(a, b));
    DistinctPermutation(d, r);
    assert forall b :: b in r <==> b in d by {
      forall b ensures b in r <==> b in d {
        assert b in r <==> b in multiset(r);
      }
    }
    r
  }

  /** `uniqueSizes`: the catalog's sizes, each once, in ascending order. */
  function UniqueSizes(catalog: seq<Product>): (r: seq<real>)
    ensures Distinct(r)
    ensures forall z :: z in r <==> exists p :: p in catalog && z in p.sizes
    ensures forall i, j | 0 <= i < j < |r| :: r[i] < r[j]
  {
    var d := Dedup(AllSizes(catalog));
    AscendingDistinct(d);
    Sort(d, KeyLe(SizeKey))
  }

  /** `(a, b) => a - b` on sizes, as an ascending key. */
  function SizeKey(z: real): real { z }

  /** Sorting distinct sizes gives them in strictly ascending order. */
  lemma AscendingDistinct(d: seq<real>)
    requires Distinct(d)
    ensures var r := Sort(d, KeyLe(SizeKey));
      && Distinct(r)
      && (forall z :: z in r <==> z in d)
      && (forall i, j | 0 <= i < j < |r| :: r[i] < r[j])
  {
    var r := Sort(d, KeyLe(SizeKey));
    KeyLeTotal(SizeKey);
    SortSorted(d, KeyLe(SizeKey));
    KeySortedPairwise(r, SizeKey);
    DistinctPermutation(d, r);
    Strictly(r);
    SameMembers(d, r);
  }

  lemma Strictly(r: seq<real>)
    requires Distinct(r)
    requires forall i, j | 0 <= i <= j < |r| :: SizeKey(r[i]) <= SizeKey(r[j])
    ensures forall i, j | 0 <= i < j < |r| :: r[i] < r[j]
  {
    forall i, j | 0 <= i < j < |r| ensures r[i] < r[j] {
      assert SizeKey(r[i]) <= SizeKey(r[j]);
    }
  }

  lemma SameMembers<T>(d: seq<T>, r: seq<T>)
    requires multiset(d) == multiset(r)
    ensures forall z :: z in r <==> z in d
  {
    forall z ensures z in r <==> z in d {
      assert z in r <==> z in multiset(r);
      assert z in d <==> z in multiset(d);
    }
  }

  /** `uniqueColors`: the catalog's colors, each once, in order of first
      appearance. */
  function UniqueColors(catalog: seq<Product>): (r: seq<string>)
    ensures Distinct(r)
    ensures forall c :: c in r <==> exists p :: p in catalog && c in p.colors
  {
    Dedup(AllColors(catalog))
  }

  // ---------------------------------------------------------------------
  // The shipped catalog

  lemma MinPriceIs(catalog: seq<Product>, m: real, k: nat)
    requires k < |catalog| && catalog[k].price == m
    requires forall i | 0 <= i < |catalog| :: m <= catalog[i].price
    ensures MinPrice(catalog) == m
  {
  }

  lemma MaxPriceIs(catalog: seq<Product>, m: real, k: nat)
    requires k < |catalog| && catalog[k].price == m
    requires forall i | 0 <= i < |catalog| :: catalog[i].price <= m
    ensures MaxPrice(catalog) == m
  {
  }

  /** On the shipped catalog the initial filters hide nothing, so under
      `featured` the page lists the catalog as it is. */
  lemma InitialShowsCatalog()
    ensures Filter(Catalog, p => Matches(Initial, p)) == Catalog
  {
    assert forall i | 0 <= i < |Catalog| :: Matches(Initial, Catalog[i]);
    FilterAll(Catalog, p => Matches(Initial, p));
  }

  /** The shipped catalog's cheapest product costs 70 ... */
  lemma CatalogMinPrice()
    ensures MinPrice(Catalog) == 70.0
  {
    MinPriceIs(Catalog, 70.0, 5);
  }

  /** ... and its dearest 230. */
  lemma CatalogMaxPrice()
    ensures MaxPrice(Catalog) == 230.0
  {
    MaxPriceIs(Catalog, 230.0, 2);
  }

  /** Yet the counter starts at 1: the initial range [0, 500000] is not the
      shipped catalog's [70, 230]. */
  lemma InitialCount()
    ensures ActiveCount(Initial, Catalog) == 1
  {
    CatalogMinPrice();
    CatalogMaxPrice();
  }

  /** Starting from the catalog's own range, as the reset does, the counter
      starts at 0 and the page still lists the whole catalog. */
  lemma IntendedInitialCount()
    ensures ActiveCount(Cleared(Catalog), Catalog) == 0
    ensures Filter(Catalog, p => Matches(Cleared(Catalog), p)) == Catalog
  {
    ActiveCountFacts(Cleared(Catalog), Catalog, "");
    ClearedListsCatalog(Catalog);
  }
}
