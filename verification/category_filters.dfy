/**
 * The category page's filter state: reading it from the URL query, writing
 * it into the products request, the handlers that change it, and the
 * product list with its "Load More" pagination.
 */
module CategoryFilters {
  import opened Wrappers
  import opened Http
  import opened Text
  import opened QueryParams
  import opened JsSet
  import opened Toasts

  /** The page's `filters` state. `page` is absent in the state read from the
      URL and set to 0 by every handler; the request does not read it. */
  datatype Filters = Filters(
    subcategories: seq<NumberValue>,
    brands: seq<string>,
    sizes: seq<string>,
    minPrice: string,
    maxPrice: string,
    sort: string,
    page: Option<int>)

  /** The three set-valued filters are free of duplicates. */
  predicate WellFormed(f: Filters) {
    NoDup(f.subcategories) && NoDup(f.brands) && NoDup(f.sizes)
  }

  /** `searchParams.get(k) || fallback`: a missing or empty value reads as the fallback. */
  function GetOrElse(p: Params, k: string, fallback: string): (v: string)
    ensures GetAll(p, k) == [] ==> v == fallback
    ensures GetAll(p, k) != [] && GetAll(p, k)[0] != "" ==> v == GetAll(p, k)[0]
    ensures GetAll(p, k) != [] && GetAll(p, k)[0] == "" ==> v == fallback
    ensures fallback != "" ==> v != ""
  {
    match Get(p, k)
    case None => fallback
    case Some(v) => if v == "" then fallback else v
  }

  /** `parseInt(id, 10)` over every value. */
  function ParseAll(xs: seq<string>): (r: seq<NumberValue>)
    ensures |r| == |xs| && forall i :: 0 <= i < |xs| ==> r[i] == ParseInt(xs[i])
  {
    seq(|xs|, i requires 0 <= i < |xs| => ParseInt(xs[i]))
  }

  /** The parsed values are exactly the values of the parsed strings. */
  lemma ParsedMembers(xs: seq<string>)
    ensures forall n :: n in ParseAll(xs) <==> exists v :: v in xs && n == ParseInt(v)
  {
    var ids := ParseAll(xs);
    forall n | n in ids ensures exists v :: v in xs && n == ParseInt(v) {
      var i :| 0 <= i < |ids| && ids[i] == n;
      assert xs[i] in xs;
    }
  }

  /** `String(id)` over every value. */
  function PrintAll(ns: seq<NumberValue>): (r: seq<string>)
    ensures |r| == |ns| && forall i :: 0 <= i < |ns| ==> r[i] == NumberToString(ns[i])
  {
    seq(|ns|, i requires 0 <= i < |ns| => NumberToString(ns[i]))
  }

  /** `getInitialFilters()`: every subcategory id parsed as an integer, every
      brand and size, each set deduplicated; prices default to '' and the sort
      to 'default'. */
  function InitialFilters(p: Params): (f: Filters)
    ensures WellFormed(f) && f.page.None?
    ensures forall n :: n in f.subcategories <==> exists v :: v in GetAll(p, "subcategory") && n == ParseInt(v)
    ensures forall b :: b in f.brands <==> b in GetAll(p, "brands")
    ensures forall s :: s in f.sizes <==> s in GetAll(p, "sizes")
    ensures GetAll(p, "minPrice") == [] ==> f.minPrice == ""
    ensures GetAll(p, "maxPrice") == [] ==> f.maxPrice == ""
    ensures GetAll(p, "sort") == [] ==> f.sort == "default"
    ensures f.sort != ""
  {
    var ids := ParseAll(GetAll(p, "subcategory"));
    ParsedMembers(GetAll(p, "subcategory"));
    var sort := GetOrElse(p, "sort", "default");
    assert sort != "";
    Filters(
      FromSeq(ids),
      FromSeq(GetAll(p, "brands")),
      FromSeq(GetAll(p, "sizes")),
      GetOrElse(p, "minPrice", ""),
      GetOrElse(p, "maxPrice", ""),
      sort,
      None)
  }

  /** `if (cond) params.append(k, v)`. */
  function AppendIf(p: Params, cond: bool, k: string, v: string): Params {
    AppendAll(p, k, if cond then [v] else [])
  }

  /** The filter part of the products query: one pair per set element, the
      prices only when non-empty, the sort only when not 'default'. */
  function FilterParams(f: Filters): Params {
    var p1 := AppendAll([], "subcategory", PrintAll(f.subcategories));
    var p2 := AppendAll(p1, "brands", f.brands);
    var p3 := AppendAll(p2, "sizes", f.sizes);
    var p4 := AppendIf(p3, f.minPrice != "", "minPrice", f.minPrice);
    var p5 := AppendIf(p4, f.maxPrice != "", "maxPrice", f.maxPrice);
    AppendIf(p5, f.sort != "default", "sort", f.sort)
  }

  /** A block appended under another key leaves a key's values as they were. */
  lemma Skip(p: Params, k: string, vs: seq<string>, j: string)
    requires j != k
    ensures GetAll(AppendAll(p, k, vs), j) == GetAll(p, j)
  {
    GetAllAppendAll(p, k, vs, j);
    assert GetAll(p, j) + [] == GetAll(p, j);
  }

  /** The first block appended under a key is what that key then reads. */
  lemma Take(p: Params, k: string, vs: seq<string>)
    requires GetAll(p, k) == []
    ensures GetAll(AppendAll(p, k, vs), k) == vs
  {
    GetAllAppendAll(p, k, vs, k);
    assert [] + vs == vs;
  }

  /** The query after each `forEach(append)` block of the filter part; the
      last one is the whole filter part. */
  lemma Stages(f: Filters) returns (p1: Params, p2: Params, p3: Params, p4: Params, p5: Params, q: Params)
    ensures p1 == AppendAll([], "subcategory", PrintAll(f.subcategories))
    ensures p2 == AppendAll(p1, "brands", f.brands)
    ensures p3 == AppendAll(p2, "sizes", f.sizes)
    ensures p4 == AppendAll(p3, "minPrice", if f.minPrice != "" then [f.minPrice] else [])
    ensures p5 == AppendAll(p4, "maxPrice", if f.maxPrice != "" then [f.maxPrice] else [])
    ensures q == AppendAll(p5, "sort", if f.sort != "default" then [f.sort] else [])
    ensures q == FilterParams(f)
  {
    p1 := AppendAll([], "subcategory", PrintAll(f.subcategories));
    p2 := AppendAll(p1, "brands", f.brands);
    p3 := AppendAll(p2, "sizes", f.sizes);
    p4 := AppendIf(p3, f.minPrice != "", "minPrice", f.minPrice);
    p5 := AppendIf(p4, f.maxPrice != "", "maxPrice", f.maxPrice);
    q := AppendIf(p5, f.sort != "default", "sort", f.sort);
  }

  /** The whole products query: the filter pairs and then the page, always. */
  function ProductQuery(f: Filters, page: nat): (p: Params)
    ensures GetAll(p, "page") == [NatToString(page)]
    ensures GetAll(p, "subcategory") == PrintAll(f.subcategories)
    ensures GetAll(p, "brands") == f.brands && GetAll(p, "sizes") == f.sizes
    ensures GetAll(p, "minPrice") == (if f.minPrice != "" then [f.minPrice] else [])
    ensures GetAll(p, "maxPrice") == (if f.maxPrice != "" then [f.maxPrice] else [])
    ensures GetAll(p, "sort") == (if f.sort != "default" then [f.sort] else [])
  {
    QueryPage(f, page); QuerySubcategory(f, page); QueryBrands(f, page); QuerySizes(f, page);
    QueryMinPrice(f, page); QueryMaxPrice(f, page); QuerySort(f, page);
    AppendAll(FilterParams(f), "page", [NatToString(page)])
  }

  // Reading each key of the products query back, one key per lemma: every
  // block but the key's own is skipped.

  lemma QueryPage(f: Filters, page: nat)
    ensures GetAll(AppendAll(FilterParams(f), "page", [NatToString(page)]), "page") == [NatToString(page)]
  {
    var p1, p2, p3, p4, p5, q := Stages(f);
    Skip([], "subcategory", PrintAll(f.subcategories), "page");
    Skip(p1, "brands", f.brands, "page");
    Skip(p2, "sizes", f.sizes, "page");
    Skip(p3, "minPrice", if f.minPrice != "" then [f.minPrice] else [], "page");
    Skip(p4, "maxPrice", if f.maxPrice != "" then [f.maxPrice] else [], "page");
    Skip(p5, "sort", if f.sort != "default" then [f.sort] else [], "page");
    Take(q, "page", [NatToString(page)]);
  }

  lemma QuerySubcategory(f: Filters, page: nat)
    ensures GetAll(AppendAll(FilterParams(f), "page", [NatToString(page)]), "subcategory") == PrintAll(f.subcategories)
  {
    var p1, p2, p3, p4, p5, q := Stages(f);
    Take([], "subcategory", PrintAll(f.subcategories));
    Skip(p1, "brands", f.brands, "subcategory");
    Skip(p2, "sizes", f.sizes, "subcategory");
    Skip(p3, "minPrice", if f.minPrice != "" then [f.minPrice] else [], "subcategory");
    Skip(p4, "maxPrice", if f.maxPrice != "" then [f.maxPrice] else [], "subcategory");
    Skip(p5, "sort", if f.sort != "default" then [f.sort] else [], "subcategory");
    Skip(q, "page", [NatToString(page)], "subcategory");
  }

  lemma QueryBrands(f: Filters, page: nat)
    ensures GetAll(AppendAll(FilterParams(f), "page", [NatToString(page)]), "brands") == f.brands
  {
    var p1, p2, p3, p4, p5, q := Stages(f);
    Skip([], "subcategory", PrintAll(f.subcategories), "brands");
    Take(p1, "brands", f.brands);
    Skip(p2, "sizes", f.sizes, "brands");
    Skip(p3, "minPrice", if f.minPrice != "" then [f.minPrice] else [], "brands");
    Skip(p4, "maxPrice", if f.maxPrice != "" then [f.maxPrice] else [], "brands");
    Skip(p5, "sort", if f.sort != "default" then [f.sort] else [], "brands");
    Skip(q, "page", [NatToString(page)], "brands");
  }

  lemma QuerySizes(f: Filters, page: nat)
    ensures GetAll(AppendAll(FilterParams(f), "page", [NatToString(page)]), "sizes") == f.sizes
  {
    var p1, p2, p3, p4, p5, q := Stages(f);
    Skip([], "subcategory", PrintAll(f.subcategories), "sizes");
    Skip(p1, "brands", f.brands, "sizes");
    Take(p2, "sizes", f.sizes);
    Skip(p3, "minPrice", if f.minPrice != "" then [f.minPrice] else [], "sizes");
    Skip(p4, "maxPrice", if f.maxPrice != "" then [f.maxPrice] else [], "sizes");
    Skip(p5, "sort", if f.sort != "default" then [f.sort] else [], "sizes");
    Skip(q, "page", [NatToString(page)], "sizes");
  }

  lemma QueryMinPrice(f: Filters, page: nat)
    ensures GetAll(AppendAll(FilterParams(f), "page", [NatToString(page)]), "minPrice") == (if f.minPrice != "" then [f.minPrice] else [])
  {
    var p1, p2, p3, p4, p5, q := Stages(f);
    Skip([], "subcategory", PrintAll(f.subcategories), "minPrice");
    Skip(p1, "brands", f.brands, "minPrice");
    Skip(p2, "sizes", f.sizes, "minPrice");
    Take(p3, "minPrice", if f.minPrice != "" then [f.minPrice] else []);
    Skip(p4, "maxPrice", if f.maxPrice != "" then [f.maxPrice] else [], "minPrice");
    Skip(p5, "sort", if f.sort != "default" then [f.sort] else [], "minPrice");
    Skip(q, "page", [NatToString(page)], "minPrice");
  }

  lemma QueryMaxPrice(f: Filters, page: nat)
    ensures GetAll(AppendAll(FilterParams(f), "page", [NatToString(page)]), "maxPrice") == (if f.maxPrice != "" then [f.maxPrice] else [])
  {
    var p1, p2, p3, p4, p5, q := Stages(f);
    Skip([], "subcategory", PrintAll(f.subcategories), "maxPrice");
    Skip(p1, "brands", f.brands, "maxPrice");
    Skip(p2, "sizes", f.sizes, "maxPrice");
    Skip(p3, "minPrice", if f.minPrice != "" then [f.minPrice] else [], "maxPrice");
    Take(p4, "maxPrice", if f.maxPrice != "" then [f.maxPrice] else []);
    Skip(p5, "sort", if f.sort != "default" then [f.sort] else [], "maxPrice");
    Skip(q, "page", [NatToString(page)], "maxPrice");
  }

  lemma QuerySort(f: Filters, page: nat)
    ensures GetAll(AppendAll(FilterParams(f), "page", [NatToString(page)]), "sort") == (if f.sort != "default" then [f.sort] else [])
  {
    var p1, p2, p3, p4, p5, q := Stages(f);
    Skip([], "subcategory", PrintAll(f.subcategories), "sort");
    Skip(p1, "brands", f.brands, "sort");
    Skip(p2, "sizes", f.sizes, "sort");
    Skip(p3, "minPrice", if f.minPrice != "" then [f.minPrice] else [], "sort");
    Skip(p4, "maxPrice", if f.maxPrice != "" then [f.maxPrice] else [], "sort");
    Take(p5, "sort", if f.sort != "default" then [f.sort] else []);
    Skip(q, "page", [NatToString(page)], "sort");
  }

  /** Printing ids and parsing them back gives the ids again, NaN included. */
  lemma ParsePrinted(ns: seq<NumberValue>)
    ensures ParseAll(PrintAll(ns)) == ns
  {
    forall i | 0 <= i < |ns| ensures ParseAll(PrintAll(ns))[i] == ns[i] {
      ParseIntRoundTrip(ns[i]);
    }
  }

  /** Writing the filters into a query and reading that query back with the
      initial-filter reader gives the same filters (without the page field),
      provided the sets have no duplicates and the sort is not empty. */
  lemma QueryRoundTrip(f: Filters, page: nat)
    requires WellFormed(f) && f.sort != ""
    ensures InitialFilters(ProductQuery(f, page)) == f.(page := None)
  {
    var p := ProductQuery(f, page);
    ParsePrinted(f.subcategories);
    FromSeqOfNoDup(f.subcategories);
    FromSeqOfNoDup(f.brands);
    FromSeqOfNoDup(f.sizes);
  }

  /** Which of the two products endpoints is asked, and with what query. */
  datatype ProductsRequest = ProductsRequest(path: string, query: Params)

  /** The category as loaded: `children` is null or the list of sub-category ids. */
  datatype CategoryInfo = CategoryInfo(id: string, children: Option<seq<int>>)

  predicate IsParent(c: CategoryInfo) {
    c.children.Some? && |c.children.value| > 0
  }

  /** `fetchProducts(page)`: nothing is requested before the category is
      loaded; a parent category is asked through its own products endpoint,
      any other through the products endpoint filtered by category id. The
      id in the URL is the route's `categoryId`, while whether the category
      is a parent is read from the category object held in state, which can
      still be the previous route's for a moment after navigating. */
  function ProductsRequestFor(categoryId: string, category: Option<CategoryInfo>, f: Filters, page: nat): (r: Option<ProductsRequest>)
    ensures r.None? <==> category.None?
    ensures category.Some? && IsParent(category.value) ==>
      r == Some(ProductsRequest("/api/categories/" + categoryId + "/products", ProductQuery(f, page)))
    ensures category.Some? && !IsParent(category.value) ==>
      r == Some(ProductsRequest("/api/products", [Param("categoryId", categoryId)] + ProductQuery(f, page)))
  {
    match category
    case None => None
    case Some(c) =>
      if IsParent(c) then Some(ProductsRequest("/api/categories/" + categoryId + "/products", ProductQuery(f, page)))
      else Some(ProductsRequest("/api/products", [Param("categoryId", categoryId)] + ProductQuery(f, page)))
  }

  /** Whatever the endpoint, the filters are read back the same way from the query. */
  lemma EndpointsCarrySameFilters(categoryId: string, c: CategoryInfo, f: Filters, page: nat, k: string)
    requires k != "categoryId"
    ensures GetAll(ProductsRequestFor(categoryId, Some(c), f, page).value.query, k) == GetAll(ProductQuery(f, page), k)
  {
    if !IsParent(c) {
      GetAllConcat([Param("categoryId", categoryId)], ProductQuery(f, page), k);
    }
  }

  /** The three set-valued filters a handler can toggle. */
  datatype SetFilter = Subcategories | Brands | Sizes

  /** `handleFilterChange` for a subcategory id. */
  function ToggleSubcategory(f: Filters, id: NumberValue): (r: Filters)
    ensures r == f.(subcategories := r.subcategories, page := Some(0))
    ensures id in r.subcategories <==> id !in f.subcategories
    ensures forall n :: n != id ==> (n in r.subcategories <==> n in f.subcategories)
  {
    f.(subcategories := Toggle(f.subcategories, id), page := Some(0))
  }

  /** `handleFilterChange` for a brand or a size. */
  function ToggleText(f: Filters, which: SetFilter, v: string): (r: Filters)
    requires which != Subcategories
    ensures which == Brands ==> r == f.(brands := r.brands, page := Some(0))
    ensures which == Sizes ==> r == f.(sizes := r.sizes, page := Some(0))
    ensures which == Brands ==> (v in r.brands <==> v !in f.brands) && forall b :: b != v ==> (b in r.brands <==> b in f.brands)
    ensures which == Sizes ==> (v in r.sizes <==> v !in f.sizes) && forall s :: s != v ==> (s in r.sizes <==> s in f.sizes)
  {
    if which == Brands then f.(brands := Toggle(f.brands, v), page := Some(0))
    else f.(sizes := Toggle(f.sizes, v), page := Some(0))
  }

  /** Toggling keeps the sets duplicate-free, and toggling the same value
      twice restores the filters (the page field aside). */
  lemma ToggleTextTwice(f: Filters, which: SetFilter, v: string)
    requires which != Subcategories && WellFormed(f)
    ensures WellFormed(ToggleText(f, which, v))
    ensures var r := ToggleText(ToggleText(f, which, v), which, v);
      r.page == Some(0) && r.minPrice == f.minPrice && r.maxPrice == f.maxPrice && r.sort == f.sort &&
      r.subcategories == f.subcategories &&
      (forall b :: b in r.brands <==> b in f.brands) && (forall s :: s in r.sizes <==> s in f.sizes)
    ensures which == Brands && v !in f.brands ==> ToggleText(ToggleText(f, which, v), which, v) == f.(page := Some(0))
    ensures which == Sizes && v !in f.sizes ==> ToggleText(ToggleText(f, which, v), which, v) == f.(page := Some(0))
  {
    ToggleNoDup(f.brands, v);
    ToggleNoDup(f.sizes, v);
    ToggleTwice(f.brands, v);
    ToggleTwice(f.sizes, v);
  }

  lemma ToggleSubcategoryTwice(f: Filters, id: NumberValue)
    requires WellFormed(f)
    ensures WellFormed(ToggleSubcategory(f, id))
    ensures forall n :: n in ToggleSubcategory(ToggleSubcategory(f, id), id).subcategories <==> n in f.subcategories
    ensures id !in f.subcategories ==> ToggleSubcategory(ToggleSubcategory(f, id), id) == f.(page := Some(0))
  {
    ToggleNoDup(f.subcategories, id);
    ToggleTwice(f.subcategories, id);
  }

  /** `handlePriceChange(name, value)`: the cleaned value goes to minPrice for
      'min' and to maxPrice for any other name. */
  function PriceChange(f: Filters, name: string, value: string): (r: Filters)
    ensures name == "min" ==> r == f.(minPrice := r.minPrice, page := Some(0))
    ensures name != "min" ==> r == f.(maxPrice := r.maxPrice, page := Some(0))
    ensures var cleaned := if name == "min" then r.minPrice else r.maxPrice;
      (forall i :: 0 <= i < |cleaned| ==> IsPriceChar(cleaned[i])) && KeepPriceChars(cleaned) == cleaned
    ensures AllPriceChars(value) ==> (if name == "min" then r.minPrice else r.maxPrice) == value
    ensures (if name == "min" then r.minPrice else r.maxPrice) == KeepPriceChars(value)
  {
    var cleaned := KeepPriceChars(value);
    KeepPriceCharsIdempotent(value);
    if name == "min" then f.(minPrice := cleaned, page := Some(0)) else f.(maxPrice := cleaned, page := Some(0))
  }

  predicate AllPriceChars(s: string) {
    forall i :: 0 <= i < |s| ==> IsPriceChar(s[i])
  }

  /** Typing one more character into a price box: the stored price grows by
      that character when it is a digit or a dot, and is unchanged otherwise;
      the other price and every other filter are left alone. */
  lemma PriceChangeTyped(f: Filters, name: string, value: string, c: char)
    ensures var before := PriceChange(f, name, value);
      var after := PriceChange(f, name, value + [c]);
      var kept := if IsPriceChar(c) then [c] else [];
      (if name == "min" then after.minPrice else after.maxPrice) ==
        (if name == "min" then before.minPrice else before.maxPrice) + kept &&
      after == before.(minPrice := after.minPrice, maxPrice := after.maxPrice) &&
      (if name == "min" then after.maxPrice == f.maxPrice else after.minPrice == f.minPrice)
  {
    KeepPriceCharsConcat(value, [c]);
    KeepPriceCharsOne(c);
  }

  /** `handleSortChange`. */
  function SortChange(f: Filters, sort: string): (r: Filters)
    ensures r == f.(sort := sort, page := Some(0))
    ensures WellFormed(f) ==> WellFormed(r)
  {
    f.(sort := sort, page := Some(0))
  }

  /** A sort choice reaches the products query: the first page is asked for,
      `sort` is sent exactly when it is not the default, and reading the
      query back gives the filters with only the sort changed. */
  lemma SortChangeReachesQuery(f: Filters, sort: string)
    requires WellFormed(f) && f.sort != "" && sort != ""
    ensures GetAll(ProductQuery(SortChange(f, sort), 0), "page") == [NatToString(0)]
    ensures GetAll(ProductQuery(SortChange(f, sort), 0), "sort") == (if sort != "default" then [sort] else [])
    ensures InitialFilters(ProductQuery(SortChange(f, sort), 0)) == f.(sort := sort, page := None)
  {
    QueryRoundTrip(SortChange(f, sort), 0);
  }

  /** One page of products from the server (`content`, `number`, `totalPages`). */
  datatype ProductPage<T> = ProductPage(content: seq<T>, number: int, totalPages: int)

  /** The list, the pager and the loading flags of the page. */
  datatype Listing<T> = Listing(products: seq<T>, page: int, totalPages: int, isLoading: bool, isLoadingMore: bool)

  /** The pager before any fetch. */
  function InitialListing<T>(): Listing<T> {
    Listing([], 0, 1, true, false)
  }

  /** The end of `fetchProducts`: a load-more appends, a plain fetch
      replaces; a failure keeps list and pager and reports an error; both
      loading flags end false. */
  function FetchDone<T>(l: Listing<T>, loadMore: bool, res: Response<ProductPage<T>>): (r: (Listing<T>, Option<Toast>))
    ensures !r.0.isLoading && !r.0.isLoadingMore
    ensures res.Ok? && loadMore ==> r.0.products == l.products + res.data.content
    ensures res.Ok? && !loadMore ==> r.0.products == res.data.content
    ensures res.Ok? ==> r.0.page == res.data.number && r.0.totalPages == res.data.totalPages && r.1.None?
    ensures res.Err? ==> r.0 == l.(isLoading := false, isLoadingMore := false)
    ensures res.Err? ==> r.1 == Some(ErrorToast("Could not load products."))
  {
    match res
    case Ok(pg) =>
      var products := if loadMore then l.products + pg.content else pg.content;
      (Listing(products, pg.number, pg.totalPages, false, false), None)
    case Err(_, _) =>
      (l.(isLoading := false, isLoadingMore := false), Some(ErrorToast("Could not load products.")))
  }

  /** The "Load More" button is shown only while a later page exists. */
  predicate LoadMoreVisible<T>(l: Listing<T>) {
    l.page < l.totalPages - 1
  }

  /** `loadMoreProducts()`: the page asked for next. */
  function NextPage<T>(l: Listing<T>): (n: int)
    ensures LoadMoreVisible(l) ==> 0 <= l.page ==> 0 < n < l.totalPages
  {
    l.page + 1
  }

  /** A successful load-more keeps every product already shown, in place,
      and adds the new page after them. */
  lemma LoadMoreKeepsShown<T>(l: Listing<T>, pg: ProductPage<T>)
    ensures var r := FetchDone(l, true, Ok(pg)).0;
      r.products[..|l.products|] == l.products && r.products[|l.products|..] == pg.content
  {
  }

  /** Before any fetch, there is no "Load More" button. */
  lemma InitialHidesLoadMore<T>()
    ensures !LoadMoreVisible(InitialListing<T>())
  {
  }
}
