/**
 * CatalogView.get_context_data of dacp/main/views.py: the products, newest
 * first, narrowed by the URL's category and the `q` search, put in the order
 * `sort` asks for, then narrowed by each FILTER_MAPPING parameter in turn,
 * while `filter_params` records what each parameter was.
 *
 * Turning a min_price / max_price string into an amount is Python's Decimal
 * parsing, outside the repository: it is the parameter `priceOf`, which gives
 * the amount in cents or None when the database field would reject the string.
 */
module CatalogView {
  import opened Wrappers
  import opened Store
  import opened CatalogText
  import opened CatalogSort

  /** FILTER_MAPPING, in the order its parameters are applied. */
  const FilterMapping: seq<string> := ["color", "min_price", "max_price", "size"]

  /** `request.GET.get(name)`, with an absent parameter read as the empty string. */
  function Get(query: map<string, string>, name: string): string
  {
    if name in query then query[name] else ""
  }

  /** Some ProductSize of the product has that size name (whatever its stock). */
  predicate HasSizeNamed(sizes: seq<ProductSize>, product: nat, name: string)
  {
    exists k :: 0 <= k < |sizes| && sizes[k].product == product && sizes[k].sizeName == name
  }

  /** The FILTER_MAPPING lambda for `name`, applied with `value`. */
  predicate AttributeAdmits(p: Product, name: string, value: string,
                            sizes: seq<ProductSize>, priceOf: string -> Option<int>)
  {
    if name == "color" then IExact(p.color, value)
    else if name == "min_price" then priceOf(value).Some? && p.priceCents >= priceOf(value).value
    else if name == "max_price" then priceOf(value).Some? && p.priceCents <= priceOf(value).value
    else if name == "size" then HasSizeNamed(sizes, p.id, value)
    else true
  }

  /** One narrowing step of the pipeline. */
  datatype Criterion =
    | InCategory(categoryId: nat)
    | Matches(q: string)
    | Attribute(name: string, value: string)

  predicate Keep(c: Criterion, p: Product, sizes: seq<ProductSize>, priceOf: string -> Option<int>)
  {
    match c
    case InCategory(id) => p.categoryId == id
    case Matches(q) => IContains(p.name, q) || IContains(p.description, q)
    case Attribute(name, value) => AttributeAdmits(p, name, value, sizes, priceOf)
  }

  /** `queryset.filter(...)`: the rows that pass, each as often as before, in the same order. */
  function Select(s: seq<Product>, c: Criterion, sizes: seq<ProductSize>, priceOf: string -> Option<int>): (r: seq<Product>)
    ensures forall x :: multiset(r)[x] == if Keep(c, x, sizes, priceOf) then multiset(s)[x] else 0
  {
    if |s| == 0 then []
    else
      assert s == [s[0]] + s[1..];
      var rest := Select(s[1..], c, sizes, priceOf);
      if Keep(c, s[0], sizes, priceOf) then [s[0]] + rest else rest
  }

  /** Narrowing keeps the order the rows were in. */
  lemma {:induction false} SelectKeepsOrder(s: seq<Product>, c: Criterion, sizes: seq<ProductSize>,
                                            priceOf: string -> Option<int>, o: Ordering)
    requires SortedBy(s, o)
    ensures SortedBy(Select(s, c, sizes, priceOf), o)
  {
    if |s| > 0 {
      var rest := Select(s[1..], c, sizes, priceOf);
      SelectKeepsOrder(s[1..], c, sizes, priceOf, o);
      if Keep(c, s[0], sizes, priceOf) {
        forall y | y in rest ensures Rank(o, s[0]) <= Rank(o, y) {
          assert multiset(rest)[y] > 0;
          assert y in multiset(s[1..]);
          var j :| 0 <= j < |s[1..]| && s[1..][j] == y;
          assert s[j + 1] == y;
        }
        ConsSorted(s[0], rest, o);
      }
    }
  }

  /** The order `sort` asks for; any other value keeps the newest-first order. */
  function RequestedOrder(sort: string): Ordering
  {
    if sort == "price_low" then PriceLow
    else if sort == "price_high" then PriceHigh
    else Newest
  }

  /** The first `n` FILTER_MAPPING parameters admit `p`; an empty parameter admits everything. */
  ghost predicate AttributesAdmit(p: Product, query: map<string, string>, n: nat,
                                  sizes: seq<ProductSize>, priceOf: string -> Option<int>)
    requires n <= |FilterMapping|
  {
    forall k :: 0 <= k < n ==>
      Get(query, FilterMapping[k]) == "" || AttributeAdmits(p, FilterMapping[k], Get(query, FilterMapping[k]), sizes, priceOf)
  }

  /**
   * Which products the page lists: those of the category when one is named,
   * whose name or description contains `q` when it is given, and that every
   * non-empty FILTER_MAPPING parameter admits.
   */
  ghost predicate Admits(p: Product, category: Option<Category>, query: map<string, string>,
                         sizes: seq<ProductSize>, priceOf: string -> Option<int>)
  {
    CategoryAndSearchAdmit(p, category, Get(query, "q")) &&
    AttributesAdmit(p, query, |FilterMapping|, sizes, priceOf)
  }

  /** The category step and the search step admit `p`. */
  ghost predicate CategoryAndSearchAdmit(p: Product, category: Option<Category>, q: string)
  {
    (category.Some? ==> p.categoryId == category.value.id) &&
    (q != "" ==> IContains(p.name, q) || IContains(p.description, q))
  }

  /** A non-empty price parameter the database field would refuse. */
  predicate BadPrice(query: map<string, string>, name: string, priceOf: string -> Option<int>)
  {
    (name == "min_price" || name == "max_price") && Get(query, name) != "" && priceOf(Get(query, name)).None?
  }

  datatype CatalogError = CategoryNotFound | InvalidPrice

  datatype CatalogContext = CatalogContext(
    products: seq<Product>,
    currentCategory: Option<Category>,
    filterParams: map<string, string>,
    searchQuery: string)

  ghost predicate NoDuplicates(s: seq<Product>)
  {
    forall x :: multiset(s)[x] <= 1
  }

  /**
   * get_context_data: fails with 404 for an unknown category slug and with
   * an invalid-price error for a price parameter the field refuses; otherwise
   * lists exactly the products Admits accepts, each as often as in the table,
   * in the requested order, and records every parameter's value (or "") in
   * `filter_params`.
   */
  method GetContextData(categories: seq<Category>, all: seq<Product>, sizes: seq<ProductSize>,
                        categorySlug: string, query: map<string, string>, priceOf: string -> Option<int>)
    returns (r: Result<CatalogContext, CatalogError>)
    ensures r == Err(CategoryNotFound) <==> categorySlug != "" && FindCategory(categories, categorySlug).None?
    ensures r == Err(InvalidPrice) <==>
      !(categorySlug != "" && FindCategory(categories, categorySlug).None?) &&
      (BadPrice(query, "min_price", priceOf) || BadPrice(query, "max_price", priceOf))
    ensures r.Ok? ==>
      r.value.currentCategory == (if categorySlug == "" then None else FindCategory(categories, categorySlug))
    ensures r.Ok? ==> SortedBy(r.value.products, RequestedOrder(Get(query, "sort")))
    ensures r.Ok? ==> forall x ::
      multiset(r.value.products)[x] == if Admits(x, r.value.currentCategory, query, sizes, priceOf) then multiset(all)[x] else 0
    ensures r.Ok? ==> multiset(r.value.products) <= multiset(all)
    ensures r.Ok? && NoDuplicates(all) ==> NoDuplicates(r.value.products)
    ensures r.Ok? ==> r.value.searchQuery == Get(query, "q")
    ensures r.Ok? ==> r.value.filterParams.Keys == {"color", "min_price", "max_price", "size", "q"}
    ensures r.Ok? ==> forall name :: name in r.value.filterParams ==> r.value.filterParams[name] == Get(query, name)
  {
    var current: Option<Category> := None;
    if categorySlug != "" {
      current := FindCategory(categories, categorySlug);
      if current.None? {
        return Err(CategoryNotFound);
      }
    }
    var q := Get(query, "q");
    var sortBy := Get(query, "sort");
    var products := CategorySearchSort(all, current, q, sortBy, sizes, priceOf);
    var narrowed := ApplyFilterMapping(products, query, sizes, priceOf, RequestedOrder(sortBy));
    if narrowed.Err? {
      return Err(InvalidPrice);
    }
    var filterParams;
    var selected := narrowed.value.0;
    filterParams := narrowed.value.1["q" := q];
    FilterComposition(all, products, selected, current, query, sizes, priceOf);
    r := Ok(CatalogContext(selected, current, filterParams, q));
  }

  /**
   * The queryset before FILTER_MAPPING: newest first, narrowed to the
   * category and to the search term when given, then ordered as `sort` asks.
   */
  method CategorySearchSort(all: seq<Product>, current: Option<Category>, q: string, sortBy: string,
                            sizes: seq<ProductSize>, priceOf: string -> Option<int>)
    returns (products: seq<Product>)
    ensures SortedBy(products, RequestedOrder(sortBy))
    ensures forall x ::
      multiset(products)[x] == if CategoryAndSearchAdmit(x, current, q) then multiset(all)[x] else 0
  {
    products := SortBy(all, Newest);
    if current.Some? {
      SelectKeepsOrder(products, InCategory(current.value.id), sizes, priceOf, Newest);
      products := Select(products, InCategory(current.value.id), sizes, priceOf);
    }
    if q != "" {
      SelectKeepsOrder(products, Matches(q), sizes, priceOf, Newest);
      products := Select(products, Matches(q), sizes, priceOf);
    }
    if sortBy == "price_low" {
      products := SortBy(products, PriceLow);
    } else if sortBy == "price_high" {
      products := SortBy(products, PriceHigh);
    } else if sortBy == "newest" {
      products := SortBy(products, Newest);
    }
  }

  /** The category and search steps followed by the attribute filters select exactly what Admits accepts. */
  lemma FilterComposition(all: seq<Product>, mid: seq<Product>, out: seq<Product>, category: Option<Category>,
                          query: map<string, string>, sizes: seq<ProductSize>, priceOf: string -> Option<int>)
    requires forall x ::
      multiset(mid)[x] == if CategoryAndSearchAdmit(x, category, Get(query, "q")) then multiset(all)[x] else 0
    requires forall x ::
      multiset(out)[x] == if AttributesAdmit(x, query, |FilterMapping|, sizes, priceOf) then multiset(mid)[x] else 0
    ensures forall x :: multiset(out)[x] == if Admits(x, category, query, sizes, priceOf) then multiset(all)[x] else 0
    ensures multiset(out) <= multiset(all)
    ensures NoDuplicates(all) ==> NoDuplicates(out)
  {
    assert forall x :: multiset(out)[x] <= multiset(all)[x] by {
      forall x ensures multiset(out)[x] <= multiset(all)[x] {
        assert multiset(mid)[x] <= multiset(all)[x];
      }
    }
  }

  /**
   * What Admits means filter by filter: the category, the search term in the
   * name or the description, the colour up to case, both price bounds
   * inclusively, and a size of that exact name; an empty parameter imposes
   * nothing.
   */
  lemma AdmittedMeetsEveryFilter(p: Product, category: Option<Category>, query: map<string, string>,
                                 sizes: seq<ProductSize>, priceOf: string -> Option<int>)
    requires Admits(p, category, query, sizes, priceOf)
    ensures category.Some? ==> p.categoryId == category.value.id
    ensures Get(query, "q") != "" ==> IContains(p.name, Get(query, "q")) || IContains(p.description, Get(query, "q"))
    ensures Get(query, "color") != "" ==> IExact(p.color, Get(query, "color"))
    ensures Get(query, "min_price") != "" ==>
      priceOf(Get(query, "min_price")).Some? && p.priceCents >= priceOf(Get(query, "min_price")).value
    ensures Get(query, "max_price") != "" ==>
      priceOf(Get(query, "max_price")).Some? && p.priceCents <= priceOf(Get(query, "max_price")).value
    ensures Get(query, "size") != "" ==> HasSizeNamed(sizes, p.id, Get(query, "size"))
  {
    assert FilterMapping[0] == "color" && FilterMapping[1] == "min_price";
    assert FilterMapping[2] == "max_price" && FilterMapping[3] == "size";
  }

  /** Conversely, a product every filter accepts is admitted. */
  lemma EveryFilterAdmits(p: Product, category: Option<Category>, query: map<string, string>,
                          sizes: seq<ProductSize>, priceOf: string -> Option<int>)
    requires category.Some? ==> p.categoryId == category.value.id
    requires Get(query, "q") != "" ==> IContains(p.name, Get(query, "q")) || IContains(p.description, Get(query, "q"))
    requires Get(query, "color") != "" ==> IExact(p.color, Get(query, "color"))
    requires Get(query, "min_price") != "" ==>
      priceOf(Get(query, "min_price")).Some? && p.priceCents >= priceOf(Get(query, "min_price")).value
    requires Get(query, "max_price") != "" ==>
      priceOf(Get(query, "max_price")).Some? && p.priceCents <= priceOf(Get(query, "max_price")).value
    requires Get(query, "size") != "" ==> HasSizeNamed(sizes, p.id, Get(query, "size"))
    ensures Admits(p, category, query, sizes, priceOf)
  {
    forall k | 0 <= k < |FilterMapping|
      ensures Get(query, FilterMapping[k]) == "" ||
              AttributeAdmits(p, FilterMapping[k], Get(query, FilterMapping[k]), sizes, priceOf)
    {
      assert k == 0 || k == 1 || k == 2 || k == 3;
    }
  }

  /** The keys of the first `n` FILTER_MAPPING entries. */
  function MappingKeys(n: nat): set<string>
    requires n <= |FilterMapping|
  {
    if n == 0 then {} else MappingKeys(n - 1) + {FilterMapping[n - 1]}
  }

  lemma AttributesAdmitStep(p: Product, query: map<string, string>, n: nat,
                            sizes: seq<ProductSize>, priceOf: string -> Option<int>)
    requires n < |FilterMapping|
    ensures AttributesAdmit(p, query, n + 1, sizes, priceOf) <==>
      AttributesAdmit(p, query, n, sizes, priceOf) &&
      (Get(query, FilterMapping[n]) == "" || AttributeAdmits(p, FilterMapping[n], Get(query, FilterMapping[n]), sizes, priceOf))
  {
  }

  /** One pass of the FILTER_MAPPING loop adds exactly parameter `i`'s condition to what the products satisfy. */
  lemma NarrowStep(current: seq<Product>, products: seq<Product>, query: map<string, string>, i: nat,
                   sizes: seq<ProductSize>, priceOf: string -> Option<int>)
    requires i < |FilterMapping|
    requires forall x ::
      multiset(current)[x] == if AttributesAdmit(x, query, i, sizes, priceOf) then multiset(products)[x] else 0
    ensures var value := Get(query, FilterMapping[i]);
      var next := if value != "" then Select(current, Attribute(FilterMapping[i], value), sizes, priceOf) else current;
      forall x ::
        multiset(next)[x] == if AttributesAdmit(x, query, i + 1, sizes, priceOf) then multiset(products)[x] else 0
  {
    forall x
      ensures AttributesAdmit(x, query, i + 1, sizes, priceOf) <==>
        AttributesAdmit(x, query, i, sizes, priceOf) &&
        (Get(query, FilterMapping[i]) == "" ||
         AttributeAdmits(x, FilterMapping[i], Get(query, FilterMapping[i]), sizes, priceOf))
    {
      AttributesAdmitStep(x, query, i, sizes, priceOf);
    }
  }

  lemma AllMappingKeys()
    ensures MappingKeys(|FilterMapping|) == {"color", "min_price", "max_price", "size"}
  {
    assert MappingKeys(1) == {"color"};
    assert MappingKeys(2) == {"color", "min_price"};
    assert MappingKeys(3) == {"color", "min_price", "max_price"};
  }

  /**
   * The `for param, filter_func in FILTER_MAPPING.items()` loop: each
   * non-empty parameter narrows the products (keeping their order), and
   * `filter_params` records each parameter's value, or "" for an empty one.
   * A price the field refuses stops the request.
   */
  method ApplyFilterMapping(products: seq<Product>, query: map<string, string>, sizes: seq<ProductSize>,
                            priceOf: string -> Option<int>, ghost order: Ordering)
    returns (r: Result<(seq<Product>, map<string, string>), CatalogError>)
    requires SortedBy(products, order)
    ensures r.Err? <==> BadPrice(query, "min_price", priceOf) || BadPrice(query, "max_price", priceOf)
    ensures r.Err? ==> r.error == InvalidPrice
    ensures r.Ok? ==>
      SortedBy(r.value.0, order) &&
      (forall x :: multiset(r.value.0)[x] ==
        if AttributesAdmit(x, query, |FilterMapping|, sizes, priceOf) then multiset(products)[x] else 0) &&
      r.value.1.Keys == {"color", "min_price", "max_price", "size"} &&
      (forall name :: name in r.value.1 ==> r.value.1[name] == Get(query, name))
  {
    var current := products;
    var filterParams: map<string, string> := map[];
    for i := 0 to |FilterMapping|
      invariant SortedBy(current, order)
      invariant forall x ::
        multiset(current)[x] == if AttributesAdmit(x, query, i, sizes, priceOf) then multiset(products)[x] else 0
      invariant forall k :: 0 <= k < i ==> !BadPrice(query, FilterMapping[k], priceOf)
      invariant filterParams.Keys == MappingKeys(i)
      invariant forall name :: name in filterParams ==> filterParams[name] == Get(query, name)
    {
      var param := FilterMapping[i];
      var value := Get(query, param);
      NarrowStep(current, products, query, i, sizes, priceOf);
      if value != "" {
        if (param == "min_price" || param == "max_price") && priceOf(value).None? {
          assert BadPrice(query, param, priceOf);
          return Err(InvalidPrice);
        }
        SelectKeepsOrder(current, Attribute(param, value), sizes, priceOf, order);
        current := Select(current, Attribute(param, value), sizes, priceOf);
        filterParams := filterParams[param := value];
      } else {
        filterParams := filterParams[param := ""];
      }
    }
    assert !BadPrice(query, FilterMapping[1], priceOf) && !BadPrice(query, FilterMapping[2], priceOf);
    AllMappingKeys();
    r := Ok((current, filterParams));
  }
}
