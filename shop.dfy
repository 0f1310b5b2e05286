/** `src/routes/shop/+page.ts`: the shop page lists the products whose name contains
    the `search` parameter, ignoring case. */
module Shop {
  import opened Common
  import opened Strings

  /** A product as the page sees it (`price` arrives as a string). */
  datatype Listing = Listing(name: string, description: string, image: Option<string>, price: Option<string>)

  /** What `load` returns. */
  datatype ShopPage = ShopPage(products: seq<Listing>, searchQuery: string)

  /** `url.searchParams.get("search")?.toLowerCase() || ""`. */
  function SearchQuery(search: Option<string>): string {
    if search.Some? then Lower(search.value) else ""
  }

  /** `product.name.toLowerCase().includes(searchQuery)`. */
  predicate Matches(p: Listing, query: string) {
    Includes(Lower(p.name), query)
  }

  /** `products.filter(...)`, keeping the order. */
  function FilterByName(products: seq<Listing>, query: string): (r: seq<Listing>)
    ensures |r| <= |products|
    ensures forall p :: p in r <==> p in products && Matches(p, query)
  {
    if products == [] then []
    else (if Matches(products[0], query) then [products[0]] else []) + FilterByName(products[1..], query)
  }

  /** `load`, given the products `/api/products` answered with: the page lists some of
      them, and reports the search lower-cased. */
  function Load(search: Option<string>, products: seq<Listing>): (r: ShopPage)
    ensures |r.products| <= |products| && forall p :: p in r.products ==> p in products
    ensures search.None? ==> r == ShopPage(products, "")
    ensures search.Some? ==> r.searchQuery == Lower(search.value)
  {
    var query := SearchQuery(search);
    ShopPage(if query != "" then FilterByName(products, query) else products, query)
  }

  // ---------------------------------------------------------------- properties

  lemma LowerIdempotent(s: string)
    ensures Lower(Lower(s)) == Lower(s)
  {
  }

  /** The query the page reports is already lower case, and a query's case does not
      change the page. */
  lemma LoadIgnoresQueryCase(search: string, products: seq<Listing>)
    ensures Lower(Load(Some(search), products).searchQuery) == Load(Some(search), products).searchQuery
    ensures Load(Some(search), products) == Load(Some(Lower(search)), products)
  {
    LowerIdempotent(search);
  }

  /** The empty query occurs in every name, so filtering with it changes nothing: the
      page's `searchQuery ?` guard only saves work. */
  lemma {:induction false} EmptyQueryKeepsAll(products: seq<Listing>)
    ensures FilterByName(products, "") == products
  {
    if products != [] {
      assert OccursAt(Lower(products[0].name), "", 0);
      EmptyQueryKeepsAll(products[1..]);
    }
  }

  /** The page lists exactly the products whose lower-cased name contains the query, as
      often as they were listed, in their original order. */
  lemma {:induction false} LoadIsFilter(search: Option<string>, products: seq<Listing>)
    ensures Load(search, products).products == FilterByName(products, SearchQuery(search))
    ensures forall p :: p in Load(search, products).products
                        <==> p in products && Includes(Lower(p.name), SearchQuery(search))
  {
    if SearchQuery(search) == "" {
      EmptyQueryKeepsAll(products);
    }
  }

  /** Filtering distributes over concatenation, so the relative order of the kept
      products is their order in the input. */
  lemma {:induction false} FilterAppend(a: seq<Listing>, b: seq<Listing>, query: string)
    ensures FilterByName(a + b, query) == FilterByName(a, query) + FilterByName(b, query)
  {
    if a != [] {
      assert (a + b)[1..] == a[1..] + b;
      FilterAppend(a[1..], b, query);
    } else {
      assert a + b == b;
    }
  }

  /** Each kept product occurs as often as in the input. */
  lemma {:induction false} FilterCounts(products: seq<Listing>, query: string)
    ensures forall p :: multiset(FilterByName(products, query))[p]
                        == if Matches(p, query) then multiset(products)[p] else 0
  {
    if products != [] {
      FilterCounts(products[1..], query);
      assert products == [products[0]] + products[1..];
      assert multiset(products) == multiset{products[0]} + multiset(products[1..]);
    }
  }

  /** Searching the result again with the same query changes nothing. */
  lemma {:induction false} FilterIdempotent(products: seq<Listing>, query: string)
    ensures FilterByName(FilterByName(products, query), query) == FilterByName(products, query)
  {
    if products != [] {
      FilterIdempotent(products[1..], query);
      var head := if Matches(products[0], query) then [products[0]] else [];
      FilterAppend(head, FilterByName(products[1..], query), query);
      if Matches(products[0], query) {
        assert FilterByName(head, query) == head by {
          assert head[1..] == [];
        }
      }
    }
  }
}
