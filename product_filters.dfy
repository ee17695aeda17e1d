/** The product filter pipeline of components/filters/ProductFilters.tsx:
    the search/category/price filter chain, the category list offered for
    selection, and the query string that records the selection in the URL. */
module ProductFilters {
  import opened Strings
  import opened Records
  import opened Seqs
  import opened Catalog
  import opened FormEncoding

  // ---------------------------------------------------------------------
  // The filter chain

  /** The search filter: an empty query is off; otherwise the lower-cased
      title must contain the lower-cased query. */
  predicate SearchKeeps(search: string, p: Product)
  {
    search == "" || Includes(Lower(p.title), Lower(search))
  }

  /** The category filter: `"all"` is off; otherwise an exact match. */
  predicate CategoryKeeps(category: string, p: Product)
  {
    category == "all" || p.category == category
  }

  /** The price bucket a range value selects; any other value keeps every
      price. */
  predicate InPriceRange(price: real, range: string)
  {
    if range == "under-1000" then price < 1000.0
    else if range == "1000-5000" then 1000.0 <= price <= 5000.0
    else if range == "over-5000" then price > 5000.0
    else true
  }

  predicate PriceKeeps(range: string, p: Product)
  {
    range == "all" || InPriceRange(p.price, range)
  }

  /** A product survives the chain when every active filter accepts it. */
  predicate Keeps(search: string, category: string, range: string, p: Product)
  {
    SearchKeeps(search, p) && CategoryKeeps(category, p) && PriceKeeps(range, p)
  }

  function SearchFn(search: string): Product -> bool
  {
    (p: Product) => SearchKeeps(search, p)
  }

  function CategoryFn(category: string): Product -> bool
  {
    (p: Product) => CategoryKeeps(category, p)
  }

  function PriceFn(range: string): Product -> bool
  {
    (p: Product) => PriceKeeps(range, p)
  }

  function SearchCategoryFn(search: string, category: string): Product -> bool
  {
    (p: Product) => SearchKeeps(search, p) && CategoryKeeps(category, p)
  }

  function KeepFn(search: string, category: string, range: string): Product -> bool
  {
    (p: Product) => Keeps(search, category, range, p)
  }

  /** The filter effect: `filtered` starts as a copy of the products and each
      active filter narrows it in turn. The result is the products every
      active filter accepts, in their original order. */
  method FilterProducts(products: seq<Product>, search: string, category: string, range: string)
    returns (filtered: seq<Product>)
    ensures filtered == Filter(products, KeepFn(search, category, range))
    ensures forall p :: p in filtered <==> p in products && Keeps(search, category, range, p)
    ensures IsSubsequence(filtered, products)
  {
    filtered := products;
    if search != "" {
      filtered := Filter(filtered, SearchFn(search));
    } else {
      FilterAll(products, SearchFn(search));
    }
    assert filtered == Filter(products, SearchFn(search));
    ghost var stage1 := filtered;
    if category != "all" {
      filtered := Filter(filtered, CategoryFn(category));
    } else {
      FilterAll(stage1, CategoryFn(category));
    }
    FilterFuse(products, SearchFn(search), CategoryFn(category), SearchCategoryFn(search, category));
    assert filtered == Filter(products, SearchCategoryFn(search, category));
    ghost var stage2 := filtered;
    if range != "all" {
      filtered := Filter(filtered, PriceFn(range));
    } else {
      FilterAll(stage2, PriceFn(range));
    }
    FilterFuse(products, SearchCategoryFn(search, category), PriceFn(range), KeepFn(search, category, range));
    forall p ensures p in filtered <==> p in products && Keeps(search, category, range, p) {
      FilterMembers(products, KeepFn(search, category, range), p);
    }
    FilterIsSubsequence(products, KeepFn(search, category, range));
  }

  /** With no active filter every product is shown. */
  lemma NoFilterKeepsAll(products: seq<Product>)
    ensures Filter(products, KeepFn("", "all", "all")) == products
  {
    FilterAll(products, KeepFn("", "all", "all"));
  }

  /** A kept product's lower-cased title contains the lower-cased query at
      some position. */
  lemma SearchMatchPosition(search: string, p: Product)
    requires search != "" && SearchKeeps(search, p)
    ensures exists i | 0 <= i <= |p.title| :: Lower(search) <= Lower(p.title)[i..]
  {
    IncludesAt(Lower(p.title), Lower(search));
  }

  /** The search ignores ASCII case in the query. */
  lemma SearchIgnoresCase(search: string, p: Product)
    ensures SearchKeeps(search, p) <==> SearchKeeps(Lower(search), p)
  {
    LowerIdempotent(search);
  }

  /** The three named buckets cover every price and never overlap; a range
      value outside them keeps every price. */
  lemma PriceBucketsPartition(price: real, other: string)
    requires other != "under-1000" && other != "1000-5000" && other != "over-5000"
    ensures InPriceRange(price, "under-1000") || InPriceRange(price, "1000-5000") || InPriceRange(price, "over-5000")
    ensures !(InPriceRange(price, "under-1000") && InPriceRange(price, "1000-5000"))
    ensures !(InPriceRange(price, "under-1000") && InPriceRange(price, "over-5000"))
    ensures !(InPriceRange(price, "1000-5000") && InPriceRange(price, "over-5000"))
    ensures InPriceRange(price, other)
  {
  }

  // ---------------------------------------------------------------------
  // The category list

  predicate NoDups<T(==)>(s: seq<T>)
  {
    forall i, j | 0 <= i < j < |s| :: s[i] != s[j]
  }

  /** Ordered pair by adjacent pair, in the default sort order. */
  predicate Sorted(s: seq<string>)
  {
    forall i | 0 <= i < |s| - 1 :: StrLeq(s[i], s[i + 1])
  }

  /** `products.map((p) => p.category)`. */
  function CategoryList(products: seq<Product>): (r: seq<string>)
    ensures |r| == |products|
    ensures forall i | 0 <= i < |r| :: r[i] == products[i].category
  {
    seq(|products|, i requires 0 <= i < |products| => products[i].category)
  }

  /** `Array.from(new Set(s))`: each value at its first occurrence. */
  function Dedup(s: seq<string>): (r: seq<string>)
    ensures NoDups(r)
    ensures forall x :: x in r <==> x in s
  {
    if s == [] then []
    else
      var r := Dedup(s[..|s| - 1]);
      assert forall x | x in s[..|s| - 1] :: x in s;
      assert s == s[..|s| - 1] + [s[|s| - 1]];
      if s[|s| - 1] in r then r else r + [s[|s| - 1]]
  }

  /** x put in place in a sorted list. */
  function Insert(x: string, s: seq<string>): (r: seq<string>)
    requires Sorted(s)
    ensures Sorted(r)
    ensures multiset(r) == multiset(s) + multiset{x}
    ensures r[0] == x || (s != [] && r[0] == s[0])
  {
    if s == [] || StrLeq(x, s[0]) then [x] + s
    else
      StrLeqTotal(x, s[0]);
      var tail := Insert(x, s[1..]);
      assert s == [s[0]] + s[1..];
      [s[0]] + tail
  }

  /** `array.sort()` on strings. */
  function SortStrings(s: seq<string>): (r: seq<string>)
    ensures Sorted(r)
    ensures multiset(r) == multiset(s)
  {
    if s == [] then []
    else
      assert s == [s[0]] + s[1..];
      Insert(s[0], SortStrings(s[1..]))
  }

  /** The `categories` memo: the distinct product categories, sorted. */
  function Categories(products: seq<Product>): (r: seq<string>)
    ensures Sorted(r) && NoDups(r)
    ensures forall c :: c in r <==> exists i | 0 <= i < |products| :: products[i].category == c
  {
    var unique := Dedup(CategoryList(products));
    var r := SortStrings(unique);
    PermutationKeepsNoDups(unique, r);
    assert forall c :: c in r <==> c in unique by {
      forall c ensures c in r <==> c in unique {
        assert c in r <==> c in multiset(r);
        assert c in unique <==> c in multiset(unique);
      }
    }
    r
  }

  /** Sorted by adjacent pairs means sorted throughout. */
  lemma {:induction false} SortedPairwise(s: seq<string>)
    requires Sorted(s)
    ensures forall i, j | 0 <= i < j < |s| :: StrLeq(s[i], s[j])
  {
    if |s| > 1 {
      SortedPairwise(s[1..]);
      forall j | 1 < j < |s| ensures StrLeq(s[0], s[j]) {
        assert s[1..][j - 1] == s[j];
        StrLeqTransitive(s[0], s[1], s[j]);
      }
      forall i, j | 0 <= i < j < |s| ensures StrLeq(s[i], s[j]) {
        if i > 0 {
          assert s[1..][i - 1] == s[i] && s[1..][j - 1] == s[j];
        }
      }
    }
  }

  /** A sorted list without repeats is strictly increasing. */
  lemma StrictlyIncreasing(s: seq<string>)
    requires Sorted(s) && NoDups(s)
    ensures forall i, j | 0 <= i < j < |s| :: StrLeq(s[i], s[j]) && !StrLeq(s[j], s[i])
  {
    SortedPairwise(s);
    forall i, j | 0 <= i < j < |s| ensures !StrLeq(s[j], s[i]) {
      if StrLeq(s[j], s[i]) {
        StrLeqAntisymmetric(s[i], s[j]);
      }
    }
  }

  /** A list without repeats holds each value at most once. */
  lemma {:induction false} NoDupsCount<T>(s: seq<T>, x: T)
    requires NoDups(s)
    ensures multiset(s)[x] <= 1
  {
    if s != [] {
      NoDupsCount(s[1..], x);
      assert s == [s[0]] + s[1..];
      if s[0] == x {
        assert x !in s[1..] by {
          forall k | 0 <= k < |s[1..]| ensures s[1..][k] != x {
            assert s[1..][k] == s[k + 1];
          }
        }
      }
    }
  }

  /** Reordering keeps a list free of repeats. */
  lemma PermutationKeepsNoDups<T>(a: seq<T>, b: seq<T>)
    requires NoDups(a) && multiset(a) == multiset(b)
    ensures NoDups(b)
  {
    forall i, j | 0 <= i < j < |b| ensures b[i] != b[j] {
      assert b == b[..j] + [b[j]] + b[j + 1..];
      assert b[i] in b[..j];
      NoDupsCount(a, b[j]);
    }
  }

  // ---------------------------------------------------------------------
  // The URL

  /** The pairs the URL effect sets, in order. */
  function QueryParams(search: string, category: string, range: string): seq<Param>
  {
    (if search != "" then [("search", search)] else [])
    + (if category != "all" then [("category", category)] else [])
    + (if range != "all" then [("priceRange", range)] else [])
  }

  /** The URL effect: a fresh URLSearchParams gets `set` for each active
      filter; the new URL is `?` and the serialized list, or `/` when the
      list serializes to nothing. */
  method BuildQuery(search: string, category: string, range: string) returns (url: string)
    ensures url == (if QueryParams(search, category, range) == [] then "/"
                    else "?" + Serialize(QueryParams(search, category, range)))
    ensures url == "/" <==> search == "" && category == "all" && range == "all"
  {
    var params: seq<Param> := [];
    if search != "" {
      params := Put(params, "search", search);
    }
    if category != "all" {
      assert !HasKey(params, "category");
      params := Put(params, "category", category);
    }
    if range != "all" {
      assert !HasKey(params, "priceRange");
      params := Put(params, "priceRange", range);
    }
    assert params == QueryParams(search, category, range);
    var query := Serialize(params);
    url := if query != "" then "?" + query else "/";
  }

  /** `searchParams.get(name) || fallback`: a missing or empty value reads as
      the fallback. */
  function ParamOr(params: seq<Param>, name: string, fallback: string): (r: string)
    ensures Lookup(params, name).Some? && Lookup(params, name).value != "" ==> r == Lookup(params, name).value
    ensures Lookup(params, name).None? || Lookup(params, name) == Some("") ==> r == fallback
  {
    match Lookup(params, name)
    case Some(v) => if v == "" then fallback else v
    case None => fallback
  }

  /** The query part of a URL the effect produced. */
  function QueryOf(url: string): string
  {
    if url != [] && url[0] == '?' then url[1..] else ""
  }

  /** The filter state the component starts from when loaded at url. */
  function InitialState(url: string): (string, string, string)
  {
    var params := Parse(QueryOf(url));
    (ParamOr(params, "search", ""), ParamOr(params, "category", "all"), ParamOr(params, "priceRange", "all"))
  }

  /** Reading the pairs back with the component's fallbacks gives the
      selection, when the category and range are not empty. */
  lemma ReadParams(search: string, category: string, range: string)
    requires category != "" && range != ""
    ensures var params := QueryParams(search, category, range);
      (ParamOr(params, "search", ""), ParamOr(params, "category", "all"), ParamOr(params, "priceRange", "all"))
        == (search, category, range)
  {
    var s := if search != "" then [("search", search)] else [];
    var c := if category != "all" then [("category", category)] else [];
    var r := if range != "all" then [("priceRange", range)] else [];
    var params := s + c + r;
    assert QueryParams(search, category, range) == params;
    assert "search" != "category" && "search" != "priceRange" && "category" != "priceRange";
    forall i | 0 <= i < |params|
      ensures params[i] == (if i < |s| then ("search", search)
                            else if i < |s| + |c| then ("category", category)
                            else ("priceRange", range))
    {
    }
    if search != "" {
      assert params[0] == ("search", search);
    }
    if category != "all" {
      assert params[|s|] == ("category", category);
      LookupEntry(params, |s|);
    }
    if range != "all" {
      assert params[|s| + |c|] == ("priceRange", range);
      LookupEntry(params, |s| + |c|);
    }
  }

  /** Reloading at the URL the effect wrote restores the selection, for ASCII
      values and a non-empty category and range. */
  lemma UrlRoundTrip(search: string, category: string, range: string)
    requires Ascii(search) && Ascii(category) && Ascii(range)
    requires category != "" && range != ""
    ensures var params := QueryParams(search, category, range);
      var url := if params == [] then "/" else "?" + Serialize(params);
      InitialState(url) == (search, category, range)
  {
    var params := QueryParams(search, category, range);
    var url := if params == [] then "/" else "?" + Serialize(params);
    QueryParamsAscii(search, category, range);
    ParseSerialize(params);
    assert QueryOf(url) == Serialize(params);
    ReadParams(search, category, range);
  }

  lemma QueryParamsAscii(search: string, category: string, range: string)
    requires Ascii(search) && Ascii(category) && Ascii(range)
    ensures var params := QueryParams(search, category, range);
      forall i | 0 <= i < |params| :: Ascii(params[i].0) && Ascii(params[i].1)
  {
    assert Ascii("search") && Ascii("category") && Ascii("priceRange");
  }

  /** An empty category is written to the URL but reads back as `"all"`. */
  lemma EmptyCategoryReadsAsAll()
    ensures QueryParams("", "", "all") == [("category", "")]
    ensures InitialState("?" + Serialize([("category", "")])).1 == "all"
  {
    assert Ascii("category") && Ascii("");
    ParseSerialize([("category", "")]);
    assert QueryOf("?" + Serialize([("category", "")])) == Serialize([("category", "")]);
  }
}
