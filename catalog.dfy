/**
 * The catalog query of src/api/api.ts: the URL that `fetchProducts` requests,
 * and the client-side refinement it applies to the response (search filter,
 * then `sortProducts`).
 *
 * `fetch` is a function `catalog` from URL to product list; `toLowerCase` and
 * `localeCompare` are function parameters about which nothing is assumed,
 * except that the name orderings are proved under the hypothesis that
 * `localeCompare(a, b) <= 0` is a total preorder.
 */
module Catalog {
  import opened Types
  import opened Builtins

  const ApiUrl: string := "https://api.escuelajs.co/api/v1"
  const ProductsUrl: string := ApiUrl + "/products"

  // ---------------------------------------------------------------------------
  // Numbers as template literals print them

  function DigitChar(d: int): (c: char)
    requires 0 <= d < 10
    ensures '0' <= c <= '9' && c as int - '0' as int == d
  {
    ('0' as int + d) as char
  }

  /** `${n}` for a natural number: its decimal numeral, without leading zeros. */
  function DecimalText(n: nat): (r: string)
    ensures |r| >= 1
    ensures forall i | 0 <= i < |r| :: '0' <= r[i] <= '9'
    ensures |r| > 1 ==> r[0] != '0'
  {
    if n < 10 then [DigitChar(n)] else DecimalText(n / 10) + [DigitChar(n % 10)]
  }

  /** Reads a numeral back: the partner of DecimalText. */
  function DecimalValue(s: string): int
  {
    if s == [] then 0 else DecimalValue(s[..|s| - 1]) * 10 + (s[|s| - 1] as int - '0' as int)
  }

  lemma {:induction false} DecimalRoundTrip(n: nat)
    ensures DecimalValue(DecimalText(n)) == n
  {
    if n >= 10 {
      DecimalRoundTrip(n / 10);
      var s := DecimalText(n);
      assert s[..|s| - 1] == DecimalText(n / 10);
    }
  }

  /** The characters a printed number may use. */
  predicate NumeralChar(c: char)
  {
    c == '-' || c == '.' || '0' <= c <= '9'
  }

  /** `${n}` for an integer. */
  function IntText(n: int): (r: string)
    ensures forall i | 0 <= i < |r| :: r[i] == '-' || '0' <= r[i] <= '9'
    ensures forall i | 0 <= i < |r| :: NumeralChar(r[i])
    ensures n >= 0 ==> DecimalValue(r) == n
    ensures n < 0 ==> |r| >= 2 && r[0] == '-' && DecimalValue(r[1..]) == -n
  {
    if n < 0 then
      var digits := DecimalText(-n);
      DecimalRoundTrip(-n);
      assert ("-" + digits)[1..] == digits;
      "-" + digits
    else
      DecimalRoundTrip(n);
      DecimalText(n)
  }

  /**
   * `${x}` for the amount `x` whose value in cents is `cents`: the whole part,
   * then a point and the cents with trailing zeros dropped, if any are left.
   */
  function CentsText(cents: int): (r: string)
    ensures forall i | 0 <= i < |r| :: NumeralChar(r[i])
    ensures cents < 0 <==> |r| > 0 && r[0] == '-'
    ensures cents >= 0 && cents % 100 == 0 ==> r == DecimalText(cents / 100)
  {
    var a := if cents < 0 then -cents else cents;
    (if cents < 0 then "-" else "") + DecimalText(a / 100) + FractionText(a % 100)
  }

  /** The fraction of a cents amount as printed: "", ".d" or ".dd", with trailing zeros dropped. */
  function FractionText(frac: int): (r: string)
    requires 0 <= frac < 100
    ensures forall i | 0 <= i < |r| :: NumeralChar(r[i])
    ensures frac == 0 <==> r == ""
    ensures r != "" ==> r[0] == '.' && 2 <= |r| <= 3
  {
    if frac == 0 then ""
    else if frac % 10 == 0 then "." + [DigitChar(frac / 10)]
    else "." + [DigitChar(frac / 10), DigitChar(frac % 10)]
  }

  /** The position of the first '.' in `s`, or `|s|` when there is none. */
  function DotIndex(s: string): (k: nat)
    ensures k <= |s|
    ensures forall i | 0 <= i < k :: s[i] != '.'
    ensures k < |s| ==> s[k] == '.'
  {
    if s == [] || s[0] == '.' then 0 else 1 + DotIndex(s[1..])
  }

  /** The value in cents of a fraction's digits after the point: tenths, then hundredths. */
  function FractionValue(f: string): int
  {
    if f == [] then 0
    else if |f| == 1 then (f[0] as int - '0' as int) * 10
    else (f[0] as int - '0' as int) * 10 + (f[1] as int - '0' as int)
  }

  /** Reads an unsigned printed amount back as cents: whole part, then the fraction after the point. */
  function UnsignedValue(body: string): int
  {
    var k := DotIndex(body);
    DecimalValue(body[..k]) * 100 + (if k < |body| then FractionValue(body[k + 1..]) else 0)
  }

  /** Reads a printed amount back as cents: the partner of CentsText. */
  function CentsValue(s: string): int
  {
    if |s| > 0 && s[0] == '-' then -UnsignedValue(s[1..]) else UnsignedValue(s)
  }

  lemma {:induction false} DotIndexAfterDigits(d: string, f: string)
    requires forall i | 0 <= i < |d| :: '0' <= d[i] <= '9'
    requires f == [] || f[0] == '.'
    ensures DotIndex(d + f) == |d|
  {
    if d != [] {
      assert (d + f)[1..] == d[1..] + f;
      DotIndexAfterDigits(d[1..], f);
    }
  }

  lemma FractionRoundTrip(frac: int)
    requires 0 < frac < 100
    ensures FractionValue(FractionText(frac)[1..]) == frac
  {
  }

  lemma UnsignedRoundTrip(a: nat)
    ensures UnsignedValue(DecimalText(a / 100) + FractionText(a % 100)) == a
  {
    var digits, fraction := DecimalText(a / 100), FractionText(a % 100);
    var body := digits + fraction;
    DotIndexAfterDigits(digits, fraction);
    DecimalRoundTrip(a / 100);
    assert body[..|digits|] == digits;
    if a % 100 != 0 {
      assert body[|digits| + 1..] == fraction[1..];
      FractionRoundTrip(a % 100);
    }
  }

  /** Reading a printed amount back gives the amount. */
  lemma CentsRoundTrip(cents: int)
    ensures CentsValue(CentsText(cents)) == cents
  {
    var a := if cents < 0 then -cents else cents;
    var body := DecimalText(a / 100) + FractionText(a % 100);
    UnsignedRoundTrip(a);
    if cents < 0 {
      assert CentsText(cents) == "-" + body;
      assert ("-" + body)[1..] == body;
    } else {
      assert CentsText(cents) == body;
      assert body[0] != '-';
    }
  }

  // ---------------------------------------------------------------------------
  // The query string

  datatype QueryParam = QueryParam(key: string, value: string)
  {
    /** `key=value`, as the source writes each entry. */
    function Text(): string { key + "=" + value }
  }

  function Texts(params: seq<QueryParam>): seq<string>
  {
    Map(params, (p: QueryParam) => p.Text())
  }

  /** Where each key may stand: the source pushes them in this order. */
  function Rank(key: string): nat
  {
    if key == "offset" then 0
    else if key == "limit" then 1
    else if key == "categoryId" then 2
    else if key == "price_min" then 3
    else if key == "price_max" then 4
    else 5
  }

  predicate HasKey(params: seq<QueryParam>, key: string)
  {
    exists i | 0 <= i < |params| :: params[i].key == key
  }

  /** The keys appear in push order, each at most once. */
  predicate RanksIncrease(params: seq<QueryParam>)
  {
    forall i, j | 0 <= i < j < |params| :: Rank(params[i].key) < Rank(params[j].key)
  }

  /** Each of the five keys is the only string of its rank. */
  lemma RankIdentifiesKey(key: string)
    ensures Rank(key) == 0 <==> key == "offset"
    ensures Rank(key) == 1 <==> key == "limit"
    ensures Rank(key) == 2 <==> key == "categoryId"
    ensures Rank(key) == 3 <==> key == "price_min"
    ensures Rank(key) == 4 <==> key == "price_max"
    ensures Rank("search") == 5
  {
    assert "search"[0] != "offset"[0];
    assert "price_min"[8] != "price_max"[8];
  }

  lemma HasKeyPush(params: seq<QueryParam>, p: QueryParam, key: string)
    ensures HasKey(params + [p], key) <==> HasKey(params, key) || p.key == key
  {
    if HasKey(params, key) {
      var i :| 0 <= i < |params| && params[i].key == key;
      assert (params + [p])[i].key == key;
    }
    if p.key == key {
      assert (params + [p])[|params|].key == key;
    }
  }

  // JavaScript truthiness of the optional filter fields (0 and "" are falsy).

  /** `filter?.search` is truthy. */
  predicate HasSearch(filter: Option<ProductFilter>)
  {
    filter.Some? && filter.value.search.Some? && filter.value.search.value != ""
  }

  /** `filter?.categoryId` is truthy. */
  predicate HasCategory(filter: Option<ProductFilter>)
  {
    filter.Some? && filter.value.categoryId.Some? && filter.value.categoryId.value != 0
  }

  /** `filter?.priceRange?.min` is truthy. */
  predicate HasMinPrice(filter: Option<ProductFilter>)
  {
    filter.Some? && filter.value.priceRange.Some? && filter.value.priceRange.value.min != 0
  }

  /** `filter?.priceRange?.max` is truthy and not `Infinity`. */
  predicate HasMaxPrice(filter: Option<ProductFilter>)
  {
    && filter.Some? && filter.value.priceRange.Some?
    && filter.value.priceRange.value.max.Some? && filter.value.priceRange.value.max.value != 0
  }

  /** A parameter `fetchProducts` may push: a known key and a printed number. */
  predicate NumericParam(p: QueryParam)
  {
    Rank(p.key) < 5 && forall i | 0 <= i < |p.value| :: NumeralChar(p.value[i])
  }

  lemma NumericParamHasNoAmpersand(p: QueryParam)
    requires NumericParam(p)
    ensures '&' !in p.Text()
  {
    RankIdentifiesKey(p.key);
    assert '&' !in p.key;
    assert '&' !in p.value by {
      forall i | 0 <= i < |p.value| ensures p.value[i] != '&' {
        assert NumeralChar(p.value[i]);
      }
    }
    assert p.Text() == p.key + "=" + p.value;
  }

  /** The parameter list as `fetchProducts` builds it: offset and limit first, numeric values, keys in push order. */
  predicate Pushed(params: seq<QueryParam>)
  {
    && |params| >= 2
    && params[0] == QueryParam("offset", "0") && params[1] == QueryParam("limit", "50")
    && RanksIncrease(params)
    && forall i | 0 <= i < |params| :: NumericParam(params[i])
  }

  lemma PushKeepsPushed(params: seq<QueryParam>, p: QueryParam)
    requires Pushed(params) && NumericParam(p)
    requires Rank(params[|params| - 1].key) < Rank(p.key)
    ensures Pushed(params + [p])
  {
    var q := params + [p];
    forall i, j | 0 <= i < j < |q| ensures Rank(q[i].key) < Rank(q[j].key) {
      if j == |params| && i < |params| - 1 {
        assert Rank(params[i].key) < Rank(params[|params| - 1].key);
      }
    }
  }

  /** Whether the parameter of rank 2, 3 or 4 is pushed: its filter field is truthy. */
  predicate Wanted(filter: Option<ProductFilter>, rank: nat)
  {
    || (rank == 2 && HasCategory(filter))
    || (rank == 3 && HasMinPrice(filter))
    || (rank == 4 && HasMaxPrice(filter))
  }

  /** The parameter of rank 2, 3 or 4 that the filter asks for. */
  function ParamAt(filter: Option<ProductFilter>, rank: nat): QueryParam
    requires Wanted(filter, rank)
  {
    if rank == 2 then QueryParam("categoryId", IntText(filter.value.categoryId.value))
    else if rank == 3 then QueryParam("price_min", CentsText(filter.value.priceRange.value.min))
    else QueryParam("price_max", CentsText(filter.value.priceRange.value.max.value))
  }

  /** The parameter list once every push up to rank `k` has been considered. */
  predicate BuiltUpTo(params: seq<QueryParam>, filter: Option<ProductFilter>, k: nat)
  {
    && Pushed(params) && Rank(params[|params| - 1].key) <= k
    && (HasKey(params, "categoryId") <==> 2 <= k && HasCategory(filter))
    && (HasKey(params, "price_min") <==> 3 <= k && HasMinPrice(filter))
    && (HasKey(params, "price_max") <==> 4 <= k && HasMaxPrice(filter))
    && (2 <= k && HasCategory(filter) ==> ParamAt(filter, 2) in params)
    && (3 <= k && HasMinPrice(filter) ==> ParamAt(filter, 3) in params)
    && (4 <= k && HasMaxPrice(filter) ==> ParamAt(filter, 4) in params)
  }

  lemma BuildStart(filter: Option<ProductFilter>)
    ensures BuiltUpTo([QueryParam("offset", "0"), QueryParam("limit", "50")], filter, 1)
  {
    RankIdentifiesKey("offset");
    RankIdentifiesKey("limit");
    RankIdentifiesKey("categoryId");
    RankIdentifiesKey("price_min");
    RankIdentifiesKey("price_max");
  }

  lemma BuildStep(params: seq<QueryParam>, filter: Option<ProductFilter>, k: nat)
    requires 2 <= k <= 4 && BuiltUpTo(params, filter, k - 1)
    ensures BuiltUpTo(PushIfWanted(params, filter, k), filter, k)
  {
    RankIdentifiesKey("categoryId");
    RankIdentifiesKey("price_min");
    RankIdentifiesKey("price_max");
    if Wanted(filter, k) {
      var p := ParamAt(filter, k);
      assert Rank(p.key) == k;
      HasKeyPush(params, p, "categoryId");
      HasKeyPush(params, p, "price_min");
      HasKeyPush(params, p, "price_max");
      PushKeepsPushed(params, p);
    }
  }

  function PushIfWanted(params: seq<QueryParam>, filter: Option<ProductFilter>, k: nat): seq<QueryParam>
  {
    if Wanted(filter, k) then params + [ParamAt(filter, k)] else params
  }

  /** The three conditional pushes, in order, after offset and limit. */
  ghost function AllPushes(filter: Option<ProductFilter>): seq<QueryParam>
  {
    var base := [QueryParam("offset", "0"), QueryParam("limit", "50")];
    PushIfWanted(PushIfWanted(PushIfWanted(base, filter, 2), filter, 3), filter, 4)
  }

  lemma AllPushesBuilt(filter: Option<ProductFilter>)
    ensures BuiltUpTo(AllPushes(filter), filter, 4)
  {
    var base := [QueryParam("offset", "0"), QueryParam("limit", "50")];
    BuildStart(filter);
    BuildStep(base, filter, 2);
    var p2 := PushIfWanted(base, filter, 2);
    BuildStep(p2, filter, 3);
    var p3 := PushIfWanted(p2, filter, 3);
    BuildStep(p3, filter, 4);
  }

  /** The query string of numeric parameters splits back into its `key=value` entries. */
  lemma QuerySplitsBack(params: seq<QueryParam>)
    requires |params| >= 1
    requires forall i | 0 <= i < |params| :: NumericParam(params[i])
    ensures Split(Join(Texts(params), '&'), '&') == Texts(params)
  {
    var texts := Texts(params);
    forall i | 0 <= i < |texts| ensures '&' !in texts[i] {
      NumericParamHasNoAmpersand(params[i]);
    }
    SplitJoin(texts, '&');
  }

  /**
   * The parameters `fetchProducts` sends for `filter`: `offset=0` and
   * `limit=50` first, then keys in push order, each with a printed number;
   * never the search term; `categoryId`, `price_min` and `price_max` exactly
   * when their fields are truthy (a `max` of `Infinity` is absent), with their
   * printed values.
   */
  ghost predicate SentFor(filter: Option<ProductFilter>, params: seq<QueryParam>)
  {
    && |params| >= 2
    && params[0] == QueryParam("offset", "0") && params[1] == QueryParam("limit", "50")
    && RanksIncrease(params)
    && (forall i | 0 <= i < |params| :: NumericParam(params[i]) && params[i].key != "search")
    && (HasKey(params, "categoryId") <==> HasCategory(filter))
    && (HasKey(params, "price_min") <==> HasMinPrice(filter))
    && (HasKey(params, "price_max") <==> HasMaxPrice(filter))
    && (forall rank: nat | Wanted(filter, rank) :: ParamAt(filter, rank) in params)
  }

  /** The pushes of `fetchProducts` produce the parameters it is meant to send. */
  lemma AllPushesSent(filter: Option<ProductFilter>)
    ensures SentFor(filter, AllPushes(filter))
  {
    var params := AllPushes(filter);
    AllPushesBuilt(filter);
    RankIdentifiesKey("search");
    forall i | 0 <= i < |params| ensures params[i].key != "search" {
      assert Rank(params[i].key) < 5;
    }
    forall rank: nat | Wanted(filter, rank) ensures ParamAt(filter, rank) in params {
      assert 2 <= rank <= 4;
    }
  }

  /** The query part of the URL splits back into the `key=value` entries. */
  lemma UrlSplitsBack(params: seq<QueryParam>)
    requires |params| >= 1
    requires forall i | 0 <= i < |params| :: NumericParam(params[i])
    ensures var url := ProductsUrl + "?" + Join(Texts(params), '&');
      Split(url[|ProductsUrl| + 1..], '&') == Texts(params)
  {
    QuerySplitsBack(params);
    var query := Join(Texts(params), '&');
    assert (ProductsUrl + "?" + query)[|ProductsUrl + "?"|..] == query;
  }

  /**
   * The URL that `fetchProducts` requests: `offset=0` and `limit=50` always,
   * then the category and the price bounds when they are set. The search term
   * is never sent.
   */
  method BuildProductsUrl(filter: Option<ProductFilter>) returns (url: string, queryParams: seq<QueryParam>)
    ensures SentFor(filter, queryParams)
    ensures url == ProductsUrl + "?" + Join(Texts(queryParams), '&')
    ensures Split(url[|ProductsUrl| + 1..], '&') == Texts(queryParams)
  {
    url := ProductsUrl;
    queryParams := [];
    queryParams := queryParams + [QueryParam("offset", "0")];
    queryParams := queryParams + [QueryParam("limit", "50")];
    ghost var base := queryParams;
    assert base == [QueryParam("offset", "0"), QueryParam("limit", "50")];
    // `filter.search` adds no parameter: the term is applied to the response.
    if HasCategory(filter) {
      queryParams := queryParams + [QueryParam("categoryId", IntText(filter.value.categoryId.value))];
    }
    ghost var withCategory := queryParams;
    assert withCategory == PushIfWanted(base, filter, 2);
    if HasMinPrice(filter) {
      queryParams := queryParams + [QueryParam("price_min", CentsText(filter.value.priceRange.value.min))];
    }
    ghost var withMin := queryParams;
    assert withMin == PushIfWanted(withCategory, filter, 3);
    if HasMaxPrice(filter) {
      queryParams := queryParams + [QueryParam("price_max", CentsText(filter.value.priceRange.value.max.value))];
    }
    assert queryParams == PushIfWanted(withMin, filter, 4);
    AllPushesSent(filter);
    if |queryParams| > 0 {
      url := url + "?" + Join(Texts(queryParams), '&');
    }
    UrlSplitsBack(queryParams);
  }

  // ---------------------------------------------------------------------------
  // The search filter

  /** The lowercased title or the lowercased description contains `term`. */
  predicate Matches(product: Product, term: string, toLower: string -> string)
  {
    Includes(toLower(product.title), term) || Includes(toLower(product.description), term)
  }

  function MatchesTerm(term: string, toLower: string -> string): Product -> bool
  {
    (p: Product) => Matches(p, term, toLower)
  }

  /** The search term as the filter compares it: the filter's search text, lowercased. */
  function SearchTerm(filter: Option<ProductFilter>, toLower: string -> string): string
    requires HasSearch(filter)
  {
    toLower(filter.value.search.value)
  }

  /**
   * The client-side search: with a non-empty search term, the products whose
   * lowercased title or description contains the lowercased term; otherwise
   * the list unchanged.
   */
  function SearchFilter(products: seq<Product>, filter: Option<ProductFilter>, toLower: string -> string): (r: seq<Product>)
    ensures !HasSearch(filter) ==> r == products
    ensures HasSearch(filter) ==>
      forall i | 0 <= i < |r| :: Matches(r[i], SearchTerm(filter, toLower), toLower) && r[i] in products
  {
    if HasSearch(filter) && |products| > 0 then Filter(products, MatchesTerm(SearchTerm(filter, toLower), toLower))
    else products
  }

  /** The search keeps every occurrence of a matching product and drops every other product. */
  lemma {:induction false} SearchCounts(products: seq<Product>, filter: Option<ProductFilter>, toLower: string -> string, p: Product)
    requires HasSearch(filter)
    ensures multiset(SearchFilter(products, filter, toLower))[p] ==
      if Matches(p, SearchTerm(filter, toLower), toLower) then multiset(products)[p] else 0
  {
    if products != [] {
      FilterCounts(products, MatchesTerm(SearchTerm(filter, toLower), toLower), p);
    }
  }

  /** The search keeps input order: it filters each part of a concatenation separately. */
  lemma {:induction false} SearchKeepsOrder(a: seq<Product>, b: seq<Product>, filter: Option<ProductFilter>, toLower: string -> string)
    ensures SearchFilter(a + b, filter, toLower) == SearchFilter(a, filter, toLower) + SearchFilter(b, filter, toLower)
  {
    if HasSearch(filter) {
      var keep := MatchesTerm(SearchTerm(filter, toLower), toLower);
      FilterAppend(a, b, keep);
      if a == [] {
        assert a + b == b;
      }
      if b == [] {
        assert a + b == a;
      }
    }
  }

  /** Searching an already searched list changes nothing. */
  lemma {:induction false} SearchIdempotent(products: seq<Product>, filter: Option<ProductFilter>, toLower: string -> string)
    ensures SearchFilter(SearchFilter(products, filter, toLower), filter, toLower) == SearchFilter(products, filter, toLower)
  {
    if HasSearch(filter) {
      var r := SearchFilter(products, filter, toLower);
      FilterKeepsAll(r, MatchesTerm(SearchTerm(filter, toLower), toLower));
    }
  }

  // ---------------------------------------------------------------------------
  // sortProducts

  /** The price-asc comparator: the difference of the prices, first minus second. */
  function PriceAscending(a: Product, b: Product): (r: int)
    ensures r <= 0 <==> a.price <= b.price
    ensures r == 0 <==> a.price == b.price
  {
    a.price - b.price
  }

  /** The price-desc comparator: the difference of the prices, second minus first. */
  function PriceDescending(a: Product, b: Product): (r: int)
    ensures r <= 0 <==> b.price <= a.price
    ensures r == PriceAscending(b, a)
  {
    b.price - a.price
  }

  /** The name-asc comparator: `localeCompare` of the first title against the second. */
  function TitleAscending(localeCompare: (string, string) -> int): (cmp: (Product, Product) -> int)
    ensures forall a: Product, b: Product :: cmp(a, b) <= 0 <==> localeCompare(a.title, b.title) <= 0
  {
    (a: Product, b: Product) => localeCompare(a.title, b.title)
  }

  /** The name-desc comparator: `localeCompare` of the second title against the first. */
  function TitleDescending(localeCompare: (string, string) -> int): (cmp: (Product, Product) -> int)
    ensures forall a: Product, b: Product :: cmp(a, b) == TitleAscending(localeCompare)(b, a)
  {
    (a: Product, b: Product) => localeCompare(b.title, a.title)
  }

  /** The four `sortBy` strings that `sortProducts` recognises. */
  predicate IsSortKey(sortBy: string)
  {
    sortBy == "price-asc" || sortBy == "price-desc" || sortBy == "name-asc" || sortBy == "name-desc"
  }

  /** The comparator of each `case` of the switch. */
  function ComparatorFor(sortBy: string, localeCompare: (string, string) -> int): (Product, Product) -> int
    requires IsSortKey(sortBy)
  {
    if sortBy == "price-asc" then PriceAscending
    else if sortBy == "price-desc" then PriceDescending
    else if sortBy == "name-asc" then TitleAscending(localeCompare)
    else TitleDescending(localeCompare)
  }

  /**
   * `sortProducts`: a sorted copy for the four known keys, the list as it is
   * for any other string. Being a value, the input is never modified.
   */
  function SortProducts(products: seq<Product>, sortBy: string, localeCompare: (string, string) -> int): (r: seq<Product>)
    ensures multiset(r) == multiset(products)
    ensures !IsSortKey(sortBy) ==> r == products
  {
    if IsSortKey(sortBy) then
      var r := Sort(products, ComparatorFor(sortBy, localeCompare));
      assert multiset(r) == multiset(products) by {
        SortPermutes(products, ComparatorFor(sortBy, localeCompare));
      }
      r
    else products
  }

  /** Every comparator of the switch is a total preorder when `localeCompare` is one. */
  lemma ComparatorIsPreorder(sortBy: string, localeCompare: (string, string) -> int)
    requires IsSortKey(sortBy)
    requires sortBy == "name-asc" || sortBy == "name-desc" ==> TotalPreorder(localeCompare)
    ensures TotalPreorder(ComparatorFor(sortBy, localeCompare))
  {
    var cmp := ComparatorFor(sortBy, localeCompare);
    if sortBy == "name-asc" {
      forall a: Product, b: Product ensures cmp(a, b) <= 0 || cmp(b, a) <= 0 {
        assert localeCompare(a.title, b.title) <= 0 || localeCompare(b.title, a.title) <= 0;
      }
      forall a: Product, b: Product, c: Product | cmp(a, b) <= 0 && cmp(b, c) <= 0 ensures cmp(a, c) <= 0 {
        assert localeCompare(a.title, b.title) <= 0 && localeCompare(b.title, c.title) <= 0;
      }
    } else if sortBy == "name-desc" {
      forall a: Product, b: Product ensures cmp(a, b) <= 0 || cmp(b, a) <= 0 {
        assert localeCompare(b.title, a.title) <= 0 || localeCompare(a.title, b.title) <= 0;
      }
      forall a: Product, b: Product, c: Product | cmp(a, b) <= 0 && cmp(b, c) <= 0 ensures cmp(a, c) <= 0 {
        assert localeCompare(c.title, b.title) <= 0 && localeCompare(b.title, a.title) <= 0;
      }
    }
  }

  /** `price-asc` yields non-decreasing prices and `price-desc` non-increasing prices. */
  lemma SortProductsByPrice(products: seq<Product>, sortBy: string, localeCompare: (string, string) -> int)
    ensures var r := SortProducts(products, sortBy, localeCompare);
      && (sortBy == "price-asc" ==> forall i, j | 0 <= i < j < |r| :: r[i].price <= r[j].price)
      && (sortBy == "price-desc" ==> forall i, j | 0 <= i < j < |r| :: r[i].price >= r[j].price)
  {
    if sortBy == "price-asc" || sortBy == "price-desc" {
      ComparatorIsPreorder(sortBy, localeCompare);
      SortSorted(products, ComparatorFor(sortBy, localeCompare));
    }
  }

  /** `name-asc` orders titles by `localeCompare`, `name-desc` in the opposite direction. */
  lemma SortProductsByName(products: seq<Product>, sortBy: string, localeCompare: (string, string) -> int)
    requires TotalPreorder(localeCompare)
    ensures var r := SortProducts(products, sortBy, localeCompare);
      && (sortBy == "name-asc" ==> forall i, j | 0 <= i < j < |r| :: localeCompare(r[i].title, r[j].title) <= 0)
      && (sortBy == "name-desc" ==> forall i, j | 0 <= i < j < |r| :: localeCompare(r[j].title, r[i].title) <= 0)
  {
    if sortBy == "name-asc" || sortBy == "name-desc" {
      ComparatorIsPreorder(sortBy, localeCompare);
      SortSorted(products, ComparatorFor(sortBy, localeCompare));
    }
  }

  /** Ties keep their input order: the products level with `e` appear as they did in the input. */
  lemma SortProductsStable(products: seq<Product>, sortBy: string, localeCompare: (string, string) -> int, e: Product)
    requires IsSortKey(sortBy)
    requires sortBy == "name-asc" || sortBy == "name-desc" ==> TotalPreorder(localeCompare)
    ensures var cmp := ComparatorFor(sortBy, localeCompare);
      TiedWith(SortProducts(products, sortBy, localeCompare), e, cmp) == TiedWith(products, e, cmp)
  {
    ComparatorIsPreorder(sortBy, localeCompare);
    SortStable(products, e, ComparatorFor(sortBy, localeCompare));
  }

  /**
   * The price comparators are consistent by construction, and the name ones
   * are exactly when `localeCompare` is, so that for them the stable order is
   * the one every conforming sort gives.
   */
  lemma ComparatorsConsistent(localeCompare: (string, string) -> int)
    ensures Consistent(PriceAscending) && Consistent(PriceDescending)
    ensures (forall s, t :: (localeCompare(s, t) < 0 <==> localeCompare(t, s) > 0)
                            && (localeCompare(s, t) == 0 <==> localeCompare(t, s) == 0))
            ==> Consistent(TitleAscending(localeCompare)) && Consistent(TitleDescending(localeCompare))
  {
  }

  /** For the price keys, the products level with `e` are exactly those with `e`'s price. */
  lemma PriceTiesAreEqualPrices(e: Product, x: Product)
    ensures LevelWith(e, PriceAscending)(x) <==> x.price == e.price
    ensures LevelWith(e, PriceDescending)(x) <==> x.price == e.price
  {
    assert LevelWith(e, PriceAscending)(x) == (PriceAscending(x, e) <= 0 && PriceAscending(e, x) <= 0);
    assert LevelWith(e, PriceDescending)(x) == (PriceDescending(x, e) <= 0 && PriceDescending(e, x) <= 0);
  }

  // ---------------------------------------------------------------------------
  // fetchProducts

  /** The sort key `fetchProducts` applies, if `filter?.sortBy` is set. */
  predicate HasSortBy(filter: Option<ProductFilter>)
  {
    filter.Some? && filter.value.sortBy.Some?
  }

  /** What `fetchProducts` does to the response: search, then sort when asked to. */
  function Refine(products: seq<Product>, filter: Option<ProductFilter>, toLower: string -> string,
                  localeCompare: (string, string) -> int): (r: seq<Product>)
    ensures multiset(r) <= multiset(products)
    ensures HasSearch(filter) ==> forall i | 0 <= i < |r| :: Matches(r[i], SearchTerm(filter, toLower), toLower)
    ensures !HasSearch(filter) ==> multiset(r) == multiset(products)
    ensures !HasSearch(filter) && !HasSortBy(filter) ==> r == products
  {
    var searched := SearchFilter(products, filter, toLower);
    assert multiset(searched) <= multiset(products) by {
      if HasSearch(filter) {
        forall p ensures multiset(searched)[p] <= multiset(products)[p] {
          SearchCounts(products, filter, toLower, p);
        }
      }
    }
    if HasSortBy(filter) && |searched| > 0 then
      var r := SortProducts(searched, filter.value.sortBy.value.Key(), localeCompare);
      assert forall i | 0 <= i < |r| :: r[i] in multiset(searched);
      r
    else searched
  }

  /** Sorting a sorted list by the same key changes nothing. */
  lemma SortProductsIdempotent(products: seq<Product>, sortBy: string, localeCompare: (string, string) -> int)
    requires sortBy == "name-asc" || sortBy == "name-desc" ==> TotalPreorder(localeCompare)
    ensures SortProducts(SortProducts(products, sortBy, localeCompare), sortBy, localeCompare)
         == SortProducts(products, sortBy, localeCompare)
  {
    if IsSortKey(sortBy) {
      var cmp := ComparatorFor(sortBy, localeCompare);
      ComparatorIsPreorder(sortBy, localeCompare);
      SortSorted(products, cmp);
      SortOfSorted(Sort(products, cmp), cmp);
    }
  }

  /**
   * Nothing that matches is lost: under a search, every matching product of
   * the response is returned as often as it occurs, and nothing else is.
   */
  lemma RefineCounts(products: seq<Product>, filter: Option<ProductFilter>, toLower: string -> string,
                     localeCompare: (string, string) -> int, p: Product)
    ensures HasSearch(filter) ==>
      multiset(Refine(products, filter, toLower, localeCompare))[p] ==
      if Matches(p, SearchTerm(filter, toLower), toLower) then multiset(products)[p] else 0
  {
    if HasSearch(filter) {
      SearchCounts(products, filter, toLower, p);
    }
  }

  /** With a sort key, the refined list is ordered by that key's comparator. */
  lemma RefineSorted(products: seq<Product>, filter: Option<ProductFilter>, toLower: string -> string,
                     localeCompare: (string, string) -> int)
    requires HasSortBy(filter)
    requires NameSorted(filter) ==> TotalPreorder(localeCompare)
    ensures IsSortKey(filter.value.sortBy.value.Key())
    ensures SortedBy(Refine(products, filter, toLower, localeCompare),
                     ComparatorFor(filter.value.sortBy.value.Key(), localeCompare))
  {
    var key := filter.value.sortBy.value.Key();
    var searched := SearchFilter(products, filter, toLower);
    if |searched| > 0 {
      ComparatorIsPreorder(key, localeCompare);
      SortSorted(searched, ComparatorFor(key, localeCompare));
    }
  }

  /** Every product of a refined list passes the search. */
  lemma RefinedPassesSearch(products: seq<Product>, filter: Option<ProductFilter>, toLower: string -> string,
                            localeCompare: (string, string) -> int)
    ensures var r := Refine(products, filter, toLower, localeCompare);
      SearchFilter(r, filter, toLower) == r
  {
    var r := Refine(products, filter, toLower, localeCompare);
    if HasSearch(filter) {
      FilterKeepsAll(r, MatchesTerm(SearchTerm(filter, toLower), toLower));
    }
  }

  /** The filter asks for one of the two name sorts. */
  predicate NameSorted(filter: Option<ProductFilter>)
  {
    HasSortBy(filter) && (filter.value.sortBy.value.Key() == "name-asc" || filter.value.sortBy.value.Key() == "name-desc")
  }

  /** Refining a refined list changes nothing. */
  lemma RefineIdempotent(products: seq<Product>, filter: Option<ProductFilter>, toLower: string -> string,
                         localeCompare: (string, string) -> int)
    requires NameSorted(filter) ==> TotalPreorder(localeCompare)
    ensures Refine(Refine(products, filter, toLower, localeCompare), filter, toLower, localeCompare)
         == Refine(products, filter, toLower, localeCompare)
  {
    var r := Refine(products, filter, toLower, localeCompare);
    RefinedPassesSearch(products, filter, toLower, localeCompare);
    if HasSortBy(filter) && |r| > 0 {
      var key := filter.value.sortBy.value.Key();
      var searched := SearchFilter(products, filter, toLower);
      assert |searched| > 0;
      assert r == SortProducts(searched, key, localeCompare);
      SortProductsIdempotent(searched, key, localeCompare);
    }
  }

  /**
   * `fetchProducts(filter)`: request the URL, then refine the response.
   * `requested` is the URL the request was sent to.
   * `catalog` stands for the HTTP request: `None` when it fails or the
   * response is not `ok` (the source throws), otherwise the parsed body.
   */
  method FetchProducts(filter: Option<ProductFilter>, catalog: string -> Option<seq<Product>>,
                       toLower: string -> string, localeCompare: (string, string) -> int)
    returns (result: Option<seq<Product>>, requested: string)
    ensures exists params :: SentFor(filter, params) && requested == ProductsUrl + "?" + Join(Texts(params), '&')
    ensures result.None? <==> catalog(requested).None?
    ensures result.Some? ==> result.value == Refine(catalog(requested).value, filter, toLower, localeCompare)
  {
    var url, queryParams := BuildProductsUrl(filter);
    requested := url;
    var response := catalog(url);
    if response.None? {
      return None, requested;
    }
    var products := response.value;
    if HasSearch(filter) && |products| > 0 {
      products := Filter(products, MatchesTerm(SearchTerm(filter, toLower), toLower));
    }
    if HasSortBy(filter) && |products| > 0 {
      products := SortProducts(products, filter.value.sortBy.value.Key(), localeCompare);
    }
    result := Some(products);
  }
}
