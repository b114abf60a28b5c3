/** The product catalogue's search and ordering: the keyword filter of the search request
    and the numeric orderings of the product list. */
module Catalog {
  import opened Base
  import opened Seqs
  import opened Text

  /** A product as the catalogue pages use it. Prices are whole cents. `starRating` is
      `reviews?.starRating`, absent when the product has no reviews object; `reviewCount`
      is the number of its reviews. */
  datatype Product = Product(
    id: string,
    name: string,
    currentPrice: nat,
    previousPrice: Option<nat>,
    category: string,
    starRating: Option<real>,
    reviewCount: nat)

  // ---------------------------------------------------------------------------
  // keyword search
  // ---------------------------------------------------------------------------

  /** `query.toLowerCase().split(" ")`. */
  function SearchTerms(query: string): (r: seq<string>)
    ensures |r| >= 1
  {
    Split(LowerString(query), ' ')
  }

  /** The texts a term is looked for in: the lower-cased name, the current price, and the
      previous price when the product has one. */
  function SearchFields(p: Product): (r: seq<string>)
    ensures |r| == if p.previousPrice.Some? then 3 else 2
    ensures r[0] == LowerString(p.name) && r[1] == PriceText(p.currentPrice)
    ensures p.previousPrice.Some? ==> r[2] == PriceText(p.previousPrice.value)
  {
    [LowerString(p.name), PriceText(p.currentPrice)] +
      match p.previousPrice
      case Some(q) => [PriceText(q)]
      case None => []
  }

  /** Every term occurs in at least one of the product's search fields. */
  predicate MatchesQuery(p: Product, query: string)
  {
    var fields := SearchFields(p);
    forall t :: t in SearchTerms(query) ==> exists f :: f in fields && Contains(f, t)
  }

  /** `t` occurs somewhere in `s`. */
  ghost predicate Occurs(t: string, s: string)
  {
    exists i :: OccursAt(t, s, i)
  }

  /** The search predicate, stated field by field with substring occurrence. */
  ghost predicate MatchesQueryByFields(p: Product, query: string)
  {
    forall t :: t in SearchTerms(query) ==>
      || Occurs(t, LowerString(p.name))
      || Occurs(t, PriceText(p.currentPrice))
      || (p.previousPrice.Some? && Occurs(t, PriceText(p.previousPrice.value)))
  }

  /** The search predicate agrees with its field-by-field statement. */
  lemma MatchesQueryIff(p: Product, query: string)
    ensures MatchesQuery(p, query) <==> MatchesQueryByFields(p, query)
  {
    var fields := SearchFields(p);
    forall t | t in SearchTerms(query)
      ensures (exists f :: f in fields && Contains(f, t)) <==>
        || Occurs(t, LowerString(p.name))
        || Occurs(t, PriceText(p.currentPrice))
        || (p.previousPrice.Some? && Occurs(t, PriceText(p.previousPrice.value)))
    {
      forall f | f in fields
        ensures Contains(f, t) <==> Occurs(t, f)
      {
        ContainsIffOccurs(f, t);
      }
      assert fields[0] in fields && fields[1] in fields;
      if p.previousPrice.Some? {
        assert fields[2] in fields;
      }
    }
  }

  /** An empty term (from an empty query, or from two adjacent spaces) matches every
      product; in particular the empty query matches everything. */
  lemma EmptyTermMatches(p: Product)
    ensures exists f :: f in SearchFields(p) && Contains(f, "")
    ensures MatchesQuery(p, "")
  {
    var fields := SearchFields(p);
    ContainsEmpty(fields[0]);
    assert fields[0] in fields;
    assert SearchTerms("") == [""];
  }

  function Matcher(query: string): Product -> bool
  {
    p => MatchesQuery(p, query)
  }

  /** The products the search keeps, in catalogue order. */
  function Search(products: seq<Product>, query: string): (r: seq<Product>)
    ensures |r| <= |products|
    ensures forall i :: 0 <= i < |r| ==> MatchesQuery(r[i], query)
  {
    Filter(products, Matcher(query))
  }

  /** The search keeps exactly the matching products, and keeps them in their order. */
  lemma SearchKeepsExactlyMatches(products: seq<Product>, query: string) returns (idx: seq<int>)
    ensures Enumerates(idx, products, Search(products, query), Matcher(query))
  {
    idx := FilterEnumerates(products, Matcher(query));
  }

  /** The empty query keeps the whole catalogue. */
  lemma EmptySearchKeepsAll(products: seq<Product>)
    ensures Search(products, "") == products
  {
    forall i | 0 <= i < |products|
      ensures Matcher("")(products[i])
    {
      EmptyTermMatches(products[i]);
    }
    FilterAllMatch(products, Matcher(""));
  }

  /** Some product has no previous price. */
  predicate SomeLackPreviousPrice(products: seq<Product>)
  {
    exists p :: p in products && p.previousPrice.None?
  }

  /** The search request as written: building the field list reads the previous price's
      text unconditionally, so one product without a previous price makes the request
      fail with a type error, whatever the query. */
  function SearchAsWritten(products: seq<Product>, query: string): (r: Result<seq<Product>>)
    ensures r.Err? <==> SomeLackPreviousPrice(products)
    ensures r.Ok? ==> r.value == Search(products, query)
  {
    if SomeLackPreviousPrice(products) then
      Err("TypeError: Cannot read properties of undefined (reading 'toString')")
    else Ok(Search(products, query))
  }

  /** A product saved without a previous price: the search that skips the missing field
      finds it for the empty query, while the search as written fails. */
  lemma MissingPreviousPriceBreaksSearch(p: Product)
    requires p.previousPrice.None?
    ensures Search([p], "") == [p]
    ensures SearchAsWritten([p], "").Err?
  {
    EmptySearchKeepsAll([p]);
    assert p in [p];
  }

  // ---------------------------------------------------------------------------
  // numeric orderings
  // ---------------------------------------------------------------------------

  /** The criteria whose comparator is numeric. */
  datatype SortCriteria = Low | High | Rating | Unrecognised

  /** `reviews?.starRating || 0`. */
  function RatingOf(p: Product): real
  {
    match p.starRating
    case Some(x) => x
    case None => 0.0
  }

  /** The key each criterion sorts ascending on: price for "low", and the negated price
      and rating for the two descending orders. */
  function SortKey(c: SortCriteria): Product -> real
  {
    match c
    case Low => (p: Product) => p.currentPrice as real
    case High => (p: Product) => -(p.currentPrice as real)
    case Rating => p => -RatingOf(p)
    case Unrecognised => p => 0.0
  }

  /** `sortProducts`: a sorted copy; an unrecognised criterion returns the copy as it is. */
  function SortProducts(products: seq<Product>, c: SortCriteria): (r: seq<Product>)
    ensures |r| == |products| && multiset(r) == multiset(products)
    ensures c == Low ==> forall i, j :: 0 <= i < j < |r| ==> r[i].currentPrice <= r[j].currentPrice
    ensures c == High ==> forall i, j :: 0 <= i < j < |r| ==> r[i].currentPrice >= r[j].currentPrice
    ensures c == Rating ==> forall i, j :: 0 <= i < j < |r| ==> RatingOf(r[i]) >= RatingOf(r[j])
    ensures c == Unrecognised ==> r == products
  {
    if c == Unrecognised then products
    else
      var r := SortBy(products, SortKey(c));
      assert forall i, j :: 0 <= i < j < |r| ==> SortKey(c)(r[i]) <= SortKey(c)(r[j]);
      r
  }

  /** Products that tie under the criterion keep their catalogue order. */
  lemma SortProductsStable(products: seq<Product>, c: SortCriteria, k: real)
    ensures Filter(SortProducts(products, c), HasKey(SortKey(c), k)) ==
      Filter(products, HasKey(SortKey(c), k))
  {
    if c != Unrecognised {
      SortByStable(products, SortKey(c), k);
    }
  }

  /** Sorting a list that is already in order leaves it as it is. */
  lemma SortProductsOrderedIsIdentity(products: seq<Product>, c: SortCriteria)
    requires SortedBy(products, SortKey(c))
    ensures SortProducts(products, c) == products
  {
    if c != Unrecognised {
      SortBySortedIsIdentity(products, SortKey(c));
    }
  }
}
