/** The category page: the category named in the route, and the products it lists — those
    of that category, within the price limit, whose name contains the search text — in the
    chosen order. */
module CategoryPage {
  import opened Base
  import opened Seqs
  import opened Text
  import opened CategoryStore
  import opened Catalog

  /** `currentCategory`: the first category whose id is the route's category id. */
  function CurrentCategory(categories: seq<Category>, categoryId: string): (r: Option<Category>)
    ensures r.Some? ==> r.value.id == categoryId && r.value in categories
    ensures r.Some? ==> exists i ::
      && 0 <= i < |categories| && categories[i] == r.value
      && forall j :: 0 <= j < i ==> categories[j].id != categoryId
    ensures r.None? <==> forall c :: c in categories ==> c.id != categoryId
  {
    var r := FindCategory(categories, categoryId);
    assert r.Some? ==> categories[FindCategoryIndex(categories, categoryId).value] == r.value;
    r
  }

  /** The orders the page offers, apart from the alphabetical one. */
  datatype SortOption = PriceAsc | PriceDesc | RatingDesc

  /** A product the page lists. Prices and `priceRange` are both in cents, so the page's
      default limit of 500 on its slider is `50000` here. */
  predicate Listed(p: Product, categoryId: string, query: string, priceRange: int)
  {
    && p.category == categoryId
    && Contains(LowerString(p.name), LowerString(query))
    && p.currentPrice <= priceRange
  }

  function ListedBy(categoryId: string, query: string, priceRange: int): Product -> bool
  {
    p => Listed(p, categoryId, query, priceRange)
  }

  function OptionKey(sortBy: SortOption): Product -> real
  {
    match sortBy
    case PriceAsc => (p: Product) => p.currentPrice as real
    case PriceDesc => (p: Product) => -(p.currentPrice as real)
    case RatingDesc => (p: Product) => -(p.reviewCount as real)
  }

  /** `categoryProducts`. A missing product list (`null` before the first fetch) lists
      nothing. */
  function CategoryProducts(products: Option<seq<Product>>, categoryId: string, query: string,
                            priceRange: int, sortBy: SortOption): (r: seq<Product>)
    ensures products.None? || products.value == [] ==> r == []
    ensures forall p :: p in r ==>
      (products.Some? && p in products.value && Listed(p, categoryId, query, priceRange))
    ensures products.Some? ==> forall p ::
      (p in products.value && Listed(p, categoryId, query, priceRange)) ==> p in r
    ensures sortBy == PriceAsc ==>
      forall i, j :: 0 <= i < j < |r| ==> r[i].currentPrice <= r[j].currentPrice
    ensures sortBy == PriceDesc ==>
      forall i, j :: 0 <= i < j < |r| ==> r[i].currentPrice >= r[j].currentPrice
    ensures sortBy == RatingDesc ==>
      forall i, j :: 0 <= i < j < |r| ==> r[i].reviewCount >= r[j].reviewCount
  {
    match products
    case None => []
    case Some(ps) =>
      if |ps| == 0 then []
      else
        var filtered := Filter(ps, ListedBy(categoryId, query, priceRange));
        FilterMembers(ps, ListedBy(categoryId, query, priceRange));
        SortByMembers(filtered, OptionKey(sortBy));
        SortBy(filtered, OptionKey(sortBy))
  }

  /** The listing is a reordering of the filtered products: each appears exactly as often
      as in the filter's result. */
  lemma CategoryProductsPermutesFilter(ps: seq<Product>, categoryId: string, query: string,
                                       priceRange: int, sortBy: SortOption)
    ensures multiset(CategoryProducts(Some(ps), categoryId, query, priceRange, sortBy)) ==
      multiset(Filter(ps, ListedBy(categoryId, query, priceRange)))
  {
  }

  /** Products that tie under the chosen order keep their catalogue order. */
  lemma CategoryProductsStable(ps: seq<Product>, categoryId: string, query: string,
                               priceRange: int, sortBy: SortOption, k: real)
    ensures Filter(CategoryProducts(Some(ps), categoryId, query, priceRange, sortBy),
                   HasKey(OptionKey(sortBy), k)) ==
      Filter(Filter(ps, ListedBy(categoryId, query, priceRange)), HasKey(OptionKey(sortBy), k))
  {
    SortByStable(Filter(ps, ListedBy(categoryId, query, priceRange)), OptionKey(sortBy), k);
  }

  /** The empty search text with a price limit no product exceeds lists the whole category. */
  lemma WholeCategoryListed(ps: seq<Product>, categoryId: string, priceRange: int, sortBy: SortOption)
    requires forall p :: p in ps ==> p.currentPrice <= priceRange
    ensures forall p :: p in ps && p.category == categoryId ==>
      p in CategoryProducts(Some(ps), categoryId, "", priceRange, sortBy)
  {
    forall p | p in ps && p.category == categoryId
      ensures Listed(p, categoryId, "", priceRange)
    {
      ContainsEmpty(LowerString(p.name));
    }
  }
}
