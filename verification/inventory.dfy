/** The admin inventory table: the category column's label, the free-text product search,
    and the split of the matching products into pages of fifteen rows. */
module Inventory {
  import opened Base
  import opened Seqs
  import opened Text
  import opened CategoryStore

  // ---------------------------------------------------------------------------
  // category label
  // ---------------------------------------------------------------------------

  /** `getCategoryName`: the name of the first category with the id, unless there is no
      such category, the list is not loaded yet, or the name is empty; then the id itself. */
  function CategoryName(categories: Option<seq<Category>>, categoryId: string): (r: string)
    ensures categories.Some? && FindCategory(categories.value, categoryId).Some? &&
            FindCategory(categories.value, categoryId).value.name != "" ==>
      r == FindCategory(categories.value, categoryId).value.name
    ensures categories.None? || FindCategory(categories.value, categoryId).None? ==> r == categoryId
    ensures r == categoryId || (categories.Some? && exists c :: c in categories.value && c.id == categoryId && c.name == r)
  {
    match categories
    case None => categoryId
    case Some(cs) =>
      match FindCategory(cs, categoryId)
      case Some(c) => if c.name != "" then c.name else categoryId
      case None => categoryId
  }

  /** The label is never empty for a non-empty id. */
  lemma CategoryNameNonEmpty(categories: Option<seq<Category>>, categoryId: string)
    requires categoryId != ""
    ensures CategoryName(categories, categoryId) != ""
  {
  }

  // ---------------------------------------------------------------------------
  // search
  // ---------------------------------------------------------------------------

  /** A row of the table, as the search sees it: the text of each of the product's field
      values, in the record's field order. */
  datatype InventoryProduct = InventoryProduct(values: seq<string>)

  /** `Object.values(product).join(" ").toLowerCase().includes(query.toLowerCase())`. */
  predicate RowMatches(p: InventoryProduct, query: string)
  {
    Contains(LowerString(Join(p.values, ' ')), LowerString(query))
  }

  function RowMatcher(query: string): InventoryProduct -> bool
  {
    p => RowMatches(p, query)
  }

  /** `filteredProducts`: nothing while the product list is not loaded. */
  function FilteredProducts(products: Option<seq<InventoryProduct>>, query: string): (r: seq<InventoryProduct>)
    ensures products.None? ==> r == []
    ensures products.Some? ==> |r| <= |products.value|
    ensures forall i :: 0 <= i < |r| ==> RowMatches(r[i], query)
  {
    match products
    case None => []
    case Some(ps) => Filter(ps, RowMatcher(query))
  }

  /** The search keeps exactly the matching rows, in their order. */
  lemma FilteredKeepsExactlyMatches(ps: seq<InventoryProduct>, query: string) returns (idx: seq<int>)
    ensures Enumerates(idx, ps, FilteredProducts(Some(ps), query), RowMatcher(query))
  {
    idx := FilterEnumerates(ps, RowMatcher(query));
  }

  /** The empty search keeps every row. */
  lemma EmptyQueryKeepsAll(ps: seq<InventoryProduct>)
    ensures FilteredProducts(Some(ps), "") == ps
  {
    forall i | 0 <= i < |ps|
      ensures RowMatcher("")(ps[i])
    {
      ContainsEmpty(LowerString(Join(ps[i].values, ' ')));
    }
    FilterAllMatch(ps, RowMatcher(""));
  }

  /** A piece occurs in the joined text where the earlier pieces and separators end. */
  lemma {:induction false} JoinContainsPiece(pieces: seq<string>, sep: char, i: nat) returns (k: nat)
    requires i < |pieces|
    ensures OccursAt(pieces[i], Join(pieces, sep), k)
  {
    if |pieces| == 1 {
      k := 0;
      assert Join(pieces, sep)[0..|pieces[0]|] == pieces[0];
    } else {
      var rest := Join(pieces[1..], sep);
      assert Join(pieces, sep) == pieces[0] + [sep] + rest;
      if i == 0 {
        k := 0;
        assert (pieces[0] + [sep] + rest)[0..|pieces[0]|] == pieces[0];
      } else {
        var k' := JoinContainsPiece(pieces[1..], sep, i - 1);
        k := |pieces[0]| + 1 + k';
        assert (pieces[0] + [sep] + rest)[k..k + |pieces[i]|] == rest[k'..k' + |pieces[i]|];
      }
    }
  }

  /** Lower-casing keeps an occurrence where it is. */
  lemma LowerKeepsOccurrence(t: string, s: string, k: nat)
    requires OccursAt(t, s, k)
    ensures OccursAt(LowerString(t), LowerString(s), k)
  {
    assert forall j :: 0 <= j < |t| ==> t[j] == s[k + j];
  }

  /** An occurrence inside an occurrence is an occurrence in the outer text. */
  lemma OccursWithin(t: string, s: string, u: string, j: nat, k: nat)
    requires OccursAt(t, s, j) && OccursAt(s, u, k)
    ensures OccursAt(t, u, k + j)
  {
    assert forall x :: 0 <= x < |s| ==> u[k + x] == s[x];
    assert forall m :: 0 <= m < |t| ==> t[m] == s[j + m];
    assert u[k + j..k + j + |t|] == t;
  }

  /** A query found (ignoring case) in any one field value finds the row. */
  lemma FieldMatchFindsRow(p: InventoryProduct, query: string, i: nat)
    requires i < |p.values|
    requires Contains(LowerString(p.values[i]), LowerString(query))
    ensures RowMatches(p, query)
  {
    var q, field, row := LowerString(query), LowerString(p.values[i]), LowerString(Join(p.values, ' '));
    ContainsIffOccurs(field, q);
    var j :| OccursAt(q, field, j);
    var k := JoinContainsPiece(p.values, ' ', i);
    LowerKeepsOccurrence(p.values[i], Join(p.values, ' '), k);
    OccursWithin(q, field, row, j, k);
    ContainsIffOccurs(row, q);
  }

  // ---------------------------------------------------------------------------
  // pagination
  // ---------------------------------------------------------------------------

  const RowsPerPage: nat := 15

  /** `Math.ceil(count / rowsPerPage)`: the fewest pages that hold `count` rows. */
  function PageCount(count: nat): (r: nat)
    ensures r * RowsPerPage >= count
    ensures r > 0 ==> (r - 1) * RowsPerPage < count
  {
    (count + RowsPerPage - 1) / RowsPerPage
  }

  /** `paginatedProducts`: rows `(page - 1) * 15` up to `page * 15` of the filtered list. */
  function Page<T>(rows: seq<T>, page: int): (r: seq<T>)
    ensures |r| <= RowsPerPage
    ensures 1 <= page && (page - 1) * RowsPerPage < |rows| ==>
      r == rows[(page - 1) * RowsPerPage..if page * RowsPerPage <= |rows| then page * RowsPerPage else |rows|]
  {
    var start := (page - 1) * RowsPerPage;
    JsSlice(rows, start, start + RowsPerPage)
  }

  /** A page number past the last page shows no rows. */
  lemma PageBeyondLastIsEmpty<T>(rows: seq<T>, page: int)
    requires page > PageCount(|rows|)
    ensures Page(rows, page) == []
  {
    var n := PageCount(|rows|);
    assert (page - 1) * RowsPerPage >= n * RowsPerPage;
  }

  /** Pages 1 to k, in order. */
  function FirstPages<T>(rows: seq<T>, k: nat): (r: seq<seq<T>>)
    ensures |r| == k
  {
    if k == 0 then [] else FirstPages(rows, k - 1) + [Page(rows, k)]
  }

  /** The first `k` pages together are the first `15 k` rows (or all of them). */
  lemma {:induction false} FirstPagesArePrefix<T>(rows: seq<T>, k: nat)
    requires k <= PageCount(|rows|)
    ensures Flatten(FirstPages(rows, k)) ==
      rows[..if k * RowsPerPage <= |rows| then k * RowsPerPage else |rows|]
  {
    if k == 0 {
    } else {
      FirstPagesArePrefix(rows, k - 1);
      FlattenSnoc(FirstPages(rows, k - 1), Page(rows, k));
      assert (k - 1) * RowsPerPage < |rows|;
      var a := (k - 1) * RowsPerPage;
      var b := if k * RowsPerPage <= |rows| then k * RowsPerPage else |rows|;
      assert rows[..a] + rows[a..b] == rows[..b];
    }
  }

  /** Reading every page in order gives back the filtered list, row for row. */
  lemma AllPagesRebuildList<T>(rows: seq<T>)
    ensures Flatten(FirstPages(rows, PageCount(|rows|))) == rows
  {
    FirstPagesArePrefix(rows, PageCount(|rows|));
    assert rows[..|rows|] == rows;
  }
}
