/** The category slice of the global store: the list of categories and the status of the
    last fetch, updated by five reducers. The lookup by id that the category page and the
    inventory table use lives here too. */
module CategoryStore {
  import opened Base

  datatype Category = Category(id: string, name: string, description: string)

  datatype CategoryState = CategoryState(categories: seq<Category>, loading: bool, error: Option<string>)

  const Initial: CategoryState := CategoryState([], false, None)

  /** `categories.findIndex(c => c.id === id)`, with -1 as `None`. */
  function FindCategoryIndex(categories: seq<Category>, id: string): (r: Option<nat>)
    ensures r.Some? ==> r.value < |categories| && categories[r.value].id == id
    ensures r.Some? ==> forall j :: 0 <= j < r.value ==> categories[j].id != id
    ensures r.None? <==> forall j :: 0 <= j < |categories| ==> categories[j].id != id
  {
    if |categories| == 0 then None
    else if categories[0].id == id then Some(0)
    else match FindCategoryIndex(categories[1..], id)
      case None => None
      case Some(k) => Some(k + 1)
  }

  /** `categories.find(c => c.id === id)`. */
  function FindCategory(categories: seq<Category>, id: string): (r: Option<Category>)
    ensures r.Some? ==> r.value in categories && r.value.id == id
    ensures r.None? <==> forall c :: c in categories ==> c.id != id
  {
    match FindCategoryIndex(categories, id)
    case None => None
    case Some(k) => Some(categories[k])
  }

  // ---------------------------------------------------------------------------
  // reducers
  // ---------------------------------------------------------------------------

  function FetchStart(s: CategoryState): (r: CategoryState)
    ensures r.loading && r.error.None?
    ensures r.categories == s.categories
  {
    s.(loading := true, error := None)
  }

  function FetchSuccess(s: CategoryState, payload: seq<Category>): (r: CategoryState)
    ensures r.categories == payload && !r.loading
    ensures r.error == s.error
  {
    s.(categories := payload, loading := false)
  }

  function FetchFailure(s: CategoryState, message: string): (r: CategoryState)
    ensures !r.loading && r.error == Some(message)
    ensures r.categories == s.categories
  {
    s.(loading := false, error := Some(message))
  }

  /** `addCategory`: appends at the end. */
  function AddCategory(s: CategoryState, payload: Category): (r: CategoryState)
    ensures |r.categories| == |s.categories| + 1
    ensures r.categories[..|s.categories|] == s.categories
    ensures r.categories[|s.categories|] == payload
    ensures r.loading == s.loading && r.error == s.error
  {
    s.(categories := s.categories + [payload])
  }

  /** `updateCategory`: replaces the first category with the payload's id; an unknown id
      changes nothing. */
  function UpdateCategory(s: CategoryState, payload: Category): (r: CategoryState)
    ensures |r.categories| == |s.categories|
    ensures r.loading == s.loading && r.error == s.error
    ensures FindCategoryIndex(s.categories, payload.id).None? ==> r == s
    ensures FindCategoryIndex(s.categories, payload.id).Some? ==>
      var k := FindCategoryIndex(s.categories, payload.id).value;
      && r.categories[k] == payload
      && forall j :: 0 <= j < |s.categories| && j != k ==> r.categories[j] == s.categories[j]
  {
    match FindCategoryIndex(s.categories, payload.id)
    case None => s
    case Some(k) => s.(categories := s.categories[k := payload])
  }

  // ---------------------------------------------------------------------------
  // properties relating the reducers to the lookup
  // ---------------------------------------------------------------------------

  /** After an update, looking up the payload's id finds the payload, provided the id was
      present; every other id is found as before. */
  lemma UpdateThenFind(s: CategoryState, payload: Category, id: string)
    ensures FindCategoryIndex(s.categories, payload.id).Some? ==>
      FindCategory(UpdateCategory(s, payload).categories, payload.id) == Some(payload)
    ensures id != payload.id ==>
      FindCategory(UpdateCategory(s, payload).categories, id) == FindCategory(s.categories, id)
  {
    var r := UpdateCategory(s, payload).categories;
    match FindCategoryIndex(s.categories, payload.id)
    case None =>
    case Some(k) =>
      SameIndexAfterUpdate(s.categories, k, payload, payload.id);
      if id != payload.id {
        SameIndexAfterUpdate(s.categories, k, payload, id);
      }
  }

  /** The lookup returns the first position holding the id. */
  lemma FirstMatchIsFound(categories: seq<Category>, id: string, i: nat)
    requires i < |categories| && categories[i].id == id
    requires forall j :: 0 <= j < i ==> categories[j].id != id
    ensures FindCategoryIndex(categories, id) == Some(i)
  {
    var r := FindCategoryIndex(categories, id);
    assert r.Some?;
    assert !(r.value < i);
  }

  /** Replacing an entry by one with the same id keeps every lookup's position. */
  lemma SameIndexAfterUpdate(categories: seq<Category>, k: nat, payload: Category, id: string)
    requires k < |categories| && categories[k].id == payload.id
    ensures FindCategoryIndex(categories[k := payload], id) == FindCategoryIndex(categories, id)
  {
    var r := categories[k := payload];
    assert forall j :: 0 <= j < |r| ==> r[j].id == categories[j].id;
    match FindCategoryIndex(categories, id)
    case None =>
    case Some(i) =>
      FirstMatchIsFound(r, id, i);
  }

  /** Adding finds the new category unless an earlier one already has its id. */
  lemma AddThenFind(s: CategoryState, payload: Category)
    requires FindCategoryIndex(s.categories, payload.id).None?
    ensures FindCategory(AddCategory(s, payload).categories, payload.id) == Some(payload)
  {
    var r := AddCategory(s, payload).categories;
    assert forall j :: 0 <= j < |s.categories| ==> r[j] == s.categories[j];
    FirstMatchIsFound(r, payload.id, |s.categories|);
  }

  /** Adding leaves the lookup of every other id as it was. */
  lemma AddKeepsOtherLookups(s: CategoryState, payload: Category, id: string)
    requires id != payload.id
    ensures FindCategory(AddCategory(s, payload).categories, id) == FindCategory(s.categories, id)
  {
    var r := AddCategory(s, payload).categories;
    assert forall j :: 0 <= j < |s.categories| ==> r[j] == s.categories[j];
    match FindCategoryIndex(s.categories, id)
    case Some(k) =>
      FirstMatchIsFound(r, id, k);
    case None =>
      assert forall j :: 0 <= j < |r| ==> r[j].id != id;
  }

  /** Applying the same update twice has the effect of applying it once. */
  lemma UpdateIdempotent(s: CategoryState, payload: Category)
    ensures UpdateCategory(UpdateCategory(s, payload), payload) == UpdateCategory(s, payload)
  {
    match FindCategoryIndex(s.categories, payload.id)
    case None =>
    case Some(k) =>
      SameIndexAfterUpdate(s.categories, k, payload, payload.id);
  }
}
