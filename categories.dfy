/** The category list (`app/dashboard/categories/page.tsx`): search on the
    name and local removal after a delete. The screen has no pages. */
module Categories {
  import opened Wrappers
  import opened Text
  import opened Lists

  /** `CategoryData`. */
  datatype Category = Category(
    id: string,
    name: string,
    image: Option<string>,
    description: Option<string>,
    createdAt: string)

  function CategoryId(c: Category): string {
    c.id
  }

  /** The search test: the lower-cased name contains the lower-cased query. */
  predicate CategoryHits(c: Category, searchQuery: string) {
    Contains(Lower(c.name), Lower(searchQuery))
  }

  function CategoryKeep(searchQuery: string): Category -> bool {
    (c: Category) => CategoryHits(c, searchQuery)
  }

  /** The search effect: every category for a blank query, otherwise exactly
      the categories the query hits, in their order. */
  function SearchCategories(categories: seq<Category>, searchQuery: string): (r: seq<Category>)
    ensures Subsequence(r, categories)
    ensures forall c :: c in r <==> c in categories && (IsBlank(searchQuery) || CategoryHits(c, searchQuery))
  {
    SubsequenceReflexive(categories);
    if IsBlank(searchQuery) then categories else Filter(categories, CategoryKeep(searchQuery))
  }

  /** A blank query shows the whole list, in its order. */
  lemma BlankSearchShowsAll(categories: seq<Category>, searchQuery: string)
    requires IsBlank(searchQuery)
    ensures SearchCategories(categories, searchQuery) == categories
  {
  }

  /** Searching is case-insensitive: a query and its lower-cased form find
      the same categories. */
  lemma SearchIgnoresCase(categories: seq<Category>, searchQuery: string)
    ensures SearchCategories(categories, searchQuery) == SearchCategories(categories, Lower(searchQuery))
  {
    LowerBlank(searchQuery);
    LowerIdempotent(searchQuery);
    FilterCongruent(categories, CategoryKeep(searchQuery), CategoryKeep(Lower(searchQuery)));
  }

  /** Deleting from the search result gives what searching the list left by
      the delete gives. */
  lemma DeleteAgreesWithSearch(categories: seq<Category>, searchQuery: string, id: string)
    ensures RemoveById(SearchCategories(categories, searchQuery), CategoryId, id)
         == SearchCategories(RemoveById(categories, CategoryId, id), searchQuery)
  {
    if !IsBlank(searchQuery) {
      RemoveThenFilter(categories, CategoryKeep(searchQuery), CategoryId, id);
    }
  }

  /** The state of the screen. */
  class CategoriesPage {
    var categories: seq<Category>
    var filteredCategories: seq<Category>
    var searchQuery: string

    /** What the screen shows is drawn from what it loaded. */
    ghost predicate Valid()
      reads this
    {
      Subsequence(filteredCategories, categories)
    }

    constructor ()
      ensures Valid()
      ensures categories == [] && filteredCategories == [] && searchQuery == ""
    {
      categories := [];
      filteredCategories := [];
      searchQuery := "";
    }

    /** `loadCategories`: a response replaces both lists; a failed request
        only shows a toast. */
    method LoadCategories(response: Option<seq<Category>>)
      requires Valid()
      modifies this
      ensures Valid()
      ensures response.Some? ==> categories == response.value && filteredCategories == response.value
      ensures response.None? ==> categories == old(categories) && filteredCategories == old(filteredCategories)
      ensures searchQuery == old(searchQuery)
    {
      if response.Some? {
        categories := response.value;
        filteredCategories := response.value;
        SubsequenceReflexive(response.value);
      }
    }

    /** The search input's `onChange`. */
    method SetSearchQuery(query: string)
      requires Valid()
      modifies this
      ensures Valid()
      ensures searchQuery == query
      ensures categories == old(categories) && filteredCategories == old(filteredCategories)
    {
      searchQuery := query;
    }

    /** The search effect, which React runs after any change of `searchQuery`
        or `categories`. Unlike the other lists it has no page to reset. */
    method ApplySearch()
      modifies this
      ensures Valid()
      ensures filteredCategories == SearchCategories(categories, searchQuery)
      ensures categories == old(categories) && searchQuery == old(searchQuery)
    {
      var found := SearchCategories(categories, searchQuery);
      assert Subsequence(found, categories);
      filteredCategories := found;
    }

    /** `handleDeleteCategory`: when the backend deleted the category
        (`deleted`), every category with the id leaves both lists. */
    method HandleDeleteCategory(id: string, deleted: bool)
      requires Valid()
      modifies this
      ensures Valid()
      ensures deleted ==> categories == RemoveById(old(categories), CategoryId, id)
      ensures deleted ==> filteredCategories == RemoveById(old(filteredCategories), CategoryId, id)
      ensures !deleted ==> categories == old(categories) && filteredCategories == old(filteredCategories)
      ensures searchQuery == old(searchQuery)
    {
      if deleted {
        RemoveKeepsSubsequence(filteredCategories, categories, CategoryId, id);
        categories := RemoveById(categories, CategoryId, id);
        filteredCategories := RemoveById(filteredCategories, CategoryId, id);
      }
    }
  }
}
