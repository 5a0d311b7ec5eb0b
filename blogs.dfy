/** The blog list (`app/dashboard/blogs/page.tsx`): search on the title and
    the tags, local removal after a delete and ten rows per page. */
module Blogs {
  import opened Wrappers
  import opened Text
  import opened Lists
  import Paging

  /** `BlogData`; content and cover image are carried along in `body`. */
  datatype Blog = Blog(
    id: string,
    title: string,
    urlTitle: string,
    body: string,
    tags: seq<string>,
    createdAt: string,
    updatedAt: string)

  function BlogId(b: Blog): string {
    b.id
  }

  /** `tags.some(tag => tag.toLowerCase().includes(query))`. */
  predicate SomeTagHits(tags: seq<string>, query: string) {
    exists i :: 0 <= i < |tags| && Contains(Lower(tags[i]), query)
  }

  /** The search test: the lower-cased query occurs in the lower-cased title
      or in some lower-cased tag. */
  predicate BlogHits(b: Blog, searchQuery: string) {
    var query := Lower(searchQuery);
    Contains(Lower(b.title), query) || SomeTagHits(b.tags, query)
  }

  function BlogKeep(searchQuery: string): Blog -> bool {
    (b: Blog) => BlogHits(b, searchQuery)
  }

  /** The search effect: every blog for a blank query, otherwise exactly the
      blogs the query hits, in their order. */
  function SearchBlogs(blogs: seq<Blog>, searchQuery: string): (r: seq<Blog>)
    ensures Subsequence(r, blogs)
    ensures forall b :: b in r <==> b in blogs && (IsBlank(searchQuery) || BlogHits(b, searchQuery))
  {
    SubsequenceReflexive(blogs);
    if IsBlank(searchQuery) then blogs else Filter(blogs, BlogKeep(searchQuery))
  }

  /** A blank query shows the whole list, in its order. */
  lemma BlankSearchShowsAll(blogs: seq<Blog>, searchQuery: string)
    requires IsBlank(searchQuery)
    ensures SearchBlogs(blogs, searchQuery) == blogs
  {
  }

  /** A blog without tags is found only through its title. */
  lemma UntaggedFoundByTitle(b: Blog, searchQuery: string)
    requires b.tags == []
    ensures BlogHits(b, searchQuery) <==> Contains(Lower(b.title), Lower(searchQuery))
  {
  }

  /** Adding a tag the query hits makes the blog a hit. */
  lemma HitTagFindsBlog(b: Blog, tag: string, searchQuery: string)
    requires Contains(Lower(tag), Lower(searchQuery))
    ensures BlogHits(b.(tags := b.tags + [tag]), searchQuery)
  {
    var tags := b.tags + [tag];
    assert tags[|b.tags|] == tag;
  }

  /** Deleting from the search result gives what searching the list left by
      the delete gives. */
  lemma DeleteAgreesWithSearch(blogs: seq<Blog>, searchQuery: string, id: string)
    ensures RemoveById(SearchBlogs(blogs, searchQuery), BlogId, id)
         == SearchBlogs(RemoveById(blogs, BlogId, id), searchQuery)
  {
    if !IsBlank(searchQuery) {
      RemoveThenFilter(blogs, BlogKeep(searchQuery), BlogId, id);
    }
  }

  /** The state of the screen. */
  class BlogsPage {
    var blogs: seq<Blog>
    var filteredBlogs: seq<Blog>
    var searchQuery: string
    var currentPage: Paging.PageNumber

    /** What the screen shows is drawn from what it loaded. */
    ghost predicate Valid()
      reads this
    {
      Subsequence(filteredBlogs, blogs)
    }

    constructor ()
      ensures Valid()
      ensures blogs == [] && filteredBlogs == [] && searchQuery == "" && currentPage == 1
    {
      blogs := [];
      filteredBlogs := [];
      searchQuery := "";
      currentPage := 1;
    }

    /** `loadBlogs`: a response replaces both lists; a failed request only
        logs, so the lists stay as they are. */
    method LoadBlogs(response: Option<seq<Blog>>)
      requires Valid()
      modifies this
      ensures Valid()
      ensures response.Some? ==> blogs == response.value && filteredBlogs == response.value
      ensures response.None? ==> blogs == old(blogs) && filteredBlogs == old(filteredBlogs)
      ensures searchQuery == old(searchQuery) && currentPage == old(currentPage)
    {
      if response.Some? {
        blogs := response.value;
        filteredBlogs := response.value;
        SubsequenceReflexive(response.value);
      }
    }

    /** The search input's `onChange`. */
    method SetSearchQuery(query: string)
      requires Valid()
      modifies this
      ensures Valid()
      ensures searchQuery == query
      ensures blogs == old(blogs) && filteredBlogs == old(filteredBlogs)
      ensures currentPage == old(currentPage)
    {
      searchQuery := query;
    }

    /** The search effect, which React runs after any change of `searchQuery`
        or `blogs`: recompute the filtered list and go back to page 1. */
    method ApplySearch()
      modifies this
      ensures Valid()
      ensures filteredBlogs == SearchBlogs(blogs, searchQuery)
      ensures currentPage == 1
      ensures blogs == old(blogs) && searchQuery == old(searchQuery)
    {
      var found := SearchBlogs(blogs, searchQuery);
      assert Subsequence(found, blogs);
      filteredBlogs := found;
      currentPage := 1;
    }

    /** `handleDeleteBlog`: when the backend deleted the post (`deleted`),
        every blog with the id leaves both lists. */
    method HandleDeleteBlog(id: string, deleted: bool)
      requires Valid()
      modifies this
      ensures Valid()
      ensures deleted ==> blogs == RemoveById(old(blogs), BlogId, id)
      ensures deleted ==> filteredBlogs == RemoveById(old(filteredBlogs), BlogId, id)
      ensures !deleted ==> blogs == old(blogs) && filteredBlogs == old(filteredBlogs)
      ensures searchQuery == old(searchQuery) && currentPage == old(currentPage)
    {
      if deleted {
        RemoveKeepsSubsequence(filteredBlogs, blogs, BlogId, id);
        blogs := RemoveById(blogs, BlogId, id);
        filteredBlogs := RemoveById(filteredBlogs, BlogId, id);
      }
    }

    /** `currentBlogs`: the rows of the current page. */
    function CurrentBlogs(): seq<Blog>
      reads this
    {
      Paging.PageSlice(filteredBlogs, currentPage)
    }

    /** `totalPages`. */
    function TotalPages(): nat
      reads this
    {
      Paging.TotalPages(|filteredBlogs|)
    }

    /** `paginationItems`: the page buttons `1..totalPages`. */
    method PaginationItems() returns (items: seq<Paging.PageNumber>)
      ensures |items| == TotalPages()
      ensures forall k :: 0 <= k < |items| ==> items[k] == k + 1
    {
      items := Paging.PaginationItems(TotalPages());
    }

    /** The "previous" control. */
    method PreviousPage()
      modifies this
      ensures currentPage == Paging.Previous(old(currentPage))
      ensures blogs == old(blogs) && filteredBlogs == old(filteredBlogs)
      ensures searchQuery == old(searchQuery)
    {
      currentPage := Paging.Previous(currentPage);
    }

    /** The "next" control. */
    method NextPage()
      modifies this
      ensures currentPage == Paging.Next(old(currentPage), old(TotalPages()))
      ensures blogs == old(blogs) && filteredBlogs == old(filteredBlogs)
      ensures searchQuery == old(searchQuery)
    {
      currentPage := Paging.Next(currentPage, TotalPages());
    }

    /** A page button. */
    method GoToPage(page: Paging.PageNumber)
      modifies this
      ensures currentPage == page
      ensures blogs == old(blogs) && filteredBlogs == old(filteredBlogs)
      ensures searchQuery == old(searchQuery)
    {
      currentPage := page;
    }
  }
}
