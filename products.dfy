/** The products screen (`app/dashboard/products/page.tsx`): search over
    name, Hindi name and category, local removal after a delete, ten rows
    per page with the mock catalogue shown for an empty page, and the
    stock badge. */
module Products {
  import opened Wrappers
  import opened Text
  import opened Lists
  import Paging

  /** The fields of `ProductData` the screen reads; prices, variants and
      images are carried along in `details`. */
  datatype Product = Product(
    id: string,
    name: string,
    hindiName: Option<string>,
    categoryName: string,
    stock: real,
    createdAt: string,
    details: string)

  function ProductId(p: Product): string {
    p.id
  }

  /** The search test: the lower-cased query occurs in the lower-cased name,
      in the lower-cased Hindi name when that is present and not empty, or
      in the lower-cased category name. */
  predicate ProductHits(p: Product, searchQuery: string) {
    var query := Lower(searchQuery);
    || Contains(Lower(p.name), query)
    || (p.hindiName.Some? && p.hindiName.value != "" && Contains(Lower(p.hindiName.value), query))
    || Contains(Lower(p.categoryName), query)
  }

  function ProductKeep(searchQuery: string): Product -> bool {
    (p: Product) => ProductHits(p, searchQuery)
  }

  /** The search effect: every product for a blank query, otherwise the
      products the query hits, in their order. */
  function SearchProducts(products: seq<Product>, searchQuery: string): (r: seq<Product>)
    ensures Subsequence(r, products)
    ensures forall p :: p in r <==> p in products && (IsBlank(searchQuery) || ProductHits(p, searchQuery))
  {
    SubsequenceReflexive(products);
    if IsBlank(searchQuery) then products else Filter(products, ProductKeep(searchQuery))
  }

  /** A blank query shows the whole list, in its order. */
  lemma BlankSearchShowsAll(products: seq<Product>, searchQuery: string)
    requires IsBlank(searchQuery)
    ensures SearchProducts(products, searchQuery) == products
  {
  }

  /** An absent and an empty Hindi name behave alike: neither can be hit by
      a non-blank query. */
  lemma EmptyHindiNameIsAbsent(p: Product, searchQuery: string)
    requires !IsBlank(searchQuery)
    ensures ProductHits(p.(hindiName := Some("")), searchQuery) == ProductHits(p.(hindiName := None), searchQuery)
  {
  }

  /** Deleting from the search result gives what searching the list left by
      the delete gives. */
  lemma DeleteAgreesWithSearch(products: seq<Product>, searchQuery: string, id: string)
    ensures RemoveById(SearchProducts(products, searchQuery), ProductId, id)
         == SearchProducts(RemoveById(products, ProductId, id), searchQuery)
  {
    if !IsBlank(searchQuery) {
      RemoveThenFilter(products, ProductKeep(searchQuery), ProductId, id);
    }
  }

  /** `displayProducts`: the page's rows, or the mock catalogue when the page
      is empty. */
  function DisplayProducts(currentProducts: seq<Product>, mockProducts: seq<Product>): (r: seq<Product>)
    ensures currentProducts != [] ==> r == currentProducts
    ensures currentProducts == [] ==> r == mockProducts
  {
    if |currentProducts| > 0 then currentProducts else mockProducts
  }

  /** A search that matches nothing shows the mock catalogue, not an empty
      table. */
  lemma NoMatchShowsMock(products: seq<Product>, searchQuery: string, page: Paging.PageNumber, mockProducts: seq<Product>)
    requires forall i :: 0 <= i < |products| ==> !ProductHits(products[i], searchQuery)
    requires !IsBlank(searchQuery)
    ensures DisplayProducts(Paging.PageSlice(SearchProducts(products, searchQuery), page), mockProducts) == mockProducts
  {
    FilterNone(products, ProductKeep(searchQuery));
  }

  /** A page past the last one shows the mock catalogue. */
  lemma PastLastPageShowsMock(filtered: seq<Product>, page: Paging.PageNumber, mockProducts: seq<Product>)
    requires page > Paging.TotalPages(|filtered|)
    ensures DisplayProducts(Paging.PageSlice(filtered, page), mockProducts) == mockProducts
  {
    Paging.NonEmptyPage(filtered, page);
  }

  /** The stock badge's `variant`. */
  datatype BadgeVariant = DefaultBadge | OutlineBadge | DestructiveBadge

  /** The stock badge's text: the count or "Out of stock". */
  datatype StockText = InStock(count: real) | OutOfStock

  /** `product.stock`, a JavaScript number, is a real here: a fractional
      stock takes the same branches as in the page. */
  function StockBadge(stock: real): (v: BadgeVariant)
    ensures v == DefaultBadge <==> stock > 10.0
    ensures v == OutlineBadge <==> 0.0 < stock <= 10.0
    ensures v == DestructiveBadge <==> stock <= 0.0
  {
    if stock > 10.0 then DefaultBadge else if stock > 0.0 then OutlineBadge else DestructiveBadge
  }

  function StockLabel(stock: real): (t: StockText)
    ensures t == OutOfStock <==> stock <= 0.0
    ensures t.InStock? ==> t.count == stock
  {
    if stock > 0.0 then InStock(stock) else OutOfStock
  }

  /** "Out of stock" appears exactly on the destructive badge. */
  lemma OutOfStockIsDestructive(stock: real)
    ensures StockLabel(stock) == OutOfStock <==> StockBadge(stock) == DestructiveBadge
  {
  }

  /** Half a unit in stock is shown as in stock, on the outline badge. */
  lemma FractionalStockIsOutline()
    ensures StockBadge(0.5) == OutlineBadge && StockLabel(0.5) == InStock(0.5)
  {
  }

  /** The state of the screen. */
  class ProductsPage {
    var products: seq<Product>
    var filteredProducts: seq<Product>
    var searchQuery: string
    var currentPage: Paging.PageNumber

    /** What the screen shows is drawn from what it loaded. */
    ghost predicate Valid()
      reads this
    {
      Subsequence(filteredProducts, products)
    }

    constructor ()
      ensures Valid()
      ensures products == [] && filteredProducts == [] && searchQuery == "" && currentPage == 1
    {
      products := [];
      filteredProducts := [];
      searchQuery := "";
      currentPage := 1;
    }

    /** `loadProducts`: a response replaces both lists; a failed request
        (`None`) only shows a toast. */
    method LoadProducts(response: Option<seq<Product>>)
      requires Valid()
      modifies this
      ensures Valid()
      ensures response.Some? ==> products == response.value && filteredProducts == response.value
      ensures response.None? ==> products == old(products) && filteredProducts == old(filteredProducts)
      ensures searchQuery == old(searchQuery) && currentPage == old(currentPage)
    {
      if response.Some? {
        products := response.value;
        filteredProducts := response.value;
        SubsequenceReflexive(response.value);
      }
    }

    /** The search input's `onChange`. */
    method SetSearchQuery(query: string)
      requires Valid()
      modifies this
      ensures Valid()
      ensures searchQuery == query
      ensures products == old(products) && filteredProducts == old(filteredProducts)
      ensures currentPage == old(currentPage)
    {
      searchQuery := query;
    }

    /** The search effect, which React runs after any change of `searchQuery`
        or `products`: recompute the filtered list and go back to page 1. */
    method ApplySearch()
      modifies this
      ensures Valid()
      ensures filteredProducts == SearchProducts(products, searchQuery)
      ensures currentPage == 1
      ensures products == old(products) && searchQuery == old(searchQuery)
    {
      var found := SearchProducts(products, searchQuery);
      assert Subsequence(found, products);
      filteredProducts := found;
      currentPage := 1;
    }

    /** `handleDeleteProduct`: when the backend deleted the product
        (`deleted`), every product with the id leaves both lists. */
    method HandleDeleteProduct(id: string, deleted: bool)
      requires Valid()
      modifies this
      ensures Valid()
      ensures deleted ==> products == RemoveById(old(products), ProductId, id)
      ensures deleted ==> filteredProducts == RemoveById(old(filteredProducts), ProductId, id)
      ensures !deleted ==> products == old(products) && filteredProducts == old(filteredProducts)
      ensures searchQuery == old(searchQuery) && currentPage == old(currentPage)
    {
      if deleted {
        RemoveKeepsSubsequence(filteredProducts, products, ProductId, id);
        products := RemoveById(products, ProductId, id);
        filteredProducts := RemoveById(filteredProducts, ProductId, id);
      }
    }

    /** `currentProducts`: the rows of the current page. */
    function CurrentProducts(): seq<Product>
      reads this
    {
      Paging.PageSlice(filteredProducts, currentPage)
    }

    /** `displayProducts` for the given mock catalogue. */
    function Display(mockProducts: seq<Product>): seq<Product>
      reads this
    {
      DisplayProducts(CurrentProducts(), mockProducts)
    }

    /** `totalPages`. */
    function TotalPages(): nat
      reads this
    {
      Paging.TotalPages(|filteredProducts|)
    }

    /** `paginationItems`: the page buttons `1..totalPages`. */
    method PaginationItems() returns (items: seq<Paging.PageNumber>)
      ensures |items| == TotalPages()
      ensures forall k :: 0 <= k < |items| ==> items[k] == k + 1
    {
      items := Paging.PaginationItems(TotalPages());
    }

    /** The "previous" control. */
    method PreviousPage()
      modifies this
      ensures currentPage == Paging.Previous(old(currentPage))
      ensures products == old(products) && filteredProducts == old(filteredProducts)
      ensures searchQuery == old(searchQuery)
    {
      currentPage := Paging.Previous(currentPage);
    }

    /** The "next" control. */
    method NextPage()
      modifies this
      ensures currentPage == Paging.Next(old(currentPage), old(TotalPages()))
      ensures products == old(products) && filteredProducts == old(filteredProducts)
      ensures searchQuery == old(searchQuery)
    {
      currentPage := Paging.Next(currentPage, TotalPages());
    }

    /** A page button. */
    method GoToPage(page: Paging.PageNumber)
      modifies this
      ensures currentPage == page
      ensures products == old(products) && filteredProducts == old(filteredProducts)
      ensures searchQuery == old(searchQuery)
    {
      currentPage := page;
    }
  }
}
