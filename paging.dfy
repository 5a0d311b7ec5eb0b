/** Fixed-size pagination as the orders, products, promo-code and blog
    screens compute it: a slice of ten rows, `Math.ceil(n / 10)` pages,
    the page list `1..totalPages` and the previous/next controls. */
module Paging {

  /** `ordersPerPage`, `productsPerPage`, `codesPerPage` and `blogsPerPage` are all 10. */
  const PageSize: nat := 10

  /** `currentPage` starts at 1 and no control moves it below 1. */
  type PageNumber = n: int | 1 <= n witness 1

  function Min(a: int, b: int): int {
    if a <= b then a else b
  }

  function Max(a: int, b: int): int {
    if a <= b then b else a
  }

  /** `Math.ceil(n / PageSize)`: the fewest pages that hold `n` rows. */
  function TotalPages(n: nat): (r: nat)
    ensures r * PageSize >= n
    ensures r > 0 ==> (r - 1) * PageSize < n
    ensures r == 0 <==> n == 0
  {
    (n + PageSize - 1) / PageSize
  }

  /** `s.slice(indexOfFirst, indexOfLast)` with `indexOfLast = page * PageSize`
      and `indexOfFirst = indexOfLast - PageSize`. */
  function PageSlice<T>(s: seq<T>, page: PageNumber): (r: seq<T>)
    ensures |r| <= PageSize
    ensures |r| == if (page - 1) * PageSize >= |s| then 0 else Min(PageSize, |s| - (page - 1) * PageSize)
    ensures forall i :: 0 <= i < |r| ==> r[i] == s[(page - 1) * PageSize + i]
  {
    var indexOfLast := page * PageSize;
    var indexOfFirst := indexOfLast - PageSize;
    s[Min(indexOfFirst, |s|)..Min(indexOfLast, |s|)]
  }

  /** The pages `1..k` shown one after the other. */
  ghost function PagesUpTo<T>(s: seq<T>, k: nat): seq<T>
    decreases k
  {
    if k == 0 then [] else PagesUpTo(s, k - 1) + PageSlice(s, k)
  }

  lemma {:induction false} PagesUpToPrefix<T>(s: seq<T>, k: nat)
    ensures PagesUpTo(s, k) == s[..Min(k * PageSize, |s|)]
    decreases k
  {
    if k > 0 {
      PagesUpToPrefix(s, k - 1);
      var lo := Min((k - 1) * PageSize, |s|);
      var hi := Min(k * PageSize, |s|);
      assert PageSlice(s, k) == s[lo..hi];
      assert s[..lo] + s[lo..hi] == s[..hi];
    }
  }

  /** Pages `1..totalPages` together show every row once, in order. */
  lemma PagesCoverList<T>(s: seq<T>)
    ensures PagesUpTo(s, TotalPages(|s|)) == s
  {
    PagesUpToPrefix(s, TotalPages(|s|));
  }

  /** Row `i` is row `i % PageSize` of page `i / PageSize + 1`, and that page has a button. */
  lemma RowOnItsPage<T>(s: seq<T>, i: nat)
    requires i < |s|
    ensures 1 <= i / PageSize + 1 <= TotalPages(|s|)
    ensures i % PageSize < |PageSlice(s, i / PageSize + 1)|
    ensures PageSlice(s, i / PageSize + 1)[i % PageSize] == s[i]
  {
    var p := i / PageSize + 1;
    assert (p - 1) * PageSize + i % PageSize == i;
    assert p * PageSize > i;
  }

  /** A page has rows exactly when it is one of `1..totalPages`. */
  lemma NonEmptyPage<T>(s: seq<T>, page: PageNumber)
    ensures PageSlice(s, page) != [] <==> page <= TotalPages(|s|)
  {
  }

  /** The "previous" control: `if (currentPage > 1) setCurrentPage(currentPage - 1)`. */
  function Previous(current: PageNumber): (r: PageNumber)
    ensures current > 1 ==> r == current - 1
    ensures current == 1 ==> r == 1
  {
    if current > 1 then current - 1 else current
  }

  /** The "next" control: `if (currentPage < totalPages) setCurrentPage(currentPage + 1)`. */
  function Next(current: PageNumber, totalPages: nat): (r: PageNumber)
    ensures r == current + 1 <==> current < totalPages
    ensures r != current + 1 ==> r == current
    ensures r <= Max(current, totalPages)
  {
    if current < totalPages then current + 1 else current
  }

  /** Starting from a page with a button, the controls stay on pages with buttons. */
  lemma ControlsStayInRange(current: PageNumber, totalPages: nat)
    requires current <= totalPages
    ensures Previous(current) <= totalPages
    ensures Next(current, totalPages) <= totalPages
  {
  }

  /** `for (let i = 1; i <= totalPages; i++) paginationItems.push(i)`. */
  method PaginationItems(totalPages: nat) returns (items: seq<PageNumber>)
    ensures |items| == totalPages
    ensures forall k :: 0 <= k < |items| ==> items[k] == k + 1
  {
    items := [];
    var i := 1;
    while i <= totalPages
      invariant 1 <= i <= totalPages + 1
      invariant |items| == i - 1
      invariant forall k :: 0 <= k < |items| ==> items[k] == k + 1
    {
      items := items + [i];
      i := i + 1;
    }
  }
}
