/** The orders screen (`app/dashboard/orders/page.tsx`): a status filter and
    a text search over the loaded orders, a local status update after the
    backend accepted it, and ten orders per page. */
module Orders {
  import opened Text
  import opened Lists
  import Paging

  /** `OrderData.status`. */
  datatype Status = Confirmed | Processing | Shipped | Delivered | Cancelled

  /** The value of the status `Select`: `all` or one of the five statuses. */
  datatype StatusFilter = AllStatuses | OnlyStatus(status: Status)

  /** The fields of `OrderData` the screen reads; `items`, `type` and the
      rest of the address are carried along in `details`. */
  datatype Order = Order(
    id: string,
    userName: string,
    userEmail: string,
    shippingName: string,
    phone: string,
    total: int,
    createdAt: string,
    details: string,
    status: Status)

  function OrderId(o: Order): string {
    o.id
  }

  /** `statusFilter === 'all' || order.status === statusFilter`. */
  predicate MatchesStatus(filter: StatusFilter, o: Order) {
    filter.AllStatuses? || o.status == filter.status
  }

  /** The search test: the lower-cased query occurs in the lower-cased id,
      user name, user email or shipping name, or in the phone as it is. */
  predicate QueryHits(o: Order, searchQuery: string) {
    var query := Lower(searchQuery);
    || Contains(Lower(o.id), query)
    || Contains(Lower(o.userName), query)
    || Contains(Lower(o.userEmail), query)
    || Contains(Lower(o.shippingName), query)
    || Contains(o.phone, query)
  }

  function StatusKeep(filter: StatusFilter): Order -> bool {
    (o: Order) => MatchesStatus(filter, o)
  }

  function QueryKeep(searchQuery: string): Order -> bool {
    (o: Order) => QueryHits(o, searchQuery)
  }

  /** The filter effect: the status stage when the filter is not `all`, then
      the search stage when the query is not blank. */
  function FilterOrders(orders: seq<Order>, filter: StatusFilter, searchQuery: string): (r: seq<Order>)
    ensures Subsequence(r, orders)
    ensures forall o :: o in r <==>
      o in orders && MatchesStatus(filter, o) && (IsBlank(searchQuery) || QueryHits(o, searchQuery))
  {
    var byStatus := if filter != AllStatuses then Filter(orders, StatusKeep(filter)) else orders;
    SubsequenceReflexive(orders);
    var r := if !IsBlank(searchQuery) then Filter(byStatus, QueryKeep(searchQuery)) else byStatus;
    assert Subsequence(r, orders) by {
      if !IsBlank(searchQuery) {
        SubsequenceTransitive(r, byStatus, orders);
      }
    }
    r
  }

  /** With status `all` and a blank query every order is shown. */
  lemma UnfilteredShowsAll(orders: seq<Order>, searchQuery: string)
    requires IsBlank(searchQuery)
    ensures FilterOrders(orders, AllStatuses, searchQuery) == orders
  {
  }

  /** A status filter other than `all` keeps only orders of that status. */
  lemma FilteredHaveStatus(orders: seq<Order>, status: Status, searchQuery: string, i: int)
    requires 0 <= i < |FilterOrders(orders, OnlyStatus(status), searchQuery)|
    ensures FilterOrders(orders, OnlyStatus(status), searchQuery)[i].status == status
  {
    var r := FilterOrders(orders, OnlyStatus(status), searchQuery);
    assert r[i] in r;
  }

  /** With a non-blank query, a kept order holds the lower-cased query at some
      index of one of its searched fields. */
  lemma FilteredContainQuery(orders: seq<Order>, filter: StatusFilter, searchQuery: string, i: int)
    requires !IsBlank(searchQuery)
    requires 0 <= i < |FilterOrders(orders, filter, searchQuery)|
    ensures var o := FilterOrders(orders, filter, searchQuery)[i];
      var q := Lower(searchQuery);
      || (exists k :: OccursAt(Lower(o.id), q, k))
      || (exists k :: OccursAt(Lower(o.userName), q, k))
      || (exists k :: OccursAt(Lower(o.userEmail), q, k))
      || (exists k :: OccursAt(Lower(o.shippingName), q, k))
      || (exists k :: OccursAt(o.phone, q, k))
  {
    var o := FilterOrders(orders, filter, searchQuery)[i];
    assert o in FilterOrders(orders, filter, searchQuery);
    var q := Lower(searchQuery);
    ContainsAt(Lower(o.id), q);
    ContainsAt(Lower(o.userName), q);
    ContainsAt(Lower(o.userEmail), q);
    ContainsAt(Lower(o.shippingName), q);
    ContainsAt(o.phone, q);
  }

  /** The search stage lower-cases the query but does not trim it: a query
      with a leading space does not hit an order whose searched fields hold
      no white space. */
  lemma QueryIsNotTrimmed(o: Order, word: string)
    requires HasNoWhitespace(o.id) && HasNoWhitespace(o.userName) && HasNoWhitespace(o.userEmail)
    requires HasNoWhitespace(o.shippingName) && HasNoWhitespace(o.phone)
    ensures !QueryHits(o, " " + word)
  {
    var q := Lower(" " + word);
    assert q[0] == ' ';
    LowerNoWhitespace(o.id);
    LowerNoWhitespace(o.userName);
    LowerNoWhitespace(o.userEmail);
    LowerNoWhitespace(o.shippingName);
    NoWhitespaceMisses(Lower(o.id), q);
    NoWhitespaceMisses(Lower(o.userName), q);
    NoWhitespaceMisses(Lower(o.userEmail), q);
    NoWhitespaceMisses(Lower(o.shippingName), q);
    NoWhitespaceMisses(o.phone, q);
  }

  lemma NoWhitespaceMisses(s: string, q: string)
    requires HasNoWhitespace(s)
    requires q != [] && IsWhitespace(q[0])
    ensures !Contains(s, q)
  {
    ContainsAt(s, q);
  }

  /** `{ ...order, status: newStatus }` for the order with the id. */
  function SetStatus(id: string, newStatus: Status): Order -> Order {
    (o: Order) => if o.id == id then o.(status := newStatus) else o
  }

  /** The local update of `handleStatusUpdate`: the orders with the id get
      the new status, every other field and every other order stay. */
  function UpdateStatus(orders: seq<Order>, id: string, newStatus: Status): (r: seq<Order>)
    ensures |r| == |orders|
    ensures forall i :: 0 <= i < |r| ==> r[i].(status := orders[i].status) == orders[i]
    ensures forall i :: 0 <= i < |r| && orders[i].id == id ==> r[i].status == newStatus
    ensures forall i :: 0 <= i < |r| && orders[i].id != id ==> r[i] == orders[i]
  {
    MapSeq(orders, SetStatus(id, newStatus))
  }

  /** Setting a status is idempotent. */
  lemma UpdateStatusIdempotent(orders: seq<Order>, id: string, newStatus: Status)
    ensures UpdateStatus(UpdateStatus(orders, id, newStatus), id, newStatus) == UpdateStatus(orders, id, newStatus)
  {
  }

  /** With status filter `all`, updating the filtered list in place gives what
      re-running the filter over the updated orders gives. */
  lemma UpdateAgreesWithRefilter(orders: seq<Order>, searchQuery: string, id: string, newStatus: Status)
    ensures UpdateStatus(FilterOrders(orders, AllStatuses, searchQuery), id, newStatus)
         == FilterOrders(UpdateStatus(orders, id, newStatus), AllStatuses, searchQuery)
  {
    if !IsBlank(searchQuery) {
      MapThenFilter(orders, SetStatus(id, newStatus), QueryKeep(searchQuery));
    }
  }

  /** With a status filter, the two can differ: an order moved out of the
      filtered status stays in the locally updated list. */
  lemma UpdateCanLeaveStaleRow()
    ensures var o := Order("a", "", "", "", "", 0, "", "", Shipped);
      UpdateStatus(FilterOrders([o], OnlyStatus(Shipped), ""), "a", Delivered)
        != FilterOrders(UpdateStatus([o], "a", Delivered), OnlyStatus(Shipped), "")
  {
    var o := Order("a", "", "", "", "", 0, "", "", Shipped);
    var local := UpdateStatus(FilterOrders([o], OnlyStatus(Shipped), ""), "a", Delivered);
    assert o in FilterOrders([o], OnlyStatus(Shipped), "");
    assert o.(status := Delivered) in local;
    assert o.(status := Delivered) !in FilterOrders(UpdateStatus([o], "a", Delivered), OnlyStatus(Shipped), "");
  }

  /** The state of the screen. */
  class OrdersPage {
    var orders: seq<Order>
    var filteredOrders: seq<Order>
    var searchQuery: string
    var statusFilter: StatusFilter
    var currentPage: Paging.PageNumber

    /** What the screen shows is drawn from what it loaded. */
    ghost predicate Valid()
      reads this
    {
      Subsequence(filteredOrders, orders)
    }

    constructor ()
      ensures Valid()
      ensures orders == [] && filteredOrders == [] && searchQuery == ""
      ensures statusFilter == AllStatuses && currentPage == 1
    {
      orders := [];
      filteredOrders := [];
      searchQuery := "";
      statusFilter := AllStatuses;
      currentPage := 1;
    }

    /** `loadOrders`: the fetched orders (or the mock orders when the request
        fails) replace both lists. */
    method LoadOrders(loaded: seq<Order>)
      modifies this
      ensures Valid()
      ensures orders == loaded && filteredOrders == loaded
      ensures searchQuery == old(searchQuery) && statusFilter == old(statusFilter)
      ensures currentPage == old(currentPage)
    {
      orders := loaded;
      filteredOrders := loaded;
      SubsequenceReflexive(loaded);
    }

    /** The search input's `onChange`. */
    method SetSearchQuery(query: string)
      requires Valid()
      modifies this
      ensures Valid()
      ensures searchQuery == query
      ensures orders == old(orders) && filteredOrders == old(filteredOrders)
      ensures statusFilter == old(statusFilter) && currentPage == old(currentPage)
    {
      searchQuery := query;
    }

    /** The status `Select`'s `onValueChange`. */
    method SetStatusFilter(filter: StatusFilter)
      requires Valid()
      modifies this
      ensures Valid()
      ensures statusFilter == filter
      ensures orders == old(orders) && filteredOrders == old(filteredOrders)
      ensures searchQuery == old(searchQuery) && currentPage == old(currentPage)
    {
      statusFilter := filter;
    }

    /** The filter effect, which React runs after any change of `searchQuery`,
        `statusFilter` or `orders`: recompute the filtered list and go back
        to page 1. */
    method ApplyFilters()
      modifies this
      ensures Valid()
      ensures filteredOrders == FilterOrders(orders, statusFilter, searchQuery)
      ensures currentPage == 1
      ensures orders == old(orders) && searchQuery == old(searchQuery) && statusFilter == old(statusFilter)
    {
      var found := FilterOrders(orders, statusFilter, searchQuery);
      assert Subsequence(found, orders);
      filteredOrders := found;
      currentPage := 1;
    }

    /** `handleStatusUpdate`: when the backend accepted the change (`saved`),
        both lists get the new status for the id; otherwise only a toast
        is shown. */
    method HandleStatusUpdate(id: string, newStatus: Status, saved: bool)
      requires Valid()
      modifies this
      ensures Valid()
      ensures saved ==> orders == UpdateStatus(old(orders), id, newStatus)
      ensures saved ==> filteredOrders == UpdateStatus(old(filteredOrders), id, newStatus)
      ensures !saved ==> orders == old(orders) && filteredOrders == old(filteredOrders)
      ensures searchQuery == old(searchQuery) && statusFilter == old(statusFilter)
      ensures currentPage == old(currentPage)
    {
      if saved {
        MapKeepsSubsequence(filteredOrders, orders, SetStatus(id, newStatus));
        orders := UpdateStatus(orders, id, newStatus);
        filteredOrders := UpdateStatus(filteredOrders, id, newStatus);
      }
    }

    /** `currentOrders`: the rows of the current page. */
    function CurrentOrders(): seq<Order>
      reads this
    {
      Paging.PageSlice(filteredOrders, currentPage)
    }

    /** `totalPages`. */
    function TotalPages(): nat
      reads this
    {
      Paging.TotalPages(|filteredOrders|)
    }

    /** `paginationItems`: the page buttons `1..totalPages`. */
    method PaginationItems() returns (items: seq<Paging.PageNumber>)
      ensures |items| == TotalPages()
      ensures forall k :: 0 <= k < |items| ==> items[k] == k + 1
    {
      items := Paging.PaginationItems(TotalPages());
    }

    /** The "previous" control. */
    method PreviousPage()
      modifies this
      ensures currentPage == Paging.Previous(old(currentPage))
      ensures orders == old(orders) && filteredOrders == old(filteredOrders)
      ensures searchQuery == old(searchQuery) && statusFilter == old(statusFilter)
    {
      currentPage := Paging.Previous(currentPage);
    }

    /** The "next" control. */
    method NextPage()
      modifies this
      ensures currentPage == Paging.Next(old(currentPage), old(TotalPages()))
      ensures orders == old(orders) && filteredOrders == old(filteredOrders)
      ensures searchQuery == old(searchQuery) && statusFilter == old(statusFilter)
    {
      currentPage := Paging.Next(currentPage, TotalPages());
    }

    /** A page button. */
    method GoToPage(page: Paging.PageNumber)
      modifies this
      ensures currentPage == page
      ensures orders == old(orders) && filteredOrders == old(filteredOrders)
      ensures searchQuery == old(searchQuery) && statusFilter == old(statusFilter)
    {
      currentPage := page;
    }
  }
}
