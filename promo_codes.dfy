/** The promo-code list (`app/dashboard/promo-codes/page.tsx`): search on the
    code, a local status flip once the backend confirms it, local removal
    after a delete, expiry, the display rules of a row and ten rows per page. */
module PromoCodes {
  import opened Wrappers
  import opened Text
  import opened Lists
  import Paging

  /** `PromoCodeData.type`. */
  datatype DiscountType = Percent | Flat

  /** `PromoCodeData`. `expiryDate` is the time stamp the date string parses
      to, `None` when it does not parse; `maxUses` is optional. The
      JavaScript numbers are reals. */
  datatype PromoCode = PromoCode(
    id: string,
    code: string,
    discountType: DiscountType,
    value: real,
    active: bool,
    expiryDate: Option<int>,
    minimumOrder: real,
    maxUses: Option<real>,
    usedCount: real,
    oneTimeUsePerUser: Option<bool>)

  function PromoId(c: PromoCode): string {
    c.id
  }

  /** The search test: the lower-cased code contains the lower-cased query. */
  predicate CodeHits(c: PromoCode, searchQuery: string) {
    Contains(Lower(c.code), Lower(searchQuery))
  }

  function CodeKeep(searchQuery: string): PromoCode -> bool {
    (c: PromoCode) => CodeHits(c, searchQuery)
  }

  /** The search effect: every code for a blank query, otherwise exactly the
      codes the query hits, in their order. */
  function SearchCodes(codes: seq<PromoCode>, searchQuery: string): (r: seq<PromoCode>)
    ensures Subsequence(r, codes)
    ensures forall c :: c in r <==> c in codes && (IsBlank(searchQuery) || CodeHits(c, searchQuery))
  {
    SubsequenceReflexive(codes);
    if IsBlank(searchQuery) then codes else Filter(codes, CodeKeep(searchQuery))
  }

  /** A blank query shows the whole list, in its order. */
  lemma BlankSearchShowsAll(codes: seq<PromoCode>, searchQuery: string)
    requires IsBlank(searchQuery)
    ensures SearchCodes(codes, searchQuery) == codes
  {
  }

  /** `{ ...code, active }` for the code with the id. */
  function SetActiveOf(id: string, active: bool): PromoCode -> PromoCode {
    (c: PromoCode) => if c.id == id then c.(active := active) else c
  }

  /** The local update of `handleToggleStatus`: the codes with the id get
      `active`, every other field and every other code stay. */
  function SetActive(codes: seq<PromoCode>, id: string, active: bool): (r: seq<PromoCode>)
    ensures |r| == |codes|
    ensures forall i :: 0 <= i < |r| ==> r[i].(active := codes[i].active) == codes[i]
    ensures forall i :: 0 <= i < |r| && codes[i].id == id ==> r[i].active == active
    ensures forall i :: 0 <= i < |r| && codes[i].id != id ==> r[i] == codes[i]
  {
    MapSeq(codes, SetActiveOf(id, active))
  }

  /** Toggling with the row's status and then toggling back restores the list. */
  lemma ToggleBackRestores(codes: seq<PromoCode>, id: string, currentStatus: bool)
    requires forall i :: 0 <= i < |codes| && codes[i].id == id ==> codes[i].active == currentStatus
    ensures SetActive(SetActive(codes, id, !currentStatus), id, currentStatus) == codes
  {
  }

  /** Flipping a status in the search result gives what searching the
      flipped list gives: the search does not look at `active`. */
  lemma ToggleAgreesWithSearch(codes: seq<PromoCode>, searchQuery: string, id: string, active: bool)
    ensures SetActive(SearchCodes(codes, searchQuery), id, active)
         == SearchCodes(SetActive(codes, id, active), searchQuery)
  {
    if !IsBlank(searchQuery) {
      MapThenFilter(codes, SetActiveOf(id, active), CodeKeep(searchQuery));
    }
  }

  /** Deleting from the search result gives what searching the list left by
      the delete gives. */
  lemma DeleteAgreesWithSearch(codes: seq<PromoCode>, searchQuery: string, id: string)
    ensures RemoveById(SearchCodes(codes, searchQuery), PromoId, id)
         == SearchCodes(RemoveById(codes, PromoId, id), searchQuery)
  {
    if !IsBlank(searchQuery) {
      RemoveThenFilter(codes, CodeKeep(searchQuery), PromoId, id);
    }
  }

  /** `isExpired`: the expiry lies strictly before `now`; a date that does
      not parse compares false and never expires. */
  predicate IsExpired(expiryDate: Option<int>, now: int) {
    expiryDate.Some? && expiryDate.value < now
  }

  /** The status switch is disabled on expired codes. */
  function SwitchDisabled(c: PromoCode, now: int): (disabled: bool)
    ensures disabled <==> IsExpired(c.expiryDate, now)
  {
    IsExpired(c.expiryDate, now)
  }

  /** A code expiring exactly now is not expired yet; one second later it is. */
  lemma ExpiryIsStrict(c: PromoCode, t: int)
    requires c.expiryDate == Some(t)
    ensures !SwitchDisabled(c, t)
    ensures SwitchDisabled(c, t + 1)
  {
  }

  /** Once expired, a code stays expired. */
  lemma ExpiryIsMonotone(expiryDate: Option<int>, now: int, later: int)
    requires IsExpired(expiryDate, now) && now <= later
    ensures IsExpired(expiryDate, later)
  {
  }

  /** The discount cell: `value% off` or `₹value off`. */
  datatype DiscountLabel = PercentOff(percent: real) | RupeesOff(rupees: real)

  function DiscountLabelOf(c: PromoCode): (l: DiscountLabel)
    ensures l.PercentOff? <==> c.discountType == Percent
    ensures l.PercentOff? ==> l.percent == c.value
    ensures l.RupeesOff? ==> l.rupees == c.value
  {
    if c.discountType == Percent then PercentOff(c.value) else RupeesOff(c.value)
  }

  /** The minimum-order cell: `₹amount`, or `None` when it is not positive. */
  datatype MinimumOrderLabel = Rupees(amount: real) | NoMinimum

  function MinimumOrderLabelOf(c: PromoCode): (l: MinimumOrderLabel)
    ensures l == NoMinimum <==> c.minimumOrder <= 0.0
    ensures l.Rupees? ==> l.amount == c.minimumOrder
  {
    if c.minimumOrder > 0.0 then Rupees(c.minimumOrder) else NoMinimum
  }

  /** The usage cell: `used/max`, or the bare used count. */
  datatype Usage = UsedOfMax(used: real, max: real) | UsedOnly(count: real)

  /** `maxUses` is truthy: present and not zero. */
  predicate Truthy(n: Option<real>) {
    n.Some? && n.value != 0.0
  }

  function UsageOf(c: PromoCode): (u: Usage)
    ensures u.UsedOfMax? <==> c.maxUses.Some? && c.maxUses.value != 0.0
    ensures u.UsedOfMax? ==> u.used == c.usedCount && u.max == c.maxUses.value
    ensures u.UsedOnly? ==> u.count == c.usedCount
  {
    if Truthy(c.maxUses) then UsedOfMax(c.usedCount, c.maxUses.value) else UsedOnly(c.usedCount)
  }

  /** A limit of 0 is shown like no limit at all. */
  lemma ZeroLimitShowsAsUnset(c: PromoCode)
    requires c.maxUses == Some(0.0)
    ensures UsageOf(c) == UsageOf(c.(maxUses := None))
  {
  }

  /** The state of the screen. */
  class PromoCodesPage {
    var promoCodes: seq<PromoCode>
    var filteredCodes: seq<PromoCode>
    var searchQuery: string
    var currentPage: Paging.PageNumber

    /** What the screen shows is drawn from what it loaded. */
    ghost predicate Valid()
      reads this
    {
      Subsequence(filteredCodes, promoCodes)
    }

    constructor ()
      ensures Valid()
      ensures promoCodes == [] && filteredCodes == [] && searchQuery == "" && currentPage == 1
    {
      promoCodes := [];
      filteredCodes := [];
      searchQuery := "";
      currentPage := 1;
    }

    /** `loadPromoCodes`: the fetched codes (or the mock codes when the
        request fails) replace both lists. */
    method LoadPromoCodes(loaded: seq<PromoCode>)
      modifies this
      ensures Valid()
      ensures promoCodes == loaded && filteredCodes == loaded
      ensures searchQuery == old(searchQuery) && currentPage == old(currentPage)
    {
      promoCodes := loaded;
      filteredCodes := loaded;
      SubsequenceReflexive(loaded);
    }

    /** The search input's `onChange`. */
    method SetSearchQuery(query: string)
      requires Valid()
      modifies this
      ensures Valid()
      ensures searchQuery == query
      ensures promoCodes == old(promoCodes) && filteredCodes == old(filteredCodes)
      ensures currentPage == old(currentPage)
    {
      searchQuery := query;
    }

    /** The search effect, which React runs after any change of `searchQuery`
        or `promoCodes`: recompute the filtered list and go back to page 1. */
    method ApplySearch()
      modifies this
      ensures Valid()
      ensures filteredCodes == SearchCodes(promoCodes, searchQuery)
      ensures currentPage == 1
      ensures promoCodes == old(promoCodes) && searchQuery == old(searchQuery)
    {
      var found := SearchCodes(promoCodes, searchQuery);
      assert Subsequence(found, promoCodes);
      filteredCodes := found;
      currentPage := 1;
    }

    /** `handleToggleStatus(id, currentStatus)`: only when the response
        reports `success` do the codes with the id get `!currentStatus`, in
        both lists. */
    method HandleToggleStatus(id: string, currentStatus: bool, success: bool)
      requires Valid()
      modifies this
      ensures Valid()
      ensures success ==> promoCodes == SetActive(old(promoCodes), id, !currentStatus)
      ensures success ==> filteredCodes == SetActive(old(filteredCodes), id, !currentStatus)
      ensures !success ==> promoCodes == old(promoCodes) && filteredCodes == old(filteredCodes)
      ensures searchQuery == old(searchQuery) && currentPage == old(currentPage)
    {
      if success {
        MapKeepsSubsequence(filteredCodes, promoCodes, SetActiveOf(id, !currentStatus));
        promoCodes := SetActive(promoCodes, id, !currentStatus);
        filteredCodes := SetActive(filteredCodes, id, !currentStatus);
      }
    }

    /** `handleDeletePromoCode`: when the backend deleted the code
        (`deleted`), every code with the id leaves both lists. */
    method HandleDeletePromoCode(id: string, deleted: bool)
      requires Valid()
      modifies this
      ensures Valid()
      ensures deleted ==> promoCodes == RemoveById(old(promoCodes), PromoId, id)
      ensures deleted ==> filteredCodes == RemoveById(old(filteredCodes), PromoId, id)
      ensures !deleted ==> promoCodes == old(promoCodes) && filteredCodes == old(filteredCodes)
      ensures searchQuery == old(searchQuery) && currentPage == old(currentPage)
    {
      if deleted {
        RemoveKeepsSubsequence(filteredCodes, promoCodes, PromoId, id);
        promoCodes := RemoveById(promoCodes, PromoId, id);
        filteredCodes := RemoveById(filteredCodes, PromoId, id);
      }
    }

    /** `currentCodes`: the rows of the current page. */
    function CurrentCodes(): seq<PromoCode>
      reads this
    {
      Paging.PageSlice(filteredCodes, currentPage)
    }

    /** `totalPages`. */
    function TotalPages(): nat
      reads this
    {
      Paging.TotalPages(|filteredCodes|)
    }

    /** `paginationItems`: the page buttons `1..totalPages`. */
    method PaginationItems() returns (items: seq<Paging.PageNumber>)
      ensures |items| == TotalPages()
      ensures forall k :: 0 <= k < |items| ==> items[k] == k + 1
    {
      items := Paging.PaginationItems(TotalPages());
    }

    /** The "previous" control. */
    method PreviousPage()
      modifies this
      ensures currentPage == Paging.Previous(old(currentPage))
      ensures promoCodes == old(promoCodes) && filteredCodes == old(filteredCodes)
      ensures searchQuery == old(searchQuery)
    {
      currentPage := Paging.Previous(currentPage);
    }

    /** The "next" control. */
    method NextPage()
      modifies this
      ensures currentPage == Paging.Next(old(currentPage), old(TotalPages()))
      ensures promoCodes == old(promoCodes) && filteredCodes == old(filteredCodes)
      ensures searchQuery == old(searchQuery)
    {
      currentPage := Paging.Next(currentPage, TotalPages());
    }

    /** A page button. */
    method GoToPage(page: Paging.PageNumber)
      modifies this
      ensures currentPage == page
      ensures promoCodes == old(promoCodes) && filteredCodes == old(filteredCodes)
      ensures searchQuery == old(searchQuery)
    {
      currentPage := page;
    }
  }
}
