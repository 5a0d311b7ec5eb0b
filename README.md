# GrabGardenn admin dashboard — a Dafny model of its rules

The GrabGardenn dashboard is a Next.js admin front end over a remote
backend. Its logic is a set of small rules inside the pages:

- how the admin token is found in the cookie string and turned into request headers;
- the route gate in front of `/dashboard`;
- which sidebar link is highlighted;
- the search, status filter, local update, local delete and ten-row
  pagination of the five list screens (orders, products, promo codes, blogs, categories);
- the product picker and the validation schema of the "add category" form;
- the payloads of the "new promo code", "new blog" and "edit blog" forms.

This project states those rules in Dafny and proves what they guarantee.

Layout, one module per source file plus four shared ones:

| file | module | models |
|---|---|---|
| wrappers.dfy | `Wrappers` | `Option` for absent values |
| text.dfy | `Text` | `trim`, `toLowerCase`/`toUpperCase`, `includes`, `startsWith`, `split` on one character, `join` |
| lists.dfy | `Lists` | `filter`, `map`, "remove every record with this id", order-preserving subsequences |
| paging.dfy | `Paging` | the slice, `Math.ceil(n / 10)`, the `1..totalPages` loop and the previous/next controls |
| auth.dfy | `Auth` | `lib/auth.ts`: `getToken`, `getAuthHeader` |
| middleware.dfy | `RouteGate` | `middleware.ts` |
| navigation.dfy | `Navigation` | `app/dashboard/layout.tsx`: `navItems` and `isActive` |
| orders.dfy | `Orders` | `app/dashboard/orders/page.tsx` |
| products.dfy | `Products` | `app/dashboard/products/page.tsx` |
| promo_codes.dfy | `PromoCodes` | `app/dashboard/promo-codes/page.tsx` |
| blogs.dfy | `Blogs` | `app/dashboard/blogs/page.tsx` |
| categories.dfy | `Categories` | `app/dashboard/categories/page.tsx` |
| new_category.dfy | `NewCategory` | `app/dashboard/categories/new/page.tsx` |
| new_promo_code.dfy | `NewPromoCode` | `app/dashboard/promo-codes/new/page.tsx` |
| blog_new.dfy | `NewBlog` | `app/dashboard/blogs/new/page.tsx` |
| blog_edit.dfy | `EditBlog` | `app/dashboard/blogs/edit/page.tsx` |

How the code's form is kept:

- Each list screen is a class. Its fields are the React state: the loaded
  list, the filtered list, the query and the current page. Its methods are
  the handlers.
- The filter effect that React re-runs after a change of its dependencies
  is the method `ApplyFilters` / `ApplySearch`. Every handler keeps the
  invariant `Valid()`: the filtered list is an order-preserving
  subsequence of the loaded one.
- `getToken`'s for-of loop and every `paginationItems` loop are methods
  with loop invariants. Each is proved equal to a specification function.
- Pure rules are functions with lemmas about them.

No discount is computed anywhere in the modelled code. The promo-code
screens only list codes and build payloads, so the model has no discount
evaluator.

## Model

| member | source | states |
|---|---|---|
| Auth.SegmentValue | lib/auth.ts:76 | the value of a segment is the piece after the first `=`, or `undefined` when there is none; it is never `null` |
| Auth.FindSegment | lib/auth.ts:74-81 | the for-of loop with its early return gives exactly the first-matching-segment lookup over the segments |
| Auth.GetToken | lib/auth.ts:73-82 | `getToken` is that lookup over `document.cookie.split(';')` for the cookie name `grabgardenn_admin_token` (`TOKEN_KEY`, line 4) |
| Auth.LookupNull | lib/auth.ts:74-81 | the result is `null` exactly when no segment, once trimmed, has the key as the text before its first `=` |
| Auth.LookupFirstMatch | lib/auth.ts:75-79 | when several segments match, the value of the first one is returned |
| Auth.SegmentPadded | lib/auth.ts:76 | white space around a segment changes neither its name nor its value |
| Auth.SegmentValueStopsAtSecondEquals | lib/auth.ts:76 | the value is the text between the first and the second `=`; whatever follows a second `=` is dropped |
| Auth.SplitNameValue | lib/auth.ts:76 | splitting `name=value=…` on `=` gives `name` then `value` |
| Auth.SegmentWithoutEquals | lib/auth.ts:76-78 | a matching segment without `=` yields `undefined`, not `null` |
| Auth.AuthHeader | lib/auth.ts:86-89 | the header map has exactly the keys `Authorization` and `Content-Type`; `Content-Type` is `application/json`; `Authorization` is `Bearer ` followed by the token's text |
| Auth.NullTokenHeader | lib/auth.ts:87 | a `null` token is sent as the literal `Bearer null` |
| Auth.NoTokenSendsBearerNull | lib/auth.ts:85-87 | without a segment named by the key, the header is the literal `Bearer null` |
| RouteGate.Middleware | middleware.ts:4-18 | the only redirect the gate issues goes to `/auth/login` |
| RouteGate.AuthPathsPass | middleware.ts:8-10 | every path starting with `/auth` passes, whatever the cookie |
| RouteGate.DashboardIsNotAuth | middleware.ts:8-13 | no `/dashboard` path also starts with `/auth`, so the first test never shadows the second |
| RouteGate.DashboardNeedsLogin | middleware.ts:13-15 | a `/dashboard` path is redirected exactly when `isLoggedIn` is absent or empty, and passes exactly when it is truthy |
| RouteGate.AnyValueLogsIn | middleware.ts:5 | any non-empty cookie value lets a request through, not only `true` |
| RouteGate.OtherPathsPass | middleware.ts:17 | paths under neither prefix pass |
| RouteGate.RedirectIsFinal | middleware.ts:8-14 | the redirect target passes the gate, so a redirected request is not redirected again |
| Navigation.ActiveOnItself | app/dashboard/layout.tsx:89-90 | a link is active on its own page |
| Navigation.ActiveBelow | app/dashboard/layout.tsx:90 | a link is active on every path `href + "/" + rest` |
| Navigation.TextualPrefixInactive | app/dashboard/layout.tsx:90 | a path that extends the link's text with any character but `/` does not activate it |
| Navigation.ProductsXInactive | app/dashboard/layout.tsx:90 | `/dashboard/productsX` does not activate the products link |
| Navigation.ActiveIsPrefix | app/dashboard/layout.tsx:150-152 | an active link's href is a prefix of the path |
| Navigation.HrefsIndependent | app/dashboard/layout.tsx:59-65 | no href of `navItems` is a prefix of another |
| Navigation.AtMostOneActive | app/dashboard/layout.tsx:59-65 | at most one of the five links is active on any path |
| Navigation.DashboardRootInactive | app/dashboard/layout.tsx:59-65 | the bare `/dashboard` path highlights no link |
| Orders.FilterOrders | app/dashboard/orders/page.tsx:89-113 | the filtered list is an order-preserving subsequence of the orders, and holds an order exactly when it has the chosen status (any status for `all`) and the query is blank or hits it |
| Orders.UnfilteredShowsAll | app/dashboard/orders/page.tsx:93-98 | with status `all` and a blank or white-space-only query the filtered list is the whole list |
| Orders.FilteredHaveStatus | app/dashboard/orders/page.tsx:93-95 | with a status other than `all` every filtered order has that status |
| Orders.FilteredContainQuery | app/dashboard/orders/page.tsx:98-107 | with a non-blank query every kept order holds the lower-cased query in its lower-cased id, user name, user email or shipping name, or in its raw phone |
| Orders.QueryIsNotTrimmed | app/dashboard/orders/page.tsx:99 | the query is lower-cased but not trimmed: a leading space misses orders whose fields hold no white space |
| Orders.NoWhitespaceMisses | app/dashboard/orders/page.tsx:102-106 | a query starting with white space is not contained in a field without white space |
| Orders.UpdateStatus | app/dashboard/orders/page.tsx:121-123 | the local update keeps the length, gives the new status to every order with the id, and changes no other field and no other order |
| Orders.UpdateStatusIdempotent | app/dashboard/orders/page.tsx:121-123 | setting the same status twice is setting it once |
| Orders.UpdateAgreesWithRefilter | app/dashboard/orders/page.tsx:121-129 | with status `all`, updating the filtered list in place gives what re-filtering the updated orders gives |
| Orders.UpdateCanLeaveStaleRow | app/dashboard/orders/page.tsx:125-129 | with a status filter, an order moved out of the filtered status stays in the locally updated list until the filter effect runs |
| Orders.OrdersPage.constructor | app/dashboard/orders/page.tsx:59-63 | the screen starts with empty lists, an empty query, status `all` and page 1 |
| Orders.OrdersPage.LoadOrders | app/dashboard/orders/page.tsx:68-86 | the loaded orders (or the mock orders on failure) replace both lists |
| Orders.OrdersPage.SetSearchQuery | app/dashboard/orders/page.tsx:61 | the search input changes only the query |
| Orders.OrdersPage.SetStatusFilter | app/dashboard/orders/page.tsx:62 | the status select changes only the status filter |
| Orders.OrdersPage.ApplyFilters | app/dashboard/orders/page.tsx:89-113 | the filter effect sets the filtered list to `FilterOrders` of the state and resets the page to 1 |
| Orders.OrdersPage.HandleStatusUpdate | app/dashboard/orders/page.tsx:116-143 | after an accepted update both lists are `UpdateStatus` of their old values; a failed one changes nothing; the subsequence invariant holds |
| Orders.OrdersPage.PaginationItems | app/dashboard/orders/page.tsx:152-155 | the page buttons are exactly `1..totalPages` |
| Orders.OrdersPage.PreviousPage | app/dashboard/orders/page.tsx:333 | the previous control moves back one page unless on page 1 |
| Orders.OrdersPage.NextPage | app/dashboard/orders/page.tsx:359 | the next control moves forward one page only while not on the last page |
| Orders.OrdersPage.GoToPage | app/dashboard/orders/page.tsx:345 | a page button selects its page |
| Paging.TotalPages | app/dashboard/orders/page.tsx:149 | `Math.ceil(n / 10)`: the fewest pages of ten that hold `n` rows, and 0 only for no rows |
| Paging.PageSlice | app/dashboard/orders/page.tsx:146-148 | a page holds at most ten rows, the rows from index `(page - 1) * 10` on |
| Paging.PagesUpToPrefix | app/dashboard/orders/page.tsx:146-149 | pages `1..k` shown one after the other are the first `10k` rows |
| Paging.PagesCoverList | app/dashboard/orders/page.tsx:146-149 | pages `1..totalPages` together show every row once, in order |
| Paging.RowOnItsPage | app/dashboard/orders/page.tsx:146-149 | row `i` appears on page `i / 10 + 1` at position `i % 10`, and that page has a button |
| Paging.NonEmptyPage | app/dashboard/orders/page.tsx:148-149 | a page has rows exactly when it is one of `1..totalPages` |
| Paging.Previous | app/dashboard/orders/page.tsx:333 | the previous control goes to `current - 1` above page 1 and stays on page 1 |
| Paging.Next | app/dashboard/orders/page.tsx:359 | the next control goes to `current + 1` exactly when `current < totalPages`, and otherwise stays |
| Paging.ControlsStayInRange | app/dashboard/orders/page.tsx:333-359 | from a page with a button, neither control leaves the range `1..totalPages` |
| Paging.PaginationItems | app/dashboard/orders/page.tsx:152-155 | the loop pushes exactly `1, 2, …, totalPages` |
| Products.SearchProducts | app/dashboard/products/page.tsx:73-88 | the result is an order-preserving subsequence holding a product exactly when the query is blank or hits its name, present non-empty Hindi name or category name |
| Products.BlankSearchShowsAll | app/dashboard/products/page.tsx:74-75 | a blank or white-space-only query shows the whole list, in its order |
| Products.EmptyHindiNameIsAbsent | app/dashboard/products/page.tsx:81 | an empty Hindi name is falsy and searched like an absent one |
| Products.DeleteAgreesWithSearch | app/dashboard/products/page.tsx:96-97 | deleting from the search result gives what searching the list left by the delete gives |
| Products.DisplayProducts | app/dashboard/products/page.tsx:203 | the rows of the page are shown, or the mock catalogue when the page is empty |
| Products.NoMatchShowsMock | app/dashboard/products/page.tsx:203 | a search that matches nothing shows the mock catalogue, not an empty table |
| Products.PastLastPageShowsMock | app/dashboard/products/page.tsx:203 | a page past the last one shows the mock catalogue |
| Products.StockBadge | app/dashboard/products/page.tsx:301 | the badge is `default` above 10, `outline` above 0 up to 10 (fractional stock included) and `destructive` at 0 or below |
| Products.StockLabel | app/dashboard/products/page.tsx:304 | the badge shows the stock count when positive and "Out of stock" otherwise |
| Products.OutOfStockIsDestructive | app/dashboard/products/page.tsx:301-304 | "Out of stock" appears exactly on the destructive badge |
| Products.FractionalStockIsOutline | app/dashboard/products/page.tsx:301-304 | a stock of 0.5 is shown as 0.5 on the outline badge |
| Products.ProductsPage.constructor | app/dashboard/products/page.tsx:43-46 | the screen starts with empty lists, an empty query and page 1 |
| Products.ProductsPage.LoadProducts | app/dashboard/products/page.tsx:51-70 | a response replaces both lists; a failed request changes nothing |
| Products.ProductsPage.SetSearchQuery | app/dashboard/products/page.tsx:45 | the search input changes only the query |
| Products.ProductsPage.ApplySearch | app/dashboard/products/page.tsx:73-88 | the search effect sets the filtered list to `SearchProducts` of the state and resets the page to 1 |
| Products.ProductsPage.HandleDeleteProduct | app/dashboard/products/page.tsx:91-111 | after a delete every product with the id leaves both lists, the rest keep their order; a failed delete changes nothing |
| Products.ProductsPage.PaginationItems | app/dashboard/products/page.tsx:120-123 | the page buttons are exactly `1..totalPages` |
| Products.ProductsPage.PreviousPage | app/dashboard/products/page.tsx:372 | the previous control moves back one page unless on page 1 |
| Products.ProductsPage.NextPage | app/dashboard/products/page.tsx:398 | the next control moves forward one page only while not on the last page |
| Products.ProductsPage.GoToPage | app/dashboard/products/page.tsx:384 | a page button selects its page |
| PromoCodes.SearchCodes | app/dashboard/promo-codes/page.tsx:67-79 | the result is an order-preserving subsequence holding a code exactly when the query is blank or the lower-cased code contains the lower-cased query |
| PromoCodes.BlankSearchShowsAll | app/dashboard/promo-codes/page.tsx:68-69 | a blank query shows the whole list, in its order |
| PromoCodes.SetActive | app/dashboard/promo-codes/page.tsx:89-95 | the local flip keeps the length, sets `active` on every code with the id and changes nothing else |
| PromoCodes.ToggleBackRestores | app/dashboard/promo-codes/page.tsx:82-95 | flipping a code with its row's status and flipping it back restores the list |
| PromoCodes.ToggleAgreesWithSearch | app/dashboard/promo-codes/page.tsx:89-95 | flipping in the search result gives what searching the flipped list gives |
| PromoCodes.DeleteAgreesWithSearch | app/dashboard/promo-codes/page.tsx:119-120 | deleting from the search result gives what searching the list left by the delete gives |
| PromoCodes.SwitchDisabled | app/dashboard/promo-codes/page.tsx:243 | the status switch is disabled exactly when `isExpired` holds for the code's expiry, the same test that shows the Expired badge (line 229) |
| PromoCodes.ExpiryIsStrict | app/dashboard/promo-codes/page.tsx:159-163 | a code expiring exactly now is not yet expired; one tick later it is |
| PromoCodes.ExpiryIsMonotone | app/dashboard/promo-codes/page.tsx:159-163 | once expired, a code stays expired |
| PromoCodes.DiscountLabelOf | app/dashboard/promo-codes/page.tsx:221 | a percent code shows `value% off`, any other `₹value off` |
| PromoCodes.MinimumOrderLabelOf | app/dashboard/promo-codes/page.tsx:224 | a positive minimum order shows as rupees, any other as `None` |
| PromoCodes.UsageOf | app/dashboard/promo-codes/page.tsx:237 | usage shows `used/max` exactly when `maxUses` is present and not zero, and the bare used count otherwise |
| PromoCodes.ZeroLimitShowsAsUnset | app/dashboard/promo-codes/page.tsx:237 | a limit of 0 is shown like no limit at all |
| PromoCodes.PromoCodesPage.constructor | app/dashboard/promo-codes/page.tsx:38-41 | the screen starts with empty lists, an empty query and page 1 |
| PromoCodes.PromoCodesPage.LoadPromoCodes | app/dashboard/promo-codes/page.tsx:46-64 | the fetched codes (or the mock codes on failure) replace both lists |
| PromoCodes.PromoCodesPage.SetSearchQuery | app/dashboard/promo-codes/page.tsx:40 | the search input changes only the query |
| PromoCodes.PromoCodesPage.ApplySearch | app/dashboard/promo-codes/page.tsx:67-79 | the search effect sets the filtered list to `SearchCodes` of the state and resets the page to 1 |
| PromoCodes.PromoCodesPage.HandleToggleStatus | app/dashboard/promo-codes/page.tsx:82-111 | only when the response reports `success` do both lists get `!currentStatus` for the id; otherwise nothing changes |
| PromoCodes.PromoCodesPage.HandleDeletePromoCode | app/dashboard/promo-codes/page.tsx:114-134 | after a delete every code with the id leaves both lists, the rest keep their order; a failed delete changes nothing |
| PromoCodes.PromoCodesPage.PaginationItems | app/dashboard/promo-codes/page.tsx:143-146 | the page buttons are exactly `1..totalPages` |
| PromoCodes.PromoCodesPage.PreviousPage | app/dashboard/promo-codes/page.tsx:312 | the previous control moves back one page unless on page 1 |
| PromoCodes.PromoCodesPage.NextPage | app/dashboard/promo-codes/page.tsx:338 | the next control moves forward one page only while not on the last page |
| PromoCodes.PromoCodesPage.GoToPage | app/dashboard/promo-codes/page.tsx:324 | a page button selects its page |
| Blogs.SearchBlogs | app/dashboard/blogs/page.tsx:61-75 | the result is an order-preserving subsequence holding a blog exactly when the query is blank or hits its lower-cased title or some lower-cased tag |
| Blogs.BlankSearchShowsAll | app/dashboard/blogs/page.tsx:62-63 | a blank query shows the whole list, in its order |
| Blogs.UntaggedFoundByTitle | app/dashboard/blogs/page.tsx:68-69 | a blog without tags is found only through its title |
| Blogs.HitTagFindsBlog | app/dashboard/blogs/page.tsx:69 | one tag the query hits is enough to find the blog |
| Blogs.DeleteAgreesWithSearch | app/dashboard/blogs/page.tsx:83-84 | deleting from the search result gives what searching the list left by the delete gives |
| Blogs.BlogsPage.constructor | app/dashboard/blogs/page.tsx:35-38 | the screen starts with empty lists, an empty query and page 1 |
| Blogs.BlogsPage.LoadBlogs | app/dashboard/blogs/page.tsx:43-58 | a response replaces both lists; a failed request changes nothing |
| Blogs.BlogsPage.SetSearchQuery | app/dashboard/blogs/page.tsx:37 | the search input changes only the query |
| Blogs.BlogsPage.ApplySearch | app/dashboard/blogs/page.tsx:61-75 | the search effect sets the filtered list to `SearchBlogs` of the state and resets the page to 1 |
| Blogs.BlogsPage.HandleDeleteBlog | app/dashboard/blogs/page.tsx:78-98 | after a delete every blog with the id leaves both lists, the rest keep their order; a failed delete changes nothing |
| Blogs.BlogsPage.PaginationItems | app/dashboard/blogs/page.tsx:107-110 | the page buttons are exactly `1..totalPages` |
| Blogs.BlogsPage.PreviousPage | app/dashboard/blogs/page.tsx:270 | the previous control moves back one page unless on page 1 |
| Blogs.BlogsPage.NextPage | app/dashboard/blogs/page.tsx:296 | the next control moves forward one page only while not on the last page |
| Blogs.BlogsPage.GoToPage | app/dashboard/blogs/page.tsx:282 | a page button selects its page |
| Categories.SearchCategories | app/dashboard/categories/page.tsx:81-92 | the result is an order-preserving subsequence holding a category exactly when the query is blank or its lower-cased name contains the lower-cased query |
| Categories.BlankSearchShowsAll | app/dashboard/categories/page.tsx:82-83 | a blank query shows the whole list, in its order |
| Categories.SearchIgnoresCase | app/dashboard/categories/page.tsx:85-88 | a query and its lower-cased form find the same categories |
| Categories.DeleteAgreesWithSearch | app/dashboard/categories/page.tsx:100-101 | deleting from the search result gives what searching the list left by the delete gives |
| Categories.CategoriesPage.constructor | app/dashboard/categories/page.tsx:51-56 | the screen starts with empty lists and an empty query |
| Categories.CategoriesPage.LoadCategories | app/dashboard/categories/page.tsx:59-78 | a response replaces both lists; a failed request changes nothing |
| Categories.CategoriesPage.SetSearchQuery | app/dashboard/categories/page.tsx:51 | the search input changes only the query |
| Categories.CategoriesPage.ApplySearch | app/dashboard/categories/page.tsx:81-92 | the search effect sets the filtered list to `SearchCategories` of the state; this screen has no page to reset |
| Categories.CategoriesPage.HandleDeleteCategory | app/dashboard/categories/page.tsx:95-115 | after a delete every category with the id leaves both lists, the rest keep their order; a failed delete changes nothing |
| NewCategory.Ids | app/dashboard/categories/new/page.tsx:215 | `map(p => p._id)`: the ids of the selection, one per product, in order |
| NewCategory.FindById | app/dashboard/categories/new/page.tsx:206 | `find` returns a product exactly when one has the id, and then the first such product |
| NewCategory.RemoveKeepsDistinct | app/dashboard/categories/new/page.tsx:256-258 | removing products keeps the ids of the selection distinct |
| NewCategory.RemovedIdIsGone | app/dashboard/categories/new/page.tsx:256-258 | after a removal no selected product has the id |
| NewCategory.RemoveUndoesAdd | app/dashboard/categories/new/page.tsx:211-258 | removing a product that was just appended gives back the earlier selection |
| NewCategory.SchemaIssuesAsWritten | app/dashboard/categories/new/page.tsx:37-44 | the schema as written complains about a name shorter than two characters, a missing `_id` and a missing `createdAt` |
| NewCategory.AsWrittenRejectsTheForm | app/dashboard/categories/new/page.tsx:42-43 | every form value without `_id` and `createdAt` is rejected as written |
| NewCategory.AsWrittenRejectsGoodName | app/dashboard/categories/new/page.tsx:63-68 | the default values with a good name are still rejected, for `_id` and `createdAt` |
| NewCategory.SchemaIssues | app/dashboard/categories/new/page.tsx:38 | the corrected schema accepts exactly the values whose name has at least two characters |
| NewCategory.CorrectedIsWeaker | app/dashboard/categories/new/page.tsx:37-44 | the corrected schema only complains where the written one does, and agrees with it when `_id` and `createdAt` are present |
| NewCategory.NewCategoryPage.constructor | app/dashboard/categories/new/page.tsx:57-69 | the form starts from its default values with nothing offered or selected |
| NewCategory.NewCategoryPage.LoadProducts | app/dashboard/categories/new/page.tsx:71-83 | the fetched products are offered; a failed request changes nothing |
| NewCategory.NewCategoryPage.SetName | app/dashboard/categories/new/page.tsx:144 | the name input changes only the name |
| NewCategory.NewCategoryPage.SetDescription | app/dashboard/categories/new/page.tsx:154 | the description input changes only the description |
| NewCategory.NewCategoryPage.SetImage | app/dashboard/categories/new/page.tsx:174-185 | an image URL or upload changes only the image |
| NewCategory.NewCategoryPage.SelectProduct | app/dashboard/categories/new/page.tsx:205-218 | the first offered product with the id is appended exactly when it exists and no selected product has the id; the ids stay distinct and the form's `products` are the selection's ids |
| NewCategory.NewCategoryPage.RemoveProduct | app/dashboard/categories/new/page.tsx:255-264 | every product with the id leaves the selection, the others keep their order, the ids stay distinct and the form's `products` follow |
| NewCategory.NewCategoryPage.HandleSubmit | app/dashboard/categories/new/page.tsx:85-106 | the values are posted exactly when the schema accepts them; after a successful post the form is reset and the selection emptied |
| NewPromoCode.Changed | app/dashboard/promo-codes/new/page.tsx:43-48 | `handleChange` sets the named field to the event's value and leaves every other field unchanged |
| NewPromoCode.ChangesCommute | app/dashboard/promo-codes/new/page.tsx:46-47 | changes of two different fields can be made in either order |
| NewPromoCode.LastChangeWins | app/dashboard/promo-codes/new/page.tsx:46-47 | a change overrides an earlier change of the same field |
| NewPromoCode.NewPromoCodePage.constructor | app/dashboard/promo-codes/new/page.tsx:25-41 | the form opens with empty inputs, a flat discount, one use per user off and active on |
| NewPromoCode.NewPromoCodePage.HandleChange | app/dashboard/promo-codes/new/page.tsx:43-48 | the form becomes `Changed` of the old form and the event |
| NewPromoCode.NewPromoCodePage.SetOneTimeUsePerUser | app/dashboard/promo-codes/new/page.tsx:246-248 | the switch changes only `oneTimeUsePerUser` |
| NewPromoCode.NewPromoCodePage.SetActive | app/dashboard/promo-codes/new/page.tsx:256-258 | the switch changes only `active` |
| NewPromoCode.NewPromoCodePage.BuildPayload | app/dashboard/promo-codes/new/page.tsx:55-82 | the code is upper-cased; `minimumOrder` is 0 for an empty field; `maxUses` is absent for an empty field; `value` is present exactly outside BUNDLE; `maxDiscount` only in PERCENT and when given; `bundle` exactly in BUNDLE; so a payload has a value or a bundle, never both |
| NewPromoCode.UpperCodeHasNoLowerCase | app/dashboard/promo-codes/new/page.tsx:56 | the upper-cased code holds no lower-case letter |
| NewBlog.SplitTags | app/dashboard/blogs/new/page.tsx:33 | there is one tag per comma plus one, each the trimmed comma-separated piece |
| NewBlog.TagsHaveNoComma | app/dashboard/blogs/new/page.tsx:33 | no tag contains a comma |
| NewBlog.TagsAreTrimmed | app/dashboard/blogs/new/page.tsx:33 | no tag starts or ends with white space |
| NewBlog.EmptyTagsGiveOneEmptyTag | app/dashboard/blogs/new/page.tsx:33 | an empty tags field gives a single empty tag |
| NewBlog.Slugify | app/dashboard/blogs/new/page.tsx:35 | `replace(/\s+/g, "-")` leaves no white space and never lengthens the text |
| NewBlog.SlugOfWord | app/dashboard/blogs/new/page.tsx:35 | text without white space is left alone |
| NewBlog.SlugOfRun | app/dashboard/blogs/new/page.tsx:35 | a whole run of white space after a word becomes a single `-` |
| NewBlog.SlugOfLeadingRun | app/dashboard/blogs/new/page.tsx:35 | a leading run of white space becomes a single `-` |
| NewBlog.UrlTitle | app/dashboard/blogs/new/page.tsx:35 | a non-empty `urlTitle` is used verbatim; otherwise the fallback slug has no white space and is no longer than the title |
| NewBlog.OneWordSlug | app/dashboard/blogs/new/page.tsx:35 | the fallback of a one-word title is that word lower-cased |
| NewBlog.NewBlogPayload | app/dashboard/blogs/new/page.tsx:30-36 | the payload carries the title, content and cover image as typed, the split tags and the URL title with its fallback |
| EditBlog.TagsText | app/dashboard/blogs/edit/page.tsx:36 | `join(', ')`: a single tag is itself and no tags give the empty text; the general case is stated by `EditBlog.JoinCommaSpace` |
| EditBlog.EditBlogPayload | app/dashboard/blogs/edit/page.tsx:55-61 | the update payload carries the split tags and the URL title verbatim |
| EditBlog.EditDiffersOnlyInUrlTitle | app/dashboard/blogs/edit/page.tsx:60 | the edit and create payloads agree except on an empty URL title, where only the create page derives a slug |
| EditBlog.JoinCommaSpace | app/dashboard/blogs/edit/page.tsx:36 | joining with `, ` is joining with `,` after putting a space before every tag but the first |
| EditBlog.SplitTagsText | app/dashboard/blogs/edit/page.tsx:36-58 | splitting the loaded text on `,` gives the tags, each but the first behind the space of the `, ` |
| EditBlog.TrimPiece | app/dashboard/blogs/edit/page.tsx:58 | trimming a split piece gives back its already-trimmed tag |
| EditBlog.TagsRoundTrip | app/dashboard/blogs/edit/page.tsx:36-58 | for a non-empty list of comma-free, already-trimmed tags, the update sends back exactly the loaded tags |
| EditBlog.NoTagsComeBackAsOneEmptyTag | app/dashboard/blogs/edit/page.tsx:36-58 | a blog without tags comes back from the update with one empty tag |

## Left out

- Network calls: axios, `fetch`, the S3 upload and the backend's answers. Each handler takes the outcome as a parameter instead (`deleted`, `saved`, `success`, `posted`, an `Option` response).
- Toasts, router navigation, loading flags, `console` output and all JSX rendering, including badge colours and class names.
- Mock data: `getMockOrders`, `getMockPromoCodes` and `mockProducts` are not reproduced. The mock catalogue is a parameter of `DisplayProducts`, and the load methods take the list that was loaded or mocked.
- React scheduling: the filter and search effects are the separate methods `ApplyFilters` / `ApplySearch`. The model does not state when React runs them.
- `isExpired`'s date parsing and `toLocaleDateString` formatting. Expiry dates are integer time stamps, and `None` is a string that does not parse, which compares false and never expires.
- `Number()`: the new promo-code payload takes the parse as the parameter `toNumber`. A parsed value is a natural number or `NaN`; negative and fractional numbers are not distinguished.
- Products.StockBadge / Products.StockLabel: `stock` is a real, so fractional stock is covered, but a `NaN` stock (destructive badge, "Out of stock" in the page) is not modelled.
- PromoCodes.UsageOf: `value`, `minimumOrder`, `maxUses` and `usedCount` of the loaded codes are reals; `NaN` values (a `NaN` `maxUses` is falsy and shows the bare count) are not modelled. `OrderData.total` is an integer and no rule reads it.
- `toLowerCase` / `toUpperCase` map only the ASCII letters; other characters are left as they are.
- The JavaScript number-to-text formatting inside the row labels. The labels are datatypes carrying the numbers.
- `config.matcher` of `middleware.ts`: the gate is modelled for every path, not only those the matcher sends to it.
- The cookie writes of `loginAdmin`, `logoutAdmin` and `checkAuth`, and the calls they make. They are network and `document.cookie` side effects.
- `lib/api.ts`, `lib/upload.ts`, `app/auth/login/page.tsx`, `app/api/dashboard/stats/route.ts`, `types/dashboard.ts` and the edit and detail pages for products, categories, promo codes and orders are not part of this model.
- NewCategory.SchemaIssues: lengths count characters, not the UTF-16 code units zod counts.
- NewCategory.NewCategoryPage.HandleSubmit: uses the corrected schema (see Findings), so it states what the form evidently intends rather than the rejection the written schema produces.

## Findings

| source | as written | input that shows it | evidently intended | confidence | as-written member | corrected member |
|---|---|---|---|---|---|---|
| app/dashboard/categories/new/page.tsx:42-43 | `CategorySchema` requires `_id: z.string()` and `createdAt: z.string()`, but the default values (lines 63-68) leave both out and no input of the form sets them | the default values with the name `Seeds` are rejected for `_id` and `createdAt`, so `onSubmit` never runs | `_id` and `createdAt` optional (or not in the schema), so that a form with a name of at least two characters is posted | not executed | NewCategory.AsWrittenRejectsGoodName | NewCategory.SchemaIssues |
