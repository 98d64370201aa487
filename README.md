# lizmart storefront and admin dashboard: a Dafny model

lizmart is a Next.js shop with an admin dashboard. Most of the code is database glue plus React widgets. Under it sits a layer of small, deterministic logic, and this project models that layer and proves what it promises. The layer covers:

- the catalog queries: filter, sort and pagination arithmetic;
- the product reshaper: fallback chains and the display-price choice;
- the KPI windows: calendar periods and the percent-change rule;
- the dashboard aggregations: yearly cart and order counts, units sold per collection, monthly order totals, payment rows and undelivered orders;
- the page-level row mappers and the admin guard;
- the string helpers, county lookups, option-list parsing and image-list merging;
- the navbar dropdown controller;
- the sign-in callbacks;
- the zod request schemas.

Every database query becomes a function over an in-memory sequence of rows. A `where` clause becomes a predicate. An `orderBy` becomes a sort by an explicit comparator (`Sorting.SortBy`, an insertion sort proved sorted and a permutation). `skip`/`take` becomes `Paging.Window`.

## Layout

One Dafny module per core source file, plus shared modules.

**Shared modules**

| module | file | contents |
|---|---|---|
| `Wrappers` | `wrappers.dfy` | `Option`/`Result` |
| `Text` | `text.dfy` | the JavaScript string methods the code calls, ASCII case mapping |
| `Json` | `json.dfy` | JavaScript values received from JSON columns and request bodies, with truthiness and nullishness |
| `Seqs` | `seqs.dfy` | `map`, `filter`, `map(...).filter(Boolean)`, `find`, sums |
| `Grouping` | `grouping.dfy` | per-key sums, first-appearance order |
| `Sorting` | `sorting.dfy` | sorting by a comparator |
| `Paging` | `paging.dfy` | page arithmetic |
| `Zod` | `zod.dfy` | a small interpreter for the zod schemas the request validators use |

**Source modules**

- Catalog:
  - `ProductsQuery`: `actions/api/products.ts`
  - `HealthTopics`: `actions/api/get-health-topic.ts`
  - `ProductsByCollection`: `get-products-by-collection.tsx`
  - `Collections`: `get-collections.ts`
  - `ReshapeProduct`: `lib/server-helpers/reshapeProduct.ts`
- Dashboard actions:
  - `StoreKpis`: `getStoreKpis.ts`
  - `OrderChart`: `getOrderChartData.tsx`
  - `Payments`: `getPayments.ts`
  - `UndeliveredOrders`: `getUndeliveredOrders.ts`
  - `CartVsOrders`: the cart-vs-orders route
  - `CollectionSales`: `getCollectionSales.ts`
- Pages:
  - `OrdersPage`: `app/orders/page.tsx`
  - `AdminPages`: the five admin pages
- Components:
  - `OrdersList`
  - `ProductOptions`: `ProductsOptionsForm.tsx`
  - `ImageUpload`: a `Picker` class whose `localUrls` field is the widget's list of URLs, with the `onChange` and `onRemove` calls recorded in its `changes` and `removals` fields
  - `CategoryMenu`: a `Navbar` class whose fields are the open key, the pending close and the drawer
- Helpers and sign-in:
  - `Utils`: `lib/utils.ts`
  - `Counties`: `lib/counties-sub.ts`
  - `AuthCommon`, `AuthNode`: the sign-in configuration
- Schemas: `CartSchemas`, `OrderSchemas`, `ProductSchemas`, `AddressSchemas`, `MenuSchemas`, `PageSchemas`

## Notation

Where the source computes with a loop or by updating state, the model does too, as a method proved against the function that specifies it. This covers:

- the three nested loops of the collection sales;
- the reduce of the order chart and the loop of the environment check;
- the if-blocks of the display price;
- the dropdown controller and the image picker.

Everything else is functions and lemmas.

Zod schemas are values of a `Schema` datatype with a `Parse` function. Each request schema gets two kinds of statement:

- where the source states a full rule, a lemma that `Parse` accepts exactly the values of a plain predicate;
- lemmas about its defaults and coercions.

The string formats zod checks (email, UUID, CUID, URL) and JavaScript's `String(value)` are parameters, collected in a `Formats` record.

## Model

| member | source | states |
|---|---|---|
| AdminPages.Guard | app/dashboard/admin/products/page.tsx:14-21 | with no user the page redirects to "dashboard/login"; a signed-in user whose role is not ADMIN goes to "/unauthorized"; no redirect exactly when the user is a signed-in admin |
| AdminPages.GuardedPage | app/dashboard/admin/orders/page.tsx:12-23 | the page's data is loaded and rendered exactly when a signed-in admin asks, and otherwise the guard's redirect is returned |
| AdminPages.FirstProductImage | app/dashboard/admin/collections/page.tsx:29-30 | the image is the first product's first image url; it falls back to that product's featured image url, then to null, and there is none without products |
| AdminPages.OnlyFirstProductCounts | app/dashboard/admin/collections/page.tsx:21-30 | the products after the first never change the image |
| AdminCollectionsPage.Format | app/dashboard/admin/collections/page.tsx:28-38 | a row keeps id, title, handle and creation time, counts the product links (0 when the count is missing) and takes the first-product image |
| AdminCollectionsPage.Formatted | app/dashboard/admin/collections/page.tsx:25-39 | one row per collection, newest first, and the rows are a permutation of the formatted collections |
| AdminHealthTopicsPage.Format | app/dashboard/admin/health-topics/page.tsx:27-39 | a row keeps id, title, handle and creation time, counts the related products (0 when the count is missing) and takes the first-product image |
| AdminHealthTopicsPage.Formatted | app/dashboard/admin/health-topics/page.tsx:24-40 | one row per topic, newest first, and the rows are a permutation of the formatted topics |
| AdminProductsPage.Format | app/dashboard/admin/products/page.tsx:34-42 | the image is the first image's url or null; the price is the first variant's price or 0; in stock iff some variant is for sale; the collection titles stay in link order |
| AdminProductsPage.PriceIsFirstVariant | app/dashboard/admin/products/page.tsx:38-39 | a product whose second variant is cheaper still shows the first variant's price, and a product without variants is out of stock |
| AdminProductsPage.FormattedProducts | app/dashboard/admin/products/page.tsx:23-42 | one row per product, newest first, and the rows are a permutation of the formatted products |
| AdminProductsPage.ProductsPage | app/dashboard/admin/products/page.tsx:9-42 | the page redirects as the guard says, and only a signed-in admin sees the formatted products |
| AdminOrdersPage.Format | app/dashboard/admin/orders/page.tsx:25-40 | the user's email, or "Guest"; a missing total counts as 0; a missing shipping address stays missing, and otherwise only its full name and county are kept; the other fields pass through |
| AdminOrdersPage.FormattedOrders | app/dashboard/admin/orders/page.tsx:20-40 | one row per order, newest first, and the rows are a permutation of the formatted orders |
| AdminOrdersPage.OrdersPage | app/dashboard/admin/orders/page.tsx:7-40 | the page redirects as the guard says, and only a signed-in admin sees the formatted orders |
| AdminUsersPage.OrElse | app/dashboard/admin/users/page.tsx:19-22 | a non-empty value is kept, and both a missing value and the empty string take the fallback |
| AdminUsersPage.ToDto | app/dashboard/admin/users/page.tsx:17-24 | the avatar falls back to "/users/default.png", the name to "Unnamed User" and the email to "No email"; the status is always "active"; id and role pass through |
| AdminUsersPage.StatusIgnoresAllowed | app/dashboard/admin/users/page.tsx:13-20 | the selected allowed flag never changes a user's row |
| AdminUsersPage.Users | app/dashboard/admin/users/page.tsx:5-25 | one row per user, in query order |
| AuthCommon.Authorized | auth/auth.common.ts:23-35 | the request is redirected exactly when it is for an admin route and there is no session, and the redirect goes to the sign-in page on the request's origin |
| AuthCommon.PublicRoutesAreAllowed | auth/auth.common.ts:25-34 | the listed public routes are always allowed, so the public-route test never affects the decision |
| AuthCommon.SignedInIsAlwaysAllowed | auth/auth.common.ts:24-34 | a signed-in user is allowed on every route |
| AuthNode.Providers | auth/auth.node.ts:15-30 | the providers are the common ones in their order, followed by email sign-in |
| AuthNode.Jwt | auth/auth.node.ts:33-40 | when a user signs in, the token gains the user's id and role and keeps its other claims; without a user the token is unchanged |
| AuthNode.SessionCallback | auth/auth.node.ts:41-47 | when the session has a user, that user gains the token's id and role and keeps its other fields; the session itself is returned unchanged otherwise |
| AuthNode.SignIn | auth/auth.node.ts:33-47 | after sign-in the session's user shows the database user's id and role, and every other field is kept |
| CartVsOrders.InsertYear | app/api/admin/metrics/cart-vs-orders/route.ts:21-25 | adding a year to an ascending list of distinct years keeps it ascending and adds exactly that year |
| CartVsOrders.HeadBelowTail | app/api/admin/metrics/cart-vs-orders/route.ts:25 | a non-empty list is strictly ascending exactly when its tail is and its head is below every element of the tail |
| CartVsOrders.SortedYears | app/api/admin/metrics/cart-vs-orders/route.ts:21-25 | the years of the set, sorted: strictly ascending, so with no duplicates, and holding exactly the years that occur |
| CartVsOrders.CountIn | app/api/admin/metrics/cart-vs-orders/route.ts:29-30 | the count of records of a year is at most the number of records, and positive exactly when the year occurs |
| CartVsOrders.ChartData | app/api/admin/metrics/cart-vs-orders/route.ts:21-39 | the entries' years are exactly the years of some cart or order, strictly ascending; each entry counts the carts and the orders of its year, and each counts at least one of them |
| CartVsOrders.EntriesOfYears | app/api/admin/metrics/cart-vs-orders/route.ts:28-39 | mapping the sorted years to their entries gives the chart's four properties |
| CartVsOrders.EmptyChart | app/api/admin/metrics/cart-vs-orders/route.ts:21-28 | with no carts and no orders the chart is empty |
| CartVsOrders.CountsAreGroupSums | app/api/admin/metrics/cart-vs-orders/route.ts:28-39 | the entries' cart and order counts, added up, are the counts of the records grouped by the entries' years |
| CartVsOrders.CountsAddUp | app/api/admin/metrics/cart-vs-orders/route.ts:21-39 | the cart counts add up to the number of carts and the order counts to the number of orders |
| CategoryMenu.EntryOf | components/layout/navbar/category-menu.tsx:261-279 | a link is drawn as a submenu exactly when it has sub-links, keyed by its lower-cased title and listing the sub-link paths; otherwise as a plain link to its path |
| CategoryMenu.Entries | components/layout/navbar/category-menu.tsx:317-334 | one entry per menu link, in menu order |
| CategoryMenu.OnlyAboutIsSubmenu | components/layout/navbar/category-menu.tsx:20-26 | ABOUT is the only submenu; SHOP and NEWS say they have children but are drawn as plain links |
| CategoryMenu.AtMostOneDropdownOpen | components/layout/navbar/category-menu.tsx:194-195 | whatever the open key, no two submenus are open at once, and no submenu is open while the category list is |
| CategoryMenu.Renders | components/layout/navbar/category-menu.tsx:120-123 | the navbar draws nothing on a path under "/dashboard/admin"; a missing path counts as "" |
| CategoryMenu.AdminPagesHaveNoNavbar | components/layout/navbar/category-menu.tsx:120-123 | every admin path hides the navbar, and a missing path shows it |
| CategoryMenu.HooksCalledAsWritten | components/layout/navbar/category-menu.tsx:117-130 | one render calls six hooks on a shop path and three on an admin path |
| CategoryMenu.HookCountChangesOnAdminNavigation | components/layout/navbar/category-menu.tsx:117-130 | moving from "/" to "/dashboard/admin" changes the number of hooks between renders |
| CategoryMenu.HooksCalledGuardLast | components/layout/navbar/category-menu.tsx:117-130 | with the admin-path check after every hook, one render always calls all six |
| CategoryMenu.GuardLastKeepsHookCount | components/layout/navbar/category-menu.tsx:117-130 | with the check last, any two renders call the same number of hooks |
| CategoryMenu.TelTarget | components/layout/navbar/category-menu.tsx:285 | the tel: target contains exactly the digits and '+' signs of the phone number, and is no longer than it |
| CategoryMenu.TelTargetSteps | components/layout/navbar/category-menu.tsx:285 | the target of a concatenation is the concatenation of the targets, a dial character is kept and any other dropped: so the target is the dial characters in order, with their multiplicity |
| CategoryMenu.TelKeepsOrder | components/layout/navbar/category-menu.tsx:285 | a leading dial character stays first |
| CategoryMenu.TelKeepsDialString | components/layout/navbar/category-menu.tsx:285 | a string of digits and '+' is its own tel: target |
| CategoryMenu.TelDropsSpace | components/layout/navbar/category-menu.tsx:285 | a run of dial characters is kept and the space after it is dropped |
| CategoryMenu.TelOfGroups | components/layout/navbar/category-menu.tsx:285 | a number written as four space-separated groups, as the shop's number is, dials as the groups run together |
| CategoryMenu.Navbar.OpenDropdown | components/layout/navbar/category-menu.tsx:136-142 | cancels the pending close and opens the given key; the drawer and navigation are unchanged |
| CategoryMenu.Navbar.CloseDropdownWithDelay | components/layout/navbar/category-menu.tsx:144-147 | replaces any pending close with a fresh one, so at most one is ever pending; the open key is unchanged until it fires |
| CategoryMenu.Navbar.FireClose | components/layout/navbar/category-menu.tsx:146 | the pending close firing closes the dropdown and changes nothing else |
| CategoryMenu.Navbar.HandleLinkClick | components/layout/navbar/category-menu.tsx:149-153 | navigates to the path, closes the drawer and the dropdown at once, and leaves a pending close as it is |
| CategoryMenu.Navbar.SetDrawer | components/layout/navbar/category-menu.tsx:118 | opens or closes the drawer and changes nothing else |
| CategoryMenu.HoverOutAndBack | components/layout/navbar/category-menu.tsx:136-147 | leaving a submenu and entering it again before the close fires keeps it open, with no close pending |
| CollectionSales.TotalSold | app/api/admin/metrics/getCollectionSales.ts:29-36 | the three nested loops leave in `totalSold` the sum of the quantities of every order item of every variant of every linked product |
| CollectionSales.Sold | app/api/admin/metrics/getCollectionSales.ts:28-38 | a collection whose order-item quantities are all non-negative has sold a non-negative number of units |
| CollectionSales.CollectionSales | app/api/admin/metrics/getCollectionSales.ts:28-41 | one entry per collection, in query order, with its title and its units sold |
| CollectionSales.UnsoldProductsSumToZero | app/api/admin/metrics/getCollectionSales.ts:29-36 | products none of whose variants appear in an order item add up to 0 |
| CollectionSales.UnsoldVariantsSumToZero | app/api/admin/metrics/getCollectionSales.ts:31-35 | variants that appear in no order item add up to 0 |
| CollectionSales.NothingSoldIsZero | app/api/admin/metrics/getCollectionSales.ts:29 | a collection with no products, variants or order items has sold 0 |
| CollectionSales.ProductCountsInEveryCollection | app/api/admin/metrics/getCollectionSales.ts:28-39 | each collection is summed on its own: a linked product adds all its units to every collection it belongs to |
| Collections.NormalizeSeo | actions/api/get-collections.ts:10-15 | the title and the description fall back on their own, to "Shop" and to "Purchase this high quality product", whenever that field or the whole record is missing |
| Collections.ToNav | actions/api/get-collections.ts:37-47 | a row's path is "/search/" followed by its handle; gender defaults to "general"; description, parent and SEO record pass through; the update time is missing exactly when the row has none |
| Collections.TitleAscIsPreorder | actions/api/get-collections.ts:33 | ordering by title is a total preorder, so sorting by it is well defined |
| Collections.GetCollections | actions/api/get-collections.ts:30-51 | every listed collection is visible and has the "/search/" path; the list is ordered by title and is a permutation of the mapped rows without the hidden ones |
| Collections.ListedIffNotHidden | actions/api/get-collections.ts:50 | a collection is listed exactly when its handle does not start with "hidden" |
| Counties.CountiesList | lib/counties-sub.ts:15-23 | one summary per county, in data order, with the county's id and name |
| Counties.SubCountiesByCountyName | lib/counties-sub.ts:26-36 | an unknown name gives []; otherwise the result is the stored sub-county list, as stored, of the first county whose name is exactly the one asked for |
| Counties.FirstCountyWins | lib/counties-sub.ts:29 | of two counties with the same name only the first is ever consulted |
| HealthTopics.CleanMarkup | actions/api/get-health-topic.ts:42 | replacing the markup with spaces never lengthens the text and leaves no '#' and no newline |
| HealthTopics.RawText | actions/api/get-health-topic.ts:42 | the cleaned, trimmed text holds no '#' and no newline and does not start with whitespace |
| HealthTopics.Snippet | actions/api/get-health-topic.ts:42-46 | a text of at most 150 characters is its own snippet; a longer one is cut before the last space among its first 150 characters (or to nothing when there is none) and followed by "..."; a snippet never exceeds 152 characters |
| HealthTopics.LongSnippet | actions/api/get-health-topic.ts:43-45 | the cut of a long text lies before its last space in the first 150 characters, and a cut at position 0 means there is no such space |
| HealthTopics.SnippetWithoutSpace | actions/api/get-health-topic.ts:45 | a long text with no space in its first 150 characters has the snippet "..." |
| HealthTopics.ToListItem | actions/api/get-health-topic.ts:48-53 | a list item keeps the topic's id, handle and title, and its snippet is the snippet of the description |
| HealthTopics.AllHealthTopics | actions/api/get-health-topic.ts:27-55 | every topic once, as a permutation of the list items, ordered by title |
| HealthTopics.TitleAscIsPreorder | actions/api/get-health-topic.ts:35-37 | ordering by title is a total preorder |
| HealthTopics.HealthTopicByHandle | actions/api/get-health-topic.ts:58-76 | null exactly when no topic has the handle; otherwise the detail of a topic with that handle, with its SEO record |
| HealthTopics.PageProductIds | actions/api/get-health-topic.ts:107-115 | the ids, in order, of the `skip`..`skip + take` window of the topic's links sorted by ascending `order`; exactly min(take, links − skip) of them, none past the end; each linked to the topic |
| HealthTopics.TopicLinks | actions/api/get-health-topic.ts:107-112 | the topic's links, a permutation of them sorted by ascending `order` |
| HealthTopics.ProductsByTopicId | actions/api/get-health-topic.ts:93-154 | the page size is the given size (12 when missing) clamped to 1..100; an empty page of links reports no items, total 0, page 1 and one page; otherwise the page is echoed, the total counts the topic's links, the page count is exactly max(1, ⌈total / size⌉), and the items are the products whose ids are on that page of links; every item is the reshaped form of a product linked to the topic |
| HealthTopics.TopicItems | actions/api/get-health-topic.ts:128-143 | the products of the table whose id is on the page, in table order, reshaped: every such product is there, and an item is there only if it is one of them |
| HealthTopics.PagePastEndReportsNothing | actions/api/get-health-topic.ts:117-125 | asking for page 2 of a topic with one link reports total 0 and page 1, although the topic has a link |
| ImageUpload.InfoOf | components/ui/dashboard/image-upload.tsx:39 | the result's `info` when the result and its `info` are both present, and otherwise the result itself |
| ImageUpload.Collected | components/ui/dashboard/image-upload.tsx:42-52 | nothing is collected exactly when there is no string `secure_url`, no non-empty `secure_urls` array and no string `url`; a string `secure_url` comes first; a string `url` is always among the URLs; every URL comes from one of the three fields |
| ImageUpload.CollectedOrder | components/ui/dashboard/image-upload.tsx:42-52 | the collected list is a string `secure_url`, then every element of a `secure_urls` array at its own position in array order, then `url` as the last element exactly when it is a string not among those before it; every `secure_urls` element is collected |
| ImageUpload.Unique | components/ui/dashboard/image-upload.tsx:60 | the de-duplicated list has no duplicates and holds exactly the values of the merged list |
| ImageUpload.UniqueOfDistinct | components/ui/dashboard/image-upload.tsx:60 | a list without duplicates comes out unchanged |
| ImageUpload.UploadKeepsPrevious | components/ui/dashboard/image-upload.tsx:57-62 | merging keeps the previous list, in order, at the front |
| ImageUpload.UploadTwiceIsUploadOnce | components/ui/dashboard/image-upload.tsx:57-62 | the same upload delivered twice leaves the list as one delivery does |
| ImageUpload.RemoveDropsExactly | components/ui/dashboard/image-upload.tsx:68 | removal drops every occurrence of the URL and keeps every other value; removing a URL that is not there changes nothing |
| ImageUpload.FromProps | components/ui/dashboard/image-upload.tsx:25-29 | the local list starts as the parent's URLs, or [] when there are none |
| ImageUpload.Picker.Sync | components/ui/dashboard/image-upload.tsx:28-30 | a new value from the parent replaces the local list and calls nothing |
| ImageUpload.Picker.CollectUrls | components/ui/dashboard/image-upload.tsx:42-52 | the list that the pushes build is the collected list |
| ImageUpload.Picker.OnUpload | components/ui/dashboard/image-upload.tsx:37-64 | a missing info, or one that delivers no URL, changes nothing and calls nothing; otherwise the list becomes the de-duplicated merge of the previous list and the new URLs, and the parent receives exactly that list |
| ImageUpload.Picker.HandleRemove | components/ui/dashboard/image-upload.tsx:66-75 | the list loses every occurrence of the URL, the parent receives the new list, and the removal is reported with the URL |
| ImageUpload.NullishResultIsIgnored | components/ui/dashboard/image-upload.tsx:39-40 | a missing result never changes the state |
| OrderChart.ChartData | actions/getOrderChartData.tsx:14-31 | one group per month that occurs, in order of first appearance, and each group is that month's total and delivered sum |
| OrderChart.Group | actions/getOrderChartData.tsx:14-29 | the group carries its month, and a month no order has totals 0 in both sums |
| OrderChart.AddOrder | actions/getOrderChartData.tsx:14-28 | one step of the reduce keeps the accumulator invariant: the dictionary holds exactly the months seen, in first-appearance order, each with its group over the orders seen |
| OrderChart.LookupGroup | actions/getOrderChartData.tsx:16-18 | a month already in the dictionary holds its group so far |
| OrderChart.EmptyGroup | actions/getOrderChartData.tsx:16-18 | a month with no order yet starts from zero totals |
| OrderChart.GroupSnoc | actions/getOrderChartData.tsx:21-27 | one more order adds its amount to its own month's total, and to the delivered sum only when it is DELIVERED; other months are unchanged |
| OrderChart.GetOrderChartData | actions/getOrderChartData.tsx:5-32 | the reduce followed by the dictionary's values returns exactly the chart data |
| OrderChart.Values | actions/getOrderChartData.tsx:31 | the groups, one per key, in the order the keys were added |
| OrderChart.MonthsAreDistinct | actions/getOrderChartData.tsx:15-19 | the months are distinct and are exactly the months of the orders |
| OrderChart.SuccessfulWithinTotal | actions/getOrderChartData.tsx:23-27 | with non-negative amounts, a month's delivered sum is at most its total |
| OrderChart.ClampedDelivered | actions/getOrderChartData.tsx:23-27 | with non-negative amounts, the delivered amounts add up to at most the amounts |
| OrderChart.YearIsIgnored | actions/getOrderChartData.tsx:15 | two orders of the same month in different years land in one group |
| OrderChart.PairMonths | actions/getOrderChartData.tsx:15-19 | two orders of one month give one month key |
| OrderChart.PairGroup | actions/getOrderChartData.tsx:21-27 | the group of two orders of one month has both amounts in its total and both delivered amounts in its delivered sum |
| OrderChart.PairSum | actions/getOrderChartData.tsx:23-27 | the group sum of two orders of one month adds both weights |
| OrderChart.TotalsAreGroupSums | actions/getOrderChartData.tsx:23 | the totals of the groups of some months add up to the group sums of those months |
| OrderChart.TotalsAddUp | actions/getOrderChartData.tsx:14-31 | the month totals add up to the sum of all order amounts, a missing amount counting as 0 |
| OrdersList.SnapshotImage | components/OrdersList.tsx:40-61 | the image source priority: the product's first image url, then the snapshot's first image, then a string `image`, then the first media entry, then "/placeholder.jpg"; a missing first product image makes the lookup throw (modelled as no value) |
| OrdersList.PickFirstImage | components/OrdersList.tsx:39-61 | the reassigned image variable ends as the placeholder without items and as the first item's snapshot image otherwise |
| OrdersList.OnlyFirstItemCounts | components/OrdersList.tsx:39 | the items after the first never change the card's image |
| OrdersList.ProductImageWins | components/OrdersList.tsx:45-51 | a snapshot with a product image shows it, even when it also has other images |
| OrdersList.ToCard | components/OrdersList.tsx:63-81 | a card takes the first item's image; the alt text is the first item's product title or "Product"; the name defaults to "Unknown" and the county to "N/A"; the label is "#" with the order number or else the id; the link is "/dashboard/admin/orders/" with the id |
| OrdersList.Render | components/OrdersList.tsx:34-89 | no orders shows the "No orders for this date." message; otherwise one card per order, in order, and nothing when some card's image lookup throws |
| OrdersPage.ToClientItem | app/orders/page.tsx:21-27 | an item's product title defaults to "Product", its variant title to "" and its image to "/1.webp"; quantity and line total pass through |
| OrdersPage.ClientStatus | app/orders/page.tsx:20 | the status is "past" exactly when the upper-cased status is "DELIVERED", and "active" otherwise |
| OrdersPage.LowerCaseDeliveredIsPast | app/orders/page.tsx:20 | "delivered" and "Delivered" are past orders; "SHIPPED" is active |
| OrdersPage.ToClientOrder | app/orders/page.tsx:16-28 | id, creation time and total pass through; the status is the client status; missing items become [], and otherwise there is one client item per item, in order |
| OrdersPage.ClientOrders | app/orders/page.tsx:16-28 | one client order per order, in order |
| Paging.ClampTake | actions/api/products.ts:61 | the page size always lies in 1..100: a size in range is kept, a smaller one becomes 1 and a larger one 100 |
| Paging.SkipFor | actions/api/products.ts:62 | a page at or before the first skips nothing, and page p ≥ 1 skips (p − 1)·take rows |
| Paging.CeilDiv | actions/api/products.ts:82 | the quotient rounded up: enough pages of `take` rows for the total, and one fewer would not be enough |
| Paging.TotalPages | actions/api/products.ts:82 | at least one page, enough pages for the total, exactly one page when the total fits in one, and no page more than needed otherwise |
| Paging.Window | actions/api/products.ts:76-77 | the rows starting at `skip`, in order; exactly min(take, \|rows\| − skip) of them, none past the end |
| Paging.WindowsTile | actions/api/products.ts:76-77 | two consecutive windows together are the window of their combined size: paging neither skips nor repeats a row |
| ProductsQuery.BuildQuery | actions/api/products.ts:43-59 | no query, or the empty query, means no filter, and otherwise the title-or-description filter on the query; the sort column is the sort key when one is given and "createdAt" otherwise; the direction is ascending exactly when `reverse` is set |
| ProductsQuery.WhereFor | actions/api/products.ts:43-59 | there is no filter exactly when the query is missing or empty; otherwise the filter searches for the query itself |
| ProductsQuery.OrderByFor | actions/api/products.ts:43-59 | ascending exactly when `reverse` is true; the column is the sort key when one is given and `createdAt` otherwise |
| ProductsQuery.TakeFor | actions/api/products.ts:61 | a missing or 0 size gives 12; a size in 1..100 is kept; a negative one gives 1 and one over 100 gives 100 |
| ProductsQuery.OrderLeIsPreorder | actions/api/products.ts:53-59 | each column order, in either direction, is a total preorder, so the listing's order is well defined |
| ProductsQuery.Matching | actions/api/products.ts:45-50 | a row matches exactly when it is in the table and satisfies the filter: its title or its description contains the query, ignoring case |
| ProductsQuery.SortedMatches | actions/api/products.ts:67-77 | a permutation of the matching rows, sorted in the requested order |
| ProductsQuery.PageRows | actions/api/products.ts:67-78 | the `skip`..`skip + take` window of the matching rows sorted in the requested order; exactly min(take, matches − skip) rows, all of them matching rows of the table |
| ProductsQuery.GetProducts | actions/api/products.ts:36-91 | an unknown sort column is an error; otherwise the page is echoed (1 by default), the page size is the clamped size, the total counts the matching products, the page count is exactly max(1, ⌈total / size⌉), and the items are the reshaped rows of that page of the sorted matches |
| ProductsQuery.PageRowsOrdered | actions/api/products.ts:53-77 | the rows of every page come in the requested order |
| ProductsQuery.ConsecutivePages | actions/api/products.ts:62-77 | page p and page p + 1 together are the window of two pages starting at page p: every matching row is on exactly one page |
| ProductsQuery.NoQueryCountsAll | actions/api/products.ts:43-65 | without a query, or with the empty one, every product is counted |
| ProductsQuery.PageBounds | actions/api/products.ts:62-77 | a page at or before the first skips nothing, and a page past the end is empty |
| ProductOptions.Pieces | components/ProductsOptionsForm.tsx:40-42 | there is at least one piece, and every piece is trimmed and free of commas |
| ProductOptions.Parse | components/ProductsOptionsForm.tsx:40-43 | every parsed value is non-empty, trimmed and free of commas |
| ProductOptions.Display | components/ProductsOptionsForm.tsx:38 | no values display as the empty string, one value as itself, and several start with the first value |
| ProductOptions.ParseLeadingSpace | components/ProductsOptionsForm.tsx:42 | a leading space changes no parse, since its piece is trimmed |
| ProductOptions.PiecesLeadingSpace | components/ProductsOptionsForm.tsx:41-42 | a leading space changes no piece |
| ProductOptions.ParseDisplayRoundTrip | components/ProductsOptionsForm.tsx:38-44 | stored values that are non-empty, trimmed and comma-free come back unchanged when displayed joined by ", " and parsed again |
| ProductOptions.ParseAtComma | components/ProductsOptionsForm.tsx:40-43 | each comma ends a piece: the text before the first comma is parsed on its own and the rest separately |
| ProductOptions.PiecesAtComma | components/ProductsOptionsForm.tsx:40-42 | the first piece is the trimmed text before the first comma |
| ProductOptions.BlankPieceVanishes | components/ProductsOptionsForm.tsx:43 | a blank piece contributes no value |
| ProductOptions.CurrentValues | components/ProductsOptionsForm.tsx:28 | the option's values when the option exists, and [] otherwise |
| ProductOptions.SetValues | components/ProductsOptionsForm.tsx:39-45 | the edited option's values become the parsed input, its name is kept, and the other options are unchanged |
| ProductOptions.AddOption | components/ProductsOptionsForm.tsx:53 | "Add Option" appends an option with no name and no values and keeps the others |
| ProductOptions.RemoveOption | components/ProductsOptionsForm.tsx:47 | "Remove Option" drops the option at the index and keeps the others in order |
| ProductOptions.Prefill | components/ProductsOptionsForm.tsx:18-22 | a missing or empty list is replaced by the default options, and any other list is kept |
| ProductsByCollection.Normalize | actions/api/get-products-by-collection.tsx:36 | the handle is trimmed and then lower-cased, and is never longer than the input |
| ProductsByCollection.ExactImpliesContains | actions/api/get-products-by-collection.tsx:41-45 | the exact-handle condition adds nothing to the two containment conditions |
| ProductsByCollection.Matches | actions/api/get-products-by-collection.tsx:41-45 | an exact handle or a case-insensitive title match selects the collection, and a collection whose handle and title both lack the normalised handle is not selected |
| ProductsByCollection.BlankHandleMatchesAll | actions/api/get-products-by-collection.tsx:36-45 | an all-whitespace handle normalises to "" and then matches every collection |
| ProductsByCollection.MatchedIds | actions/api/get-products-by-collection.tsx:39-55 | an id is kept exactly when some collection with that id matches; no id is kept when none matches |
| ProductsByCollection.Candidates | actions/api/get-products-by-collection.tsx:63-72 | exactly the available products of the table linked to a matched collection |
| ProductsByCollection.ProductRows | actions/api/get-products-by-collection.tsx:62-81 | the newest `take` candidates: exactly min(take, candidates) rows, drawn from the candidates without repetition, newest first; every candidate newer than the last row is there, and all of them when fewer than `take` |
| ProductsByCollection.TakeNewest | actions/api/get-products-by-collection.tsx:80-81 | the first n of the rows sorted newest first are sorted, drawn from the rows, hold every row newer than the last of them, and all rows when n is their number |
| ProductsByCollection.NewestPage | actions/api/get-products-by-collection.tsx:80-81 | the page of the `take` newest rows is sorted newest first, drawn from the rows, and holds every row the page must hold |
| ProductsByCollection.MatchedProducts | actions/api/get-products-by-collection.tsx:50-86 | the reshaped product rows of the matched collections; nothing when no collection matches; exactly min(take, candidates) items, each from an available product linked to a matching collection, newest first, with every candidate newer than the last item (all of them when fewer than `take`) present |
| ProductsByCollection.MatchedRows | actions/api/get-products-by-collection.tsx:62-86 | the reshaped rows keep provenance and newest-first order and hold every candidate the page must hold |
| ProductsByCollection.ReshapedKeepsNewest | actions/api/get-products-by-collection.tsx:84 | reshaping keeps every candidate the page of rows holds |
| ProductsByCollection.NoIdsNoRows | actions/api/get-products-by-collection.tsx:50-53 | with no matched collection the product query returns nothing |
| ProductsByCollection.ReshapedRows | actions/api/get-products-by-collection.tsx:84 | reshaping keeps each row's provenance and the newest-first order |
| ProductsByCollection.ProductsByCollection | actions/api/get-products-by-collection.tsx:27-87 | anything but a non-empty string handle gives []; no matching collection gives []; otherwise exactly min(clamp(limit, default 8), candidates) items, every item from a matching collection, newest first, and no candidate newer than the last item left out |
| Payments.PaymentAmount | actions/getPayments.ts:21-23 | the metadata amount's `Number()` value when the amount text is present and non-empty (so "0" and "0.00" count), otherwise the order's total, 0 when that is missing |
| Payments.ZeroTextIsTruthy | actions/getPayments.ts:21-23 | a metadata amount "0.00" gives 0, not the order total of 500 |
| Payments.EmptyTextFallsBack | actions/getPayments.ts:21-23 | a missing or empty amount text falls back to the order's total |
| Payments.ToPayment | actions/getPayments.ts:19-28 | the row carries the order's id and status, the amount above (NaN when the text is not a number), and "N/A" for a missing user, address, name or e-mail |
| Payments.FlatPayments | actions/getPayments.ts:18-29 | one row per order of every callback, and every row comes from an order of one of the callbacks |
| Payments.FlatPaymentsConcat | actions/getPayments.ts:18 | flattening distributes over concatenation of the callback list |
| Payments.ByIdDesc | actions/getPayments.ts:5-15 | the callbacks, a permutation of them sorted by descending id |
| Payments.CallbackRowsAreContiguous | actions/getPayments.ts:18-19 | each callback's orders appear as one contiguous block of rows, in their own order |
| Payments.GetPayments | actions/getPayments.ts:4-32 | the flattened rows of the callbacks sorted by descending id; one row per order, and every row comes from some callback's order |
| ReshapeProduct.ToNumber | lib/server-helpers/reshapeProduct.ts:37-46 | null, undefined and NaN give no number; a Decimal or a number gives its value; a string gives what Number makes of it |
| ReshapeProduct.Coalesce | lib/server-helpers/reshapeProduct.ts:55-56 | the first present value of a fallback chain, or the default when none is present |
| ReshapeProduct.MapImage | lib/server-helpers/reshapeProduct.ts:49-58 | no image exactly when the row is missing or has no id; otherwise the id, the first of url/src/path/publicUrl (else ""), and alt, then altText, then the fallback alt |
| ReshapeProduct.MapVariant | lib/server-helpers/reshapeProduct.ts:79-92 | the variant keeps id, title, sku, availability and currency, and its price is the converted price amount |
| ReshapeProduct.DefinedPrices | lib/server-helpers/reshapeProduct.ts:99-101 | a value is listed exactly when some variant has it as its defined price |
| ReshapeProduct.Min | lib/server-helpers/reshapeProduct.ts:103 | the minimum of a non-empty list is one of its elements and no greater than any of them |
| ReshapeProduct.PickDisplayPrice | lib/server-helpers/reshapeProduct.ts:95-111 | the two sequential blocks compute the display price and currency of DisplayPrice |
| ReshapeProduct.DisplayPrice | lib/server-helpers/reshapeProduct.ts:95-111 | with some defined variant price, the price is the least of them and the currency is the first variant's; without one, the stored minimum price and, when that price is present, the stored minimum currency |
| ReshapeProduct.DisplayPriceRules | lib/server-helpers/reshapeProduct.ts:95-111 | with some defined variant price, the price is a variant's price no greater than any other and the currency is the first variant's; with none, the price is the converted stored minimum, and the currency is the stored minimum currency when that amount is present |
| ReshapeProduct.CurrencyOfFirstVariant | lib/server-helpers/reshapeProduct.ts:103-104 | the currency comes from the first variant even when another variant holds the lowest price |
| ReshapeProduct.ReshapeProduct | lib/server-helpers/reshapeProduct.ts:61-68 | no product exactly when the input is missing |
| ReshapeProduct.ReshapeDefaults | lib/server-helpers/reshapeProduct.ts:68-134 | id, handle and title are kept; missing tags give []; availability is true only for true; the images are the mapped image rows, exactly those; the featured image is the first image, none exactly when there are no images; variants are mapped one for one; with a variant price the price is the least variant price in the first variant's currency; without one it is the stored minimum as a number, 0 when missing or NaN, in the stored currency, "USD" when missing |
| ReshapeProduct.Reshape | lib/server-helpers/reshapeProduct.ts:68-134 | id, handle, title and description are kept; available exactly when the row says true; missing tags give []; one variant per variant row |
| ReshapeProduct.MappedImages | lib/server-helpers/reshapeProduct.ts:70-73 | never more images than rows, and an image appears exactly when some image row maps to it |
| ReshapeProduct.ImagesKeepOrder | lib/server-helpers/reshapeProduct.ts:71-73 | the images of two row lists are the images of each, in order |
| ReshapeProduct.ReshapeKeepsAll | lib/server-helpers/reshapeProduct.ts:67-68 | a present product always reshapes, so dropping the nulls after mapping drops nothing |
| ReshapeProduct.ReshapeRows | actions/api/get-products-by-collection.tsx:84 | one reshaped product per row, in row order |
| ReshapeProduct.ReshapeRowsMembers | actions/api/get-products-by-collection.tsx:84 | an item is among the reshaped rows exactly when it is the reshape of one of the rows |
| StoreKpis.Normalize | actions/getStoreKpis.ts:19-32 | a day number outside its month is carried into the neighbouring months, giving a valid calendar date |
| StoreKpis.MakeDate | actions/getStoreKpis.ts:19-32 | the Date constructor's result is a valid calendar date, whatever month and day arguments it is given |
| StoreKpis.DayRanges | actions/getStoreKpis.ts:18-22 | the day period runs from today's midnight to the next day's, and the previous window starts at yesterday's midnight and ends at today's |
| StoreKpis.MonthRanges | actions/getStoreKpis.ts:23-27 | the month period runs from the first of this month to the first of the next, with December rolling over into January; the previous window starts on the first of the previous month |
| StoreKpis.YearRanges | actions/getStoreKpis.ts:28-34 | the year period runs from January 1 of this year to January 1 of the next; the previous window starts on January 1 of the year before |
| StoreKpis.OtherPeriodIsYear | actions/getStoreKpis.ts:28 | any period other than "day" and "month" takes the year branch |
| StoreKpis.PeriodRanges | actions/getStoreKpis.ts:7-37 | the previous window ends where the current one starts; the current window begins today, on the first of this month, or on January 1 of this year, and any other period runs to January 1 of the next year |
| StoreKpis.RangesOrdered | actions/getStoreKpis.ts:7-37 | in every branch both windows are non-empty and the previous window ends where the current one starts |
| StoreKpis.DayWindowIsOneDay | actions/getStoreKpis.ts:18-22 | a date lies in the current day window exactly when it is today, and in the previous one exactly when it is yesterday |
| StoreKpis.MonthWindowIsOneMonth | actions/getStoreKpis.ts:23-27 | a date lies in the current month window exactly when it falls in this month, and in the previous one exactly when it falls in the month before |
| StoreKpis.YearWindowIsOneYear | actions/getStoreKpis.ts:28-34 | a date lies in the current year window exactly when it falls in this year, and in the previous one exactly when it falls in last year |
| StoreKpis.TwoDigitYearAtYear100 | actions/getStoreKpis.ts:32 | in year 100 the Date constructor reads year 99 as 1999, so the previous year window starts after the current one |
| StoreKpis.PctChange | actions/getStoreKpis.ts:39-43 | with previous 0 the change is 0 when current is 0 and 100 otherwise; with previous non-zero the change times \|previous\| is (current − previous)·100, so it is zero, positive or negative exactly as current equals, exceeds or falls below previous |
| StoreKpis.RevenueIsWindowTotal | actions/getStoreKpis.ts:88-107 | the sum aggregate is the window's total with null amounts counting 0, and an aggregate over no amounts reads as 0 |
| StoreKpis.CountAdjacent | actions/getStoreKpis.ts:72-84 | orders counted in two adjacent windows are exactly those counted in their union |
| StoreKpis.CountDatesBound | actions/getStoreKpis.ts:62-69 | a window never counts more products than the catalog holds |
| StoreKpis.CountBound | actions/getStoreKpis.ts:72-84 | a window never counts more orders than there are |
| StoreKpis.KpisProperties | actions/getStoreKpis.ts:45-128 | the new-product counts never exceed the catalog size, the revenues are the window totals, and productsChange, ordersChange and revenueChange are each the percent change of their current and previous fields |
| StoreKpis.StoreKpis | actions/getStoreKpis.ts:45-128 | the record carries the period and the current window of `PeriodRanges`, the catalog size, and period counts that never exceed the catalog or the orders |
| UndeliveredOrders.StartOfDay | actions/getUndeliveredOrders.ts:8 | the start of the day is a multiple of a day's length, not after the instant, and less than a day before it |
| UndeliveredOrders.EndOfDay | actions/getUndeliveredOrders.ts:9 | the last millisecond of the same day, not before the instant |
| UndeliveredOrders.DayWindow | actions/getUndeliveredOrders.ts:8-18 | an instant lies between start and end of the date's day exactly when it falls on the same calendar day |
| UndeliveredOrders.Convert | actions/getUndeliveredOrders.ts:27-43 | every field of the order is kept, a missing total becomes 0, and at most the first item is kept |
| UndeliveredOrders.ConvertedOrders | actions/getUndeliveredOrders.ts:11-43 | the converted rows of a newest-first arrangement of the day's orders are captured, not delivered, inside the day, hold at most one item, and stay newest first |
| UndeliveredOrders.OrdersByDate | actions/getUndeliveredOrders.ts:6-44 | every returned order is captured, not delivered, created within the day of the date (today when none is given), and holds at most one item; the orders are newest first; and they are exactly the converted selected orders, as a multiset |
| UndeliveredOrders.NoDateMeansToday | actions/getUndeliveredOrders.ts:7 | without a date the selection is that of the current day |
| Utils.BaseUrl | lib/utils.ts:12-14 | the production host over https when its variable is set and non-empty, otherwise the local server address |
| Utils.CreateUrl | lib/utils.ts:19-27 | without parameters, or with empty ones, the path alone; otherwise the path, "?" and the parameters; the result always starts with the path |
| Utils.EnsureStartsWith | lib/utils.ts:32-35 | the result starts with the prefix; a string that already has it is returned unchanged, any other gets the prefix in front |
| Utils.EnsureStartsWithIdempotent | lib/utils.ts:32-35 | applying the prefixing twice changes nothing more than applying it once |
| Utils.MissingMembers | lib/utils.ts:46-50 | a name is reported exactly when it is in the list and unset or empty |
| Utils.Missing | lib/utils.ts:46-50 | never more names than given, and every reported name is in the list and unset or empty |
| Utils.MissingVariables | lib/utils.ts:41-50 | the unset or empty required variables, database URL first, then the production URL |
| Utils.CollectMissing | lib/utils.ts:46-50 | the loop collects exactly the unset names, in list order |
| Utils.ValidateEnvironmentVariables | lib/utils.ts:40-59 | it returns normally exactly when both variables are set; otherwise the error message is the fixed header followed by the missing names, one per line |
| Utils.BothMissingMessage | lib/utils.ts:52-57 | with neither variable set, the message lists both names on separate lines |
| Utils.ParseJsonField | lib/utils.ts:68-80 | null and undefined give null; a string gives its parse, or itself when the parse fails; anything else is returned as it is |
| Utils.IsMerchandiseSnapshot | lib/utils.ts:82-90 | true exactly for an object that has a product, variant or selectedOptions key |
| OrderSchemas.AmountAccepts | schemas/order.ts:52 | an amount is accepted exactly when it is a string or a number |
| OrderSchemas.AddressInputAccepts | schemas/order.ts:4-12 | an address is accepted exactly when it is an object with non-empty name, phone, M-Pesa number, county and town, and its email and user id are absent or well-formed |
| OrderSchemas.CartIdSuffices | schemas/order.ts:14-25 | an object holding only a UUID cart id is a valid order request |
| OrderSchemas.CartIdRequired | schemas/order.ts:15 | every accepted order request has a UUID cart id |
| OrderSchemas.UpdateOrderAccepts | schemas/order.ts:27-46 | an update is accepted exactly when it is an object whose status and payment status are absent or in their lists and whose notes are absent or a string |
| OrderSchemas.CreatePaymentAccepts | schemas/order.ts:48-59 | a payment is accepted exactly when it has a non-empty provider and currency, a string or number amount, string-or-absent id and method, and a status that is absent or a payment status |
| OrderSchemas.PaymentStatusDefaultsToPending | schemas/order.ts:54-57 | an accepted payment sent without a status comes out with status PENDING |
| OrderSchemas.EmptyShipmentIsValid | schemas/order.ts:61-72 | every shipment field is optional: the empty object is a valid shipment |
| AddressSchemas.CreateAddressAccepts | schemas/address.ts:4-11 | an address is accepted exactly when it is an object with non-empty name, phone, county and town, and its email and user id are absent or well-formed |
| AddressSchemas.UpdateAddressAccepts | schemas/address.ts:13 | the partial schema accepts every valid address and the empty object, and an accepted update that has every required field is a valid address |
| CartSchemas.CreateCartAccepts | schemas/cart.ts:4-7 | a cart request is accepted exactly when it is an object whose user id is absent or a CUID and whose checkout URL is absent or a URL |
| CartSchemas.EmptyCartRequest | schemas/cart.ts:4-7 | the empty request is accepted and parses to the empty object |
| CartSchemas.AddCartItemAccepts | schemas/cart.ts:9-12 | adding is accepted exactly when the variant id is a UUID and the quantity is a whole number of at least 1 |
| CartSchemas.UpdateCartItemAccepts | schemas/cart.ts:14-16 | an update is accepted exactly when the quantity is a whole number of at least 0, so 0 is allowed |
| ProductSchemas.CoerceToString | schemas/product.ts:5-10 | the result is null or a string; it is null exactly for "", null and undefined; a non-empty string is kept as it is |
| ProductSchemas.VariantAccepts | schemas/product.ts:12-21 | a variant is accepted exactly when it is an object with a non-empty title and currency, string-or-absent id and sku, and a sale flag that is a boolean or absent; any price amount is accepted |
| ProductSchemas.PriceAmountAccepted | schemas/product.ts:18 | whatever is sent as a price amount, its coerced form passes the nullable optional string |
| ProductSchemas.VariantPriceAmount | schemas/product.ts:18 | a parsed variant always carries a price amount, the coerced form of the one sent |
| ProductSchemas.VariantForSaleByDefault | schemas/product.ts:15 | a variant sent without a sale flag comes out for sale |
| ProductSchemas.ImageAccepts | schemas/product.ts:23-29 | an image is accepted exactly when its URL is a URL, its id and alt text are strings or absent, and its width and height are absent or positive integers |
| ProductSchemas.HandleAndTitleRequired | schemas/product.ts:32-33 | every accepted product has a non-empty handle and title |
| ProductSchemas.PriceAmountsRequired | schemas/product.ts:38-41 | every accepted product states both price amounts, each an integer or null |
| ProductSchemas.VariantsValid | schemas/product.ts:45 | every variant of an accepted product is a valid variant |
| ProductSchemas.ForSaleByDefault | schemas/product.ts:36 | a product sent without a sale flag comes out for sale |
| ProductSchemas.NoTagsByDefault | schemas/product.ts:43 | a product sent without tags comes out with an empty tag list |
| ProductSchemas.NoVariantsOrImagesByDefault | schemas/product.ts:45-46 | a product sent without variants or images comes out with empty lists of both |
| ProductSchemas.UpdateProductAccepts | schemas/product.ts:49 | the partial schema accepts every valid product and the empty object, which the create schema refuses |
| ProductSchemas.PriceAmountsRequiredEmpty | schemas/product.ts:38-41 | the empty object is not a valid new product |
| MenuSchemas.MenuItemAccepts | schemas/menu.ts:5-8 | a menu item is accepted exactly when it is an object with a non-empty title and a non-empty URL |
| MenuSchemas.CreateMenuAccepts | schemas/menu.ts:10-13 | a menu is accepted exactly when it has a non-empty handle and an items array every element of which is a valid menu item |
| MenuSchemas.UpdateMenuAccepts | schemas/menu.ts:15 | the partial schema accepts every valid menu and the empty object, and an accepted update's handle is absent or non-empty |
| PageSchemas.CreatePageAccepts | schemas/page.ts:4-10 | a page is accepted exactly when it has a non-empty title and handle, body and summary that are strings or absent, and an SEO id that is absent or a UUID |
| PageSchemas.UpdatePageAccepts | schemas/page.ts:12 | the partial schema accepts every valid page and the empty object, and an accepted update with a non-empty title and handle is a valid page |

## Left out

- Database access: every Prisma query, `$transaction` and the cache wrapper around the collection sales. A query's result is an in-memory sequence of rows; `where`, `orderBy`, `include`, `skip` and `take` are filters, sorts and windows over it.
- Prisma's rejection of an unknown `orderBy` column becomes an `Err` result of `ProductsQuery.GetProducts`. The model knows the columns `createdAt`, `title`, `handle` and `id`.
- Clock and time zones: the current date or instant is a parameter. The KPI windows work on local calendar dates; `UndeliveredOrders` takes whole days of 86 400 000 ms from the epoch, which is local time only at a UTC offset of zero. Daylight-saving changes are not modelled.
- Floating point: money, percent changes and quantities are `real` or `int`, so no IEEE rounding, overflow or NaN arithmetic. Decimal values are their exact numbers, except in `OrderChart`.
- OrderChart.ChartData: order amounts are whole numbers (`int`); the source's Decimal `totalAmount` may have a fractional part, which the model does not carry into the month sums.
- Locale formatting: month names, `toLocaleString`, currency formatting. The order chart keys each group by a month index 0..11.
- Opaque library behaviour. These are parameters the model does not define:
  - zod's e-mail, UUID, CUID and URL tests;
  - JavaScript's number-to-string conversion;
  - `JSON.parse`, in `Utils.ParseJsonField`;
  - `Number()` on strings, in `ReshapeProduct.ToNumber`.
- Collation and string length: `Text.LexLe` orders titles, handles and ids by code point. Prisma's `orderBy: title` uses the database collation, under which "apple" and "Banana" can sort the other way. String lengths, such as the 150-character snippet limit, count code points rather than JavaScript's UTF-16 units.
- `cn` (clsx and tailwind-merge): class-name merging with no logic of the shop's own.
- zod's issue messages (such as "Variant title is required"): a failed parse is `None`, with no error list.
- Unicode case mapping: `Text.ToLower`, `Text.ToUpper` and case-insensitive containment map ASCII letters only. JavaScript and Postgres also map other scripts. `Text.Trim` uses JavaScript's full set of white-space and line-terminator characters.
- Timers: the navbar's delayed close is a pending flag plus an explicit `FireClose` event, not real time.
- React rendering and hooks: components are modelled through the state their handlers change and the data they display, not through JSX output.
- The mail alert, the M-Pesa token fetch, the token-verification wrapper and the undelivered-orders fetch: network and SMTP input/output with no logic to state.
- The error response of the cart-vs-orders route: the model covers the successful path only.
- `schemas/seo.ts`, `auth.config.ts` (entirely commented out), `next.config.ts`, the type declarations and `lib/constants.ts`: configuration and data with no operation to model.
- The presentational components, the table column definitions and the remaining pages and layouts: no logic beyond display.
- ImageUpload.Unique: de-duplication compares JSON values structurally. JavaScript's `Set` compares objects by reference. The two agree on the URL strings the widget delivers, but not on non-string elements a `secure_urls` array might contain.
- ProductSchemas.HandleAndTitleRequired, ProductSchemas.PriceAmountsRequired, ProductSchemas.VariantsValid: the create-product schema is described by these focused lemmas, one per rule, and not by a single if-and-only-if over all fifteen fields. The variant and image schemas have full if-and-only-if lemmas.
- MenuSchemas.UpdateMenuAccepts: the partial menu schema is characterised by inclusion, by the empty object and by its handle rule, not by a full if-and-only-if.

## Findings

| source | as written | input that shows it | evidently intended | confidence | as-written member | corrected member |
|---|---|---|---|---|---|---|
| components/layout/navbar/category-menu.tsx:123 | the navbar returns early on admin paths before the `useState`, `useRef` and `useEffect` calls that follow | a client-side move from "/" to "/dashboard/admin" while the navbar stays mounted: six hooks, then three | draw nothing on admin paths after calling every hook, so each render calls the same hooks | not executed | CategoryMenu.HookCountChangesOnAdminNavigation | CategoryMenu.GuardLastKeepsHookCount |
