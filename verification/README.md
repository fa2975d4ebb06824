# Framely core, modelled in Dafny

Framely is an eyewear shop. An ASP.NET Core API serves the catalog
(products, categories), orders and image uploads. Two Next.js front ends
use it: a storefront for customers and a dashboard for administrators.
This project models the parts of both that make decisions:

- **Backend controllers** (`OrdersController`, `ProductsController`,
  `CategoriesController`, `BlobController`). Each HTTP action is a pure
  function. It takes the database as maps (`Models.Db`), the caller's
  identity (`Api.Caller`) and the request. It returns a `Response` (200,
  201, 204 or an error) and, for writes, the database afterwards. Role
  checks from `[Authorize]` come first: 401 for an anonymous caller, 403
  for a signed-in caller without the role.
- **Storefront** (`Cart`, `Shop`, `Checkout`, `Register`, `CustomerAuth`):
  - the cart context;
  - the shop page's search, sort and pager;
  - the checkout guards and the payload sent to the backend;
  - the registration form's validators;
  - the localStorage session.
- **Admin dashboard** (`TopSelling`, `Navbar`, `AdminAuth`):
  - the top-three best sellers widget;
  - the navigation bar's highlighting and login redirect;
  - the cookie session that admits only the `ADMIN` role.

Shared modules:

- `Wrappers` holds `Option`.
- `Text` holds ASCII lowercasing, the .NET and JavaScript white-space sets, trimming and substring search.
- `Seqs` holds filtering and a stable insertion sort by a "may come first" relation.
- `Paging` holds the page arithmetic that all three listing endpoints share.
- `Models` holds the entities and the database's row order.
- `Session` holds the login response, the stored user and the browser key-value stores.

Representation choices:

- Money is an integer in minor units. The columns are `decimal(18,2)`, so a stored amount lies within ±(10^18 − 1) minor units (`Models.FitsMoneyColumn`). A save that would write a larger amount fails.
- Dates are integer ticks.
- A database table is a `map` from id to row. A query without ORDER BY yields rows in ascending key order.
- ORDER BY is the stable sort over that order. The string collation is a parameter `collate` that is assumed to be a total preorder. NULL sorts first.
- The following are parameters: new identity values, `DateTime.UtcNow`, `Guid.NewGuid()`, the blob service's answers, the outcome of `SaveChangesAsync`, the outcome of a front-end HTTP call, and `JSON.stringify`/`JSON.parse`.

## Model

| member | source | states |
|---|---|---|
| OrdersController.GetAll | apps/backend/Framely.API/Controllers/OrdersController.cs:34-76 | Only an administrator is served; an anonymous caller gets 401, others 403. The listing is a page exactly when page number and size are at least 1, otherwise the query fails with 500. The page's counts are those of all orders passing the status filter. Row i of the page is row (pageNumber-1)*pageSize + i of the filtered, sorted listing, so its rows are stored orders passing the filter, in the chosen sort order. |
| OrdersController.OrderListingFacts | apps/backend/Framely.API/Controllers/OrdersController.cs:48-56 | The listing holds exactly the stored orders whose status equals the filter ignoring case (every order when the filter is absent or empty), one row per matching order. It is sorted by amount, status or date as sortBy says ignoring case, ascending only for sortOrder exactly "asc". |
| OrdersController.OrderComparerIsTotalPreorder | apps/backend/Framely.API/Controllers/OrdersController.cs:51-56 | Every key and direction choice orders orders totally and transitively, given a total collation, so the sort is well defined. |
| OrdersController.OrderPageFacts | apps/backend/Framely.API/Controllers/OrdersController.cs:58-64 | The page skips (pageNumber-1)*pageSize rows of the listing and takes at most pageSize: row i of the page is row (pageNumber-1)*pageSize + i of the listing. totalPages is the ceiling of totalItems/pageSize. |
| OrdersController.OrdersOfFacts | apps/backend/Framely.API/Controllers/OrdersController.cs:87-92 | A user's orders are exactly the stored orders whose owner is that user, each once, newest first. |
| OrdersController.GetUserOrders | apps/backend/Framely.API/Controllers/OrdersController.cs:83-96 | Administrators only (401 anonymous, 403 otherwise); the result is exactly the target user's orders, newest first. |
| OrdersController.GetMyOrders | apps/backend/Framely.API/Controllers/OrdersController.cs:229-246 | 401 exactly when the caller has no non-empty user id; otherwise exactly the caller's own orders, newest first. |
| OrdersController.GetById | apps/backend/Framely.API/Controllers/OrdersController.cs:103-123 | 401 for an anonymous caller, then 404 for an unknown id, then 403 unless the caller is an administrator or the owner; otherwise the stored order. |
| OrdersController.PriceLines | apps/backend/Framely.API/Controllers/OrdersController.cs:147-157 | Pricing fails exactly when some line names a product not in the catalog, and then names the first such line's product. Otherwise each line takes the catalog price, keeps its product and quantity, and belongs to the new order. |
| OrdersController.Create | apps/backend/Framely.API/Controllers/OrdersController.cs:130-164 | Rejects, in order: no caller (401), an absent or empty item list (400), an empty user id (401), the first unknown product (400), and then a save the database refuses (500). The save is refused when the payload sets the order id or a line id: the mapper copies it, and an identity column takes no explicit value. It is also refused when the catalog total, the sum of each product's price times its quantity, does not fit `decimal(18,2)`. It succeeds exactly when none applies. Then the order is stored under the new id with the caller as owner, status "Pending", the current date, catalog prices and a total of the sum of price times quantity, whatever the client sent. Nothing is written on failure. |
| OrdersController.UpdateStatus | apps/backend/Framely.API/Controllers/OrdersController.cs:172-188 | Administrators only; 404 for an unknown id; 400 unless the new status is exactly one of the four literals; on success only that order's status changes. Nothing is written on failure. |
| OrdersController.CancelOrDeleteOrder | apps/backend/Framely.API/Controllers/OrdersController.cs:195-223 | 401 anonymous, 404 unknown id, 403 neither administrator nor owner. An administrator deletes the order whatever its status. The owner turns "Pending" into "Cancelled" and gets 400 for any other status, with nothing changed. |
| OrdersController.CreateKeepsStoreConsistent | apps/backend/Framely.API/Controllers/OrdersController.cs:130-164 | Every stored order stays filed under its own id, with a total equal to the sum of its lines' price times quantity. |
| OrdersController.UpdateStatusKeepsStoreConsistent | apps/backend/Framely.API/Controllers/OrdersController.cs:172-188 | The status change keeps the store consistent in the same sense. |
| OrdersController.CancelOrDeleteKeepsStoreConsistent | apps/backend/Framely.API/Controllers/OrdersController.cs:195-223 | Deletion and cancellation keep the store consistent in the same sense. |
| OrdersController.CreateKeepsReferences | apps/backend/Framely.API/Controllers/OrdersController.cs:147-151 | A placed order names only catalog products, so every order line still names a stored product afterwards. |
| OrdersController.CreatedOrderIsVisibleToOwner | apps/backend/Framely.API/Controllers/OrdersController.cs:103-164 | A freshly created order is returned by GetById for its creator and appears in GetMyOrders. |
| OrdersController.OwnerCancelIsOneWay | apps/backend/Framely.API/Controllers/OrdersController.cs:209-218 | The owner's cancellation succeeds once; a second request is refused with 400 and changes nothing. |
| OrdersController.AdminCanReopenCancelled | apps/backend/Framely.API/Controllers/OrdersController.cs:176-185 | An administrator can move a cancelled order back to "Pending", and status literals are matched case-sensitively ("pending", "Shipped" are refused). |
| OrdersController.CreatePricesFromCatalog | apps/backend/Framely.API/Controllers/OrdersController.cs:147-157 | A request claiming unit prices of 1, a total of 100, status Cancelled and another owner is stored with the catalog prices, total 2 x 100000 + 1 x 20000 = 220000, status Pending and the caller as owner. |
| OrdersController.CreateKeepsMoneyInColumns | apps/backend/Framely.Infrastructure/Data/ApplicationDbContext.cs:48-59 | Order creation writes only amounts that fit `decimal(18,2)`. The total is checked, and each unit price is copied from a stored product. So every stored amount keeps fitting its column. |
| OrdersController.PricedTotal | apps/backend/Framely.API/Controllers/OrdersController.cs:147-157 | Lines priced from the catalog sum to the catalog's charge for the request: the sum of each named product's price times the line's quantity. |
| OrdersController.CreateOverflowingTotalFails | apps/backend/Framely.Infrastructure/Data/ApplicationDbContext.cs:48-51 | A frame priced 10,000,000.00 ordered 1,000,000,000 times totals 10^16, one minor unit past the column: the answer is 500 and nothing is written. With 999,999,999 frames the order is stored with total 999,999,999,000,000,000 minor units. |
| OrdersController.CreateRejectsUnknownProduct | apps/backend/Framely.API/Controllers/OrdersController.cs:149-151 | A request whose second line names an unknown product is refused with 400 naming that product, and the database is returned unchanged. |
| ProductsController.GetAll | apps/backend/Framely.API/Controllers/ProductsController.cs:35-73 | The catalog page exactly when page and size are at least 1, otherwise 500. Counts are over the whole catalog. Row i of the page is row (page-1)*pageSize + i of the sorted catalog, so the rows are in listing order. |
| ProductsController.ProductListingFacts | apps/backend/Framely.API/Controllers/ProductsController.cs:45-56 | The listing holds exactly the stored products, one row per product, sorted by price, brand or name as sortBy says ignoring case, descending only for sortOrder exactly "desc", NULL brands and names first. |
| ProductsController.ProductComparerIsTotalPreorder | apps/backend/Framely.API/Controllers/ProductsController.cs:45-56 | Every key and direction choice is a total preorder on products, given a total collation. |
| ProductsController.NullsFirstIsTotalPreorder | apps/backend/Framely.API/Controllers/ProductsController.cs:49-52 | Ordering a nullable column with NULL first is total and transitive. |
| ProductsController.ProductPageFacts | apps/backend/Framely.API/Controllers/ProductsController.cs:58-61 | The page skips (page-1)*pageSize products and takes at most pageSize: row i of the page is row (page-1)*pageSize + i of the listing. totalPages is the ceiling of totalItems/pageSize. |
| ProductsController.GetById | apps/backend/Framely.API/Controllers/ProductsController.cs:80-92 | The stored product exactly when the id is known, otherwise 404. |
| ProductsController.Create | apps/backend/Framely.API/Controllers/ProductsController.cs:99-119 | Administrators only. Rejects in order a blank name, a price that is not positive, and an unknown category (400), then a save the database refuses (500): a payload that sets the id (an explicit value for an identity column) or a price beyond `decimal(18,2)`. Nothing is written on failure. It succeeds exactly when all checks pass and then stores the payload under the new id. |
| ProductsController.Update | apps/backend/Framely.API/Controllers/ProductsController.cs:127-159 | Administrators only. Rejects in order an id mismatch (400), an unknown id (404), an unknown category, a blank name and a price that is not positive. A price beyond `decimal(18,2)` or any other refused database write gives 500. On success exactly that product is overwritten. The store is unchanged on every failure. |
| ProductsController.Delete | apps/backend/Framely.API/Controllers/ProductsController.cs:166-177 | Administrators only; 404 for an unknown id. Otherwise that product is removed, and every order line naming it goes with it, through the required ProductId key. The orders keep their other columns, the stored total included. |
| ProductsController.DeleteKeepsReferences | apps/backend/Framely.Infrastructure/Data/ApplicationDbContext.cs:36-40 | After the cascade every order line still names a stored product and every product a stored category. |
| ProductsController.DeleteOrderedProductLeavesStaleTotal | apps/backend/Framely.Infrastructure/Data/ApplicationDbContext.cs:36-40 | Deleting a product that was ordered empties the order's line list but keeps its total of 200.00, so the total no longer equals the sum of its lines. |
| ProductsController.WritesKeepMoneyInColumns | apps/backend/Framely.Infrastructure/Data/ApplicationDbContext.cs:57-59 | Create and Update store only prices that fit `decimal(18,2)`, and Delete stores no amount. So every stored amount keeps fitting its column. |
| ProductsController.WritesKeepReferences | apps/backend/Framely.API/Controllers/ProductsController.cs:99-159 | Create and Update refuse an unknown category, so the foreign keys keep holding after either. |
| ProductsController.UpdateThenGet | apps/backend/Framely.API/Controllers/ProductsController.cs:127-159 | What an accepted Update stores GetById returns. After a refused Update, and for every other id, GetById answers as before. |
| ProductsController.CreateThenGetThenDelete | apps/backend/Framely.API/Controllers/ProductsController.cs:80-177 | For any database whose foreign keys hold, a created product is read back unchanged, and deleting it again restores the database exactly: no order line names a product that did not exist yet. |
| ProductsController.GetByCategory | apps/backend/Framely.API/Controllers/ProductsController.cs:184-202 | 400 exactly for a blank name. Otherwise exactly the products whose category exists and has a non-empty name that, lowercased, equals the trimmed, lowercased query, with the count of such rows. |
| ProductsController.CategoryQueryIsCleaned | apps/backend/Framely.API/Controllers/ProductsController.cs:188-199 | The query is cleaned by the action itself: lowercasing it first, or trimming it first, changes neither the 400 nor the products found. |
| ProductsController.CleanName | apps/backend/Framely.API/Controllers/ProductsController.cs:191 | The cleaned query is no longer than the input and has no upper-case ASCII letter. |
| ProductsController.GetByBrand | apps/backend/Framely.API/Controllers/ProductsController.cs:209-224 | 400 exactly for a blank name; otherwise exactly the products whose non-empty brand contains the query ignoring case, each once. |
| ProductsController.Search | apps/backend/Framely.API/Controllers/ProductsController.cs:231-249 | 400 exactly for a blank term; otherwise exactly the products whose non-empty name, brand or description contains the term ignoring case, each once. |
| ProductsController.BrandResultsAreSearchResults | apps/backend/Framely.API/Controllers/ProductsController.cs:218-243 | Every brand hit is also a search hit for the same text. |
| ProductsController.SearchIgnoresCase | apps/backend/Framely.API/Controllers/ProductsController.cs:235-243 | Lowercasing the term first changes neither the 400 decision nor the result. |
| ProductsController.BrandIgnoresCase | apps/backend/Framely.API/Controllers/ProductsController.cs:213-219 | Lowercasing the brand query first changes nothing. |
| ProductsController.LowerKeepsBlank | apps/backend/Framely.API/Controllers/ProductsController.cs:235 | A string is blank exactly when its lowercase form is. |
| CategoriesController.GetAll | apps/backend/Framely.API/Controllers/CategoriesController.cs:36-86 | A page of the categories exactly when page number and size are at least 1, otherwise 500. Counts are over the whole table. Row i of the page is row (pageNumber-1)*pageSize + i of the sorted table, so the rows are in listing order. |
| CategoriesController.CategoryListingFacts | apps/backend/Framely.API/Controllers/CategoriesController.cs:48-60 | The listing holds exactly the stored categories, one row per category, sorted by id when sortBy is "id" ignoring case and by name otherwise, descending when sortOrder is "desc" ignoring case. |
| CategoriesController.CategoryComparerIsTotalPreorder | apps/backend/Framely.API/Controllers/CategoriesController.cs:48-60 | Each key and direction choice is a total preorder on categories, given a total collation. |
| CategoriesController.CategoryPageFacts | apps/backend/Framely.API/Controllers/CategoriesController.cs:64-71 | The page skips (pageNumber-1)*pageSize categories and takes at most pageSize: row i of the page is row (pageNumber-1)*pageSize + i of the listing. totalPages is the ceiling of totalItems/pageSize. |
| CategoriesController.GetById | apps/backend/Framely.API/Controllers/CategoriesController.cs:93-103 | The stored category exactly when the id is known, otherwise 404. |
| CategoriesController.Create | apps/backend/Framely.API/Controllers/CategoriesController.cs:110-120 | Administrators only. A payload that sets the id is refused with 500 (an explicit value for an identity column). Otherwise the payload is stored unvalidated under the new id and returned; nothing else changes. |
| CategoriesController.CreateThenGet | apps/backend/Framely.API/Controllers/CategoriesController.cs:93-120 | A category created by an administrator with id 0 is created, and GetById then returns it under its new id; every other id reads as before. |
| CategoriesController.Update | apps/backend/Framely.API/Controllers/CategoriesController.cs:128-143 | Administrators only; 400 for an id mismatch checked before existence, then 404; on success exactly that category takes the payload. Nothing is written on failure. |
| CategoriesController.Delete | apps/backend/Framely.API/Controllers/CategoriesController.cs:150-162 | Administrators only; 404 for an unknown id. Otherwise that category is removed. Through the required CategoryId key its products go too, and through ProductId every order line naming one of them. Other products, categories and order columns are unchanged. |
| CategoriesController.DeleteKeepsReferences | apps/backend/Framely.Infrastructure/Data/ApplicationDbContext.cs:36-40 | After the cascade no product names the deleted category and no order line names a deleted product. |
| CategoriesController.UpdateThenGetDeleteThenGet | apps/backend/Framely.API/Controllers/CategoriesController.cs:93-162 | What Update stores GetById returns; after Delete, GetById is 404. |
| BlobController.GetSasToken | apps/backend/Framely.API/Controllers/BlobController.cs:31-51 | Administrators only. A null, empty or white-space name is 400 without consulting the service. Otherwise the result is the service's URL, or 500 when the service throws. |
| BlobController.Upload | apps/backend/Framely.API/Controllers/BlobController.cs:58-99 | Administrators only. Rejects in order no file or an empty file, a file over 2 MiB, and a lowercased content type outside the five image types. Otherwise it returns the store's URL for the new name, or 500 when the store throws. |
| BlobController.Delete | apps/backend/Framely.API/Controllers/BlobController.cs:106-126 | Administrators only; 400 only for a null or empty name, so white space reaches the service. NoContent exactly when the service call returns without throwing (the flag it returns is discarded, so a missing blob is still NoContent); 500 when it throws. |
| BlobController.WhiteSpaceNamesSplitTheChecks | apps/backend/Framely.API/Controllers/BlobController.cs:36-112 | Every non-empty all-white-space name is refused by GetSasToken without asking the service and is handed to the service by Delete. |
| BlobController.Extension | apps/backend/Framely.API/Controllers/BlobController.cs:81 | The extension is non-empty exactly when the last path segment has a '.' that is not its last character, and it is then the text from the last such '.' to the end. |
| BlobController.BlobName | apps/backend/Framely.API/Controllers/BlobController.cs:81-82 | The stored name is the unique id followed by exactly the uploaded file's extension. |
| BlobController.BlobNameExtension | apps/backend/Framely.API/Controllers/BlobController.cs:81-82 | For every unique id without '.' or '/', the extension of the stored name is the uploaded file's extension. |
| BlobController.UploadIgnoresTypeCase | apps/backend/Framely.API/Controllers/BlobController.cs:69-72 | Upload answers the same for a content type and its lowercased form. |
| BlobController.EmptyNameGetsNoToken | apps/backend/Framely.API/Controllers/BlobController.cs:36-37 | An empty name is refused whatever the service would answer. |
| BlobController.SpaceNameChecksDiffer | apps/backend/Framely.API/Controllers/BlobController.cs:36-112 | A single space is refused by GetSasToken but passed to the service by Delete. |
| BlobController.SizeCapIsInclusive | apps/backend/Framely.API/Controllers/BlobController.cs:69-76 | One byte over 2 MiB is refused. Exactly 2 MiB with an upper-case "IMAGE/PNG" passes the checks and succeeds exactly when the store does. |
| BlobController.BlobNameKeepsExtension | apps/backend/Framely.API/Controllers/BlobController.cs:81-82 | "photos/cat.JPG" is stored as id + ".JPG" and "archive.tar.gz" as id + ".gz". |
| BlobController.BlobNameWithoutExtension | apps/backend/Framely.API/Controllers/BlobController.cs:81-82 | A '.' only in a directory name or at the end gives the bare id. |
| Cart.AddToCart | apps/frontend-customer/src/context/CartContext.tsx:54-64 | A known id gets one more unit on that line only, and the length is kept; a new id is appended with quantity 1. |
| Cart.RemoveFromCart | apps/frontend-customer/src/context/CartContext.tsx:67-69 | No line with the id remains, and every other line is kept. |
| Cart.UpdateQuantity | apps/frontend-customer/src/context/CartContext.tsx:72-78 | The line with the id gets max(1, qty) units and every other line is unchanged. |
| Cart.AtLeastOne | apps/frontend-customer/src/context/CartContext.tsx:75 | The result is at least 1, and is the requested quantity whenever that is at least 1. |
| Cart.ClearCart | apps/frontend-customer/src/context/CartContext.tsx:81-84 | The cleared cart is empty and totals 0. |
| Cart.AddKeepsValid | apps/frontend-customer/src/context/CartContext.tsx:54-64 | Adding keeps ids distinct and every quantity at least 1. |
| Cart.RemoveKeepsValid | apps/frontend-customer/src/context/CartContext.tsx:67-69 | Removing keeps the cart invariant. |
| Cart.UpdateKeepsValid | apps/frontend-customer/src/context/CartContext.tsx:72-78 | Setting a quantity keeps the cart invariant. |
| Cart.RemoveIsCut | apps/frontend-customer/src/context/CartContext.tsx:67-69 | With distinct ids, removing a present id cuts out exactly its line and keeps the others in order. |
| Cart.AddExistingIsReplace | apps/frontend-customer/src/context/CartContext.tsx:56-60 | With distinct ids, adding a known product replaces its one line by the same line with one more unit. |
| Cart.UpdateIsReplace | apps/frontend-customer/src/context/CartContext.tsx:72-78 | With distinct ids, setting a quantity replaces exactly one line. |
| Cart.AddRaisesTotal | apps/frontend-customer/src/context/CartContext.tsx:54-87 | Adding raises the total by the stored price of a known product, or by the given price of a new one. |
| Cart.RemoveLowersTotal | apps/frontend-customer/src/context/CartContext.tsx:67-87 | Removing a present id lowers the total by that line's amount; an absent id leaves the cart unchanged. |
| Cart.UpdateChangesTotal | apps/frontend-customer/src/context/CartContext.tsx:72-87 | Setting a quantity changes the total by the price times the change in quantity. |
| Cart.TotalAppend | apps/frontend-customer/src/context/CartContext.tsx:87 | The total of a cart with one more line is the old total plus that line's price times quantity. |
| Cart.TotalReplace | apps/frontend-customer/src/context/CartContext.tsx:87 | Replacing one line changes the total by the difference of the two line amounts. |
| Cart.TotalDropAt | apps/frontend-customer/src/context/CartContext.tsx:87 | Dropping one line lowers the total by its amount. |
| Cart.AddToEmptyCart | apps/frontend-customer/src/context/CartContext.tsx:54-87 | One product priced 100 added to an empty cart gives one line of quantity 1 and a total of 100. |
| Shop.Visible | apps/frontend-customer/src/components/ui/ShopClient.tsx:105-111 | The shown products are a permutation of exactly the loaded products whose lowercased name contains the lowercased term. The unsorted mode keeps their original order. "low-high" gives non-decreasing prices and "high-low" non-increasing ones. |
| Shop.EmptyTermMatchesAll | apps/frontend-customer/src/components/ui/ShopClient.tsx:105-106 | An empty search shows every loaded product. |
| Shop.UnsortedKeepsOrder | apps/frontend-customer/src/components/ui/ShopClient.tsx:107-111 | The comparator that always answers 0 leaves the list unchanged. |
| Shop.ModeOrderIsTotalPreorder | apps/frontend-customer/src/components/ui/ShopClient.tsx:107-111 | Each sort mode's comparator is total and transitive. |
| Shop.Toggle | apps/frontend-customer/src/components/ui/ShopClient.tsx:120-124 | Toggling always changes the mode. |
| Shop.ToggleThriceIsIdentity | apps/frontend-customer/src/components/ui/ShopClient.tsx:120-124 | Three toggles return to the starting mode, and one or two do not. |
| Shop.Prev | apps/frontend-customer/src/components/ui/ShopClient.tsx:202 | Prev goes one page back but never below 1. |
| Shop.Next | apps/frontend-customer/src/components/ui/ShopClient.tsx:214 | Next goes one page on but never past the last page. |
| Shop.PagerStaysInRange | apps/frontend-customer/src/components/ui/ShopClient.tsx:202-215 | From a page in range, Prev and Next stay in range. Prev after Next never ends above the start, and Next after Prev never below it. |
| Shop.SelectCategory | apps/frontend-customer/src/components/ui/ShopClient.tsx:80-101 | The evidently intended step. A category name that trimmed to "" is falsy, so it takes the "All" path: page 1 of the catalog with the counter reset, and the pager shown when there is more than one page. Any other name is selected, the pager is hidden, and the lookup's products are shown on page 1 of 1 from whatever page. A failed lookup shows nothing, since the service answers [] on error. |
| Shop.SelectCategoryAsWritten | apps/frontend-customer/src/components/ui/ShopClient.tsx:56-101 | As written. An empty name takes the "All" path: page 1 of the catalog and its page count, with the counter kept. For any other name, from page 1 the lookup's products are shown on page 1 of 1. From a later page, resetting the counter re-runs the page effect, and page 1 of the whole catalog (with its page count) replaces the category's products, still under the category. |
| Shop.SelectCategoryFromLaterPageShowsCatalog | apps/frontend-customer/src/components/ui/ShopClient.tsx:56-101 | From page 2, for a non-empty name, the step as written ends showing page 1 of the catalog, not the category's products. For the empty name both steps show the catalog. From page 1 the two steps agree. |
| Shop.CategoryViewIsOnePage | apps/frontend-customer/src/components/ui/ShopClient.tsx:198-216 | After choosing a non-empty category the pager is hidden, and Prev and Next would both stay on the one page. After the empty name the pager is shown exactly when the catalog has more than one page. |
| Shop.PagerShown | apps/frontend-customer/src/components/ui/ShopClient.tsx:198 | The pager is rendered only with more than one page, never while a non-empty category is selected, and always for the unfiltered listing of more than one page. |
| Shop.BlankCategoryIsAll | apps/frontend-customer/src/components/ui/CategoryFilter.tsx:71-78 | A category whose name trims to "" (the filter passes `cat.name.trim()`) shows the same products, counter, page count and pager as choosing "All", both as written and as corrected. |
| Shop.SelectAllAsWritten | apps/frontend-customer/src/components/ui/ShopClient.tsx:95-101 | Choosing "All" shows the first page's products and page count but keeps the old page counter. A failed fetch shows an empty page 1 of 1, since the service answers that on error. |
| Shop.SelectAll | apps/frontend-customer/src/components/ui/ShopClient.tsx:95-101 | Choosing "All" with the counter reset: page 1's products under page number 1. |
| Shop.SelectAllLabelsWrongPage | apps/frontend-customer/src/components/ui/ShopClient.tsx:95-101 | From page 3, the page shown as written is labelled 3 while it holds page 1; the corrected step labels it 1. |
| Checkout.ValidateMobile | apps/frontend-customer/src/app/checkout/page.tsx:41 | Accepts exactly ten ASCII digits whose first digit is 6 to 9. |
| Checkout.BuildPayload | apps/frontend-customer/src/app/checkout/page.tsx:60-71 | One payload line per cart line, in order, with the same id, quantity and price; the claimed total is the cart total; the form fields are copied. |
| Checkout.PlaceOrder | apps/frontend-customer/src/app/checkout/page.tsx:44-85 | Checks in order: an empty field, then an invalid mobile number, then an empty cart. The payload is sent exactly when none applies. The cart is cleared exactly when sending succeeds. |
| Checkout.ToRequest | apps/frontend-customer/src/app/checkout/page.tsx:60-71 | The request the backend binds has an item for each payload line with the same product and quantity. |
| Checkout.CartOrderIsAccepted | apps/backend/Framely.API/Controllers/OrdersController.cs:130-164 | A non-empty cart whose products all exist at the prices shown is accepted by order creation for a signed-in user, line for line, exactly when the cart total fits the `decimal(18,2)` total column. Otherwise the answer is 500. |
| Checkout.CatalogTotalIsCartTotal | apps/backend/Framely.API/Controllers/OrdersController.cs:147-157 | For any cart whose products exist at the prices shown, the backend's catalog total of the request equals the cart total the storefront computes. |
| Checkout.StoredTotalIsCartTotal | apps/backend/Framely.API/Controllers/OrdersController.cs:147-157 | In that case the order is stored exactly when the cart total fits the column, and the stored total then equals the cart total the storefront showed. |
| Checkout.LineTotalMatchesCart | apps/frontend-customer/src/context/CartContext.tsx:87 | Order lines carrying the cart's prices and quantities total the same as the cart. |
| Register.ValidateForm | apps/frontend-customer/src/app/auth/register/page.tsx:20-48 | The form passes exactly when all four checks pass. The first failure is reported, in the order name, email, phone, password. The trimmed name is measured in UTF-16 code units, as JavaScript's length counts. |
| Register.CheckEmail | apps/frontend-customer/src/app/auth/register/page.tsx:26-30 | Accepts exactly L@D.T with L, D, T non-empty and free of white space and '@'. |
| Register.CheckPhone | apps/frontend-customer/src/app/auth/register/page.tsx:32-36 | Accepts exactly ten ASCII digits. |
| Register.CheckPassword | apps/frontend-customer/src/app/auth/register/page.tsx:38-45 | Accepts exactly: at least 8 characters, all of them letters, digits or one of @$!%*?&, with at least one lower-case letter, one upper-case letter, one digit and one special character. |
| Register.SampleEmail | apps/frontend-customer/src/app/auth/register/page.tsx:26 | "asha@mail.in" is a valid email and "asha@mail." is not. |
| Register.SamplePassword | apps/frontend-customer/src/app/auth/register/page.tsx:38-39 | "Passw0rd!" is accepted and "password1!" is not. |
| Register.SampleName | apps/frontend-customer/src/app/auth/register/page.tsx:21 | "Asha Rao" trims to 8 code units. |
| Register.SamplePaddedName | apps/frontend-customer/src/app/auth/register/page.tsx:21 | "Ash   " is under 6 code units once trimmed. |
| Register.SampleAstralName | apps/frontend-customer/src/app/auth/register/page.tsx:21 | Three mathematical bold capitals are 6 code units, so the name rule passes them and the next rule (email) reports. |
| Register.BmpNameLength | apps/frontend-customer/src/app/auth/register/page.tsx:21 | For a name without characters outside the Basic Multilingual Plane, the trimmed name's code units equal its characters. |
| Register.SamplePhone | apps/frontend-customer/src/app/auth/register/page.tsx:32 | "9876543210" is valid and "98765 4321" is not. |
| Register.SampleFormPasses | apps/frontend-customer/src/app/auth/register/page.tsx:20-48 | A complete valid form passes. |
| Register.SampleShortName | apps/frontend-customer/src/app/auth/register/page.tsx:21-24 | A padded short name is reported as too short even when the other fields are valid. |
| TopSelling.Tally | apps/frontend-admin/src/components/ui/dashboard/TopSellingProducts.tsx:21-27 | One entry per product name that occurs in the orders, and no name twice. Each entry's count is the sum of the quantities of all lines with that name. The source agrees only for names that are not members of `Object.prototype` (see Left out). |
| TopSelling.TopThree | apps/frontend-admin/src/components/ui/dashboard/TopSellingProducts.tsx:29-32 | At most three entries, taken from the tally, in non-increasing order of units sold. No entry left out sold more than any entry kept. With three or fewer entries, all are kept. |
| TopSelling.MaxSold | apps/frontend-admin/src/components/ui/dashboard/TopSellingProducts.tsx:42 | 0 for no entries; otherwise a count some entry has and no entry exceeds. |
| TopSelling.MaxSoldOfSortedIsFirst | apps/frontend-admin/src/components/ui/dashboard/TopSellingProducts.tsx:29-42 | For the sorted result the largest count is the first one. |
| TopSelling.TopSellingProducts | apps/frontend-admin/src/components/ui/dashboard/TopSellingProducts.tsx:16-42 | A failed fetch shows nothing and a maximum of 0. Otherwise at most three distinct products that were sold, each with its true total, in non-increasing order. Fewer than three only when every sold product is shown. No product left out sold more than one shown. maxSold is the first count, or 0. |
| TopSelling.TopSellingFacts | apps/frontend-admin/src/components/ui/dashboard/TopSellingProducts.tsx:21-32 | Over a correct tally, the top three have distinct names, were sold, and carry their true totals. They hold every sold product when fewer than three, and no product left out sold more than one kept. |
| TopSelling.PermutationKeepsDistinct | apps/frontend-admin/src/components/ui/dashboard/TopSellingProducts.tsx:29-31 | Sorting the tally keeps names distinct. |
| TopSelling.MoreSoldIsTotalPreorder | apps/frontend-admin/src/components/ui/dashboard/TopSellingProducts.tsx:31 | The comparator b.sold - a.sold orders entries totally and transitively. |
| Navbar.IsActive | apps/frontend-admin/src/components/Navbar.tsx:36-38 | A link is active exactly on its own path, or on a longer path that starts with it and continues with '/'. |
| Navbar.ShouldRedirect | apps/frontend-admin/src/components/Navbar.tsx:23-29 | Redirect to the login page exactly when no user is signed in and the page is not the login page. |
| Navbar.ProductsHighlighting | apps/frontend-admin/src/components/Navbar.tsx:36-38 | "/products" and "/products/12" highlight Products; "/productsX" and "/products-old/1" do not. |
| Navbar.DashboardOnlyAtRoot | apps/frontend-admin/src/components/Navbar.tsx:10-38 | On any path not starting with "//", Dashboard is active exactly at "/". |
| Navbar.AtMostOneActive | apps/frontend-admin/src/components/Navbar.tsx:10-38 | On every path, at most one link of the bar is highlighted, "//x" included. |
| Navbar.RedirectNeverLoops | apps/frontend-admin/src/components/Navbar.tsx:23-29 | A signed-in admin is never redirected, the login page never redirects, and "/orders" without a session does. |
| AdminAuth.Hydrate | apps/frontend-admin/src/context/AuthContext.tsx:60-92 | With both cookies set, an ADMIN user is restored with the token. Any other role evicts both cookies and clears the session, with a redirect to the login page unless already there. Unparseable text evicts both cookies. Without both cookies nothing changes. Hydrated is true afterwards in every case. A fresh provider ends with a user exactly when an ADMIN was stored. |
| AdminAuth.Login | apps/frontend-admin/src/context/AuthContext.tsx:95-124 | Another role leaves user, token and cookies as they were and sets the error only if none is showing. An ADMIN sets user (the response minus its token), token and both cookies, clears the error and goes home. No other cookie changes. |
| AdminAuth.Logout | apps/frontend-admin/src/context/AuthContext.tsx:127-135 | User, token and error cleared, both cookies removed, other cookies kept, and a redirect to the login page. |
| AdminAuth.HydrateIsIdempotent | apps/frontend-admin/src/context/AuthContext.tsx:60-92 | The effect re-runs on navigation; running it again changes nothing. |
| AdminAuth.LoginSurvivesReload | apps/frontend-admin/src/context/AuthContext.tsx:60-124 | After an ADMIN login, a reload restores the same user and token, given that JSON round-trips. |
| AdminAuth.ReloadAfterLogoutRestoresNothing | apps/frontend-admin/src/context/AuthContext.tsx:60-135 | After logout a reload restores no session. |
| AdminAuth.NonAdminCookiesAreEvicted | apps/frontend-admin/src/context/AuthContext.tsx:73-83 | A stored non-admin is evicted, so a second reload finds nothing either. |
| AdminAuth.LogoutIsIdempotent | apps/frontend-admin/src/context/AuthContext.tsx:127-135 | Logging out twice is logging out once. |
| AdminAuth.AdminLoginScenario | apps/frontend-admin/test/auth/AuthContext.test.tsx:51-97 | An empty jar hydrates; the sample admin login writes both cookies and the user; logout removes both cookies. |
| Session.Forget | apps/frontend-admin/src/context/AuthContext.tsx:131-132 | Both session entries are removed and every other entry is kept. |
| CustomerAuth.Hydrate | apps/frontend-customer/src/context/AuthContext.tsx:50-62 | With both entries stored, the effect throws exactly when the user text does not parse. Otherwise the token is restored, and the user too unless the text is the JSON literal null. Without both entries nothing changes. Whenever the effect completes, hydrated is true. |
| CustomerAuth.Login | apps/frontend-customer/src/context/AuthContext.tsx:65-75 | Any role: token and user (the response minus its token) are set and both stored; other entries are kept. |
| CustomerAuth.Logout | apps/frontend-customer/src/context/AuthContext.tsx:78-86 | Token and user cleared, both entries removed, other entries kept. |
| CustomerAuth.LogoutIsIdempotent | apps/frontend-customer/src/context/AuthContext.tsx:78-86 | Logging out twice is logging out once. |
| CustomerAuth.LoginSurvivesReload | apps/frontend-customer/src/context/AuthContext.tsx:50-75 | After login a reload restores the same user and token, given that JSON round-trips. |
| CustomerAuth.ReloadAfterLogoutRestoresNothing | apps/frontend-customer/src/context/AuthContext.tsx:50-86 | After logout a reload mounts with no session. |
| CustomerAuth.NullUserKeepsToken | apps/frontend-customer/src/context/AuthContext.tsx:55-58 | A stored user of JSON null restores the token without a user. |
| CustomerAuth.CustomerLoginScenario | apps/frontend-customer/tests/basic/auth-context.test.tsx:10-42 | An empty store hydrates; the sample login stores both entries; logout removes them. |
| Paging.TotalPages | apps/backend/Framely.API/Controllers/ProductsController.cs:59 | The page count is the least number of pages of the given size that hold every item. |
| Paging.Page | apps/backend/Framely.API/Controllers/ProductsController.cs:60-61 | The page holds the items from position (page-1)*pageSize on, at most pageSize of them. |
| Paging.PageIsPageOf | apps/backend/Framely.API/Controllers/ProductsController.cs:60-61 | Row i of a page is row (page-1)*pageSize + i of the listing it was cut from. |
| Paging.PagesCoverListing | apps/backend/Framely.API/Controllers/ProductsController.cs:58-61 | The first totalPages pages, concatenated, are the whole listing. |
| Paging.PageBeyondLastIsEmpty | apps/backend/Framely.API/Controllers/ProductsController.cs:58-61 | A page number beyond totalPages gives no items. |
| Paging.PageKeepsOrder | apps/backend/Framely.API/Controllers/ProductsController.cs:58-61 | A page of a sorted listing is sorted and holds only listed items. |
| Models.Where | apps/backend/Framely.API/Controllers/ProductsController.cs:195-197 | A WHERE query returns exactly the rows satisfying the condition, one per matching key. |
| Seqs.SortBySorted | apps/backend/Framely.API/Controllers/ProductsController.cs:45-56 | The stable sort by a total preorder yields a sorted permutation. |
| Text.Contains | apps/backend/Framely.API/Controllers/ProductsController.cs:241-243 | Substring search: true exactly when the needle occurs at some position. |
| Text.TrimEmptyIffAllSpace | apps/backend/Framely.API/Controllers/ProductsController.cs:188-191 | A string trims to empty exactly when it is all white space. |
| Text.Utf16Length | apps/frontend-customer/src/app/auth/register/page.tsx:21 | The code-unit count is the character count plus one per astral character, between |s| and 2|s|, and equals |s| exactly when no character is astral. |
| Text.Utf16LengthConcat | apps/frontend-customer/src/app/auth/register/page.tsx:21 | Code units add up over concatenation. |
| Text.TrimIdempotent | apps/backend/Framely.API/Controllers/ProductsController.cs:191 | Trimming a trimmed string changes nothing. |
| Text.TrimLowerCommute | apps/backend/Framely.API/Controllers/ProductsController.cs:191 | Lowercasing and .NET trimming commute. |
| Models.DropLinesOf | apps/backend/Framely.Infrastructure/Data/ApplicationDbContext.cs:36-40 | The cascade keeps every order and every column but the lines, and keeps exactly the lines naming no removed product. |

## Left out

- Database plumbing (EF Core, async queries, `SaveChangesAsync` for actions other than product update, the `ApplicationDbContext` mapping): each action is one atomic step over maps. The cascade deletes that EF conventions give the required keys are modelled: an order's lines go with it, a product's order lines go with the product, and a category's products go with the category. The identity values of new order lines are not modelled: a stored line keeps the id 0 its payload carried.
- `[Authorize]` is modelled as the role check it performs: 401 without a user, 403 without the role. The JWT pipeline, Identity and the auth controllers are not part of this model.
- AutoMapper and the DTO data annotations: a payload is stored field for field. The request DTOs' own validation (`[Required]`, `[EmailAddress]`) is not modelled.
- OrdersController.Create: the status, owner, date, prices and total the client sends are overridden, as in the source. The mapper copies the order id and line ids. A non-zero one fails the save with 500, and that is what the model does. ProductsController.Create and CategoriesController.Create do the same for a non-zero payload id.
- OrdersController.Create, ProductsController.Create: a money amount beyond `decimal(18,2)` is modelled as the save's 500. Three related limits are not modelled. A line quantity must be a 32-bit `int` (OrderItem.Quantity), and the JSON binder refuses a larger one with its own 400 before the action runs; the model takes any integer quantity. C# `decimal` arithmetic overflows only beyond about 7.9 × 10^28. If a running total got that large partway through the loop, the source would answer 500 before reaching a later unknown product, where the model answers that product's 400. Amounts finer than a hundredth do not arise, since money is kept in minor units.
- OrdersController.GetAll, ProductsController.GetAll, CategoriesController.GetAll: a page number below 1 or a page size below 1 is modelled as a 500. This assumes SQL Server's rejection of a negative OFFSET or a FETCH of no rows. The `totalPages` a zero page size would compute is not modelled, and neither is 32-bit overflow of `(page - 1) * pageSize`.
- ORDER BY ties: rows with equal keys keep ascending key order. SQL Server does not promise any tie order.
- String comparison in the database is an abstract collation. Case-insensitive collation and trailing-space equality in `==` are not modelled: equality in WHERE clauses is ordinal on the lowercased text, as the source writes it.
- `ToLower`/`toLowerCase` are ASCII lowercasing. Unicode case mapping is not modelled.
- Error bodies are abstracted to a reason code. The messages and the logging are not modelled.
- BlobController: the blob service itself (SAS generation, upload, delete) is a parameter. For a SAS token or an upload it returns a URL or fails. For a delete it is whether the call returns without throwing. `Path.GetExtension` uses '/' as the only directory separator, as on the Linux container. A null content type is not modelled.
- Cart: persistence to localStorage and the restore on mount are left out. So is the `useCart` guard.
- Checkout: the redirect effect for a visitor without a session, the autofill of name and email, and the render guards are left out. The outcome of `placeOrder` is a parameter.
- Toasts, router timers and loading flags in every front-end component are left out.
- The `typeof window` server-side-rendering guard is left out: the contexts are modelled as running in the browser.
- JSON is a pair of functions assumed to round-trip. The cookie options (expiry, secure, same-site) are not modelled.
- TopSelling.Tally: the tally is keyed by name in first-occurrence order. Ties in the sort keep the tally order. Three behaviours of the plain `{}` used as the map are not modelled:
  - `Object.entries` lists integer-like keys first.
  - A `__proto__` key behaves specially.
  - The read `salesMap[name] || 0` sees members inherited from `Object.prototype`. These are `constructor`, `toString`, `toLocaleString`, `valueOf`, `hasOwnProperty`, `isPrototypeOf`, `propertyIsEnumerable` and the legacy `__defineGetter__` family. For a product with one of these names, the first read yields a function, so the entry becomes a string and not a sum. The sort comparator then yields NaN and `Math.max` gives NaN. The model sums every name as a number.
- TopSelling.TopSellingProducts: only the orders the single fetch returns (the newest 1000) are counted, as in the source. The paging of that fetch is not modelled.
- Shop: loading categories and the URL `category` parameter are left out. The page effect is modelled only where it follows a category choice from a later page. The pager steps and the selection steps are modelled. Prices are compared as integers, not as JavaScript doubles.
- Register: submitting the form to the backend and the redirect after it are left out. The regular expressions are re-expressed as character predicates.
- The admin dashboard's other widgets (revenue trend, metrics, low stock) use floating point, dates and randomness and are not part of this model.

## Findings

| source | as written | input that shows it | evidently intended | confidence | as-written member | corrected member |
|---|---|---|---|---|---|---|
| apps/frontend-customer/src/components/ui/ShopClient.tsx:95-101 | Choosing "All" fetches page 1 but never resets `currentPage` | On page 3 of the listing, choose "All": page 1's products appear under "Page 3 of N", and Next then fetches page 4 | The counter is reset to 1 along with the fetch | medium, not executed | Shop.SelectAllAsWritten | Shop.SelectAll |
| apps/frontend-customer/src/components/ui/ShopClient.tsx:56-92 | Choosing a category resets `currentPage` to 1 after its lookup, which re-runs the page effect's `fetchAllProducts(1)` | On page 2 of the listing, choose a category with a non-empty name: its products appear, then page 1 of the whole catalog replaces them under the category's name | The category's products stay on screen | medium, not executed | Shop.SelectCategoryAsWritten | Shop.SelectCategory |
