# Pharmacy shop: a verified model of its controllers

This project models the business logic of a small ASP.NET MVC pharmacy shop
in Dafny, and proves properties of it. The shop has a customer side and an
admin side. Customers sign in, browse and search the catalogue, keep a cart,
and check out with cash on delivery. Admins move orders through their statuses,
read order statistics, and maintain the product table.

The database context is the class `Store.Database`. It holds the five tables
(`products`, `cartItems`, `orders`, `orderItems`, `users`) as sequences, plus
the next key each auto-increment column hands out (all start at 1). Its
`Valid()` predicate states the invariants the modelled actions are specified
from and proved to keep:

- at most one cart row per (user, product) pair;
- usernames are unique, and so are emails;
- every order id, and every order id an item refers to, is below the next order key;
- every order is balanced: its subtotal is the sum of its items' `TotalPrice`,
  and its total is subtotal + tax + shipping.

Every action of the model except `AdminController.AddOrder` keeps `Valid()`,
but only because of three things the model leaves out (see "## Left out"), each
of which lets the program leave a `Valid()` state:

- `AdminController.AddOrder` is a public, routable action with no role gate. It
  stores the posted order unchecked. In the model only its key is assigned: a
  posted `Id` of 0 takes the next order key, and the key counter always moves
  past the stored key. So the model's `AddOrder` keeps `Valid()` exactly when
  the stored order is balanced (`AdminController.AddOrderBalancedIff`). The
  program also inserts any `OrderItems` posted with the order
  (Models/Order.cs:61, Controllers/AdminController.cs:418), which the model drops.
- Checkout binds a whole `Order`, including its `OrderItems`, and never checks
  `ModelState`; the program inserts any posted items with the order
  (Controllers/ShopController.cs:262). A customer who posts one item can store an order
  whose items no longer sum to its subtotal. The model's checkout form has no
  items, so its proof that checkout keeps every order balanced holds only in
  the model.
- `DeleteProduct` keeps `Valid()` in the model only because the database's
  cascade to cart rows and order items is not modelled.

Every action is specified only from a `Valid()` state (`requires db.Valid()`).
Once the program has stored an unbalanced order by one of the routes above,
the model says nothing about later requests, although the program keeps
serving cart, checkout, admin and auth requests, none of whose results depends
on order balance.

The HTTP session is the class `Sessions.Session`, which holds a map from string
to string. Each controller action is a method that takes the database and the
session. Its `modifies` clause names the table fields it may change. Its
`ensures` clauses give the new tables as functions of the old ones, one case
per branch of the source.

Modelling decisions:

- C# `decimal` is exact, so money is a Dafny `real`. `0.05 × subtotal` and
  `5.00` are exact.
- `DateTime.Now` is a `now` parameter. An action that reads the clock twice
  (`AddProduct` for `CreatedAt` and `UpdatedAt`, `Register` for `CreatedAt`
  and `LastLogin`) gets one `now`, so the model stores equal stamps where the
  program may store two instants a tick apart. A `Guid.NewGuid()` file name
  prefix is a field of the `Upload` value.
- Ids are `nat`; the C# ids and id parameters are `int`. A negative id matches
  no row in the program, just as an id that is not in the table.
- `string.IsNullOrEmpty` and `?? ""` treat null like the empty string, so a
  null form field is modelled as `""`.
- A session `GetString` is an `Option`. `int.Parse` of the stored user id is
  `Text.ParseNat`. Shop actions require that a stored `UserId` is decimal text
  (`Sessions.WellFormed`). Login establishes this, and
  `Text.ParseNatToString` proves that the id written at login parses back to
  itself.
- `StringComparison.OrdinalIgnoreCase` is ASCII lower-casing.
- `ModelState.IsValid` is a `modelValid` flag.
- The two LINQ sorts (`OrderByDescending(o => o.OrderDate)`) are one
  insertion sort. The model proves that it orders newest first and that it is
  a permutation. It keeps orders of the same instant in table order; that
  choice is the model's (see "Left out").

Checkout prices only the cart lines whose product is active. A line with a
missing or inactive product adds nothing to the subtotal and gets no order
item, although checkout still removes it from the cart
(Controllers/ShopController.cs:249-253 and 268-284).

One behaviour of the code is worth knowing; it is not claimed as a defect.
Checkout copies `CustomerEmail` from the session key `UserEmail`, but login
never writes that key (it writes `UserId`, `Username`, `UserRole` and
`UserFullName`). So a checkout right after login stores an empty email.
`ShopController.SessionEmail` models the lookup exactly as written.

## Model

| member | source | states |
|---|---|---|
| Sessions.LoggedIn | Controllers/ShopController.cs:20-21 | definition of the shop's login gate; its relation to the user id is in `Sessions.CurrentUserId` |
| Sessions.CurrentUserId | Controllers/ShopController.cs:109-115 | a user id is available exactly when the session's `UserId` entry is present and non-empty |
| Sessions.AdminGateIsExactMatch | Controllers/AdminController.cs:40-41 | the admin gate passes exactly when `UserRole` is present and equal to "Admin"; the emptiness test adds nothing |
| Sessions.IsAdminSession | Controllers/AdminController.cs:40-41 | definition of the admin role gate; its property is in `Sessions.AdminGateIsExactMatch` |
| Text.ParseNatToString | Controllers/AuthController.cs:34 | parsing the decimal text of a user id gives back that id, so the session id written at login is read back unchanged |
| Text.OccurrenceIsFoundIgnoringCase | Controllers/ShopController.cs:81-84 | a case-sensitive occurrence of the query is always found by the case-insensitive search |
| Cart.UserRows | Controllers/ShopController.cs:211 | definition of a user's cart rows; its properties are in `ShopController.CartPage` and `Cart.ClearLeavesOtherCarts` |
| Cart.FindRow | Controllers/ShopController.cs:116 | finds the first row of the (user, product) pair, and finds nothing exactly when the pair has no row |
| Cart.AfterAdd | Controllers/ShopController.cs:116-130 | definition of the cart after `AddToCart`; its properties are in `Cart.AddAddsQuantity`, `Cart.AddToExistingRow`, `Cart.AddInsertsOneRow` and `Cart.AddKeepsKeysUnique` |
| Cart.AfterUpdate | Controllers/ShopController.cs:145-150 | definition of the cart after `UpdateCart`; its properties are in `Cart.UpdateSetsQuantity` and `Cart.UpdateKeepsKeysUnique` |
| Cart.AfterRemove | Controllers/ShopController.cs:165-170 | definition of the cart after `RemoveFromCart`; its properties are in `Cart.RemoveDeletesOnlyThatRow`, `Cart.RemoveClearsQuantity` and `Cart.RemoveKeepsKeysUnique` |
| Cart.OtherUsersRows | Controllers/ShopController.cs:284 | definition of the cart after checkout's `RemoveRange`; its properties are in `Cart.ClearLeavesOtherCarts` and `Cart.ClearKeepsKeysUnique` |
| Cart.AddAddsQuantity | Controllers/ShopController.cs:116-130 | adding raises the pair's total quantity by `quantity` and leaves every other pair's total as it was |
| Cart.AddToExistingRow | Controllers/ShopController.cs:116-120 | with the pair already in the cart, the matching row's quantity grows by `quantity`, no row is added, and no other row changes |
| Cart.AddInsertsOneRow | Controllers/ShopController.cs:121-130 | with the pair not yet in the cart, exactly one row for that user, product and quantity is appended and the old rows stay as they were |
| Cart.AddKeepsKeysUnique | Controllers/ShopController.cs:116-130 | adding never creates a second row for a (user, product) pair |
| Cart.UpdateSetsQuantity | Controllers/ShopController.cs:145-150 | the pair's quantity becomes exactly the requested value when the row exists; nothing changes when it does not; other pairs keep theirs |
| Cart.UpdateKeepsKeysUnique | Controllers/ShopController.cs:145-150 | updating keeps at most one row per pair |
| Cart.RemoveDeletesOnlyThatRow | Controllers/ShopController.cs:165-170 | after removal the pair has no row, every remaining row was there before, every other row is kept, and the table shrinks by one exactly when the pair had a row |
| Cart.RemoveClearsQuantity | Controllers/ShopController.cs:165-170 | the removed pair's quantity drops to zero and every other pair keeps its quantity |
| Cart.RemoveKeepsKeysUnique | Controllers/ShopController.cs:165-170 | removing keeps at most one row per pair |
| Cart.ClearLeavesOtherCarts | Controllers/ShopController.cs:284 | after checkout's `RemoveRange` the user's cart is empty, and every other user's cart is exactly as before, in order |
| Cart.ClearKeepsKeysUnique | Controllers/ShopController.cs:284 | clearing one user's cart keeps at most one row per pair |
| Pricing.RequiredFieldsPresent | Controllers/ShopController.cs:218-222 | definition of checkout's required-field check; its use is in `ShopController.Checkout` |
| Pricing.ActiveProducts | Controllers/ShopController.cs:244 | holds exactly the active products |
| Pricing.PriceOf | Controllers/ShopController.cs:249-250 | has no price exactly when no active product has the id, and otherwise the price of an active product with that id |
| Pricing.Subtotal | Controllers/ShopController.cs:244-254 | definition of the subtotal; its properties are in `Pricing.ComputeSubtotal`, `Pricing.SubtotalSkipsUnpriced` and `Pricing.ItemsTotalIsSubtotal` |
| Pricing.PricedItems | Controllers/ShopController.cs:266-281 | definition of the items checkout creates; its properties are in `Pricing.PricedItemsFollowLines`, `Pricing.ItemsTotalIsSubtotal` and `ShopController.AddOrderItems` |
| Pricing.PlacedOrder | Controllers/ShopController.cs:236-259 | definition of the order record checkout stores; its properties are in `Pricing.PlacedOrderIsBalanced` and `Pricing.TotalsExample` |
| Pricing.ComputeSubtotal | Controllers/ShopController.cs:244-254 | the summation loop computes the subtotal: price × quantity summed over the lines whose product is active |
| Pricing.SubtotalSkipsUnpriced | Controllers/ShopController.cs:249-253 | lines with a missing or inactive product add nothing: the subtotal over the priced lines equals the subtotal over all lines |
| Pricing.PricedItemsFollowLines | Controllers/ShopController.cs:266-281 | one order item per priced cart line, in order: item k belongs to the new order, has consecutive key `firstId + k`, line k's product and quantity, the active price as unit price, and unit price × quantity as total |
| Pricing.ItemsTotalIsSubtotal | Controllers/ShopController.cs:244-281 | the sum of the new order's item totals equals the order's subtotal |
| Pricing.PlacedOrderIsBalanced | Controllers/ShopController.cs:236-259 | the placed order is Pending, cash on delivery, taxed at 5% with 5.00 shipping, its total is subtotal + tax + shipping, and it is balanced by its own items |
| Pricing.TotalsExample | Controllers/ShopController.cs:256-259 | two units at 5.99 and one at 12.99 give subtotal 24.97, tax 1.2485 and total 31.2185 |
| Catalog.ShopIndex | Controllers/ShopController.cs:18-28 | redirects exactly when nobody is signed in; otherwise lists exactly the active products |
| Catalog.Search | Controllers/ShopController.cs:71-89 | redirects exactly when nobody is signed in; otherwise lists exactly the active products whose name, description, category or manufacturer contains the query, ignoring case |
| Catalog.Category | Controllers/ShopController.cs:56-69 | redirects exactly when nobody is signed in; otherwise lists exactly the active products whose category equals the given one, ignoring case |
| Catalog.ProductPage | Controllers/ShopController.cs:30-54 | shows a product exactly when an active product has the id; the related products are active, share the category, exclude the product itself, number at most 4, and fewer than 4 are shown only when no other related product exists |
| ShopController.CartPage | Controllers/ShopController.cs:91-104 | shows exactly the signed-in user's rows, and redirects exactly when nobody is signed in |
| ShopController.AddToCart | Controllers/ShopController.cs:107-133 | with no user, the "Please login first" failure and no change; otherwise the upsert and "Product added to cart", with a key used only when a row is inserted; the quantity defaults to 1; the database stays valid |
| ShopController.UpdateCart | Controllers/ShopController.cs:136-153 | with no user, BadRequest and no change; otherwise Ok and the table after the update; the database stays valid |
| ShopController.RemoveFromCart | Controllers/ShopController.cs:156-173 | with no user, BadRequest and no change; otherwise Ok and the table after the removal; the database stays valid |
| ShopController.Checkout | Controllers/ShopController.cs:201-291 | with no user, an empty cart or a missing required field, nothing is stored; otherwise one Pending order priced from the user's active lines, its items, and the user's rows removed while other users' rows stay; the database stays valid (posted order items are not modelled) |
| ShopController.SessionEmail | Controllers/ShopController.cs:240 | definition of the email checkout copies from the session's `UserEmail` entry, `""` when absent; used in `ShopController.Checkout` |
| ShopController.PlaceOrder | Controllers/ShopController.cs:236-284 | stores the order under the next key, appends its items with consecutive keys, removes the user's cart rows, and keeps every order balanced |
| ShopController.AddOrderItems | Controllers/ShopController.cs:266-281 | the item loop stages exactly the priced items, in cart order, and stores them together; the item key advances by their number |
| ShopController.CheckoutKeepsBalance | Controllers/ShopController.cs:256-281 | the new order and its items keep every order, old and new, balanced and every order id below the next key |
| ShopController.OrderConfirmation | Controllers/ShopController.cs:293-312 | redirects to login exactly when nobody is signed in; shows only an order with that id placed by the session's user, and shows it whenever every order with that id is the user's |
| AdminQueries.StatusCountsPartition | Controllers/AdminController.cs:395-401 | the six per-status counts add up to the total number of orders |
| AdminQueries.Statistics | Controllers/AdminController.cs:393-402 | definition of the statistics object; its properties are in `AdminQueries.StatusCountsPartition` and `AdminQueries.GetOrderStatistics` |
| AdminQueries.Revenue | Controllers/AdminController.cs:402 | definition of the revenue; its properties are in `AdminQueries.RevenueBounds` and `AdminQueries.RevenueSnoc` |
| AdminQueries.TotalsPartition | Controllers/AdminController.cs:402 | the money of all orders is the sum of the money of each status's orders |
| AdminQueries.RevenueBounds | Controllers/AdminController.cs:402 | with no negative totals, revenue lies between zero and the total of all orders |
| AdminQueries.RevenueSnoc | Controllers/AdminController.cs:402 | a delivered order adds its total to the revenue, and an order of any other status adds nothing |
| AdminQueries.GetOrderStatistics | Controllers/AdminController.cs:384-407 | the "Unauthorized" failure exactly when the gate fails; otherwise statistics whose total is the number of orders, whose six status counts are the numbers of orders with each status and add up to the total, and whose revenue counts delivered orders only |
| AdminQueries.InsertByDate | Controllers/AdminController.cs:370 | inserting into a newest-first list keeps it newest first and adds exactly that order |
| AdminQueries.SortByDateDesc | Controllers/AdminController.cs:52 | the sort orders newest first and is a permutation of its input |
| AdminQueries.InsertByDateIsStable | Controllers/AdminController.cs:370 | in the model's sort, an inserted order goes after every order of the same instant (the program leaves this order undefined) |
| AdminQueries.SortIsStable | Controllers/AdminController.cs:52 | orders of the same instant keep their table order through the model's sort (the program leaves this order undefined) |
| AdminQueries.PendingOrdersAreExactlyPending | Controllers/AdminController.cs:368-370 | the pending list holds exactly the pending orders, each as often as in the table, newest first, and its length is the pending count |
| AdminQueries.PendingOrders | Controllers/AdminController.cs:368-370 | definition of the pending list; its properties are in `AdminQueries.PendingOrdersAreExactlyPending` |
| AdminQueries.Summaries | Controllers/AdminController.cs:371-377 | one summary per order, in order, carrying its id, customer name, total and date |
| AdminQueries.GetPendingOrders | Controllers/AdminController.cs:359-381 | an empty list when the gate fails; otherwise the pending orders' summaries, newest first, as many as the pending count |
| AdminQueries.LowStockCount | Controllers/AdminController.cs:49 | the count is the number of table positions holding a product whose stock is below 20 |
| AdminQueries.RecentOrders | Controllers/AdminController.cs:50-54 | at most 10 orders, newest first |
| AdminQueries.RecentOrdersAreNewest | Controllers/AdminController.cs:50-54 | the recent orders are the first ones of the newest-first order of the whole table, all of them when there are at most 10, and no order left out is newer than any order shown |
| AdminQueries.AdminIndex | Controllers/AdminController.cs:37-57 | redirects exactly when the gate fails; otherwise the product and order counts, the pending count, the low-stock count and the recent orders |
| AdminController.WithStatus | Controllers/AdminController.cs:254-262 | the status is set whatever it was; `ShippedDate` changes only for Shipped and is then `now`; `DeliveredDate` changes only for Delivered and is then `now`; every other field is unchanged |
| AdminController.StatusUpdated | Controllers/AdminController.cs:251-262 | only the first order with the key changes, by `WithStatus`; an unknown key changes nothing; the table keeps its length |
| AdminController.AcceptAndRejectAreStatusUpdates | Controllers/AdminController.cs:278-301 | accepting and rejecting set the status as the general status update does, because neither Confirmed nor Cancelled stamps a date |
| AdminController.StatusAssigned | Controllers/AdminController.cs:278-301 | only the first order with the key changes, and only in its status; an unknown key changes nothing |
| AdminController.StatusUpdateIsIdempotent | Controllers/AdminController.cs:251-262 | applying the same status update twice, with the same `now`, gives the same table as applying it once; a property of this model, not a promise of the program |
| AdminController.StatusChangesKeepBalance | Controllers/AdminController.cs:251-301 | status changes keep every order balanced and every order id below the next key |
| AdminController.ApplyStatus | Controllers/AdminController.cs:251-262 | reports whether an order with the key exists, and leaves the table as `StatusUpdated` describes |
| AdminController.AssignStatus | Controllers/AdminController.cs:278-282 | reports whether an order with the key exists, and leaves the table as `StatusAssigned` describes |
| AdminController.UpdateOrderStatus | Controllers/AdminController.cs:242-266 | a failed gate redirects to login and changes nothing; otherwise the status update and a redirect to the order list |
| AdminController.UpdateOrderStatusAjax | Controllers/AdminController.cs:331-356 | a failed gate gives "Unauthorized" and no change; otherwise the status update, with success exactly when the order exists ("Order not found" otherwise) |
| AdminController.AcceptOrder | Controllers/AdminController.cs:269-286 | a failed gate gives "Unauthorized" and no change; otherwise the order becomes Confirmed whatever its status, with success exactly when it exists |
| AdminController.RejectOrder | Controllers/AdminController.cs:289-306 | a failed gate gives "Unauthorized" and no change; otherwise the order becomes Cancelled whatever its status, with success exactly when it exists |
| AdminController.UploadUrl | Controllers/AdminController.cs:122-130 | an uploaded image is served from under "/images/products/" |
| AdminController.EditedImage | Controllers/AdminController.cs:195-216 | a file takes precedence, then a non-empty URL; the image changes only when one of them is supplied |
| AdminController.NewProductImage | Controllers/AdminController.cs:114-141 | the new-product rule is the edit rule with the default image in place of a current image, and never yields an empty URL |
| AdminController.NewProduct | Controllers/AdminController.cs:109-143 | the stored product is active, keyed by the next product key, stamped `now` for creation and update, uses the new-product image rule, and otherwise has the submitted fields |
| AdminController.EditIsIdempotent | Controllers/AdminController.cs:183-216 | editing twice with the same form, upload and `now` gives the same product as editing once; a property of this model, not a promise of the program |
| AdminController.EditedProduct | Controllers/AdminController.cs:183-216 | the edited product has the nine submitted fields and the update stamp `now`, keeps its key and creation time, and follows the edit image rule |
| AdminController.ProductsEdited | Controllers/AdminController.cs:180-217 | only the first product with the submitted key is edited; an unknown key changes nothing |
| AdminController.ProductsDeleted | Controllers/AdminController.cs:233-238 | the first product with the key is removed and the others keep their order; an unknown key changes nothing |
| AdminController.AddProduct | Controllers/AdminController.cs:98-149 | a failed gate redirects to login; an invalid form redisplays it; in both cases nothing changes; otherwise the new product is appended under the next key |
| AdminController.EditProduct | Controllers/AdminController.cs:169-222 | a failed gate redirects to login; an invalid form redisplays it; in both cases nothing changes; otherwise the table after the edit |
| AdminController.DeleteProduct | Controllers/AdminController.cs:224-240 | a failed gate redirects to login and changes nothing; otherwise the table after the deletion |
| AdminController.StoredOrder | Controllers/AdminController.cs:418 | the stored record is the posted order, except that a posted key of 0 becomes the next order key |
| AdminController.NextKeyAfter | Controllers/AdminController.cs:418-419 | after an insert the key counter is above the stored key and never moves back, and it is either unchanged or one past the stored key |
| AdminController.AddOrder | Controllers/AdminController.cs:416-420 | with no role gate and no check, the posted order is appended under its assigned key and the key counter moves past it; the database stays valid exactly when the stored order is balanced (posted order items are not modelled) |
| AdminController.AddOrderBalancedIff | Controllers/AdminController.cs:416-420 | appending an order to balanced orders keeps them balanced exactly when that order is balanced against the stored items |
| AuthController.FindLoginUser | Controllers/AuthController.cs:25 | finds an account exactly when some account has that username and that password and is active, and what it finds matches |
| AuthController.LoginUserIsTheOnlyOneOfThatName | Controllers/AuthController.cs:25 | with unique usernames, the account found is the only account with that username |
| AuthController.LoginSession | Controllers/AuthController.cs:34-37 | definition of the session after login; its properties are in `AuthController.LoginSessionIdentifiesUser` |
| AuthController.LoginSessionIdentifiesUser | Controllers/AuthController.cs:34-37 | after login the session's user id parses to the account's id, the username and full name are stored, and the admin gate passes exactly when the role is "Admin" |
| AuthController.Login | Controllers/AuthController.cs:23-51 | no match: the "Invalid username or password" error, and neither the users nor the session change; a match: that account's last login becomes `now`, the session is filled, and admins go to Admin while everyone else goes to Shop |
| AuthController.NewUser | Controllers/AuthController.cs:78-83 | the new account is an active Customer stamped `now`, whatever role and status were submitted, with the other submitted fields kept |
| AuthController.RegistrationAddsNoAdmin | Controllers/AuthController.cs:78-84 | registration never changes the number of admin accounts |
| AuthController.UsernameTaken | Controllers/AuthController.cs:64 | definition of the username check; used in `AuthController.AppendFreshUserKeepsUnique` and `AuthController.Register` |
| AuthController.EmailTaken | Controllers/AuthController.cs:71 | definition of the email check; used in `AuthController.AppendFreshUserKeepsUnique` and `AuthController.Register` |
| AuthController.AppendFreshUserKeepsUnique | Controllers/AuthController.cs:64-84 | a new account with a fresh username and a fresh email keeps both unique |
| AuthController.Register | Controllers/AuthController.cs:59-91 | an invalid form, a taken username (checked first), or a taken email each store nothing and give their own message; otherwise one new customer under the next key and a redirect to login; the database stays valid |
| AuthController.Logout | Controllers/AuthController.cs:93-98 | the session becomes empty, so nobody is signed in and the admin gate is closed |
| Store.Database.Valid | Models/Order.cs:51-62 | the invariant every modelled action except `AddOrder` keeps unconditionally: one cart row per pair, unique usernames and emails, order ids below the next key, and every order balanced |
| Store.AppendOrderKeepsBalance | Controllers/ShopController.cs:261-281 | appending an order with a fresh key and its own items keeps every order balanced and every order id below the next key |
| Store.SameTotalsKeepBalance | Controllers/AdminController.cs:254-301 | changing orders without touching their keys or money fields keeps every order balanced |

## Left out

- `todayOrders` in the order statistics: it depends on the real clock (`DateTime.Today`).
- Startup (`Program.cs`): host and middleware set-up, SQLite wiring, session cookie options and the seed data. The schema migration has no behaviour to state.
- Image upload I/O: directory creation, the file stream and `CopyToAsync`. Only the resulting URL is modelled. The `Guid.NewGuid()` text is an input.
- The static `_products` and `_orders` sample lists in the admin controller. Nothing reads them.
- Pages that only return a table or a form: `Checkout` (GET), `Products`, `Orders`, `OrderDetails`, the GET forms of `AddProduct`, `EditProduct`, `Login` and `Register`.
- The read-only public methods `GetProducts`, `GetOrder` and `GetAllOrders` of the admin controller and `GetCurrentUser` and `GetAllUsers` of the auth controller. They change nothing, so they are not modelled. Every public controller method is routable (Program.cs:76-79) and none of these checks the role gate: `GetCurrentUser` and `GetAllUsers` return accounts with their plaintext passwords to anyone. `GetOrder` and `GetAllOrders` load the orders with their items, which refer back to their order; whether that reaches a caller depends on the serializer's handling of the cycle, which is not modelled. The gate statements of this model cover the modelled actions only.
- `ViewBag`, `TempData` and view rendering. Success and error texts are modelled only where the action returns them as JSON or shows them as the form's error.
- EF Core persistence: `SaveChanges`, `Include`, `async`, navigation properties. The configuration of the EF Core `ApplicationDbContext` is not modelled: its primary keys, foreign keys and cascades. So the model does not state that product, order and user ids are unique, and does not cover what happens to cart rows and order items when a product is deleted; `DeleteProduct` keeps `Valid()` in the model only for that reason.
- Concurrent requests: requests run one after another in the model.
- Store.Database.Valid: every action requires it, so the model specifies requests only from states the program can leave by `AddOrder`, by posted checkout `OrderItems` and by the product-delete cascade; what later requests do from such a state is not stated.
- ShopController.Checkout: the posted `Order` may carry `OrderItems` (Models/Order.cs:61), which the program inserts along with the order (Controllers/ShopController.cs:262). The model's `CheckoutForm` has no items, so its `db.orderItems == old(db.orderItems) + PricedItems(...)` and `db.Valid()` hold only when none are posted; with posted items the program stores an order whose items' totals no longer sum to its subtotal.
- ShopController.Checkout: saves in two steps, the order first and then its items with the cart removal. The model makes the whole checkout one step, so a failure between the two saves is not modelled.
- Database-generated keys are the model's counters. Checkout, `Register` and `AddProduct` store the new row under the next key of its table, even when the form posts an `Id`; Checkout also ignores any other posted `Order` fields (status, dates, amounts) that the action does not overwrite. The model builds each row only from the fields the action reads or sets.
- ShopController.AddToCart: does not model the 32-bit overflow of `Quantity += quantity`, because quantities are unbounded integers here.
- ShopController.Checkout: `decimal` overflow and the `int` range of price × quantity are not modelled, because money is an unbounded `real`.
- Catalog.Search: a null `query` makes `Contains` throw. The model treats a missing query as the empty string, which matches every product.
- Catalog.Category: a null `category` matches nothing in the source. In the model it is the empty string, which matches products with an empty category.
- Text.Lower: case folding covers ASCII letters only, not the full ordinal-ignore-case table.
- `ModelState` validation (required fields, lengths, ranges): it is the `modelValid` flag, and the attribute rules behind it are not modelled.
- AdminQueries.SortByDateDesc: the program's sorts run in SQLite as `ORDER BY OrderDate DESC`, which leaves orders of the same `OrderDate` in no defined order. The model keeps them in table order; that order, and so which of several tied orders the dashboard's ten recent orders include, is the model's choice and not the program's.
- Pricing.PricedItemsFollowLines: checkout reads the user's cart rows with no `OrderBy` (Controllers/ShopController.cs:211), so SQLite returns them in no defined order. The model takes them in table order; which order item gets which key, and the order in which items are stored, is the model's choice and not the program's.
- AdminController.AddOrder: the program also inserts the `OrderItems` posted with the order (Controllers/AdminController.cs:418); the model takes no items and leaves `orderItems` unchanged, so posted items that unbalance the order are not modelled.
- AdminController.AddOrder: a posted key that already exists makes the database refuse the insert; the model appends the order anyway. The model does not state what an exception does to the request.
- AdminController.EditIsIdempotent and AdminController.StatusUpdateIsIdempotent: properties of this model for one `now`; the program promises neither.
