# Bumba Fresh order, payment and client logic in Dafny

This project is a Dafny model of the core of Bumba Fresh, a meal-kit
delivery service. It covers four parts.

- **The order-with-payment saga of the Java backend.**
  - `PaymentService` validates a card and simulates a charge.
  - `OrderService` stores orders and their lines, and allocates order ids as "largest id plus one".
  - `OrderController` runs the saga. It allocates an id and writes a `pending` order. It attaches the items and charges the payment. Then it either finalises the order as `confirmed` (cash) or `paid` (card), or cancels it.
  - The model makes two hazards of the code visible. The id allocator answers `1` when the database fails. The result of the finalising status write is ignored.
- **The JavaScript data layer.**
  - The managers for orders, order lines, inventory, favourites, plans, deliveries, profiles, accounts and logins.
  - Each is a state transition over its tables that returns a result code.
  - The favourites controller, with its HTTP status mapping and pagination arithmetic.
  - The admin routes, with the admin check and the status filter and mapping.
- **The cart logic of the React client.**
  - The cart reducer and the two cart providers.
- **The pure helpers of the React client.**
  - Meal filtering and pagination.
  - The page-number windows of the two paginators.
  - Order-history mapping.
  - The `BUMBA-` order-id format and its parsing.
  - The order timelines and status badges.
  - Meal selection with per-week caps.
  - Password-strength scoring and form-field validation.
  - The route guard and the sign-in state.
  - The dietitian chat's reply classifier and search.
  - The dummy-meal generator with its price tiers.
  - The checkout step displays.

## Modelling conventions

- **Tables and errors.**
  - Every database table is a sequence of rows in insertion order.
  - A fault of the database (an `SQLException`, a failed query) is an explicit `up: bool` parameter or a record of such flags.
  - Operations answer with an `Option` or an outcome datatype carrying the code the source returns.
- **Money.** Amounts are integer cents.
- **Sorting.** SQL `ORDER BY` is modelled by a stable insertion sort. Contracts promise only the column order and that the rows are a permutation of the selected rows.
- **Outside inputs.** Clocks, random draws, bcrypt's comparison and `encodeURIComponent` are parameters of the functions that use them.
- **Strings.**
  - Strings are sequences of characters.
  - `toLowerCase` is ASCII case folding.
  - JavaScript's `trim` strips the ASCII and Unicode white space JavaScript defines.
  - `parseInt` follows JavaScript's rules for leading white space, sign and `0x` prefix (module `JsParse`).
  - Java's `Integer.parseInt` accepts ASCII digits within the 32-bit range.
- **Layout.** One module per source file. The shared modules are:
  - `Wrappers`: `Option`;
  - `Strings`: character and string helpers;
  - `Seqs`: filter, map, sum, count and windows over sequences, with their lemmas;
  - `Sorting`;
  - `Tables`: keyed rows;
  - `JsParse`.

## Model

| member | source | states |
|---|---|---|
| PaymentService.StripSpaces | backend/src/PaymentService.java:59 | the stripped number holds no Java white space, and a number without white space is left as it is |
| PaymentService.ExpiryMatchesIff | backend/src/PaymentService.java:72 | the expiry pattern accepts exactly the strings `MM/YY` with a month from 1 to 12 and any two-digit year |
| PaymentService.ValidateCard | backend/src/PaymentService.java:57-82 | a card is valid exactly when the stripped number is 13 to 19 digits starting with 4 or 5, the expiry matches `MM/YY` and the CVV is three digits; a missing number raises |
| PaymentService.CardSpacesIgnored | backend/src/PaymentService.java:59 | inserting a white-space character anywhere in the card number never changes the verdict |
| PaymentService.ExpirySpaceRejected | backend/src/PaymentService.java:72 | a space in front of the expiry date makes the card invalid, since the expiry is not stripped |
| PaymentService.AnyCheckDigitAccepted | backend/src/PaymentService.java:57-82 | every final digit of a well-formed VISA or Mastercard number is accepted, and so is the expiry `01/00`: no checksum and no date comparison |
| PaymentService.GeneratePaymentId | backend/src/PaymentService.java:103-105 | a payment id starts with `PAY_` |
| PaymentService.PaymentIdInjective | backend/src/PaymentService.java:103-105 | two equal payment ids come from the same millisecond and the same random text |
| PaymentService.StorePaymentRecord | backend/src/PaymentService.java:107-127 | the record is appended exactly when the database answers |
| PaymentService.ProcessPayment | backend/src/PaymentService.java:6-55 | success holds exactly for cash, or for a valid approved card, with a working store; a success stores one record with the new id, order, method, amount and status (`pending` for cash, `completed` for card); a failure stores nothing, returns no id, and carries the message of the failing branch |
| PaymentService.DeclinedStoresNothing | backend/src/PaymentService.java:84-91 | a valid card whose stripped number ends in `0000` is declined and nothing is stored |
| PaymentService.GetPaymentByOrderId | backend/src/PaymentService.java:129-154 | the answer is the first record of the order, and `null` exactly when the query fails or the order has no record |
| OrderService.GenerateOrderId | backend/src/OrderService.java:7-21 | the id always fits an `integer`; with the database up and every id below 2147483647 it is one more than the largest id (1 for an empty table), so no order has it; once an id reaches 2147483647 the sum overflows and the id is 1, as it is with the database down |
| OrderService.CreateOrder | backend/src/OrderService.java:23-38 | the order row is appended exactly when the database answers and the id is not yet used |
| OrderService.CreateOrderKeepsIdsUnique | backend/src/OrderService.java:23-38 | a successful insert keeps order ids unique |
| OrderService.AddOrderItem | backend/src/OrderService.java:40-54 | the line is appended exactly when the database answers |
| OrderService.OrderItems | backend/src/OrderService.java:123-152 | the items are the order's lines whose meal is in the inventory, each with that meal's name and price; every such line appears, one item per joined line |
| OrderService.LineItemsCount | backend/src/OrderService.java:123-152 | the join yields one item for each line of the order whose meal is in the inventory |
| OrderService.UserOrderRows | backend/src/OrderService.java:58-66 | the listing is a permutation of the user's orders, sorted by descending order id |
| OrderService.UserOrderRowsContent | backend/src/OrderService.java:63 | the listing has exactly as many rows as the user has orders, all of them the user's |
| OrderService.GetUserOrders | backend/src/OrderService.java:56-91 | the user's orders, newest id first, each with its items and its line count; empty when the database fails |
| OrderService.UserOrdersComplete | backend/src/OrderService.java:56-91 | every order of the user appears in the listing |
| OrderService.GetOrderById | backend/src/OrderService.java:93-121 | an answer exists exactly when the database answers and the order exists; it is that order with its items, and the item count is the number of items |
| OrderService.UpdateOrderStatus | backend/src/OrderService.java:154-169 | the answer is true exactly when the database answers and the order exists; only that order's status changes |
| OrderService.UpdateThenRead | backend/src/OrderService.java:154-169 | after a successful update the order reads back with the new status |
| OrderController.AddItems | backend/src/OrderController.java:180-182 | the lines are inserted in request order until one insert fails; the lines before it stay written, and the answer is whether all were written |
| OrderController.PaidStatus | backend/src/OrderController.java:193-194 | a paid order becomes `confirmed` exactly for cash and `paid` otherwise |
| OrderController.CreateOrderWithPayment | backend/src/OrderController.java:159-219 | the answer is 201, 401, 402 or 500; 401 exactly without a session, and then nothing changes; with a session, 201 exactly when the order and all its lines are written and the payment is accepted, 402 exactly when they are written and the payment is refused, 500 exactly when a write fails; success exactly with 201 |
| OrderController.SagaSuccess | backend/src/OrderController.java:170-204 | when the order and its lines are written and the payment is accepted, the answer is 201 with the new order id and a `PAY_` payment id; it stores the allocated order for the user with the caller's total and every line, and exactly one payment record with the returned id, order and amount; the order ends `confirmed` or `paid` when the final update works and stays `pending` otherwise |
| OrderController.SagaPaymentRefused | backend/src/OrderController.java:170-211 | when the order and its lines are written and the payment is refused, the answer is 402 and unsuccessful; it stores no payment, carries the payment service's message, and leaves the order with its lines, marked `cancelled` when the update works and `pending` otherwise |
| OrderController.PendingOrderFinalized | backend/src/OrderController.java:170-211 | once the pending order and all its lines are written, the final status update keeps the earlier orders and every line, and gives the new order the final status only when it reaches the database |
| OrderController.FinalizeResultIgnored | backend/src/OrderController.java:195 | the answer is the same whether or not the final status update reaches the database |
| OrderController.ItemFailureLeavesPendingOrder | backend/src/OrderController.java:180-182 | a failed line insert answers 500 and leaves the pending order and the earlier lines in place, with no payment attempted |
| OrderController.AllocatorFaultCollides | backend/src/OrderService.java:17-20 | when the id query fails and order 1 exists, the insert collides and nothing is written |
| OrderController.AllocatorFaultReusesOne | backend/src/OrderService.java:17-20 | when the id query fails and order 1 is free, the new order takes id 1 even when larger ids exist |
| OrderController.AllocatorUpIsFresh | backend/src/OrderService.java:7-21 | with the id query answering, the new id exceeds every existing id while all are below 2147483647; once one reaches it, the new id is 1 |
| OrderController.AllocatorOverflowCollides | backend/src/OrderService.java:7-21 | with an order numbered 2147483647 and an order 1, the overflowing allocation collides with order 1: the saga answers 500 and writes nothing |
| OrderController.CreateOrder | backend/src/OrderController.java:53-88 | `POST /create`: 401 without a session, otherwise 201 or 500; with a session, 201 exactly when the order and every line are written; a 201 stores the pending order and every requested line |
| OrderController.UpdateStatus | backend/src/OrderController.java:136-157 | 200 exactly when the database answers and the order exists, and the order then reads back with the new status; 404 otherwise, with the orders unchanged; 500 for an unreadable body; the store is the service's update, so the lines and every other order stay as they were |
| OrderController.JavaParseIntRoundTrip | backend/src/OrderController.java:114 | every 32-bit `int` survives printing and `Integer.parseInt` |
| OrderController.JavaParseIntIgnoresPlus | backend/src/OrderController.java:114 | a `+` sign does not change the id read |
| OrderController.JavaParseIntIgnoresZeros | backend/src/OrderController.java:114 | leading zeros do not change the id read |
| OrderController.JavaParseIntNegativeZero | backend/src/OrderController.java:114 | `-` before a string of zeros reads as 0 |
| OrderController.JavaParseInt | backend/src/OrderController.java:114 | an accepted id is an optional sign followed by digits, read as its signed decimal value within the `int` range; every such text whose value is in range is accepted |
| OrderController.GetOrder | backend/src/OrderController.java:111-134 | 400 exactly for an id `Integer.parseInt` rejects; the order when it exists; 404 otherwise; a found order is the one the service's lookup by id returns |
| OrderController.GetUserOrders | backend/src/OrderController.java:90-109 | 401 exactly without a session; otherwise only the session user's orders, exactly the list the service returns for that user |
| OrderController.RoutePost | backend/src/OrderController.java:221-239 | the second `doPost` routes `/create`, `/create-with-payment` and `/update-status` each exactly on its own path; any other path is 404 |
| OrderController.RouteGet | backend/src/OrderController.java:33-51 | `/user` lists the user's orders; any other path starting with `/` is an order id, the rest of the path |
| OrderManager.AddOrder | database/src/orderManager.js:18-40 | an accepted insert appends one row under the next serial id, with the caller's user, total, address and plan; an omitted status is `pending` and an omitted type `individual`; a rejected insert changes nothing |
| OrderManager.AddOrderKeepsSerial | database/src/orderManager.js:18-26 | inserting through the sequence keeps ids distinct and below the next serial value |
| OrderManager.GetOrderById | database/src/orderManager.js:47-64 | the answer is the order joined with its owner's account; `null` exactly on a database error or when no order of that id has an account |
| OrderManager.GetOrdersByUserId | database/src/orderManager.js:72-96 | the user's orders passing the status filter, and only those, newest `order_date` first; `[]` on a database error |
| OrderManager.OrdersByUserExact | database/src/orderManager.js:72-88 | a row is listed exactly when it belongs to the user and passes the filter |
| OrderManager.EmptyStatusIgnored | database/src/orderManager.js:82-85 | an empty status is falsy and filters nothing |
| OrderManager.UpdateOrderStatus | database/src/orderManager.js:104-134 | succeeds exactly when the database answers and the order exists; then only that row's status and `updated_at` change; otherwise `Order not found` or a failure, with nothing changed |
| OrderManager.UpdateKeepsSerial | database/src/orderManager.js:104-109 | a status update keeps the serial key sound |
| OrderManager.UpdateThenListed | database/src/orderManager.js:72-134 | after an update, the owner's listing filtered by the new status shows the updated row |
| OrderManager.GetLatestOrderId | database/src/orderManager.js:141-157 | `null` exactly on a database error or when the user has no order |
| OrderManager.LatestIsNewest | database/src/orderManager.js:141-152 | the latest id belongs to an order of the user that no other order of the user postdates |
| OrderManager.HeadIsNewest | database/src/orderManager.js:72-96 | the head of the user's listing postdates every order of the user |
| OrderManager.GetTotalRevenue | database/src/orderManager.js:223-252 | the revenue is the sum over all orders of `total_price` for each delivered order dated within the bounds given, and 0 for every other order; 0 on a database error |
| OrderManager.BoundedRevenueAtMostTotal | database/src/orderManager.js:223-252 | with prices non-negative, the revenue between any dates is at most the revenue with no dates |
| OrderManager.OutsideBoundsNeverCounts | database/src/orderManager.js:233-243 | a delivered order dated before the start date or after the end date adds nothing to the revenue |
| OrderManager.RevenueAfterAddOrder | database/src/orderManager.js:18-228 | for any start and end date, adding an order raises the revenue by its price exactly when it is added as delivered and its date lies within the bounds given |
| OrderManager.RevenueAfterDelivered | database/src/orderManager.js:223-252 | with order ids distinct, marking an undelivered order `delivered` raises the revenue over any date bounds by its price when its order date lies within them, and leaves it unchanged otherwise |
| MealOrderManager.AddMealToOrder | database/src/mealOrderManager.js:16-38 | one line is appended exactly when the database answers and accepts it; otherwise nothing changes |
| MealOrderManager.AddMealsToOrder | database/src/mealOrderManager.js:46-66 | the transaction appends one line per requested meal, in request order, exactly when every insert is accepted; otherwise it rolls back and the table is unchanged; the payload is the number of meals |
| MealOrderManager.GetMealsByOrderId | database/src/mealOrderManager.js:72-89 | a permutation of the order's lines joined with their meals, ordered by meal name; `[]` on a database error |
| MealOrderManager.MealsByOrderExact | database/src/mealOrderManager.js:73-78 | a line and meal are listed together exactly when the line belongs to the order and the meal is its inventory row |
| MealOrderManager.UpdateMealQuantity | database/src/mealOrderManager.js:125-155 | succeeds exactly when the database answers and the line exists; only that line's quantity changes; otherwise `Order meal not found` or a failure |
| MealOrderManager.RemoveMealFromOrder | database/src/mealOrderManager.js:163-192 | succeeds exactly when the database answers and the line exists, and then removes just that line; otherwise nothing changes |
| MealOrderManager.OrderContainsMeal | database/src/mealOrderManager.js:278-291 | true exactly when the database answers and the line exists |
| MealOrderManager.RemoveThenAbsent | database/src/mealOrderManager.js:163-286 | after a remove the line is gone, and every other line is kept |
| MealOrderManager.ContainsIffUpdateFinds | database/src/mealOrderManager.js:125-286 | the containment check and the quantity update agree on which lines exist |
| MealOrderManager.GetOrderMealTotal | database/src/mealOrderManager.js:198-212 | the total equals the sum over all lines of each line's `quantity * unit_price` when it belongs to the order and 0 otherwise; 0 when the order has no lines and on a database error |
| MealOrderManager.TotalAfterAddMeals | database/src/mealOrderManager.js:46-207 | a successful batch add raises the order's total by exactly the value of the added lines |
| MealOrderManager.OtherTotalsUnchanged | database/src/mealOrderManager.js:46-207 | adding lines to one order leaves every other order's total alone |
| InventoryManager.UpdateActiveMeal | database/src/inventoryManager.js:53-121 | the update behind `updateMealQuantity` and `updateMealPrice`: succeeds exactly when the database answers and the meal is present and active; only that meal's stock or price changes, to the value given; otherwise `Meal not found or inactive` or a failure, with nothing changed |
| InventoryManager.DecreaseMealQuantity | database/src/inventoryManager.js:226-256 | succeeds exactly when the meal is active with at least the requested stock, and then takes exactly that amount from it; a refusal or failure changes nothing, and stock never goes negative |
| InventoryManager.IsMealAvailable | database/src/inventoryManager.js:199-218 | true only for an active meal holding at least the amount; false for a missing meal and on a database error |
| InventoryManager.AvailableIffDecreaseSucceeds | database/src/inventoryManager.js:199-246 | with `meal_id` a key, the availability check answers true exactly when the decrease would succeed |
| InventoryManager.GetAllMeals | database/src/inventoryManager.js:151-191 | a permutation of the active meals passing the truthy filters, by name ascending; `[]` on a database error |
| InventoryManager.AllMealsExact | database/src/inventoryManager.js:151-182 | a meal is listed exactly when it is an active row passing the filters |
| InventoryManager.ZeroPriceBoundIgnored | database/src/inventoryManager.js:170-180 | a price bound of 0 is falsy and gives the same listing as no bound |
| InventoryManager.GetLowStockMeals | database/src/inventoryManager.js:263-277 | a permutation of the active meals at or under the threshold (10 by default), by stock ascending; `[]` on a database error |
| InventoryManager.LowStockMembers | database/src/inventoryManager.js:263-268 | every listed meal is an active row at or under the threshold |
| FavoriteManager.AddFavorite | database/src/favoriteManager.js:14-58 | succeeds exactly when the meal id fits an `integer`, the meal exists, the pair is new and the user exists, appending one row; `MEAL_NOT_FOUND` exactly for a missing meal, `ALREADY_FAVORITED` exactly for an existing pair; a database error or an id out of the `integer` range fails; every failure changes nothing |
| FavoriteManager.AddKeepsUniquePairs | database/src/favoriteManager.js:14-51 | adding keeps the unique key on (user, meal) |
| FavoriteManager.RemoveFavorite | database/src/favoriteManager.js:66-96 | succeeds exactly when the meal id fits an `integer` and the pair exists, and then deletes just that pair; `FAVORITE_NOT_FOUND` exactly when it is absent, with nothing changed |
| FavoriteManager.CheckFavorite | database/src/favoriteManager.js:189-222 | success exactly when the database answers and the meal id fits an `integer`; `is_favorite` exactly when, in addition, the pair exists, so an unknown user gets success with false |
| FavoriteManager.AddRemoveCheck | database/src/favoriteManager.js:14-212 | after an add the check reports the pair; after add then remove it does not |
| FavoriteManager.GetUserFavoritesCount | database/src/favoriteManager.js:379-389 | the number of the user's favourites; 0 exactly on a database error or when the user has none |
| FavoriteManager.AddRaisesCount | database/src/favoriteManager.js:14-389 | a successful add raises the user's count by one |
| FavoriteManager.RemoveAllUserFavorites | database/src/favoriteManager.js:351-372 | deletes exactly the user's favourites and reports how many there were |
| FavoriteManager.RemoveAllIsolated | database/src/favoriteManager.js:351-364 | afterwards the user has no favourites, and every other user's favourites are as before |
| FavoriteManager.SortPlan | database/src/favoriteManager.js:105-159 | a sort or order outside the whitelist falls back to most recently favourited first; with an accepted order, `meal_name`, `price`, `created_at` and `favorited_at` select the meal's name, its price, its creation time and the favourite's time; `asc` gives ascending and `desc` descending, ignoring case; the defaults are the meal's creation time, descending |
| FavoriteManager.Ranked | database/src/favoriteManager.js:104-159 | the listing before paging is sorted by the chosen column and holds only the user's favourites joined with meals passing search and category |
| FavoriteManager.RankedComplete | database/src/favoriteManager.js:120-146 | every matching favourite of the user is listed |
| FavoriteManager.PageOf | database/src/favoriteManager.js:161-172 | a falsy limit and a falsy offset leave the rows whole; a positive offset alone drops that many rows; a positive limit alone keeps that many; a negative one fails the query and yields `[]`; a page holds at most `limit` rows, all of them listed rows |
| FavoriteManager.GetUserFavorites | database/src/favoriteManager.js:104-181 | one page of the ranked favourites, at most `limit` long; `[]` on a database error or a negative paging value |
| FavoriteManager.UnpagedListingExact | database/src/favoriteManager.js:104-146 | without paging, a pair is listed exactly when it is the user's favourite joined with its meal and passes the search and category options |
| FavoriteManager.PageIsWindow | database/src/favoriteManager.js:161-172 | with a positive limit and non-negative offset, a page is the window of the ranked rows at that offset |
| FavoriteManager.PagesTile | database/src/favoriteManager.js:161-172 | two consecutive pages of size `l` form the page of size `2l`, so paging neither skips nor repeats a row |
| PlanManager.CancelPlan | database/src/planManager.js:218-248 | succeeds exactly when the database answers and the plan is active, and then deactivates only that plan; otherwise `Plan not found or already cancelled` or a failure, with nothing changed |
| PlanManager.CancelTwiceRefused | database/src/planManager.js:218-234 | after a cancel no row of the plan is active, so a second cancel is refused |
| PlanManager.ReactivatePlan | database/src/planManager.js:256-286 | succeeds exactly when the plan exists, active or not, and then makes it active with the new expiry; otherwise `Plan not found` or a failure |
| PlanManager.CancelReactivateCancel | database/src/planManager.js:218-286 | a cancelled plan can be reactivated, and can then be cancelled again |
| PlanManager.Whitelisted | database/src/planManager.js:154-170 | the applied fields are exactly the whitelisted keys of the update object, with their values |
| PlanManager.ApplyFields | database/src/planManager.js:164-187 | the updated plan takes each whitelisted field that is present and keeps every other column; `updated_at` becomes the clock |
| PlanManager.UpdatePlan | database/src/planManager.js:153-211 | with no whitelisted field, `No valid fields to update` before any query; otherwise success exactly when the plan exists, `Plan not found` when it does not, and a failure on a database error or a value the column rejects; a text column takes any value as its text; other plans never change |
| PlanManager.ParamText | database/src/planManager.js:164-170 | a parameter reaches the database as its text: a string as it is, a number as text that reads back as the number, a boolean as `true` or `false` |
| PlanManager.NumberStoredAsText | database/src/planManager.js:153-211 | a number given for the plan name is accepted on an existing plan and stored as text that reads back as the number |
| PlanManager.UpdateIgnoresOtherKeys | database/src/planManager.js:164-170 | keys outside the whitelist make no difference to the update |
| PlanManager.UpdateCanReactivate | database/src/planManager.js:154-185 | an update setting `is_active` to true makes an existing plan active again |
| PlanManager.GetUserPlans | database/src/planManager.js:50-66 | a permutation of the user's active plans, newest first; `[]` on a database error |
| PlanManager.UserPlansExact | database/src/planManager.js:50-57 | a plan is listed exactly when it is an active plan of the user |
| PlanManager.GetExpiredPlans | database/src/planManager.js:292-309 | a permutation of the active plans expired before today, each with its owner, earliest expiry first; `[]` on a database error |
| PlanManager.ExpiredPlansExact | database/src/planManager.js:292-300 | a plan and account are listed exactly when the plan is active, expired before today, and the account owns it |
| PlanManager.CancelledNotExpired | database/src/planManager.js:218-300 | a cancelled plan is never reported as expired |
| DeliveryManager.CreateDeliveryRecord | database/src/deliveryManager.js:21-71 | an accepted insert appends one row under the next serial id for the order, with an omitted status `pending` and an omitted time `NULL`; a rejected one changes nothing |
| DeliveryManager.GetDeliveryByOrderId | database/src/deliveryManager.js:78-116 | a delivery of the order exactly when one exists; a missing record is a refusal object, never `null`, and a database error is a failure |
| DeliveryManager.WithStatus | database/src/deliveryManager.js:126-137 | the new status is set; the estimated time is replaced only when one is given; nothing else changes |
| DeliveryManager.UpdateDeliveryStatus | database/src/deliveryManager.js:125-163 | succeeds exactly when the order has a delivery, and then updates only that order's deliveries; `Delivery record not found` otherwise, with nothing changed |
| DeliveryManager.UpdateThenGet | database/src/deliveryManager.js:78-163 | after an update the lookup reports the new status, and the new time when one was given |
| DeliveryManager.CreateThenGet | database/src/deliveryManager.js:21-116 | for an order without a delivery, the lookup finds the new record, with status `pending` when none was given |
| DeliveryManager.GetAllDeliveries | database/src/deliveryManager.js:170-195 | a permutation of the deliveries passing the truthy status filter, joined with their orders and accounts, newest order first; `[]` on a database error |
| DeliveryManager.AllDeliveriesSound | database/src/deliveryManager.js:170-186 | every listed row is a delivery passing the filter, with its order and that order's account |
| DeliveryManager.AllDeliveriesComplete | database/src/deliveryManager.js:170-186 | every delivery passing the filter whose order and account exist is listed with them |
| ProfileManager.UsableKeys | database/src/profileManager.js:39-51 | the update writes exactly the whitelisted keys whose value is not `undefined` |
| ProfileManager.FieldChange | database/src/profileManager.js:45-50 | a column is kept when its key is unusable, cleared by an explicit `null`, and otherwise set to the given text |
| ProfileManager.ApplyProfile | database/src/profileManager.js:60-73 | an updated account has the changed columns and the new update time, and keeps its id, username, email, password hash and role |
| ProfileManager.GetUserProfileById | database/src/profileManager.js:14-29 | the public columns of the account exactly when the database answers and the account exists; `null` otherwise |
| ProfileManager.UpdateUserProfile | database/src/profileManager.js:37-97 | with no usable key, `No valid fields provided for update` before any query; otherwise success exactly when the user exists, `User not found` when not, and a failure on a database error; only that user's account changes |
| ProfileManager.SaveProfile | database/src/profileManager.js:69-89 | the `UPDATE … RETURNING` changes only the user's account, and answers `User not found` when there is none |
| ProfileManager.UnknownKeysIgnored | database/src/profileManager.js:45-46 | a key outside the whitelist changes nothing about an update |
| ProfileManager.UndefinedIsOmitted | database/src/profileManager.js:46 | an `undefined` value is the same as leaving the key out |
| ProfileManager.ProfileKeepsCredentials | database/src/profileManager.js:39-73 | a profile update never changes any account's username, email, password hash or role |
| ProfileManager.IsEmailAvailable | database/src/profileManager.js:105-119 | true exactly when the database answers and no other account has the email |
| ProfileManager.OwnEmailAvailable | database/src/profileManager.js:109 | a user's own email is available to them unless someone else shares it |
| ProfileManager.StoredHash | database/src/profileManager.js:131-139 | the stored hash exists exactly when the account does, and is that account's hash |
| ProfileManager.UpdatePassword | database/src/profileManager.js:128-174 | `User not found` exactly for a missing user; `Current password is incorrect` exactly when the comparison says no; success exactly when it says yes, and then only that account's hash becomes the new hash; a database error or a throwing comparison fails; a refusal changes nothing |
| ProfileManager.PasswordChangeTakes | database/src/profileManager.js:150-161 | after a change the account stores the new hash, so the new password passes the next change |
| AccountCreator.IsUsernameUnique | database/src/accountCreator.js:91-101 | true exactly when the database answers and no account has the username |
| AccountCreator.IsEmailUnique | database/src/accountCreator.js:108-118 | true exactly when the database answers and no account has the email |
| AccountCreator.CreateAccount | database/src/accountCreator.js:20-55 | `Username already exists` exactly when the username check fails; `Email already exists` exactly when a truthy email is taken; success exactly when both checks pass and the insert is accepted, adding one account under the next id with the hash of the password; every failure inserts nothing |
| AccountCreator.CreateKeepsUnique | database/src/accountCreator.js:22-41 | account creation keeps usernames and truthy emails distinct |
| AccountCreator.StoreErrorRejects | database/src/accountCreator.js:97-100 | a database error always rejects the creation, reported as a taken username |
| LoginManager.GetUserWithPassword | database/src/loginManager.js:59-73 | an account the identifier names as username or email; `null` exactly on a database error or when none does |
| LoginManager.VerifyPassword | database/src/loginManager.js:81-88 | true exactly when the comparison answers yes; false when it throws |
| LoginManager.LoginAccount | database/src/loginManager.js:15-52 | success exactly when the first account the identifier names accepts the password, returning that account's public columns; every other outcome is `Invalid username or password` |
| LoginManager.UserExists | database/src/loginManager.js:95-109 | true exactly when the database answers and some account has the identifier as username or email |
| LoginManager.UnknownAndWrongLookAlike | database/src/loginManager.js:20-35 | an unknown identifier and a wrong password give the same answer |
| LoginManager.LoginImpliesExists | database/src/loginManager.js:15-109 | a successful login names an existing user |
| LoginManager.LoginHidesHash | database/src/loginManager.js:37-44 | the login answer does not depend on the stored hash, which never reaches the caller |
| AdminRoutes.AdminMiddleware | backend/src/routes/admin.js:8-16 | a request without a user or whose role is not `admin` is refused with 403 and never reaches the handler; an admin gets the handler's answer |
| AdminRoutes.FrontendStatus | backend/src/routes/admin.js:160-178 | the shown status is always one of processing, shipped, delivered, cancelled, and equals the stored status exactly when the stored one is already one of those |
| AdminRoutes.FrontendStatusTable | backend/src/routes/admin.js:161-177 | confirmed, pending, preparing and any unknown status show as processing; shipped, delivered, cancelled are kept; the mapping is idempotent |
| AdminRoutes.FilterOrders | backend/src/routes/admin.js:152-155 | with no status, an empty one or `all` every order is kept; otherwise exactly the orders whose stored status equals the query |
| AdminRoutes.ViewOf | backend/src/routes/admin.js:180-188 | each row copies id, customer, e-mail and item count, formats the total as dollars with two decimals, and carries the mapped status |
| AdminRoutes.AdminOrders | backend/src/routes/admin.js:144-200 | 403 exactly for non-admins; an admin is always answered, with one row per filtered order in order, each with a shown status; a database fault in the order source gives an empty listing, since `getOrders` answers `[]` then |
| AdminRoutes.UnfilteredListsAll | backend/src/routes/admin.js:153-155 | without a filter an admin sees every order, in order |
| AdminRoutes.DisplayedStatusFilterMatchesNothing | backend/src/routes/admin.js:153-165 | filtering by a status no stored order has, such as the shown-only `processing`, lists nothing |
| AdminRoutes.ListedStatusTracesBack | backend/src/routes/admin.js:152-188 | every listed row comes from a stored order with that id, whose stored status is the shown one unless the row says processing |
| AdminRoutes.DeniedIgnoresOrders | backend/src/routes/admin.js:8-16 | a refused request is answered 403 whatever the orders are |
| FavoritesController.IntTextParses | backend/src/controllers/favoritesController.js:243-247 | a text that passes the integer validation is read by `parseInt` as the integer it denotes |
| FavoritesController.RangeNeedsInteger | backend/src/controllers/favoritesController.js:243-259 | a parameter passing `isInt({min})` parses to a number at least `min` |
| FavoritesController.AddStatus | backend/src/controllers/favoritesController.js:74-89 | a successful add answers 201, MEAL_NOT_FOUND 404, ALREADY_FAVORITED 409, any other failure 400 |
| FavoritesController.RemoveStatus | backend/src/controllers/favoritesController.js:121-134 | a successful removal answers 200, FAVORITE_NOT_FOUND 404, any other failure 400 |
| FavoritesController.AddFavoriteHandler | backend/src/controllers/favoritesController.js:57-98 | an invalid meal id is answered 400 with the store untouched; 201 exactly when the meal exists, the user exists and the pair is new, and then the pair is stored; 404 and 409 exactly for a missing meal and an existing pair |
| FavoritesController.RemoveFavoriteHandler | backend/src/controllers/favoritesController.js:104-143 | invalid id 400; 200 exactly when the pair was present, and then it is gone; 404 exactly when it was absent; the store changes only on 200 |
| FavoritesController.CheckFavoriteHandler | backend/src/controllers/favoritesController.js:149-187 | invalid id 400, store failure 500, otherwise 200 with `is_favorite` true exactly when the pair is stored |
| FavoritesController.AddThenCheckFavorite | backend/src/controllers/favoritesController.js:57-187 | after a successful add, checking the same meal answers 200 and favourite |
| FavoritesController.CeilDiv | backend/src/controllers/favoritesController.js:40 | `Math.ceil(a / b)` is the least multiple count covering `a` for a positive divisor and not finite for 0 |
| FavoritesController.NumberParamInRange | backend/src/controllers/favoritesController.js:16-19 | a page or limit parameter that passes its range check, or is omitted with an in-range default, is a number in the range |
| FavoritesController.PageOffset | backend/src/controllers/favoritesController.js:19 | the offset is `(page - 1) * limit`, `NaN` when either is, and 0 on page 1 |
| FavoritesController.ListOptions | backend/src/controllers/favoritesController.js:16-28 | the limit is the `limit` parameter (20 by default) and the offset `(page - 1) * limit`; the search and category are passed on exactly when truthy, and `null` otherwise; the sort and order are passed on when truthy and are `created_at` and `desc` otherwise |
| FavoritesController.ListingHonoursSearchAndCategory | backend/src/controllers/favoritesController.js:16-28 | every meal the listing returns mentions a truthy search text in its name, description, category or dietary note, and has a truthy category, ignoring case |
| FavoritesController.DefaultsAskFirstTwenty | backend/src/controllers/favoritesController.js:16-28 | with neither page nor limit the manager is asked for 20 rows at offset 0 |
| FavoritesController.GetUserFavoritesHandler | backend/src/controllers/favoritesController.js:13-42 | every request is answered with data; the total is the user's whole favourite count; current page and page size are the parsed parameters; the page count is the least that covers the total; every row is one of the user's ranked favourites |
| FavoritesController.HandlerPageIsWindow | backend/src/controllers/favoritesController.js:16-30 | for positive page and limit the data is exactly the window of the ranked favourites starting at `(page - 1) * limit` |
| FavoritesController.PagedOptions | backend/src/controllers/favoritesController.js:19-28 | positive page and limit texts give the options `limit` rows at `(page - 1) * limit` |
| FavoritesController.HandlerData | backend/src/controllers/favoritesController.js:30-35 | the listing's data is the manager's answer to the built options |
| FavoritesController.ZeroPageAnswersEmpty | backend/src/controllers/favoritesController.js:13-42 | `page=0` passes unvalidated and is answered with an empty page, whatever the user's favourites |
| FavoritesController.ZeroPageOptions | backend/src/controllers/favoritesController.js:19 | `page=0` with the default limit asks for offset -20 |
| FavoritesController.OversizedLimitApplied | backend/src/controllers/favoritesController.js:26-269 | a limit above the declared maximum of 100 is used as given for both the page size and the rows fetched |
| FavoritesController.GetUserFavoritesValidated | backend/src/controllers/favoritesController.js:60-278 | refused exactly when a parameter breaks the declared rules; otherwise the offset is non-negative, the limit in 1..100 and the data the real window of ranked favourites |
| FavoritesController.ValidatedRefusesZeroPage | backend/src/controllers/favoritesController.js:262-265 | with the declared rules applied, `page=0` is refused |
| FavoritesController.ValidatedSortHonoured | backend/src/controllers/favoritesController.js:270-277 | a validated request asking for ascending order is sorted ascending |
| FavoritesController.PopularOptions | backend/src/controllers/favoritesController.js:217-285 | the limit defaults to 10 and lies in 1..50 whenever the declared rule holds; the category is passed on exactly when truthy |
| CartReducer.AddItemTo | src/components/cart/CartContext.tsx:54-70 | a meal already in the cart gains one portion on every line with its id and nothing else changes; a new meal is appended as given |
| CartReducer.RemoveItemFrom | src/components/cart/CartContext.tsx:71-75 | the kept lines are exactly the lines that are not meals with the id |
| CartReducer.SetQuantity | src/components/cart/CartContext.tsx:76-83 | the meal lines with the id take the new quantity, unbounded, and every other line is kept in place |
| CartReducer.AddSubscriptionTo | src/components/cart/CartContext.tsx:84-97 | the first subscription to the same plan is replaced in place; without one, the subscription is appended |
| CartReducer.RemoveSubscriptionFrom | src/components/cart/CartContext.tsx:98-102 | the kept lines are exactly the lines that are not subscriptions to the plan |
| CartReducer.Reduce | src/components/cart/CartContext.tsx:52-111 | each action changes only the items, as its operation says; `total` never changes; clear empties the cart; an unknown action returns the state |
| CartReducer.AddItemKeepsUnique | src/components/cart/CartContext.tsx:54-70 | adding a meal keeps meal ids distinct and leaves the subscriptions as they were |
| CartReducer.AddSubscriptionKeepsUnique | src/components/cart/CartContext.tsx:84-97 | adding a subscription keeps plan names distinct and the new subscription is in the cart |
| CartReducer.RemoveSubscriptionOnlyThatPlan | src/components/cart/CartContext.tsx:98-102 | after removal no subscription to the plan is left and the meal lines are exactly as before |
| CartReducer.AddThenRemove | src/components/cart/CartContext.tsx:54-75 | removing a meal's id after adding it gives the cart that removing the id alone gives |
| CartProvider.CartCount | src/context/CartProvider.tsx:15-18 | the count of meal quantities plus one per subscription is never negative when no line is |
| CartProvider.AddToCart | src/context/CartProvider.tsx:21-36 | a meal already in the cart gains one portion; a new meal is appended with quantity 1 |
| CartProvider.AddSubscriptionItem | src/context/CartProvider.tsx:37-45 | the result is the cart's meals, in order, followed by the new subscription |
| CartProvider.RemoveFromCart | src/context/CartProvider.tsx:46-48 | a number removes exactly the meals with that id, a string exactly the subscriptions with that plan name |
| CartProvider.ClearCart | src/context/CartProvider.tsx:49-51 | the cart is empty and counts 0 |
| CartProvider.IncrementQuantity | src/context/CartProvider.tsx:52-57 | every meal with the id gains a portion and quantities stay positive |
| CartProvider.DecrementQuantity | src/context/CartProvider.tsx:58-72 | an absent id changes nothing; at quantity 1 the meal is removed; otherwise it loses one portion |
| CartProvider.UpdateSubscriptionPlan | src/context/CartProvider.tsx:73-78 | the subscriptions to the plan take the patch's fields; every other line is kept in place |
| CartProvider.QuantitiesStayPositive | src/context/CartProvider.tsx:21-72 | add, increment and decrement keep every meal quantity at least 1 |
| CartProvider.AddRaisesCountByOne | src/context/CartProvider.tsx:15-36 | adding a meal raises the count by exactly one |
| CartProvider.AddKeepsMealIdsUnique | src/context/CartProvider.tsx:21-36 | adding a meal keeps meal ids distinct |
| CartProvider.IncrementRaisesCount | src/context/CartProvider.tsx:15-57 | incrementing a meal in the cart raises the count by exactly one |
| CartProvider.IncrementThenDecrement | src/context/CartProvider.tsx:52-72 | decrementing undoes incrementing |
| CartProvider.OneSubscription | src/context/CartProvider.tsx:37-45 | after adding a subscription it is the only one in the cart |
| CartProvider.RemoveKeysDoNotCross | src/context/CartProvider.tsx:46-48 | removing by number never drops a subscription, and removing by string never drops a meal |
| CartProvider.UpdatePlanKeepsMealsAndCount | src/context/CartProvider.tsx:15-18 | a plan update changes neither the meals nor the count |
| SimpleCart.CartCount | src/context/CartContext.tsx:45 | the count of quantities is never negative when no quantity is |
| SimpleCart.AddToCart | src/context/CartContext.tsx:27-41 | a present id gains one portion on its lines; a new id is appended with quantity 1; no other id appears |
| SimpleCart.RemoveFromCart | src/context/CartContext.tsx:42-44 | the kept lines are exactly those with another id |
| SimpleCart.AddKeepsUniqueAndCounts | src/context/CartContext.tsx:27-45 | adding keeps ids distinct and raises the count by exactly one |
| SimpleCart.RemoveAfterAdd | src/context/CartContext.tsx:27-44 | removing an id after adding it gives the cart that removing it alone gives |
| SimpleCart.RemoveLowersCount | src/context/CartContext.tsx:42-45 | removing a line lowers the count by exactly its quantity |
| MealFilter.FilteredMeals | src/hooks/useMealFilter.ts:25-42 | exactly the catalogue meals passing the quick filter, every selected tag and the case-insensitive search, each at most as often as in the catalogue |
| MealFilter.FilteredMealsInOrder | src/hooks/useMealFilter.ts:25-42 | the result keeps catalogue order: the filter of two catalogue parts is the first part's result followed by the second's, and a single meal is kept exactly when it passes |
| MealFilter.NoFiltersListsAll | src/hooks/useMealFilter.ts:37-42 | with no search text, the quick filter `all` and no selected tag, every meal is listed in order |
| MealFilter.DetailedFiltersExact | src/hooks/useMealFilter.ts:28-30 | a meal passes the detailed filters exactly when it carries every selected tag |
| MealFilter.PageCount | src/hooks/useMealFilter.ts:45 | the page count is the least number of pages covering the list |
| MealFilter.Page | src/hooks/useMealFilter.ts:46-47 | page `p` is the slice from `(p - 1) * size`, cut short at the end of the list and empty beyond it |
| MealFilter.PaginatedData | src/hooks/useMealFilter.ts:44-53 | the total is the filtered count, the page count covers it exactly, and a page holds at most the page size |
| MealFilter.PagesTileList | src/hooks/useMealFilter.ts:44-53 | pages 1 to the page count, put together, are the filtered list |
| OurMeals.PageFilteredMeals | src/components/OurMeals.tsx:219-229 | exactly the meals passing the quick filter, every selected tag and the case-insensitive name search, each at most as often as in the catalogue |
| OurMeals.PageFilteredInOrder | src/components/OurMeals.tsx:219-229 | the page's result keeps catalogue order: it distributes over catalogue parts and keeps a single meal exactly when it passes |
| OurMeals.EmptySearchPasses | src/components/OurMeals.tsx:227 | an empty search passes every meal |
| OurMeals.NameSearchNarrower | src/components/OurMeals.tsx:219-229 | whatever the page's filter passes, the filtering hook's filter passes too |
| OurMeals.Visible | src/components/OurMeals.tsx:230-231 | the first `itemsToShow` filtered meals are shown, and `hasMore` holds exactly when some are left over |
| OurMeals.OnFilterEvent | src/components/OurMeals.tsx:211-218 | a click on a different quick filter, an applied filter list that is new, and every reset of the filter modal reset the window to 8 and set the filters; clicking the current quick filter or applying the untouched list changes nothing |
| OurMeals.ResetShrinksWindow | src/components/FilterModal.tsx:39-43 | resetting the filter modal always shows at most 8 meals, fewer than before when more than 8 were shown |
| OurMeals.WindowResetsIffRefired | src/components/OurMeals.tsx:211-218 | a filter event resets a window of another size exactly when it hands the effect a new dependency value |
| OurMeals.ViewMore | src/components/OurMeals.tsx:330-331 | the window grows by 8 and the filters stay |
| OurMeals.ViewMoreShowsEightMore | src/components/OurMeals.tsx:230-331 | while more remain, each click shows eight more meals or all of them |
| OurMeals.ToggleLike | src/components/OurMeals.tsx:194-196 | a liked meal loses every copy of its id and nothing else; an unliked one is appended |
| OurMeals.ToggleTwice | src/components/OurMeals.tsx:194-196 | two toggles restore the set of liked meals |
| Pagination.Range | src/components/ui/Pagination.tsx:39 | the numbers `lo..hi` in order, none when `hi < lo` |
| Pagination.GetPageNumbers | src/components/ui/Pagination.tsx:13-42 | up to 7 pages every page is listed; beyond that 5 to 7 entries from page 1 to the last page, with the current page and its neighbours between ellipses in the middle |
| Pagination.PageNumbersWellFormed | src/components/ui/Pagination.tsx:13-42 | the numbers rise, are real pages, number at most seven and at most the page count, and each ellipsis stands between pages more than one apart |
| Pagination.CurrentPageShown | src/components/ui/Pagination.tsx:13-42 | a current page that is a real page is always listed |
| Pagination.ArrowState | src/components/ui/Pagination.tsx:44-54 | previous is disabled exactly on page 1 and next exactly on the last page |
| Pagination.ArrowsStayInRange | src/components/ui/Pagination.tsx:44-54 | from a real page an enabled arrow leads to a real page |
| AdminTable.ShownPagesAscending | src/components/admin/ui/AdminTable.tsx:107-117 | the page buttons rise from left to right |
| AdminTable.ShownPagesSound | src/components/admin/ui/AdminTable.tsx:107-117 | every button is a real page that is the first, the last, or within one of the current page |
| AdminTable.ShownPagesComplete | src/components/admin/ui/AdminTable.tsx:107-117 | every such page gets a button |
| AdminTable.ShownPagesAtMostFive | src/components/admin/ui/AdminTable.tsx:107-117 | there are at most five buttons |
| AdminTable.LandmarksShown | src/components/admin/ui/AdminTable.tsx:107-117 | with at least one page, the first and last pages and the current page with its real neighbours all get buttons |
| AdminTable.EllipsisMarksGap | src/components/admin/ui/AdminTable.tsx:118-127 | an ellipsis appears before a button exactly when the page after the previous button has no button, and that page is real |
| AdminTable.ShowingLine | src/components/admin/ui/AdminTable.tsx:89-95 | the line runs from the first position of the page to the smaller of the page's end and the item count |
| AdminTable.ShowingMatchesPage | src/components/admin/ui/AdminTable.tsx:89-95 | on a page with items, the line counts exactly the items of that page and its positions lie within the list |
| AdminTable.AdminArrows | src/components/admin/ui/AdminTable.tsx:97-150 | previous is disabled on page 1 or below, next on the last page or beyond |
| AdminTable.ArrowsAgreeInRange | src/components/admin/ui/AdminTable.tsx:97-150 | on a real page these arrows agree with the page-number bar's; past the last page only these disable next |
| OrderHistory.MapOrderStatus | src/hooks/useOrderHistory.ts:31-48 | a stored status whose lower-case spelling is one of the six names maps to that status; anything else, or none, maps to pending |
| OrderHistory.MapStatusKnown | src/hooks/useOrderHistory.ts:31-48 | each of the six names maps to its own status |
| OrderHistory.MapStatusIgnoresCase | src/hooks/useOrderHistory.ts:32 | a status and its lower-case spelling map alike |
| OrderHistory.DisplayId | src/hooks/useOrderHistory.ts:52 | the display id starts with `BUMBA-`, has at least five characters after it, and ends with the order id |
| OrderHistory.TransformOrder | src/hooks/useOrderHistory.ts:51-58 | the display id, the date, the parsed total (0 when it does not parse), the mapped status and one item |
| OrderHistory.LineQuantityReadsBack | src/hooks/useOrderHistory.ts:97-100 | a numeric quantity counts as itself; a missing, empty or non-numeric one counts 0 |
| OrderHistory.ItemCount | src/hooks/useOrderHistory.ts:97-104 | the item count is the sum of the line quantities, or 1 when that sum is 0 |
| OrderHistory.WithMeals | src/hooks/useOrderHistory.ts:87-110 | fetched details set the item count and the lines; a failed fetch keeps the base order |
| OrderHistory.ItemCountAtLeastOne | src/hooks/useOrderHistory.ts:97-104 | with no negative quantity an order counts at least one item, and exactly one with no lines |
| OrderHistory.HistoryItems | src/hooks/useOrderHistory.ts:87-117 | one history entry per order, in order, each carrying its order's id and display id |
| OrderDetails.CheckOrderId | src/components/account/OrderDetails.tsx:24-135 | a missing or empty id is refused first; then loading authentication waits and a user who is not logged in is asked to log in; for a logged-in user a non-blank id without the `BUMBA-` prefix is badly formed, and one with it is fetched exactly when the remainder parses to a positive number, which is the number fetched, and badly formed otherwise |
| OrderDetails.BlankIdRejected | src/components/account/OrderDetails.tsx:47-52 | an id of white space alone is refused as invalid |
| OrderDetails.PaddedDigitsReadBack | src/components/account/OrderDetails.tsx:63 | the zero-padded digits of a positive id parse back to the id |
| OrderDetails.DisplayIdRoundTrip | src/components/account/OrderDetails.tsx:47-71 | the display id the history page builds for a positive order id is read back by the details page as that id |
| OrderDetails.OrderTimeline | src/components/account/OrderDetails.tsx:162-178 | a cancelled order has two finished steps ending in Cancelled; any other has four steps, finished as far as the exact stored status has got |
| OrderDetails.TimelineFinishedPrefix | src/components/account/OrderDetails.tsx:162-178 | no unfinished step comes before a finished one |
| OrderDetails.TimelineProgress | src/components/account/OrderDetails.tsx:162-178 | pending finishes one step, confirmed and preparing two, shipped three, delivered four, and a cancelled order both of its steps |
| OrderDetails.StatusDisplay | src/services/orders.ts:189-209 | the six statuses, matched exactly, get a caption other than Unknown; anything else is an Unknown gray badge |
| OrderDetails.StatusDisplayTable | src/services/orders.ts:193-205 | each status gets its capitalised caption; gray only for pending, blue exactly for confirmed and shipped |
| OrderDetails.CapitalisedNames | src/services/orders.ts:193-205 | each caption is the status name with its first letter in upper case |
| OrderDetails.BadgeCaseSensitive | src/services/orders.ts:193 | an upper-case stored status is known to the history page but Unknown to the badge |
| MealSelection.Toggle | src/components/MealSelectionModal.tsx:82-90 | a chosen id is dropped, every copy and nothing else; an unchosen one is appended only while the choice is below the cap |
| MealSelection.ToggleKeepsAllowed | src/components/MealSelectionModal.tsx:82-90 | the toggle never creates a duplicate and never passes the cap |
| MealSelection.ToggleTwice | src/components/MealSelectionModal.tsx:82-90 | toggling an unchosen id twice below the cap restores the choice |
| MealSelection.NameOf | src/components/MealSelectionModal.tsx:98-100 | the name of a catalogue meal with the id, and the empty text when the catalogue has none |
| MealSelection.SaveNames | src/components/MealSelectionModal.tsx:93-110 | the save acts exactly when the choice holds the meals per week, and then keeps at most that many names, none of them empty |
| MealSelection.SaveNamesAllKnown | src/components/MealSelectionModal.tsx:93-103 | when every chosen id is in the catalogue, the saved names are those meals' names in choice order |
| MealSelection.MissingIdDropped | frontend/components/MealSelectionModal.tsx:67-77 | a chosen id missing from the catalogue loses its name, so fewer names are saved than meals chosen |
| MealSelection.OnOpen | frontend/components/MealSelectionModal.tsx:46-50 | opening the dialog empties the choice |
| ConfigureSubscription.SelectMeal | src/pages/ConfigureSubscriptionPage.tsx:95-115 | the toggle is applied to the chosen week and the other weeks are kept |
| ConfigureSubscription.SelectKeepsAllowed | src/pages/ConfigureSubscriptionPage.tsx:95-115 | choosing keeps every week free of duplicates and within the plan's meals per week |
| ConfigureSubscription.AllCompleteIffEachWeek | src/pages/ConfigureSubscriptionPage.tsx:147-152 | the page is complete exactly when each of its four weeks is complete |
| ConfigureSubscription.BillingFrequency | src/pages/ConfigureSubscriptionPage.tsx:31 | the billing parameter when it is non-empty, `weekly` otherwise |
| ConfigureSubscription.ProceedToCheckout | src/pages/ConfigureSubscriptionPage.tsx:117-144 | the cart gets a subscription exactly when the plan is known and every week is full; it carries the plan name, 4 weeks for monthly billing and 1 otherwise, the plan's total and four weeks of names of the plan's size |
| ConfigureSubscription.CheckoutNamesFollowChoice | src/pages/ConfigureSubscriptionPage.tsx:126-131 | each handed-over name is the catalogue name of the id chosen at that place |
| ConfigureSubscription.StartAllowed | src/pages/ConfigureSubscriptionPage.tsx:95-115 | the empty starting choice is allowed for any cap |
| PasswordStrength.Point | frontend/components/ui/PasswordInput.tsx:20-39 | a criterion earns one point exactly when it is met |
| PasswordStrength.Hints | frontend/components/ui/PasswordInput.tsx:17-43 | one hint for each unmet criterion, in checking order, and none for a met one |
| PasswordStrength.FrontendStrength | frontend/components/ui/PasswordInput.tsx:17-43 | the score counts the met criteria, with at least 8 characters for length; the hints are the unmet ones; the label is the score's word, empty at 0 |
| PasswordStrength.ClientScore | src/components/ui/PasswordInput.tsx:16-23 | the score counts the met criteria, with more than 8 characters for length, and is at most 4 |
| PasswordStrength.EightCharactersDiffer | src/components/ui/PasswordInput.tsx:18 | the two fields score alike except at exactly 8 characters, where only the older front end gives the length point |
| PasswordStrength.AppendNeverLowers | src/components/ui/PasswordInput.tsx:16-23 | typing more never lowers either score |
| PasswordStrength.AllKindsStrong | frontend/components/ui/PasswordInput.tsx:17-43 | a password of at least 8 characters with all four kinds is Strong with no hint |
| PasswordStrength.EmptyPasswordWeakest | frontend/components/ui/PasswordInput.tsx:17-81 | the empty password scores 0, shows no meter and gets all four hints |
| FormField.PatternMessage | frontend/components/ui/FormField.tsx:42 | the pattern's message is the given one when non-empty, `Invalid format` otherwise |
| FormField.ValidateField | frontend/components/ui/FormField.tsx:34-59 | without settings the field is valid and untouched; otherwise it is valid exactly when no check fails, the error is empty exactly then, and a blank required value reports the required message |
| FormField.FirstFailureReported | frontend/components/ui/FormField.tsx:36-55 | the error shown is that of the first failing check in the order required, pattern, minimum, maximum |
| FormField.NoValidationAlwaysValid | frontend/components/ui/FormField.tsx:35 | without settings even an empty required field is valid |
| FormField.ZeroLimitsIgnored | frontend/components/ui/FormField.tsx:46-55 | a length limit of 0 checks nothing |
| FormField.OnChange | frontend/components/ui/FormField.tsx:60-65 | typing revalidates only after the field was blurred |
| FormField.OnBlur | frontend/components/ui/FormField.tsx:66-71 | a blur marks the field dirty and validates it |
| FormField.ChangeAfterBlurRevalidates | frontend/components/ui/FormField.tsx:60-71 | after a blur the error follows every typed value |
| FormField.ChangeBeforeBlurIgnored | frontend/components/ui/FormField.tsx:60-65 | before any blur typing leaves the error as it was |
| FormField.DisplayError | frontend/components/ui/FormField.tsx:81 | a non-empty error from the parent wins over the field's own |
| AuthContext.UserFromResponse | src/context/AuthContext.tsx:141-153 | the identity fields are copied; a non-empty address text becomes the street with every other address field empty, an empty one no address; no role and no admin flag |
| AuthContext.AddressTextKept | src/context/AuthContext.tsx:98-110 | the street of a registered or signed-in user's address is the text the server sent |
| AuthContext.UpdateUserAddress | src/context/AuthContext.tsx:62-70 | nothing without a user; otherwise the address is the new one and nothing else changes |
| AuthContext.SetupAdminAccount | src/context/AuthContext.tsx:170-204 | it succeeds exactly when the trimmed key is the admin key and a user is signed in; then only `isAdmin` changes, otherwise nothing does |
| AuthContext.PaddedKeyAccepted | src/context/AuthContext.tsx:173-181 | white space around the right key does not matter |
| AuthContext.WrongKeyChangesNothing | src/context/AuthContext.tsx:179-181 | a wrong key fails and leaves the user as they were, signed in or not |
| AuthContext.SetupIdempotent | src/context/AuthContext.tsx:167-204 | the set-up never signs anyone in or out, and repeating it changes nothing more |
| ProtectedRoute.Guard | src/components/ProtectedRoute.tsx:23-47 | a spinner exactly while loading; the sign-in page with the escaped path for a visitor; the page exactly for a signed-in user holding each role the route asks for; home otherwise |
| ProtectedRoute.BothRolesNeverShown | src/components/ProtectedRoute.tsx:35-44 | a route marked for both roles is never shown |
| ProtectedRoute.OpenRouteShown | src/components/ProtectedRoute.tsx:29-47 | a route marked for neither role is shown to every signed-in user |
| ProtectedRoute.SetUpAdminSentHome | src/components/ProtectedRoute.tsx:35-38 | a user who completed the admin set-up carries `isAdmin` yet is sent home by an admin route |
| ProtectedRoute.GuardCorrected | src/components/ProtectedRoute.tsx:23-47 | as the guard, with an admin route admitting a user with the admin role or the admin flag |
| ProtectedRoute.SetUpAdminAdmitted | src/pages/admin/AdminLayout.tsx:24 | with the corrected check, a user who completed the admin set-up is shown the admin routes |
| ProtectedRoute.CorrectedOnlyWidens | src/components/ProtectedRoute.tsx:35-38 | the corrected guard differs only on admin routes and only admits more users |
| MealGenerator.PriceFollowsRank | src/utils/mealGenerator.ts:21-37 | the three tiers' prices rise with their rank: basic below premium below signature |
| MealGenerator.DeterminePriceTier | src/utils/mealGenerator.ts:39-47 | signature exactly when the lower-cased name mentions steak or salmon; premium exactly when it does not but mentions chicken or bowl; basic otherwise |
| MealGenerator.LongerNameNeverCheaper | src/utils/mealGenerator.ts:39-47 | adding words to a meal name never lowers its price tier |
| MealGenerator.SourceListsUsable | src/utils/mealGenerator.ts:15-20 | the generator's own lists are non-empty, with at least three tags and two categories to pick from |
| MealGenerator.FirstUnused | src/utils/mealGenerator.ts:53-57 | the id loop ends on a draw not yet used, and fails to end within the draws exactly when every draw is already used |
| MealGenerator.Pick | src/utils/mealGenerator.ts:69-72 | a shuffled prefix of a list has the requested length and takes each entry from the list, at distinct positions |
| MealGenerator.MealTags | src/utils/mealGenerator.ts:68-69 | two or three tags from the tag list, then the tier's label as the last tag |
| MealGenerator.BuildMeal | src/utils/mealGenerator.ts:59-90 | the price and last tag follow the name's tier; preparation time is 15 to 34 minutes and calories 300 to 599; one or two categories from the list; a badge exactly when one was drawn |
| MealGenerator.NextMealKeeps | src/utils/mealGenerator.ts:53-57 | adding the meal built around an unused id keeps all ids distinct |
| MealGenerator.NewMealFrom | src/utils/mealGenerator.ts:59-90 | the meal built around one of a draw's ids is the meal of that draw |
| MealGenerator.GenerateMeals | src/utils/mealGenerator.ts:48-93 | no meals for a count of 0 or less; otherwise `count` meals with pairwise distinct ids, meal `i` built from draw `i` |
| MealGenerator.GenerateDummyMeals | src/utils/mealGenerator.ts:48-93 | the same over the source's own lists |
| DietitianMessaging.Classify | src/pages/dietitian/DietitianMessaging.tsx:164-180 | the reply subject is the first rule, in order, whose words occur in the lower-cased message; the last reply only when no rule's words occur |
| DietitianMessaging.ReplyIgnoresCase | src/pages/dietitian/DietitianMessaging.tsx:165 | the customer's reply does not depend on the letter case of the dietitian's message |
| DietitianMessaging.ClassifyIgnoresCase | src/pages/dietitian/DietitianMessaging.tsx:165 | the reply subject does not depend on letter case |
| DietitianMessaging.MealPlanWinsWhateverFollows | src/pages/dietitian/DietitianMessaging.tsx:167-168 | once a message mentions a meal or diet plan, nothing appended to it changes the reply |
| DietitianMessaging.FilteredConversations | src/pages/dietitian/DietitianMessaging.tsx:255-264 | exactly the conversations whose name, e-mail or last message contains the query ignoring case; all of them for an empty query |
| DietitianMessaging.SearchIgnoresQueryCase | src/pages/dietitian/DietitianMessaging.tsx:258 | the search result does not depend on the letter case of the query |
| DietitianMessaging.NameSearchFindsConversation | src/pages/dietitian/DietitianMessaging.tsx:260 | searching for a customer's exact name finds that customer's conversation |
| DietitianMessaging.SendMessage | src/pages/dietitian/DietitianMessaging.tsx:183-216 | nothing on blank input or with no open conversation; otherwise the trimmed text is appended as a read dietitian message, stored under the open conversation only, becomes that conversation's last message, and the input is cleared |
| DietitianMessaging.SendOnceThenIdle | src/pages/dietitian/DietitianMessaging.tsx:186-204 | a send adds at most one message, and sending again without new input changes nothing |
| CheckoutSteps.StatusOf | src/components/checkout/ProgressStepper.tsx:26-31 | completed exactly before the current step, current exactly at it, upcoming exactly after it |
| CheckoutSteps.Statuses | src/components/checkout/ProgressStepper.tsx:34-35 | one status per step, each by the rule above |
| CheckoutSteps.OneCurrentStep | src/components/checkout/ProgressStepper.tsx:23-31 | exactly one step is current when the current step is found, none when `findIndex` gives -1 |
| CheckoutSteps.AdvanceOneStep | src/components/checkout/ProgressStepper.tsx:26-31 | moving on one step completes the current step, makes the next one current and changes no other |
| CheckoutSteps.StepperIndex | src/components/checkout/ProgressStepper.tsx:7-19 | cart, payment and confirmation sit at three distinct positions below 3 |
| CheckoutSteps.StepperStatuses | src/components/checkout/ProgressStepper.tsx:23-35 | three statuses; the current step's is current and exactly the earlier ones are completed |
| CheckoutSteps.StepperEnds | src/components/checkout/ProgressStepper.tsx:41-53 | on confirmation every icon is filled and both connectors coloured; on the cart only the first icon is filled and no connector is coloured |
| CheckoutSteps.TimelineStatuses | src/components/checkout/Timeline.tsx:11-27 | four statuses; step `k` is complete once the number reaches `k`, current exactly when the number is `k - 1` for the later steps, and the first step is never current |
| CheckoutSteps.TimelineMatchesRule | src/components/checkout/Timeline.tsx:11-27 | the timeline agrees with the stepper's rule at every step number except 0, where it leaves the first step pending |
| CheckoutSteps.IndicatorIndex | src/components/checkout/StepIndicator.tsx:7-22 | the four indicator steps sit at positions below 4 |
| CheckoutSteps.IndicatorViews | src/components/checkout/StepIndicator.tsx:26-57 | each step shows its number from 1 unless completed (then a tick), and the line after it follows the step's own status |
| CheckoutSteps.IndicatorAgreesWithStepper | src/components/checkout/StepIndicator.tsx:31-35 | on the steps both displays share, the indicator and the progress stepper give the same statuses |
| OrderService.UpdateIdempotent | backend/src/OrderService.java:154-169 | setting the same status twice leaves the store as one update did, with the same answer both times |
| JsParse.ParseIntReadsLeadingDigits | backend/src/controllers/favoritesController.js:19 | after any JavaScript white space and an optional `+` or `-`, the decimal digits are read up to the first non-digit and whatever follows is ignored (`" -12abc"` reads as -12); a lone `0` before `x` or `X` is the exception |
| JsParse.ParseIntReadsHexDigits | backend/src/controllers/favoritesController.js:19 | after white space and an optional sign, a `0x` or `0X` prefix reads the hexadecimal digits that follow, up to the first character that is not one (`"0x1fz"` reads as 31) |
| JsParse.ParseIntDigits | backend/src/controllers/favoritesController.js:19 | a string of decimal digits reads as its decimal value |
| JsParse.ParseIntOfIntToString | src/components/account/OrderDetails.tsx:63 | every integer's decimal text reads back as that integer |
| JsParse.ParseIntNoDigit | src/components/account/OrderDetails.tsx:63 | a text whose first non-space character is neither a digit nor a sign reads as `NaN` |

## Left out

- The statistics and averages of the user-stats and favourite-stats managers: floating point.
- Some listings are left out because they are plain reads with nothing to state beyond "all rows": `getAllOrders`, `viewAllPlans`, the popular meals, `getMealById`, `getCategories`, `getDietaryOptions`, `getPlanById` and the expiring-soon listing.
- `addMealKit`, `updateMeal` and plan creation: inserts without a guard, of the same shape as the inserts that are modelled.
- JSX rendering, colours, icons, toasts, hook scheduling and debouncing: presentation.
- `Thread.sleep` in the card simulation and every `setTimeout`: timing only.
- The dietitian chat's simulated customer reply (src/pages/dietitian/DietitianMessaging.tsx lines 218-251): its timer and its 70% chance are randomness and time. Only the text it would send (`GenerateUserReply`) is modelled.
- bcrypt hashing and comparison: an oracle parameter; its internals are a foreign library.
- Tokens, sessions, local storage and the network clients.
- Unicode digits accepted by Java's `Integer.parseInt`: the model accepts ASCII digits only.
- Partial failures in the middle of a multi-statement operation: the store either answers a whole operation or fails it. The exception is `addMealsToOrder`, which is all-or-nothing as its transaction makes it.
- Floating-point money: amounts are integer cents, so rounding of `toFixed` is not modelled.
- Database collation and `LIKE` wildcards: a search is a plain substring test, and an `ORDER BY` on text (the meals of `getAllMeals` and `getMealsByOrderId` by name, the favourites ranked by `meal_name`) compares code points, not the database's collation.
- The serial value a failed insert consumes: row ids of failed inserts are not tracked.
- `getLowStockMeals` called with an explicit `null` threshold: the model's `None` takes the default 10. In the source a `null` would reach the query, where `quantity <= NULL` matches no row.
- The default role a new account receives from the database: a parameter, since the schema is not part of this model.
- The controllers' catch-all answer 500 for thrown errors, beyond the store fault flag.
- `toLowerCase` and `toUpperCase` outside ASCII, and string length in UTF-16 code units.
- `encodeURIComponent`: a parameter of the route guard.
- MealFilter.PaginatedData: requires a positive `itemsPerPage`. A page size of 0 would divide by zero in the hook, and every caller passes a positive constant.
- PlanManager.UpdatePlan: a parameter reaches PostgreSQL as text, which the database casts to the column's type. The model stores any value in the text columns `subscription_plan` and `billing_cycle`, but refuses a text or a value of another type for a number, timestamp or boolean column, where PostgreSQL would cast a text such as `5` or `true`. The cast rules of PostgreSQL are not part of this model.
- MealGenerator.GenerateDummyMeals: it calls GenerateMeals, so it too answers `None` where the draws run out, and states its result only when they suffice.
- MealGenerator.GenerateMeals: where every id draw given for a meal is already used, the source would keep drawing; the model answers `None`. It states the result only when the draws suffice.
- MealGenerator.BuildMeal: the preparation time and calories are the numbers before the ` min` and ` cal` suffixes.
- The delivery date formatting of the checkout timeline: locale formatting.
- The first `doPost` of `backend/src/OrderController.java` (lines 15-32): the class declares `doPost(HttpServletRequest, HttpServletResponse)` twice (again at lines 221-240), which the Java compiler rejects as a duplicate method, so the class as written does not compile. The model takes the second declaration as the intended handler, since it is the only one that routes `/create-with-payment`; it routes `/create` and `/update-status` exactly as the first one does.
- OrderDetails.CapitalisedNames: states the relation between the first letter and the status name through lower-casing, and that the rest of the name is kept, rather than naming `toUpperCase`.
- JsParse.ParseInt: its contract is stated in the lemmas `JsParse.ParseIntReadsLeadingDigits`, `JsParse.ParseIntReadsHexDigits` and `JsParse.ParseIntNoDigit`, not on the function itself.
- The checkout steps of an unknown name: the step types are closed enumerations, so `findIndex` never gives -1 there. `CheckoutSteps.OneCurrentStep` states the -1 case for the general rule.

## Findings

| source | as written | input that shows it | evidently intended | confidence | as-written member | corrected member |
|---|---|---|---|---|---|---|
| backend/src/controllers/favoritesController.js:13-42 | the favourites listing declares validation rules (lines 261-278) but never reads the validation result, so `page=0` is accepted | `GET /favorites?page=0`: the offset is -20 and the answer is an empty page with status 200 | a request that breaks the declared rules is refused with 400 | high (not executed) | FavoritesController.ZeroPageAnswersEmpty | FavoritesController.ValidatedRefusesZeroPage |
| src/components/ProtectedRoute.tsx:35 | the admin route check reads `user.role`, which the sign-in state never sets, while the admin set-up (src/context/AuthContext.tsx:189-192) grants `isAdmin` | sign in, enter the admin key `bumba-admin-2025`, open an admin route: the guard sends the user home | a user the admin set-up made admin reaches the admin pages, as src/pages/admin/AdminLayout.tsx:24 expects | medium (not executed) | ProtectedRoute.SetUpAdminSentHome | ProtectedRoute.SetUpAdminAdmitted |
