# Order lifecycle and seller sales of a campus marketplace backend

This project models the core of a marketplace backend in which buyers place
orders for products that sellers list, and admins oversee both. It covers two
services.

- **The order service** (`src/services/order.service.ts`). It creates orders
  after validating their items against the product directory. It lists and
  shows orders according to the actor's role. It moves orders through the
  lifecycle `pending -> accepted -> delivered`, with `canceled` reachable from
  `pending` and `accepted`. A fixed transition table is checked first, for
  every role. The per-role rules come after it: a buyer must own the order, a
  seller must own a product in it, and an admin may make any valid move. An
  explicit cancellation has its own per-role rules.
- **The seller service's public profile** (`src/services/seller.service.ts`).
  It returns the seller's catalogue and a sales history. The history holds the
  orders that contain one of the seller's products, each cut down to the
  seller's own items. It also returns the number of such orders, the total
  quantity of the seller's items, and the number of delivered orders.

Layout:

- `domain.dfy` (module `Domain`): ids, statuses, roles, items, products,
  order records, and the failures together with their HTTP status codes.
- `order_service.dfy` (module `OrderService`): the pure parts are functions.
  They are the transition table, the ownership check, the update and cancel
  decisions, the role-by-transition matrices they are proved against, and the
  creation checks. The quantity loop of creation is the method
  `ValidateItems`. The stored order documents are objects of class `Order`,
  whose `status` is the only field written after creation. Class `OrderStore`
  holds the order collection as a map and the product directory. Its methods
  `CreateOrder`, `UpdateStatus` and `CancelOrder` state the whole new state
  of the collection. The invariant `Valid` says every stored order has a
  non-empty item list, no product twice and every quantity at least one.
- `seller_service.dfy` (module `SellerService`): the filter of items, the
  folds for items sold and delivered orders, the loop `SalesHistory` that
  builds the history and its figures, and the profile method.

Persistence reads become map lookups and sequence arguments. Persistence
writes become field writes. The actor `{id, role}` is a parameter, as token
verification leaves it.

Three behaviours of the code are worth stating because they are easy to miss:

- Creation compares the number of distinct products found with the number of
  item lines, not the number of requested products. An order naming the same
  product on two lines is therefore refused as "One or more products do not
  exist" (`OrderService.DuplicateProductsRefused`).
- Creation checks quantities last, after existence and availability, not
  first.
- The role refusals carry the code's own messages and HTTP codes. A buyer
  asking for any status other than canceled, and a seller asking for a move
  outside the seller edges, get 403. A buyer canceling a non-pending order,
  and a seller canceling a delivered or canceled one, get 400
  (`OrderService.RefusalCodes`).

## Model

| member | source | states |
|---|---|---|
| `OrderService.IsValidTransition` | src/services/order.service.ts:88-97 | A move is valid exactly when it is one of pending→accepted, pending→canceled, accepted→delivered, accepted→canceled; never to the same status, never out of delivered or canceled |
| `OrderService.ContainsSellerProduct` | src/services/order.service.ts:126-128 | True exactly when some item of the order names a product in the seller's product-id set |
| `OrderService.UpdateDecision` | src/services/order.service.ts:99-141 | A move that is not an edge is refused as an invalid transition whatever the role. The update succeeds exactly when the role-by-transition matrix allows the move and the actor owns the order: an admin any edge, a buyer only pending→canceled on their own order, a seller only pending→accepted or accepted→delivered on an order holding one of their products. On success the new status is the requested one |
| `OrderService.CancelDecision` | src/services/order.service.ts:150-184 | Cancellation succeeds exactly when the role's rule holds: an admin on any order that is not delivered or canceled, a buyer on their own pending order, a seller on a pending or accepted order holding one of their products. On success the status becomes canceled along an edge of the state machine; a terminal order is always refused |
| `OrderService.UpdateForbiddenIsOwnership` | src/services/order.service.ts:112-128 | A status update answers Forbidden exactly when the move is valid, the actor is a buyer or seller failing the ownership check, and a buyer asked for canceled |
| `OrderService.TerminalOrdersAreFrozen` | src/services/order.service.ts:88-184 | On a delivered or canceled order every status update and every cancellation is refused, for every role |
| `OrderService.DecisionsFollowEdges` | src/services/order.service.ts:77-184 | Whatever a status update or a cancellation does to an order, it moves along an edge of the state machine |
| `OrderService.BuyerCancelPathsAgree` | src/services/order.service.ts:112-168 | A buyer cancels through a status update exactly when an explicit cancellation succeeds, that is, on their own pending order |
| `OrderService.SellerCancelAsymmetry` | src/services/order.service.ts:130-181 | A seller owning a product of an accepted order may cancel it explicitly but is refused the same move through a status update |
| `OrderService.UpdateExamples` | tests/unit/services/order.service.test.ts:107-146 | pending→delivered is refused as an invalid transition even for an admin; a seller owning a product of a pending order may accept it |
| `OrderService.AdminOverride` | src/services/order.service.ts:105-161 | An admin's status update succeeds exactly on the edges of the state machine and an admin's cancellation exactly on non-terminal orders, with no ownership check |
| `OrderService.UpdateRefusalReasons` | src/services/order.service.ts:112-136 | On a valid move, a buyer asking for anything but canceled is refused as buyers-can-only-cancel, a buyer owner of an order that is no longer pending as pending-only, and a seller owner asking for a move other than pending→accepted or accepted→delivered as seller-not-allowed |
| `OrderService.CancelForbiddenIsOwnership` | src/services/order.service.ts:163-174 | An explicit cancellation answers Forbidden exactly when the actor is a buyer or seller failing the ownership check |
| `OrderService.CancelRefusalReasons` | src/services/order.service.ts:154-178 | An admin canceling a delivered or canceled order is refused as not-cancelable, a buyer owner of an order that is no longer pending as pending-only, and a seller owner of a delivered or canceled order as seller-cancel-denied |
| `OrderService.RefusalCodes` | src/services/order.service.ts:98-178 | A refused status update answers 400 when the move is invalid or a buyer owner cancels an order that is no longer pending, and 403 otherwise; a refused cancellation answers 403 when the actor fails the ownership check and 400 otherwise |
| `OrderService.FoundIds` | src/services/order.service.ts:15-16 | The products found for the items are exactly the directory's products named by some item, each once |
| `OrderService.FoundIdsAtMost` | src/services/order.service.ts:15-17 | The directory never returns more products than there are item lines |
| `OrderService.FoundCountMatches` | src/services/order.service.ts:15-19 | The count check passes exactly when every item names an existing product and no product is named twice |
| `OrderService.FindUnavailable` | src/services/order.service.ts:21-24 | Finds nothing exactly when every named product is available; what it finds is a named product that is unavailable |
| `OrderService.ItemsVerdict` | src/services/order.service.ts:9-30 | Creation's checks in the code's order: no items, then a product missing or named twice, then an unavailable product, then a quantity below one. They pass exactly when the list is non-empty, every product exists, is available and named once, and every quantity is at least one |
| `OrderService.QuantitiesValid` | src/services/order.service.ts:26-30 | The loop over the items reports success exactly when every quantity is at least one |
| `OrderService.ValidateItems` | src/services/order.service.ts:10-30 | The validation with the product count and the loop over quantities returns exactly the verdict of creation's checks |
| `OrderService.DuplicateProductsRefused` | src/services/order.service.ts:15-19 | Two item lines naming the same product are refused as a missing product |
| `OrderService.CreationExamples` | tests/unit/services/order.service.test.ts:40-81 | An empty list is refused; one line of an existing available product with a positive quantity passes; the same with an unavailable product, or with a quantity below one, is refused with that reason |
| `OrderService.Order.constructor` | src/services/order.service.ts:34 | A created order is pending, with the given buyer and items |
| `OrderService.OrderStore.CreateOrder` | src/services/order.service.ts:9-35 | Succeeds exactly when the items pass creation's checks. On failure it returns the checks' verdict and stores nothing. On success it stores one new pending order under a fresh id, with the caller as buyer and exactly the given items, and changes nothing else |
| `OrderService.OrderStore.UpdateStatus` | src/services/order.service.ts:77-142 | An unknown order is not found. Otherwise the order's status becomes the update decision's new status and nothing else in the collection changes; a refused update changes nothing |
| `OrderService.OrderStore.CancelOrder` | src/services/order.service.ts:150-184 | An unknown order is not found. Otherwise the order becomes canceled when the cancel decision allows it, and nothing else changes; a refused cancellation changes nothing |
| `OrderService.OrderStore.GetOrderById` | src/services/order.service.ts:55-74 | An unknown order is not found; otherwise the order is returned exactly when the actor owns it (admin always, buyer if they placed it, seller if it holds one of their products) and Forbidden is returned otherwise |
| `OrderService.OrderStore.ListOrders` | src/services/order.service.ts:39-52 | Lists exactly the orders the detail query would show the same actor, each as stored (under the id comparison described under "Left out") |
| `SellerService.SellerItems` | src/services/seller.service.ts:37 | Keeps exactly the items whose product is one of the seller's, never more items than the order has |
| `SellerService.SellerItemsAppend` | src/services/seller.service.ts:37 | The filter keeps the original order: the kept items of two concatenated lists are the kept items of each, in turn |
| `SellerService.QuantityAppend` | src/services/seller.service.ts:39 | The total quantity of a concatenation is the sum of the two totals |
| `SellerService.MatchingOrders` | src/services/seller.service.ts:30-31 | The orders fetched for the seller are exactly the orders holding one of the seller's products |
| `SellerService.MatchingOrdersAppend` | src/services/seller.service.ts:30-31 | The query keeps the collection's order: the matching orders of a concatenation are those of each part, in turn |
| `SellerService.NoProductsNoMatches` | src/services/seller.service.ts:65-74 | A seller without products matches no order |
| `SellerService.DeliveredCount` | src/services/seller.service.ts:38 | The number of delivered orders never exceeds the number of orders |
| `SellerService.ItemsSoldIsSellerQuantity` | src/services/seller.service.ts:39 | Items sold equals the total quantity of the seller's items over all matching orders; other sellers' items never count |
| `SellerService.SaleViews` | src/services/seller.service.ts:36-46 | One history entry per order, in order, each with the order's id and status and only the seller's items |
| `SellerService.SalesHistory` | src/services/seller.service.ts:33-49 | The loop returns one entry per order, with the order's id and status and only the seller's items. The orders count is the number of orders, items sold is the seller's quantity over them, and the delivered count is the number of delivered orders, at most the orders count |
| `SellerService.GetSellerPublicProfile` | src/services/seller.service.ts:12-75 | A malformed id is refused as invalid, an id that is not a seller's as not found, and a well-formed id of a seller always succeeds. Then it returns the seller's catalogue and the sales history of the orders holding the seller's products, with counts as above. A seller without products gets zero figures and no orders |
| `SellerService.SalesExample` | tests/unit/services/seller.service.test.ts:64-88 | For a seller owning products 1 and 2, with a pending order of 2 of product 1 and 5 of another seller's product, and a delivered order of 3 of product 2: two orders, 5 items sold, 1 delivered, and the first order keeps only its product-1 line |

## Left out

- Database access (order and product queries, `populate`, `select`, `save`, the timestamps `createdAt` and `updatedAt`) is not modelled as I/O. The order collection is a map inside `OrderStore` and the product directory is a constant map. The seller service takes the users, the products and the orders as arguments. Concurrent updates of one order are out of scope: every operation runs as one step.
- Ids are natural numbers compared for equality. Parsing object ids is not modelled, and neither is the exception that an ill-formed product id raises in creation. The id check of the profile is the input's shape: `WellFormed` or `Malformed`.
- Quantities are integers. A missing, `NaN` or fractional quantity from the client is not modelled, nor is the `|| 0` default of the sales sum, which only matters for such values. Prices are integers; floating point is not modelled.
- `OrderService.OrderStore.GetOrderById`: the seller check compares product ids. The code populates the items before that check, so it compares the string form of a populated product document with the seller's product ids, or throws when the product no longer exists. The model takes the evidently intended id comparison, and so a seller is shown the same orders the list query returns. The printed form of a populated document is library behaviour that is not modelled.
- Inputs the types cannot express are not modelled. An `items` value that is not an array is refused in creation with "Items are required". A requested status outside the four statuses is refused as an invalid transition, because it is never an allowed target. An ill-formed order id makes `findById` throw in the detail query, in status updates and in cancellation.
- `OrderService.FindUnavailable`: the error names the first unavailable product in item order. The database returns found products in its own order, which is not modelled.
- `OrderService.OrderStore.ListOrders`: returns the listed orders as a map keyed by id. The collection's order of the list and the populated product details are not modelled.
- `SellerService.GetSellerPublicProfile`: the catalogue is a map from product id to product, not the ordered list of selected fields. The seller's public user fields (username, email, creation date) are reduced to the seller id.
- The product directory does not change while the order store runs: products are created by the product service, which is not part of this model.
- Controllers, routes, the authentication middleware, the security, user and product services, `listSellers`, and the schema and API-documentation declarations are not part of this model.
