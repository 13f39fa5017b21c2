/** Entities shared by the order service and the seller service of the
    marketplace backend: order statuses, actor roles, order items, products,
    order records and the failures the services report. */
module Domain {

  /** Identifiers of users, products and orders. The backend uses database
      object ids; the services only ever compare them for equality. */
  type Id = nat

  datatype Option<T> = None | Some(value: T)

  datatype Result<T, E> = Ok(value: T) | Err(error: E)

  /** Lifecycle status of an order. */
  datatype Status = Pending | Accepted | Delivered | Canceled

  /** Delivered and canceled orders admit no further change. */
  predicate IsTerminal(s: Status) {
    s == Delivered || s == Canceled
  }

  /** Role of an authenticated actor, as resolved from its token. */
  datatype Role = Admin | Seller | Buyer

  /** The authenticated actor of a request: its user id and role. */
  datatype Actor = Actor(id: Id, role: Role)

  /** One line of an order. The quantity is whatever number the client sent,
      so it may be zero or negative until the order is validated. */
  datatype Item = Item(productId: Id, quantity: int)

  /** A product of the directory, owned by the seller `sellerId`. */
  datatype Product = Product(name: string, sellerId: Id, price: int, available: bool)

  /** The product directory, keyed by product id. */
  type Directory = map<Id, Product>

  /** The persisted fields of an order that the services read. */
  datatype OrderRecord = OrderRecord(id: Id, buyerId: Id, items: seq<Item>, status: Status)

  /** Every failure the two services return, one per error message. */
  datatype Failure =
    | ItemsRequired                            // 'Items are required'
    | ProductsMissing                          // 'One or more products do not exist'
    | ProductUnavailable(productId: Id)        // 'Product <id> is not available'
    | InvalidQuantity                          // 'Quantity must be >= 1 for all items'
    | OrderNotFound                            // 'Order not found'
    | Forbidden                                // 'Forbidden'
    | InvalidTransition(from: Status, to: Status) // 'Invalid status transition from <from> to <to>'
    | BuyerCanOnlyCancel                       // 'Buyers can only cancel pending orders'
    | BuyerPendingOnly                         // 'Only pending orders can be canceled by buyer'
    | SellerTransitionDenied                   // 'Seller not allowed for this transition'
    | NotCancelable                            // 'Order can not be canceled anymore'
    | SellerCancelDenied                       // 'Sellers can only cancel pending or accepted orders'
    | InvalidSellerId                          // 'Invalid seller id'
    | SellerNotFound                           // 'Seller not found'

  /** The HTTP status each failure is reported with: missing entities 404;
      the ownership refusal, a buyer asking a status update for anything but
      canceled and a seller asking for a move outside the seller edges 403;
      everything else 400, including the buyer's pending-only refusal and
      the refusals of an explicit cancellation to an owner. */
  function HttpStatus(f: Failure): int {
    match f
    case OrderNotFound | SellerNotFound => 404
    case Forbidden | BuyerCanOnlyCancel | SellerTransitionDenied => 403
    case _ => 400
  }

  /** The ids of the products `seller` owns in the directory. */
  function CatalogueIds(dir: Directory, seller: Id): set<Id> {
    set p | p in dir && dir[p].sellerId == seller
  }
}
