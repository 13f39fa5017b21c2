/** The order lifecycle and authorization engine: the status state machine,
    the per-role permission rules of status updates and cancellations,
    item validation at creation, and the role-scoped queries. */
module OrderService {
  import opened Domain

  // ---------------------------------------------------------------------
  // The state machine
  // ---------------------------------------------------------------------

  /** The four moves of the order lifecycle, as a reference relation. */
  const Edges: set<(Status, Status)> :=
    {(Pending, Accepted), (Pending, Canceled), (Accepted, Delivered), (Accepted, Canceled)}

  /** The table of allowed targets per current status. */
  function AllowedTargets(from: Status): seq<Status> {
    match from
    case Pending => [Accepted, Canceled]
    case Accepted => [Delivered, Canceled]
    case Delivered => []
    case Canceled => []
  }

  /** Whether a status change is a move of the state machine. A request for
      the current status is never one, and terminal statuses have no move. */
  function IsValidTransition(from: Status, to: Status): (valid: bool)
    ensures valid <==> (from, to) in Edges
    ensures from == to ==> !valid
    ensures IsTerminal(from) ==> !valid
  {
    if from == to then false else to in AllowedTargets(from)
  }

  // ---------------------------------------------------------------------
  // Ownership
  // ---------------------------------------------------------------------

  /** Whether some item of the order names one of the seller's products. */
  function ContainsSellerProduct(items: seq<Item>, sellerProducts: set<Id>): (found: bool)
    ensures found <==> exists i :: 0 <= i < |items| && items[i].productId in sellerProducts
  {
    if items == [] then false
    else if items[0].productId in sellerProducts then true
    else
      var rest := ContainsSellerProduct(items[1..], sellerProducts);
      assert forall i :: 0 < i < |items| ==> items[i] == items[1..][i - 1];
      rest
  }

  /** The ownership the engine demands of an actor before it touches an
      order: a buyer must have placed it, a seller must own a product in it,
      an admin is never checked. */
  predicate Owns(user: Actor, o: OrderRecord, dir: Directory) {
    match user.role
    case Admin => true
    case Buyer => o.buyerId == user.id
    case Seller => ContainsSellerProduct(o.items, CatalogueIds(dir, user.id))
  }

  // ---------------------------------------------------------------------
  // Permission matrices (role x transition), stated as data
  // ---------------------------------------------------------------------

  /** The moves each role may make through a status update. */
  predicate UpdateAllowedFor(role: Role, from: Status, to: Status) {
    match role
    case Admin => (from, to) in Edges
    case Buyer => (from, to) == (Pending, Canceled)
    case Seller => (from, to) in {(Pending, Accepted), (Accepted, Delivered)}
  }

  /** The statuses from which each role may cancel an order. */
  predicate CancelAllowedFor(role: Role, from: Status) {
    match role
    case Admin => !IsTerminal(from)
    case Buyer => from == Pending
    case Seller => from == Pending || from == Accepted
  }

  // ---------------------------------------------------------------------
  // Decisions: the checks of updateStatus and cancelOrder, in their order
  // ---------------------------------------------------------------------

  /** The checks a status update runs on a loaded order: the state machine
      first, for every role, then the role and ownership rules. On success
      the new status. */
  function UpdateDecision(o: OrderRecord, user: Actor, dir: Directory, to: Status): (r: Result<Status, Failure>)
    ensures !IsValidTransition(o.status, to) ==> r == Err(InvalidTransition(o.status, to))
    ensures r.Ok? <==> UpdateAllowedFor(user.role, o.status, to) && Owns(user, o, dir)
    ensures r.Ok? ==> r.value == to
  {
    if !IsValidTransition(o.status, to) then Err(InvalidTransition(o.status, to))
    else
      match user.role
      case Admin => Ok(to)
      case Buyer =>
        if to != Canceled then Err(BuyerCanOnlyCancel)
        else if o.buyerId != user.id then Err(Forbidden)
        else if o.status != Pending then Err(BuyerPendingOnly)
        else Ok(Canceled)
      case Seller =>
        if !ContainsSellerProduct(o.items, CatalogueIds(dir, user.id)) then Err(Forbidden)
        else if !((o.status == Pending && to == Accepted) || (o.status == Accepted && to == Delivered)) then
          Err(SellerTransitionDenied)
        else Ok(to)
  }

  /** The checks an explicit cancellation runs on a loaded order. On success
      the new status, which is always canceled. */
  function CancelDecision(o: OrderRecord, user: Actor, dir: Directory): (r: Result<Status, Failure>)
    ensures r.Ok? <==> CancelAllowedFor(user.role, o.status) && Owns(user, o, dir)
    ensures r.Ok? ==> r.value == Canceled && IsValidTransition(o.status, Canceled)
    ensures IsTerminal(o.status) ==> r.Err?
  {
    match user.role
    case Admin =>
      if o.status == Delivered || o.status == Canceled then Err(NotCancelable)
      else Ok(Canceled)
    case Buyer =>
      if o.buyerId != user.id then Err(Forbidden)
      else if o.status != Pending then Err(BuyerPendingOnly)
      else Ok(Canceled)
    case Seller =>
      if !ContainsSellerProduct(o.items, CatalogueIds(dir, user.id)) then Err(Forbidden)
      else if o.status != Pending && o.status != Accepted then Err(SellerCancelDenied)
      else Ok(Canceled)
  }

  /** Forbidden from a status update means exactly: the move is valid, the
      actor is not an admin and fails the ownership check (a buyer only gets
      that far when asking for canceled). */
  lemma UpdateForbiddenIsOwnership(o: OrderRecord, user: Actor, dir: Directory, to: Status)
    ensures UpdateDecision(o, user, dir, to) == Err(Forbidden) <==>
      IsValidTransition(o.status, to) && user.role != Admin && !Owns(user, o, dir)
      && (user.role == Buyer ==> to == Canceled)
  {
  }

  /** Neither operation ever changes a delivered or canceled order. */
  lemma TerminalOrdersAreFrozen(o: OrderRecord, user: Actor, dir: Directory, to: Status)
    requires IsTerminal(o.status)
    ensures UpdateDecision(o, user, dir, to).Err?
    ensures CancelDecision(o, user, dir).Err?
  {
  }

  /** Whatever either operation does, it moves along an edge of the state
      machine. */
  lemma DecisionsFollowEdges(o: OrderRecord, user: Actor, dir: Directory, to: Status)
    ensures UpdateDecision(o, user, dir, to).Ok? ==> (o.status, UpdateDecision(o, user, dir, to).value) in Edges
    ensures CancelDecision(o, user, dir).Ok? ==> (o.status, CancelDecision(o, user, dir).value) in Edges
  {
  }

  /** A buyer succeeds in canceling through a status update exactly when an
      explicit cancellation succeeds: the owner, on a pending order. */
  lemma BuyerCancelPathsAgree(o: OrderRecord, user: Actor, dir: Directory)
    requires user.role == Buyer
    ensures UpdateDecision(o, user, dir, Canceled).Ok? <==> CancelDecision(o, user, dir).Ok?
    ensures CancelDecision(o, user, dir).Ok? <==> o.buyerId == user.id && o.status == Pending
  {
  }

  /** A seller owning a product of an accepted order may cancel it
      explicitly, but not through a status update. */
  lemma SellerCancelAsymmetry(o: OrderRecord, user: Actor, dir: Directory)
    requires user.role == Seller && o.status == Accepted && Owns(user, o, dir)
    ensures CancelDecision(o, user, dir) == Ok(Canceled)
    ensures UpdateDecision(o, user, dir, Canceled) == Err(SellerTransitionDenied)
  {
  }

  /** Asking for pending to delivered is refused as a transition, even for
      an admin; a seller with a product in a pending order may accept it. */
  lemma UpdateExamples(o: OrderRecord, user: Actor, dir: Directory)
    requires o.status == Pending
    ensures UpdateDecision(o, user, dir, Delivered) == Err(InvalidTransition(Pending, Delivered))
    ensures user.role == Seller && Owns(user, o, dir) ==> UpdateDecision(o, user, dir, Accepted) == Ok(Accepted)
  {
  }

  /** An admin may make every move of the state machine and cancel every
      order that is not terminal, whoever owns it. */
  lemma AdminOverride(o: OrderRecord, user: Actor, dir: Directory, to: Status)
    requires user.role == Admin
    ensures UpdateDecision(o, user, dir, to).Ok? <==> IsValidTransition(o.status, to)
    ensures CancelDecision(o, user, dir).Ok? <==> !IsTerminal(o.status)
  {
  }

  /** Which refusal a valid move gets from a status update: a buyer asking
      for anything but canceled, a buyer owner whose order is no longer
      pending, a seller owner asking for a move outside the seller edges. */
  lemma UpdateRefusalReasons(o: OrderRecord, user: Actor, dir: Directory, to: Status)
    requires IsValidTransition(o.status, to)
    ensures user.role == Buyer && to != Canceled ==> UpdateDecision(o, user, dir, to) == Err(BuyerCanOnlyCancel)
    ensures user.role == Buyer && to == Canceled && Owns(user, o, dir) && o.status != Pending ==>
      UpdateDecision(o, user, dir, to) == Err(BuyerPendingOnly)
    ensures user.role == Seller && Owns(user, o, dir) && !UpdateAllowedFor(Seller, o.status, to) ==>
      UpdateDecision(o, user, dir, to) == Err(SellerTransitionDenied)
  {
  }

  /** Forbidden from an explicit cancellation means exactly: the actor is
      not an admin and fails the ownership check. */
  lemma CancelForbiddenIsOwnership(o: OrderRecord, user: Actor, dir: Directory)
    ensures CancelDecision(o, user, dir) == Err(Forbidden) <==> user.role != Admin && !Owns(user, o, dir)
  {
  }

  /** Which refusal an owner gets from an explicit cancellation: an admin on
      a terminal order, a buyer on an order that is no longer pending, a
      seller on a delivered or canceled order. */
  lemma CancelRefusalReasons(o: OrderRecord, user: Actor, dir: Directory)
    ensures user.role == Admin && IsTerminal(o.status) ==> CancelDecision(o, user, dir) == Err(NotCancelable)
    ensures user.role == Buyer && Owns(user, o, dir) && o.status != Pending ==>
      CancelDecision(o, user, dir) == Err(BuyerPendingOnly)
    ensures user.role == Seller && Owns(user, o, dir) && IsTerminal(o.status) ==>
      CancelDecision(o, user, dir) == Err(SellerCancelDenied)
  {
  }

  /** The HTTP code of every refusal. A status update answers 400 for an
      invalid move and for a buyer owner canceling an order that is no longer
      pending, and 403 for every other refusal. An explicit cancellation
      answers 403 when the actor fails the ownership check and 400 for
      every refusal of an owner. */
  lemma RefusalCodes(o: OrderRecord, user: Actor, dir: Directory, to: Status)
    ensures var r := UpdateDecision(o, user, dir, to);
      var ownerCanceling := user.role == Buyer && to == Canceled && Owns(user, o, dir);
      r.Err? ==> HttpStatus(r.error) == (if IsValidTransition(o.status, to) && !ownerCanceling then 403 else 400)
    ensures var c := CancelDecision(o, user, dir);
      c.Err? ==> HttpStatus(c.error) == (if Owns(user, o, dir) then 400 else 403)
  {
  }

  // ---------------------------------------------------------------------
  // Item validation at creation
  // ---------------------------------------------------------------------

  /** Whether every item names a product of the directory. */
  predicate AllExist(dir: Directory, items: seq<Item>) {
    forall i :: 0 <= i < |items| ==> items[i].productId in dir
  }

  /** Whether no product is named by two items. */
  predicate DistinctProducts(items: seq<Item>) {
    forall i, j :: 0 <= i < j < |items| ==> items[i].productId != items[j].productId
  }

  /** The distinct products the directory returns for the items' ids. */
  function FoundIds(items: seq<Item>, dir: Directory): (found: set<Id>)
    ensures forall p :: p in found <==> p in dir && exists i :: 0 <= i < |items| && items[i].productId == p
  {
    if items == [] then {}
    else
      var init := items[..|items| - 1];
      var last := items[|items| - 1].productId;
      var rest := FoundIds(init, dir);
      assert forall i :: 0 <= i < |init| ==> init[i] == items[i];
      rest + (if last in dir then {last} else {})
  }

  /** The directory never returns more products than there are items. */
  lemma {:induction false} FoundIdsAtMost(items: seq<Item>, dir: Directory)
    ensures |FoundIds(items, dir)| <= |items|
  {
    if items != [] {
      FoundIdsAtMost(items[..|items| - 1], dir);
    }
  }

  /** One more item adds its product to the found set when it exists. */
  lemma FoundIdsSnoc(items: seq<Item>, dir: Directory)
    requires items != []
    ensures var last := items[|items| - 1].productId;
      FoundIds(items, dir) == FoundIds(items[..|items| - 1], dir) + (if last in dir then {last} else {})
  {
  }

  /** Items that all resolve, to distinct products, find one product each. */
  lemma {:induction false} FoundAllWhenValid(items: seq<Item>, dir: Directory)
    requires AllExist(dir, items) && DistinctProducts(items)
    ensures |FoundIds(items, dir)| == |items|
  {
    if items != [] {
      var init := items[..|items| - 1];
      var last := items[|items| - 1].productId;
      assert forall i :: 0 <= i < |init| ==> init[i] == items[i];
      assert AllExist(dir, init) && DistinctProducts(init);
      FoundAllWhenValid(init, dir);
      FoundIdsSnoc(items, dir);
      assert forall i :: 0 <= i < |init| ==> init[i].productId != last;
    }
  }

  /** A full count of a non-empty list is a full count of all but its last
      item, plus a new product for the last one. */
  lemma FullCountStep(items: seq<Item>, dir: Directory)
    requires items != [] && |FoundIds(items, dir)| == |items|
    ensures var last := items[|items| - 1].productId;
      var before := FoundIds(items[..|items| - 1], dir);
      last in dir && last !in before && |before| == |items| - 1
  {
    var last := items[|items| - 1].productId;
    var before := FoundIds(items[..|items| - 1], dir);
    FoundIdsSnoc(items, dir);
    FoundIdsAtMost(items[..|items| - 1], dir);
    if last in dir && last !in before {
      assert FoundIds(items, dir) == before + {last};
    }
  }

  /** A full count means every item resolved and no product came twice. */
  lemma {:induction false} ValidWhenFoundAll(items: seq<Item>, dir: Directory)
    requires |FoundIds(items, dir)| == |items|
    ensures AllExist(dir, items) && DistinctProducts(items)
  {
    if items != [] {
      var init := items[..|items| - 1];
      FullCountStep(items, dir);
      ValidWhenFoundAll(init, dir);
      var before := FoundIds(init, dir);
      assert forall i :: 0 <= i < |init| ==> init[i].productId in before;
      assert forall i :: 0 <= i < |init| ==> init[i] == items[i];
      ExtendValidItems(items, dir);
    }
  }

  /** A valid item list stays valid when extended by an item whose product
      exists and is not named yet. */
  lemma ExtendValidItems(items: seq<Item>, dir: Directory)
    requires items != []
    requires AllExist(dir, items[..|items| - 1]) && DistinctProducts(items[..|items| - 1])
    requires items[|items| - 1].productId in dir
    requires forall i :: 0 <= i < |items| - 1 ==> items[i].productId != items[|items| - 1].productId
    ensures AllExist(dir, items) && DistinctProducts(items)
  {
    var init := items[..|items| - 1];
    assert forall i :: 0 <= i < |init| ==> init[i] == items[i];
  }

  /** The count check of creation: the directory returns as many products as
      there are items exactly when every item names an existing product and
      no product is named twice. */
  lemma FoundCountMatches(items: seq<Item>, dir: Directory)
    ensures |FoundIds(items, dir)| == |items| <==> AllExist(dir, items) && DistinctProducts(items)
  {
    if |FoundIds(items, dir)| == |items| {
      ValidWhenFoundAll(items, dir);
    }
    if AllExist(dir, items) && DistinctProducts(items) {
      FoundAllWhenValid(items, dir);
    }
  }

  /** The first item, in item order, whose product is unavailable. */
  function FindUnavailable(dir: Directory, items: seq<Item>): (r: Option<Id>)
    requires AllExist(dir, items)
    ensures r.None? <==> forall i :: 0 <= i < |items| ==> dir[items[i].productId].available
    ensures r.Some? ==>
      r.value in dir && !dir[r.value].available
      && exists i :: 0 <= i < |items| && items[i].productId == r.value
  {
    if items == [] then None
    else if !dir[items[0].productId].available then Some(items[0].productId)
    else
      var rest := FindUnavailable(dir, items[1..]);
      assert forall i :: 0 < i < |items| ==> items[i] == items[1..][i - 1];
      rest
  }

  /** Whether an item list passes every check of creation. */
  predicate ItemsAcceptable(dir: Directory, items: seq<Item>) {
    |items| > 0 && AllExist(dir, items) && DistinctProducts(items)
    && (forall i :: 0 <= i < |items| ==> dir[items[i].productId].available && items[i].quantity >= 1)
  }

  /** The verdict of creation's checks, in the order the service runs them:
      an empty list, then products that do not resolve, then an unavailable
      product, then a quantity below one. */
  function ItemsVerdict(dir: Directory, items: seq<Item>): (r: Option<Failure>)
    ensures r.None? <==> ItemsAcceptable(dir, items)
    ensures |items| == 0 ==> r == Some(ItemsRequired)
    ensures r.Some? && r.value.ProductUnavailable? ==>
      r.value.productId in dir && !dir[r.value.productId].available
  {
    if |items| == 0 then Some(ItemsRequired)
    else if !(AllExist(dir, items) && DistinctProducts(items)) then Some(ProductsMissing)
    else if FindUnavailable(dir, items).Some? then Some(ProductUnavailable(FindUnavailable(dir, items).value))
    else if exists i :: 0 <= i < |items| && items[i].quantity < 1 then Some(InvalidQuantity)
    else None
  }

  /** The loop over the items that stops at the first quantity below one. */
  method QuantitiesValid(items: seq<Item>) returns (ok: bool)
    ensures ok <==> forall i :: 0 <= i < |items| ==> items[i].quantity >= 1
  {
    for i := 0 to |items|
      invariant forall j :: 0 <= j < i ==> items[j].quantity >= 1
    {
      if items[i].quantity < 1 {
        return false;
      }
    }
    return true;
  }

  /** Validation of an item list against the directory, as creation runs
      it: a count of the products found, a search for an unavailable one and
      the loop over the quantities. */
  method ValidateItems(dir: Directory, items: seq<Item>) returns (err: Option<Failure>)
    ensures err == ItemsVerdict(dir, items)
  {
    if |items| == 0 {
      return Some(ItemsRequired);
    }
    FoundCountMatches(items, dir);
    if |FoundIds(items, dir)| != |items| {
      return Some(ProductsMissing);
    }
    assert AllExist(dir, items) && DistinctProducts(items);
    var unavailable := FindUnavailable(dir, items);
    if unavailable.Some? {
      return Some(ProductUnavailable(unavailable.value));
    }
    var quantitiesOk := QuantitiesValid(items);
    if !quantitiesOk {
      return Some(InvalidQuantity);
    }
    return None;
  }

  /** Two lines naming the same product are refused as if a product were
      missing, since the directory returns that product once. */
  lemma DuplicateProductsRefused(dir: Directory, items: seq<Item>, i: nat, j: nat)
    requires i < j < |items| && items[i].productId == items[j].productId
    ensures ItemsVerdict(dir, items) == Some(ProductsMissing)
  {
  }

  /** Creation on a one-line order of an existing product: accepted when the
      product is available and the quantity is positive, refused otherwise. */
  lemma CreationExamples(dir: Directory, p: Id, q: int)
    requires p in dir
    ensures ItemsVerdict(dir, []) == Some(ItemsRequired)
    ensures dir[p].available && q >= 1 ==> ItemsVerdict(dir, [Item(p, q)]) == None
    ensures !dir[p].available ==> ItemsVerdict(dir, [Item(p, q)]) == Some(ProductUnavailable(p))
    ensures dir[p].available && q < 1 ==> ItemsVerdict(dir, [Item(p, q)]) == Some(InvalidQuantity)
  {
  }

  /** What every stored order's items satisfy: at least one item, no
      product twice, every quantity at least one. */
  predicate StoredItems(items: seq<Item>) {
    |items| > 0 && DistinctProducts(items) && forall i :: 0 <= i < |items| ==> items[i].quantity >= 1
  }

  // ---------------------------------------------------------------------
  // Persistent state
  // ---------------------------------------------------------------------

  /** A stored order document. Only its status is ever written after
      creation. */
  class Order {
    const id: Id
    const buyerId: Id
    const items: seq<Item>
    var status: Status

    /** A new order is pending. */
    constructor (id: Id, buyerId: Id, items: seq<Item>)
      ensures View() == OrderRecord(id, buyerId, items, Pending)
    {
      this.id := id;
      this.buyerId := buyerId;
      this.items := items;
      this.status := Pending;
    }

    function View(): OrderRecord
      reads this
    {
      OrderRecord(id, buyerId, items, status)
    }
  }

  /** The order collection with the product directory it is validated
      against. Orders are keyed by the id the store assigned them. */
  class OrderStore {
    var orders: map<Id, Order>
    const products: Directory
    var nextId: Id

    /** Every order sits under its own id, below the next id to assign,
        and holds the non-empty, validated item list it was created with. */
    ghost predicate Valid()
      reads this
    {
      forall k :: k in orders ==> orders[k].id == k && k < nextId && StoredItems(orders[k].items)
    }

    /** The stored orders as values. */
    function Views(): (m: map<Id, OrderRecord>)
      reads this, orders.Values
      ensures m.Keys == orders.Keys
      ensures forall k :: k in m ==> m[k] == orders[k].View()
    {
      map k | k in orders :: orders[k].View()
    }

    constructor (products: Directory)
      ensures Valid() && this.products == products && Views() == map[]
    {
      this.products := products;
      orders := map[];
      nextId := 0;
    }

    /** Creation: validates the items and, when they pass, stores a new
        pending order of the buyer with exactly those items. On failure
        nothing is stored. */
    method CreateOrder(buyerId: Id, items: seq<Item>) returns (r: Result<OrderRecord, Failure>)
      requires Valid()
      modifies this
      ensures Valid()
      ensures r.Ok? <==> ItemsAcceptable(products, items)
      ensures r.Err? ==> Some(r.error) == ItemsVerdict(products, items) && Views() == old(Views())
      ensures r.Ok? ==>
        r.value.id !in old(orders) && r.value == OrderRecord(r.value.id, buyerId, items, Pending)
        && Views() == old(Views())[r.value.id := r.value]
    {
      var err := ValidateItems(products, items);
      if err.Some? {
        return Err(err.value);
      }
      var order := new Order(nextId, buyerId, items);
      orders := orders[nextId := order];
      nextId := nextId + 1;
      r := Ok(order.View());
    }

    /** Status update: loads the order, runs UpdateDecision and writes the
        new status. Nothing but that one status ever changes. */
    method UpdateStatus(orderId: Id, user: Actor, newStatus: Status) returns (r: Result<OrderRecord, Failure>)
      requires Valid()
      modifies if orderId in orders then {orders[orderId]} else {}
      ensures Valid()
      ensures orderId !in orders ==> r == Err(OrderNotFound) && Views() == old(Views())
      ensures orderId in orders ==>
        var before := old(orders[orderId].View());
        var decision := UpdateDecision(before, user, products, newStatus);
        (decision.Ok? ==> r == Ok(before.(status := decision.value))
                          && Views() == old(Views())[orderId := r.value])
        && (decision.Err? ==> r == Err(decision.error) && Views() == old(Views()))
    {
      if orderId !in orders {
        return Err(OrderNotFound);
      }
      var order := orders[orderId];
      var decision := UpdateDecision(order.View(), user, products, newStatus);
      if decision.Err? {
        return Err(decision.error);
      }
      order.status := decision.value;
      r := Ok(order.View());
    }

    /** Explicit cancellation: loads the order, runs CancelDecision and
        writes canceled. Nothing else ever changes. */
    method CancelOrder(orderId: Id, user: Actor) returns (r: Result<OrderRecord, Failure>)
      requires Valid()
      modifies if orderId in orders then {orders[orderId]} else {}
      ensures Valid()
      ensures orderId !in orders ==> r == Err(OrderNotFound) && Views() == old(Views())
      ensures orderId in orders ==>
        var before := old(orders[orderId].View());
        var decision := CancelDecision(before, user, products);
        (decision.Ok? ==> r == Ok(before.(status := Canceled))
                          && Views() == old(Views())[orderId := r.value])
        && (decision.Err? ==> r == Err(decision.error) && Views() == old(Views()))
    {
      if orderId !in orders {
        return Err(OrderNotFound);
      }
      var order := orders[orderId];
      var decision := CancelDecision(order.View(), user, products);
      if decision.Err? {
        return Err(decision.error);
      }
      order.status := decision.value;
      r := Ok(order.View());
    }

    /** Detail query: an admin sees every order, a buyer only their own, a
        seller only orders holding one of their products. */
    function GetOrderById(orderId: Id, user: Actor): (r: Result<OrderRecord, Failure>)
      reads this, orders.Values
      ensures orderId !in orders ==> r == Err(OrderNotFound)
      ensures orderId in orders ==>
        (r.Ok? <==> Owns(user, orders[orderId].View(), products))
        && (r.Ok? ==> r.value == orders[orderId].View())
        && (r.Err? ==> r == Err(Forbidden))
    {
      if orderId !in orders then Err(OrderNotFound)
      else
        var order := orders[orderId].View();
        match user.role
        case Admin => Ok(order)
        case Buyer => if order.buyerId != user.id then Err(Forbidden) else Ok(order)
        case Seller =>
          if !ContainsSellerProduct(order.items, CatalogueIds(products, user.id)) then Err(Forbidden)
          else Ok(order)
    }

    /** Listing query, run as a filter over the collection: all orders for
        an admin, the buyer's own for a buyer, the orders holding one of the
        seller's products for a seller. */
    function ListOrders(user: Actor): (listed: map<Id, OrderRecord>)
      reads this, orders.Values
      ensures forall k :: k in listed <==> k in orders && GetOrderById(k, user).Ok?
      ensures forall k :: k in listed ==> listed[k] == orders[k].View()
    {
      match user.role
      case Admin => Views()
      case Buyer => map k | k in orders && orders[k].buyerId == user.id :: orders[k].View()
      case Seller =>
        var mine := CatalogueIds(products, user.id);
        map k | k in orders && ContainsSellerProduct(orders[k].items, mine) :: orders[k].View()
    }
  }
}
