/** The seller's public profile: the seller's catalogue and a sales history
    built from the orders that hold the seller's products, with every order
    cut down to the seller's own items. */
module SellerService {
  import opened Domain
  import OrderService

  /** The seller id as it arrives in the request: either a well-formed
      object id or text that is not one. */
  datatype SellerIdInput = WellFormed(id: Id) | Malformed(text: string)

  /** An order as the sales history shows it: its id, its status and the
      seller's items only. */
  datatype SaleOrder = SaleOrder(id: Id, status: Status, items: seq<Item>)

  datatype SalesStats = SalesStats(ordersCount: nat, itemsSold: int, deliveredCount: nat)

  datatype Profile = Profile(sellerId: Id, products: Directory, stats: SalesStats, orders: seq<SaleOrder>)

  /** The items of an order whose product is one of the seller's, in order. */
  function SellerItems(items: seq<Item>, productIds: set<Id>): (kept: seq<Item>)
    ensures |kept| <= |items|
    ensures forall it :: it in kept <==> it in items && it.productId in productIds
  {
    if items == [] then []
    else (if items[0].productId in productIds then [items[0]] else []) + SellerItems(items[1..], productIds)
  }

  /** Filtering keeps the original order: the kept items of a concatenation
      are the kept items of each part, one after the other. */
  lemma {:induction false} SellerItemsAppend(a: seq<Item>, b: seq<Item>, productIds: set<Id>)
    ensures SellerItems(a + b, productIds) == SellerItems(a, productIds) + SellerItems(b, productIds)
  {
    if a != [] {
      assert (a + b)[1..] == a[1..] + b;
      SellerItemsAppend(a[1..], b, productIds);
    } else {
      assert a + b == b;
    }
  }

  /** The total quantity of a list of items. */
  function Quantity(items: seq<Item>): int {
    if items == [] then 0 else items[0].quantity + Quantity(items[1..])
  }

  lemma {:induction false} QuantityAppend(a: seq<Item>, b: seq<Item>)
    ensures Quantity(a + b) == Quantity(a) + Quantity(b)
  {
    if a != [] {
      assert (a + b)[1..] == a[1..] + b;
      QuantityAppend(a[1..], b);
    } else {
      assert a + b == b;
    }
  }

  /** The orders the collection returns for the seller's product ids. */
  function MatchingOrders(orders: seq<OrderRecord>, productIds: set<Id>): (matching: seq<OrderRecord>)
    ensures |matching| <= |orders|
    ensures forall o :: o in matching <==>
      o in orders && OrderService.ContainsSellerProduct(o.items, productIds)
  {
    if orders == [] then []
    else
      (if OrderService.ContainsSellerProduct(orders[0].items, productIds) then [orders[0]] else [])
      + MatchingOrders(orders[1..], productIds)
  }

  /** The query keeps the collection's order: the matching orders of a
      concatenation are those of each part, one after the other. */
  lemma {:induction false} MatchingOrdersAppend(a: seq<OrderRecord>, b: seq<OrderRecord>, productIds: set<Id>)
    ensures MatchingOrders(a + b, productIds) == MatchingOrders(a, productIds) + MatchingOrders(b, productIds)
  {
    if a != [] {
      assert (a + b)[1..] == a[1..] + b;
      MatchingOrdersAppend(a[1..], b, productIds);
    } else {
      assert a + b == b;
    }
  }

  /** A seller without products matches no order. */
  lemma {:induction false} NoProductsNoMatches(orders: seq<OrderRecord>)
    ensures MatchingOrders(orders, {}) == []
  {
    if orders != [] {
      NoProductsNoMatches(orders[1..]);
    }
  }

  /** Quantities sold by the seller over a list of orders, counting only the
      seller's items. */
  function ItemsSold(orders: seq<OrderRecord>, productIds: set<Id>): int {
    if orders == [] then 0
    else
      ItemsSold(orders[..|orders| - 1], productIds)
      + Quantity(SellerItems(orders[|orders| - 1].items, productIds))
  }

  /** The number of delivered orders in a list. */
  function DeliveredCount(orders: seq<OrderRecord>): (n: nat)
    ensures n <= |orders|
  {
    if orders == [] then 0
    else DeliveredCount(orders[..|orders| - 1]) + (if orders[|orders| - 1].status == Delivered then 1 else 0)
  }

  /** Every item of every order, one order after the other. */
  function AllItems(orders: seq<OrderRecord>): seq<Item> {
    if orders == [] then [] else AllItems(orders[..|orders| - 1]) + orders[|orders| - 1].items
  }

  /** Items sold is the total quantity of the seller's items across all the
      orders; items of other sellers in the same orders never count. */
  lemma {:induction false} ItemsSoldIsSellerQuantity(orders: seq<OrderRecord>, productIds: set<Id>)
    ensures ItemsSold(orders, productIds) == Quantity(SellerItems(AllItems(orders), productIds))
  {
    if orders != [] {
      var init := orders[..|orders| - 1];
      var last := orders[|orders| - 1].items;
      ItemsSoldIsSellerQuantity(init, productIds);
      SellerItemsAppend(AllItems(init), last, productIds);
      QuantityAppend(SellerItems(AllItems(init), productIds), SellerItems(last, productIds));
    }
  }

  /** An order as the history shows it. */
  function SaleView(o: OrderRecord, productIds: set<Id>): SaleOrder {
    SaleOrder(o.id, o.status, SellerItems(o.items, productIds))
  }

  /** The history entries of a list of orders, one per order, in order. */
  function SaleViews(orders: seq<OrderRecord>, productIds: set<Id>): (views: seq<SaleOrder>)
    ensures |views| == |orders|
    ensures forall i :: 0 <= i < |orders| ==> views[i] == SaleView(orders[i], productIds)
  {
    if orders == [] then []
    else SaleViews(orders[..|orders| - 1], productIds) + [SaleView(orders[|orders| - 1], productIds)]
  }

  /** One more order adds its seller quantity to the items sold and counts
      once more if delivered. */
  lemma FoldStep(orders: seq<OrderRecord>, i: nat, productIds: set<Id>)
    requires i < |orders|
    ensures ItemsSold(orders[..i + 1], productIds)
      == ItemsSold(orders[..i], productIds) + Quantity(SellerItems(orders[i].items, productIds))
    ensures DeliveredCount(orders[..i + 1])
      == DeliveredCount(orders[..i]) + (if orders[i].status == Delivered then 1 else 0)
    ensures SaleViews(orders[..i + 1], productIds) == SaleViews(orders[..i], productIds) + [SaleView(orders[i], productIds)]
  {
    assert orders[..i + 1][..i] == orders[..i];
  }

  /** The fold over the matching orders: cuts each order down to the
      seller's items and accumulates the quantities sold and the number of
      delivered orders. */
  method SalesHistory(orders: seq<OrderRecord>, productIds: set<Id>) returns (sales: seq<SaleOrder>, stats: SalesStats)
    ensures |sales| == |orders| == stats.ordersCount
    ensures sales == SaleViews(orders, productIds)
    ensures stats.itemsSold == ItemsSold(orders, productIds)
    ensures stats.deliveredCount == DeliveredCount(orders) <= stats.ordersCount
  {
    var itemsSold := 0;
    var deliveredCount := 0;
    sales := [];
    var i := 0;
    while i < |orders|
      invariant 0 <= i <= |orders|
      invariant sales == SaleViews(orders[..i], productIds)
      invariant itemsSold == ItemsSold(orders[..i], productIds)
      invariant deliveredCount == DeliveredCount(orders[..i])
    {
      var o := orders[i];
      var itemsForSeller := SellerItems(o.items, productIds);
      FoldStep(orders, i, productIds);
      if o.status == Delivered {
        deliveredCount := deliveredCount + 1;
      }
      itemsSold := itemsSold + Quantity(itemsForSeller);
      sales := sales + [SaleOrder(o.id, o.status, itemsForSeller)];
      assert SaleOrder(o.id, o.status, itemsForSeller) == SaleView(o, productIds);
      i := i + 1;
    }
    assert orders[..i] == orders;
    stats := SalesStats(|sales|, itemsSold, deliveredCount);
  }

  /** The public profile of a seller: refused for an ill-formed id and for an
      id that is not a seller's; otherwise the seller's catalogue and the
      sales history over the orders holding the seller's products. */
  method GetSellerPublicProfile(sellerId: SellerIdInput, users: map<Id, Role>, products: Directory, orders: seq<OrderRecord>)
    returns (r: Result<Profile, Failure>)
    ensures sellerId.Malformed? ==> r == Err(InvalidSellerId)
    ensures sellerId.WellFormed? && !(sellerId.id in users && users[sellerId.id] == Seller) ==>
      r == Err(SellerNotFound)
    ensures sellerId.WellFormed? && sellerId.id in users && users[sellerId.id] == Seller ==> r.Ok?
    ensures r.Ok? ==>
      sellerId.WellFormed? && sellerId.id in users && users[sellerId.id] == Seller
      && r.value.sellerId == sellerId.id
      && r.value.products == map p | p in products && products[p].sellerId == sellerId.id :: products[p]
    ensures r.Ok? ==>
      var productIds := r.value.products.Keys;
      var matching := MatchingOrders(orders, productIds);
      && r.value.stats.ordersCount == |r.value.orders| == |matching|
      && r.value.orders == SaleViews(matching, productIds)
      && r.value.stats.itemsSold == ItemsSold(matching, productIds)
      && r.value.stats.deliveredCount == DeliveredCount(matching) <= r.value.stats.ordersCount
    ensures r.Ok? && r.value.products == map[] ==>
      r.value.stats == SalesStats(0, 0, 0) && r.value.orders == []
  {
    if sellerId.Malformed? {
      return Err(InvalidSellerId);
    }
    var id := sellerId.id;
    if !(id in users && users[id] == Seller) {
      return Err(SellerNotFound);
    }
    var catalogue := map p | p in products && products[p].sellerId == id :: products[p];
    var productIds := catalogue.Keys;
    if productIds != {} {
      var matching := MatchingOrders(orders, productIds);
      var sales, stats := SalesHistory(matching, productIds);
      return Ok(Profile(id, catalogue, stats, sales));
    }
    NoProductsNoMatches(orders);
    return Ok(Profile(id, catalogue, SalesStats(0, 0, 0), []));
  }

  /** The sales figures of a seller owning products 1 and 2, with one
      pending order of product 1 (quantity 2) and of another seller's
      product 3 (quantity 5), and one delivered order of product 2
      (quantity 3). */
  lemma SalesExample()
    ensures var pids := {1, 2};
      var a := OrderRecord(10, 7, [Item(1, 2), Item(3, 5)], Pending);
      var b := OrderRecord(11, 8, [Item(2, 3)], Delivered);
      && MatchingOrders([a, b], pids) == [a, b]
      && ItemsSold([a, b], pids) == 5
      && DeliveredCount([a, b]) == 1
      && SellerItems(a.items, pids) == [Item(1, 2)]
  {
    var pids := {1, 2};
    var a := OrderRecord(10, 7, [Item(1, 2), Item(3, 5)], Pending);
    var b := OrderRecord(11, 8, [Item(2, 3)], Delivered);
    assert [a, b][..1] == [a];
    assert [a][..0] == [];
    assert SellerItems(a.items, pids) == [Item(1, 2)];
    assert SellerItems(b.items, pids) == [Item(2, 3)];
    assert Quantity([Item(1, 2)]) == 2;
    assert ItemsSold([a], pids) == 2;
  }
}
