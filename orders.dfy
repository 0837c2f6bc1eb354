/** The order routes (apps/api/src/routes/orders.js): creating an order against the product
    stock, reading one order or a customer's orders, and the status update. */
module OrderRoutes {
  import opened Wrappers
  import opened Records

  /** One element of the request's `items` array. */
  datatype ItemRequest = ItemRequest(productId: string, quantity: int)

  /** The state of the item loop of POST /api/orders (lines 22-48): still running with the
      products as saved so far, the order lines and the running total; or stopped by an item,
      with the error reply and the products as they were saved before that item. */
  datatype RunState =
    | Running(products: map<string, Product>, lines: seq<OrderLine>, total: int)
    | Stopped(status: nat, message: string, products: map<string, Product>)

  /** One iteration: a missing product answers 404, too little stock 400; otherwise the line is
      recorded, the total grows by price times quantity, and the product's stock is decremented and
      saved at once. A stopped loop stays stopped. */
  function Step(st: RunState, item: ItemRequest): RunState {
    match st
    case Stopped(_, _, _) => st
    case Running(ps, lines, total) =>
      if item.productId !in ps then Stopped(404, "Product " + item.productId + " not found", ps)
      else
        var p := ps[item.productId];
        if p.stock < item.quantity then Stopped(400, "Insufficient stock for " + p.name, ps)
        else Running(
          ps[item.productId := p.(stock := p.stock - item.quantity)],
          lines + [OrderLine(item.productId, p.name, p.price, item.quantity)],
          total + p.price * item.quantity)
  }

  /** The loop over `items`, in order. */
  function Run(items: seq<ItemRequest>, products: map<string, Product>): RunState {
    if items == [] then Running(products, [], 0)
    else Step(Run(items[..|items| - 1], products), items[|items| - 1])
  }

  /** Sum of price times quantity over order lines. */
  function LinesTotal(lines: seq<OrderLine>): int {
    if lines == [] then 0 else lines[0].price * lines[0].quantity + LinesTotal(lines[1..])
  }

  lemma {:induction false} LinesTotalAppend(lines: seq<OrderLine>, l: OrderLine)
    ensures LinesTotal(lines + [l]) == LinesTotal(lines) + l.price * l.quantity
  {
    if lines != [] {
      assert (lines + [l])[1..] == lines[1..] + [l];
      LinesTotalAppend(lines[1..], l);
    }
  }

  /** Sum of the quantities requested for product `id`. */
  function Requested(items: seq<ItemRequest>, id: string): int {
    if items == [] then 0
    else Requested(items[..|items| - 1], id) + (if items[|items| - 1].productId == id then items[|items| - 1].quantity else 0)
  }

  /** When every item passes, the order lines mirror the items in order, each with the name and
      price its product had before the request. */
  lemma {:induction false} RunLines(items: seq<ItemRequest>, ps: map<string, Product>)
    requires Run(items, ps).Running?
    ensures var r := Run(items, ps);
      && |r.lines| == |items|
      && (forall k :: 0 <= k < |items| ==>
            r.lines[k].productId == items[k].productId && r.lines[k].quantity == items[k].quantity
            && items[k].productId in ps && r.lines[k].name == ps[items[k].productId].name
            && r.lines[k].price == ps[items[k].productId].price)
      && r.products.Keys == ps.Keys
      && (forall id :: id in ps ==> r.products[id].name == ps[id].name && r.products[id].price == ps[id].price)
  {
    if items != [] {
      var init := items[..|items| - 1];
      RunLines(init, ps);
      assert forall k :: 0 <= k < |init| ==> init[k] == items[k];
    }
  }

  /** When every item passes, the total is the sum of price times quantity over the order lines. */
  lemma {:induction false} RunTotal(items: seq<ItemRequest>, ps: map<string, Product>)
    requires Run(items, ps).Running?
    ensures Run(items, ps).total == LinesTotal(Run(items, ps).lines)
  {
    if items != [] {
      var init := items[..|items| - 1];
      var item := items[|items| - 1];
      var prev := Run(init, ps);
      RunTotal(init, ps);
      LinesTotalAppend(prev.lines, OrderLine(item.productId, prev.products[item.productId].name,
        prev.products[item.productId].price, item.quantity));
    }
  }

  /** When every item passes, each product's stock went down by exactly the quantity requested of
      it, and nothing else about any product changed. */
  lemma {:induction false} RunStock(items: seq<ItemRequest>, ps: map<string, Product>)
    requires Run(items, ps).Running?
    ensures var r := Run(items, ps);
      && r.products.Keys == ps.Keys
      && forall id :: id in ps ==> r.products[id] == ps[id].(stock := ps[id].stock - Requested(items, id))
  {
    if items != [] {
      var init := items[..|items| - 1];
      RunStock(init, ps);
    }
  }

  /** Processing stops at the first item that fails, and its reply is that item's; the stock
      saved for the items before it stays decremented. */
  lemma {:induction false} RunStops(items: seq<ItemRequest>, ps: map<string, Product>)
    requires Run(items, ps).Stopped?
    ensures exists k ::
              && 0 <= k < |items| && Run(items[..k], ps).Running?
              && Step(Run(items[..k], ps), items[k]).Stopped?
              && Run(items, ps) == Step(Run(items[..k], ps), items[k])
              && Run(items, ps).products == Run(items[..k], ps).products
  {
    var init := items[..|items| - 1];
    assert items[..|items| - 1] == init;
    if Run(init, ps).Stopped? {
      RunStops(init, ps);
      var k :| 0 <= k < |init| && Run(init[..k], ps).Running?
        && Step(Run(init[..k], ps), init[k]).Stopped?
        && Run(init, ps) == Step(Run(init[..k], ps), init[k])
        && Run(init, ps).products == Run(init[..k], ps).products;
      assert init[..k] == items[..k] && init[k] == items[k];
    } else {
      assert Run(items, ps) == Step(Run(items[..|items| - 1], ps), items[|items| - 1]);
    }
  }

  /** Once one item has failed, later items change nothing. */
  lemma {:induction false} RunStaysStopped(items: seq<ItemRequest>, ps: map<string, Product>, i: nat)
    requires i <= |items| && Run(items[..i], ps).Stopped?
    ensures Run(items, ps) == Run(items[..i], ps)
    decreases |items| - i
  {
    if i < |items| {
      assert items[..i + 1][..i] == items[..i];
      RunStaysStopped(items, ps, i + 1);
    } else {
      assert items[..i] == items;
    }
  }

  /** The order document a successful POST saves: PENDING, no shipping fields yet. */
  function NewOrder(customerId: string, lines: seq<OrderLine>, total: int, now: Date): (o: Order)
    ensures o.status == PENDING && o.items == lines && o.total == total && o.customerId == customerId
    ensures o.carrier.None? && o.trackingNumber.None? && o.estimatedDelivery.None?
  {
    Order(customerId, lines, total, PENDING, None, None, None, now, now)
  }

  /** POST /api/orders (lines 7-68). The customer id must be present and `items` a non-empty array
      (`None` stands for a missing or non-array value), else 400; an unknown customer gives 404.
      The items are then processed in order as `Run` describes, each accepted item's stock saved
      at once; on success the order is saved under `newId`, a fresh id as the store generates, and answered 201. */
  method CreateOrder(db: Database, customerId: Option<string>, items: Option<seq<ItemRequest>>, newId: string, now: Date)
    returns (r: Reply<Order>)
    requires newId !in db.orders
    modifies db`products, db`orders
    ensures db.customers == old(db.customers)
    ensures !Truthy(customerId) || items.None? || items.value == [] ==>
      r == Err(400, "Customer ID and items are required") && db.products == old(db.products) && db.orders == old(db.orders)
    ensures Truthy(customerId) && items.Some? && items.value != [] && customerId.value !in db.customers ==>
      r == Err(404, "Customer not found") && db.products == old(db.products) && db.orders == old(db.orders)
    ensures Truthy(customerId) && items.Some? && items.value != [] && customerId.value in db.customers ==>
      match Run(items.value, old(db.products))
      case Stopped(code, message, products) =>
        r == Err(code, message) && db.products == products && db.orders == old(db.orders)
      case Running(products, lines, total) =>
        && r == Ok(201, NewOrder(customerId.value, lines, total, now))
        && db.products == products && db.orders == old(db.orders)[newId := r.value]
  {
    if !Truthy(customerId) || items.None? || items.value == [] {
      return Err(400, "Customer ID and items are required");
    }
    if customerId.value !in db.customers {
      return Err(404, "Customer not found");
    }
    var xs := items.value;
    var total := 0;
    var orderItems: seq<OrderLine> := [];
    var i := 0;
    while i < |xs|
      invariant 0 <= i <= |xs|
      invariant Run(xs[..i], old(db.products)) == Running(db.products, orderItems, total)
      invariant db.orders == old(db.orders) && db.customers == old(db.customers)
    {
      var item := xs[i];
      assert xs[..i + 1][..i] == xs[..i] && xs[..i + 1][i] == item;
      if item.productId !in db.products {
        RunStaysStopped(xs, old(db.products), i + 1);
        return Err(404, "Product " + item.productId + " not found");
      }
      var product := db.products[item.productId];
      if product.stock < item.quantity {
        RunStaysStopped(xs, old(db.products), i + 1);
        return Err(400, "Insufficient stock for " + product.name);
      }
      total := total + product.price * item.quantity;
      orderItems := orderItems + [OrderLine(item.productId, product.name, product.price, item.quantity)];
      db.products := db.products[item.productId := product.(stock := product.stock - item.quantity)];
      i := i + 1;
    }
    assert xs[..i] == xs;
    var order := NewOrder(customerId.value, orderItems, total, now);
    db.orders := db.orders[newId := order];
    r := Ok(201, order);
  }

  /** GET /api/orders/:id (lines 71-85). */
  function GetOrder(orders: map<string, Order>, id: string): (r: Reply<Order>)
    ensures id in orders <==> r.Ok?
    ensures r.Ok? ==> r.status == 200 && r.value == orders[id]
    ensures r.Err? ==> r == Err(404, "Order not found")
  {
    if id in orders then Ok(200, orders[id]) else Err(404, "Order not found")
  }

  /** GET /api/orders?customerId= (lines 88-105): 400 without a customer id, else the ids of exactly
      that customer's orders. */
  function ListOrders(orders: map<string, Order>, customerId: Option<string>): (r: Reply<set<string>>)
    ensures !Truthy(customerId) <==> r == Err(400, "Customer ID is required")
    ensures Truthy(customerId) ==> r.Ok?
    ensures r.Ok? ==> r.status == 200 && forall id :: id in r.value <==> id in orders && orders[id].customerId == customerId.value
  {
    if !Truthy(customerId) then Err(400, "Customer ID is required")
    else Ok(200, set id | id in orders && orders[id].customerId == customerId.value)
  }

  /** The body of PUT /api/orders/:id/status; `estimatedDelivery` is the date it parses to. */
  datatype StatusBody = StatusBody(
    status: Option<string>, carrier: Option<string>, trackingNumber: Option<string>, estimatedDelivery: Option<Date>)

  /** The reply of PUT /api/orders/:id/status (lines 108-138) and the order it saves: a missing
      status and one outside the enumeration give 400 before the order is looked up, an unknown
      order 404. Any valid status is written, earlier ones included; carrier, tracking number and
      estimated delivery are overwritten only by truthy values; everything else is kept. */
  function StatusUpdate(orders: map<string, Order>, id: string, body: StatusBody, now: Date): (r: Reply<Order>)
    ensures !Truthy(body.status) ==> r == Err(400, "Status is required")
    ensures Truthy(body.status) && body.status.value !in Lifecycle ==> r == Err(400, "Invalid status")
    ensures Truthy(body.status) && body.status.value in Lifecycle && id !in orders ==> r == Err(404, "Order not found")
    ensures Truthy(body.status) && body.status.value in Lifecycle && id in orders ==> r.Ok?
    ensures r.Ok? ==>
      && id in orders && r.status == 200
      && var o := orders[id]; var n := r.value;
      && n.status == body.status.value && n.status in Lifecycle && n.updatedAt == now
      && n.carrier == (if Truthy(body.carrier) then body.carrier else o.carrier)
      && n.trackingNumber == (if Truthy(body.trackingNumber) then body.trackingNumber else o.trackingNumber)
      && n.estimatedDelivery == (if body.estimatedDelivery.Some? then body.estimatedDelivery else o.estimatedDelivery)
      && n.customerId == o.customerId && n.items == o.items && n.total == o.total && n.createdAt == o.createdAt
  {
    if !Truthy(body.status) then Err(400, "Status is required")
    else if body.status.value !in Lifecycle then Err(400, "Invalid status")
    else if id !in orders then Err(404, "Order not found")
    else
      var o := orders[id];
      Ok(200, o.(
        status := body.status.value,
        carrier := if Truthy(body.carrier) then body.carrier else o.carrier,
        trackingNumber := if Truthy(body.trackingNumber) then body.trackingNumber else o.trackingNumber,
        estimatedDelivery := if body.estimatedDelivery.Some? then body.estimatedDelivery else o.estimatedDelivery,
        updatedAt := now))
  }

  /** There is no forward-only check: a delivered order can be set back to PENDING. */
  lemma StatusMayGoBack(orders: map<string, Order>, id: string, now: Date)
    requires id in orders && orders[id].status == DELIVERED
    ensures var r := StatusUpdate(orders, id, StatusBody(Some(PENDING), None, None, None), now);
      r.Ok? && r.value.status == PENDING
  {}

  /** PUT /api/orders/:id/status: saves the updated order when the reply is a success. */
  method UpdateOrderStatus(db: Database, id: string, body: StatusBody, now: Date) returns (r: Reply<Order>)
    modifies db`orders
    ensures r == StatusUpdate(old(db.orders), id, body, now)
    ensures db.orders == if r.Ok? then old(db.orders)[id := r.value] else old(db.orders)
  {
    r := StatusUpdate(db.orders, id, body, now);
    if r.Ok? {
      db.orders := db.orders[id := r.value];
    }
  }
}
