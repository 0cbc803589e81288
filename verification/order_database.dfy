/**
 * The order and product collections as one mutable store, with the routes
 * that change them. Each method runs as a transaction: it reads the state,
 * writes provisionally, and on abort puts back the state it started from.
 */
module OrderDatabase {
  import opened Wrappers
  import opened ProductSchema
  import opened OrderSchema
  import opened Store
  import opened StockUpdate
  import opened StatusUpdate
  import opened OrderCreation

  class Database {
    var orders: seq<Order>
    var products: map<ProductId, Product>

    /** The store's contents as a value. */
    function State(): Snapshot
      reads this
    {
      Snapshot(orders, products)
    }

    constructor ()
      ensures State() == Snapshot([], map[])
      ensures ValidDb(State()) && NonNegativeStock(products)
    {
      orders := [];
      products := map[];
    }

    /** Inserting a product through the unique index on `productId`. */
    method AddProduct(p: Product) returns (added: bool)
      modifies this
      ensures added <==> p.productId !in old(products)
      ensures Some(products) == (if added then InsertProduct(old(products), p) else Some(old(products)))
      ensures orders == old(orders)
    {
      added := p.productId !in products;
      if added {
        products := products[p.productId := p];
      }
    }

    /** `POST /`. */
    method CreateOrder(body: OrderBody, orderId: string, id: ObjectId) returns (r: CreateResponse)
      modifies this
      ensures CreateOutcome(r, State()) == CreateOrderSpec(old(State()), body, orderId, id)
    {
      var errors := ValidationErrors(body);
      if errors != [] {
        return BadRequest(errors);
      }
      var status := InitialStatus(body.status);
      if status.None? {
        return CreateResponse.InvalidStatus;
      }
      if KeyTaken(orders, orderId, id) {
        return DuplicateKey;
      }
      var order := Order(id, orderId, status.value, body.user.value, body.shippingAddress.GetOr(NoAddress),
                         body.items.value, body.totalAmount.value, body.payment.GetOr(NoPayment));
      orders := orders + [order];
      r := Created(order);
    }

    /**
     * `PUT /:id/status`. The order is rewritten in place before the item loop
     * runs; the loop decrements one product counter per item, and the first
     * item that cannot be served aborts the transaction, restoring both
     * collections.
     */
    method UpdateStatus(id: ObjectId, status: Option<string>, paymentId: Option<string>) returns (r: Response)
      modifies this
      ensures Outcome(r, State()) == UpdateStatusSpec(old(State()), id, status, paymentId)
    {
      var saved := State();
      var found := FindOrder(orders, id);
      if found.None? {
        return NotFound;
      }
      var i := found.value;
      var order := orders[i];
      if !Truthy(paymentId) {
        var s := RequestedStatus(status);
        if s.None? {
          return Response.InvalidStatus;
        }
        order := order.(status := s.value);
        orders := orders[i := order];
        return Updated(order);
      }
      if HasPaymentId(order) {
        return AlreadyProcessed;
      }
      var s := ConfirmationStatus(status);
      if s.None? {
        return Response.InvalidStatus;
      }
      order := order.(status := s.value, payment := PaidWith(paymentId.value));
      orders := orders[i := order];
      var short := DecrementItems(order.items);
      if short.Some? {
        orders := saved.orders;
        return InsufficientStock(short.value);
      }
      r := Updated(order);
    }

    /**
     * The item loop of the payment path: one conditional decrement per item, in
     * listed order. When an item's product is missing or short, the counters
     * are put back as they were and that product is named.
     */
    method DecrementItems(items: seq<LineItem>) returns (short: Option<ProductId>)
      modifies this`products
      ensures short.None? ==> ApplyItems(items, old(products)) == Applied(products)
      ensures short.None? ==> products.Keys == old(products).Keys
      ensures short.None? ==> forall p :: p in products ==> products[p].stock == old(products)[p].stock - Demand(items, p)
      ensures short.Some? ==> ApplyItems(items, old(products)) == Short(short.value) && products == old(products)
    {
      var saved := products;
      var k := 0;
      while k < |items|
        invariant 0 <= k <= |items|
        invariant ApplyItems(items, saved) == ApplyItems(items[k..], products)
        invariant products.Keys == saved.Keys
        invariant forall p :: p in products ==> products[p].stock == saved[p].stock - Demand(items[..k], p)
      {
        var item := items[k];
        var next := ConditionalDecrement(products, item.productId, item.quantity);
        if next.None? {
          products := saved;
          return Some(item.productId);
        }
        DecrementStep(items, k, saved, products, next.value);
        products := next.value;
        k := k + 1;
      }
      assert items[..k] == items;
      short := None;
    }
  }
}
