/**
 * `PUT /:id/status`: the order status / payment-confirmation transition over
 * the order and product collections, as one transaction. Without a payment
 * reference it sets the status only; with one it refuses an order that already
 * carries a payment reference, records the payment, and decrements the stock of
 * every line item, discarding every change if any item cannot be served.
 */
module StatusUpdate {
  import opened Wrappers
  import opened ProductSchema
  import opened OrderSchema
  import opened Store
  import opened StockUpdate
  import opened OrderQueries

  datatype Response =
    | Updated(order: Order)
    | NotFound
    | AlreadyProcessed
    | InvalidStatus
    | InsufficientStock(productId: ProductId)

  /** What the caller sees, and the state the transaction leaves behind. */
  datatype Outcome = Outcome(response: Response, after: Snapshot)

  /** The payment record written on confirmation. */
  function PaidWith(paymentId: string): Payment {
    Payment(Some("Razorpay"), Some("Paid"), Some(paymentId))
  }

  /**
   * The status the status-only path writes: the requested text when it names a
   * status; a missing or unknown text is rejected (see StatusOnlyAsWritten).
   */
  function RequestedStatus(status: Option<string>): (r: Option<Status>)
    ensures r.Some? <==> status.Some? && ParseStatus(status.value).Some?
    ensures r.Some? ==> StatusName(r.value) == status.value
  {
    if status.None? then None else ParseStatus(status.value)
  }

  /** `status || "Confirmed"`, then the enum validator. */
  function ConfirmationStatus(status: Option<string>): (r: Option<Status>)
    ensures !Truthy(status) ==> r == Some(Confirmed)
    ensures Truthy(status) ==> (r.Some? <==> ParseStatus(status.value).Some?)
    ensures Truthy(status) && r.Some? ==> StatusName(r.value) == status.value
  {
    if Truthy(status) then ParseStatus(status.value) else Some(Confirmed)
  }

  /**
   * The transition. Errors abort the transaction, so they leave the snapshot as
   * it was; success rewrites the found order in place (and, on the payment path,
   * the product counters).
   */
  function UpdateStatusSpec(db: Snapshot, id: ObjectId, status: Option<string>, paymentId: Option<string>): (r: Outcome)
    ensures !r.response.Updated? ==> r.after == db
    ensures r.response.NotFound? <==> FindOrder(db.orders, id).None?
    ensures r.response.AlreadyProcessed? <==>
      Truthy(paymentId) && FindOrder(db.orders, id).Some? && HasPaymentId(db.orders[FindOrder(db.orders, id).value])
    ensures r.response.InvalidStatus? <==>
      FindOrder(db.orders, id).Some? &&
      if !Truthy(paymentId) then RequestedStatus(status).None?
      else !HasPaymentId(db.orders[FindOrder(db.orders, id).value]) && ConfirmationStatus(status).None?
    ensures r.response.Updated? ==>
      var i := FindOrder(db.orders, id).value;
      && r.response.order.id == id
      && r.response.order.orderId == db.orders[i].orderId
      && r.response.order.items == db.orders[i].items
      && r.response.order == db.orders[i].(status := r.response.order.status, payment := r.response.order.payment)
      && r.after.orders == db.orders[i := r.response.order]
  {
    match FindOrder(db.orders, id)
    case None => Outcome(NotFound, db)
    case Some(i) =>
      var order := db.orders[i];
      if !Truthy(paymentId) then
        match RequestedStatus(status)
        case None => Outcome(InvalidStatus, db)
        case Some(s) =>
          var updated := order.(status := s);
          Outcome(Updated(updated), db.(orders := db.orders[i := updated]))
      else if HasPaymentId(order) then
        Outcome(AlreadyProcessed, db)
      else
        match ConfirmationStatus(status)
        case None => Outcome(InvalidStatus, db)
        case Some(s) =>
          var updated := order.(status := s, payment := PaidWith(paymentId.value));
          match ApplyItems(order.items, db.products)
          case Short(p) => Outcome(InsufficientStock(p), db)
          case Applied(products) => Outcome(Updated(updated), Snapshot(db.orders[i := updated], products))
  }

  /**
   * Status-only path: the product collection is untouched, and the order keeps
   * everything but its status; a missing or unknown status is rejected.
   */
  lemma StatusOnlyChangesOnlyStatus(db: Snapshot, id: ObjectId, status: Option<string>, paymentId: Option<string>)
    requires !Truthy(paymentId)
    ensures var r := UpdateStatusSpec(db, id, status, paymentId);
      && r.after.products == db.products
      && (r.response.Updated? <==> FindOrder(db.orders, id).Some? && RequestedStatus(status).Some?)
      && (r.response.Updated? ==>
            var i := FindOrder(db.orders, id).value;
            r.response.order == db.orders[i].(status := RequestedStatus(status).value))
  {
  }

  /** Idempotency guard: an order that already carries a payment reference refuses another, changing nothing. */
  lemma DuplicatePaymentRejected(db: Snapshot, id: ObjectId, status: Option<string>, paymentId: Option<string>)
    requires Truthy(paymentId)
    requires FindOrder(db.orders, id).Some? && HasPaymentId(db.orders[FindOrder(db.orders, id).value])
    ensures UpdateStatusSpec(db, id, status, paymentId) == Outcome(AlreadyProcessed, db)
  {
  }

  /**
   * A successful confirmation: the status is the requested one (or Confirmed
   * when none is given), the payment is exactly {Razorpay, Paid, paymentId},
   * every other field of the order is kept, the items were satisfiable, each product's stock fell by exactly the quantity
   * its items ask for, no named product ends below zero, and nothing else about
   * any product changed.
   */
  lemma ConfirmationEffect(db: Snapshot, id: ObjectId, status: Option<string>, paymentId: Option<string>)
    requires Truthy(paymentId)
    requires UpdateStatusSpec(db, id, status, paymentId).response.Updated?
    ensures var r := UpdateStatusSpec(db, id, status, paymentId);
      var o := r.response.order;
      && Some(o.status) == ConfirmationStatus(status)
      && o.payment == PaidWith(paymentId.value)
      && o == db.orders[FindOrder(db.orders, id).value].(status := o.status, payment := o.payment)
      && Sufficient(o.items, db.products)
      && r.after.products.Keys == db.products.Keys
      && (forall p :: p in db.products ==>
            r.after.products[p] == db.products[p].(stock := db.products[p].stock - Demand(o.items, p)))
      && (forall k :: 0 <= k < |o.items| ==> r.after.products[o.items[k].productId].stock >= 0)
  {
    var i := FindOrder(db.orders, id).value;
    var items := db.orders[i].items;
    ApplyItemsSucceedsIff(items, db.products);
    ApplyItemsEffect(items, db.products);
    ApplyItemsKeepsStockNonNegative(items, db.products);
  }

  /**
   * All-or-nothing: once the guards pass, the confirmation succeeds exactly
   * when the items are satisfiable and otherwise fails with InsufficientStock;
   * it then names the product of the first item
   * that cannot be served, and the orders and every stock counter keep their
   * values from before the call.
   */
  lemma ConfirmationAllOrNothing(db: Snapshot, id: ObjectId, status: Option<string>, paymentId: Option<string>)
    requires Truthy(paymentId)
    requires FindOrder(db.orders, id).Some?
    requires !HasPaymentId(db.orders[FindOrder(db.orders, id).value])
    requires ConfirmationStatus(status).Some?
    ensures var r := UpdateStatusSpec(db, id, status, paymentId);
      var items := db.orders[FindOrder(db.orders, id).value].items;
      && (r.response.Updated? <==> Sufficient(items, db.products))
      && (r.response.InsufficientStock? <==> !Sufficient(items, db.products))
      && (r.response.InsufficientStock? ==>
            && r.after == db
            && exists k :: 0 <= k < |items| && items[k].productId == r.response.productId &&
                 Sufficient(items[..k], db.products) && !Sufficient(items[..k + 1], db.products))
  {
    var items := db.orders[FindOrder(db.orders, id).value].items;
    ApplyItemsSucceedsIff(items, db.products);
    if ApplyItems(items, db.products).Short? {
      ApplyItemsFailure(items, db.products);
    }
  }

  /**
   * Confirming twice: after a successful confirmation every further one on the
   * same order is refused and changes nothing, so each product's stock is
   * decremented once.
   */
  lemma ConfirmTwiceDecrementsOnce(db: Snapshot, id: ObjectId, s1: Option<string>, p1: Option<string>,
                                   s2: Option<string>, p2: Option<string>)
    requires Truthy(p1) && Truthy(p2)
    requires UpdateStatusSpec(db, id, s1, p1).response.Updated?
    ensures var first := UpdateStatusSpec(db, id, s1, p1);
      var second := UpdateStatusSpec(first.after, id, s2, p2);
      && second == Outcome(AlreadyProcessed, first.after)
      && forall p :: p in db.products ==>
           second.after.products[p].stock == db.products[p].stock - Demand(first.response.order.items, p)
  {
    var first := UpdateStatusSpec(db, id, s1, p1);
    var i := FindOrder(db.orders, id).value;
    FindAfterReplace(db.orders, i, first.response.order, id);
    ConfirmationEffect(db, id, s1, p1);
  }

  /**
   * Write-once payment: an order that carries a payment reference keeps its
   * payment record through every call, whatever its arguments.
   */
  lemma PaymentIsWriteOnce(db: Snapshot, id: ObjectId, status: Option<string>, paymentId: Option<string>, j: nat)
    requires j < |db.orders| && HasPaymentId(db.orders[j])
    ensures var r := UpdateStatusSpec(db, id, status, paymentId);
      |r.after.orders| == |db.orders| && r.after.orders[j].payment == db.orders[j].payment
  {
  }

  /**
   * The store's invariants survive the transition: `_id` and `orderId` stay
   * unique, products stay keyed by `productId`, and a store without negative
   * stock keeps none.
   */
  lemma UpdatePreservesValidity(db: Snapshot, id: ObjectId, status: Option<string>, paymentId: Option<string>)
    requires ValidDb(db) && NonNegativeStock(db.products)
    ensures var r := UpdateStatusSpec(db, id, status, paymentId);
      ValidDb(r.after) && NonNegativeStock(r.after.products)
  {
    var r := UpdateStatusSpec(db, id, status, paymentId);
    if r.response.Updated? {
      var i := FindOrder(db.orders, id).value;
      assert forall j :: 0 <= j < |db.orders| ==>
        r.after.orders[j].id == db.orders[j].id && r.after.orders[j].orderId == db.orders[j].orderId;
      if Truthy(paymentId) {
        ApplyItemsEffect(db.orders[i].items, db.products);
        ApplyItemsKeepsStockNonNegative(db.orders[i].items, db.products);
      }
    }
  }

  /**
   * Stock conservation under contention: when two confirmations succeed one
   * after the other, the stock of every product either order names covered the
   * quantities of both.
   */
  lemma TwoConfirmationsNeverOversell(db: Snapshot, id1: ObjectId, s1: Option<string>, p1: Option<string>,
                                      id2: ObjectId, s2: Option<string>, p2: Option<string>)
    requires Truthy(p1) && Truthy(p2)
    requires UpdateStatusSpec(db, id1, s1, p1).response.Updated?
    requires UpdateStatusSpec(UpdateStatusSpec(db, id1, s1, p1).after, id2, s2, p2).response.Updated?
    ensures var first := UpdateStatusSpec(db, id1, s1, p1);
      var second := UpdateStatusSpec(first.after, id2, s2, p2);
      var a, b := first.response.order.items, second.response.order.items;
      forall p :: Names(a, p) || Names(b, p) ==>
        p in db.products && Demand(a, p) + Demand(b, p) <= db.products[p].stock
  {
    var first := UpdateStatusSpec(db, id1, s1, p1);
    var second := UpdateStatusSpec(first.after, id2, s2, p2);
    ConfirmationEffect(db, id1, s1, p1);
    ConfirmationEffect(first.after, id2, s2, p2);
    var before, middle := db.products, first.after.products;
    assert forall p :: p in before ==> middle[p].stock == before[p].stock - Demand(first.response.order.items, p);
    SufficientInSequence(first.response.order.items, second.response.order.items, before, middle);
  }

  /**
   * The status-only path as the route is written: the requested value is
   * assigned to `order.status` and saved. An absent value is assigned as
   * `undefined`, which the enum validator lets through and the save turns into
   * removal of the field; a present value must name a status. `None` is the
   * save the validator rejects.
   */
  function StatusOnlyAsWritten(status: Option<string>): (r: Option<StatusField>)
    ensures status.Some? ==> (r.Some? <==> ParseStatus(status.value).Some?)
    ensures r.Some? && r.value.Set? ==> status.Some? && StatusName(r.value.status) == status.value
  {
    match status
    case None => Some(Unset)
    case Some(t) =>
      match ParseStatus(t)
      case None => None
      case Some(s) => Some(Set(s))
  }

  /** The discrepancy: a request with neither `status` nor `paymentId` succeeds and strips the order of its status. */
  lemma MissingStatusUnsetsField()
    ensures StatusOnlyAsWritten(None) == Some(Unset)
    ensures RequestedStatus(None).None?
  {
  }

  /** The corrected status-only path agrees with the route on every request that carries a status. */
  lemma RequestedStatusAgreesWhenGiven(status: Option<string>)
    requires status.Some?
    ensures StatusOnlyAsWritten(status) ==
      if RequestedStatus(status).Some? then Some(Set(RequestedStatus(status).value)) else None
  {
  }

  /**
   * The consequence on the dashboard: one order saved through a `{}` status
   * update is counted by `totalOrders` but under none of the eleven statuses,
   * so the per-status counts sum to 0 while `totalOrders` is 1.
   */
  lemma UnsetStatusBreaksDashboardTotal()
    ensures var fields := [StatusOnlyAsWritten(None).value];
      |fields| == 1 && FieldCountSum(AllStatuses, fields) == 0
  {
    FieldCountSumOfUnset(AllStatuses, [Unset]);
  }

  /** A product with only the fields the example needs set to something particular. */
  function ExampleProduct(p: ProductId, stock: int): Product {
    Product(p, "title", "category", "subCategory", false, false, false, false, false, false, false,
            1.0, 1.0, 0.0, 0.0, stock, [], [], None, None, ShippingDetails(None, None), [], None, None, [], None)
  }

  function ExampleItem(p: ProductId, q: nat): LineItem {
    LineItem(p, None, None, None, None, None, q)
  }

  /**
   * Atomicity, concretely: items [(A, 2), (B, 1)] against stock A = 5, B = 0
   * fail on B, and A keeps its 5 units and the order its status and payment.
   */
  lemma AtomicityExample(o: Order, paymentId: string)
    requires o.items == [ExampleItem("A", 2), ExampleItem("B", 1)] && !HasPaymentId(o) && paymentId != ""
    ensures var db := Snapshot([o], map["A" := ExampleProduct("A", 5), "B" := ExampleProduct("B", 0)]);
      var r := UpdateStatusSpec(db, o.id, None, Some(paymentId));
      r.response == InsufficientStock("B") && r.after.products["A"].stock == 5 && r.after.orders == [o]
  {
    var products := map["A" := ExampleProduct("A", 5), "B" := ExampleProduct("B", 0)];
    var next := ConditionalDecrement(products, "A", 2);
    assert next.Some? && next.value["B"].stock == 0;
    assert o.items[1..] == [ExampleItem("B", 1)];
    assert ApplyItems(o.items[1..], next.value) == Short("B");
    assert ApplyItems(o.items, products) == Short("B");
    assert FindOrder([o], o.id) == Some(0);
  }
}
