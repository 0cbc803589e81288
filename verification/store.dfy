/**
 * The two collections the order routes work on: orders, in store order, each
 * carrying its `_id`; and products, keyed by their unique `productId`.
 * A `Snapshot` is their joint state, which a transaction reads and, on abort,
 * restores.
 */
module Store {
  import opened Wrappers
  import opened ProductSchema
  import opened OrderSchema

  datatype Snapshot = Snapshot(orders: seq<Order>, products: map<ProductId, Product>)

  /** `findById`: the position of the order whose `_id` is `id`, if any. */
  function FindOrder(orders: seq<Order>, id: ObjectId): (r: Option<nat>)
    ensures r.Some? ==> r.value < |orders| && orders[r.value].id == id
    ensures r.Some? ==> forall j :: 0 <= j < r.value ==> orders[j].id != id
    ensures r.None? ==> forall j :: 0 <= j < |orders| ==> orders[j].id != id
  {
    if orders == [] then None
    else if orders[0].id == id then Some(0)
    else match FindOrder(orders[1..], id)
      case None => None
      case Some(k) => Some(k + 1)
  }

  predicate UniqueIds(orders: seq<Order>) {
    forall i, j :: 0 <= i < j < |orders| ==> orders[i].id != orders[j].id
  }

  /** The unique index on `orderId`. */
  predicate UniqueOrderIds(orders: seq<Order>) {
    forall i, j :: 0 <= i < j < |orders| ==> orders[i].orderId != orders[j].orderId
  }

  /** What the store's unique indexes guarantee of its contents. */
  predicate ValidDb(db: Snapshot) {
    UniqueIds(db.orders) && UniqueOrderIds(db.orders) && KeyedByProductId(db.products)
  }

  /** No product's stock counter is negative. */
  predicate NonNegativeStock(products: map<ProductId, Product>) {
    forall p :: p in products ==> products[p].stock >= 0
  }

  /** Replacing an order by one with the same `_id` leaves every lookup where it was. */
  lemma FindAfterReplace(orders: seq<Order>, i: nat, o: Order, id: ObjectId)
    requires i < |orders| && o.id == orders[i].id
    ensures FindOrder(orders[i := o], id) == FindOrder(orders, id)
  {
    assert forall j :: 0 <= j < |orders| ==> orders[i := o][j].id == orders[j].id;
  }
}
