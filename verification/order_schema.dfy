/**
 * The order document of models/order.js: a unique `orderId`, a `status` drawn
 * from an eleven-value enumeration that defaults to "Pending", a buyer and
 * address snapshot, line items naming products by `productId`, and the payment
 * record.
 */
module OrderSchema {
  import opened Wrappers
  import opened ProductSchema

  /** Store-assigned identity of an order document (its `_id`). */
  type ObjectId = nat

  datatype Status =
    | Pending
    | Confirmed
    | Processing
    | Packed
    | Shipped
    | InTransit
    | OutForDelivery
    | Delivered
    | Cancelled
    | Returned
    | RefundCompleted

  /** The schema default of `status`. */
  const DefaultStatus: Status := Pending

  /** The enumeration, in the order the schema lists it. */
  const AllStatuses: seq<Status> :=
    [Pending, Confirmed, Processing, Packed, Shipped, InTransit,
     OutForDelivery, Delivered, Cancelled, Returned, RefundCompleted]

  /** The stored text of a status. */
  function StatusName(s: Status): string {
    match s
    case Pending => "Pending"
    case Confirmed => "Confirmed"
    case Processing => "Processing"
    case Packed => "Packed"
    case Shipped => "Shipped"
    case InTransit => "In Transit"
    case OutForDelivery => "Out for Delivery"
    case Delivered => "Delivered"
    case Cancelled => "Cancelled"
    case Returned => "Returned"
    case RefundCompleted => "Refund Completed"
  }

  /**
   * The enum validator: a text is accepted exactly when it is the stored text of
   * some status, and then it denotes that status.
   */
  function ParseStatus(t: string): (r: Option<Status>)
    ensures r.Some? ==> StatusName(r.value) == t
    ensures r.None? ==> forall s: Status :: StatusName(s) != t
  {
    if t == "Pending" then Some(Pending)
    else if t == "Confirmed" then Some(Confirmed)
    else if t == "Processing" then Some(Processing)
    else if t == "Packed" then Some(Packed)
    else if t == "Shipped" then Some(Shipped)
    else if t == "In Transit" then Some(InTransit)
    else if t == "Out for Delivery" then Some(OutForDelivery)
    else if t == "Delivered" then Some(Delivered)
    else if t == "Cancelled" then Some(Cancelled)
    else if t == "Returned" then Some(Returned)
    else if t == "Refund Completed" then Some(RefundCompleted)
    else None
  }

  /** Distinct statuses are stored as distinct texts, so parsing inverts naming. */
  lemma StatusNameRoundTrip(s: Status)
    ensures ParseStatus(StatusName(s)) == Some(s)
  {
  }

  /** Naming is injective. */
  lemma StatusNameInjective(s: Status, s': Status)
    ensures StatusName(s) == StatusName(s') <==> s == s'
  {
    StatusNameRoundTrip(s);
    StatusNameRoundTrip(s');
  }

  /** How many times `s` occurs in `ss`. */
  function Occurrences(ss: seq<Status>, s: Status): nat {
    if ss == [] then 0 else (if ss[0] == s then 1 else 0) + Occurrences(ss[1..], s)
  }

  /** A status occurs once in a duplicate-free sequence that contains it, and nowhere else. */
  lemma {:induction false} OccurrencesInDistinct(ss: seq<Status>, s: Status)
    requires forall i, j :: 0 <= i < j < |ss| ==> ss[i] != ss[j]
    ensures Occurrences(ss, s) == if s in ss then 1 else 0
  {
    if ss != [] {
      OccurrencesInDistinct(ss[1..], s);
      if ss[0] == s {
        assert s !in ss[1..] by {
          forall k | 0 <= k < |ss[1..]| ensures ss[1..][k] != s {
            assert ss[0] != ss[k + 1];
          }
        }
      } else {
        assert s in ss <==> s in ss[1..];
      }
    }
  }

  /** The place of a status in the enumeration. */
  function Position(s: Status): nat {
    match s
    case Pending => 0
    case Confirmed => 1
    case Processing => 2
    case Packed => 3
    case Shipped => 4
    case InTransit => 5
    case OutForDelivery => 6
    case Delivered => 7
    case Cancelled => 8
    case Returned => 9
    case RefundCompleted => 10
  }

  /** The enumeration lists every status exactly once. */
  lemma AllStatusesListsEachOnce(s: Status)
    ensures Occurrences(AllStatuses, s) == 1
    ensures s in AllStatuses
  {
    assert forall i :: 0 <= i < |AllStatuses| ==> Position(AllStatuses[i]) == i;
    assert AllStatuses[Position(s)] == s;
    OccurrencesInDistinct(AllStatuses, s);
  }

  /** The stored `status` field of an order document: an enumerated value, or no field at all. */
  datatype StatusField = Unset | Set(status: Status)

  datatype User = User(
    firstName: Option<string>,
    lastName: Option<string>,
    email: Option<string>,
    phone: Option<string>)

  datatype Address = Address(
    address: Option<string>,
    city: Option<string>,
    state: Option<string>,
    zipCode: Option<string>,
    country: Option<string>)

  const NoAddress: Address := Address(None, None, None, None, None)

  /**
   * A line item: a snapshot of the product at order time. Only `productId` and
   * `quantity` drive the stock update; quantity is taken to be a natural number.
   */
  datatype LineItem = LineItem(
    productId: ProductId,
    title: Option<string>,
    category: Option<string>,
    subCategory: Option<string>,
    size: Option<string>,
    material: Option<string>,
    quantity: nat)

  /** `method` is a Dafny keyword, so the schema path `payment.method` is the field `paymentMethod`. */
  datatype Payment = Payment(paymentMethod: Option<string>, status: Option<string>, paymentId: Option<string>)

  /** The payment record of an order nobody has paid for. */
  const NoPayment: Payment := Payment(None, None, None)

  /** `totalAmount` is kept as the numeric text the request carried. */
  datatype Order = Order(
    id: ObjectId,
    orderId: string,
    status: Status,
    user: User,
    shippingAddress: Address,
    items: seq<LineItem>,
    totalAmount: string,
    payment: Payment)

  /** The idempotency guard's test: the order already carries a payment reference. */
  predicate HasPaymentId(o: Order) {
    Truthy(o.payment.paymentId)
  }
}
