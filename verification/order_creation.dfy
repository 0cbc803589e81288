/**
 * `POST /`: the request-body rules (a user, a non-empty item list, a numeric
 * total), then a new order document built from the body with a generated
 * `orderId`, validated and inserted.
 */
module OrderCreation {
  import opened Wrappers
  import opened ProductSchema
  import opened OrderSchema
  import opened Store

  /**
   * The request body. Every field the body spreads into the document is kept;
   * `totalAmount` is the text of the JSON value, as the validator reads it.
   */
  datatype OrderBody = OrderBody(
    user: Option<User>,
    shippingAddress: Option<Address>,
    items: Option<seq<LineItem>>,
    totalAmount: Option<string>,
    status: Option<string>,
    payment: Option<Payment>)

  /** The body paths the create rules check, in the order they run. */
  datatype BodyField = UserField | ItemsField | TotalAmountField

  predicate IsDigit(c: char) {
    '0' <= c <= '9'
  }

  predicate AllDigits(s: string) {
    forall i :: 0 <= i < |s| ==> IsDigit(s[i])
  }

  /**
   * The `isNumeric` rule: an optional sign, then an optional run of digits
   * ending in a point, then at least one digit.
   */
  predicate IsNumeric(s: string) {
    var t := if |s| > 0 && (s[0] == '+' || s[0] == '-') then s[1..] else s;
    |t| > 0 &&
    (AllDigits(t) || exists k :: 0 <= k < |t| - 1 && t[k] == '.' && AllDigits(t[..k]) && AllDigits(t[k + 1..]))
  }

  /** Texts the rule accepts and refuses. */
  lemma IsNumericExamples()
    ensures IsNumeric("1499") && IsNumeric("-2.50") && IsNumeric(".5")
    ensures !IsNumeric("") && !IsNumeric("+") && !IsNumeric("12.") && !IsNumeric("1e3") && !IsNumeric("1.2.3")
  {
    assert IsNumeric("-2.50") by {
      var t := "-2.50"[1..];
      assert t == "2.50" && t[1] == '.' && t[..1] == "2" && t[2..] == "50";
      assert AllDigits(t[..1]) && AllDigits(t[2..]);
    }
    assert IsNumeric(".5") by {
      var t := ".5";
      assert t[0] == '.' && t[..0] == "" && t[1..] == "5";
      assert AllDigits(t[..0]) && AllDigits(t[1..]);
    }
    assert !IsDigit("1e3"[1]);
    assert !IsNumeric("12.") by {
      var t := "12.";
      assert !IsDigit(t[2]);
    }
    assert !IsNumeric("1.2.3") by {
      var t := "1.2.3";
      assert !AllDigits(t) by { assert !IsDigit(t[1]); }
      forall k | 0 <= k < |t| - 1 && t[k] == '.'
        ensures !(AllDigits(t[..k]) && AllDigits(t[k + 1..]))
      {
        if k == 1 {
          assert t[k + 1..][1] == '.';
        } else {
          assert k == 3 && t[..k][1] == '.';
        }
      }
    }
  }

  /** The create rules (user not empty, items an array of at least one, total numeric); all of them run. */
  function ValidationErrors(body: OrderBody): (errors: seq<BodyField>)
    ensures UserField in errors <==> body.user.None?
    ensures ItemsField in errors <==> body.items.None? || |body.items.value| == 0
    ensures TotalAmountField in errors <==> body.totalAmount.None? || !IsNumeric(body.totalAmount.value)
    ensures forall i, j :: 0 <= i < j < |errors| ==> errors[i] != errors[j]
  {
    (if body.user.None? then [UserField] else [])
    + (if body.items.None? || |body.items.value| == 0 then [ItemsField] else [])
    + (if body.totalAmount.None? || !IsNumeric(body.totalAmount.value) then [TotalAmountField] else [])
  }

  datatype CreateResponse =
    | Created(order: Order)
    | BadRequest(errors: seq<BodyField>)
    | InvalidStatus
    | DuplicateKey

  datatype CreateOutcome = CreateOutcome(response: CreateResponse, after: Snapshot)

  /** The status of a new document: the body's, which must name a status, or the default. */
  function InitialStatus(status: Option<string>): (r: Option<Status>)
    ensures status.None? ==> r == Some(DefaultStatus)
    ensures status.Some? ==> (r.Some? <==> ParseStatus(status.value).Some?)
    ensures status.Some? && r.Some? ==> StatusName(r.value) == status.value
  {
    if status.None? then Some(DefaultStatus) else ParseStatus(status.value)
  }

  /** An `_id` or `orderId` already in the collection. */
  predicate KeyTaken(orders: seq<Order>, orderId: string, id: ObjectId) {
    exists j :: 0 <= j < |orders| && (orders[j].orderId == orderId || orders[j].id == id)
  }

  /**
   * Creating an order. `orderId` is the generated business key and `id` the
   * identity the store assigns; both are parameters here.
   */
  function CreateOrderSpec(db: Snapshot, body: OrderBody, orderId: string, id: ObjectId): (r: CreateOutcome)
    ensures !r.response.Created? ==> r.after == db
    ensures r.response.Created? ==> r.after == db.(orders := db.orders + [r.response.order])
    ensures r.response.BadRequest? <==> ValidationErrors(body) != []
    ensures r.response.BadRequest? ==> r.response.errors == ValidationErrors(body)
    ensures r.response.InvalidStatus? <==> ValidationErrors(body) == [] && InitialStatus(body.status).None?
    ensures r.response.DuplicateKey? <==>
      ValidationErrors(body) == [] && InitialStatus(body.status).Some? && KeyTaken(db.orders, orderId, id)
    ensures r.response.Created? <==>
      ValidationErrors(body) == [] && InitialStatus(body.status).Some? && !KeyTaken(db.orders, orderId, id)
  {
    var errors := ValidationErrors(body);
    if errors != [] then CreateOutcome(BadRequest(errors), db)
    else match InitialStatus(body.status)
      case None => CreateOutcome(InvalidStatus, db)
      case Some(s) =>
        if KeyTaken(db.orders, orderId, id) then CreateOutcome(DuplicateKey, db)
        else
          var order := Order(id, orderId, s, body.user.value, body.shippingAddress.GetOr(NoAddress),
                             body.items.value, body.totalAmount.value, body.payment.GetOr(NoPayment));
          CreateOutcome(Created(order), db.(orders := db.orders + [order]))
  }

  /**
   * A created order carries the generated keys and the body's user, address,
   * items, total and payment, has at least one item and a numeric total, and has
   * the status the body names (Pending when it names none); without a body
   * payment it has no payment reference.
   */
  lemma CreatedOrderFields(db: Snapshot, body: OrderBody, orderId: string, id: ObjectId)
    requires CreateOrderSpec(db, body, orderId, id).response.Created?
    ensures var o := CreateOrderSpec(db, body, orderId, id).response.order;
      && o.id == id && o.orderId == orderId
      && body.items == Some(o.items) && |o.items| >= 1
      && body.totalAmount == Some(o.totalAmount) && IsNumeric(o.totalAmount)
      && body.user == Some(o.user)
      && o.shippingAddress == body.shippingAddress.GetOr(NoAddress)
      && o.payment == body.payment.GetOr(NoPayment)
      && InitialStatus(body.status) == Some(o.status)
      && (body.status.Some? ==> StatusName(o.status) == body.status.value)
      && (body.status.None? ==> o.status == Pending)
      && (body.payment.None? ==> !HasPaymentId(o))
  {
  }

  /** Round trip: fetching a created order by its identity yields the order just created. */
  lemma CreateThenFind(db: Snapshot, body: OrderBody, orderId: string, id: ObjectId)
    requires CreateOrderSpec(db, body, orderId, id).response.Created?
    ensures var r := CreateOrderSpec(db, body, orderId, id);
      FindOrder(r.after.orders, id) == Some(|db.orders|) && r.after.orders[|db.orders|] == r.response.order
  {
    var r := CreateOrderSpec(db, body, orderId, id);
    assert !KeyTaken(db.orders, orderId, id);
    assert forall j :: 0 <= j < |db.orders| ==> r.after.orders[j] == db.orders[j] && db.orders[j].id != id;
    assert r.after.orders[|db.orders|].id == id;
  }

  /** Creation keeps `_id` and `orderId` unique. */
  lemma CreatePreservesValidity(db: Snapshot, body: OrderBody, orderId: string, id: ObjectId)
    requires ValidDb(db)
    ensures ValidDb(CreateOrderSpec(db, body, orderId, id).after)
  {
    var r := CreateOrderSpec(db, body, orderId, id);
    if r.response.Created? {
      forall j | 0 <= j < |db.orders|
        ensures db.orders[j].orderId != orderId && db.orders[j].id != id
      {
        if db.orders[j].orderId == orderId || db.orders[j].id == id {
          assert KeyTaken(db.orders, orderId, id);
        }
      }
    }
  }
}
