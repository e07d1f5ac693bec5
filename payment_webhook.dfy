/** The payment provider's webhook: check the shared-secret signature,
    validate the payload, then move the payment and its order to the
    statuses the event names. */
module PaymentWebhook {
  import opened Common
  import opened Store
  import OrderActions

  /** A decoded JSON value. */
  datatype Json =
    | JNull
    | JBool(b: bool)
    | JNum(n: int)
    | JStr(s: string)
    | JArr(elems: seq<Json>)
    | JObj(fields: map<string, Json>)

  /** `typeof x === "object" && x !== null`: objects and arrays. */
  predicate IsObject(x: Json) {
    x.JObj? || x.JArr?
  }

  /** The property `k` of `x`, None for `undefined`. Arrays and scalars
      carry none of the properties the route reads. */
  function Field(x: Json, k: string): (r: Option<Json>)
    ensures r.Some? <==> x.JObj? && k in x.fields
  {
    if x.JObj? && k in x.fields then Some(x.fields[k]) else None
  }

  /** The property `k` of `x` when it is a string. */
  function StringField(x: Json, k: string): (r: Option<string>)
    ensures r.Some? <==> Field(x, k).Some? && Field(x, k).value.JStr?
  {
    match Field(x, k)
    case Some(JStr(s)) => Some(s)
    case _ => None
  }

  /** The body as the route sees it: a body that is not JSON reads as `{}`,
      and `asBody` turns anything that is not an object into `{}`. */
  function AsBody(raw: Option<Json>): (r: Json)
    ensures IsObject(r)
    ensures raw.Some? && IsObject(raw.value) ==> r == raw.value
  {
    if raw.Some? && IsObject(raw.value) then raw.value else JObj(map[])
  }

  /** The signature check: the `x-mock-signature` header, read as "" when
      absent, must be non-empty and equal to the secret, read as "" when
      unset. */
  predicate VerifySignature(header: Option<string>, secret: Option<string>) {
    var sig := header.GetOr("");
    |sig| > 0 && sig == secret.GetOr("")
  }

  /** The signature is accepted exactly when both the header and the secret
      are present, non-empty and equal. */
  lemma VerifySignatureIff(header: Option<string>, secret: Option<string>)
    ensures VerifySignature(header, secret)
      <==> header.Some? && secret.Some? && header.value != "" && header.value == secret.value
  {
  }

  /** With no secret configured (or an empty one) every request is refused. */
  lemma UnsetSecretRejects(header: Option<string>, secret: Option<string>)
    requires secret.None? || secret == Some("")
    ensures !VerifySignature(header, secret)
  {
  }

  /** The statuses an event moves the payment and the order to. */
  datatype Mapping = Mapping(payment: PaymentStatus, order: OrderStatus)

  /** The `switch (event)`: None for every event the route skips. */
  function EventMapping(event: Option<Json>): (r: Option<Mapping>)
    ensures r.Some? <==> event in {Some(JStr("payment.paid")), Some(JStr("payment.failed")), Some(JStr("payment.canceled"))}
  {
    match event
    case Some(JStr("payment.paid")) => Some(Mapping(PaymentStatus.PAID, OrderStatus.PAID))
    case Some(JStr("payment.failed")) => Some(Mapping(FAILED, OrderStatus.CANCELED))
    case Some(JStr("payment.canceled")) => Some(Mapping(PaymentStatus.CANCELED, OrderStatus.CANCELED))
    case _ => None
  }

  /** The event table: paid gives (PAID, PAID), failed gives
      (FAILED, CANCELED), canceled gives (CANCELED, CANCELED). */
  lemma EventTable()
    ensures EventMapping(Some(JStr("payment.paid"))) == Some(Mapping(PaymentStatus.PAID, OrderStatus.PAID))
    ensures EventMapping(Some(JStr("payment.failed"))) == Some(Mapping(FAILED, OrderStatus.CANCELED))
    ensures EventMapping(Some(JStr("payment.canceled"))) == Some(Mapping(PaymentStatus.CANCELED, OrderStatus.CANCELED))
  {
  }

  /** The payment row after a mapped event: the new status, the provider's
      payment id when the payload gives one as a string (else the old one),
      and the failure code and message when given as strings (else null). */
  function UpdatedPayment(p: Payment, data: Json, status: PaymentStatus): (r: Payment)
    ensures r.id == p.id && r.orderId == p.orderId && r.amount == p.amount && r.provider == p.provider
    ensures r.status == status
    ensures r.providerPaymentId == (if StringField(data, "providerPaymentId").Some? then StringField(data, "providerPaymentId") else p.providerPaymentId)
    ensures r.failureCode == StringField(data, "failureCode")
    ensures r.failureMessage == StringField(data, "failureMessage")
  {
    p.(status := status,
       providerPaymentId := if StringField(data, "providerPaymentId").Some? then StringField(data, "providerPaymentId") else p.providerPaymentId,
       failureCode := StringField(data, "failureCode"),
       failureMessage := StringField(data, "failureMessage"))
  }

  datatype Response =
    | Unauthorized
    | InvalidPayload
    | PaymentNotFound
    | Skipped
    | Updated(payment: Payment, orderUpdated: bool)
      /** The payment row was written but the order row it names is absent,
          so the order update throws. */
    | OrderUpdateFailed

  function HttpStatus(r: Response): int {
    match r
    case Unauthorized => 401
    case InvalidPayload => 400
    case PaymentNotFound => 404
    case Skipped => 200
    case Updated(_, _) => 200
    case OrderUpdateFailed => 500
  }

  datatype Result = Result(response: Response, orders: map<string, Order>, payments: seq<Payment>)

  /** The payload is well formed: provider "mock", an object `data` and a
      string `data.paymentId`. */
  predicate ValidPayload(body: Json) {
    Field(body, "provider") == Some(JStr("mock"))
    && Field(body, "data").Some? && IsObject(Field(body, "data").value)
    && StringField(Field(body, "data").value, "paymentId").Some?
  }

  /** `POST /api/webhooks/payments` as one step over the order and payment
      tables. `raw` is the decoded body, None when it is not JSON. */
  function Webhook(orders: map<string, Order>, payments: seq<Payment>, header: Option<string>, secret: Option<string>, raw: Option<Json>): Result {
    if !VerifySignature(header, secret) then Result(Unauthorized, orders, payments)
    else
      var body := AsBody(raw);
      if !ValidPayload(body) then Result(InvalidPayload, orders, payments)
      else
        var data := Field(body, "data").value;
        var pid := StringField(data, "paymentId").value;
        match PaymentWithId(payments, pid)
        case None => Result(PaymentNotFound, orders, payments)
        case Some(i) =>
          match EventMapping(Field(body, "event"))
          case None => Result(Skipped, orders, payments)
          case Some(m) =>
            var p := UpdatedPayment(payments[i], data, m.payment);
            var ps := payments[i := p];
            if p.orderId !in orders then Result(OrderUpdateFailed, orders, ps)
            else Result(Updated(p, true), orders[p.orderId := orders[p.orderId].(status := m.order)], ps)
  }

  /** The index of the payment a valid request names. */
  function Target(payments: seq<Payment>, raw: Option<Json>): Option<nat>
    requires ValidPayload(AsBody(raw))
  {
    PaymentWithId(payments, StringField(Field(AsBody(raw), "data").value, "paymentId").value)
  }

  /** Refusals and skipped events change nothing; a bad signature is refused
      before the payload is looked at (401), a bad payload before the store
      is (400). A valid request naming no payment is refused with 404, and
      one naming a payment with an event outside the table is skipped (200). */
  lemma RejectionsChangeNothing(orders: map<string, Order>, payments: seq<Payment>, header: Option<string>, secret: Option<string>, raw: Option<Json>)
    ensures var r := Webhook(orders, payments, header, secret, raw);
      && (r.response == Unauthorized <==> !VerifySignature(header, secret))
      && (r.response == InvalidPayload <==> VerifySignature(header, secret) && !ValidPayload(AsBody(raw)))
      && (r.response in {Unauthorized, InvalidPayload, PaymentNotFound, Skipped} ==> r.orders == orders && r.payments == payments)
      && (r.response == Skipped ==> EventMapping(Field(AsBody(raw), "event")).None?)
      && (VerifySignature(header, secret) && ValidPayload(AsBody(raw)) ==>
            && (r.response == PaymentNotFound <==> Target(payments, raw).None?)
            && (r.response == Skipped <==>
                  Target(payments, raw).Some? && EventMapping(Field(AsBody(raw), "event")).None?))
      && (HttpStatus(r.response) == 404 <==> r.response == PaymentNotFound)
      && (HttpStatus(r.response) == 200 <==> r.response.Skipped? || r.response.Updated?)
  {
  }

  /** A mapped event on a known payment rewrites exactly that payment row,
      with the statuses of the event table, and sets the status of exactly
      the order that payment belongs to; `orderUpdated` is always true.
      Stock is never touched. */
  lemma MappedEventEffect(orders: map<string, Order>, payments: seq<Payment>, header: Option<string>, secret: Option<string>, raw: Option<Json>)
    requires VerifySignature(header, secret) && ValidPayload(AsBody(raw))
    requires Target(payments, raw).Some?
    requires EventMapping(Field(AsBody(raw), "event")).Some?
    ensures var r := Webhook(orders, payments, header, secret, raw);
      var i := Target(payments, raw).value;
      var m := EventMapping(Field(AsBody(raw), "event")).value;
      var oid := payments[i].orderId;
      && |r.payments| == |payments|
      && (forall j :: 0 <= j < |payments| && j != i ==> r.payments[j] == payments[j])
      && r.payments[i] == UpdatedPayment(payments[i], Field(AsBody(raw), "data").value, m.payment)
      && (oid in orders ==>
            && r.response == Updated(r.payments[i], true)
            && r.orders.Keys == orders.Keys
            && r.orders[oid] == orders[oid].(status := m.order)
            && (forall k :: k in orders && k != oid ==> r.orders[k] == orders[k]))
      && (oid !in orders ==> r.response == OrderUpdateFailed && r.orders == orders)
  {
  }

  /** The webhook never changes a payment's id or order id, so the payment
      table stays unique. */
  lemma WebhookKeepsPaymentsUnique(orders: map<string, Order>, payments: seq<Payment>, header: Option<string>, secret: Option<string>, raw: Option<Json>)
    requires PaymentsUnique(payments)
    ensures PaymentsUnique(Webhook(orders, payments, header, secret, raw).payments)
  {
  }

  /** Delivering the same webhook twice leaves the store as one delivery
      left it, and answers the same. */
  lemma WebhookIdempotent(orders: map<string, Order>, payments: seq<Payment>, header: Option<string>, secret: Option<string>, raw: Option<Json>)
    ensures var r1 := Webhook(orders, payments, header, secret, raw);
      var r2 := Webhook(r1.orders, r1.payments, header, secret, raw);
      r2 == r1
  {
    var r1 := Webhook(orders, payments, header, secret, raw);
    if VerifySignature(header, secret) && ValidPayload(AsBody(raw)) {
      var body := AsBody(raw);
      var data := Field(body, "data").value;
      var pid := StringField(data, "paymentId").value;
      match PaymentWithId(payments, pid)
      case None =>
      case Some(i) =>
        match EventMapping(Field(body, "event"))
        case None =>
        case Some(m) =>
          var p := UpdatedPayment(payments[i], data, m.payment);
          assert r1.payments == payments[i := p];
          FindFirstSameAt(payments, r1.payments, i, (q: Payment) => q.id == pid);
          assert PaymentWithId(r1.payments, pid) == Some(i);
          assert UpdatedPayment(p, data, m.payment) == p;
          assert r1.payments[i := p] == r1.payments;
    }
  }

  /** Rewriting the element a search found, with one that still matches,
      leaves the search's answer where it was. */
  lemma {:induction false} FindFirstSameAt<T>(s: seq<T>, t: seq<T>, i: nat, p: T -> bool)
    requires FindFirst(s, p) == Some(i)
    requires |t| == |s| && i < |s| && p(t[i])
    requires forall j :: 0 <= j < |s| && j != i ==> t[j] == s[j]
    ensures FindFirst(t, p) == Some(i)
  {
    assert forall j :: 0 <= j < i ==> !p(t[j]);
  }

  /** The route over the store: the payment update and the order update are
      two separate writes, so the first stays when the second throws. */
  method HandleWebhook(db: Db, header: Option<string>, secret: Option<string>, raw: Option<Json>) returns (response: Response)
    modifies db
    ensures Result(response, db.orders, db.payments) == Webhook(old(db.orders), old(db.payments), header, secret, raw)
    ensures db.stock == old(db.stock)
  {
    if !VerifySignature(header, secret) {
      return Unauthorized;
    }
    var body := AsBody(raw);
    if !ValidPayload(body) {
      return InvalidPayload;
    }
    var data := Field(body, "data").value;
    var found := PaymentWithId(db.payments, StringField(data, "paymentId").value);
    if found.None? {
      return PaymentNotFound;
    }
    var i := found.value;
    var nextPaymentStatus: PaymentStatus;
    var nextOrderStatus: OrderStatus;
    var event := Field(body, "event");
    if event == Some(JStr("payment.paid")) {
      nextPaymentStatus, nextOrderStatus := PaymentStatus.PAID, OrderStatus.PAID;
    } else if event == Some(JStr("payment.failed")) {
      nextPaymentStatus, nextOrderStatus := FAILED, OrderStatus.CANCELED;
    } else if event == Some(JStr("payment.canceled")) {
      nextPaymentStatus, nextOrderStatus := PaymentStatus.CANCELED, OrderStatus.CANCELED;
    } else {
      return Skipped;
    }
    var updated := UpdatedPayment(db.payments[i], data, nextPaymentStatus);
    db.payments := db.payments[i := updated];
    if updated.orderId !in db.orders {
      return OrderUpdateFailed;
    }
    db.orders := db.orders[updated.orderId := db.orders[updated.orderId].(status := nextOrderStatus)];
    return Updated(updated, true);
  }

  /** The webhook confirms a pending order without taking its stock, but
      the admin action treats a later PAID -> CANCELED as a return of
      stock: canceling the order the webhook paid adds every line's
      quantity back, although none was taken. */
  lemma PaidByWebhookThenCanceled(orders: map<string, Order>, payments: seq<Payment>, stock: map<string, int>,
                                  header: Option<string>, secret: Option<string>, raw: Option<Json>)
    requires VerifySignature(header, secret) && ValidPayload(AsBody(raw))
    requires Target(payments, raw).Some?
    requires Field(AsBody(raw), "event") == Some(JStr("payment.paid"))
    requires var oid := payments[Target(payments, raw).value].orderId;
      && oid != "" && oid in orders && orders[oid].status == OrderStatus.PENDING
      && (forall i :: 0 <= i < |orders[oid].items| ==> orders[oid].items[i].qty >= 0)
      && OrderActions.Referenced(orders[oid].items) <= stock.Keys
      && (forall v :: v in OrderActions.Referenced(orders[oid].items) ==> stock[v] >= 0)
    ensures var oid := payments[Target(payments, raw).value].orderId;
      var r := Webhook(orders, payments, header, secret, raw);
      var t := OrderActions.SetStatus(r.orders, stock, oid, "CANCELED");
      && r.orders[oid].status == OrderStatus.PAID
      && t.outcome == OrderActions.Updated
      && forall v :: v in stock ==> t.stock[v] == stock[v] + OrderActions.SumQty(orders[oid].items, v)
  {
    var oid := payments[Target(payments, raw).value].orderId;
    EventTable();
    MappedEventEffect(orders, payments, header, secret, raw);
    var r := Webhook(orders, payments, header, secret, raw);
    assert r.orders[oid] == orders[oid].(status := OrderStatus.PAID);
    OrderActions.CancelSucceeds(r.orders, stock, oid);
    OrderActions.SetStatusUpdated(r.orders, stock, oid, "CANCELED");
    assert OrderActions.StockDeltaDirection(OrderStatus.PAID, OrderStatus.CANCELED) == 1;
  }
}
