/** The payment initiation route: re-check an order's total against its
    lines, then find or create the single payment row of that order. */
module PaymentInitiate {
  import opened Common
  import opened Store

  /** A JavaScript number as the route inspects it with `Number.isInteger`. */
  datatype Num = Integer(n: int) | NonInteger

  function IntegerOrZero(x: Num): int {
    match x
    case Integer(n) => n
    case NonInteger => 0
  }

  datatype PricedQty = PricedQty(unitPrice: Num, qty: Num)

  predicate Integral(it: PricedQty) {
    it.unitPrice.Integer? && it.qty.Integer?
  }

  /** The `reduce` over the lines: the sum of unit price times quantity,
      a non-integer price or quantity counting as 0. */
  function ItemsTotal(items: seq<PricedQty>): int {
    if |items| == 0 then 0
    else ItemsTotal(items[..|items| - 1])
         + IntegerOrZero(items[|items| - 1].unitPrice) * IntegerOrZero(items[|items| - 1].qty)
  }

  /** The total is additive over the line list. */
  lemma {:induction false} ItemsTotalAppend(a: seq<PricedQty>, b: seq<PricedQty>)
    ensures ItemsTotal(a + b) == ItemsTotal(a) + ItemsTotal(b)
    decreases |b|
  {
    if |b| == 0 {
      assert a + b == a;
    } else {
      ItemsTotalAppend(a, b[..|b| - 1]);
      assert (a + b)[..|a + b| - 1] == a + b[..|b| - 1];
      assert (a + b)[|a + b| - 1] == b[|b| - 1];
    }
  }

  /** Lines with a non-integer price or quantity contribute nothing: the
      total equals the total of the integral lines alone. */
  lemma {:induction false} ItemsTotalIgnoresNonIntegral(items: seq<PricedQty>)
    ensures ItemsTotal(items) == ItemsTotal(Filter(items, Integral))
  {
    if |items| > 0 {
      ItemsTotalIgnoresNonIntegral(items[1..]);
      assert items == [items[0]] + items[1..];
      ItemsTotalAppend([items[0]], items[1..]);
      if Integral(items[0]) {
        ItemsTotalAppend([items[0]], Filter(items[1..], Integral));
      }
      assert ItemsTotal([items[0]]) == IntegerOrZero(items[0].unitPrice) * IntegerOrZero(items[0].qty) by {
        assert [items[0]][..0] == [];
      }
    }
  }

  /** The order's lines as the route reads them. */
  function ReadItems(items: seq<OrderItem>): (r: seq<PricedQty>)
    ensures |r| == |items|
  {
    seq(|items|, i requires 0 <= i < |items| => PricedQty(Integer(items[i].unitPrice), Integer(items[i].qty)))
  }

  datatype Response =
    | MissingOrderId
    | OrderNotFound
    | InvalidTotalAmount
    | AmountMismatch(itemsTotal: int, totalAmount: int)
    | Initiated(paymentId: string, amount: int)

  /** The HTTP status each response carries. */
  function HttpStatus(r: Response): int {
    match r
    case MissingOrderId => 400
    case OrderNotFound => 404
    case InvalidTotalAmount => 400
    case AmountMismatch(_, _) => 400
    case Initiated(_, _) => 200
  }

  datatype Result = Result(response: Response, payments: seq<Payment>)

  /** The payment row the route creates. */
  function NewPayment(id: string, orderId: string, amount: int): Payment {
    Payment(id, orderId, amount, "mock", INIT, None, None, None)
  }

  /** `POST /api/payments/initiate` as one step over the order table and the
      payment table: `newId` is the id the database would give a new row. */
  function Initiate(orders: map<string, Order>, payments: seq<Payment>, orderId: Option<string>, newId: string): Result {
    if orderId.None? || orderId.value == "" then Result(MissingOrderId, payments)
    else if orderId.value !in orders then Result(OrderNotFound, payments)
    else
      var oid := orderId.value;
      var order := orders[oid];
      var itemsTotal := ItemsTotal(ReadItems(order.items));
      var total := Integer(order.totalAmount);
      if !total.Integer? || total.n <= 0 then Result(InvalidTotalAmount, payments)
      else if itemsTotal != total.n then Result(AmountMismatch(itemsTotal, total.n), payments)
      else match PaymentOfOrder(payments, oid)
        case Some(i) => Result(Initiated(payments[i].id, payments[i].amount), payments)
        case None =>
          var p := NewPayment(newId, oid, total.n);
          Result(Initiated(p.id, p.amount), payments + [p])
  }

  /** What the route promises. A missing id, an unknown order, a total that
      is not a positive integer and a total that differs from the lines' sum
      are rejected, each with its own response, and create nothing (the
      mismatch reports both values). Only an unknown order answers 404 and
      only a payment answers 200; every other refusal answers 400.
      Otherwise an existing payment of the order is reused unchanged and its
      stored amount reported; without one, exactly one row is added with the
      order's total, provider "mock" and status INIT. */
  lemma InitiateContract(orders: map<string, Order>, payments: seq<Payment>, orderId: Option<string>, newId: string)
    ensures var r := Initiate(orders, payments, orderId, newId);
      && (!r.response.Initiated? ==> r.payments == payments)
      && (orderId.None? || orderId == Some("") <==> r.response == MissingOrderId)
      && (orderId.Some? && orderId.value != "" && orderId.value !in orders ==> r.response == OrderNotFound)
      && (orderId.Some? && orderId.value != "" && orderId.value in orders && orders[orderId.value].totalAmount <= 0 ==>
            r.response == InvalidTotalAmount)
      && (orderId.Some? && orderId.value != "" && orderId.value in orders && orders[orderId.value].totalAmount > 0
          && ItemsTotal(ReadItems(orders[orderId.value].items)) != orders[orderId.value].totalAmount ==>
            r.response == AmountMismatch(ItemsTotal(ReadItems(orders[orderId.value].items)), orders[orderId.value].totalAmount))
      && (HttpStatus(r.response) == 404 <==> r.response == OrderNotFound)
      && (HttpStatus(r.response) == 200 <==> r.response.Initiated?)
      && (!r.response.Initiated? && r.response != OrderNotFound ==> HttpStatus(r.response) == 400)
      && (r.response.Initiated? ==>
            var oid := orderId.value;
            var o := orders[oid];
            && o.totalAmount > 0
            && ItemsTotal(ReadItems(o.items)) == o.totalAmount
            && ((exists i :: 0 <= i < |payments| && payments[i].orderId == oid) ==>
                  r.payments == payments
                  && exists j :: 0 <= j < |payments| && payments[j].orderId == oid
                       && r.response == Initiated(payments[j].id, payments[j].amount))
            && ((forall i :: 0 <= i < |payments| ==> payments[i].orderId != oid) ==>
                  && r.payments == payments + [NewPayment(newId, oid, o.totalAmount)]
                  && r.response == Initiated(newId, o.totalAmount)))
      && (r.response.AmountMismatch? ==>
            r.response.totalAmount == orders[orderId.value].totalAmount
            && r.response.itemsTotal == ItemsTotal(ReadItems(orders[orderId.value].items))
            && r.response.itemsTotal != r.response.totalAmount)
  {
  }

  /** Initiating again never creates a second payment: the second call
      returns the same response and leaves the payment table as the first
      call left it, whatever id the database would offer. */
  lemma InitiateIdempotent(orders: map<string, Order>, payments: seq<Payment>, orderId: Option<string>, id1: string, id2: string)
    requires Initiate(orders, payments, orderId, id1).response.Initiated?
    ensures var r1 := Initiate(orders, payments, orderId, id1);
      var r2 := Initiate(orders, r1.payments, orderId, id2);
      r2 == r1
  {
    var oid := orderId.value;
    var r1 := Initiate(orders, payments, orderId, id1);
    match PaymentOfOrder(payments, oid)
    case Some(i) =>
    case None =>
      var p := NewPayment(id1, oid, orders[oid].totalAmount);
      assert r1.payments[|payments|] == p;
      var found := PaymentOfOrder(r1.payments, oid);
      assert found == Some(|payments|);
  }

  /** With a fresh id, initiation keeps payment ids and order ids unique. */
  lemma InitiateKeepsPaymentsUnique(orders: map<string, Order>, payments: seq<Payment>, orderId: Option<string>, newId: string)
    requires PaymentsUnique(payments)
    requires forall i :: 0 <= i < |payments| ==> payments[i].id != newId
    ensures PaymentsUnique(Initiate(orders, payments, orderId, newId).payments)
  {
  }

  /** An order whose total is 10000 but whose lines add up to 9000 is
      refused with both values and no payment row. */
  lemma MismatchScenario(payments: seq<Payment>, newId: string)
    ensures var o := Order(PENDING, 10000, [OrderItem("p", None, 4500, 2)]);
      Initiate(map["o" := o], payments, Some("o"), newId) == Result(AmountMismatch(9000, 10000), payments)
  {
    var items := ReadItems([OrderItem("p", None, 4500, 2)]);
    assert items[..0] == [];
  }

  /** The route over the store. */
  method InitiatePayment(db: Db, orderId: Option<string>, newId: string) returns (response: Response)
    modifies db
    ensures Result(response, db.payments) == Initiate(old(db.orders), old(db.payments), orderId, newId)
    ensures db.orders == old(db.orders) && db.stock == old(db.stock)
  {
    if orderId.None? || orderId.value == "" {
      return MissingOrderId;
    }
    var oid := orderId.value;
    if oid !in db.orders {
      return OrderNotFound;
    }
    var order := db.orders[oid];
    var itemsTotal := ItemsTotal(ReadItems(order.items));
    var total := Integer(order.totalAmount);
    if !total.Integer? || total.n <= 0 {
      return InvalidTotalAmount;
    }
    if itemsTotal != total.n {
      return AmountMismatch(itemsTotal, total.n);
    }
    var payment: Payment;
    var found := PaymentOfOrder(db.payments, oid);
    if found.Some? {
      payment := db.payments[found.value];
    } else {
      payment := NewPayment(newId, oid, total.n);
      db.payments := db.payments + [payment];
    }
    return Initiated(payment.id, payment.amount);
  }
}
