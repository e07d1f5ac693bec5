/** The rows the order and payment code reads and writes, and the in-memory
    store that stands in for the database: orders keyed by id, variant stock
    keyed by variant id, and the payment table in insertion order. */
module Store {
  import opened Common

  datatype OrderStatus = PENDING | PAID | FULFILLED | CANCELED | REFUNDED

  /** `Object.values(OrderStatus).includes(s)`: the status named by `s`,
      or None for any other string. */
  function ParseStatus(s: string): (r: Option<OrderStatus>)
    ensures r.Some? <==> s in {"PENDING", "PAID", "FULFILLED", "CANCELED", "REFUNDED"}
    ensures r.Some? ==> StatusName(r.value) == s
  {
    match s
    case "PENDING" => Some(PENDING)
    case "PAID" => Some(OrderStatus.PAID)
    case "FULFILLED" => Some(FULFILLED)
    case "CANCELED" => Some(OrderStatus.CANCELED)
    case "REFUNDED" => Some(REFUNDED)
    case _ => None
  }

  function StatusName(s: OrderStatus): string {
    match s
    case PENDING => "PENDING"
    case PAID => "PAID"
    case FULFILLED => "FULFILLED"
    case CANCELED => "CANCELED"
    case REFUNDED => "REFUNDED"
  }

  /** Every status is recognised by its own name. */
  lemma ParseStatusName(s: OrderStatus)
    ensures ParseStatus(StatusName(s)) == Some(s)
  {
  }

  /** An order line: a snapshot of the price and quantity at order time. */
  datatype OrderItem = OrderItem(productId: string, variantId: Option<string>, unitPrice: int, qty: int)

  datatype Order = Order(status: OrderStatus, totalAmount: int, items: seq<OrderItem>)

  datatype PaymentStatus = INIT | PAID | FAILED | CANCELED

  datatype Payment = Payment(
    id: string,
    orderId: string,
    amount: int,
    provider: string,
    status: PaymentStatus,
    providerPaymentId: Option<string>,
    failureCode: Option<string>,
    failureMessage: Option<string>)

  /** At most one payment row per id and at most one per order (the two
      unique columns of the payment table). */
  predicate PaymentsUnique(ps: seq<Payment>) {
    forall i, j :: 0 <= i < j < |ps| ==> ps[i].id != ps[j].id && ps[i].orderId != ps[j].orderId
  }

  /** `findUnique({ where: { orderId } })` on the payment table. */
  function PaymentOfOrder(ps: seq<Payment>, orderId: string): Option<nat> {
    FindFirst(ps, (p: Payment) => p.orderId == orderId)
  }

  /** `findUnique({ where: { id } })` on the payment table. */
  function PaymentWithId(ps: seq<Payment>, id: string): Option<nat> {
    FindFirst(ps, (p: Payment) => p.id == id)
  }

  /** The store the order and payment handlers work on. Each handler is a
      method that changes these fields as one atomic step. */
  class Db {
    var orders: map<string, Order>
    var stock: map<string, int>
    var payments: seq<Payment>

    constructor (orders: map<string, Order>, stock: map<string, int>, payments: seq<Payment>)
      ensures this.orders == orders && this.stock == stock && this.payments == payments
    {
      this.orders := orders;
      this.stock := stock;
      this.payments := payments;
    }
  }
}
