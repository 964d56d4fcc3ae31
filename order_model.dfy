/** The order records the admin orders page receives from the backend, and the
    payment-status classifier shown beside every order (src/pages/Orders.jsx). */
module OrderModel {

  /** The eight order statuses an administrator can set. */
  datatype Status =
    | OrderPlaced
    | Packing
    | Shipped
    | OutForDelivery
    | Delivered
    | TopPriority
    | Cancelled
    | CancelAndRefund

  /** The string the backend stores for each status. */
  function StatusLabel(s: Status): string
  {
    match s
    case OrderPlaced => "Order Placed"
    case Packing => "Packing"
    case Shipped => "Shipped"
    case OutForDelivery => "Out for delivery"
    case Delivered => "Delivered"
    case TopPriority => "Top Priority"
    case Cancelled => "Cancelled"
    case CancelAndRefund => "Cancel and Refund"
  }

  /** One product line. `discount` is a percentage; `None` stands for a missing,
      null or NaN discount, all of which `item.discount || 0` turns into 0.
      An empty `id` stands for a missing product reference. */
  datatype LineItem = LineItem(id: string, name: string, price: int, discount: Option<int>, quantity: int)

  datatype Option<T> = None | Some(value: T)

  /** The customer contact fields the order search looks at. */
  datatype Address = Address(firstName: string, lastName: string, email: string, phone: string)

  /** An order's creation time: `stamp` orders timestamps (what `new Date(a) - new Date(b)`
      compares); `year`, `month` (0 = January) and `day` (an ordinal of the local calendar
      date, the value `toLocaleDateString('en-CA')` renders) are its local-time projections. */
  datatype OrderDate = OrderDate(stamp: int, year: int, month: MonthIndex, day: int)

  /** A month as `getMonth()` numbers it: 0 is January, 11 is December. */
  type MonthIndex = m: int | 0 <= m < 12

  datatype Order = Order(
    id: string,
    items: seq<LineItem>,
    address: Address,
    paymentMethod: string,
    payment: bool,
    status: Status,
    date: OrderDate)

  /** The order's local calendar date is `day` (`toLocaleDateString('en-CA')` equals the
      date picker's value). */
  predicate OnDay(o: Order, day: int)
  {
    o.date.day == day
  }

  const Razorpay: string := "Razorpay"

  /** The classification `getPaymentStatus` returns. */
  datatype Payment = Paid | Pending | Cancelled | Refunded

  /** One line of the classifier's priority table: if `applies`, the answer is `outcome`. */
  datatype Rule = Rule(applies: bool, outcome: Payment)

  /** The outcome of the first applicable rule, or `otherwise` when none applies. */
  function FirstMatch(rules: seq<Rule>, otherwise: Payment): Payment
  {
    if rules == [] then otherwise
    else if rules[0].applies then rules[0].outcome
    else FirstMatch(rules[1..], otherwise)
  }

  /** The payment classification as a priority table: refund, cancellation, delivery,
      then a confirmed Razorpay capture; anything else is pending. */
  function ClassificationRules(o: Order): seq<Rule>
  {
    [ Rule(o.status == CancelAndRefund, Refunded),
      Rule(o.status == Status.Cancelled, Payment.Cancelled),
      Rule(o.status == Delivered, Paid),
      Rule(o.paymentMethod == Razorpay && o.payment, Paid) ]
  }

  /** `getPaymentStatus`: the nested conditional of the source agrees with the priority table. */
  function PaymentStatus(o: Order): (r: Payment)
    ensures r == FirstMatch(ClassificationRules(o), Pending)
  {
    var rules := ClassificationRules(o);
    if o.status == Status.Cancelled || o.status == CancelAndRefund then
      (if o.status == CancelAndRefund then Refunded else Payment.Cancelled)
    else if o.status == Delivered || (o.paymentMethod == Razorpay && o.payment) then
      assert FirstMatch(rules[2..], Pending) == Paid;
      Paid
    else
      assert FirstMatch(rules[3..], Pending) == Pending;
      assert FirstMatch(rules[1..], Pending) == Pending;
      Pending
  }

  /** A cancellation or refund outranks any payment flag. */
  lemma CancellationOutranksPayment(o: Order)
    ensures o.status == CancelAndRefund ==> PaymentStatus(o) == Refunded
    ensures o.status == Status.Cancelled ==> PaymentStatus(o) == Payment.Cancelled
  {
  }

  /** An order is paid only when delivered or when Razorpay confirmed the capture;
      an unconfirmed Razorpay order that is not delivered is never paid. */
  lemma PaidOnlyWhenSettled(o: Order)
    ensures PaymentStatus(o) == Paid <==>
              o.status == Delivered || (o.paymentMethod == Razorpay && o.payment
                                        && o.status != Status.Cancelled && o.status != CancelAndRefund)
    ensures o.paymentMethod == Razorpay && !o.payment && o.status != Delivered ==> PaymentStatus(o) != Paid
  {
  }

  /** The listing's "failed Razorpay checkout" test (`paymentMethod === 'Razorpay' &&
      payment !== true`), distinct from the four-way classification. */
  predicate IsFailedCheckout(o: Order)
  {
    o.paymentMethod == Razorpay && !o.payment
  }
}
