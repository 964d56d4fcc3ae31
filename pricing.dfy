/** Discount resolution and order totals (src/pages/Orders.jsx, `calculateDiscountedAmount`
    and the per-line price shown in the order card). Amounts are whole currency units. */
module Pricing {
  import opened OrderModel

  /** `Math.round(price - price * discount / 100)`. The exact value is
      (100 * price - price * discount) / 100 and `Math.round` takes the nearest integer,
      ties toward +infinity; floor division by a positive divisor makes the closed form exact. */
  function UnitPrice(price: int, discount: int): (r: int)
    ensures 100 * r - 50 <= 100 * price - price * discount < 100 * r + 50
  {
    assert price * (100 - discount) == 100 * price - price * discount;
    (price * (100 - discount) + 50) / 100
  }

  /** `Math.round` has exactly one answer: any integer within half a unit of the exact
      value (ties counted upward) is the unit price. */
  lemma UnitPriceUnique(price: int, discount: int, r: int)
    requires 100 * r - 50 <= 100 * price - price * discount < 100 * r + 50
    ensures r == UnitPrice(price, discount)
  {
    var u := UnitPrice(price, discount);
    assert 100 * r - 50 < 100 * u + 50 && 100 * u - 50 < 100 * r + 50;
  }

  /** `item.discount || 0`. */
  function DiscountOf(item: LineItem): int
  {
    match item.discount
    case None => 0
    case Some(d) => d
  }

  /** The effective unit price of a line. */
  function EffectivePrice(item: LineItem): int
  {
    UnitPrice(item.price, DiscountOf(item))
  }

  /** With no discount the unit price is the list price; with a discount in [0, 100]
      on a non-negative price it lies in [0, price]. */
  lemma {:induction false} UnitPriceBounds(price: int, discount: int)
    requires price >= 0 && 0 <= discount <= 100
    ensures 0 <= UnitPrice(price, discount) <= price
    ensures discount == 0 ==> UnitPrice(price, discount) == price
  {
    var r := UnitPrice(price, discount);
    ScaleBounds(discount, 100, price);
    assert 0 <= discount * price <= 100 * price;
    assert discount * price == price * discount;
  }

  /** A larger discount never gives a higher unit price. */
  lemma UnitPriceAntitone(price: int, d1: int, d2: int)
    requires price >= 0 && d1 <= d2
    ensures UnitPrice(price, d2) <= UnitPrice(price, d1)
  {
    assert price * d1 <= price * d2 by {
      assert price * (d2 - d1) >= 0;
    }
  }

  /** A missing or zero discount leaves the list price untouched. */
  lemma NoDiscountIsListPrice(item: LineItem)
    requires item.discount == None || item.discount == Some(0)
    ensures EffectivePrice(item) == item.price
  {
  }

  /** The price the order card prints per unit: `item.discount ? Math.round(...) : item.price`. */
  function DisplayedUnitPrice(item: LineItem): (r: int)
    ensures r == EffectivePrice(item)
  {
    if DiscountOf(item) != 0 then UnitPrice(item.price, DiscountOf(item)) else item.price
  }

  /** One line's contribution: rounded unit price times quantity. */
  function LineTotal(item: LineItem): int
  {
    EffectivePrice(item) * item.quantity
  }

  /** The order's actual total: the sum of its line totals. */
  function OrderTotal(items: seq<LineItem>): int
  {
    if items == [] then 0 else OrderTotal(items[..|items| - 1]) + LineTotal(items[|items| - 1])
  }

  /** `calculateDiscountedAmount`: accumulates the line totals in order. */
  method CalculateDiscountedAmount(items: seq<LineItem>) returns (total: int)
    ensures total == OrderTotal(items)
  {
    total := 0;
    for i := 0 to |items|
      invariant total == OrderTotal(items[..i])
    {
      var price := items[i].price;
      var discount := DiscountOf(items[i]);
      var finalPrice := UnitPrice(price, discount);
      assert items[..i + 1][..i] == items[..i];
      total := total + finalPrice * items[i].quantity;
    }
    assert items[..|items|] == items;
  }

  /** Totals of concatenated item lists add up. */
  lemma {:induction false} OrderTotalAppend(a: seq<LineItem>, b: seq<LineItem>)
    ensures OrderTotal(a + b) == OrderTotal(a) + OrderTotal(b)
  {
    if b != [] {
      var b' := b[..|b| - 1];
      assert (a + b)[..|a + b| - 1] == a + b';
      OrderTotalAppend(a, b');
    } else {
      assert a + b == a;
    }
  }

  /** The undiscounted amount: list price times quantity, summed. */
  function ListTotal(items: seq<LineItem>): int
  {
    if items == [] then 0 else ListTotal(items[..|items| - 1]) + items[|items| - 1].price * items[|items| - 1].quantity
  }

  /** A line the checkout would produce: non-negative price and quantity, discount in [0, 100]. */
  predicate WellFormed(item: LineItem)
  {
    item.price >= 0 && item.quantity >= 0 && 0 <= DiscountOf(item) <= 100
  }

  /** For well-formed lines the actual total lies between 0 and the undiscounted total. */
  lemma {:induction false} OrderTotalBounds(items: seq<LineItem>)
    requires forall i :: 0 <= i < |items| ==> WellFormed(items[i])
    ensures 0 <= OrderTotal(items) <= ListTotal(items)
  {
    if items != [] {
      var last := items[|items| - 1];
      OrderTotalBounds(items[..|items| - 1]);
      UnitPriceBounds(last.price, DiscountOf(last));
      ScaleBounds(EffectivePrice(last), last.price, last.quantity);
      assert OrderTotal(items) == OrderTotal(items[..|items| - 1]) + LineTotal(last);
    }
  }

  /** Multiplying by a non-negative quantity keeps 0 <= u <= p. */
  lemma ScaleBounds(u: int, p: int, q: int)
    requires 0 <= u <= p && q >= 0
    ensures 0 <= u * q <= p * q
  {
    assert (p - u) * q >= 0;
  }

  /** Rounding is per unit, before multiplying: one unit of price 1 at 50% costs
      round(0.5) = 1, so two units cost 2, although the exact line amount is 1. */
  lemma RoundingIsPerUnit()
    ensures var item := LineItem("", "", 1, Some(50), 2);
            OrderTotal([item]) == 2 && 100 * item.price * item.quantity - item.price * 50 * item.quantity == 100
  {
    var item := LineItem("", "", 1, Some(50), 2);
    assert [item][..0] == [];
  }

  /** A single line of price 1000 at 10% bought twice costs 900 per unit, 1800 in all. */
  lemma DeliveredExampleTotal()
    ensures EffectivePrice(LineItem("", "", 1000, Some(10), 2)) == 900
    ensures OrderTotal([LineItem("", "", 1000, Some(10), 2)]) == 1800
  {
    assert [LineItem("", "", 1000, Some(10), 2)][..0] == [];
  }

  /** Lines (500, 0%, 1) and (300, 50%, 3) cost 500 + 150 * 3 = 950. */
  lemma CancelledExampleTotal()
    ensures OrderTotal([LineItem("", "", 500, Some(0), 1), LineItem("", "", 300, Some(50), 3)]) == 950
  {
    var items := [LineItem("", "", 500, Some(0), 1), LineItem("", "", 300, Some(50), 3)];
    assert items[..1] == [items[0]];
    assert items[..1][..0] == [];
  }
}
