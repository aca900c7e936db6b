/** The Order model: its items relation and `total()`. */
module Orders {
  import opened Shop

  /** `$order->items`: the order_items rows of order `orderId`, in table order. */
  function ItemsOf(orderItems: seq<OrderItem>, orderId: OrderId): (r: seq<OrderItem>)
    ensures |r| <= |orderItems|
    ensures forall i | 0 <= i < |r| :: r[i].orderId == orderId
    ensures forall x :: x in r <==> x in orderItems && x.orderId == orderId
  {
    if orderItems == [] then []
    else
      var rest := ItemsOf(orderItems[1..], orderId);
      if orderItems[0].orderId == orderId then [orderItems[0]] + rest else rest
  }

  /**
   * `total()`: the sum of sale price times quantity over the items. It takes the items
   * alone, so the current price of a product never enters an order's total.
   */
  function Total(items: seq<OrderItem>): int {
    if items == [] then 0 else items[0].salePrice * items[0].quantity + Total(items[1..])
  }

  /** An order without items totals zero. */
  lemma TotalOfNoItems(items: seq<OrderItem>)
    requires items == []
    ensures Total(items) == 0
  {
  }

  /** Appending an item adds its sale price times its quantity to the total. */
  lemma {:induction false} TotalAppend(items: seq<OrderItem>, x: OrderItem)
    ensures Total(items + [x]) == Total(items) + x.salePrice * x.quantity
  {
    if items != [] {
      assert (items + [x])[1..] == items[1..] + [x];
      TotalAppend(items[1..], x);
    }
  }

  /** The total of two runs of items is the sum of their totals. */
  lemma {:induction false} TotalConcat(a: seq<OrderItem>, b: seq<OrderItem>)
    ensures Total(a + b) == Total(a) + Total(b)
  {
    if a == [] {
      assert a + b == b;
    } else {
      assert (a + b)[1..] == a[1..] + b;
      TotalConcat(a[1..], b);
    }
  }

  /** With non-negative prices and quantities the total is non-negative. */
  lemma {:induction false} TotalNonNegative(items: seq<OrderItem>)
    requires forall i | 0 <= i < |items| :: items[i].salePrice >= 0 && items[i].quantity >= 0
    ensures Total(items) >= 0
  {
    if items != [] {
      TotalNonNegative(items[1..]);
    }
  }

  /** Selecting one order's items distributes over appending rows to the table. */
  lemma {:induction false} ItemsOfConcat(a: seq<OrderItem>, b: seq<OrderItem>, orderId: OrderId)
    ensures ItemsOf(a + b, orderId) == ItemsOf(a, orderId) + ItemsOf(b, orderId)
  {
    if a == [] {
      assert a + b == b;
    } else {
      assert (a + b)[1..] == a[1..] + b;
      ItemsOfConcat(a[1..], b, orderId);
    }
  }

  /** When every row belongs to the order, the order's items are the whole table. */
  lemma {:induction false} ItemsOfAll(items: seq<OrderItem>, orderId: OrderId)
    requires forall i | 0 <= i < |items| :: items[i].orderId == orderId
    ensures ItemsOf(items, orderId) == items
  {
    if items != [] {
      ItemsOfAll(items[1..], orderId);
    }
  }

  /** When no row belongs to the order, it has no items. */
  lemma {:induction false} ItemsOfNone(items: seq<OrderItem>, orderId: OrderId)
    requires forall i | 0 <= i < |items| :: items[i].orderId != orderId
    ensures ItemsOf(items, orderId) == []
  {
    if items != [] {
      ItemsOfNone(items[1..], orderId);
    }
  }
}
