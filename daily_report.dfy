/**
 * The daily order report job: selects the orders of the last day and reports their count,
 * their revenue, the units sold, the number of distinct buyers and the list of products
 * sold, to the administrator's address when one is configured.
 */
module DailyReport {
  import opened Optional
  import opened Shop
  import opened Orders

  /** `now()->subDays(1)`: one day, in seconds. */
  const SecondsPerDay: int := 86400

  /** What the report mail carries. */
  datatype Report = Report(
    totalOrders: nat,
    totalAmount: int,
    totalProducts: int,
    totalUsers: nat,
    products: seq<Product>)

  /** The orders created at or after `since`, in table order. */
  function Recent(orders: seq<Order>, since: int): (r: seq<Order>)
    ensures |r| <= |orders|
    ensures forall i | 0 <= i < |r| :: r[i].createdAt >= since
    ensures forall o :: o in r <==> o in orders && o.createdAt >= since
  {
    if orders == [] then []
    else
      var rest := Recent(orders[1..], since);
      if orders[0].createdAt >= since then [orders[0]] + rest else rest
  }

  /**
   * The selection keeps table order: over two runs of orders it is the two selections in
   * turn, so an order is kept exactly once, in place, when it is recent.
   */
  lemma {:induction false} RecentConcat(a: seq<Order>, b: seq<Order>, since: int)
    ensures Recent(a + b, since) == Recent(a, since) + Recent(b, since)
  {
    if a == [] {
      assert a + b == b;
    } else {
      assert (a + b)[1..] == a[1..] + b;
      RecentConcat(a[1..], b, since);
    }
  }

  /** One order is selected exactly when it was created at or after the cut-off. */
  lemma RecentOne(o: Order, since: int)
    ensures Recent([o], since) == if o.createdAt >= since then [o] else []
  {
    assert [o][1..] == [];
  }

  /** The sum of every order's `total()`. */
  function Amount(orders: seq<Order>, orderItems: seq<OrderItem>): int {
    if orders == [] then 0
    else Total(ItemsOf(orderItems, orders[0].id)) + Amount(orders[1..], orderItems)
  }

  /** The units in a run of items: the sum of their quantities. */
  function Units(items: seq<OrderItem>): int {
    if items == [] then 0 else items[0].quantity + Units(items[1..])
  }

  /** The units sold over all the orders. */
  function UnitsOf(orders: seq<Order>, orderItems: seq<OrderItem>): int {
    if orders == [] then 0
    else Units(ItemsOf(orderItems, orders[0].id)) + UnitsOf(orders[1..], orderItems)
  }

  /** The distinct buyers of the orders. */
  function UserIds(orders: seq<Order>): (r: set<UserId>)
    ensures |r| <= |orders|
    ensures forall u :: u in r <==> exists i | 0 <= i < |orders| :: orders[i].userId == u
  {
    if orders == [] then {}
    else
      var rest := UserIds(orders[1..]);
      assert forall i | 1 <= i < |orders| :: orders[1..][i - 1] == orders[i];
      {orders[0].userId} + rest
  }

  /** The number of items over all the orders. */
  function ItemCount(orders: seq<Order>, orderItems: seq<OrderItem>): nat {
    if orders == [] then 0
    else
      var n := |orders| - 1;
      ItemCount(orders[..n], orderItems) + |ItemsOf(orderItems, orders[n].id)|
  }

  /** The products of the items, in item order, skipping an item whose product no longer exists. */
  function ItemProducts(items: seq<OrderItem>, products: map<ProductId, Product>): (r: seq<Product>)
    ensures |r| <= |items|
    ensures (forall i | 0 <= i < |items| :: items[i].productId in products) ==> |r| == |items|
  {
    if items == [] then []
    else
      var n := |items| - 1;
      var prefix := ItemProducts(items[..n], products);
      if items[n].productId in products then prefix + [products[items[n].productId]] else prefix
  }

  /** A product is listed exactly when some item refers to it and it still exists. */
  lemma {:induction false} ItemProductsMembers(items: seq<OrderItem>, products: map<ProductId, Product>)
    ensures forall p :: p in ItemProducts(items, products) <==>
      exists i | 0 <= i < |items| :: items[i].productId in products && p == products[items[i].productId]
  {
    if items != [] {
      var n := |items| - 1;
      ItemProductsMembers(items[..n], products);
      forall p ensures p in ItemProducts(items, products) <==>
        exists i | 0 <= i < |items| :: items[i].productId in products && p == products[items[i].productId]
      {
        if i :| 0 <= i < n && items[..n][i].productId in products && p == products[items[..n][i].productId] {
          assert items[i] == items[..n][i];
        }
        if i :| 0 <= i < |items| && items[i].productId in products && p == products[items[i].productId] {
          if i < n {
            assert items[..n][i] == items[i];
          }
        }
      }
    }
  }

  /** When every item's product exists, entry i is the product of item i. */
  lemma {:induction false} ItemProductsAll(items: seq<OrderItem>, products: map<ProductId, Product>)
    requires forall i | 0 <= i < |items| :: items[i].productId in products
    ensures |ItemProducts(items, products)| == |items|
    ensures forall i | 0 <= i < |items| :: ItemProducts(items, products)[i] == products[items[i].productId]
  {
    if items != [] {
      var n := |items| - 1;
      ItemProductsAll(items[..n], products);
      forall i | 0 <= i < n ensures ItemProducts(items, products)[i] == products[items[i].productId] {
        assert items[..n][i] == items[i];
      }
    }
  }

  /** The products of all the orders' items, order after order. */
  function ProductsOf(orders: seq<Order>, orderItems: seq<OrderItem>, products: map<ProductId, Product>)
    : (r: seq<Product>)
    ensures |r| <= ItemCount(orders, orderItems)
  {
    if orders == [] then []
    else
      var n := |orders| - 1;
      ProductsOf(orders[..n], orderItems, products) + ItemProducts(ItemsOf(orderItems, orders[n].id), products)
  }

  /** The inner loop: appends the products of one order's items to `list`. */
  method AppendItemProducts(list: seq<Product>, items: seq<OrderItem>, products: map<ProductId, Product>)
    returns (r: seq<Product>)
    ensures r == list + ItemProducts(items, products)
  {
    r := list;
    var j := 0;
    while j < |items|
      invariant 0 <= j <= |items|
      invariant r == list + ItemProducts(items[..j], products)
    {
      if items[j].productId in products {
        r := r + [products[items[j].productId]];
      }
      assert items[..j + 1][..j] == items[..j];
      j := j + 1;
    }
    assert items[..j] == items;
  }

  /** The nested loops that build the product list. */
  method ProductList(orders: seq<Order>, orderItems: seq<OrderItem>, products: map<ProductId, Product>)
    returns (list: seq<Product>)
    ensures list == ProductsOf(orders, orderItems, products)
  {
    list := [];
    var i := 0;
    while i < |orders|
      invariant 0 <= i <= |orders|
      invariant list == ProductsOf(orders[..i], orderItems, products)
    {
      list := AppendItemProducts(list, ItemsOf(orderItems, orders[i].id), products);
      ProductsOfStep(orders, orderItems, products, i);
      i := i + 1;
    }
    assert orders[..i] == orders;
  }

  /** One more order adds the products of its items at the end. */
  lemma ProductsOfStep(orders: seq<Order>, orderItems: seq<OrderItem>, products: map<ProductId, Product>, i: nat)
    requires i < |orders|
    ensures ProductsOf(orders[..i + 1], orderItems, products)
         == ProductsOf(orders[..i], orderItems, products) + ItemProducts(ItemsOf(orderItems, orders[i].id), products)
  {
    assert orders[..i + 1][..i] == orders[..i];
  }

  /** PHP truthiness of the configured address: set, not empty and not "0". */
  predicate Truthy(s: Option<string>) {
    s.Some? && s.value != "" && s.value != "0"
  }

  /**
   * `handle()`: the report over the orders created in the day before `now`, and the address
   * it is mailed to, if any.
   */
  method Handle(orders: seq<Order>, orderItems: seq<OrderItem>, products: map<ProductId, Product>,
                now: int, adminEmail: Option<string>)
    returns (report: Report, recipient: Option<string>)
    ensures var recent := Recent(orders, now - SecondsPerDay);
      && report.totalOrders == |recent|
      && report.totalAmount == Amount(recent, orderItems)
      && report.totalProducts == UnitsOf(recent, orderItems)
      && report.totalUsers == |UserIds(recent)|
      && report.products == ProductsOf(recent, orderItems, products)
    ensures report.totalUsers <= report.totalOrders
    ensures |report.products| <= ItemCount(Recent(orders, now - SecondsPerDay), orderItems)
    ensures recipient.Some? <==> Truthy(adminEmail)
    ensures recipient.Some? ==> recipient == adminEmail
  {
    var recent := Recent(orders, now - SecondsPerDay);
    var list := ProductList(recent, orderItems, products);
    report := Report(|recent|, Amount(recent, orderItems), UnitsOf(recent, orderItems), |UserIds(recent)|, list);
    recipient := if Truthy(adminEmail) then adminEmail else None;
  }

  // ---------------------------------------------------------------------------
  // Properties of the aggregates

  /** The revenue is additive over the orders: a day's report is the sum of any split of it. */
  lemma {:induction false} AmountConcat(a: seq<Order>, b: seq<Order>, orderItems: seq<OrderItem>)
    ensures Amount(a + b, orderItems) == Amount(a, orderItems) + Amount(b, orderItems)
  {
    if a == [] {
      assert a + b == b;
    } else {
      assert (a + b)[1..] == a[1..] + b;
      AmountConcat(a[1..], b, orderItems);
    }
  }

  /** With non-negative sale prices and quantities the revenue is non-negative. */
  lemma {:induction false} AmountNonNegative(orders: seq<Order>, orderItems: seq<OrderItem>)
    requires forall i | 0 <= i < |orderItems| :: orderItems[i].salePrice >= 0 && orderItems[i].quantity >= 0
    ensures Amount(orders, orderItems) >= 0
  {
    if orders != [] {
      var items := ItemsOf(orderItems, orders[0].id);
      assert forall i | 0 <= i < |items| :: items[i] in orderItems;
      TotalNonNegative(items);
      AmountNonNegative(orders[1..], orderItems);
    }
  }

  /** With non-negative quantities the units of a run of items are non-negative. */
  lemma {:induction false} UnitsNonNegative(items: seq<OrderItem>)
    requires forall i | 0 <= i < |items| :: items[i].quantity >= 0
    ensures Units(items) >= 0
  {
    if items != [] {
      UnitsNonNegative(items[1..]);
    }
  }

  /** With non-negative quantities the units sold are non-negative. */
  lemma {:induction false} UnitsOfNonNegative(orders: seq<Order>, orderItems: seq<OrderItem>)
    requires forall i | 0 <= i < |orderItems| :: orderItems[i].quantity >= 0
    ensures UnitsOf(orders, orderItems) >= 0
  {
    if orders != [] {
      var items := ItemsOf(orderItems, orders[0].id);
      assert forall i | 0 <= i < |items| :: items[i] in orderItems;
      UnitsNonNegative(items);
      UnitsOfNonNegative(orders[1..], orderItems);
    }
  }
}
