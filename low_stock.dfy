/**
 * The listener run after an order is processed: collects the products of the order's items
 * whose stock is at or below the configured threshold, and mails them to the administrator
 * when there is at least one.
 */
module LowStockListener {
  import opened Shop
  import opened Orders

  /** The products of the items whose stock is at most `threshold`, in item order, one per item. */
  function LowStockOf(items: seq<OrderItem>, products: map<ProductId, Product>, threshold: int): (r: seq<Product>)
    requires forall i | 0 <= i < |items| :: items[i].productId in products
    ensures |r| <= |items|
    ensures forall i | 0 <= i < |r| :: r[i].stock <= threshold
  {
    if items == [] then []
    else
      var n := |items| - 1;
      var prefix := LowStockOf(items[..n], products, threshold);
      var product := products[items[n].productId];
      if product.stock <= threshold then prefix + [product] else prefix
  }

  /**
   * `handle()`: the low-stock products of order `orderId`, and whether the alert mail is
   * sent. Each item's product is loaded from `products`.
   */
  method Handle(orderId: OrderId, orderItems: seq<OrderItem>, products: map<ProductId, Product>, threshold: int)
    returns (lowStock: seq<Product>, sendMail: bool)
    requires forall i | 0 <= i < |orderItems| && orderItems[i].orderId == orderId :: orderItems[i].productId in products
    ensures var items := ItemsOf(orderItems, orderId);
      (forall i | 0 <= i < |items| :: items[i].productId in products)
      && lowStock == LowStockOf(items, products, threshold)
    ensures sendMail <==> lowStock != []
  {
    var items := ItemsOf(orderItems, orderId);
    assert forall i | 0 <= i < |items| :: items[i] in orderItems;
    lowStock := [];
    var i := 0;
    while i < |items|
      invariant 0 <= i <= |items|
      invariant lowStock == LowStockOf(items[..i], products, threshold)
    {
      var product := products[items[i].productId];
      if product.stock <= threshold {
        lowStock := lowStock + [product];
      }
      assert items[..i + 1][..i] == items[..i];
      i := i + 1;
    }
    assert items[..i] == items;
    sendMail := lowStock != [];
  }

  // ---------------------------------------------------------------------------
  // Properties of the filter

  /**
   * The reported products are exactly those of the items at or below the threshold: each
   * reported product is such an item's product, and each such item's product is reported.
   */
  lemma {:induction false} LowStockMembers(items: seq<OrderItem>, products: map<ProductId, Product>, threshold: int)
    requires forall i | 0 <= i < |items| :: items[i].productId in products
    ensures forall p | p in LowStockOf(items, products, threshold) ::
      exists i | 0 <= i < |items| :: p == products[items[i].productId]
    ensures forall i | 0 <= i < |items| && products[items[i].productId].stock <= threshold ::
      products[items[i].productId] in LowStockOf(items, products, threshold)
  {
    if items != [] {
      var n := |items| - 1;
      LowStockMembers(items[..n], products, threshold);
      assert forall i | 0 <= i < n :: items[..n][i] == items[i];
    }
  }

  /** The filter keeps the order of the items: on two runs of items it is the two results in turn. */
  lemma {:induction false} LowStockAppend(a: seq<OrderItem>, b: seq<OrderItem>, products: map<ProductId, Product>,
                                          threshold: int)
    requires forall i | 0 <= i < |a| :: a[i].productId in products
    requires forall i | 0 <= i < |b| :: b[i].productId in products
    ensures forall i | 0 <= i < |a + b| :: (a + b)[i].productId in products
    ensures LowStockOf(a + b, products, threshold)
         == LowStockOf(a, products, threshold) + LowStockOf(b, products, threshold)
  {
    assert forall i | 0 <= i < |a + b| :: (a + b)[i].productId in products by {
      forall i | 0 <= i < |a + b| ensures (a + b)[i].productId in products {
        if i >= |a| { assert (a + b)[i] == b[i - |a|]; }
      }
    }
    if b == [] {
      assert a + b == a;
    } else {
      var n := |b| - 1;
      assert (a + b)[..|a| + n] == a + b[..n];
      LowStockAppend(a, b[..n], products, threshold);
    }
  }

  /** With every stock above the threshold nothing is reported and no mail is sent. */
  lemma {:induction false} LowStockNone(items: seq<OrderItem>, products: map<ProductId, Product>, threshold: int)
    requires forall i | 0 <= i < |items| :: items[i].productId in products
    requires forall i | 0 <= i < |items| :: products[items[i].productId].stock > threshold
    ensures LowStockOf(items, products, threshold) == []
  {
    if items != [] {
      LowStockNone(items[..|items| - 1], products, threshold);
    }
  }
}
