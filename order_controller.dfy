/**
 * Checkout: turns the user's cart into an order. A validation pass rejects the cart when a
 * line asks for more than the product's stock; otherwise a commit pass, run as one database
 * transaction, creates the order and one item per line with the price of the moment,
 * decrements the stock and deletes the cart. A failure anywhere in the commit pass rolls
 * every table back. A failure while reloading the order after the commit is caught by the
 * same handler: the checkout reports the error, but the committed order stays.
 */
module OrderController {
  import opened Optional
  import opened Shop
  import opened Orders
  import CartController

  datatype CheckoutResult =
    | RedirectToLogin                             // no authenticated user
    | EmptyCart                                   // "Your cart is empty."
    | InsufficientStock(products: seq<Product>)   // the products of the lines that exceed stock
    | TransactionFailed                           // an exception in the `try` block
    | Placed(orderId: OrderId, total: int)        // the new order and its total

  // ---------------------------------------------------------------------------
  // Validation pass

  /** The (loaded) products of the lines whose quantity exceeds the stock, in cart order. */
  function Shortfall(cartLines: seq<CartLine>, products: map<ProductId, Product>): (r: seq<Product>)
    requires forall i | 0 <= i < |cartLines| :: cartLines[i].productId in products
    ensures |r| <= |cartLines|
    ensures r == [] <==>
      forall i | 0 <= i < |cartLines| :: cartLines[i].quantity <= products[cartLines[i].productId].stock
  {
    if cartLines == [] then []
    else
      var n := |cartLines| - 1;
      var prefix := Shortfall(cartLines[..n], products);
      var line := cartLines[n];
      if line.quantity > products[line.productId].stock then prefix + [products[line.productId]] else prefix
  }

  /**
   * The reported products are exactly those of the lines asking for more than the stock:
   * each reported product is such a line's, and each such line's product is reported.
   */
  lemma {:induction false} ShortfallMembers(cartLines: seq<CartLine>, products: map<ProductId, Product>)
    requires forall i | 0 <= i < |cartLines| :: cartLines[i].productId in products
    ensures forall x | x in Shortfall(cartLines, products) :: exists i | 0 <= i < |cartLines| ::
      x == products[cartLines[i].productId] && cartLines[i].quantity > x.stock
    ensures forall i | 0 <= i < |cartLines| && cartLines[i].quantity > products[cartLines[i].productId].stock ::
      products[cartLines[i].productId] in Shortfall(cartLines, products)
  {
    if cartLines != [] {
      var n := |cartLines| - 1;
      ShortfallMembers(cartLines[..n], products);
      assert forall i | 0 <= i < n :: cartLines[..n][i] == cartLines[i];
    }
  }

  /** The validation loop: flags low stock and collects the offending products. */
  method ValidateStock(cartLines: seq<CartLine>, products: map<ProductId, Product>)
    returns (isLowStock: bool, lowStock: seq<Product>)
    requires forall i | 0 <= i < |cartLines| :: cartLines[i].productId in products
    ensures lowStock == Shortfall(cartLines, products)
    ensures isLowStock <==> lowStock != []
  {
    isLowStock := false;
    lowStock := [];
    var i := 0;
    while i < |cartLines|
      invariant 0 <= i <= |cartLines|
      invariant lowStock == Shortfall(cartLines[..i], products)
      invariant isLowStock <==> lowStock != []
    {
      var line := cartLines[i];
      if line.quantity > products[line.productId].stock {
        isLowStock := true;
        lowStock := lowStock + [products[line.productId]];
      }
      assert cartLines[..i + 1][..i] == cartLines[..i];
      i := i + 1;
    }
    assert cartLines[..i] == cartLines;
  }

  // ---------------------------------------------------------------------------
  // Commit pass, as a function of the tables

  /** One order item per line, with the line's product and quantity and the price of the moment. */
  function SaleItems(cartLines: seq<CartLine>, products: map<ProductId, Product>, orderId: OrderId)
    : (r: seq<OrderItem>)
    requires forall i | 0 <= i < |cartLines| :: cartLines[i].productId in products
    ensures |r| == |cartLines|
  {
    if cartLines == [] then []
    else
      var n := |cartLines| - 1;
      var line := cartLines[n];
      SaleItems(cartLines[..n], products, orderId)
        + [OrderItem(orderId, line.productId, products[line.productId].price, line.quantity)]
  }

  /** Item `i` is line `i`'s product and quantity at its product's price, under order `orderId`. */
  lemma {:induction false} SaleItemsAt(cartLines: seq<CartLine>, products: map<ProductId, Product>, orderId: OrderId)
    requires forall i | 0 <= i < |cartLines| :: cartLines[i].productId in products
    ensures var r := SaleItems(cartLines, products, orderId);
      forall i | 0 <= i < |r| ::
        r[i] == OrderItem(orderId, cartLines[i].productId, products[cartLines[i].productId].price,
                          cartLines[i].quantity)
  {
    if cartLines != [] {
      var n := |cartLines| - 1;
      SaleItemsAt(cartLines[..n], products, orderId);
    }
  }

  /** The products after each line's quantity is taken off its product's stock, in turn. */
  function Decremented(products: map<ProductId, Product>, cartLines: seq<CartLine>)
    : (r: map<ProductId, Product>)
    requires forall i | 0 <= i < |cartLines| :: cartLines[i].productId in products
    ensures r.Keys == products.Keys
  {
    if cartLines == [] then products
    else
      var n := |cartLines| - 1;
      var before := Decremented(products, cartLines[..n]);
      var line := cartLines[n];
      before[line.productId := before[line.productId].(stock := before[line.productId].stock - line.quantity)]
  }

  /** The total quantity the lines take of product `productId`. */
  function QuantityFor(cartLines: seq<CartLine>, productId: ProductId): int {
    if cartLines == [] then 0
    else
      var n := |cartLines| - 1;
      QuantityFor(cartLines[..n], productId)
        + (if cartLines[n].productId == productId then cartLines[n].quantity else 0)
  }

  /** The database writes of the commit pass: the order, an item and a decrement per line, the lines, the cart. */
  function CommitSteps(lineCount: nat): nat {
    2 * lineCount + 3
  }

  /** The write numbered `fault` (counting from 0) fails before the commit pass is over. */
  predicate Faults(fault: Option<nat>, lineCount: nat) {
    fault.Some? && fault.value < CommitSteps(lineCount)
  }

  /**
   * The step after the commit fails: the reload of the order's items, numbered right after
   * the writes of the commit pass.
   */
  predicate ReloadFaults(fault: Option<nat>, lineCount: nat) {
    fault == Some(CommitSteps(lineCount))
  }

  /** The tables without cart `cartId` and its lines. */
  function DropCart(t: Tables, cartId: CartId): Tables {
    t.(carts := t.carts - {cartId}, lines := DropCartLines(t.lines, cartId))
  }

  /** The tables with `order` and its `items` appended, under the next order id. */
  function AppendOrder(t: Tables, order: Order, items: seq<OrderItem>): Tables {
    t.(orders := t.orders + [order], orderItems := t.orderItems + items, nextOrderId := t.nextOrderId + 1)
  }

  /** The tables with the product rows replaced. */
  function WithProducts(t: Tables, products: map<ProductId, Product>): Tables {
    t.(products := products)
  }

  /** The tables after the commit pass writes `cartLines` of cart `cartId` as an order of `user` at time `now`. */
  function CommitOf(t: Tables, cartId: CartId, cartLines: seq<CartLine>, user: UserId, now: int): Tables
    requires forall i | 0 <= i < |cartLines| :: cartLines[i].productId in t.products
  {
    WithProducts(
      AppendOrder(DropCart(t, cartId), Order(t.nextOrderId, user, now), SaleItems(cartLines, t.products, t.nextOrderId)),
      Decremented(t.products, cartLines))
  }

  /** The tables after a successful commit pass for user `user`'s cart `cartId`. */
  ghost function Committed(t: Tables, cartId: CartId, user: UserId, now: int): Tables
    requires Consistent(t)
  {
    CommitOf(t, cartId, CartLinesOf(t, cartId), user, now)
  }

  // ---------------------------------------------------------------------------
  // Properties of the commit pass

  /** Decrementing line by line takes off each product's stock the total quantity of its lines. */
  lemma {:induction false} DecrementedAt(products: map<ProductId, Product>, cartLines: seq<CartLine>)
    requires forall i | 0 <= i < |cartLines| :: cartLines[i].productId in products
    ensures forall k | k in products ::
      Decremented(products, cartLines)[k] == products[k].(stock := products[k].stock - QuantityFor(cartLines, k))
  {
    if cartLines != [] {
      DecrementedAt(products, cartLines[..|cartLines| - 1]);
    }
  }

  /** When no product occurs twice, a product's quantity is that of its line, or 0 without one. */
  lemma {:induction false} QuantityForDistinct(cartLines: seq<CartLine>, productId: ProductId)
    requires forall i, j | 0 <= i < j < |cartLines| :: cartLines[i].productId != cartLines[j].productId
    ensures forall i | 0 <= i < |cartLines| && cartLines[i].productId == productId ::
      QuantityFor(cartLines, productId) == cartLines[i].quantity
    ensures (forall i | 0 <= i < |cartLines| :: cartLines[i].productId != productId) ==>
      QuantityFor(cartLines, productId) == 0
  {
    if cartLines != [] {
      var n := |cartLines| - 1;
      QuantityForDistinct(cartLines[..n], productId);
      if cartLines[n].productId == productId {
        assert forall i | 0 <= i < n :: cartLines[..n][i].productId != productId;
      }
    }
  }

  /**
   * When no product occurs twice, decrementing takes each line's quantity off its product's
   * stock and leaves every other product as it was.
   */
  lemma DecrementedDistinct(products: map<ProductId, Product>, cartLines: seq<CartLine>)
    requires forall i | 0 <= i < |cartLines| :: cartLines[i].productId in products
    requires forall i, j | 0 <= i < j < |cartLines| :: cartLines[i].productId != cartLines[j].productId
    ensures forall i | 0 <= i < |cartLines| ::
      Decremented(products, cartLines)[cartLines[i].productId]
        == products[cartLines[i].productId].(stock := products[cartLines[i].productId].stock - cartLines[i].quantity)
    ensures forall k | k in products && (forall i | 0 <= i < |cartLines| :: cartLines[i].productId != k) ::
      Decremented(products, cartLines)[k] == products[k]
  {
    DecrementedAt(products, cartLines);
    forall k | k in products
      ensures (forall i | 0 <= i < |cartLines| :: cartLines[i].productId != k) ==> QuantityFor(cartLines, k) == 0
      ensures forall i | 0 <= i < |cartLines| && cartLines[i].productId == k :: QuantityFor(cartLines, k) == cartLines[i].quantity
    {
      QuantityForDistinct(cartLines, k);
    }
  }

  /** When every line fits its product's stock and no product occurs twice, no stock goes negative. */
  lemma DecrementedNonNegative(products: map<ProductId, Product>, cartLines: seq<CartLine>)
    requires forall i | 0 <= i < |cartLines| :: cartLines[i].productId in products
    requires forall i, j | 0 <= i < j < |cartLines| :: cartLines[i].productId != cartLines[j].productId
    requires forall k | k in products :: products[k].stock >= 0
    requires Shortfall(cartLines, products) == []
    ensures forall k | k in Decremented(products, cartLines) :: Decremented(products, cartLines)[k].stock >= 0
  {
    DecrementedDistinct(products, cartLines);
    forall k | k in products ensures Decremented(products, cartLines)[k].stock >= 0 {
      if i :| 0 <= i < |cartLines| && cartLines[i].productId == k {
        assert cartLines[i].quantity <= products[k].stock;
      }
    }
  }

  /**
   * After a passed validation no stock goes negative in the commit. (What the commit does to
   * each stock is `DecrementedDistinct`, as `CommitOf` takes its products from `Decremented`.)
   */
  lemma CommittedStockNonNegative(t: Tables, cartId: CartId, user: UserId, now: int)
    requires Consistent(t)
    requires Shortfall(CartLinesOf(t, cartId), t.products) == []
    ensures var after := Committed(t, cartId, user, now).products;
      forall k | k in after :: after[k].stock >= 0
  {
    var cl := CartLinesOf(t, cartId);
    assert Committed(t, cartId, user, now).products == Decremented(t.products, cl);
    DecrementedNonNegative(t.products, cl);
  }

  /** Deleting a cart together with its lines keeps the tables consistent. */
  lemma DropCartKeepsConsistent(t: Tables, cartId: CartId)
    requires Consistent(t)
    ensures Consistent(DropCart(t, cartId))
  {
  }

  /** Appending an order under the next id, with items of that order, keeps the tables consistent. */
  lemma AppendOrderKeepsConsistent(t: Tables, order: Order, items: seq<OrderItem>)
    requires Consistent(t) && order.id == t.nextOrderId
    requires forall i | 0 <= i < |items| :: items[i].orderId == t.nextOrderId
    ensures Consistent(AppendOrder(t, order, items))
  {
    var t1 := AppendOrder(t, order, items);
    forall i | 0 <= i < |t1.orderItems| ensures t1.orderItems[i].orderId < t1.nextOrderId {
      if i >= |t.orderItems| {
        assert t1.orderItems[i] == items[i - |t.orderItems|];
      }
    }
  }

  /** Replacing the products by well-formed ones with the same ids keeps the tables consistent. */
  lemma WithProductsKeepsConsistent(t: Tables, products: map<ProductId, Product>)
    requires Consistent(t) && ProductsWellFormed(products) && products.Keys == t.products.Keys
    ensures Consistent(WithProducts(t, products))
  {
  }

  /** Decrementing stocks that all suffice keeps the product rows well formed, under the same ids. */
  lemma DecrementedWellFormed(products: map<ProductId, Product>, cl: seq<CartLine>)
    requires ProductsWellFormed(products)
    requires forall i | 0 <= i < |cl| :: cl[i].productId in products
    requires forall i, j | 0 <= i < j < |cl| :: cl[i].productId != cl[j].productId
    requires Shortfall(cl, products) == []
    ensures Decremented(products, cl).Keys == products.Keys
    ensures ProductsWellFormed(Decremented(products, cl))
  {
    DecrementedDistinct(products, cl);
    DecrementedNonNegative(products, cl);
    var after := Decremented(products, cl);
    forall k | k in after ensures after[k].id == k {
      if i :| 0 <= i < |cl| && cl[i].productId == k {
        assert after[cl[i].productId] == products[cl[i].productId].(stock := products[cl[i].productId].stock - cl[i].quantity);
      }
    }
  }

  /**
   * Committing lines with distinct products that all fit the stock keeps the tables
   * consistent.
   */
  lemma CommitOfKeepsConsistent(t: Tables, cartId: CartId, cl: seq<CartLine>, user: UserId, now: int)
    requires Consistent(t)
    requires forall i | 0 <= i < |cl| :: cl[i].productId in t.products
    requires forall i, j | 0 <= i < j < |cl| :: cl[i].productId != cl[j].productId
    requires Shortfall(cl, t.products) == []
    ensures Consistent(CommitOf(t, cartId, cl, user, now))
  {
    var ta := DropCart(t, cartId);
    DropCartKeepsConsistent(t, cartId);
    var tb := AppendOrder(ta, Order(t.nextOrderId, user, now), SaleItems(cl, t.products, t.nextOrderId));
    SaleItemsAt(cl, t.products, t.nextOrderId);
    AppendOrderKeepsConsistent(ta, Order(t.nextOrderId, user, now), SaleItems(cl, t.products, t.nextOrderId));
    DecrementedWellFormed(t.products, cl);
    WithProductsKeepsConsistent(tb, Decremented(t.products, cl));
  }

  /** A successful commit after a passed validation keeps the tables consistent. */
  lemma CommittedKeepsConsistent(t: Tables, cartId: CartId, user: UserId, now: int)
    requires Consistent(t)
    requires Shortfall(CartLinesOf(t, cartId), t.products) == []
    ensures Consistent(Committed(t, cartId, user, now))
  {
    CommitOfKeepsConsistent(t, cartId, CartLinesOf(t, cartId), user, now);
  }

  /**
   * A successful commit appends exactly one order, for the user, whose items are one per
   * cart line with the line's product and quantity and the product's price at checkout; its
   * total is the cart's subtotal at current prices.
   */
  lemma CommittedOrder(t: Tables, cartId: CartId, user: UserId, now: int)
    requires Consistent(t)
    ensures var t1, cl := Committed(t, cartId, user, now), CartLinesOf(t, cartId);
      && t1.orders == t.orders + [Order(t.nextOrderId, user, now)]
      && (forall i | 0 <= i < |t.orders| :: t.orders[i].id != t.nextOrderId)
      && ItemsOf(t1.orderItems, t.nextOrderId) == SaleItems(cl, t.products, t.nextOrderId)
      && Total(ItemsOf(t1.orderItems, t.nextOrderId)) == CartController.Subtotal(cl, t.products)
  {
    var cl := CartLinesOf(t, cartId);
    var items := SaleItems(cl, t.products, t.nextOrderId);
    assert Committed(t, cartId, user, now).orderItems == t.orderItems + items;
    ItemsOfConcat(t.orderItems, items, t.nextOrderId);
    ItemsOfNone(t.orderItems, t.nextOrderId);
    SaleItemsAt(cl, t.products, t.nextOrderId);
    ItemsOfAll(items, t.nextOrderId);
    SaleItemsTotal(cl, t.products, t.nextOrderId);
  }

  /** The order's total equals the subtotal of its lines at the prices copied into it. */
  lemma {:induction false} SaleItemsTotal(cartLines: seq<CartLine>, products: map<ProductId, Product>, orderId: OrderId)
    requires forall i | 0 <= i < |cartLines| :: cartLines[i].productId in products
    ensures Total(SaleItems(cartLines, products, orderId)) == CartController.Subtotal(cartLines, products)
  {
    if cartLines != [] {
      var n := |cartLines| - 1;
      var line := cartLines[n];
      var x := OrderItem(orderId, line.productId, products[line.productId].price, line.quantity);
      SaleItemsTotal(cartLines[..n], products, orderId);
      TotalAppend(SaleItems(cartLines[..n], products, orderId), x);
      CartController.SubtotalAppend(cartLines[..n], line, products);
      assert cartLines[..n] + [line] == cartLines;
    }
  }

  /** After a successful commit the user has no cart, so the cart view is empty again. */
  lemma CommittedCartGone(t: Tables, cartId: CartId, user: UserId, now: int)
    requires Consistent(t) && cartId in t.carts && t.carts[cartId] == user
    requires Shortfall(CartLinesOf(t, cartId), t.products) == []
    ensures Consistent(Committed(t, cartId, user, now))
    ensures CartOf(Committed(t, cartId, user, now), user).None?
    ensures UserCartLines(Committed(t, cartId, user, now), user) == []
  {
    CommittedKeepsConsistent(t, cartId, user, now);
  }

  // ---------------------------------------------------------------------------
  // The transaction

  /** The writes of one line in the commit pass: its order item (write `2i+1`), then its stock decrement (write `2i+2`). */
  method CommitLine(db: Database, orderId: OrderId, line: CartLine, salePrice: nat, fault: Option<nat>, i: nat)
    returns (ok: bool)
    requires line.productId in db.products
    modifies db
    ensures ok <==> fault != Some(2 * i + 1) && fault != Some(2 * i + 2)
    ensures ok ==>
      && db.orderItems == old(db.orderItems) + [OrderItem(orderId, line.productId, salePrice, line.quantity)]
      && var product := old(db.products[line.productId]);
         db.products == old(db.products)[line.productId := product.(stock := product.stock - line.quantity)]
    ensures db.Snapshot() == old(db.Snapshot()).(orderItems := db.orderItems, products := db.products)
  {
    if fault == Some(2 * i + 1) { return false; }
    db.orderItems := db.orderItems + [OrderItem(orderId, line.productId, salePrice, line.quantity)];
    if fault == Some(2 * i + 2) { return false; }
    var product := db.products[line.productId];
    db.products := db.products[line.productId := product.(stock := product.stock - line.quantity)];
    return true;
  }

  /** One more line adds its sale item at the end and takes its quantity off its product's stock. */
  lemma CommitLinesStep(products: map<ProductId, Product>, prices: map<ProductId, Product>, orderId: OrderId,
                        cartLines: seq<CartLine>, i: nat)
    requires i < |cartLines|
    requires forall j | 0 <= j < |cartLines| :: cartLines[j].productId in products && cartLines[j].productId in prices
    ensures var line, before := cartLines[i], Decremented(products, cartLines[..i]);
      && SaleItems(cartLines[..i + 1], prices, orderId)
         == SaleItems(cartLines[..i], prices, orderId)
            + [OrderItem(orderId, line.productId, prices[line.productId].price, line.quantity)]
      && Decremented(products, cartLines[..i + 1])
         == before[line.productId := before[line.productId].(stock := before[line.productId].stock - line.quantity)]
  {
    assert cartLines[..i + 1][..i] == cartLines[..i];
  }

  /** The per-line writes of the commit pass, for lines `cartLines` at the prices in `prices`. */
  method CommitLines(db: Database, orderId: OrderId, cartLines: seq<CartLine>, prices: map<ProductId, Product>,
                     fault: Option<nat>)
    returns (ok: bool)
    requires forall i | 0 <= i < |cartLines| :: cartLines[i].productId in db.products && cartLines[i].productId in prices
    modifies db
    ensures ok <==> !(fault.Some? && 1 <= fault.value <= 2 * |cartLines|)
    ensures ok ==>
      var t := old(db.Snapshot());
      db.Snapshot() == t.(orderItems := t.orderItems + SaleItems(cartLines, prices, orderId),
                          products := Decremented(t.products, cartLines))
  {
    var t := db.Snapshot();
    var i := 0;
    while i < |cartLines|
      invariant 0 <= i <= |cartLines|
      invariant !(fault.Some? && 1 <= fault.value < 2 * i + 1)
      invariant db.Snapshot() == t.(orderItems := t.orderItems + SaleItems(cartLines[..i], prices, orderId),
                                    products := Decremented(t.products, cartLines[..i]))
    {
      var line := cartLines[i];
      ok := CommitLine(db, orderId, line, prices[line.productId].price, fault, i);
      if !ok { return false; }
      CommitLinesStep(t.products, prices, orderId, cartLines, i);
      i := i + 1;
    }
    assert cartLines[..i] == cartLines;
    return true;
  }

  /**
   * The commit pass on the database. Write number `fault`, if there is one, throws; the
   * writes before it have then been made and the caller rolls them back.
   */
  method CommitPass(db: Database, cartId: CartId, cartLines: seq<CartLine>, user: UserId, now: int,
                    fault: Option<nat>)
    returns (ok: bool)
    requires forall i | 0 <= i < |cartLines| :: cartLines[i].productId in db.products
    modifies db
    ensures ok <==> !Faults(fault, |cartLines|)
    ensures ok ==> db.Snapshot() == CommitOf(old(db.Snapshot()), cartId, cartLines, user, now)
  {
    var t := db.Snapshot();
    var orderId := t.nextOrderId;
    // the order
    if fault == Some(0) { return false; }
    db.orders := db.orders + [Order(orderId, user, now)];
    db.nextOrderId := orderId + 1;
    // per line, an item at the current price and the stock decrement
    ok := CommitLines(db, orderId, cartLines, t.products, fault);
    if !ok { return false; }
    // the cart's lines, then the cart
    var n := |cartLines|;
    if fault == Some(2 * n + 1) { return false; }
    db.lines := DropCartLines(db.lines, cartId);
    if fault == Some(2 * n + 2) { return false; }
    db.carts := db.carts - {cartId};
    return true;
  }

  /**
   * The transaction of `checkout`: begin, run the commit pass, and commit; or, when the
   * pass throws, roll back to the tables as they were at the start. After the commit the
   * order's total is computed from its reloaded items; when that reload throws, the
   * handler's rollback has no transaction left to undo, so the error is reported while the
   * order stays committed.
   */
  method PlaceOrder(db: Database, cartId: CartId, user: UserId, now: int, fault: Option<nat>)
    returns (r: CheckoutResult)
    requires db.Valid() && cartId in db.carts && db.carts[cartId] == user
    requires Shortfall(CartLinesOf(db.Snapshot(), cartId), db.products) == []
    modifies db
    ensures db.Valid()
    ensures r == TransactionFailed || r.Placed?
    ensures var n := |CartLinesOf(old(db.Snapshot()), cartId)|;
      r == TransactionFailed <==> Faults(fault, n) || ReloadFaults(fault, n)
    ensures Faults(fault, |CartLinesOf(old(db.Snapshot()), cartId)|) ==> db.Snapshot() == old(db.Snapshot())
    ensures !Faults(fault, |CartLinesOf(old(db.Snapshot()), cartId)|) ==>
      && db.Snapshot() == Committed(old(db.Snapshot()), cartId, user, now)
      && UserCartLines(db.Snapshot(), user) == []
    ensures r.Placed? ==>
      var t0 := old(db.Snapshot());
      && r.orderId == t0.nextOrderId
      && r.total == Total(ItemsOf(db.orderItems, r.orderId))
      && r.total == CartController.Subtotal(CartLinesOf(t0, cartId), t0.products)
  {
    var t := db.Snapshot();
    var cartLines := CartLinesOf(t, cartId);
    var ok := CommitPass(db, cartId, cartLines, user, now, fault);
    if !ok {
      db.Restore(t);
      return TransactionFailed;
    }
    CommittedCartGone(t, cartId, user, now);
    CommittedOrder(t, cartId, user, now);
    // the reload of the order's items, after the commit
    if fault == Some(CommitSteps(|cartLines|)) {
      return TransactionFailed;
    }
    var total := Total(ItemsOf(db.orderItems, t.nextOrderId));
    return Placed(t.nextOrderId, total);
  }

  /**
   * `checkout`: with a signed-in user and a non-empty cart whose lines all fit the stock,
   * commits the order or, if the commit pass fails, rolls every table back. A failure of the
   * reload after the commit is reported as a failed transaction over committed tables.
   */
  method Checkout(db: Database, user: Option<UserId>, now: int, fault: Option<nat>)
    returns (r: CheckoutResult)
    requires db.Valid()
    modifies db
    ensures db.Valid()
    ensures !r.Placed? && r != TransactionFailed ==> db.Snapshot() == old(db.Snapshot())
    ensures r == RedirectToLogin <==> user.None?
    ensures r == EmptyCart <==> user.Some? && old(UserCartLines(db.Snapshot(), user.value)) == []
    ensures r.InsufficientStock? <==>
      && user.Some?
      && var cl := old(UserCartLines(db.Snapshot(), user.value));
         cl != [] && Shortfall(cl, old(db.products)) != []
    ensures r.InsufficientStock? ==>
      r.products == Shortfall(old(UserCartLines(db.Snapshot(), user.value)), old(db.products))
    ensures r == TransactionFailed <==>
      && user.Some?
      && var cl := old(UserCartLines(db.Snapshot(), user.value));
         cl != [] && Shortfall(cl, old(db.products)) == [] && (Faults(fault, |cl|) || ReloadFaults(fault, |cl|))
    ensures r == TransactionFailed ==>
      && user.Some?
      && var t0, cl := old(db.Snapshot()), old(UserCartLines(db.Snapshot(), user.value));
         && CartOf(t0, user.value).Some?
         && (Faults(fault, |cl|) ==> db.Snapshot() == t0)
         && (ReloadFaults(fault, |cl|) ==>
               db.Snapshot() == Committed(t0, CartOf(t0, user.value).value, user.value, now))
    ensures r.Placed? ==>
      && user.Some?
      && var t0 := old(db.Snapshot());
         && CartOf(t0, user.value).Some?
         && db.Snapshot() == Committed(t0, CartOf(t0, user.value).value, user.value, now)
         && r.orderId == t0.nextOrderId
         && r.total == Total(ItemsOf(db.orderItems, r.orderId))
         && r.total == CartController.Show(t0, user).cart.subtotal
         && UserCartLines(db.Snapshot(), user.value) == []
  {
    if user.None? {
      return RedirectToLogin;
    }
    var uid := user.value;
    var t := db.Snapshot();
    var cart := CartOf(t, uid);
    if cart.None? {
      return EmptyCart;
    }
    var cartLines := CartLinesOf(t, cart.value);
    if cartLines == [] {
      return EmptyCart;
    }
    var isLowStock, lowStock := ValidateStock(cartLines, t.products);
    if isLowStock {
      return InsufficientStock(lowStock);
    }
    r := PlaceOrder(db, cart.value, uid, now, fault);
  }

  /** An immediate second checkout after a successful one finds the cart empty. */
  method CheckoutTwice(db: Database, user: Option<UserId>, now: int)
    returns (first: CheckoutResult, second: CheckoutResult)
    requires db.Valid()
    modifies db
    ensures first.Placed? ==> second == EmptyCart
  {
    first := Checkout(db, user, now, None);
    second := Checkout(db, user, now, None);
  }
}
