/**
 * The shop's database: the products, carts, cart_items, orders and order_items tables.
 *
 * Tables that rows are looked up in by id are maps keyed by that id; the two append-only
 * tables of the order journal are sequences in insertion (id) order. Money is in integer
 * cents. Auto-increment counters give new rows their ids. The queries the shop runs have no
 * `ORDER BY`; the model reads their rows (`first()`, a relation's rows) in ascending id
 * order, the order the scans below follow.
 */
module Shop {
  import opened Optional

  type UserId = nat
  type ProductId = nat
  type CartId = nat
  type LineId = nat
  type OrderId = nat

  /** A products row; `price` in cents. */
  datatype Product = Product(id: ProductId, name: string, price: nat, stock: int)

  /** A cart_items row: `quantity` units of a product in a cart. */
  datatype CartLine = CartLine(id: LineId, cartId: CartId, productId: ProductId, quantity: int)

  /** An orders row; `createdAt` in seconds. */
  datatype Order = Order(id: OrderId, userId: UserId, createdAt: int)

  /** An order_items row; `salePrice` is the product's price copied at checkout. */
  datatype OrderItem = OrderItem(orderId: OrderId, productId: ProductId, salePrice: int, quantity: int)

  /** The whole database as a value; `carts` maps a cart's id to its owner. */
  datatype Tables = Tables(
    products: map<ProductId, Product>,
    carts: map<CartId, UserId>,
    lines: map<LineId, CartLine>,
    orders: seq<Order>,
    orderItems: seq<OrderItem>,
    nextCartId: nat,
    nextLineId: nat,
    nextOrderId: nat)

  // ---------------------------------------------------------------------------
  // Consistency of the tables: what every operation of the shop preserves

  /** Every product row is stored under its own id and has a non-negative stock. */
  ghost predicate ProductsWellFormed(products: map<ProductId, Product>) {
    forall k | k in products :: products[k].id == k && products[k].stock >= 0
  }

  /** A user owns at most one cart. */
  ghost predicate OneCartPerUser(carts: map<CartId, UserId>) {
    forall c, d | c in carts && d in carts && carts[c] == carts[d] :: c == d
  }

  /** A cart holds at most one line per product. */
  ghost predicate OneLinePerProduct(lines: map<LineId, CartLine>) {
    forall a, b | a in lines && b in lines && lines[a].cartId == lines[b].cartId
                  && lines[a].productId == lines[b].productId :: a == b
  }

  /** Every line is stored under its own id and refers to an existing cart and product. */
  ghost predicate LinesWellFormed(t: Tables) {
    forall k | k in t.lines ::
      && t.lines[k].id == k
      && k < t.nextLineId
      && t.lines[k].cartId in t.carts
      && t.lines[k].productId in t.products
      && t.lines[k].quantity >= 1
  }

  ghost predicate Consistent(t: Tables) {
    && ProductsWellFormed(t.products)
    && (forall c | c in t.carts :: c < t.nextCartId)
    && OneCartPerUser(t.carts)
    && LinesWellFormed(t)
    && OneLinePerProduct(t.lines)
    && (forall i | 0 <= i < |t.orders| :: t.orders[i].id < t.nextOrderId)
    && (forall i | 0 <= i < |t.orderItems| :: t.orderItems[i].orderId < t.nextOrderId)
  }

  // ---------------------------------------------------------------------------
  // Queries

  /** `Cart::where('user_id', user)->first()` over the carts with id below `n`: the lowest such id. */
  function FindCartBelow(carts: map<CartId, UserId>, user: UserId, n: nat): (r: Option<CartId>)
    ensures r.Some? ==> r.value < n && r.value in carts && carts[r.value] == user
    ensures r.Some? ==> forall c | c in carts && c < r.value :: carts[c] != user
    ensures r.None? ==> forall c | c in carts && c < n :: carts[c] != user
  {
    if n == 0 then None
    else
      match FindCartBelow(carts, user, n - 1)
      case Some(c) => Some(c)
      case None => if n - 1 in carts && carts[n - 1] == user then Some(n - 1) else None
  }

  /** The user's cart, if there is one. */
  function CartOf(t: Tables, user: UserId): (r: Option<CartId>)
    requires Consistent(t)
    ensures r.Some? ==> r.value in t.carts && t.carts[r.value] == user
    ensures r.None? <==> forall c | c in t.carts :: t.carts[c] != user
  {
    FindCartBelow(t.carts, user, t.nextCartId)
  }

  /** The lines of cart `cartId` with id below `n`, in ascending id order. */
  function LinesBelow(lines: map<LineId, CartLine>, cartId: CartId, n: nat): (r: seq<CartLine>)
    requires forall k | k in lines :: lines[k].id == k
    ensures forall i | 0 <= i < |r| ::
      r[i].id < n && r[i].id in lines && lines[r[i].id] == r[i] && r[i].cartId == cartId
    ensures forall i, j | 0 <= i < j < |r| :: r[i].id < r[j].id
    ensures forall k | k in lines && k < n && lines[k].cartId == cartId :: lines[k] in r
  {
    if n == 0 then []
    else
      var prefix := LinesBelow(lines, cartId, n - 1);
      if n - 1 in lines && lines[n - 1].cartId == cartId then prefix + [lines[n - 1]] else prefix
  }

  /**
   * `$cart->items`: the cart's lines in id order. Each refers to an existing product with a
   * positive quantity, and no product occurs twice.
   */
  function CartLinesOf(t: Tables, cartId: CartId): (r: seq<CartLine>)
    requires Consistent(t)
    ensures forall i | 0 <= i < |r| ::
      && r[i].id in t.lines && t.lines[r[i].id] == r[i] && r[i].cartId == cartId
      && r[i].productId in t.products && r[i].quantity >= 1
    ensures forall i, j | 0 <= i < j < |r| :: r[i].id < r[j].id && r[i].productId != r[j].productId
    ensures forall k | k in t.lines && t.lines[k].cartId == cartId :: t.lines[k] in r
  {
    LinesBelow(t.lines, cartId, t.nextLineId)
  }

  /** The lines in the user's cart, or none when the user has no cart. */
  function UserCartLines(t: Tables, user: UserId): (r: seq<CartLine>)
    requires Consistent(t)
    ensures CartOf(t, user).None? ==> r == []
    ensures forall k | k in t.lines ::
      t.lines[k] in r <==> t.lines[k].cartId in t.carts && t.carts[t.lines[k].cartId] == user
  {
    match CartOf(t, user)
    case None => []
    case Some(c) => CartLinesOf(t, c)
  }

  /** `$cart->items()->delete()`: the lines table without the lines of `cartId`. */
  function DropCartLines(lines: map<LineId, CartLine>, cartId: CartId): (r: map<LineId, CartLine>)
    ensures forall k :: k in r <==> k in lines && lines[k].cartId != cartId
    ensures forall k | k in r :: r[k] == lines[k]
  {
    map k | k in lines && lines[k].cartId != cartId :: lines[k]
  }

  // ---------------------------------------------------------------------------
  // The database itself

  class Database {
    var products: map<ProductId, Product>
    var carts: map<CartId, UserId>
    var lines: map<LineId, CartLine>
    var orders: seq<Order>
    var orderItems: seq<OrderItem>
    var nextCartId: nat
    var nextLineId: nat
    var nextOrderId: nat

    /** The current contents of all tables. */
    function Snapshot(): Tables
      reads this
    {
      Tables(products, carts, lines, orders, orderItems, nextCartId, nextLineId, nextOrderId)
    }

    ghost predicate Valid()
      reads this
    {
      Consistent(Snapshot())
    }

    /** A shop with the given catalogue and no carts or orders. */
    constructor (catalogue: map<ProductId, Product>)
      requires ProductsWellFormed(catalogue)
      ensures Valid()
      ensures Snapshot() == Tables(catalogue, map[], map[], [], [], 0, 0, 0)
    {
      products := catalogue;
      carts, lines := map[], map[];
      orders, orderItems := [], [];
      nextCartId, nextLineId, nextOrderId := 0, 0, 0;
    }

    /** Puts every table back as it was in `t` (the effect of a transaction's rollback). */
    method Restore(t: Tables)
      modifies this
      ensures Snapshot() == t
    {
      products, carts, lines := t.products, t.carts, t.lines;
      orders, orderItems := t.orders, t.orderItems;
      nextCartId, nextLineId, nextOrderId := t.nextCartId, t.nextLineId, t.nextOrderId;
    }
  }
}
