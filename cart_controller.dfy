/**
 * The cart endpoints: add a product (`store`), view the cart (`show`), set a line's
 * quantity (`update`) and remove a line (`destroy`). Each request is one atomic step on
 * the database; the redirect-back responses become an `Outcome`.
 */
module CartController {
  import opened Optional
  import opened Shop

  /** Why a cart request was turned away. */
  datatype Rejection =
    | InvalidInput          // request validation failed (unknown product, missing or non-positive quantity)
    | LoginRequired         // no authenticated user: redirect to the login page (or 401)
    | InsufficientStock     // "Insufficient stock available."
    | StockLimitReached     // "Cannot add more items. Stock limit reached."
    | QuantityExceedsStock  // "Quantity cannot exceed available stock."
    | Unauthorized          // the line belongs to another user's cart
    | NotFound              // no cart line with that id (route-model binding answers 404)

  datatype Outcome = Done | Rejected(reason: Rejection)

  // ---------------------------------------------------------------------------
  // store: add a product to the cart

  /** The request passes validation: the product exists and a given quantity is at least 1. */
  predicate ValidAddRequest(products: map<ProductId, Product>, productId: ProductId, quantity: Option<int>) {
    productId in products && (quantity.None? || quantity.value >= 1)
  }

  /** The quantity asked for, 1 when the request does not give one. */
  function Requested(quantity: Option<int>): int {
    quantity.GetOr(1)
  }

  /** The first line for `productId` among `cartLines`. */
  function FirstWithProduct(cartLines: seq<CartLine>, productId: ProductId): (r: Option<CartLine>)
    ensures r.Some? ==> r.value in cartLines && r.value.productId == productId
    ensures r.Some? ==> exists i | 0 <= i < |cartLines| ::
      cartLines[i] == r.value && forall j | 0 <= j < i :: cartLines[j].productId != productId
    ensures r.None? <==> forall i | 0 <= i < |cartLines| :: cartLines[i].productId != productId
  {
    if cartLines == [] then None
    else if cartLines[0].productId == productId then Some(cartLines[0])
    else FirstWithProduct(cartLines[1..], productId)
  }

  /** The line for `productId` in the user's cart, if the user has a cart holding one. */
  function ExistingLine(t: Tables, user: UserId, productId: ProductId): (r: Option<CartLine>)
    requires Consistent(t)
    ensures r.Some? ==> LineFor(t, user, productId, r.value.id) && t.lines[r.value.id] == r.value
    ensures r.None? ==> forall k :: !LineFor(t, user, productId, k)
  {
    match CartOf(t, user)
    case None => None
    case Some(c) =>
      var found := FirstWithProduct(CartLinesOf(t, c), productId);
      assert found.None? ==> forall k | k in t.lines && t.lines[k].cartId == c :: t.lines[k].productId != productId by {
        if found.None? {
          forall k | k in t.lines && t.lines[k].cartId == c ensures t.lines[k].productId != productId {
            assert t.lines[k] in CartLinesOf(t, c);
          }
        }
      }
      found
  }

  /** Line `k` is in `user`'s cart and holds `productId`. */
  ghost predicate LineFor(t: Tables, user: UserId, productId: ProductId, k: LineId) {
    && k in t.lines
    && t.lines[k].cartId in t.carts
    && t.carts[t.lines[k].cartId] == user
    && t.lines[k].productId == productId
  }

  /** In consistent tables a user's cart has at most one line for a product. */
  lemma OnlyLineFor(t: Tables, user: UserId, productId: ProductId, k: LineId)
    requires Consistent(t) && LineFor(t, user, productId, k)
    ensures forall k' | LineFor(t, user, productId, k') :: k' == k
  {
    forall k' | LineFor(t, user, productId, k') ensures k' == k {
      assert t.carts[t.lines[k'].cartId] == t.carts[t.lines[k].cartId];
    }
  }

  /**
   * The tables after adding `q` units of a product to the user's cart: the cart is reused or
   * created, and the product's line is raised by `q` or inserted with quantity `q`.
   */
  ghost function Added(t: Tables, user: UserId, productId: ProductId, q: int): Tables
    requires Consistent(t)
  {
    match ExistingLine(t, user, productId)
    case Some(line) => Merged(t, line, q)
    case None =>
      match CartOf(t, user)
      case Some(c) => Inserted(t, c, productId, q)
      case None => Created(t, user, productId, q)
  }

  /** The line's quantity raised by `q`. */
  function Merged(t: Tables, line: CartLine, q: int): Tables {
    t.(lines := t.lines[line.id := line.(quantity := line.quantity + q)])
  }

  /** A new line with `q` units of the product in cart `c`, under the next line id. */
  function Inserted(t: Tables, c: CartId, productId: ProductId, q: int): Tables {
    t.(lines := t.lines[t.nextLineId := CartLine(t.nextLineId, c, productId, q)],
       nextLineId := t.nextLineId + 1)
  }

  /** A new, empty cart for the user under the next cart id. */
  function NewCart(t: Tables, user: UserId): Tables {
    t.(carts := t.carts[t.nextCartId := user], nextCartId := t.nextCartId + 1)
  }

  /** A new cart for the user under the next cart id, holding a new line with `q` units of the product. */
  function Created(t: Tables, user: UserId, productId: ProductId, q: int): Tables {
    Inserted(NewCart(t, user), t.nextCartId, productId, q)
  }

  /** Raising the quantity of an existing line keeps the tables consistent. */
  lemma MergeKeepsConsistent(t: Tables, line: CartLine, q: int)
    requires Consistent(t) && line.id in t.lines && t.lines[line.id] == line && q >= 1
    ensures Consistent(Merged(t, line, q))
  {
    var t1 := Merged(t, line, q);
    assert forall k | k in t1.lines ::
      t1.lines[k].cartId == t.lines[k].cartId && t1.lines[k].productId == t.lines[k].productId;
  }

  /** Inserting a line into cart `c`, which has none for the product, keeps the tables consistent. */
  lemma InsertKeepsConsistent(t: Tables, c: CartId, productId: ProductId, q: int)
    requires Consistent(t) && c in t.carts && productId in t.products && q >= 1
    requires forall k | k in t.lines && t.lines[k].cartId == c :: t.lines[k].productId != productId
    ensures Consistent(Inserted(t, c, productId, q))
  {
  }

  /** Creating a cart for a user without one, holding one line, keeps the tables consistent. */
  lemma CreateKeepsConsistent(t: Tables, user: UserId, productId: ProductId, q: int)
    requires Consistent(t) && productId in t.products && q >= 1
    requires forall c | c in t.carts :: t.carts[c] != user
    ensures Consistent(Created(t, user, productId, q))
  {
  }

  /**
   * Adding keeps the tables consistent: still one cart per user and one line per product
   * in a cart.
   */
  lemma AddedKeepsConsistent(t: Tables, user: UserId, productId: ProductId, q: int)
    requires Consistent(t) && productId in t.products && q >= 1
    ensures Consistent(Added(t, user, productId, q))
  {
    match ExistingLine(t, user, productId)
    case Some(line) =>
      MergeKeepsConsistent(t, line, q);
    case None =>
      match CartOf(t, user)
      case Some(c) =>
        assert forall k | k in t.lines && t.lines[k].cartId == c :: !LineFor(t, user, productId, k);
        InsertKeepsConsistent(t, c, productId, q);
      case None =>
        CreateKeepsConsistent(t, user, productId, q);
  }

  /**
   * After adding, the user's cart holds exactly one line for the product; it has the old
   * quantity plus `q` (or `q` if the product was new to the cart). An existing cart is reused.
   */
  lemma AddedLine(t: Tables, user: UserId, productId: ProductId, q: int)
    requires Consistent(t) && productId in t.products && q >= 1
    ensures var t1 := Added(t, user, productId, q);
      && (CartOf(t, user).Some? ==> t1.carts == t.carts)
      && (exists k :: LineFor(t1, user, productId, k))
      && forall k | LineFor(t1, user, productId, k) ::
           t1.lines[k].quantity == q + match ExistingLine(t, user, productId)
                                       case Some(line) => line.quantity
                                       case None => 0
  {
    AddedKeepsConsistent(t, user, productId, q);
    var t1 := Added(t, user, productId, q);
    var k: LineId;
    match ExistingLine(t, user, productId) {
      case Some(line) => k := line.id;
      case None => k := t.nextLineId;
    }
    assert LineFor(t1, user, productId, k);
    OnlyLineFor(t1, user, productId, k);
  }

  /**
   * When the stock checks of `store` pass, the product's line in the user's cart afterwards
   * holds no more than the product's stock.
   */
  lemma AddedWithinStock(t: Tables, user: UserId, productId: ProductId, q: int)
    requires Consistent(t) && productId in t.products && 1 <= q <= t.products[productId].stock
    requires ExistingLine(t, user, productId).Some? ==>
      ExistingLine(t, user, productId).value.quantity + q <= t.products[productId].stock
    ensures var t1 := Added(t, user, productId, q);
      forall k | LineFor(t1, user, productId, k) :: 1 <= t1.lines[k].quantity <= t1.products[productId].stock
  {
    AddedLine(t, user, productId, q);
  }

  /**
   * `store`: adds `quantity` (default 1) units of a product to the user's cart, creating the
   * cart on first use and merging into an existing line for the same product.
   */
  method Store(db: Database, user: Option<UserId>, productId: ProductId, quantity: Option<int>)
    returns (r: Outcome)
    requires db.Valid()
    modifies db
    ensures db.Valid()
    ensures r.Rejected? ==> db.Snapshot() == old(db.Snapshot())
    ensures r == Rejected(InvalidInput) <==> !ValidAddRequest(old(db.products), productId, quantity)
    ensures r == Rejected(LoginRequired) <==>
      ValidAddRequest(old(db.products), productId, quantity) && user.None?
    // the stock check comes before any cart is looked up or created
    ensures r == Rejected(InsufficientStock) <==>
      && ValidAddRequest(old(db.products), productId, quantity) && user.Some?
      && old(db.products[productId].stock) < Requested(quantity)
    ensures r == Rejected(StockLimitReached) <==>
      && ValidAddRequest(old(db.products), productId, quantity) && user.Some?
      && Requested(quantity) <= old(db.products[productId].stock)
      && var line := old(ExistingLine(db.Snapshot(), user.value, productId));
         line.Some? && line.value.quantity + Requested(quantity) > old(db.products[productId].stock)
    ensures r.Rejected? ==> r.reason in {InvalidInput, LoginRequired, InsufficientStock, StockLimitReached}
    ensures r == Done ==> db.Snapshot() == Added(old(db.Snapshot()), user.value, productId, Requested(quantity))
  {
    if !ValidAddRequest(db.products, productId, quantity) {
      return Rejected(InvalidInput);
    }
    if user.None? {
      return Rejected(LoginRequired);
    }
    var uid := user.value;
    var q := Requested(quantity);
    var product := db.products[productId];
    if product.stock < q {
      return Rejected(InsufficientStock);
    }
    r := AddToCart(db, uid, productId, q);
  }

  /** `Cart::firstOrCreate`: the user's cart, created with the next id when there is none. */
  method GetOrCreateCart(db: Database, user: UserId) returns (cartId: CartId)
    requires db.Valid()
    modifies db
    ensures var t := old(db.Snapshot());
      match CartOf(t, user)
      case Some(c) => cartId == c && db.Snapshot() == t
      case None => cartId == t.nextCartId && db.Snapshot() == NewCart(t, user)
  {
    var cart := CartOf(db.Snapshot(), user);
    if cart.None? {
      cartId := db.nextCartId;
      db.carts := db.carts[cartId := user];
      db.nextCartId := cartId + 1;
    } else {
      cartId := cart.value;
    }
  }

  /** Raises the quantity of `line` by `q`. */
  method MergeLine(db: Database, line: CartLine, q: int)
    modifies db
    ensures db.Snapshot() == Merged(old(db.Snapshot()), line, q)
  {
    db.lines := db.lines[line.id := line.(quantity := line.quantity + q)];
  }

  /** Inserts a line with `q` units of the product into cart `cartId`, under the next line id. */
  method InsertLine(db: Database, cartId: CartId, productId: ProductId, q: int)
    modifies db
    ensures db.Snapshot() == Inserted(old(db.Snapshot()), cartId, productId, q)
  {
    var id := db.nextLineId;
    db.lines := db.lines[id := CartLine(id, cartId, productId, q)];
    db.nextLineId := id + 1;
  }

  /**
   * The part of `store` after the stock check: get or create the user's cart, then merge
   * into the product's line (unless that would exceed the stock) or insert a new line.
   */
  method AddToCart(db: Database, user: UserId, productId: ProductId, q: int) returns (r: Outcome)
    requires db.Valid() && productId in db.products && 1 <= q <= db.products[productId].stock
    modifies db
    ensures db.Valid()
    ensures r.Rejected? ==> r.reason == StockLimitReached && db.Snapshot() == old(db.Snapshot())
    ensures r == Rejected(StockLimitReached) <==>
      var line := old(ExistingLine(db.Snapshot(), user, productId));
      line.Some? && line.value.quantity + q > old(db.products[productId].stock)
    ensures r == Done ==> db.Snapshot() == Added(old(db.Snapshot()), user, productId, q)
  {
    var t0 := db.Snapshot();
    AddedKeepsConsistent(t0, user, productId, q);
    var cartId := GetOrCreateCart(db, user);
    var existing := ExistingLine(t0, user, productId);
    if existing.Some? {
      // a line exists, so the cart did too and was not created
      assert CartOf(t0, user).Some? && db.Snapshot() == t0;
      var line := existing.value;
      var newQuantity := line.quantity + q;
      if newQuantity > db.products[productId].stock {
        return Rejected(StockLimitReached);
      }
      MergeLine(db, line, q);
      assert db.Snapshot() == Merged(t0, line, q);
    } else {
      InsertLine(db, cartId, productId, q);
    }
    return Done;
  }

  // ---------------------------------------------------------------------------
  // show: the cart as the page and the JSON endpoint present it

  /** One cart line with the product's current row. */
  datatype ItemView = ItemView(id: LineId, productId: ProductId, quantity: int, product: Product)

  /** `id` is null when the user has no cart. */
  datatype CartView = CartView(id: Option<CartId>, items: seq<ItemView>, subtotal: int)

  datatype ShowResult = ShowRejected(reason: Rejection) | Shown(cart: CartView)

  /** Sum of current price times quantity over the lines. */
  function Subtotal(cartLines: seq<CartLine>, products: map<ProductId, Product>): (r: int)
    requires forall i | 0 <= i < |cartLines| :: cartLines[i].productId in products
    ensures (forall i | 0 <= i < |cartLines| :: cartLines[i].quantity >= 0) ==> r >= 0
  {
    if cartLines == [] then 0
    else products[cartLines[0].productId].price * cartLines[0].quantity + Subtotal(cartLines[1..], products)
  }

  /** One more line adds its current price times quantity to the subtotal. */
  lemma {:induction false} SubtotalAppend(cartLines: seq<CartLine>, line: CartLine, products: map<ProductId, Product>)
    requires forall i | 0 <= i < |cartLines| :: cartLines[i].productId in products
    requires line.productId in products
    ensures Subtotal(cartLines + [line], products)
         == Subtotal(cartLines, products) + products[line.productId].price * line.quantity
  {
    if cartLines == [] {
      assert cartLines + [line] == [line];
    } else {
      assert (cartLines + [line])[1..] == cartLines[1..] + [line];
      SubtotalAppend(cartLines[1..], line, products);
    }
  }

  /** The lines as the view lists them, each with its product's current row. */
  function ItemViews(cartLines: seq<CartLine>, products: map<ProductId, Product>): (r: seq<ItemView>)
    requires forall i | 0 <= i < |cartLines| :: cartLines[i].productId in products
    ensures |r| == |cartLines|
    ensures forall i | 0 <= i < |r| ::
      r[i] == ItemView(cartLines[i].id, cartLines[i].productId, cartLines[i].quantity,
                       products[cartLines[i].productId])
  {
    seq(|cartLines|, i requires 0 <= i < |cartLines| =>
      ItemView(cartLines[i].id, cartLines[i].productId, cartLines[i].quantity, products[cartLines[i].productId]))
  }

  /**
   * `show`: the user's cart with its lines in cart (id) order and a subtotal computed from
   * the products' current prices; a user without a cart sees no id, no items and 0.
   */
  function Show(t: Tables, user: Option<UserId>): (r: ShowResult)
    requires Consistent(t)
    ensures r.ShowRejected? <==> user.None?
    ensures r.ShowRejected? ==> r.reason == LoginRequired
    ensures user.Some? && CartOf(t, user.value).None? ==> r == Shown(CartView(None, [], 0))
    ensures user.Some? && CartOf(t, user.value).Some? ==>
      var cl := CartLinesOf(t, CartOf(t, user.value).value);
      && r.Shown? && r.cart.id == CartOf(t, user.value)
      && |r.cart.items| == |cl|
      && (forall i | 0 <= i < |cl| ::
            && r.cart.items[i].id == cl[i].id
            && r.cart.items[i].productId == cl[i].productId
            && r.cart.items[i].quantity == cl[i].quantity
            && r.cart.items[i].product == t.products[cl[i].productId])
      && r.cart.subtotal == Subtotal(cl, t.products)
    ensures r.Shown? ==> r.cart.subtotal >= 0
    ensures r.Shown? ==> forall i, j | 0 <= i < j < |r.cart.items| :: r.cart.items[i].id < r.cart.items[j].id
  {
    match user
    case None => ShowRejected(LoginRequired)
    case Some(uid) =>
      match CartOf(t, uid)
      case None => Shown(CartView(None, [], 0))
      case Some(c) =>
        var cl := CartLinesOf(t, c);
        Shown(CartView(Some(c), ItemViews(cl, t.products), Subtotal(cl, t.products)))
  }

  // ---------------------------------------------------------------------------
  // update and destroy: act on one line of the caller's own cart

  /** Line `lineId` exists and lies in a cart owned by `user`. */
  ghost predicate Owns(t: Tables, user: UserId, lineId: LineId) {
    lineId in t.lines && t.lines[lineId].cartId in t.carts && t.carts[t.lines[lineId].cartId] == user
  }

  /**
   * `update`: sets the quantity of one line of the caller's cart. Ownership is checked
   * before the quantity is validated, and the quantity may not exceed the current stock.
   */
  method Update(db: Database, user: Option<UserId>, lineId: LineId, quantity: Option<int>)
    returns (r: Outcome)
    requires db.Valid()
    modifies db
    ensures db.Valid()
    ensures r.Rejected? ==> unchanged(db)
    ensures r == Rejected(LoginRequired) <==> user.None?
    ensures r == Rejected(NotFound) <==> user.Some? && lineId !in old(db.lines)
    ensures r == Rejected(Unauthorized) <==>
      user.Some? && lineId in old(db.lines) && !Owns(old(db.Snapshot()), user.value, lineId)
    ensures r == Rejected(InvalidInput) <==>
      user.Some? && Owns(old(db.Snapshot()), user.value, lineId) && (quantity.None? || quantity.value < 1)
    ensures r == Rejected(QuantityExceedsStock) <==>
      && user.Some? && Owns(old(db.Snapshot()), user.value, lineId)
      && quantity.Some? && quantity.value >= 1
      && quantity.value > old(db.products[db.lines[lineId].productId].stock)
    ensures r.Rejected? ==> r.reason in {LoginRequired, NotFound, Unauthorized, InvalidInput, QuantityExceedsStock}
    ensures r == Done ==>
      && quantity.Some?
      && db.Snapshot() == old(db.Snapshot()).(lines := old(db.lines[lineId := db.lines[lineId].(quantity := quantity.value)]))
      && 1 <= db.lines[lineId].quantity <= db.products[db.lines[lineId].productId].stock
  {
    if user.None? {
      return Rejected(LoginRequired);
    }
    if lineId !in db.lines {
      return Rejected(NotFound);
    }
    var line := db.lines[lineId];
    if db.carts[line.cartId] != user.value {
      return Rejected(Unauthorized);
    }
    if quantity.None? || quantity.value < 1 {
      return Rejected(InvalidInput);
    }
    if quantity.value > db.products[line.productId].stock {
      return Rejected(QuantityExceedsStock);
    }
    db.lines := db.lines[lineId := line.(quantity := quantity.value)];
    return Done;
  }

  /** `destroy`: deletes one line of the caller's cart; the cart row and its other lines stay. */
  method Destroy(db: Database, user: Option<UserId>, lineId: LineId) returns (r: Outcome)
    requires db.Valid()
    modifies db
    ensures db.Valid()
    ensures r.Rejected? ==> unchanged(db)
    ensures r == Rejected(LoginRequired) <==> user.None?
    ensures r == Rejected(NotFound) <==> user.Some? && lineId !in old(db.lines)
    ensures r == Rejected(Unauthorized) <==>
      user.Some? && lineId in old(db.lines) && !Owns(old(db.Snapshot()), user.value, lineId)
    ensures r.Rejected? ==> r.reason in {LoginRequired, NotFound, Unauthorized}
    ensures r == Done ==> db.Snapshot() == old(db.Snapshot()).(lines := old(db.lines) - {lineId})
  {
    if user.None? {
      return Rejected(LoginRequired);
    }
    if lineId !in db.lines {
      return Rejected(NotFound);
    }
    if db.carts[db.lines[lineId].cartId] != user.value {
      return Rejected(Unauthorized);
    }
    db.lines := db.lines - {lineId};
    return Done;
  }
}
