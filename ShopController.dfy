/**
 * The shop controller's state-changing actions: the cart table operations
 * and checkout, plus the order confirmation page's ownership check. Each
 * action starts from the session's `UserId` and leaves the database alone
 * when there is none.
 */
module ShopController {
  import opened Wrappers
  import opened Models
  import opened Seqs
  import opened Sessions
  import opened Store
  import opened Cart
  import opened Pricing
  import opened Replies

  /** `Ok()` or `BadRequest()`. */
  datatype StatusReply = OkReply | BadRequestReply

  datatype CheckoutReply =
    | CheckoutToLogin
    | CheckoutToCart
    | CheckoutFormError(message: string)
    | CheckoutToConfirmation(orderId: nat)

  datatype ConfirmationPage = ConfirmToLogin | ConfirmToIndex | Confirmation(order: Order)

  const MissingFieldsMessage: string := "Please fill in all required fields."

  /** `Session.GetString("UserEmail") ?? ""`. */
  function SessionEmail(values: map<string, string>): string
  {
    match GetString(values, UserEmailKey)
    case Some(email) => email
    case None => ""
  }

  /** `Shop/Cart`: the signed-in user's cart rows. */
  function CartPage(values: map<string, string>, cart: seq<CartItem>): (r: Option<seq<CartItem>>)
    requires WellFormed(values)
    ensures r.None? <==> !LoggedIn(values)
    ensures r.Some? ==> forall c :: c in r.value <==> c in cart && c.userId == CurrentUserId(values).value
  {
    match CurrentUserId(values)
    case None => None
    case Some(uid) => Some(UserRows(cart, uid))
  }

  method AddToCart(db: Database, session: Session, productId: nat, quantity: int := 1, now: Time) returns (r: JsonReply)
    requires db.Valid() && WellFormed(session.values)
    modifies db`cartItems, db`nextCartItemId
    ensures db.Valid()
    ensures match CurrentUserId(session.values)
      case None =>
        && r == JsonReply(false, "Please login first")
        && db.cartItems == old(db.cartItems) && db.nextCartItemId == old(db.nextCartItemId)
      case Some(uid) =>
        && r == JsonReply(true, "Product added to cart")
        && db.cartItems == AfterAdd(old(db.cartItems), uid, productId, quantity, old(db.nextCartItemId), now)
        && db.nextCartItemId == old(db.nextCartItemId) + (if HasRow(old(db.cartItems), uid, productId) then 0 else 1)
  {
    var user := CurrentUserId(session.values);
    if user.None? {
      return JsonReply(false, "Please login first");
    }
    var uid := user.value;
    AddKeepsKeysUnique(db.cartItems, uid, productId, quantity, db.nextCartItemId, now);
    var existing := FindRow(db.cartItems, uid, productId);
    if existing.Some? {
      var i := existing.value;
      db.cartItems := db.cartItems[i := db.cartItems[i].(quantity := db.cartItems[i].quantity + quantity)];
    } else {
      db.cartItems := db.cartItems + [CartItem(db.nextCartItemId, uid, productId, quantity, now)];
      db.nextCartItemId := db.nextCartItemId + 1;
    }
    r := JsonReply(true, "Product added to cart");
  }

  method UpdateCart(db: Database, session: Session, productId: nat, quantity: int) returns (r: StatusReply)
    requires db.Valid() && WellFormed(session.values)
    modifies db`cartItems
    ensures db.Valid()
    ensures match CurrentUserId(session.values)
      case None => r == BadRequestReply && db.cartItems == old(db.cartItems)
      case Some(uid) => r == OkReply && db.cartItems == AfterUpdate(old(db.cartItems), uid, productId, quantity)
  {
    var user := CurrentUserId(session.values);
    if user.None? {
      return BadRequestReply;
    }
    var uid := user.value;
    UpdateKeepsKeysUnique(db.cartItems, uid, productId, quantity);
    var row := FindRow(db.cartItems, uid, productId);
    if row.Some? {
      var i := row.value;
      db.cartItems := db.cartItems[i := db.cartItems[i].(quantity := quantity)];
    }
    r := OkReply;
  }

  method RemoveFromCart(db: Database, session: Session, productId: nat) returns (r: StatusReply)
    requires db.Valid() && WellFormed(session.values)
    modifies db`cartItems
    ensures db.Valid()
    ensures match CurrentUserId(session.values)
      case None => r == BadRequestReply && db.cartItems == old(db.cartItems)
      case Some(uid) => r == OkReply && db.cartItems == AfterRemove(old(db.cartItems), uid, productId)
  {
    var user := CurrentUserId(session.values);
    if user.None? {
      return BadRequestReply;
    }
    var uid := user.value;
    RemoveKeepsKeysUnique(db.cartItems, uid, productId);
    var row := FindRow(db.cartItems, uid, productId);
    if row.Some? {
      db.cartItems := RemoveAt(db.cartItems, row.value);
    }
    r := OkReply;
  }

  /**
   * `Checkout` (POST). With no signed-in user, an empty cart or a missing
   * required field nothing is stored. Otherwise one Pending order priced from
   * the user's cart lines whose product is active, one order item per priced
   * line, and the user's cart rows removed; other users' rows stay. The form
   * carries no posted order items: the program would insert those too.
   */
  method Checkout(db: Database, session: Session, form: CheckoutForm, now: Time) returns (r: CheckoutReply)
    requires db.Valid() && WellFormed(session.values)
    modifies db`orders, db`orderItems, db`cartItems, db`nextOrderId, db`nextOrderItemId
    ensures db.Valid()
    ensures !r.CheckoutToConfirmation? ==>
      && db.orders == old(db.orders) && db.orderItems == old(db.orderItems) && db.cartItems == old(db.cartItems)
      && db.nextOrderId == old(db.nextOrderId) && db.nextOrderItemId == old(db.nextOrderItemId)
    ensures match CurrentUserId(session.values)
      case None => r == CheckoutToLogin
      case Some(uid) =>
        var lines := UserRows(old(db.cartItems), uid);
        var active := ActiveProducts(db.products);
        var id := old(db.nextOrderId);
        if lines == [] then r == CheckoutToCart
        else if !RequiredFieldsPresent(form) then r == CheckoutFormError(MissingFieldsMessage)
        else
          && r == CheckoutToConfirmation(id)
          && db.orders == old(db.orders) + [PlacedOrder(form, id, uid, SessionEmail(session.values), now, Subtotal(lines, active))]
          && db.orderItems == old(db.orderItems) + PricedItems(lines, active, id, old(db.nextOrderItemId))
          && db.cartItems == OtherUsersRows(old(db.cartItems), uid)
          && db.nextOrderId == id + 1
          && db.nextOrderItemId == old(db.nextOrderItemId) + |PricedLines(lines, active)|
  {
    var user := CurrentUserId(session.values);
    if user.None? {
      return CheckoutToLogin;
    }
    var uid := user.value;
    var lines := UserRows(db.cartItems, uid);
    if lines == [] {
      return CheckoutToCart;
    }
    if !RequiredFieldsPresent(form) {
      return CheckoutFormError(MissingFieldsMessage);
    }

    var orderId := PlaceOrder(db, uid, lines, ActiveProducts(db.products), form, SessionEmail(session.values), now);
    r := CheckoutToConfirmation(orderId);
  }

  /** The part of `Checkout` that stores the order, its items, and empties the user's cart. */
  method PlaceOrder(db: Database, uid: nat, lines: seq<CartItem>, active: seq<Product>, form: CheckoutForm, email: string, now: Time)
    returns (orderId: nat)
    requires db.Valid() && lines == UserRows(db.cartItems, uid) && active == ActiveProducts(db.products)
    modifies db`orders, db`orderItems, db`cartItems, db`nextOrderId, db`nextOrderItemId
    ensures db.Valid()
    ensures orderId == old(db.nextOrderId) && db.nextOrderId == orderId + 1
    ensures db.orders == old(db.orders) + [PlacedOrder(form, orderId, uid, email, now, Subtotal(lines, active))]
    ensures db.orderItems == old(db.orderItems) + PricedItems(lines, active, orderId, old(db.nextOrderItemId))
    ensures db.nextOrderItemId == old(db.nextOrderItemId) + |PricedLines(lines, active)|
    ensures db.cartItems == OtherUsersRows(old(db.cartItems), uid)
  {
    var subtotal := ComputeSubtotal(lines, active);
    orderId := db.nextOrderId;
    var order := PlacedOrder(form, orderId, uid, email, now, subtotal);
    ghost var orders, items, cart, firstItemId := db.orders, db.orderItems, db.cartItems, db.nextOrderItemId;
    CheckoutKeepsBalance(orders, items, orderId, firstItemId, form, uid, email, now, lines, active);
    ClearKeepsKeysUnique(cart, uid);
    db.orders := db.orders + [order];
    db.nextOrderId := db.nextOrderId + 1;
    AddOrderItems(db, lines, active, orderId);
    db.cartItems := OtherUsersRows(db.cartItems, uid);
    assert db.orders == orders + [order] && db.cartItems == OtherUsersRows(cart, uid);
    assert db.orderItems == items + PricedItems(lines, active, orderId, firstItemId);
  }

  /** The order and items checkout appends keep every order balanced and every order id below the next key. */
  lemma CheckoutKeepsBalance(orders: seq<Order>, items: seq<OrderItem>, next: nat, firstItemId: nat,
                             form: CheckoutForm, uid: nat, email: string, now: Time,
                             lines: seq<CartItem>, active: seq<Product>)
    requires OrdersBalanced(orders, items) && OrderIdsBelow(orders, items, next)
    ensures var o := PlacedOrder(form, next, uid, email, now, Subtotal(lines, active));
      var newItems := PricedItems(lines, active, next, firstItemId);
      && OrdersBalanced(orders + [o], items + newItems) && OrderIdsBelow(orders + [o], items + newItems, next + 1)
      && |newItems| == |PricedLines(lines, active)|
  {
    var o := PlacedOrder(form, next, uid, email, now, Subtotal(lines, active));
    var newItems := PricedItems(lines, active, next, firstItemId);
    PricedItemsFollowLines(lines, active, next, firstItemId);
    assert forall k :: 0 <= k < |newItems| ==> newItems[k].orderId == next by {
      forall k | 0 <= k < |newItems| ensures newItems[k].orderId == next {
        assert ItemFollowsLine(newItems[k], PricedLines(lines, active)[k], active, next, firstItemId + k);
      }
    }
    PlacedOrderIsBalanced(form, next, uid, email, now, lines, active, firstItemId);
    AppendOrderKeepsBalance(orders, items, next, o, newItems);
  }

  /**
   * The order-item loop of `Checkout`: one item per line whose product is
   * active, with fresh ids. The items are staged and stored together, as
   * the next `SaveChanges` does.
   */
  method AddOrderItems(db: Database, lines: seq<CartItem>, active: seq<Product>, orderId: nat)
    modifies db`orderItems, db`nextOrderItemId
    ensures db.orderItems == old(db.orderItems) + PricedItems(lines, active, orderId, old(db.nextOrderItemId))
    ensures db.nextOrderItemId == old(db.nextOrderItemId) + |PricedItems(lines, active, orderId, old(db.nextOrderItemId))|
  {
    var firstItemId := db.nextOrderItemId;
    var added: seq<OrderItem> := [];
    var nextId := firstItemId;
    var i := 0;
    while i < |lines|
      invariant 0 <= i <= |lines|
      invariant added == PricedItems(lines[..i], active, orderId, firstItemId)
      invariant nextId == firstItemId + |added|
      invariant db.orderItems == old(db.orderItems)
    {
      var c := lines[i];
      assert lines[..i + 1] == lines[..i] + [c];
      PricedItemsSnoc(lines[..i], c, active, orderId, firstItemId);
      var product := PriceOf(active, c.productId);
      if product.Some? {
        var price := product.value;
        var item := OrderItem(nextId, orderId, c.productId, c.quantity, price, price * (c.quantity as real));
        assert item == LineItem(active, c, orderId, nextId);
        added := added + [item];
        nextId := nextId + 1;
      }
      i := i + 1;
    }
    assert lines[..|lines|] == lines;
    db.orderItems := db.orderItems + added;
    db.nextOrderItemId := nextId;
  }

  /** `Shop/OrderConfirmation`: shows an order only to the user who placed it. */
  function OrderConfirmation(values: map<string, string>, orders: seq<Order>, id: nat): (r: ConfirmationPage)
    requires WellFormed(values)
    ensures r.ConfirmToLogin? <==> !LoggedIn(values)
    ensures r.Confirmation? ==> r.order in orders && r.order.id == id && CurrentUserId(values) == Some(r.order.userId)
    ensures LoggedIn(values) && (exists k :: 0 <= k < |orders| && orders[k].id == id)
            && (forall k :: 0 <= k < |orders| && orders[k].id == id ==> orders[k].userId == CurrentUserId(values).value)
            ==> r.Confirmation?
  {
    match CurrentUserId(values)
    case None => ConfirmToLogin
    case Some(uid) =>
      match FindOrder(orders, id)
      case None => ConfirmToIndex
      case Some(i) => if orders[i].userId != uid then ConfirmToIndex else Confirmation(orders[i])
  }
}
