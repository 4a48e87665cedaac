/**
 * The database context: the five tables the controllers use, the
 * auto-increment keys the database hands out, and the consistency the
 * controllers maintain between them.
 */
module Store {
  import opened Wrappers
  import opened Models
  import opened Seqs

  /** `Orders.FirstOrDefault(o => o.Id == id)`. */
  function FindOrder(orders: seq<Order>, id: nat): (r: Option<nat>)
    ensures r.Some? ==> r.value < |orders| && orders[r.value].id == id
    ensures r.Some? ==> forall k :: 0 <= k < r.value ==> orders[k].id != id
    ensures r.None? <==> forall k :: 0 <= k < |orders| ==> orders[k].id != id
  {
    FindFirst(orders, (o: Order) => o.id == id)
  }

  /** `Products.FirstOrDefault(p => p.Id == id)`. */
  function FindProduct(products: seq<Product>, id: nat): (r: Option<nat>)
    ensures r.Some? ==> r.value < |products| && products[r.value].id == id
    ensures r.Some? ==> forall k :: 0 <= k < r.value ==> products[k].id != id
    ensures r.None? <==> forall k :: 0 <= k < |products| ==> products[k].id != id
  {
    FindFirst(products, (p: Product) => p.id == id)
  }

  /** Two cart rows for the same (user, product) pair. */
  predicate SameCartKey(a: CartItem, b: CartItem)
  {
    a.userId == b.userId && a.productId == b.productId
  }

  /** At most one cart row per (user, product): adding an item already in the cart increments it. */
  predicate CartKeysUnique(cart: seq<CartItem>)
  {
    forall i, j :: 0 <= i < j < |cart| ==> !SameCartKey(cart[i], cart[j])
  }

  /** Registration refuses a username or an email that is already taken. */
  predicate UsernamesUnique(users: seq<User>)
  {
    forall i, j :: 0 <= i < j < |users| ==> users[i].username != users[j].username
  }

  predicate EmailsUnique(users: seq<User>)
  {
    forall i, j :: 0 <= i < j < |users| ==> users[i].email != users[j].email
  }

  /** The sum of `TotalPrice` over the order items that belong to order `orderId`. */
  function ItemsTotalFor(items: seq<OrderItem>, orderId: nat): Money
  {
    if items == [] then 0.0
    else
      var last := items[|items| - 1];
      ItemsTotalFor(items[..|items| - 1], orderId) + (if last.orderId == orderId then last.totalPrice else 0.0)
  }

  /** An order's subtotal is the sum of its items, and its total adds tax and shipping. */
  predicate OrderBalanced(o: Order, items: seq<OrderItem>)
  {
    o.subtotal == ItemsTotalFor(items, o.id) && o.totalAmount == o.subtotal + o.taxAmount + o.shippingCost
  }

  predicate OrdersBalanced(orders: seq<Order>, items: seq<OrderItem>)
  {
    forall k :: 0 <= k < |orders| ==> OrderBalanced(orders[k], items)
  }

  /** Every order id, and every order id an item refers to, was handed out before `next`. */
  predicate OrderIdsBelow(orders: seq<Order>, items: seq<OrderItem>, next: nat)
  {
    (forall k :: 0 <= k < |orders| ==> orders[k].id < next)
    && (forall k :: 0 <= k < |items| ==> items[k].orderId < next)
  }

  lemma {:induction false} ItemsTotalForAppend(a: seq<OrderItem>, b: seq<OrderItem>, orderId: nat)
    ensures ItemsTotalFor(a + b, orderId) == ItemsTotalFor(a, orderId) + ItemsTotalFor(b, orderId)
  {
    if b == [] {
      assert a + b == a;
    } else {
      assert (a + b)[..|a + b| - 1] == a + b[..|b| - 1];
      ItemsTotalForAppend(a, b[..|b| - 1], orderId);
    }
  }

  lemma {:induction false} ItemsTotalForNone(items: seq<OrderItem>, orderId: nat)
    requires forall k :: 0 <= k < |items| ==> items[k].orderId != orderId
    ensures ItemsTotalFor(items, orderId) == 0.0
  {
    if items != [] {
      ItemsTotalForNone(items[..|items| - 1], orderId);
    }
  }

  /**
   * Placing an order with a fresh id and items of its own keeps every order
   * balanced: the old orders gain no items, and the new one is balanced by its own.
   */
  lemma AppendOrderKeepsBalance(orders: seq<Order>, items: seq<OrderItem>, next: nat, o: Order, newItems: seq<OrderItem>)
    requires OrdersBalanced(orders, items) && OrderIdsBelow(orders, items, next)
    requires o.id == next && OrderBalanced(o, newItems)
    requires forall k :: 0 <= k < |newItems| ==> newItems[k].orderId == next
    ensures OrdersBalanced(orders + [o], items + newItems)
    ensures OrderIdsBelow(orders + [o], items + newItems, next + 1)
  {
    var all := orders + [o];
    forall k | 0 <= k < |all|
      ensures OrderBalanced(all[k], items + newItems)
    {
      ItemsTotalForAppend(items, newItems, all[k].id);
      if k < |orders| {
        assert all[k] == orders[k];
        ItemsTotalForNone(newItems, orders[k].id);
      } else {
        ItemsTotalForNone(items, next);
      }
    }
  }

  /** Two versions of an order with the same key and the same money fields. */
  predicate SameTotals(a: Order, b: Order)
  {
    a.id == b.id && a.subtotal == b.subtotal && a.taxAmount == b.taxAmount
    && a.shippingCost == b.shippingCost && a.totalAmount == b.totalAmount
  }

  /** Changing orders in place without touching keys or money keeps every order balanced. */
  lemma SameTotalsKeepBalance(orders: seq<Order>, changed: seq<Order>, items: seq<OrderItem>, next: nat)
    requires OrdersBalanced(orders, items) && OrderIdsBelow(orders, items, next)
    requires |changed| == |orders| && forall k :: 0 <= k < |orders| ==> SameTotals(orders[k], changed[k])
    ensures OrdersBalanced(changed, items) && OrderIdsBelow(changed, items, next)
  {
    forall k | 0 <= k < |changed|
      ensures OrderBalanced(changed[k], items)
    {
      assert OrderBalanced(orders[k], items);
    }
  }

  class Database {
    var products: seq<Product>
    var cartItems: seq<CartItem>
    var orders: seq<Order>
    var orderItems: seq<OrderItem>
    var users: seq<User>
    // the next key each table's auto-increment column hands out
    var nextProductId: nat
    var nextCartItemId: nat
    var nextOrderId: nat
    var nextOrderItemId: nat
    var nextUserId: nat

    ghost predicate Valid()
      reads this
    {
      && CartKeysUnique(cartItems)
      && UsernamesUnique(users)
      && EmailsUnique(users)
      && OrderIdsBelow(orders, orderItems, nextOrderId)
      && OrdersBalanced(orders, orderItems)
    }

    /** An empty database; keys start at 1. */
    constructor ()
      ensures Valid()
      ensures products == [] && cartItems == [] && orders == [] && orderItems == [] && users == []
      ensures nextProductId == 1 && nextCartItemId == 1 && nextOrderId == 1 && nextOrderItemId == 1 && nextUserId == 1
    {
      products, cartItems, orders, orderItems, users := [], [], [], [], [];
      nextProductId, nextCartItemId, nextOrderId, nextOrderItemId, nextUserId := 1, 1, 1, 1, 1;
    }
  }
}
