/**
 * The order engine of checkout: which cart lines are priced (their product is
 * active), the subtotal, the 5% tax and the fixed shipping fee, the order
 * items created for the priced lines, and the order record itself.
 */
module Pricing {
  import opened Wrappers
  import opened Models
  import opened Seqs
  import opened Store

  const TaxRate: Money := 0.05
  const ShippingFee: Money := 5.00
  const CashOnDelivery: string := "Cash on Delivery"

  /** The fields the checkout form posts (a null field binds as the empty string). */
  datatype CheckoutForm = CheckoutForm(
    customerName: string,
    customerPhone: string,
    shippingAddress: string,
    city: string,
    postalCode: string,
    specialInstructions: string)

  /** Name, phone, address, city and postal code must all be non-empty. */
  predicate RequiredFieldsPresent(form: CheckoutForm)
  {
    form.customerName != "" && form.customerPhone != "" && form.shippingAddress != ""
    && form.city != "" && form.postalCode != ""
  }

  /** `Products.Where(p => p.IsActive)`. */
  function ActiveProducts(products: seq<Product>): (r: seq<Product>)
    ensures forall p :: p in r <==> p in products && p.isActive
  {
    Filter(products, (p: Product) => p.isActive)
  }

  /** The price that `FirstOrDefault(p => p.Id == productId)` finds among the active products. */
  function PriceOf(active: seq<Product>, productId: nat): (r: Option<Money>)
    ensures r.None? <==> forall k :: 0 <= k < |active| ==> active[k].id != productId
    ensures r.Some? ==> exists k :: 0 <= k < |active| && active[k].id == productId && active[k].price == r.value
  {
    match FindFirst(active, (p: Product) => p.id == productId)
    case Some(i) => Some(active[i].price)
    case None => None
  }

  /** A cart line is priced when its product is found among the active products. */
  predicate IsPriced(active: seq<Product>, c: CartItem)
  {
    PriceOf(active, c.productId).Some?
  }

  /** price × quantity for a priced line; an unpriced line contributes nothing. */
  function LineAmount(active: seq<Product>, c: CartItem): Money
  {
    match PriceOf(active, c.productId)
    case Some(price) => price * (c.quantity as real)
    case None => 0.0
  }

  function Subtotal(lines: seq<CartItem>, active: seq<Product>): Money
  {
    if lines == [] then 0.0
    else Subtotal(lines[..|lines| - 1], active) + LineAmount(active, lines[|lines| - 1])
  }

  function Tax(subtotal: Money): Money
  {
    subtotal * TaxRate
  }

  function PricedLines(lines: seq<CartItem>, active: seq<Product>): seq<CartItem>
  {
    Filter(lines, (c: CartItem) => IsPriced(active, c))
  }

  /** The order item for a priced line: the price captured now, and price × quantity. */
  function LineItem(active: seq<Product>, c: CartItem, orderId: nat, id: nat): OrderItem
    requires IsPriced(active, c)
  {
    var price := PriceOf(active, c.productId).value;
    OrderItem(id, orderId, c.productId, c.quantity, price, price * (c.quantity as real))
  }

  /** The order items created for `lines`, in order, with consecutive keys from `firstId`. */
  function PricedItems(lines: seq<CartItem>, active: seq<Product>, orderId: nat, firstId: nat): seq<OrderItem>
  {
    if lines == [] then []
    else
      var init := PricedItems(lines[..|lines| - 1], active, orderId, firstId);
      var c := lines[|lines| - 1];
      init + (if IsPriced(active, c) then [LineItem(active, c, orderId, firstId + |init|)] else [])
  }

  /** The order record checkout stores: the form's fields, the session's user and email, and the totals. */
  function PlacedOrder(form: CheckoutForm, id: nat, userId: nat, email: string, now: Time, subtotal: Money): Order
  {
    Order(id, userId, form.customerName, email, form.customerPhone, form.shippingAddress, form.city,
          form.postalCode, CashOnDelivery, form.specialInstructions,
          subtotal, Tax(subtotal), ShippingFee, subtotal + Tax(subtotal) + ShippingFee,
          Pending, now, None, None)
  }

  /** The `foreach` that accumulates the subtotal. */
  method ComputeSubtotal(lines: seq<CartItem>, active: seq<Product>) returns (subtotal: Money)
    ensures subtotal == Subtotal(lines, active)
  {
    subtotal := 0.0;
    for i := 0 to |lines|
      invariant subtotal == Subtotal(lines[..i], active)
    {
      match PriceOf(active, lines[i].productId) {
        case Some(price) => subtotal := subtotal + price * (lines[i].quantity as real);
        case None =>
      }
      assert lines[..i + 1][..i] == lines[..i];
    }
    assert lines[..|lines|] == lines;
  }

  // ---------------------------------------------------------------- properties

  lemma SubtotalSnoc(init: seq<CartItem>, c: CartItem, active: seq<Product>)
    ensures Subtotal(init + [c], active) == Subtotal(init, active) + LineAmount(active, c)
  {
    assert (init + [c])[..|init|] == init;
  }

  /** Unpriced lines (missing or inactive product) are skipped: they do not change the subtotal. */
  lemma {:induction false} SubtotalSkipsUnpriced(lines: seq<CartItem>, active: seq<Product>)
    ensures Subtotal(PricedLines(lines, active), active) == Subtotal(lines, active)
  {
    if lines != [] {
      var init, c := lines[..|lines| - 1], lines[|lines| - 1];
      assert lines == init + [c];
      SubtotalSkipsUnpriced(init, active);
      FilterSnoc(init, c, (c: CartItem) => IsPriced(active, c));
      SubtotalSnoc(init, c, active);
      var kept := PricedLines(init, active);
      if IsPriced(active, c) {
        assert PricedLines(lines, active) == kept + [c];
        SubtotalSnoc(kept, c, active);
      } else {
        assert PricedLines(lines, active) == kept;
        assert LineAmount(active, c) == 0.0;
      }
    }
  }

  /** `item` is the order item created for the priced cart line `c`, keyed `id`, in order `orderId`. */
  predicate ItemFollowsLine(item: OrderItem, c: CartItem, active: seq<Product>, orderId: nat, id: nat)
  {
    && item.id == id
    && item.orderId == orderId
    && item.productId == c.productId
    && item.quantity == c.quantity
    && PriceOf(active, c.productId) == Some(item.unitPrice)
    && item.totalPrice == item.unitPrice * (item.quantity as real)
  }

  lemma PricedItemsSnoc(init: seq<CartItem>, c: CartItem, active: seq<Product>, orderId: nat, firstId: nat)
    ensures var before := PricedItems(init, active, orderId, firstId);
      PricedItems(init + [c], active, orderId, firstId)
      == before + (if IsPriced(active, c) then [LineItem(active, c, orderId, firstId + |before|)] else [])
  {
    assert (init + [c])[..|init|] == init;
  }

  lemma LineItemFollows(active: seq<Product>, c: CartItem, orderId: nat, id: nat)
    requires IsPriced(active, c)
    ensures ItemFollowsLine(LineItem(active, c, orderId, id), c, active, orderId, id)
  {
  }

  /** Item `k` was created for priced line `k`, keyed `firstId + k`, for every `k`. */
  predicate ItemsFollowLines(items: seq<OrderItem>, priced: seq<CartItem>, active: seq<Product>, orderId: nat, firstId: nat)
  {
    && |items| == |priced|
    && forall k :: 0 <= k < |items| ==> ItemFollowsLine(items[k], priced[k], active, orderId, firstId + k)
  }

  /** Items that follow their lines still do after one more matching pair. */
  lemma FollowSnoc(items: seq<OrderItem>, priced: seq<CartItem>, item: OrderItem, c: CartItem,
                   active: seq<Product>, orderId: nat, firstId: nat)
    requires ItemsFollowLines(items, priced, active, orderId, firstId)
    requires ItemFollowsLine(item, c, active, orderId, firstId + |items|)
    ensures ItemsFollowLines(items + [item], priced + [c], active, orderId, firstId)
  {
  }

  /** One order item per priced line, in order: same product and quantity, the captured unit price, price × quantity. */
  lemma {:induction false} PricedItemsFollowLines(lines: seq<CartItem>, active: seq<Product>, orderId: nat, firstId: nat)
    ensures ItemsFollowLines(PricedItems(lines, active, orderId, firstId), PricedLines(lines, active), active, orderId, firstId)
  {
    if lines != [] {
      var init, c := lines[..|lines| - 1], lines[|lines| - 1];
      assert lines == init + [c];
      PricedItemsFollowLines(init, active, orderId, firstId);
      FilterSnoc(init, c, (c: CartItem) => IsPriced(active, c));
      PricedItemsSnoc(init, c, active, orderId, firstId);
      var items0, priced0 := PricedItems(init, active, orderId, firstId), PricedLines(init, active);
      if IsPriced(active, c) {
        var item := LineItem(active, c, orderId, firstId + |items0|);
        LineItemFollows(active, c, orderId, firstId + |items0|);
        FollowSnoc(items0, priced0, item, c, active, orderId, firstId);
      }
    }
  }

  /** The item totals of the new order add up to its subtotal. */
  lemma {:induction false} ItemsTotalIsSubtotal(lines: seq<CartItem>, active: seq<Product>, orderId: nat, firstId: nat)
    ensures ItemsTotalFor(PricedItems(lines, active, orderId, firstId), orderId) == Subtotal(lines, active)
  {
    if lines != [] {
      var init, c := lines[..|lines| - 1], lines[|lines| - 1];
      var before := PricedItems(init, active, orderId, firstId);
      ItemsTotalIsSubtotal(init, active, orderId, firstId);
      if IsPriced(active, c) {
        var item := LineItem(active, c, orderId, firstId + |before|);
        assert PricedItems(lines, active, orderId, firstId) == before + [item];
        assert (before + [item])[..|before|] == before;
        assert item.totalPrice == LineAmount(active, c);
      } else {
        assert PricedItems(lines, active, orderId, firstId) == before;
        assert LineAmount(active, c) == 0.0;
      }
    }
  }

  /**
   * The placed order is Pending, cash on delivery, taxed at 5% with 5.00
   * shipping, and balanced against the items created for it.
   */
  lemma PlacedOrderIsBalanced(form: CheckoutForm, id: nat, userId: nat, email: string, now: Time,
                              lines: seq<CartItem>, active: seq<Product>, firstId: nat)
    ensures var subtotal := Subtotal(lines, active);
      var o := PlacedOrder(form, id, userId, email, now, subtotal);
      && o.status == Pending && o.paymentMethod == CashOnDelivery
      && o.subtotal == subtotal && o.taxAmount == 0.05 * subtotal && o.shippingCost == 5.00
      && o.totalAmount == subtotal + 0.05 * subtotal + 5.00
      && OrderBalanced(o, PricedItems(lines, active, id, firstId))
  {
    ItemsTotalIsSubtotal(lines, active, id, firstId);
  }

  /** Two units at 5.99 and one at 12.99: subtotal 24.97, tax 1.2485, total 31.2185. */
  lemma TotalsExample()
    ensures var a := Product(1, "Paracetamol 500mg", "", 5.99, 100, "Pain Relief", "", "", "", "", 0, 0, true);
      var b := Product(2, "Amoxicillin 250mg", "", 12.99, 50, "Antibiotics", "", "", "", "", 0, 0, true);
      var lines := [CartItem(1, 7, 1, 2, 0), CartItem(2, 7, 2, 1, 0)];
      var subtotal := Subtotal(lines, [a, b]);
      subtotal == 24.97 && Tax(subtotal) == 1.2485 && subtotal + Tax(subtotal) + ShippingFee == 31.2185
  {
    var a := Product(1, "Paracetamol 500mg", "", 5.99, 100, "Pain Relief", "", "", "", "", 0, 0, true);
    var b := Product(2, "Amoxicillin 250mg", "", 12.99, 50, "Antibiotics", "", "", "", "", 0, 0, true);
    var active := [a, b];
    assert active[..1] == [a] && [a][..0] == [];
    assert FindFirst([a], (p: Product) => p.id == 1) == Some(0);
    assert PriceOf(active, 1) == Some(5.99);
    assert PriceOf(active, 2) == Some(12.99);
    var lines := [CartItem(1, 7, 1, 2, 0), CartItem(2, 7, 2, 1, 0)];
    assert lines[..1] == [lines[0]] && [lines[0]][..0] == [];
    assert Subtotal([lines[0]], active) == 11.98;
  }
}
