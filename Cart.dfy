/**
 * The cart table operations of the shop controller, as functions from the
 * old table to the new one: add is an upsert on the (user, product) row,
 * update sets a row's quantity, remove deletes a row, and checkout removes a
 * user's rows. `QuantityOf` is an independent reference reading of the table
 * against which each operation is stated.
 */
module Cart {
  import opened Wrappers
  import opened Models
  import opened Seqs
  import opened Store

  predicate IsRow(c: CartItem, userId: nat, productId: nat)
  {
    c.userId == userId && c.productId == productId
  }

  predicate HasRow(cart: seq<CartItem>, userId: nat, productId: nat)
  {
    exists k :: 0 <= k < |cart| && IsRow(cart[k], userId, productId)
  }

  /** `CartItems.FirstOrDefault(c => c.UserId == userId && c.ProductId == productId)`. */
  function FindRow(cart: seq<CartItem>, userId: nat, productId: nat): (r: Option<nat>)
    ensures r.Some? ==> r.value < |cart| && IsRow(cart[r.value], userId, productId)
    ensures r.Some? ==> forall k :: 0 <= k < r.value ==> !IsRow(cart[k], userId, productId)
    ensures r.None? <==> !HasRow(cart, userId, productId)
  {
    FindFirst(cart, (c: CartItem) => IsRow(c, userId, productId))
  }

  /** The quantity of `productId` in the cart of `userId`, summed over every matching row. */
  function QuantityOf(cart: seq<CartItem>, userId: nat, productId: nat): int
  {
    if cart == [] then 0
    else QuantityOf(cart[..|cart| - 1], userId, productId) + RowQuantity(cart[|cart| - 1], userId, productId)
  }

  function RowQuantity(c: CartItem, userId: nat, productId: nat): int
  {
    if IsRow(c, userId, productId) then c.quantity else 0
  }

  /** `AddToCart`: increment the existing row, or insert a new one. */
  function AfterAdd(cart: seq<CartItem>, userId: nat, productId: nat, quantity: int, newId: nat, now: Time): seq<CartItem>
  {
    match FindRow(cart, userId, productId)
    case Some(i) => cart[i := cart[i].(quantity := cart[i].quantity + quantity)]
    case None => cart + [CartItem(newId, userId, productId, quantity, now)]
  }

  /** `UpdateCart`: set the matching row's quantity; no matching row, no change. */
  function AfterUpdate(cart: seq<CartItem>, userId: nat, productId: nat, quantity: int): seq<CartItem>
  {
    match FindRow(cart, userId, productId)
    case Some(i) => cart[i := cart[i].(quantity := quantity)]
    case None => cart
  }

  /** `RemoveFromCart`: delete the matching row; no matching row, no change. */
  function AfterRemove(cart: seq<CartItem>, userId: nat, productId: nat): seq<CartItem>
  {
    match FindRow(cart, userId, productId)
    case Some(i) => RemoveAt(cart, i)
    case None => cart
  }

  /** `CartItems.Where(c => c.UserId == userId)`: the user's cart. */
  function UserRows(cart: seq<CartItem>, userId: nat): seq<CartItem>
  {
    Filter(cart, (c: CartItem) => c.userId == userId)
  }

  /** The table after `RemoveRange` of the user's rows. */
  function OtherUsersRows(cart: seq<CartItem>, userId: nat): seq<CartItem>
  {
    Filter(cart, (c: CartItem) => c.userId != userId)
  }

  // ---------------------------------------------------------------- QuantityOf algebra

  lemma {:induction false} QuantityOfAppend(a: seq<CartItem>, b: seq<CartItem>, userId: nat, productId: nat)
    ensures QuantityOf(a + b, userId, productId) == QuantityOf(a, userId, productId) + QuantityOf(b, userId, productId)
  {
    if b == [] {
      assert a + b == a;
    } else {
      assert (a + b)[..|a + b| - 1] == a + b[..|b| - 1];
      QuantityOfAppend(a, b[..|b| - 1], userId, productId);
    }
  }

  lemma {:induction false} QuantityOfNoRow(cart: seq<CartItem>, userId: nat, productId: nat)
    requires !HasRow(cart, userId, productId)
    ensures QuantityOf(cart, userId, productId) == 0
  {
    if cart != [] {
      assert !IsRow(cart[|cart| - 1], userId, productId);
      QuantityOfNoRow(cart[..|cart| - 1], userId, productId);
    }
  }

  /** Replacing row `i` changes the quantity by what that one row contributes. */
  lemma QuantityOfReplace(cart: seq<CartItem>, i: nat, x: CartItem, userId: nat, productId: nat)
    requires i < |cart|
    ensures QuantityOf(cart[i := x], userId, productId)
         == QuantityOf(cart, userId, productId) - RowQuantity(cart[i], userId, productId) + RowQuantity(x, userId, productId)
  {
    assert cart == cart[..i] + [cart[i]] + cart[i + 1..];
    assert cart[i := x] == cart[..i] + [x] + cart[i + 1..];
    QuantityOfAppend(cart[..i] + [cart[i]], cart[i + 1..], userId, productId);
    QuantityOfAppend(cart[..i], [cart[i]], userId, productId);
    QuantityOfAppend(cart[..i] + [x], cart[i + 1..], userId, productId);
    QuantityOfAppend(cart[..i], [x], userId, productId);
    assert [cart[i]][..0] == [] && [x][..0] == [];
  }

  /** Deleting row `i` removes exactly what that row contributes. */
  lemma QuantityOfRemoveAt(cart: seq<CartItem>, i: nat, userId: nat, productId: nat)
    requires i < |cart|
    ensures QuantityOf(RemoveAt(cart, i), userId, productId)
         == QuantityOf(cart, userId, productId) - RowQuantity(cart[i], userId, productId)
  {
    assert cart == cart[..i] + [cart[i]] + cart[i + 1..];
    QuantityOfAppend(cart[..i] + [cart[i]], cart[i + 1..], userId, productId);
    QuantityOfAppend(cart[..i], [cart[i]], userId, productId);
    QuantityOfAppend(cart[..i], cart[i + 1..], userId, productId);
    assert [cart[i]][..0] == [];
  }

  /** With unique keys, the quantity of a pair is that of its one row. */
  lemma QuantityOfUniqueRow(cart: seq<CartItem>, i: nat, userId: nat, productId: nat)
    requires CartKeysUnique(cart) && i < |cart| && IsRow(cart[i], userId, productId)
    ensures QuantityOf(cart, userId, productId) == cart[i].quantity
  {
    var before, after := cart[..i], cart[i + 1..];
    assert cart == before + [cart[i]] + after;
    forall k | 0 <= k < |before| ensures !IsRow(before[k], userId, productId) {
      assert !SameCartKey(cart[k], cart[i]);
    }
    forall k | 0 <= k < |after| ensures !IsRow(after[k], userId, productId) {
      assert !SameCartKey(cart[i], cart[i + 1 + k]);
    }
    QuantityOfNoRow(before, userId, productId);
    QuantityOfNoRow(after, userId, productId);
    QuantityOfAppend(before + [cart[i]], after, userId, productId);
    QuantityOfAppend(before, [cart[i]], userId, productId);
    assert [cart[i]][..0] == [];
  }

  lemma UniqueRowIsFound(cart: seq<CartItem>, i: nat, userId: nat, productId: nat)
    requires CartKeysUnique(cart) && i < |cart| && IsRow(cart[i], userId, productId)
    ensures FindRow(cart, userId, productId) == Some(i)
  {
    var r := FindRow(cart, userId, productId);
    assert r.Some?;
    if r.value > i {
      assert false;
    } else if r.value < i {
      assert SameCartKey(cart[r.value], cart[i]);
      assert false;
    }
  }

  // ---------------------------------------------------------------- add

  /** Adding raises the quantity of the (user, product) pair by `quantity` and no other pair's. */
  lemma AddAddsQuantity(cart: seq<CartItem>, userId: nat, productId: nat, quantity: int, newId: nat, now: Time, u: nat, p: nat)
    ensures QuantityOf(AfterAdd(cart, userId, productId, quantity, newId, now), u, p)
         == QuantityOf(cart, u, p) + (if u == userId && p == productId then quantity else 0)
  {
    match FindRow(cart, userId, productId)
    case Some(i) =>
      QuantityOfReplace(cart, i, cart[i].(quantity := cart[i].quantity + quantity), u, p);
    case None =>
      var row := CartItem(newId, userId, productId, quantity, now);
      QuantityOfAppend(cart, [row], u, p);
      assert [row][..0] == [];
  }

  /** A product already in the user's cart gets no second row: the matching row is incremented in place. */
  lemma AddToExistingRow(cart: seq<CartItem>, userId: nat, productId: nat, quantity: int, newId: nat, now: Time, i: nat)
    requires CartKeysUnique(cart) && i < |cart| && IsRow(cart[i], userId, productId)
    ensures var r := AfterAdd(cart, userId, productId, quantity, newId, now);
      && |r| == |cart|
      && r[i].quantity == cart[i].quantity + quantity
      && r[i] == cart[i].(quantity := r[i].quantity)
      && forall k :: 0 <= k < |cart| && k != i ==> r[k] == cart[k]
  {
    UniqueRowIsFound(cart, i, userId, productId);
  }

  /** A product not yet in the cart is inserted as exactly one new row; the others are unchanged. */
  lemma AddInsertsOneRow(cart: seq<CartItem>, userId: nat, productId: nat, quantity: int, newId: nat, now: Time)
    requires !HasRow(cart, userId, productId)
    ensures var r := AfterAdd(cart, userId, productId, quantity, newId, now);
      && |r| == |cart| + 1
      && r[..|cart|] == cart
      && r[|cart|].userId == userId && r[|cart|].productId == productId && r[|cart|].quantity == quantity
  {
  }

  lemma AddKeepsKeysUnique(cart: seq<CartItem>, userId: nat, productId: nat, quantity: int, newId: nat, now: Time)
    requires CartKeysUnique(cart)
    ensures CartKeysUnique(AfterAdd(cart, userId, productId, quantity, newId, now))
  {
    var r := AfterAdd(cart, userId, productId, quantity, newId, now);
    if FindRow(cart, userId, productId).None? {
      forall i, j | 0 <= i < j < |r| ensures !SameCartKey(r[i], r[j]) {
        if j == |cart| {
          assert !IsRow(cart[i], userId, productId);
        }
      }
    }
  }

  // ---------------------------------------------------------------- update

  /** Updating sets the pair's quantity to exactly `quantity` when the row exists, and touches nothing else. */
  lemma UpdateSetsQuantity(cart: seq<CartItem>, userId: nat, productId: nat, quantity: int, u: nat, p: nat)
    requires CartKeysUnique(cart)
    ensures QuantityOf(AfterUpdate(cart, userId, productId, quantity), u, p)
         == if u == userId && p == productId then (if HasRow(cart, userId, productId) then quantity else 0)
            else QuantityOf(cart, u, p)
  {
    match FindRow(cart, userId, productId)
    case Some(i) =>
      QuantityOfReplace(cart, i, cart[i].(quantity := quantity), u, p);
      if u == userId && p == productId {
        QuantityOfUniqueRow(cart, i, u, p);
      }
    case None =>
      if u == userId && p == productId {
        QuantityOfNoRow(cart, u, p);
      }
  }

  lemma UpdateKeepsKeysUnique(cart: seq<CartItem>, userId: nat, productId: nat, quantity: int)
    requires CartKeysUnique(cart)
    ensures CartKeysUnique(AfterUpdate(cart, userId, productId, quantity))
  {
    var r := AfterUpdate(cart, userId, productId, quantity);
    assert |r| == |cart| && forall k :: 0 <= k < |r| ==> SameCartKey(r[k], cart[k]) && SameCartKey(cart[k], r[k]);
  }

  // ---------------------------------------------------------------- remove

  /** Removing deletes the pair's row and keeps every other row. */
  lemma RemoveDeletesOnlyThatRow(cart: seq<CartItem>, userId: nat, productId: nat)
    requires CartKeysUnique(cart)
    ensures var r := AfterRemove(cart, userId, productId);
      && !HasRow(r, userId, productId)
      && (forall c :: c in r ==> c in cart)
      && (forall c :: c in cart && !IsRow(c, userId, productId) ==> c in r)
      && |r| == if HasRow(cart, userId, productId) then |cart| - 1 else |cart|
  {
    var r := AfterRemove(cart, userId, productId);
    match FindRow(cart, userId, productId)
    case Some(i) =>
      forall k | 0 <= k < |r| ensures !IsRow(r[k], userId, productId) {
        if k >= i {
          assert r[k] == cart[k + 1] && !SameCartKey(cart[i], cart[k + 1]);
        }
      }
      forall c | c in r ensures c in cart {
        var k :| 0 <= k < |r| && r[k] == c;
        if k >= i { assert r[k] == cart[k + 1]; }
      }
      forall c | c in cart && !IsRow(c, userId, productId) ensures c in r {
        var k :| 0 <= k < |cart| && cart[k] == c;
        if k < i { assert r[k] == c; } else { assert k > i && r[k - 1] == c; }
      }
    case None =>
  }

  /** In quantities: the removed pair drops to zero, every other pair keeps its quantity. */
  lemma RemoveClearsQuantity(cart: seq<CartItem>, userId: nat, productId: nat, u: nat, p: nat)
    requires CartKeysUnique(cart)
    ensures QuantityOf(AfterRemove(cart, userId, productId), u, p)
         == if u == userId && p == productId then 0 else QuantityOf(cart, u, p)
  {
    match FindRow(cart, userId, productId)
    case Some(i) =>
      QuantityOfRemoveAt(cart, i, u, p);
      if u == userId && p == productId {
        QuantityOfUniqueRow(cart, i, u, p);
      }
    case None =>
      if u == userId && p == productId {
        QuantityOfNoRow(cart, u, p);
      }
  }

  lemma RemoveKeepsKeysUnique(cart: seq<CartItem>, userId: nat, productId: nat)
    requires CartKeysUnique(cart)
    ensures CartKeysUnique(AfterRemove(cart, userId, productId))
  {
    match FindRow(cart, userId, productId)
    case Some(i) =>
      var r := RemoveAt(cart, i);
      forall a, b | 0 <= a < b < |r| ensures !SameCartKey(r[a], r[b]) {
        var a', b' := if a < i then a else a + 1, if b < i then b else b + 1;
        assert r[a] == cart[a'] && r[b] == cart[b'] && a' < b';
      }
    case None =>
  }

  // ---------------------------------------------------------------- checkout clears the user's cart

  /** After the user's rows are removed the user's cart is empty, and every other user's cart is exactly as before. */
  lemma ClearLeavesOtherCarts(cart: seq<CartItem>, userId: nat, other: nat)
    ensures UserRows(OtherUsersRows(cart, userId), userId) == []
    ensures other != userId ==> UserRows(OtherUsersRows(cart, userId), other) == UserRows(cart, other)
  {
    FilterOfFilterDisjoint(cart, (c: CartItem) => c.userId != userId, (c: CartItem) => c.userId == userId);
    if other != userId {
      FilterOfFilter(cart, (c: CartItem) => c.userId != userId, (c: CartItem) => c.userId == other);
    }
  }

  lemma {:induction false} ClearKeepsKeysUnique(cart: seq<CartItem>, userId: nat)
    requires CartKeysUnique(cart)
    ensures CartKeysUnique(OtherUsersRows(cart, userId))
  {
    if cart != [] {
      var init, last := cart[..|cart| - 1], cart[|cart| - 1];
      assert CartKeysUnique(init);
      ClearKeepsKeysUnique(init, userId);
      var kept := OtherUsersRows(init, userId);
      var r := OtherUsersRows(cart, userId);
      assert r == kept + (if last.userId != userId then [last] else []);
      forall a, b | 0 <= a < b < |r| ensures !SameCartKey(r[a], r[b]) {
        if b == |kept| {
          assert r[a] in init;
          var j :| 0 <= j < |init| && init[j] == r[a];
          assert !SameCartKey(cart[j], cart[|cart| - 1]);
        }
      }
    }
  }
}
