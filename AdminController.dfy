/**
 * The admin controller's state-changing actions: order status assignment
 * (plain, AJAX, accept and reject) and the product table's add, edit and
 * delete with their image-URL rules. Each of these first checks the role
 * gate; a session that fails it changes nothing. `AddOrder` is the one
 * public action here without the gate.
 */
module AdminController {
  import opened Wrappers
  import opened Models
  import opened Sessions
  import opened Store
  import opened Replies

  /** The redirects and the form re-display of the non-AJAX actions. */
  datatype AdminPage = RedirectToLogin | RedirectToOrders | RedirectToProducts | RedisplayForm

  const OrderNotFoundMessage: string := "Order not found"
  const StatusUpdatedMessage: string := "Order status updated successfully"
  const AcceptedMessage: string := "Order accepted successfully"
  const RejectedMessage: string := "Order rejected successfully"

  // ---------------------------------------------------------------- order status

  /** `k` is the index `FirstOrDefault(o => o.Id == id)` picks. */
  predicate FirstOrderWithId(orders: seq<Order>, k: int, id: nat)
  {
    0 <= k < |orders| && orders[k].id == id && forall j :: 0 <= j < k ==> orders[j].id != id
  }

  predicate HasOrder(orders: seq<Order>, id: nat)
  {
    exists k :: 0 <= k < |orders| && orders[k].id == id
  }

  /**
   * `order.Status = status`, stamping `ShippedDate` for `Shipped` and
   * `DeliveredDate` for `Delivered`. No transition is refused.
   */
  function WithStatus(o: Order, status: OrderStatus, now: Time): (r: Order)
    ensures r.status == status
    ensures r.shippedDate != o.shippedDate ==> status == Shipped
    ensures r.deliveredDate != o.deliveredDate ==> status == Delivered
    ensures status == Shipped ==> r.shippedDate == Some(now)
    ensures status == Delivered ==> r.deliveredDate == Some(now)
    ensures r.(status := o.status, shippedDate := o.shippedDate, deliveredDate := o.deliveredDate) == o
  {
    if status == Shipped then o.(status := status, shippedDate := Some(now))
    else if status == Delivered then o.(status := status, deliveredDate := Some(now))
    else o.(status := status)
  }

  /** The order table after `UpdateOrderStatus`: only the first order with key `id` changes. */
  function StatusUpdated(orders: seq<Order>, id: nat, status: OrderStatus, now: Time): (r: seq<Order>)
    ensures |r| == |orders|
    ensures forall k :: 0 <= k < |orders| ==>
      r[k] == if FirstOrderWithId(orders, k, id) then WithStatus(orders[k], status, now) else orders[k]
    ensures !HasOrder(orders, id) ==> r == orders
  {
    match FindOrder(orders, id)
    case None => orders
    case Some(i) => orders[i := WithStatus(orders[i], status, now)]
  }

  /** The order table after `AcceptOrder` or `RejectOrder`: the first order with key `id` gets `status`, no date. */
  function StatusAssigned(orders: seq<Order>, id: nat, status: OrderStatus): (r: seq<Order>)
    ensures |r| == |orders|
    ensures forall k :: 0 <= k < |orders| ==>
      r[k] == if FirstOrderWithId(orders, k, id) then orders[k].(status := status) else orders[k]
    ensures !HasOrder(orders, id) ==> r == orders
  {
    match FindOrder(orders, id)
    case None => orders
    case Some(i) => orders[i := orders[i].(status := status)]
  }

  /** Accepting is a status update to `Confirmed` and rejecting one to `Cancelled`, at any instant. */
  lemma AcceptAndRejectAreStatusUpdates(orders: seq<Order>, id: nat, now: Time)
    ensures StatusAssigned(orders, id, Confirmed) == StatusUpdated(orders, id, Confirmed, now)
    ensures StatusAssigned(orders, id, Cancelled) == StatusUpdated(orders, id, Cancelled, now)
  {
  }

  /** Assigning a status twice with no stamp in between is the same as assigning it once. */
  lemma {:induction false} StatusUpdateIsIdempotent(orders: seq<Order>, id: nat, status: OrderStatus, now: Time)
    ensures StatusUpdated(StatusUpdated(orders, id, status, now), id, status, now) == StatusUpdated(orders, id, status, now)
  {
    match FindOrder(orders, id)
    case None =>
    case Some(i) =>
      var w := WithStatus(orders[i], status, now);
      var once := orders[i := w];
      assert once[i].id == id;
      var again := FindOrder(once, id);
      assert again.Some? && again.value == i;
      assert WithStatus(w, status, now) == w;
  }

  /** The record `AddOrder` stores: a posted key of 0 is replaced by the next order key. */
  function StoredOrder(order: Order, next: nat): (r: Order)
    ensures r.id == if order.id == 0 then next else order.id
    ensures r.(id := order.id) == order
  {
    if order.id == 0 then order.(id := next) else order
  }

  /** The next order key after a row keyed `id` is inserted: the key sequence moves past every stored key. */
  function NextKeyAfter(next: nat, id: nat): (r: nat)
    ensures id < r && next <= r
    ensures r == next || r == id + 1
  {
    if id < next then next else id + 1
  }

  /**
   * `AddOrder`: a public controller action with no role gate and no check of
   * the posted order. The database keys it like any insert. The program also
   * inserts the order items posted with the order; the model takes none, so
   * it leaves the item table as it was.
   */
  method AddOrder(db: Database, order: Order)
    modifies db`orders, db`nextOrderId
    ensures var o := StoredOrder(order, old(db.nextOrderId));
      && db.orders == old(db.orders) + [o]
      && db.nextOrderId == NextKeyAfter(old(db.nextOrderId), o.id)
    ensures old(db.Valid()) && OrderBalanced(StoredOrder(order, old(db.nextOrderId)), db.orderItems) ==> db.Valid()
  {
    var o := StoredOrder(order, db.nextOrderId);
    if old(db.Valid()) && OrderBalanced(o, db.orderItems) {
      AddOrderBalancedIff(db.orders, db.orderItems, o);
    }
    db.orders := db.orders + [o];
    db.nextOrderId := NextKeyAfter(db.nextOrderId, o.id);
  }

  /** Appending an order keeps the orders balanced exactly when that order already is. */
  lemma AddOrderBalancedIff(orders: seq<Order>, items: seq<OrderItem>, order: Order)
    requires OrdersBalanced(orders, items)
    ensures OrdersBalanced(orders + [order], items) <==> OrderBalanced(order, items)
  {
    var all := orders + [order];
    assert all[|orders|] == order;
    if OrderBalanced(order, items) {
      forall k | 0 <= k < |all|
        ensures OrderBalanced(all[k], items)
      {
        if k < |orders| {
          assert all[k] == orders[k];
        }
      }
    }
  }

  /** A status change touches no key or money field, so every order stays balanced. */
  lemma StatusChangesKeepBalance(orders: seq<Order>, items: seq<OrderItem>, next: nat, id: nat, status: OrderStatus, now: Time)
    requires OrdersBalanced(orders, items) && OrderIdsBelow(orders, items, next)
    ensures OrdersBalanced(StatusUpdated(orders, id, status, now), items)
    ensures OrderIdsBelow(StatusUpdated(orders, id, status, now), items, next)
    ensures OrdersBalanced(StatusAssigned(orders, id, status), items)
    ensures OrderIdsBelow(StatusAssigned(orders, id, status), items, next)
  {
    SameTotalsKeepBalance(orders, StatusUpdated(orders, id, status, now), items, next);
    SameTotalsKeepBalance(orders, StatusAssigned(orders, id, status), items, next);
  }

  /** The lookup and assignment shared by `UpdateOrderStatus` and `UpdateOrderStatusAjax`. */
  method ApplyStatus(db: Database, id: nat, status: OrderStatus, now: Time) returns (found: bool)
    requires db.Valid()
    modifies db`orders
    ensures db.Valid()
    ensures found == HasOrder(old(db.orders), id)
    ensures db.orders == StatusUpdated(old(db.orders), id, status, now)
  {
    StatusChangesKeepBalance(db.orders, db.orderItems, db.nextOrderId, id, status, now);
    var i := FindOrder(db.orders, id);
    found := i.Some?;
    if found {
      db.orders := db.orders[i.value := WithStatus(db.orders[i.value], status, now)];
    }
  }

  /** The lookup and assignment shared by `AcceptOrder` and `RejectOrder`. */
  method AssignStatus(db: Database, id: nat, status: OrderStatus) returns (found: bool)
    requires db.Valid()
    modifies db`orders
    ensures db.Valid()
    ensures found == HasOrder(old(db.orders), id)
    ensures db.orders == StatusAssigned(old(db.orders), id, status)
  {
    StatusChangesKeepBalance(db.orders, db.orderItems, db.nextOrderId, id, status, 0);
    var i := FindOrder(db.orders, id);
    found := i.Some?;
    if found {
      db.orders := db.orders[i.value := db.orders[i.value].(status := status)];
    }
  }

  method UpdateOrderStatus(db: Database, session: Session, id: nat, status: OrderStatus, now: Time) returns (r: AdminPage)
    requires db.Valid()
    modifies db`orders
    ensures db.Valid()
    ensures !IsAdminSession(session.values) ==> r == RedirectToLogin && db.orders == old(db.orders)
    ensures IsAdminSession(session.values) ==>
      r == RedirectToOrders && db.orders == StatusUpdated(old(db.orders), id, status, now)
  {
    if !IsAdminSession(session.values) {
      return RedirectToLogin;
    }
    var _ := ApplyStatus(db, id, status, now);
    r := RedirectToOrders;
  }

  method UpdateOrderStatusAjax(db: Database, session: Session, id: nat, status: OrderStatus, now: Time) returns (r: JsonReply)
    requires db.Valid()
    modifies db`orders
    ensures db.Valid()
    ensures !IsAdminSession(session.values) ==> r == JsonReply(false, UnauthorizedMessage) && db.orders == old(db.orders)
    ensures IsAdminSession(session.values) ==>
      && db.orders == StatusUpdated(old(db.orders), id, status, now)
      && r == if HasOrder(old(db.orders), id) then JsonReply(true, StatusUpdatedMessage) else JsonReply(false, OrderNotFoundMessage)
  {
    if !IsAdminSession(session.values) {
      return JsonReply(false, UnauthorizedMessage);
    }
    var found := ApplyStatus(db, id, status, now);
    r := if found then JsonReply(true, StatusUpdatedMessage) else JsonReply(false, OrderNotFoundMessage);
  }

  method AcceptOrder(db: Database, session: Session, id: nat) returns (r: JsonReply)
    requires db.Valid()
    modifies db`orders
    ensures db.Valid()
    ensures !IsAdminSession(session.values) ==> r == JsonReply(false, UnauthorizedMessage) && db.orders == old(db.orders)
    ensures IsAdminSession(session.values) ==>
      && db.orders == StatusAssigned(old(db.orders), id, Confirmed)
      && r == if HasOrder(old(db.orders), id) then JsonReply(true, AcceptedMessage) else JsonReply(false, OrderNotFoundMessage)
  {
    if !IsAdminSession(session.values) {
      return JsonReply(false, UnauthorizedMessage);
    }
    var found := AssignStatus(db, id, Confirmed);
    r := if found then JsonReply(true, AcceptedMessage) else JsonReply(false, OrderNotFoundMessage);
  }

  method RejectOrder(db: Database, session: Session, id: nat) returns (r: JsonReply)
    requires db.Valid()
    modifies db`orders
    ensures db.Valid()
    ensures !IsAdminSession(session.values) ==> r == JsonReply(false, UnauthorizedMessage) && db.orders == old(db.orders)
    ensures IsAdminSession(session.values) ==>
      && db.orders == StatusAssigned(old(db.orders), id, Cancelled)
      && r == if HasOrder(old(db.orders), id) then JsonReply(true, RejectedMessage) else JsonReply(false, OrderNotFoundMessage)
  {
    if !IsAdminSession(session.values) {
      return JsonReply(false, UnauthorizedMessage);
    }
    var found := AssignStatus(db, id, Cancelled);
    r := if found then JsonReply(true, RejectedMessage) else JsonReply(false, OrderNotFoundMessage);
  }

  // ---------------------------------------------------------------- product images

  /** A posted file: its name and length; `guid` stands for the `Guid.NewGuid()` text the upload is stored under. */
  datatype Upload = Upload(guid: string, fileName: string, length: int)

  const ImagesFolder: string := "/images/products/"
  const DefaultImage: string := "/images/products/default-medicine.jpg"

  /** `imageFile != null && imageFile.Length > 0`. */
  predicate HasFile(file: Option<Upload>)
  {
    file.Some? && file.value.length > 0
  }

  /** The URL a stored upload is served from. */
  function UploadUrl(u: Upload): (r: string)
    ensures |r| > |ImagesFolder| && r[..|ImagesFolder|] == ImagesFolder
  {
    ImagesFolder + u.guid + "_" + u.fileName
  }

  /** The image of a product being edited: a file wins, then a non-empty URL, else the current image stays. */
  function EditedImage(file: Option<Upload>, supplied: string, current: string): (r: string)
    ensures HasFile(file) ==> r == UploadUrl(file.value)
    ensures !HasFile(file) && supplied != "" ==> r == supplied
    ensures r != current ==> HasFile(file) || supplied != ""
  {
    if HasFile(file) then UploadUrl(file.value)
    else if supplied != "" then supplied
    else current
  }

  /** The image of a new product: as for an edit, with the default image in place of a current one. */
  function NewProductImage(file: Option<Upload>, supplied: string): (r: string)
    ensures r != ""
    ensures r == EditedImage(file, supplied, DefaultImage)
  {
    if HasFile(file) then UploadUrl(file.value)
    else if supplied != "" then supplied
    else DefaultImage
  }

  // ---------------------------------------------------------------- products

  predicate FirstProductWithId(products: seq<Product>, k: int, id: nat)
  {
    0 <= k < |products| && products[k].id == id && forall j :: 0 <= j < k ==> products[j].id != id
  }

  /**
   * The product `AddProduct` stores: the submitted fields, active, stamped
   * `now`, under the next key, with the new-product image rule.
   */
  function NewProduct(form: Product, file: Option<Upload>, id: nat, now: Time): (r: Product)
    ensures r.isActive && r.id == id && r.createdAt == now && r.updatedAt == now
    ensures r.imageUrl != "" && r.imageUrl == NewProductImage(file, form.imageUrl)
    ensures r.(id := form.id, createdAt := form.createdAt, updatedAt := form.updatedAt,
               isActive := form.isActive, imageUrl := form.imageUrl) == form
  {
    form.(id := id, createdAt := now, updatedAt := now, isActive := true, imageUrl := NewProductImage(file, form.imageUrl))
  }

  /**
   * The existing product after `EditProduct`: the nine submitted fields are
   * copied in, `UpdatedAt` becomes `now`, the image follows the edit rule,
   * and the key and creation time stay.
   */
  function EditedProduct(existing: Product, form: Product, file: Option<Upload>, now: Time): (r: Product)
    ensures r == form.(id := existing.id, createdAt := existing.createdAt, updatedAt := now,
                       imageUrl := EditedImage(file, form.imageUrl, existing.imageUrl))
  {
    existing.(
      name := form.name,
      description := form.description,
      price := form.price,
      stockQuantity := form.stockQuantity,
      category := form.category,
      manufacturer := form.manufacturer,
      dosageForm := form.dosageForm,
      strength := form.strength,
      isActive := form.isActive,
      updatedAt := now,
      imageUrl := EditedImage(file, form.imageUrl, existing.imageUrl))
  }

  /** Submitting the same edit twice leaves the product as the first submission did. */
  lemma EditIsIdempotent(existing: Product, form: Product, file: Option<Upload>, now: Time)
    ensures EditedProduct(EditedProduct(existing, form, file, now), form, file, now) == EditedProduct(existing, form, file, now)
  {
  }

  /** The product table after `EditProduct`: only the first product with the form's key changes. */
  function ProductsEdited(products: seq<Product>, form: Product, file: Option<Upload>, now: Time): (r: seq<Product>)
    ensures |r| == |products|
    ensures forall k :: 0 <= k < |products| ==>
      r[k] == if FirstProductWithId(products, k, form.id) then EditedProduct(products[k], form, file, now) else products[k]
  {
    match FindProduct(products, form.id)
    case None => products
    case Some(i) => products[i := EditedProduct(products[i], form, file, now)]
  }

  /** The product table after `DeleteProduct`: the first product with key `id` is gone, the rest keep their order. */
  function ProductsDeleted(products: seq<Product>, id: nat): (r: seq<Product>)
    ensures (forall k :: 0 <= k < |products| ==> products[k].id != id) ==> r == products
    ensures forall k :: FirstProductWithId(products, k, id) ==> r == products[..k] + products[k + 1..]
  {
    match FindProduct(products, id)
    case None => products
    case Some(i) => products[..i] + products[i + 1..]
  }

  method AddProduct(db: Database, session: Session, form: Product, file: Option<Upload>, modelValid: bool, now: Time)
    returns (r: AdminPage)
    requires db.Valid()
    modifies db`products, db`nextProductId
    ensures db.Valid()
    ensures !(IsAdminSession(session.values) && modelValid) ==>
      && r == (if IsAdminSession(session.values) then RedisplayForm else RedirectToLogin)
      && db.products == old(db.products) && db.nextProductId == old(db.nextProductId)
    ensures IsAdminSession(session.values) && modelValid ==>
      && r == RedirectToProducts
      && db.products == old(db.products) + [NewProduct(form, file, old(db.nextProductId), now)]
      && db.nextProductId == old(db.nextProductId) + 1
  {
    if !IsAdminSession(session.values) {
      return RedirectToLogin;
    }
    if !modelValid {
      return RedisplayForm;
    }
    db.products := db.products + [NewProduct(form, file, db.nextProductId, now)];
    db.nextProductId := db.nextProductId + 1;
    r := RedirectToProducts;
  }

  method EditProduct(db: Database, session: Session, form: Product, file: Option<Upload>, modelValid: bool, now: Time)
    returns (r: AdminPage)
    requires db.Valid()
    modifies db`products
    ensures db.Valid()
    ensures !(IsAdminSession(session.values) && modelValid) ==>
      && r == (if IsAdminSession(session.values) then RedisplayForm else RedirectToLogin)
      && db.products == old(db.products)
    ensures IsAdminSession(session.values) && modelValid ==>
      r == RedirectToProducts && db.products == ProductsEdited(old(db.products), form, file, now)
  {
    if !IsAdminSession(session.values) {
      return RedirectToLogin;
    }
    if !modelValid {
      return RedisplayForm;
    }
    var i := FindProduct(db.products, form.id);
    if i.Some? {
      db.products := db.products[i.value := EditedProduct(db.products[i.value], form, file, now)];
    }
    r := RedirectToProducts;
  }

  method DeleteProduct(db: Database, session: Session, id: nat) returns (r: AdminPage)
    requires db.Valid()
    modifies db`products
    ensures db.Valid()
    ensures !IsAdminSession(session.values) ==> r == RedirectToLogin && db.products == old(db.products)
    ensures IsAdminSession(session.values) ==> r == RedirectToProducts && db.products == ProductsDeleted(old(db.products), id)
  {
    if !IsAdminSession(session.values) {
      return RedirectToLogin;
    }
    var i := FindProduct(db.products, id);
    if i.Some? {
      db.products := db.products[..i.value] + db.products[i.value + 1..];
    }
    r := RedirectToProducts;
  }
}
