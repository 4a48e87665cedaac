/**
 * The records of the pharmacy shop (Models/Order.cs, Models/Product.cs,
 * Models/CartItem.cs, Models/User.cs) as immutable values. The database keeps
 * them in tables; an in-place field assignment in a controller becomes the
 * replacement of one table element by an updated copy.
 */
module Models {
  import opened Wrappers

  /** C#'s `decimal` is an exact decimal number, so money is an exact `real`. */
  type Money = real

  /** A `DateTime`, as an abstract instant supplied by the caller (the model has no clock). */
  type Time = int

  const RoleAdmin: string := "Admin"
  const RoleCustomer: string := "Customer"

  datatype OrderStatus = Pending | Confirmed | Processing | Shipped | Delivered | Cancelled

  datatype Product = Product(
    id: nat,
    name: string,
    description: string,
    price: Money,
    stockQuantity: int,
    category: string,
    manufacturer: string,
    dosageForm: string,
    strength: string,
    imageUrl: string,
    createdAt: Time,
    updatedAt: Time,
    isActive: bool)

  /** One row of the cart table: `quantity` units of a product in a user's cart. */
  datatype CartItem = CartItem(id: nat, userId: nat, productId: nat, quantity: int, addedAt: Time)

  datatype Order = Order(
    id: nat,
    userId: nat,
    customerName: string,
    customerEmail: string,
    customerPhone: string,
    shippingAddress: string,
    city: string,
    postalCode: string,
    paymentMethod: string,
    specialInstructions: string,
    subtotal: Money,
    taxAmount: Money,
    shippingCost: Money,
    totalAmount: Money,
    status: OrderStatus,
    orderDate: Time,
    shippedDate: Option<Time>,
    deliveredDate: Option<Time>)

  /** One line of a placed order, with the price captured when the order was placed. */
  datatype OrderItem = OrderItem(id: nat, orderId: nat, productId: nat, quantity: int, unitPrice: Money, totalPrice: Money)

  datatype User = User(
    id: nat,
    username: string,
    password: string,
    fullName: string,
    email: string,
    phone: string,
    address: string,
    role: string,
    isActive: bool,
    createdAt: Time,
    lastLogin: Time)
}
