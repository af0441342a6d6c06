/**
 * The database records the storefront works on: products, cart rows, orders,
 * order items and the shipping address. Money is integer cents.
 */
module Types {
  import opened Wrappers

  type ProductId = string
  type UserId = string
  /** Orders are keyed by a number the store allocates. */
  type OrderId = nat
  /** A monetary amount in cents. */
  type Cents = int

  /** A catalog row. `description` is nullable in the database. */
  datatype Product = Product(
    id: ProductId,
    title: string,
    description: Option<string>,
    price: Cents,
    category: string,
    stock: int,
    featured: bool)

  /** One row of `cart_items`: a user's quantity of one product. */
  datatype CartRow = CartRow(id: string, userId: UserId, productId: ProductId, quantity: int)

  /** The six statuses an order may have; checkout only ever writes `Pending`. */
  datatype OrderStatus = Pending | Confirmed | Processing | Shipped | Delivered | Cancelled

  /** The shipping and contact record stored with an order. */
  datatype OrderAddress = OrderAddress(
    email: string,
    firstName: string,
    lastName: string,
    address: string,
    city: string,
    state: string,
    zipCode: string,
    country: string)

  /** An order header; its id is its key in the orders table. */
  datatype Order = Order(userId: UserId, totalAmount: Cents, address: OrderAddress, status: OrderStatus)

  /** One line of an order, with the unit price frozen at checkout time. */
  datatype OrderItem = OrderItem(orderId: OrderId, productId: ProductId, quantity: int, priceAtPurchase: Cents)
}
