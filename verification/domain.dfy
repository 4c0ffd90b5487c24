/**
 * The records the storefront passes around: products, cart lines, orders with
 * their payment method and status, and the browser-side list of stored orders.
 */
module Domain {

  datatype Product = Product(
    id: string,
    nameSi: string,
    nameEn: string,
    slug: string,
    descriptionSi: string,
    descriptionEn: string,
    priceLkr: int,
    stock: int,
    images: seq<string>,
    createdAt: string,
    updatedAt: string,
    featured: bool)

  /** One cart line: a product snapshot and how many units of it. */
  datatype CartItem = CartItem(product: Product, quantity: int)

  datatype PaymentMethod = Cod | BankTransfer | PayHere

  /** The five order states; nothing restricts which may follow which. */
  datatype OrderStatus = Pending | Paid | Shipped | Delivered | Cancelled

  /** An order as checkout stores it; `createdAt` is the creation time in milliseconds. */
  datatype Order = Order(
    id: string,
    orderNumber: string,
    customerName: string,
    phone: string,
    address: string,
    city: string,
    province: string,
    items: seq<CartItem>,
    totalLkr: int,
    paymentMethod: PaymentMethod,
    status: OrderStatus,
    createdAt: int)

  /** An order's amount, the term every revenue figure adds up. */
  function OrderTotal(o: Order): int {
    o.totalLkr
  }

  /** The browser's stored `orders` list, shared by checkout and the admin screens. */
  class OrderStore {
    var orders: seq<Order>

    constructor (initial: seq<Order>)
      ensures orders == initial
    {
      orders := initial;
    }
  }
}
