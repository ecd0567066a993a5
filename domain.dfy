/**
 * The shared data types of the client: order statuses and their display labels,
 * categories, products, orders and their items, and the paged responses of the
 * backend. Money amounts and timestamps are integers.
 */
module Domain {
  import opened Wrappers

  datatype OrderStatus = Pending | Confirmed | Processing | Shipped | Delivered | Cancelled | Refunded

  /** `ORDER_STATUS_LABELS`. */
  function StatusLabel(s: OrderStatus): string {
    match s
    case Pending => "Ожидает обработки"
    case Confirmed => "Подтвержден"
    case Processing => "В обработке"
    case Shipped => "Отправлен"
    case Delivered => "Доставлен"
    case Cancelled => "Отменен"
    case Refunded => "Возвращен"
  }

  datatype Category = Category(id: int, name: string, description: Option<string>, isActive: bool, availability: Option<bool>)

  datatype Product = Product(id: int, companyId: int, name: string, description: string, netPrice: int, price: int,
                             sku: string, stock: int, isActive: bool, category: Category)

  datatype OrderItem = OrderItem(id: int, product: Product, quantity: int, priceAtPurchase: int, subtotal: int)

  /** An order; `createdAt` is the creation time in milliseconds. */
  datatype Order = Order(id: int, userEmail: string, items: seq<OrderItem>, totalAmount: int, status: OrderStatus,
                         createdAt: int)

  datatype CartItem = CartItem(id: int, product: Product, quantity: int, subtotal: int)

  datatype Cart = Cart(id: int, items: seq<CartItem>, totalAmount: int)

  /** A page of a paged response; `number` is `pageable.pageNumber` (or `number`, depending on the service). */
  datatype Page<T> = Page(content: seq<T>, number: int, size: int, totalElements: int, totalPages: int)
}
