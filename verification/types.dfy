/** Records shared by the storefront, the checkout panel and the admin page.
    Prices are whole numbers of the smallest currency unit; the application's
    floating-point arithmetic and formatting are not part of this model. */
module Types {

  /** A value that may be absent (`null` / `undefined` in the application). */
  datatype Option<+T> = None | Some(value: T) {

    /** The wrapped value, or `default` when absent (the `x || default` idiom
        for a nullable field whose present values are never falsy). */
    function GetOr(default: T): (r: T)
      ensures Some? ==> r == value
      ensures None? ==> r == default
    {
      match this
      case Some(v) => v
      case None => default
    }
  }

  /** A row of the `products` table. `imageUrls` is read by the admin page
      although the declared interface leaves it out; `imageUrl` is the legacy
      primary image kept for backward compatibility. */
  datatype Product = Product(
    id: string,
    name: string,
    description: Option<string>,
    oldPrice: Option<int>,
    newPrice: int,
    category: Option<string>,
    imageUrl: Option<string>,
    imageUrls: Option<seq<string>>,
    isSold: bool,
    createdAt: string)

  /** A cart entry: a snapshot of the product taken when it was added. */
  datatype CartItem = CartItem(product: Product, quantity: int)

  datatype OrderStatus = Pending | Confirmed | Cancelled

  /** The two options of the checkout form's delivery selector. */
  datatype DeliveryType = Home | Office

  /** One element of an order's `items` column: what checkout actually writes,
      a denormalised copy of the product's id, name and price. */
  datatype OrderLine = OrderLine(productId: string, name: string, price: int, quantity: int)

  /** A row of the `orders` table as the admin page reads it back; `id` and
      `createdAt` are assigned by the store. It documents the table's schema:
      the model writes rows as `Checkout.NewOrder` and reads none. */
  datatype Order = Order(
    id: string,
    customerName: string,
    phone: string,
    address: string,
    deliveryType: DeliveryType,
    items: seq<OrderLine>,
    totalPrice: int,
    status: OrderStatus,
    createdAt: string)

  /** A toast shown to the user. */
  datatype Notice = ErrorNotice(message: string) | SuccessNotice(message: string)
}
