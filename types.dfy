/** The records of src/lib/types.ts. Prices are dollar amounts as `real`
    (the source uses JavaScript numbers); quantities and stock are `int`. */
module Types {

  /** `ProductVariant['size']` */
  datatype Size = S | M | L | XL | XXL {
    /** The size as the string the source stores and displays. */
    function Name(): string {
      match this
      case S => "S"
      case M => "M"
      case L => "L"
      case XL => "XL"
      case XXL => "XXL"
    }
  }

  /** `Product['category']`; `Name()` is the string stored in the database. */
  datatype Category = Men | Women | Wholesale {
    function Name(): string {
      match this
      case Men => "men"
      case Women => "women"
      case Wholesale => "wholesale"
    }
  }

  /** `Order['status']` */
  datatype Status = Pending | Confirmed | Packed | Shipped | Delivered

  datatype ProductVariant = ProductVariant(size: Size, stock: int, price: real)

  datatype Product = Product(
    id: string,
    name: string,
    category: Category,
    description: string,
    images: seq<string>,
    price: real,
    tags: seq<string>,
    slug: string,
    variants: seq<ProductVariant>)

  /** A cart line: a snapshot of the product's name, image and price, keyed by
      (productId, size). */
  datatype CartItem = CartItem(
    productId: string,
    name: string,
    image: string,
    size: Size,
    quantity: int,
    price: real)

  /** `createdAt` is the server timestamp, an abstract number here. */
  datatype Order = Order(
    orderId: string,
    name: string,
    phone: string,
    items: seq<CartItem>,
    status: Status,
    createdAt: int)
}
