/** The entities of the shop's in-memory store and the shapes of the answers
    the single `POST /api` endpoint sends back.

    Money is held in integer cents and a rating in tenths of a star, so that
    totals are exact; timestamps are readings of a natural-number clock. */
module Model {

  datatype Option<+T> = None | Some(value: T)

  /** What a session token carries. A token the server issues is represented
      by the claims it signs. */
  datatype Claims = Claims(id: int, email: string, role: string)

  /** `password` is the digest produced when the account was registered. */
  datatype User = User(id: int, email: string, name: string, password: string, role: string, createdAt: nat)

  datatype Product = Product(
    id: int,
    name: string,
    price: int,        // cents
    category: string,
    image: string,
    description: string,
    stock: int,
    rating: int,       // tenths of a star
    reviews: int)

  datatype CartEntry = CartEntry(id: int, userId: int, productId: int, quantity: int, addedAt: nat)

  /** A line of an order: a copy of the product's sale fields taken at checkout. */
  datatype OrderItem = OrderItem(productId: int, name: string, price: int, quantity: int, image: string)

  datatype Order = Order(
    id: int,
    userId: int,
    items: seq<OrderItem>,
    total: int,
    shippingAddress: string,
    paymentMethod: string,
    status: string,
    createdAt: nat)

  /** The projection of a user returned with a session: no password. */
  datatype PublicUser = PublicUser(id: int, email: string, name: string, role: string)

  /** The projection of a user in profiles and the admin's user list: no password. */
  datatype UserView = UserView(id: int, name: string, email: string, role: string, createdAt: nat)

  /** A cart entry joined with the live catalogue product (absent when the id matches none). */
  datatype CartLine = CartLine(entry: CartEntry, product: Option<Product>)

  /** One entry of the dashboard's sales tally: the first line item seen for a
      product, with the units sold over all orders. */
  datatype ProductSale = ProductSale(item: OrderItem, totalSold: int)

  datatype Stats = Stats(
    totalRevenue: int,
    totalOrders: nat,
    totalUsers: nat,
    totalProducts: nat,
    lowStockProducts: nat,
    recentOrders: seq<Order>,
    topProducts: seq<ProductSale>)

  /** The fields an admin may send to `updateProduct`; each present field is copied onto the product. */
  datatype ProductPatch = ProductPatch(
    name: Option<string>,
    price: Option<int>,
    category: Option<string>,
    image: Option<string>,
    description: Option<string>,
    stock: Option<int>,
    rating: Option<int>,
    reviews: Option<int>)

  /** The payload of a successful answer (`{ success: true, ... }`). */
  datatype Body =
    | Session(token: Claims, user: PublicUser)
    | ProductList(products: seq<Product>)
    | ProductFound(product: Product)
    | CategoryList(categories: seq<string>)
    | Message(message: string)
    | CartContents(lines: seq<CartLine>)
    | OrderPlaced(order: Order)
    | OrderFound(order: Order)
    | OrderList(orders: seq<Order>)
    | DashboardStats(stats: Stats)
    | UserList(users: seq<UserView>)
    | OrderUpdated(message: string, order: Order)
    | ProductUpdated(message: string, product: Product)
    | Profile(profile: UserView)

  /** An answer: HTTP 200 with a body, or an error status with `{ error }`. */
  datatype Response = Ok(body: Body) | Err(status: int, error: string)

  /** The hard-coded administrator credential pair, compared in plain text. */
  const AdminEmail: string := "admin@luxeshop.com"
  const AdminPassword: string := "admin123"
}
