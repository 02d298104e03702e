/** The single `POST /api` endpoint over the in-memory store `db`. The store
    is a class whose four lists the actions read and change; each action is a
    method answering a `Response`, and `Handle` dispatches on the action. */
module Server {
  import opened Model
  import opened Seqs
  import opened Auth
  import opened Catalogue
  import opened Cart
  import opened Orders
  import opened Dashboard
  import Accounts

  /** What an action sees besides its request data: the token verifier, the
      password digest and its comparison, and the clock. */
  datatype Env = Env(
    verify: string -> Option<Claims>,
    hashOf: string -> string,
    matches: (string, string) -> bool,
    now: nat)

  /** The `action` of a request with the `data` it reads. */
  datatype Request =
    | Register(email: string, name: string, password: string)
    | Login(email: string, password: string)
    | GetProducts(category: Option<string>, search: Option<string>, sort: Option<string>)
    | GetProduct(id: int)
    | GetCategories
    | AddToCart(productId: int, quantity: Option<int>)
    | GetCart
    | UpdateCartItem(cartItemId: int, newQuantity: int)
    | RemoveFromCart(cartItemId: int)
    | CreateOrder(shippingAddress: string, paymentMethod: string)
    | GetOrders
    | GetOrder(orderId: int)
    | AddToWishlist
    | RemoveFromWishlist
    | AddReview(productId: int)
    | GetDashboardStats
    | GetAllUsers
    | GetAllOrders
    | UpdateOrderStatus(orderId: int, status: string)
    | UpdateProduct(id: int, patch: ProductPatch)
    | GetUserProfile
      /** An action name outside the switch's cases. */
    | Unknown(action: string)

  /** The cart actions. */
  predicate CartAction(req: Request)
  {
    req.AddToCart? || req.GetCart? || req.UpdateCartItem? || req.RemoveFromCart?
  }

  /** The order and profile actions. */
  predicate OrderAction(req: Request)
  {
    req.CreateOrder? || req.GetOrders? || req.GetOrder? || req.GetUserProfile?
  }

  /** The admin actions that report on the store. */
  predicate ReportAction(req: Request)
  {
    req.GetDashboardStats? || req.GetAllUsers? || req.GetAllOrders?
  }

  /** The admin actions that change an order or a product. */
  predicate UpdateAction(req: Request)
  {
    req.UpdateOrderStatus? || req.UpdateProduct?
  }

  /** The actions that check a token and then act for its holder. */
  predicate CallerAction(req: Request)
  {
    CartAction(req) || OrderAction(req)
  }

  /** The actions that also demand the `admin` role. */
  predicate AdminAction(req: Request)
  {
    ReportAction(req) || UpdateAction(req)
  }

  /** The actions that never change the store. */
  predicate ReadOnly(req: Request)
  {
    req.Login? || req.GetProducts? || req.GetProduct? || req.GetCategories? || req.GetCart?
    || req.GetOrders? || req.GetOrder? || req.AddToWishlist? || req.RemoveFromWishlist?
    || req.GetAllUsers? || req.GetAllOrders? || req.GetUserProfile? || req.Unknown?
  }

  /** The answer of the `/api` switch to `req`, from a caller authenticated
      as `auth`, over the store as it was before the request. The switch is
      split by family as the dispatchers below are; each case is the answer
      of that action's handler. */
  function Answer(req: Request, auth: Auth, users: seq<User>, products: seq<Product>,
                  orders: seq<Order>, cart: seq<CartEntry>, env: Env): (r: Response)
    ensures req.Unknown? ==> r == Err(400, "Invalid action")
  {
    if CallerAction(req) then CallerAnswer(req, auth, users, products, orders, cart, env)
    else if AdminAction(req) then AdminAnswer(req, auth, users, products, orders)
    else OpenAnswer(req, users, products, env)
  }

  /** The answers of the actions anyone may call. */
  function OpenAnswer(req: Request, users: seq<User>, products: seq<Product>, env: Env): (r: Response)
    requires !CallerAction(req) && !AdminAction(req)
    ensures req.Unknown? ==> r == Err(400, "Invalid action")
    ensures req.AddToWishlist? || req.RemoveFromWishlist? || req.GetProducts? || req.GetCategories? ==> r.Ok?
  {
    match req
    case Register(email, name, password) =>
      if Accounts.EmailIndex(users, email) >= 0 then Err(400, "User already exists")
      else Ok(Accounts.SessionOf(Accounts.NewUser(users, email, name, env.hashOf(password), env.now)))
    case Login(email, password) => Accounts.Login(users, email, password, env.matches)
    case GetProducts(category, search, sort) => Ok(ProductList(QueryProducts(products, category, search, sort)))
    case GetProduct(id) =>
      if FindProduct(products, id).None? then Err(404, "Product not found")
      else Ok(ProductFound(FindProduct(products, id).value))
    case GetCategories => Ok(CategoryList(Categories(products)))
    case AddToWishlist => Ok(Message("Added to wishlist"))
    case RemoveFromWishlist => Ok(Message("Removed from wishlist"))
    case AddReview(productId) =>
      if ProductIndex(products, productId) < 0 then Err(404, "Product not found")
      else Ok(Message("Review added"))
    case Unknown(_) => Err(400, "Invalid action")
  }

  /** The answers of the actions that act for the holder of a verified token. */
  function CallerAnswer(req: Request, auth: Auth, users: seq<User>, products: seq<Product>,
                        orders: seq<Order>, cart: seq<CartEntry>, env: Env): (r: Response)
    requires CallerAction(req)
    ensures !auth.Verified? ==> r == Refusal(auth)
  {
    if CartAction(req) then CartAnswer(req, auth, products, cart)
    else OrderAnswer(req, auth, users, products, orders, cart, env)
  }

  /** The answers of the cart actions. */
  function CartAnswer(req: Request, auth: Auth, products: seq<Product>, cart: seq<CartEntry>): (r: Response)
    requires CartAction(req)
    ensures !auth.Verified? ==> r == Refusal(auth)
    ensures auth.Verified? && (req.UpdateCartItem? || req.RemoveFromCart?) ==>
      (r.Ok? <==> exists i :: 0 <= i < |cart| && cart[i].id == req.cartItemId && cart[i].userId == auth.claims.id)
  {
    if !auth.Verified? then Refusal(auth)
    else
      match req
      case AddToCart(_, _) => Ok(Message("Added to cart"))
      case GetCart => Ok(CartContents(CartView(cart, products, auth.claims.id)))
      case UpdateCartItem(cartItemId, _) =>
        if OwnedIndex(cart, cartItemId, auth.claims.id) < 0 then Err(404, "Cart item not found")
        else Ok(Message("Cart updated"))
      case RemoveFromCart(cartItemId) =>
        if OwnedIndex(cart, cartItemId, auth.claims.id) < 0 then Err(404, "Cart item not found")
        else Ok(Message("Item removed from cart"))
  }

  /** The answers of the order and profile actions. */
  function OrderAnswer(req: Request, auth: Auth, users: seq<User>, products: seq<Product>,
                       orders: seq<Order>, cart: seq<CartEntry>, env: Env): (r: Response)
    requires OrderAction(req)
    ensures !auth.Verified? ==> r == Refusal(auth)
    ensures auth.Verified? && req.GetOrder? && r.Ok? ==>
      r.body.OrderFound? && r.body.order in orders && r.body.order.userId == auth.claims.id
  {
    if !auth.Verified? then Refusal(auth)
    else
      match req
      case CreateOrder(shippingAddress, paymentMethod) =>
        var mine := UserEntries(cart, auth.claims.id);
        var items := Snapshot(mine, products);
        if mine == [] then Err(400, "Cart is empty")
        else if items.None? then Err(500, "Internal server error")
        else Ok(OrderPlaced(Order(|orders| + 1, auth.claims.id, items.value, Total(items.value),
                                  shippingAddress, paymentMethod, "Processing", env.now)))
      case GetOrders => Ok(OrderList(OrdersOf(orders, auth.claims.id)))
      case GetOrder(orderId) =>
        var k := OwnedOrderIndex(orders, orderId, auth.claims.id);
        if k < 0 then Err(404, "Order not found") else Ok(OrderFound(orders[k]))
      case GetUserProfile => Accounts.ProfileOf(users, auth.claims, env.now)
  }

  /** The answers of the actions that demand the `admin` role. */
  function AdminAnswer(req: Request, auth: Auth, users: seq<User>, products: seq<Product>,
                       orders: seq<Order>): (r: Response)
    requires AdminAction(req)
    ensures AdminRefusal(auth).Some? ==> r == AdminRefusal(auth).value
  {
    if ReportAction(req) then ReportAnswer(req, auth, users, products, orders)
    else UpdateAnswer(req, auth, products, orders)
  }

  /** The answers of the admin reports. */
  function ReportAnswer(req: Request, auth: Auth, users: seq<User>, products: seq<Product>,
                        orders: seq<Order>): (r: Response)
    requires ReportAction(req)
    ensures AdminRefusal(auth).Some? ==> r == AdminRefusal(auth).value
    ensures AdminRefusal(auth).None? ==> r.Ok?
  {
    if AdminRefusal(auth).Some? then AdminRefusal(auth).value
    else
      match req
      case GetDashboardStats => Ok(DashboardStats(Statistics(users, products, orders)))
      case GetAllUsers => Ok(UserList(Accounts.Views(users)))
      case GetAllOrders => Ok(OrderList(orders))
  }

  /** The answers of the admin updates: the updated record, or 404. */
  function UpdateAnswer(req: Request, auth: Auth, products: seq<Product>, orders: seq<Order>): (r: Response)
    requires UpdateAction(req)
    ensures AdminRefusal(auth).Some? ==> r == AdminRefusal(auth).value
    ensures AdminRefusal(auth).None? && req.UpdateOrderStatus? ==>
      (r.Ok? <==> exists i :: 0 <= i < |orders| && orders[i].id == req.orderId)
    ensures AdminRefusal(auth).None? && req.UpdateProduct? ==>
      (r.Ok? <==> exists i :: 0 <= i < |products| && products[i].id == req.id)
  {
    if AdminRefusal(auth).Some? then AdminRefusal(auth).value
    else
      match req
      case UpdateOrderStatus(orderId, status) =>
        var k := OrderIndex(orders, orderId);
        if k < 0 then Err(404, "Order not found")
        else Ok(OrderUpdated("Order status updated", orders[k].(status := status)))
      case UpdateProduct(id, patch) =>
        var k := ProductIndex(products, id);
        if k < 0 then Err(404, "Product not found")
        else Ok(ProductUpdated("Product updated", Patched(products[k], patch)))
  }

  class Store {
    var users: seq<User>
    var products: seq<Product>
    var orders: seq<Order>
    var cart: seq<CartEntry>

    /** What every action keeps: accounts numbered with distinct emails and
        no administrator among them, no two cart entries for the same user
        and product, order ids distinct and numbered within the list, and
        each order's total the sum of its lines. */
    ghost predicate Valid()
      reads this
    {
      Accounts.AccountsValid(users) && UniquePairs(cart)
      && IdsDistinct(orders) && IdsInRange(orders) && TotalsMatch(orders)
    }

    /** The store at start-up: the seeded catalogue and nothing else. */
    constructor ()
      ensures Valid()
      ensures users == [] && products == SeedCatalogue && orders == [] && cart == []
    {
      users := [];
      products := SeedCatalogue;
      orders := [];
      cart := [];
    }

    /** `register`: a taken email is refused; otherwise one customer account
        is appended and a session for it is answered. */
    method Register(email: string, name: string, password: string, env: Env) returns (r: Response)
      requires Valid()
      modifies this
      ensures Valid()
      ensures products == old(products) && orders == old(orders) && cart == old(cart)
      ensures Accounts.EmailIndex(old(users), email) >= 0 ==>
        r == Err(400, "User already exists") && users == old(users)
      ensures Accounts.EmailIndex(old(users), email) < 0 ==>
        var u := Accounts.NewUser(old(users), email, name, env.hashOf(password), env.now);
        users == old(users) + [u] && r == Ok(Accounts.SessionOf(u))
    {
      if Accounts.EmailIndex(users, email) >= 0 {
        return Err(400, "User already exists");
      }
      var u := Accounts.NewUser(users, email, name, env.hashOf(password), env.now);
      Accounts.RegisterKeepsValid(users, email, name, env.hashOf(password), env.now);
      users := users + [u];
      r := Ok(Accounts.SessionOf(u));
    }

    /** `login`. */
    method Login(email: string, password: string, env: Env) returns (r: Response)
      ensures r == Accounts.Login(users, email, password, env.matches)
    {
      r := Accounts.Login(users, email, password, env.matches);
    }

    /** `getProducts`. */
    method GetProducts(category: Option<string>, search: Option<string>, sort: Option<string>) returns (r: Response)
      ensures r == Ok(ProductList(QueryProducts(products, category, search, sort)))
    {
      r := Ok(ProductList(QueryProducts(products, category, search, sort)));
    }

    /** `getProduct`. */
    method GetProduct(id: int) returns (r: Response)
      ensures FindProduct(products, id).None? ==> r == Err(404, "Product not found")
      ensures FindProduct(products, id).Some? ==> r == Ok(ProductFound(FindProduct(products, id).value))
    {
      var p := FindProduct(products, id);
      if p.None? {
        return Err(404, "Product not found");
      }
      r := Ok(ProductFound(p.value));
    }

    /** `getCategories`. */
    method GetCategories() returns (r: Response)
      ensures r == Ok(CategoryList(Categories(products)))
    {
      r := Ok(CategoryList(Categories(products)));
    }

    /** `addToCart`: for a verified caller, raise the quantity of the caller's
        entry for the product, or append a new entry. The product need not exist. */
    method AddToCart(auth: Auth, productId: int, quantity: Option<int>, env: Env) returns (r: Response)
      requires Valid()
      modifies this
      ensures Valid()
      ensures users == old(users) && products == old(products) && orders == old(orders)
      ensures !auth.Verified? ==> unchanged(this) && r == Refusal(auth)
      ensures auth.Verified? ==>
          cart == AddItem(old(cart), auth.claims.id, productId, QuantityOrOne(quantity), env.now)
          && r == Ok(Message("Added to cart"))
    {
      if !auth.Verified? {
        return Refusal(auth);
      }
      cart := AddItem(cart, auth.claims.id, productId, QuantityOrOne(quantity), env.now);
      r := Ok(Message("Added to cart"));
    }

    /** `getCart`. */
    method GetCart(auth: Auth) returns (r: Response)
      ensures !auth.Verified? ==> r == Refusal(auth)
      ensures auth.Verified? ==> r == Ok(CartContents(CartView(cart, products, auth.claims.id)))
    {
      if !auth.Verified? {
        return Refusal(auth);
      }
      r := Ok(CartContents(CartView(cart, products, auth.claims.id)));
    }

    /** `updateCartItem`: the caller's first entry with that id takes the
        quantity as given; an id the caller does not own answers 404. */
    method UpdateCartItem(auth: Auth, cartItemId: int, quantity: int) returns (r: Response)
      requires Valid()
      modifies this
      ensures Valid()
      ensures users == old(users) && products == old(products) && orders == old(orders)
      ensures !auth.Verified? ==> unchanged(this) && r == Refusal(auth)
      ensures auth.Verified? ==>
          var k := OwnedIndex(old(cart), cartItemId, auth.claims.id);
          if k < 0 then unchanged(this) && r == Err(404, "Cart item not found")
          else cart == WithQuantity(old(cart), k, quantity) && r == Ok(Message("Cart updated"))
    {
      if !auth.Verified? {
        return Refusal(auth);
      }
      var k := OwnedIndex(cart, cartItemId, auth.claims.id);
      if k < 0 {
        return Err(404, "Cart item not found");
      }
      cart := WithQuantity(cart, k, quantity);
      r := Ok(Message("Cart updated"));
    }

    /** `removeFromCart`: the caller's first entry with that id is spliced out;
        an id the caller does not own answers 404. */
    method RemoveFromCart(auth: Auth, cartItemId: int) returns (r: Response)
      requires Valid()
      modifies this
      ensures Valid()
      ensures users == old(users) && products == old(products) && orders == old(orders)
      ensures !auth.Verified? ==> unchanged(this) && r == Refusal(auth)
      ensures auth.Verified? ==>
          var k := OwnedIndex(old(cart), cartItemId, auth.claims.id);
          if k < 0 then unchanged(this) && r == Err(404, "Cart item not found")
          else cart == RemoveAt(old(cart), k) && r == Ok(Message("Item removed from cart"))
    {
      if !auth.Verified? {
        return Refusal(auth);
      }
      var k := OwnedIndex(cart, cartItemId, auth.claims.id);
      if k < 0 {
        return Err(404, "Cart item not found");
      }
      var rest := RemoveAt(cart, k);
      assert UniquePairs(rest);
      cart := rest;
      r := Ok(Message("Item removed from cart"));
    }

    /** `createOrder`: an empty cart is refused; an entry whose product is
        gone fails the request with 500; otherwise one `Processing` order is
        appended, its lines frozen from the cart and its total their sum, and
        the caller's cart is emptied. */
    method CreateOrder(auth: Auth, shippingAddress: string, paymentMethod: string, env: Env) returns (r: Response)
      requires Valid()
      modifies this
      ensures Valid()
      ensures users == old(users) && products == old(products)
      ensures !auth.Verified? ==> unchanged(this) && r == Refusal(auth)
      ensures auth.Verified? ==>
          var mine := UserEntries(old(cart), auth.claims.id);
          var items := Snapshot(mine, old(products));
          if mine == [] then unchanged(this) && r == Err(400, "Cart is empty")
          else if items.None? then unchanged(this) && r == Err(500, "Internal server error")
          else
            var o := Order(|old(orders)| + 1, auth.claims.id, items.value, Total(items.value),
                           shippingAddress, paymentMethod, "Processing", env.now);
            orders == old(orders) + [o] && cart == ClearUser(old(cart), auth.claims.id)
            && r == Ok(OrderPlaced(o))
    {
      if !auth.Verified? {
        return Refusal(auth);
      }
      var mine := UserEntries(cart, auth.claims.id);
      if mine == [] {
        return Err(400, "Cart is empty");
      }
      var items := Snapshot(mine, products);
      if items.None? {
        return Err(500, "Internal server error");
      }
      var o := Order(|orders| + 1, auth.claims.id, items.value, Total(items.value),
                     shippingAddress, paymentMethod, "Processing", env.now);
      AppendKeepsOrders(orders, o);
      orders := orders + [o];
      cart := ClearUser(cart, auth.claims.id);
      r := Ok(OrderPlaced(o));
    }

    /** `getOrders`. */
    method GetOrders(auth: Auth) returns (r: Response)
      ensures !auth.Verified? ==> r == Refusal(auth)
      ensures auth.Verified? ==> r == Ok(OrderList(OrdersOf(orders, auth.claims.id)))
    {
      if !auth.Verified? {
        return Refusal(auth);
      }
      r := Ok(OrderList(OrdersOf(orders, auth.claims.id)));
    }

    /** `getOrder`: the caller's order with that id, or 404. */
    method GetOrder(auth: Auth, orderId: int) returns (r: Response)
      ensures !auth.Verified? ==> r == Refusal(auth)
      ensures auth.Verified? ==>
          var k := OwnedOrderIndex(orders, orderId, auth.claims.id);
          if k < 0 then r == Err(404, "Order not found") else r == Ok(OrderFound(orders[k]))
    {
      if !auth.Verified? {
        return Refusal(auth);
      }
      var k := OwnedOrderIndex(orders, orderId, auth.claims.id);
      if k < 0 {
        return Err(404, "Order not found");
      }
      r := Ok(OrderFound(orders[k]));
    }

    /** `addReview`: no token is asked for; the review count of the product goes up by one. */
    method AddReview(productId: int) returns (r: Response)
      requires Valid()
      modifies this
      ensures Valid()
      ensures users == old(users) && orders == old(orders) && cart == old(cart)
      ensures var k := ProductIndex(old(products), productId);
        if k < 0 then unchanged(this) && r == Err(404, "Product not found")
        else products == Reviewed(old(products), k) && r == Ok(Message("Review added"))
    {
      var k := ProductIndex(products, productId);
      if k < 0 {
        return Err(404, "Product not found");
      }
      products := Reviewed(products, k);
      r := Ok(Message("Review added"));
    }

    /** `getDashboardStats`: behind the admin gate, the statistics of the
        store; computing them sorts the stored orders newest first. */
    method GetDashboardStats(auth: Auth) returns (r: Response)
      requires Valid()
      modifies this
      ensures Valid()
      ensures users == old(users) && products == old(products) && cart == old(cart)
      ensures AdminRefusal(auth).Some? ==> unchanged(this) && r == AdminRefusal(auth).value
      ensures AdminRefusal(auth).None? ==>
          orders == SortDesc(old(orders), CreatedAt)
          && r == Ok(DashboardStats(Statistics(users, products, old(orders))))
    {
      var gate := AdminRefusal(auth);
      if gate.Some? {
        return gate.value;
      }
      var stats := ComputeStatistics(users, products, orders);
      SortOrders();
      r := Ok(DashboardStats(stats));
    }

    /** The sort `getDashboardStats` performs on the stored orders, newest
        first; it keeps their ids and totals right. */
    method SortOrders()
      requires Valid()
      modifies this
      ensures Valid()
      ensures users == old(users) && products == old(products) && cart == old(cart)
      ensures orders == SortDesc(old(orders), CreatedAt)
    {
      SortKeepsOrders(orders, CreatedAt);
      orders := SortDesc(orders, CreatedAt);
    }

    /** `getAllUsers`: behind the admin gate, every account without its password. */
    method GetAllUsers(auth: Auth) returns (r: Response)
      ensures AdminRefusal(auth).Some? ==> r == AdminRefusal(auth).value
      ensures AdminRefusal(auth).None? ==> r == Ok(UserList(Accounts.Views(users)))
    {
      var gate := AdminRefusal(auth);
      if gate.Some? {
        return gate.value;
      }
      r := Ok(UserList(Accounts.Views(users)));
    }

    /** `getAllOrders`: behind the admin gate, every order as stored. */
    method GetAllOrders(auth: Auth) returns (r: Response)
      ensures AdminRefusal(auth).Some? ==> r == AdminRefusal(auth).value
      ensures AdminRefusal(auth).None? ==> r == Ok(OrderList(orders))
    {
      var gate := AdminRefusal(auth);
      if gate.Some? {
        return gate.value;
      }
      r := Ok(OrderList(orders));
    }

    /** `updateOrderStatus`: behind the admin gate, the first order with that
        id takes the status as given; an unknown id answers 404. */
    method UpdateOrderStatus(auth: Auth, orderId: int, status: string) returns (r: Response)
      requires Valid()
      modifies this
      ensures Valid()
      ensures users == old(users) && products == old(products) && cart == old(cart)
      ensures AdminRefusal(auth).Some? ==> unchanged(this) && r == AdminRefusal(auth).value
      ensures AdminRefusal(auth).None? ==>
          var k := OrderIndex(old(orders), orderId);
          if k < 0 then unchanged(this) && r == Err(404, "Order not found")
          else
            orders == old(orders)[k := old(orders)[k].(status := status)]
            && r == Ok(OrderUpdated("Order status updated", orders[k]))
    {
      var gate := AdminRefusal(auth);
      if gate.Some? {
        return gate.value;
      }
      var k := OrderIndex(orders, orderId);
      if k < 0 {
        return Err(404, "Order not found");
      }
      orders := orders[k := orders[k].(status := status)];
      r := Ok(OrderUpdated("Order status updated", orders[k]));
    }

    /** `updateProduct`: behind the admin gate, the fields sent are copied onto
        the first product with that id; an unknown id answers 404. */
    method UpdateProduct(auth: Auth, id: int, patch: ProductPatch) returns (r: Response)
      requires Valid()
      modifies this
      ensures Valid()
      ensures users == old(users) && orders == old(orders) && cart == old(cart)
      ensures AdminRefusal(auth).Some? ==> unchanged(this) && r == AdminRefusal(auth).value
      ensures AdminRefusal(auth).None? ==>
          var k := ProductIndex(old(products), id);
          if k < 0 then unchanged(this) && r == Err(404, "Product not found")
          else
            products == old(products)[k := Patched(old(products)[k], patch)]
            && r == Ok(ProductUpdated("Product updated", products[k]))
    {
      var gate := AdminRefusal(auth);
      if gate.Some? {
        return gate.value;
      }
      var k := ProductIndex(products, id);
      if k < 0 {
        return Err(404, "Product not found");
      }
      products := products[k := Patched(products[k], patch)];
      r := Ok(ProductUpdated("Product updated", products[k]));
    }

    /** `getUserProfile`. */
    method GetUserProfile(auth: Auth, env: Env) returns (r: Response)
      ensures !auth.Verified? ==> r == Refusal(auth)
      ensures auth.Verified? ==> r == Accounts.ProfileOf(users, auth.claims, env.now)
    {
      if !auth.Verified? {
        return Refusal(auth);
      }
      r := Accounts.ProfileOf(users, auth.claims, env.now);
    }

    /** The `/api` switch. An unknown action answers 400; a protected action
        without a verified token, and an admin action without the admin role,
        answer their refusal before the store is touched. */
    method Handle(req: Request, header: Option<string>, env: Env) returns (r: Response)
      requires Valid()
      modifies this
      ensures Valid()
      ensures r == Answer(req, Authenticate(header, env.verify), old(users), old(products), old(orders), old(cart), env)
      ensures req.Unknown? ==> r == Err(400, "Invalid action")
      ensures ReadOnly(req) ==> unchanged(this)
      ensures CallerAction(req) && !Authenticate(header, env.verify).Verified? ==>
        unchanged(this) && r == Refusal(Authenticate(header, env.verify))
      ensures AdminAction(req) && AdminRefusal(Authenticate(header, env.verify)).Some? ==>
        unchanged(this) && r == AdminRefusal(Authenticate(header, env.verify)).value
      ensures req.Register? ==>
        var u := Accounts.NewUser(old(users), req.email, req.name, env.hashOf(req.password), env.now);
        users == (if Accounts.EmailIndex(old(users), req.email) < 0 then old(users) + [u] else old(users))
        && products == old(products) && orders == old(orders) && cart == old(cart)
      ensures req.AddReview? ==>
        var k := ProductIndex(old(products), req.productId);
        products == (if k < 0 then old(products) else Reviewed(old(products), k))
        && users == old(users) && orders == old(orders) && cart == old(cart)
      ensures CartAction(req) && Authenticate(header, env.verify).Verified? ==>
        var id := Authenticate(header, env.verify).claims.id;
        users == old(users) && products == old(products) && orders == old(orders)
        && (req.AddToCart? ==> cart == AddItem(old(cart), id, req.productId, QuantityOrOne(req.quantity), env.now))
        && (req.UpdateCartItem? ==>
              var k := OwnedIndex(old(cart), req.cartItemId, id);
              cart == if k < 0 then old(cart) else WithQuantity(old(cart), k, req.newQuantity))
        && (req.RemoveFromCart? ==>
              var k := OwnedIndex(old(cart), req.cartItemId, id);
              cart == if k < 0 then old(cart) else RemoveAt(old(cart), k))
      ensures req.CreateOrder? && Authenticate(header, env.verify).Verified? ==>
        var id := Authenticate(header, env.verify).claims.id;
        var mine := UserEntries(old(cart), id);
        var items := Snapshot(mine, old(products));
        users == old(users) && products == old(products)
        && if mine == [] || items.None? then orders == old(orders) && cart == old(cart)
           else
             orders == old(orders) + [Order(|old(orders)| + 1, id, items.value, Total(items.value),
                                            req.shippingAddress, req.paymentMethod, "Processing", env.now)]
             && cart == ClearUser(old(cart), id)
      ensures req.GetDashboardStats? && AdminRefusal(Authenticate(header, env.verify)).None? ==>
        users == old(users) && products == old(products) && cart == old(cart)
        && orders == SortDesc(old(orders), CreatedAt)
      ensures UpdateAction(req) && AdminRefusal(Authenticate(header, env.verify)).None? ==>
        users == old(users) && cart == old(cart)
        && (req.UpdateOrderStatus? ==>
              var k := OrderIndex(old(orders), req.orderId);
              products == old(products)
              && orders == if k < 0 then old(orders) else old(orders)[k := old(orders)[k].(status := req.status)])
        && (req.UpdateProduct? ==>
              var k := ProductIndex(old(products), req.id);
              orders == old(orders)
              && products == if k < 0 then old(products) else old(products)[k := Patched(old(products)[k], req.patch)])
    {
      var auth := Authenticate(header, env.verify);
      if CallerAction(req) {
        assert !AdminAction(req) && !req.Register? && !req.AddReview? && !req.Unknown?;
        r := HandleCaller(req, auth, env);
      } else if AdminAction(req) {
        assert !req.Register? && !req.AddReview? && !req.Unknown?;
        r := HandleAdmin(req, auth);
      } else {
        r := HandleOpen(req, env);
      }
    }

    /** The actions that act for the holder of a verified token. */
    method HandleCaller(req: Request, auth: Auth, env: Env) returns (r: Response)
      requires Valid() && CallerAction(req)
      modifies this
      ensures Valid()
      ensures r == CallerAnswer(req, auth, old(users), old(products), old(orders), old(cart), env)
      ensures ReadOnly(req) ==> unchanged(this)
      ensures !auth.Verified? ==> unchanged(this)
      ensures CartAction(req) && auth.Verified? ==>
        var id := auth.claims.id;
        users == old(users) && products == old(products) && orders == old(orders)
        && (req.AddToCart? ==> cart == AddItem(old(cart), id, req.productId, QuantityOrOne(req.quantity), env.now))
        && (req.UpdateCartItem? ==>
              var k := OwnedIndex(old(cart), req.cartItemId, id);
              cart == if k < 0 then old(cart) else WithQuantity(old(cart), k, req.newQuantity))
        && (req.RemoveFromCart? ==>
              var k := OwnedIndex(old(cart), req.cartItemId, id);
              cart == if k < 0 then old(cart) else RemoveAt(old(cart), k))
      ensures req.CreateOrder? && auth.Verified? ==>
        var id := auth.claims.id;
        var mine := UserEntries(old(cart), id);
        var items := Snapshot(mine, old(products));
        users == old(users) && products == old(products)
        && if mine == [] || items.None? then orders == old(orders) && cart == old(cart)
           else
             orders == old(orders) + [Order(|old(orders)| + 1, id, items.value, Total(items.value),
                                            req.shippingAddress, req.paymentMethod, "Processing", env.now)]
             && cart == ClearUser(old(cart), id)
    {
      if CartAction(req) {
        assert !req.CreateOrder? && (ReadOnly(req) <==> req.GetCart?);
        r := HandleCart(req, auth, env);
      } else {
        assert ReadOnly(req) <==> !req.CreateOrder?;
        r := HandleOrders(req, auth, env);
      }
    }

    /** The actions that demand the `admin` role. */
    method HandleAdmin(req: Request, auth: Auth) returns (r: Response)
      requires Valid() && AdminAction(req)
      modifies this
      ensures Valid()
      ensures r == AdminAnswer(req, auth, old(users), old(products), old(orders))
      ensures ReadOnly(req) ==> unchanged(this)
      ensures AdminRefusal(auth).Some? ==> unchanged(this)
      ensures req.GetDashboardStats? && AdminRefusal(auth).None? ==>
        users == old(users) && products == old(products) && cart == old(cart)
        && orders == SortDesc(old(orders), CreatedAt)
      ensures UpdateAction(req) && AdminRefusal(auth).None? ==>
        users == old(users) && cart == old(cart)
        && (req.UpdateOrderStatus? ==>
              var k := OrderIndex(old(orders), req.orderId);
              products == old(products)
              && orders == if k < 0 then old(orders) else old(orders)[k := old(orders)[k].(status := req.status)])
        && (req.UpdateProduct? ==>
              var k := ProductIndex(old(products), req.id);
              orders == old(orders)
              && products == if k < 0 then old(products) else old(products)[k := Patched(old(products)[k], req.patch)])
    {
      if ReportAction(req) {
        assert !UpdateAction(req) && (ReadOnly(req) <==> !req.GetDashboardStats?);
        r := HandleReports(req, auth);
      } else {
        assert !req.GetDashboardStats? && !ReadOnly(req);
        r := HandleUpdates(req, auth);
      }
    }

    /** The actions anyone may call. */
    method HandleOpen(req: Request, env: Env) returns (r: Response)
      requires Valid() && !CallerAction(req) && !AdminAction(req)
      modifies this
      ensures Valid()
      ensures r == OpenAnswer(req, old(users), old(products), env)
      ensures ReadOnly(req) ==> unchanged(this)
      ensures orders == old(orders) && cart == old(cart)
      ensures req.Register? ==>
        var u := Accounts.NewUser(old(users), req.email, req.name, env.hashOf(req.password), env.now);
        products == old(products)
        && users == if Accounts.EmailIndex(old(users), req.email) < 0 then old(users) + [u] else old(users)
      ensures req.AddReview? ==>
        var k := ProductIndex(old(products), req.productId);
        users == old(users) && products == if k < 0 then old(products) else Reviewed(old(products), k)
    {
      match req
      case Register(email, name, password) => r := Register(email, name, password, env);
      case Login(email, password) => r := Login(email, password, env);
      case GetProducts(category, search, sort) => r := GetProducts(category, search, sort);
      case GetProduct(id) => r := GetProduct(id);
      case GetCategories => r := GetCategories();
      case AddToWishlist => r := Ok(Message("Added to wishlist"));
      case RemoveFromWishlist => r := Ok(Message("Removed from wishlist"));
      case AddReview(productId) => r := AddReview(productId);
      case Unknown(_) => r := Err(400, "Invalid action");
    }

    /** The cart actions of a verified caller. */
    method HandleCart(req: Request, auth: Auth, env: Env) returns (r: Response)
      requires Valid()
      requires CartAction(req)
      modifies this
      ensures Valid()
      ensures r == CartAnswer(req, auth, old(products), old(cart))
      ensures req.GetCart? ==> unchanged(this)
      ensures !auth.Verified? ==> unchanged(this)
      ensures users == old(users) && products == old(products) && orders == old(orders)
      ensures req.AddToCart? && auth.Verified? ==>
        cart == AddItem(old(cart), auth.claims.id, req.productId, QuantityOrOne(req.quantity), env.now)
      ensures req.UpdateCartItem? && auth.Verified? ==>
        var k := OwnedIndex(old(cart), req.cartItemId, auth.claims.id);
        cart == if k < 0 then old(cart) else WithQuantity(old(cart), k, req.newQuantity)
      ensures req.RemoveFromCart? && auth.Verified? ==>
        var k := OwnedIndex(old(cart), req.cartItemId, auth.claims.id);
        cart == if k < 0 then old(cart) else RemoveAt(old(cart), k)
    {
      match req
      case AddToCart(productId, quantity) => r := AddToCart(auth, productId, quantity, env);
      case GetCart => r := GetCart(auth);
      case UpdateCartItem(cartItemId, quantity) => r := UpdateCartItem(auth, cartItemId, quantity);
      case RemoveFromCart(cartItemId) => r := RemoveFromCart(auth, cartItemId);
    }

    /** The order and profile actions of a verified caller. */
    method HandleOrders(req: Request, auth: Auth, env: Env) returns (r: Response)
      requires Valid()
      requires OrderAction(req)
      modifies this
      ensures Valid()
      ensures r == OrderAnswer(req, auth, old(users), old(products), old(orders), old(cart), env)
      ensures !req.CreateOrder? ==> unchanged(this)
      ensures !auth.Verified? ==> unchanged(this)
      ensures users == old(users) && products == old(products)
      ensures req.CreateOrder? && auth.Verified? ==>
        var mine := UserEntries(old(cart), auth.claims.id);
        var items := Snapshot(mine, old(products));
        if mine == [] || items.None? then orders == old(orders) && cart == old(cart)
        else
          orders == old(orders) + [Order(|old(orders)| + 1, auth.claims.id, items.value, Total(items.value),
                                         req.shippingAddress, req.paymentMethod, "Processing", env.now)]
          && cart == ClearUser(old(cart), auth.claims.id)
    {
      match req
      case CreateOrder(shippingAddress, paymentMethod) => r := CreateOrder(auth, shippingAddress, paymentMethod, env);
      case GetOrders => r := GetOrders(auth);
      case GetOrder(orderId) => r := GetOrder(auth, orderId);
      case GetUserProfile => r := GetUserProfile(auth, env);
    }

    /** The admin actions that report on the store. */
    method HandleReports(req: Request, auth: Auth) returns (r: Response)
      requires Valid()
      requires ReportAction(req)
      modifies this
      ensures Valid()
      ensures r == ReportAnswer(req, auth, old(users), old(products), old(orders))
      ensures !req.GetDashboardStats? ==> unchanged(this)
      ensures AdminRefusal(auth).Some? ==> unchanged(this)
      ensures users == old(users) && products == old(products) && cart == old(cart)
      ensures req.GetDashboardStats? && AdminRefusal(auth).None? ==>
        orders == SortDesc(old(orders), CreatedAt)
    {
      match req
      case GetDashboardStats => r := GetDashboardStats(auth);
      case GetAllUsers => r := GetAllUsers(auth);
      case GetAllOrders => r := GetAllOrders(auth);
    }

    /** The admin actions that change an order or a product. */
    method HandleUpdates(req: Request, auth: Auth) returns (r: Response)
      requires Valid()
      requires UpdateAction(req)
      modifies this
      ensures Valid()
      ensures r == UpdateAnswer(req, auth, old(products), old(orders))
      ensures AdminRefusal(auth).Some? ==> unchanged(this)
      ensures users == old(users) && cart == old(cart)
      ensures req.UpdateOrderStatus? && AdminRefusal(auth).None? ==>
        var k := OrderIndex(old(orders), req.orderId);
        products == old(products)
        && orders == if k < 0 then old(orders) else old(orders)[k := old(orders)[k].(status := req.status)]
      ensures req.UpdateProduct? && AdminRefusal(auth).None? ==>
        var k := ProductIndex(old(products), req.id);
        orders == old(orders)
        && products == if k < 0 then old(products) else old(products)[k := Patched(old(products)[k], req.patch)]
    {
      match req
      case UpdateOrderStatus(orderId, status) => r := UpdateOrderStatus(auth, orderId, status);
      case UpdateProduct(id, patch) => r := UpdateProduct(auth, id, patch);
    }
  }
}
