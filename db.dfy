/** The record shapes, defaults and enum of the Mongoose schemas, the connection guard,
    and the collections the handlers read and write. */
module Db {
  import opened Common

  // ---------------------------------------------------------------- connection

  /** `mongoose.connection.readyState` values used here. */
  const Disconnected := 0
  const ReadyConnected := 1

  /** What `mongoose.connect` does when it is called. */
  datatype ConnectAttempt = ConnectOk | ConnectError(message: string)
  datatype ConnectResult = Connected | ConnectFailed(message: string)

  const MissingUriMessage := "Missing MONGO_URI environment variable."

  class Connection {
    var readyState: int
    const mongoUri: string

    /** `MONGO_URI = process.env.MONGO_URI || ""`, before any connection. */
    constructor (env: Option<string>)
      ensures readyState == Disconnected && mongoUri == EnvOr(env, "")
    {
      readyState := Disconnected;
      mongoUri := EnvOr(env, "");
    }

    /** `connectToDatabase`: nothing happens on an open connection; an empty URI is an
        error before any attempt; otherwise the attempt decides. */
    method ConnectToDatabase(attempt: ConnectAttempt) returns (r: ConnectResult)
      modifies this`readyState
      ensures old(readyState) == ReadyConnected ==> r == Connected && readyState == ReadyConnected
      ensures old(readyState) != ReadyConnected && mongoUri == "" ==>
        r == ConnectFailed(MissingUriMessage) && readyState == old(readyState)
      ensures old(readyState) != ReadyConnected && mongoUri != "" ==>
        (r == Connected <==> attempt.ConnectOk?) &&
        (attempt.ConnectError? ==> r == ConnectFailed(attempt.message)) &&
        readyState == (if attempt.ConnectOk? then ReadyConnected else Disconnected)
    {
      if readyState == ReadyConnected {
        return Connected;
      }
      if mongoUri == "" {
        return ConnectFailed(MissingUriMessage);
      }
      match attempt
      case ConnectOk =>
        readyState := ReadyConnected;
        r := Connected;
      case ConnectError(message) =>
        readyState := Disconnected;
        r := ConnectFailed(message);
    }
  }

  /** Once connected, a second call changes nothing and succeeds whatever the second
      attempt would have done. */
  method ConnectTwice(c: Connection, first: ConnectAttempt, second: ConnectAttempt)
    returns (r1: ConnectResult, r2: ConnectResult)
    modifies c
    ensures r1 == Connected ==> r2 == Connected && c.readyState == ReadyConnected
  {
    r1 := c.ConnectToDatabase(first);
    r2 := c.ConnectToDatabase(second);
  }

  // ---------------------------------------------------------------- users

  const DefaultAvatar := "/default-avatar.png"

  /** `bcrypt.compare(plain, hash)`: whether a password matches a stored hash. */
  type PasswordCheck = (string, string) -> bool

  /** `bcrypt.hash(plain, 10)`: the salted hash to store. */
  type PasswordHasher = string -> string

  /** A user document; `resetPasswordExpires` is a date, here its timestamp. */
  datatype User = User(
    id: Id,
    email: string,
    password: string,
    profilePicture: string,
    isVerified: bool,
    verificationToken: Option<string>,
    resetPasswordToken: Option<string>,
    resetPasswordExpires: Option<int>)

  /** A new user document built from the given fields and the schema defaults. */
  function NewUser(id: Id, email: string, password: string, verificationToken: Option<string>): (u: User)
    ensures u.id == id && u.email == email && u.password == password
    ensures u.verificationToken == verificationToken
    ensures !u.isVerified && u.profilePicture == DefaultAvatar
    ensures u.resetPasswordToken.None? && u.resetPasswordExpires.None?
  {
    User(id, email, password, DefaultAvatar, false, verificationToken, None, None)
  }

  /** `findById(id).select("-password")`: the user document without its password. */
  datatype UserView = UserView(
    id: Id,
    email: string,
    profilePicture: string,
    isVerified: bool,
    verificationToken: Option<string>,
    resetPasswordToken: Option<string>,
    resetPasswordExpires: Option<int>)

  function WithoutPassword(u: User): UserView {
    UserView(u.id, u.email, u.profilePicture, u.isVerified, u.verificationToken,
             u.resetPasswordToken, u.resetPasswordExpires)
  }

  function WithPassword(v: UserView, password: string): User {
    User(v.id, v.email, password, v.profilePicture, v.isVerified, v.verificationToken,
         v.resetPasswordToken, v.resetPasswordExpires)
  }

  /** The projection drops the password and nothing else. */
  lemma ProjectionDropsOnlyPassword(u: User)
    ensures WithPassword(WithoutPassword(u), u.password) == u
    ensures forall u' :: WithoutPassword(u') == WithoutPassword(u) ==> u' == u.(password := u'.password)
  {
  }

  /** `findOne({ email })`: the first user with that email, as an index. */
  function FindByEmail(users: seq<User>, email: string): (r: Option<nat>)
    ensures r.Some? ==> r.value < |users| && users[r.value].email == email
    ensures r.None? <==> forall i :: 0 <= i < |users| ==> users[i].email != email
    ensures r.Some? ==> forall i :: 0 <= i < r.value ==> users[i].email != email
  {
    if users == [] then None
    else if users[0].email == email then Some(0)
    else
      var r := FindByEmail(users[1..], email);
      if r.Some? then Some(r.value + 1) else None
  }

  /** `findById(id)`: the user with that id; an absent id finds nothing. */
  function FindById(users: seq<User>, id: Option<Id>): (r: Option<nat>)
    ensures r.Some? ==> id.Some? && r.value < |users| && users[r.value].id == id.value
    ensures r.None? <==> id.None? || forall i :: 0 <= i < |users| ==> users[i].id != id.value
    ensures r.Some? ==> forall i :: 0 <= i < r.value ==> users[i].id != id.value
  {
    if id.None? || users == [] then None
    else if users[0].id == id.value then Some(0)
    else
      var r := FindById(users[1..], id);
      if r.Some? then Some(r.value + 1) else None
  }

  /** The unique index on email, plus the identity of `_id`: no two users share either;
      ids are never empty. */
  ghost predicate UsersValid(users: seq<User>) {
    && (forall i :: 0 <= i < |users| ==> users[i].id != "")
    && (forall i, j :: 0 <= i < j < |users| ==> users[i].id != users[j].id)
    && (forall i, j :: 0 <= i < j < |users| ==> users[i].email != users[j].email)
  }

  /** Under the unique index, the user an email finds is the only one with that email. */
  lemma {:induction false} FindByEmailUnique(users: seq<User>, email: string, k: nat)
    requires UsersValid(users)
    requires k < |users| && users[k].email == email
    ensures FindByEmail(users, email) == Some(k)
  {
    var r := FindByEmail(users, email);
    assert r.Some?;
  }

  /** Likewise for ids. */
  lemma {:induction false} FindByIdUnique(users: seq<User>, k: nat)
    requires UsersValid(users)
    requires k < |users|
    ensures FindById(users, Some(users[k].id)) == Some(k)
  {
    var r := FindById(users, Some(users[k].id));
    assert r.Some?;
  }

  // ---------------------------------------------------------------- products

  const DefaultProductImage := "/default-product.png"
  const DefaultStock := 10

  datatype Product = Product(
    id: Id,
    name: string,
    description: Option<string>,
    image: string,
    price: int,
    stock: int,
    category: Option<string>)

  /** The fields a new product document is given; image and stock may be left out. */
  datatype ProductFields = ProductFields(
    name: string,
    description: Option<string>,
    image: Option<string>,
    price: int,
    stock: Option<int>,
    category: Option<string>)

  /** A new product document: a missing image or stock takes the schema default. */
  function NewProduct(id: Id, f: ProductFields): (p: Product)
    ensures p.stock == (if f.stock.Some? then f.stock.value else DefaultStock)
    ensures p.image == (if f.image.Some? then f.image.value else DefaultProductImage)
    ensures p.id == id && p.name == f.name && p.price == f.price
  {
    Product(id, f.name, f.description, f.image.GetOr(DefaultProductImage), f.price,
            f.stock.GetOr(DefaultStock), f.category)
  }

  // ---------------------------------------------------------------- orders

  datatype OrderStatus = Pending | Shipped | Delivered | Cancelled

  const DefaultStatus := Pending

  function StatusName(s: OrderStatus): string {
    match s
    case Pending => "pending"
    case Shipped => "shipped"
    case Delivered => "delivered"
    case Cancelled => "cancelled"
  }

  /** The schema's enum check on a status string. */
  function ParseStatus(name: string): Option<OrderStatus> {
    if name == "pending" then Some(Pending)
    else if name == "shipped" then Some(Shipped)
    else if name == "delivered" then Some(Delivered)
    else if name == "cancelled" then Some(Cancelled)
    else None
  }

  /** The enum accepts exactly the four names, and each one names its status. */
  lemma StatusRoundTrip(s: OrderStatus, name: string)
    ensures ParseStatus(StatusName(s)) == Some(s)
    ensures ParseStatus(name).Some? <==> name in {"pending", "shipped", "delivered", "cancelled"}
    ensures ParseStatus(name) == Some(s) ==> StatusName(s) == name
  {
  }

  /** One entry of an order's `products` array as it is handed to `create`: the schema
      requires every field but `image`, so each may be missing here. */
  datatype OrderEntry = OrderEntry(
    productId: Option<Id>,
    name: Option<string>,
    price: Option<int>,
    quantity: Option<int>,
    image: Option<string>)

  predicate EntryComplete(e: OrderEntry) {
    e.productId.Some? && e.name.Some? && e.price.Some? && e.quantity.Some?
  }

  datatype Order = Order(
    id: Id,
    userId: Id,
    products: seq<OrderEntry>,
    totalAmount: int,
    status: OrderStatus,
    createdAt: int)

  /** Schema validation of an order: every product entry has its required fields
      (`userId`, `totalAmount` and the status are always present in this model). */
  predicate OrderValid(o: Order) {
    forall k :: 0 <= k < |o.products| ==> EntryComplete(o.products[k])
  }

  ghost predicate OrdersValid(orders: seq<Order>) {
    && (forall i, j :: 0 <= i < j < |orders| ==> orders[i].id != orders[j].id)
    && (forall i :: 0 <= i < |orders| ==> OrderValid(orders[i]))
  }

  // ---------------------------------------------------------------- carts

  /** A cart item subdocument; `entryId` is the subdocument's own `_id` (read as `item.id`).
      The schema bounds neither price nor quantity. */
  datatype CartItem = CartItem(
    entryId: Id,
    productId: Id,
    name: string,
    price: int,
    quantity: int,
    image: Option<string>)

  datatype Cart = Cart(userId: Id, items: seq<CartItem>)

  /** The schema does not make `userId` unique; the handlers keep one cart per user,
      so the carts are keyed by their owner. */
  type Carts = map<Id, Cart>

  ghost predicate CartsKeyed(carts: Carts) {
    forall u :: u in carts ==> carts[u].userId == u
  }

  /** Which cart an unfiltered `CartModel.findOne({})` returns: the owner of the first
      cart in the collection's natural order, and none exactly when there is no cart.
      That order is not part of the model, so the handler receives it. */
  predicate FirstCart(carts: Carts, first: Option<Id>) {
    (first.None? <==> carts == map[]) && (first.Some? ==> first.value in carts)
  }

  /** `CartModel.findOne({ userId })`. Mongoose drops a filter key whose value is
      `undefined`, so with no id the lookup is `findOne({})` and returns the first cart. */
  function CartOf(carts: Carts, userId: Option<Id>, first: Option<Id>): (r: Option<Cart>)
    ensures userId.Some? ==> (r.Some? <==> userId.value in carts)
    ensures userId.Some? && r.Some? ==> r.value == carts[userId.value]
    ensures userId.None? && FirstCart(carts, first) ==>
              (r.None? <==> carts == map[]) && (r.Some? ==> r.value == carts[first.value])
  {
    var key := if userId.Some? then userId else first;
    if key.Some? && key.value in carts then Some(carts[key.value]) else None
  }

  // ---------------------------------------------------------------- store failures

  /** The store or file call that throws, if any, while a handler runs. */
  datatype StoreCall = Find | Save | Create | Delete | WriteFile
  datatype Fault = NoFault | Throws(call: StoreCall, message: string)

  predicate FailsAt(f: Fault, call: StoreCall) {
    f.Throws? && f.call == call
  }

  // ---------------------------------------------------------------- the store

  /** The database collections and the upload directory, as the handlers see them. */
  class Store {
    var users: seq<User>
    var carts: Carts
    var orders: seq<Order>
    var files: set<string>

    ghost predicate Valid()
      reads this
    {
      UsersValid(users) && CartsKeyed(carts) && OrdersValid(orders)
    }

    constructor ()
      ensures Valid()
      ensures users == [] && carts == map[] && orders == [] && files == {}
    {
      users, carts, orders, files := [], map[], [], {};
    }
  }
}
