/** The tables of src/db/schema.ts that the controllers use, as row values,
    with the column defaults, the rating CHECK, the uniqueness constraints and
    the ON DELETE CASCADE references to products and orders.

    Money columns are numeric(10,2): they are held as integer cents.
    Timestamps are opaque integers supplied by the caller. */
module Schema {
  import opened Common

  type UserId = string
  type ProductId = string
  type OrderId = string
  type ReviewId = string
  type WishlistId = string
  /** numeric(10,2) as a whole number of cents */
  type Money = int
  type Time = int
  /** the json delivery location of an order, passed through unread */
  type Location = string

  datatype User = User(
    id: UserId, name: string, email: string, emailVerified: bool,
    image: Option<string>, createdAt: Time, updatedAt: Time)

  datatype Product = Product(
    id: ProductId,
    title: string,
    description: Option<string>,
    category: seq<string>,
    condition: string,
    images: seq<string>,
    price: Money,
    negotiable: Option<bool>,
    quantity: int,
    isAuction: Option<bool>,
    startingBid: Option<Money>,
    bidIncrement: Option<Money>,
    auctionEndTime: Option<Time>,
    sellerId: UserId,
    sellerName: string,
    sellerContact: Option<string>,
    status: string,
    createdAt: Option<Time>,
    updatedAt: Option<Time>)

  datatype OrderStatus = Pending | Confirmed | Failed

  datatype Order = Order(
    id: OrderId, userId: UserId, totalPrice: Money, status: OrderStatus,
    location: Location, createdAt: Time, updatedAt: Time)

  datatype OrderItem = OrderItem(
    orderId: OrderId, productId: ProductId, quantity: int, price: Money, subtotal: Money)

  datatype HistoryEvent = HistoryEvent(orderId: OrderId, status: OrderStatus, changedAt: Time)

  datatype Review = Review(
    id: ReviewId, productId: ProductId, userId: UserId, rating: int,
    comment: Option<string>, createdAt: Time, updatedAt: Time)

  datatype WishlistRow = WishlistRow(id: WishlistId, userId: UserId, productId: ProductId)

  datatype CartRow = CartRow(userId: UserId, productId: ProductId, quantity: int)

  datatype Address = Address(
    userId: UserId, country: string, state: Option<string>, city: string,
    phone: Option<string>, postalCode: Option<string>, address: string,
    createdAt: Time, updatedAt: Time)

  // Column defaults
  const DefaultOrderStatus: OrderStatus := Pending
  const DefaultProductQuantity: int := 1
  const DefaultProductStatus: string := "available"
  const DefaultNegotiable: bool := false
  const DefaultIsAuction: bool := false
  const DefaultCartQuantity: int := 1

  /** CHECK (rating >= 1 AND rating <= 5) on reviews */
  predicate RatingInRange(rating: int) {
    1 <= rating <= 5
  }

  datatype Tables = Tables(
    users: seq<User>,
    products: seq<Product>,
    orders: seq<Order>,
    orderItems: seq<OrderItem>,
    orderHistory: seq<HistoryEvent>,
    reviews: seq<Review>,
    wishlist: seq<WishlistRow>,
    cart: seq<CartRow>,
    addresses: seq<Address>)

  function ProductIds(ps: seq<Product>): set<ProductId> {
    set p | p in ps :: p.id
  }

  function OrderIds(os: seq<Order>): set<OrderId> {
    set o | o in os :: o.id
  }

  function ReviewIds(rs: seq<Review>): set<ReviewId> {
    set r | r in rs :: r.id
  }

  function WishlistIds(ws: seq<WishlistRow>): set<WishlistId> {
    set w | w in ws :: w.id
  }

  // Primary keys: no two rows share an id.

  predicate ProductsKeyed(ps: seq<Product>) {
    forall i, j :: 0 <= i < j < |ps| ==> ps[i].id != ps[j].id
  }

  predicate OrdersKeyed(os: seq<Order>) {
    forall i, j :: 0 <= i < j < |os| ==> os[i].id != os[j].id
  }

  predicate ReviewsKeyed(rs: seq<Review>) {
    forall i, j :: 0 <= i < j < |rs| ==> rs[i].id != rs[j].id
  }

  predicate WishlistKeyed(ws: seq<WishlistRow>) {
    forall i, j :: 0 <= i < j < |ws| ==> ws[i].id != ws[j].id
  }

  /** Deleting rows keeps a primary key unique. */
  lemma FilterKeepsProductsKeyed(rows: seq<Product>, keep: Product -> bool)
    requires ProductsKeyed(rows)
    ensures ProductsKeyed(Filter(rows, keep))
  {
    var apart := (a: Product, b: Product) => a.id != b.id;
    assert PairwiseApart(rows, apart);
    FilterKeepsApart(rows, keep, apart);
  }

  lemma FilterKeepsOrdersKeyed(rows: seq<Order>, keep: Order -> bool)
    requires OrdersKeyed(rows)
    ensures OrdersKeyed(Filter(rows, keep))
  {
    var apart := (a: Order, b: Order) => a.id != b.id;
    assert PairwiseApart(rows, apart);
    FilterKeepsApart(rows, keep, apart);
  }

  lemma FilterKeepsReviewsKeyed(rows: seq<Review>, keep: Review -> bool)
    requires ReviewsKeyed(rows)
    ensures ReviewsKeyed(Filter(rows, keep))
  {
    var apart := (a: Review, b: Review) => a.id != b.id;
    assert PairwiseApart(rows, apart);
    FilterKeepsApart(rows, keep, apart);
  }

  lemma FilterKeepsWishlistKeyed(rows: seq<WishlistRow>, keep: WishlistRow -> bool)
    requires WishlistKeyed(rows)
    ensures WishlistKeyed(Filter(rows, keep))
  {
    var apart := (a: WishlistRow, b: WishlistRow) => a.id != b.id;
    assert PairwiseApart(rows, apart);
    FilterKeepsApart(rows, keep, apart);
  }

  /** user.email is UNIQUE */
  predicate EmailsUnique(us: seq<User>) {
    forall i, j :: 0 <= i < j < |us| ==> us[i].email != us[j].email
  }

  predicate RatingsInRange(rs: seq<Review>) {
    forall r :: r in rs ==> RatingInRange(r.rating)
  }

  // Foreign keys to products and orders.

  predicate ItemsReference(items: seq<OrderItem>, orders: set<OrderId>, products: set<ProductId>) {
    forall it :: it in items ==> it.orderId in orders && it.productId in products
  }

  predicate HistoryReferences(history: seq<HistoryEvent>, orders: set<OrderId>) {
    forall e :: e in history ==> e.orderId in orders
  }

  predicate ReviewsReference(rs: seq<Review>, products: set<ProductId>) {
    forall r :: r in rs ==> r.productId in products
  }

  predicate WishlistReferences(ws: seq<WishlistRow>, products: set<ProductId>) {
    forall w :: w in ws ==> w.productId in products
  }

  predicate CartReferences(cs: seq<CartRow>, products: set<ProductId>) {
    forall c :: c in cs ==> c.productId in products
  }

  /** Every constraint of the schema that the modelled controllers can reach. */
  predicate Consistent(t: Tables) {
    && EmailsUnique(t.users)
    && ProductsKeyed(t.products)
    && OrdersKeyed(t.orders)
    && ReviewsKeyed(t.reviews)
    && WishlistKeyed(t.wishlist)
    && RatingsInRange(t.reviews)
    && ItemsReference(t.orderItems, OrderIds(t.orders), ProductIds(t.products))
    && HistoryReferences(t.orderHistory, OrderIds(t.orders))
    && ReviewsReference(t.reviews, ProductIds(t.products))
    && WishlistReferences(t.wishlist, ProductIds(t.products))
    && CartReferences(t.cart, ProductIds(t.products))
  }

  /** An empty database satisfies every constraint. */
  function EmptyTables(): (t: Tables)
    ensures Consistent(t)
    ensures t.products == [] && t.orders == [] && t.orderItems == []
  {
    Tables([], [], [], [], [], [], [], [], [])
  }

  /** DELETE FROM orders WHERE id = oid, with the ON DELETE CASCADE of
      order_items.order_id and order_history.order_id. */
  function DeleteOrder(t: Tables, oid: OrderId): (r: Tables)
    ensures Consistent(t) ==> Consistent(r)
    ensures forall o :: o in r.orders <==> o in t.orders && o.id != oid
    ensures forall it :: it in r.orderItems <==> it in t.orderItems && it.orderId != oid
    ensures forall e :: e in r.orderHistory <==> e in t.orderHistory && e.orderId != oid
    ensures r.users == t.users && r.products == t.products && r.reviews == t.reviews
    ensures r.wishlist == t.wishlist && r.cart == t.cart && r.addresses == t.addresses
  {
    var orders := Filter(t.orders, (o: Order) => o.id != oid);
    assert OrdersKeyed(t.orders) ==> OrdersKeyed(orders) by {
      if OrdersKeyed(t.orders) {
        FilterKeepsOrdersKeyed(t.orders, (o: Order) => o.id != oid);
      }
    }
    assert forall x :: x in OrderIds(t.orders) && x != oid ==> x in OrderIds(orders) by {
      forall x | x in OrderIds(t.orders) && x != oid ensures x in OrderIds(orders) {
        var o :| o in t.orders && o.id == x;
        assert o in orders;
      }
    }
    t.(orders := orders,
       orderItems := Filter(t.orderItems, (it: OrderItem) => it.orderId != oid),
       orderHistory := Filter(t.orderHistory, (e: HistoryEvent) => e.orderId != oid))
  }

  /** DELETE FROM products WHERE id = pid, with the ON DELETE CASCADE of
      order_items, reviews, wishlist and cart on product_id. */
  function DeleteProduct(t: Tables, pid: ProductId): (r: Tables)
    ensures Consistent(t) ==> Consistent(r)
    ensures forall p :: p in r.products <==> p in t.products && p.id != pid
    ensures forall it :: it in r.orderItems <==> it in t.orderItems && it.productId != pid
    ensures forall rv :: rv in r.reviews <==> rv in t.reviews && rv.productId != pid
    ensures forall w :: w in r.wishlist <==> w in t.wishlist && w.productId != pid
    ensures forall c :: c in r.cart <==> c in t.cart && c.productId != pid
    ensures r.users == t.users && r.orders == t.orders && r.orderHistory == t.orderHistory
    ensures r.addresses == t.addresses
  {
    var products := Filter(t.products, (p: Product) => p.id != pid);
    var reviews := Filter(t.reviews, (rv: Review) => rv.productId != pid);
    var wishlist := Filter(t.wishlist, (w: WishlistRow) => w.productId != pid);
    assert ProductsKeyed(t.products) ==> ProductsKeyed(products) by {
      if ProductsKeyed(t.products) {
        FilterKeepsProductsKeyed(t.products, (p: Product) => p.id != pid);
      }
    }
    assert ReviewsKeyed(t.reviews) ==> ReviewsKeyed(reviews) by {
      if ReviewsKeyed(t.reviews) {
        FilterKeepsReviewsKeyed(t.reviews, (rv: Review) => rv.productId != pid);
      }
    }
    assert WishlistKeyed(t.wishlist) ==> WishlistKeyed(wishlist) by {
      if WishlistKeyed(t.wishlist) {
        FilterKeepsWishlistKeyed(t.wishlist, (w: WishlistRow) => w.productId != pid);
      }
    }
    assert forall x :: x in ProductIds(t.products) && x != pid ==> x in ProductIds(products) by {
      forall x | x in ProductIds(t.products) && x != pid ensures x in ProductIds(products) {
        var p :| p in t.products && p.id == x;
        assert p in products;
      }
    }
    t.(products := products,
       orderItems := Filter(t.orderItems, (it: OrderItem) => it.productId != pid),
       reviews := reviews,
       wishlist := wishlist,
       cart := Filter(t.cart, (c: CartRow) => c.productId != pid))
  }

  /** The first product row with the given id (SELECT ... WHERE id = ? LIMIT 1). */
  function FindProduct(ps: seq<Product>, id: ProductId): (r: Option<Product>)
    ensures r.Some? <==> id in ProductIds(ps)
    ensures r.Some? ==> r.value in ps && r.value.id == id
  {
    First(ps, (p: Product) => p.id == id)
  }
}
