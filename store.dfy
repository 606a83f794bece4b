/** The process-wide database that every controller reads and writes
    (src/db/index.ts), as one object whose fields are the tables. Each
    controller call is one sequential step on it. */
module Store {
  import opened Common
  import opened Schema

  class Db {
    var users: seq<User>
    var products: seq<Product>
    var orders: seq<Order>
    var orderItems: seq<OrderItem>
    var orderHistory: seq<HistoryEvent>
    var reviews: seq<Review>
    var wishlist: seq<WishlistRow>
    var cart: seq<CartRow>
    var addresses: seq<Address>

    /** The current contents of every table, as one value. */
    function Snapshot(): Tables
      reads this
    {
      Tables(users, products, orders, orderItems, orderHistory, reviews, wishlist, cart, addresses)
    }

    /** The database satisfies every constraint of the schema. */
    predicate Valid()
      reads this
    {
      Consistent(Snapshot())
    }

    constructor ()
      ensures Valid() && Snapshot() == EmptyTables()
    {
      users, products, orders, orderItems, orderHistory := [], [], [], [], [];
      reviews, wishlist, cart, addresses := [], [], [], [];
    }

    /** Replace the contents of every table at once (a cascading DELETE). */
    method Commit(t: Tables)
      modifies this
      ensures Snapshot() == t
    {
      users, products, orders, orderItems, orderHistory := t.users, t.products, t.orders, t.orderItems, t.orderHistory;
      reviews, wishlist, cart, addresses := t.reviews, t.wishlist, t.cart, t.addresses;
    }
  }
}
