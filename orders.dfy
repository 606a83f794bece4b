/** src/controllers/user.order.Controllers.ts: listing a user's orders,
    reading one order with its items, reading an order's history, and
    placing an order from a caller-supplied cart.

    placeOrder is modelled as written: it trusts the caller's prices, writes
    the order row with its final status before anything else, inserts the
    items, and then walks the cart re-reading and decrementing each product,
    stopping at the first line that lacks stock and leaving every earlier
    write in place. The payment decision (Math.random() < 0.98) and the
    generated order id (uuidv4) are parameters. */
module OrderController {
  import opened Common
  import opened Schema
  import opened Store

  /** One element of the request's `products` array: the product id, the
      requested quantity and the unit price in cents, all as the caller sent
      them. */
  datatype CartLine = CartLine(productId: ProductId, quantity: int, price: Money)

  /** The payload of getOrderById: the order row spread out, plus `items`. */
  datatype OrderDetail = OrderDetail(order: Order, items: seq<OrderItem>)

  // ----------------------------------------------------------------------
  // Reads

  function OrdersOf(orders: seq<Order>, u: UserId): (r: seq<Order>)
    ensures forall o :: o in r <==> o in orders && o.userId == u
  {
    Filter(orders, (o: Order) => o.userId == u)
  }

  /** getUserOrders */
  function GetUserOrders(orders: seq<Order>, user: Option<UserId>): (r: Response<seq<Order>>)
    ensures r.status == 401 <==> user.None?
    ensures r.status == 404 <==> user.Some? && forall o :: o in orders ==> o.userId != user.value
    ensures r.status == 200 <==> user.Some? && exists o :: o in orders && o.userId == user.value
    ensures r.status == 200 ==> r.data.Some? && forall o :: o in r.data.value <==> o in orders && o.userId == user.value
    ensures r.status != 200 ==> r.data.None?
  {
    if user.None? then Response(401, None)
    else
      var mine := OrdersOf(orders, user.value);
      if |mine| == 0 then Response(404, None)
      else
        assert mine[0] in mine;
        Response(200, Some(mine))
  }

  /** The rows of order_items WHERE order_id = oid, in table order. */
  function ItemsOf(items: seq<OrderItem>, oid: OrderId): (r: seq<OrderItem>)
    ensures forall it :: it in r <==> it in items && it.orderId == oid
  {
    Filter(items, (it: OrderItem) => it.orderId == oid)
  }

  /** getOrderById: the order only if it belongs to the caller, with every
      item of that order. */
  function GetOrderById(orders: seq<Order>, items: seq<OrderItem>, user: Option<UserId>, orderId: OrderId)
    : (r: Response<OrderDetail>)
    ensures r.status == 401 <==> user.None?
    ensures r.status == 200 <==> user.Some? && exists o :: o in orders && o.id == orderId && o.userId == user.value
    ensures r.status == 404 <==> user.Some? && forall o :: o in orders && o.id == orderId ==> o.userId != user.value
    ensures r.status == 200 ==>
      && r.data.Some?
      && r.data.value.order in orders
      && r.data.value.order.id == orderId
      && r.data.value.order.userId == user.value
      && (forall it :: it in r.data.value.items <==> it in items && it.orderId == orderId)
    ensures r.status != 200 ==> r.data.None?
  {
    if user.None? then Response(401, None)
    else
      match First(orders, (o: Order) => o.id == orderId && o.userId == user.value)
      case None => Response(404, None)
      case Some(o) => Response(200, Some(OrderDetail(o, ItemsOf(items, orderId))))
  }

  function HistoryOf(history: seq<HistoryEvent>, oid: OrderId): (r: seq<HistoryEvent>)
    ensures forall e :: e in r <==> e in history && e.orderId == oid
  {
    Filter(history, (e: HistoryEvent) => e.orderId == oid)
  }

  /** getOrderHistoryById: any signed-in user may read the history of any
      order; only the order id selects the rows. */
  function GetOrderHistoryById(history: seq<HistoryEvent>, user: Option<UserId>, orderId: OrderId)
    : (r: Response<seq<HistoryEvent>>)
    ensures r.status == 401 <==> user.None?
    ensures r.status == 404 <==> user.Some? && forall e :: e in history ==> e.orderId != orderId
    ensures r.status == 200 <==> user.Some? && exists e :: e in history && e.orderId == orderId
    ensures r.status == 200 ==> r.data.Some? && forall e :: e in r.data.value <==> e in history && e.orderId == orderId
    ensures r.status != 200 ==> r.data.None?
  {
    if user.None? then Response(401, None)
    else
      var events := HistoryOf(history, orderId);
      if |events| == 0 then Response(404, None)
      else
        assert events[0] in events;
        Response(200, Some(events))
  }

  /** The history answer does not depend on who asks: there is no ownership
      check. */
  lemma HistoryIgnoresOwner(history: seq<HistoryEvent>, u: UserId, v: UserId, orderId: OrderId)
    ensures GetOrderHistoryById(history, Some(u), orderId) == GetOrderHistoryById(history, Some(v), orderId)
  {
  }

  // ----------------------------------------------------------------------
  // Totals and items of a new order

  predicate HasLines(products: Option<seq<CartLine>>) {
    products.Some? && |products.value| > 0
  }

  /** The reduce over the cart: sum of price * quantity, left to right. */
  function Total(lines: seq<CartLine>): Money {
    if lines == [] then 0
    else Total(lines[..|lines| - 1]) + lines[|lines| - 1].price * lines[|lines| - 1].quantity
  }

  function SumSubtotals(items: seq<OrderItem>): Money {
    if items == [] then 0
    else SumSubtotals(items[..|items| - 1]) + items[|items| - 1].subtotal
  }

  /** The order_items row built from one cart line. */
  function ItemFor(oid: OrderId, line: CartLine): OrderItem {
    OrderItem(oid, line.productId, line.quantity, line.price, line.price * line.quantity)
  }

  /** cartProducts.map(...): one order item per cart line, in cart order. */
  function ItemsFor(oid: OrderId, lines: seq<CartLine>): seq<OrderItem> {
    seq(|lines|, i requires 0 <= i < |lines| => ItemFor(oid, lines[i]))
  }

  /** The order's total_price is the sum of its items' subtotals, and each
      subtotal is the item's price times its quantity. */
  lemma {:induction false} TotalIsSumOfSubtotals(oid: OrderId, lines: seq<CartLine>)
    ensures SumSubtotals(ItemsFor(oid, lines)) == Total(lines)
    ensures forall it :: it in ItemsFor(oid, lines) ==> it.orderId == oid && it.subtotal == it.price * it.quantity
  {
    if lines != [] {
      var n := |lines| - 1;
      TotalIsSumOfSubtotals(oid, lines[..n]);
      assert ItemsFor(oid, lines)[..n] == ItemsFor(oid, lines[..n]);
    }
  }

  lemma ItemsOfAppend(a: seq<OrderItem>, b: seq<OrderItem>, oid: OrderId)
    ensures ItemsOf(a + b, oid) == ItemsOf(a, oid) + ItemsOf(b, oid)
  {
    FilterAppend(a, b, (it: OrderItem) => it.orderId == oid);
  }

  lemma ItemsOfAll(items: seq<OrderItem>, oid: OrderId)
    requires forall it :: it in items ==> it.orderId == oid
    ensures ItemsOf(items, oid) == items
  {
    FilterAll(items, (it: OrderItem) => it.orderId == oid);
  }

  lemma ItemsOfNone(items: seq<OrderItem>, oid: OrderId)
    requires forall it :: it in items ==> it.orderId != oid
    ensures ItemsOf(items, oid) == []
  {
    FilterNone(items, (it: OrderItem) => it.orderId == oid);
  }

  // ----------------------------------------------------------------------
  // The stock loop, as a specification

  /** Total quantity the lines ask of one product. */
  function Demand(lines: seq<CartLine>, pid: ProductId): int {
    if lines == [] then 0
    else
      var n := |lines| - 1;
      Demand(lines[..n], pid) + (if lines[n].productId == pid then lines[n].quantity else 0)
  }

  /** The quantity column of the product with this id (0 when there is none). */
  function StockOf(ps: seq<Product>, pid: ProductId): int {
    match FindProduct(ps, pid)
    case Some(p) => p.quantity
    case None => 0
  }

  function LineIds(lines: seq<CartLine>): set<ProductId> {
    set l | l in lines :: l.productId
  }

  /** Every line names a product that exists (the order_items foreign key). */
  predicate AllKnown(ps: seq<Product>, lines: seq<CartLine>) {
    forall l :: l in lines ==> l.productId in ProductIds(ps)
  }

  /** Line k still finds enough stock once the lines before it have taken
      theirs: the loop computes quantity - item.quantity and stops when it is
      negative. */
  predicate LineCovered(ps: seq<Product>, lines: seq<CartLine>, k: nat)
    requires k < |lines|
  {
    Demand(lines[..k + 1], lines[k].productId) <= StockOf(ps, lines[k].productId)
  }

  predicate Covered(ps: seq<Product>, lines: seq<CartLine>, n: nat)
    requires n <= |lines|
  {
    forall k :: 0 <= k < n ==> LineCovered(ps, lines, k)
  }

  /** The index of the first line without enough stock, if there is one. */
  function ShortLine(ps: seq<Product>, lines: seq<CartLine>): (r: Option<nat>)
    ensures r.None? <==> Covered(ps, lines, |lines|)
    ensures r.Some? ==> r.value < |lines| && Covered(ps, lines, r.value) && !LineCovered(ps, lines, r.value)
  {
    ShortFrom(ps, lines, 0)
  }

  function ShortFrom(ps: seq<Product>, lines: seq<CartLine>, n: nat): (r: Option<nat>)
    requires n <= |lines| && Covered(ps, lines, n)
    ensures r.None? <==> Covered(ps, lines, |lines|)
    ensures r.Some? ==> n <= r.value < |lines| && Covered(ps, lines, r.value) && !LineCovered(ps, lines, r.value)
    decreases |lines| - n
  {
    if n == |lines| then None
    else if !LineCovered(ps, lines, n) then Some(n)
    else ShortFrom(ps, lines, n + 1)
  }

  /** The products table after the given lines have each taken their
      quantity: every row's quantity drops by the total the lines ask of it. */
  function Debited(ps: seq<Product>, lines: seq<CartLine>): seq<Product> {
    seq(|ps|, j requires 0 <= j < |ps| => ps[j].(quantity := ps[j].quantity - Demand(lines, ps[j].id)))
  }

  /** UPDATE products SET quantity = q WHERE id = pid */
  function SetQuantity(ps: seq<Product>, pid: ProductId, q: int): seq<Product> {
    Update(ps, (p: Product) => p.id == pid, (p: Product) => p.(quantity := q))
  }

  /** Debiting changes only quantities: the ids, and so the primary key and
      every foreign key into products, survive. */
  lemma DebitedKeepsKeys(ps: seq<Product>, lines: seq<CartLine>)
    ensures ProductIds(Debited(ps, lines)) == ProductIds(ps)
    ensures ProductsKeyed(ps) ==> ProductsKeyed(Debited(ps, lines))
  {
    var d := Debited(ps, lines);
    forall x | x in ProductIds(ps) ensures x in ProductIds(d) {
      var p :| p in ps && p.id == x;
      var j :| 0 <= j < |ps| && ps[j] == p;
      assert d[j].id == x;
    }
    forall x | x in ProductIds(d) ensures x in ProductIds(ps) {
      var p :| p in d && p.id == x;
      var j :| 0 <= j < |d| && d[j] == p;
      assert ps[j].id == x;
    }
    if ProductsKeyed(ps) {
      forall p, q | p in d && q in d && p.id == q.id ensures p == q {
        var i :| 0 <= i < |d| && d[i] == p;
        var j :| 0 <= j < |d| && d[j] == q;
        assert ps[i] in ps && ps[j] in ps;
      }
    }
  }

  /** What the loop re-reads for a line: the starting stock less what the
      earlier lines took. */
  lemma StockAfterDebit(ps: seq<Product>, lines: seq<CartLine>, pid: ProductId)
    requires ProductsKeyed(ps) && pid in ProductIds(ps)
    ensures StockOf(Debited(ps, lines), pid) == StockOf(ps, pid) - Demand(lines, pid)
  {
    var d := Debited(ps, lines);
    DebitedKeepsKeys(ps, lines);
    var c := FindProduct(d, pid).value;
    var j :| 0 <= j < |d| && d[j] == c;
    assert ps[j] in ps && FindProduct(ps, pid).value in ps;
  }

  /** One turn of the loop: writing the re-read stock less the line's
      quantity extends the debit by that line. */
  lemma DebitNextLine(ps: seq<Product>, lines: seq<CartLine>, i: nat)
    requires ProductsKeyed(ps) && i < |lines| && lines[i].productId in ProductIds(ps)
    ensures SetQuantity(Debited(ps, lines[..i]), lines[i].productId,
                        StockOf(ps, lines[i].productId) - Demand(lines[..i + 1], lines[i].productId))
            == Debited(ps, lines[..i + 1])
  {
    var pid := lines[i].productId;
    assert lines[..i + 1][..i] == lines[..i];
    var left := SetQuantity(Debited(ps, lines[..i]), pid, StockOf(ps, pid) - Demand(lines[..i + 1], pid));
    var right := Debited(ps, lines[..i + 1]);
    forall j | 0 <= j < |ps| ensures left[j] == right[j] {
      if ps[j].id == pid {
        assert ps[j] in ps && FindProduct(ps, pid).value in ps;
      }
    }
  }

  /** If every line was covered, no product named in the cart ends with a
      negative quantity. */
  lemma {:induction false} DemandWithinStock(ps: seq<Product>, lines: seq<CartLine>, pid: ProductId)
    requires Covered(ps, lines, |lines|) && pid in LineIds(lines)
    ensures Demand(lines, pid) <= StockOf(ps, pid)
  {
    var l :| l in lines && l.productId == pid;
    var n := |lines| - 1;
    assert lines[..n + 1] == lines;
    if lines[n].productId == pid {
      assert LineCovered(ps, lines, n);
    } else {
      var front := lines[..n];
      forall k | 0 <= k < n ensures LineCovered(ps, front, k) {
        assert front[..k + 1] == lines[..k + 1];
        assert LineCovered(ps, lines, k);
      }
      assert lines == front + [lines[n]];
      assert l in front;
      DemandWithinStock(ps, front, pid);
    }
  }

  lemma DebitedNeverNegative(ps: seq<Product>, lines: seq<CartLine>)
    requires ProductsKeyed(ps) && Covered(ps, lines, |lines|)
    ensures forall j :: 0 <= j < |ps| && ps[j].id in LineIds(lines) ==> Debited(ps, lines)[j].quantity >= 0
  {
    forall j | 0 <= j < |ps| && ps[j].id in LineIds(lines) ensures Debited(ps, lines)[j].quantity >= 0 {
      DemandWithinStock(ps, lines, ps[j].id);
      assert ps[j] in ps && FindProduct(ps, ps[j].id).value in ps;
    }
  }

  /** When line k is the first without stock, the lines before it are
      covered by themselves too. */
  lemma CoveredPrefix(ps: seq<Product>, lines: seq<CartLine>, k: nat)
    requires k <= |lines| && Covered(ps, lines, k)
    ensures Covered(ps, lines[..k], k)
  {
    forall m | 0 <= m < k ensures LineCovered(ps, lines[..k], m) {
      assert lines[..k][..m + 1] == lines[..m + 1];
      assert LineCovered(ps, lines, m);
    }
  }

  // ----------------------------------------------------------------------
  // placeOrder

  lemma OrderIdsAppend(os: seq<Order>, o: Order)
    ensures OrderIds(os + [o]) == OrderIds(os) + {o.id}
  {
    assert forall x :: x in os + [o] <==> x in os || x == o;
  }

  /** Appending an order row with a fresh id keeps every constraint. */
  lemma NewOrderKeepsConsistent(t: Tables, o: Order)
    requires Consistent(t) && o.id !in OrderIds(t.orders)
    ensures Consistent(t.(orders := t.orders + [o]))
    ensures OrderIds(t.orders + [o]) == OrderIds(t.orders) + {o.id}
  {
    OrderIdsAppend(t.orders, o);
    assert forall x :: x in t.orders + [o] <==> x in t.orders || x == o;
  }

  /** Inserting the items of an existing order whose products all exist
      keeps every constraint. */
  lemma NewItemsKeepConsistent(t: Tables, oid: OrderId, lines: seq<CartLine>)
    requires Consistent(t) && oid in OrderIds(t.orders) && AllKnown(t.products, lines)
    ensures Consistent(t.(orderItems := t.orderItems + ItemsFor(oid, lines)))
  {
    var items := ItemsFor(oid, lines);
    forall it | it in items ensures it.orderId == oid && it.productId in ProductIds(t.products) {
      var i :| 0 <= i < |items| && items[i] == it;
      assert lines[i] in lines;
    }
  }

  /** Debiting the products table keeps every constraint. */
  lemma DebitKeepsConsistent(t: Tables, lines: seq<CartLine>)
    requires Consistent(t)
    ensures Consistent(t.(products := Debited(t.products, lines)))
  {
    DebitedKeepsKeys(t.products, lines);
  }

  /** The items a new order inserts are the only ones with its id, so they
      add up to the order's total. */
  lemma NewItemsAddUp(before: seq<OrderItem>, oid: OrderId, lines: seq<CartLine>)
    requires forall it :: it in before ==> it.orderId != oid
    ensures SumSubtotals(ItemsOf(before + ItemsFor(oid, lines), oid)) == Total(lines)
  {
    var items := ItemsFor(oid, lines);
    TotalIsSumOfSubtotals(oid, lines);
    ItemsOfAppend(before, items, oid);
    ItemsOfNone(before, oid);
    ItemsOfAll(items, oid);
    assert [] + items == items;
  }

  /** Outside the lines, a product is asked for nothing. */
  lemma {:induction false} DemandAbsent(lines: seq<CartLine>, pid: ProductId)
    requires pid !in LineIds(lines)
    ensures Demand(lines, pid) == 0
  {
    if lines != [] {
      var n := |lines| - 1;
      assert forall l :: l in lines[..n] ==> l in lines;
      assert lines[n] in lines;
      DemandAbsent(lines[..n], pid);
    }
  }

  /** After the covered lines before i have taken their stock, no quantity
      has gone negative unless it already was. */
  lemma DebitedPrefixBounded(ps: seq<Product>, lines: seq<CartLine>, i: nat)
    requires ProductsKeyed(ps) && i <= |lines| && Covered(ps, lines, i)
    ensures |Debited(ps, lines[..i])| == |ps|
    ensures forall j :: 0 <= j < |ps| ==>
      Debited(ps, lines[..i])[j].quantity == ps[j].quantity || Debited(ps, lines[..i])[j].quantity >= 0
  {
    var front := lines[..i];
    assert |front| == i;
    CoveredPrefix(ps, lines, i);
    DebitedNeverNegative(ps, front);
    forall j | 0 <= j < |ps| && ps[j].id !in LineIds(front)
      ensures Debited(ps, front)[j].quantity == ps[j].quantity
    {
      DemandAbsent(front, ps[j].id);
    }
  }

  /** The first line that is not covered is the one ShortLine names. */
  lemma FirstShortLine(ps: seq<Product>, lines: seq<CartLine>, i: nat)
    requires i < |lines| && Covered(ps, lines, i) && !LineCovered(ps, lines, i)
    ensures ShortLine(ps, lines) == Some(i)
  {
  }

  /** What the loop re-reads for line i once the lines before it have taken
      their stock, less line i's quantity: the starting stock less
      everything lines 0..i ask of that product. */
  lemma ReRead(ps: seq<Product>, lines: seq<CartLine>, i: nat)
    requires ProductsKeyed(ps) && i < |lines| && lines[i].productId in ProductIds(ps)
    ensures FindProduct(Debited(ps, lines[..i]), lines[i].productId).Some?
    ensures FindProduct(Debited(ps, lines[..i]), lines[i].productId).value.quantity - lines[i].quantity
            == StockOf(ps, lines[i].productId) - Demand(lines[..i + 1], lines[i].productId)
  {
    var pid := lines[i].productId;
    var front := lines[..i + 1];
    DebitedKeepsKeys(ps, lines[..i]);
    StockAfterDebit(ps, lines[..i], pid);
    assert front[..i] == lines[..i];
    assert front[i] == lines[i];
  }

  /** One turn of the stock loop: the new quantity is non-negative exactly
      when line i is covered, and then writing it extends the debit, and the
      coverage, to line i. */
  lemma StockStep(ps: seq<Product>, lines: seq<CartLine>, i: nat, q: int)
    requires ProductsKeyed(ps) && i < |lines| && lines[i].productId in ProductIds(ps)
    requires Covered(ps, lines, i)
    requires q == StockOf(ps, lines[i].productId) - Demand(lines[..i + 1], lines[i].productId)
    ensures q >= 0 <==> LineCovered(ps, lines, i)
    ensures q >= 0 ==> Covered(ps, lines, i + 1)
    ensures q >= 0 ==> SetQuantity(Debited(ps, lines[..i]), lines[i].productId, q) == Debited(ps, lines[..i + 1])
  {
    DebitNextLine(ps, lines, i);
  }

  /** Appending a history event for an existing order keeps every
      constraint. */
  lemma NewEventKeepsConsistent(t: Tables, e: HistoryEvent)
    requires Consistent(t) && e.orderId in OrderIds(t.orders)
    ensures Consistent(t.(orderHistory := t.orderHistory + [e]))
  {
  }

  /** The products table once the stock loop has run: every line took its
      stock, or the lines before the first short one did. */
  function StockAfter(ps: seq<Product>, lines: seq<CartLine>): seq<Product> {
    match ShortLine(ps, lines)
    case None => Debited(ps, lines)
    case Some(k) => Debited(ps, lines[..k])
  }

  /** The stock loop never writes a negative quantity: a row either keeps its
      quantity or ends non-negative. */
  lemma StockAfterBounded(ps: seq<Product>, lines: seq<CartLine>)
    requires ProductsKeyed(ps)
    ensures |StockAfter(ps, lines)| == |ps|
    ensures forall j :: 0 <= j < |ps| ==>
      StockAfter(ps, lines)[j].quantity == ps[j].quantity || StockAfter(ps, lines)[j].quantity >= 0
  {
    match ShortLine(ps, lines)
    case None =>
      assert lines[..|lines|] == lines;
      DebitedPrefixBounded(ps, lines, |lines|);
    case Some(k) =>
      DebitedPrefixBounded(ps, lines, k);
  }

  /** How the stock loop ended. */
  datatype StockResult = AllTaken | ProductMissing(productId: ProductId) | OutOfStock(line: nat)

  /** The for loop over the cart: re-read each line's product, stop with 404
      if it is gone or with 400 if its quantity would go negative, otherwise
      write the lowered quantity. Each write stays when a later line stops
      the loop. */
  method TakeStock(db: Db, lines: seq<CartLine>) returns (result: StockResult)
    requires ProductsKeyed(db.products) && AllKnown(db.products, lines)
    modifies db`products
    ensures !result.ProductMissing?
    ensures result.AllTaken? <==> ShortLine(old(db.products), lines).None?
    ensures result.OutOfStock? ==> ShortLine(old(db.products), lines) == Some(result.line)
    ensures db.products == StockAfter(old(db.products), lines)
  {
    ghost var start := db.products;
    assert lines[..0] == [];
    assert db.products == Debited(start, lines[..0]);
    var i := 0;
    while i < |lines|
      invariant 0 <= i <= |lines|
      invariant db.products == Debited(start, lines[..i])
      invariant Covered(start, lines, i)
    {
      var line := lines[i];
      assert line in lines;
      ReRead(start, lines, i);
      var found := FindProduct(db.products, line.productId);
      if found.None? {
        return ProductMissing(line.productId);
      }
      var newQuantity := found.value.quantity - line.quantity;
      StockStep(start, lines, i, newQuantity);
      if newQuantity < 0 {
        FirstShortLine(start, lines, i);
        return OutOfStock(i);
      }
      db.products := SetQuantity(db.products, line.productId, newQuantity);
      i := i + 1;
    }
    assert lines[..i] == lines;
    return AllTaken;
  }

  method PlaceOrder(db: Db, user: Option<UserId>, products: Option<seq<CartLine>>, location: Location,
                    orderId: OrderId, paymentApproved: bool, now: Time)
    returns (status: int, placed: Option<OrderId>)
    requires db.Valid()
    requires orderId !in OrderIds(db.orders)
    modifies db
    ensures db.Valid()
    // Nothing else is ever touched.
    ensures db.users == old(db.users) && db.reviews == old(db.reviews) && db.wishlist == old(db.wishlist)
    ensures db.cart == old(db.cart) && db.addresses == old(db.addresses)
    // Rejected before any write.
    ensures user.None? ==> status == 401 && placed.None? && db.Snapshot() == old(db.Snapshot())
    ensures user.Some? && !HasLines(products) ==> status == 400 && placed.None? && db.Snapshot() == old(db.Snapshot())
    // Exactly one order row, whose status is final and never "pending".
    ensures user.Some? && HasLines(products) ==>
      db.orders == old(db.orders) + [Order(orderId, user.value, Total(products.value),
                                           if paymentApproved then Confirmed else Failed, location, now, now)]
    // Declined: a "failed" event and nothing else.
    ensures user.Some? && HasLines(products) && !paymentApproved ==>
      && status == 402 && placed == Some(orderId)
      && db.orderHistory == old(db.orderHistory) + [HistoryEvent(orderId, Failed, now)]
      && db.orderItems == old(db.orderItems) && db.products == old(db.products)
    // An unknown product id makes the batch insert of items fail.
    ensures user.Some? && HasLines(products) && paymentApproved && !AllKnown(old(db.products), products.value) ==>
      && status == 500 && placed.None?
      && db.orderItems == old(db.orderItems) && db.orderHistory == old(db.orderHistory)
      && db.products == old(db.products)
    // Otherwise every line becomes an item, whose subtotals add up to the total.
    ensures user.Some? && HasLines(products) && paymentApproved && AllKnown(old(db.products), products.value) ==>
      && db.orderItems == old(db.orderItems) + ItemsFor(orderId, products.value)
      && SumSubtotals(ItemsOf(db.orderItems, orderId)) == Total(products.value)
    // All lines had stock: every product lost what the cart asked of it.
    ensures user.Some? && HasLines(products) && paymentApproved && AllKnown(old(db.products), products.value)
            && ShortLine(old(db.products), products.value).None? ==>
      && status == 201 && placed == Some(orderId)
      && db.products == Debited(old(db.products), products.value)
      && db.orderHistory == old(db.orderHistory) + [HistoryEvent(orderId, Confirmed, now)]
    // Line k lacked stock: lines before k stay debited, later ones untouched,
    // the order and its items stay, no "confirmed" event.
    ensures user.Some? && HasLines(products) && paymentApproved && AllKnown(old(db.products), products.value)
            && ShortLine(old(db.products), products.value).Some? ==>
      && status == 400 && placed.None?
      && db.products == Debited(old(db.products), products.value[..ShortLine(old(db.products), products.value).value])
      && db.orderHistory == old(db.orderHistory)
    // No quantity the stock loop writes is negative.
    ensures |db.products| == |old(db.products)|
    ensures forall j :: 0 <= j < |db.products| ==>
      db.products[j].quantity == old(db.products[j].quantity) || db.products[j].quantity >= 0
  {
    if user.None? {
      return 401, None;
    }
    if products.None? || |products.value| == 0 {
      return 400, None;
    }
    var lines := products.value;
    var total := Total(lines);
    var order := Order(orderId, user.value, total, if paymentApproved then Confirmed else Failed, location, now, now);
    NewOrderKeepsConsistent(db.Snapshot(), order);
    db.orders := db.orders + [order];

    if !paymentApproved {
      db.orderHistory := db.orderHistory + [HistoryEvent(orderId, Failed, now)];
      return 402, Some(orderId);
    }

    assert forall it :: it in db.orderItems ==> it.orderId != orderId;
    status, placed := FulfilOrder(db, orderId, lines, now);
  }

  /** The part of placeOrder after an approved payment: insert one item per
      cart line, run the stock loop, and on success record "confirmed". */
  method FulfilOrder(db: Db, orderId: OrderId, lines: seq<CartLine>, now: Time)
    returns (status: int, placed: Option<OrderId>)
    requires db.Valid()
    requires orderId in OrderIds(db.orders)
    requires forall it :: it in db.orderItems ==> it.orderId != orderId
    modifies db
    ensures db.Valid()
    ensures db.users == old(db.users) && db.orders == old(db.orders) && db.reviews == old(db.reviews)
    ensures db.wishlist == old(db.wishlist) && db.cart == old(db.cart) && db.addresses == old(db.addresses)
    ensures !AllKnown(old(db.products), lines) ==>
      && status == 500 && placed.None?
      && db.orderItems == old(db.orderItems) && db.orderHistory == old(db.orderHistory)
      && db.products == old(db.products)
    ensures AllKnown(old(db.products), lines) ==>
      && db.orderItems == old(db.orderItems) + ItemsFor(orderId, lines)
      && SumSubtotals(ItemsOf(db.orderItems, orderId)) == Total(lines)
    ensures AllKnown(old(db.products), lines) && ShortLine(old(db.products), lines).None? ==>
      && status == 201 && placed == Some(orderId)
      && db.products == Debited(old(db.products), lines)
      && db.orderHistory == old(db.orderHistory) + [HistoryEvent(orderId, Confirmed, now)]
    ensures AllKnown(old(db.products), lines) && ShortLine(old(db.products), lines).Some? ==>
      && status == 400 && placed.None?
      && db.products == Debited(old(db.products), lines[..ShortLine(old(db.products), lines).value])
      && db.orderHistory == old(db.orderHistory)
    ensures |db.products| == |old(db.products)|
    ensures forall j :: 0 <= j < |db.products| ==>
      db.products[j].quantity == old(db.products[j].quantity) || db.products[j].quantity >= 0
  {
    var items := ItemsFor(orderId, lines);
    if !AllKnown(db.products, lines) {
      // order_items.product_id references products.id: the batch insert fails
      return 500, None;
    }
    NewItemsAddUp(db.orderItems, orderId, lines);
    NewItemsKeepConsistent(db.Snapshot(), orderId, lines);
    db.orderItems := db.orderItems + items;
    status, placed := DebitAndConfirm(db, orderId, lines, now);
  }

  /** The stock loop of placeOrder, then the "confirmed" event when every
      line found its stock. */
  method DebitAndConfirm(db: Db, orderId: OrderId, lines: seq<CartLine>, now: Time)
    returns (status: int, placed: Option<OrderId>)
    requires db.Valid() && orderId in OrderIds(db.orders) && AllKnown(db.products, lines)
    modifies db
    ensures db.Valid()
    ensures db.users == old(db.users) && db.orders == old(db.orders) && db.orderItems == old(db.orderItems)
    ensures db.reviews == old(db.reviews) && db.wishlist == old(db.wishlist)
    ensures db.cart == old(db.cart) && db.addresses == old(db.addresses)
    ensures ShortLine(old(db.products), lines).None? ==>
      && status == 201 && placed == Some(orderId)
      && db.products == Debited(old(db.products), lines)
      && db.orderHistory == old(db.orderHistory) + [HistoryEvent(orderId, Confirmed, now)]
    ensures ShortLine(old(db.products), lines).Some? ==>
      && status == 400 && placed.None?
      && db.products == Debited(old(db.products), lines[..ShortLine(old(db.products), lines).value])
      && db.orderHistory == old(db.orderHistory)
    ensures |db.products| == |old(db.products)|
    ensures forall j :: 0 <= j < |db.products| ==>
      db.products[j].quantity == old(db.products[j].quantity) || db.products[j].quantity >= 0
  {
    ghost var t := db.Snapshot();
    var taken := TakeStock(db, lines);
    assert db.Snapshot() == t.(products := db.products);
    StockAfterBounded(t.products, lines);
    match taken
    case ProductMissing(_) =>
      return 404, None;
    case OutOfStock(k) =>
      DebitKeepsConsistent(t, lines[..k]);
      return 400, None;
    case AllTaken =>
      DebitKeepsConsistent(t, lines);
      var e := HistoryEvent(orderId, Confirmed, now);
      NewEventKeepsConsistent(db.Snapshot(), e);
      db.orderHistory := db.orderHistory + [e];
      return 201, Some(orderId);
  }
}
