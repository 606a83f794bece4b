/** The cart endpoints (src/controllers/user.cart.Controllers.ts): add a
    product to the caller's cart, merging with an existing line; remove a
    product; list the cart; overwrite a line's quantity. */
module CartController {
  import opened Common
  import opened Schema
  import opened Store

  /** A cart row belongs to this user and names this product. */
  predicate IsLine(c: CartRow, u: UserId, p: ProductId) {
    c.userId == u && c.productId == p
  }

  /** No two rows of the cart share a (user, product) pair. The table has no
      such constraint; addToCart keeps it by merging. */
  predicate CartPairsUnique(cs: seq<CartRow>) {
    forall i, j :: 0 <= i < j < |cs| ==> !IsLine(cs[j], cs[i].userId, cs[i].productId)
  }

  /** The request names a product and a quantity of at least 1 (a missing
      key, the empty string and 0 are all falsy in the request body). */
  predicate ValidRequest(productId: Option<ProductId>, quantity: Option<int>) {
    Truthy(productId) && TruthyNumber(quantity) && quantity.value >= 1
  }

  /** SELECT ... WHERE user_id = u AND product_id = p LIMIT 1 */
  function CartLineOf(cart: seq<CartRow>, u: UserId, p: ProductId): (r: Option<CartRow>)
    ensures r.Some? <==> exists c :: c in cart && IsLine(c, u, p)
    ensures r.Some? ==> r.value in cart && IsLine(r.value, u, p)
  {
    First(cart, (c: CartRow) => IsLine(c, u, p))
  }

  /** UPDATE cart SET quantity = q WHERE user_id = u AND product_id = p */
  function WithCartQuantity(cart: seq<CartRow>, u: UserId, p: ProductId, q: int): seq<CartRow> {
    Update(cart, (c: CartRow) => IsLine(c, u, p), (c: CartRow) => c.(quantity := q))
  }

  /** DELETE FROM cart WHERE user_id = u AND product_id = p */
  function CartWithout(cart: seq<CartRow>, u: UserId, p: ProductId): seq<CartRow> {
    Filter(cart, (c: CartRow) => !IsLine(c, u, p))
  }

  /** The cart after a successful addToCart: the existing line's quantity
      grows by q, or a new line with quantity q is appended. */
  function CartAfterAdd(cart: seq<CartRow>, u: UserId, p: ProductId, q: int): seq<CartRow> {
    match CartLineOf(cart, u, p)
    case Some(c) => WithCartQuantity(cart, u, p, c.quantity + q)
    case None => cart + [CartRow(u, p, q)]
  }

  /** The quantity the caller holds of a product, if the cart has a line for it. */
  function QuantityOf(cart: seq<CartRow>, u: UserId, p: ProductId): Option<int> {
    match CartLineOf(cart, u, p)
    case Some(c) => Some(c.quantity)
    case None => None
  }

  // ----------------------------------------------------------------------
  // Properties of the cart operations

  /** Overwriting quantities changes no row's pair and leaves the other
      lines as they were. */
  lemma WithCartQuantityShape(cart: seq<CartRow>, u: UserId, p: ProductId, q: int)
    ensures |WithCartQuantity(cart, u, p, q)| == |cart|
    ensures forall i :: 0 <= i < |cart| ==>
      && WithCartQuantity(cart, u, p, q)[i].userId == cart[i].userId
      && WithCartQuantity(cart, u, p, q)[i].productId == cart[i].productId
    ensures forall i :: 0 <= i < |cart| && IsLine(cart[i], u, p) ==> WithCartQuantity(cart, u, p, q)[i].quantity == q
    ensures forall i :: 0 <= i < |cart| && !IsLine(cart[i], u, p) ==> WithCartQuantity(cart, u, p, q)[i] == cart[i]
  {
  }

  /** updateCartQuantity overwrites: afterwards the caller holds exactly q of
      the product if a line existed, and nothing otherwise. */
  lemma UpdateOverwrites(cart: seq<CartRow>, u: UserId, p: ProductId, q: int)
    ensures QuantityOf(WithCartQuantity(cart, u, p, q), u, p) == if QuantityOf(cart, u, p).Some? then Some(q) else None
  {
    var r := WithCartQuantity(cart, u, p, q);
    WithCartQuantityShape(cart, u, p, q);
    if QuantityOf(cart, u, p).Some? {
      var c := CartLineOf(cart, u, p).value;
      var i :| 0 <= i < |cart| && cart[i] == c;
      assert r[i] in r && IsLine(r[i], u, p);
      var d := CartLineOf(r, u, p).value;
      var j :| 0 <= j < |r| && r[j] == d;
    } else {
      forall d | d in r ensures !IsLine(d, u, p) {
        var j :| 0 <= j < |r| && r[j] == d;
        assert cart[j] in cart;
      }
    }
  }

  /** Overwriting twice with the same quantity is the same as once. */
  lemma UpdateIdempotent(cart: seq<CartRow>, u: UserId, p: ProductId, q: int)
    ensures WithCartQuantity(WithCartQuantity(cart, u, p, q), u, p, q) == WithCartQuantity(cart, u, p, q)
  {
    WithCartQuantityShape(cart, u, p, q);
    WithCartQuantityShape(WithCartQuantity(cart, u, p, q), u, p, q);
  }

  /** Overwriting quantities keeps the pairs unique. */
  lemma UpdateKeepsPairsUnique(cart: seq<CartRow>, u: UserId, p: ProductId, q: int)
    requires CartPairsUnique(cart)
    ensures CartPairsUnique(WithCartQuantity(cart, u, p, q))
  {
    WithCartQuantityShape(cart, u, p, q);
  }

  /** removeFromCart deletes all and only the caller's lines for the
      product, so the caller no longer holds it. */
  lemma RemoveDeletesExactly(cart: seq<CartRow>, u: UserId, p: ProductId)
    ensures forall c :: c in CartWithout(cart, u, p) <==> c in cart && !IsLine(c, u, p)
    ensures QuantityOf(CartWithout(cart, u, p), u, p).None?
  {
  }

  /** Removing twice is the same as removing once (the second call still
      answers 200). */
  lemma RemoveIdempotent(cart: seq<CartRow>, u: UserId, p: ProductId)
    ensures CartWithout(CartWithout(cart, u, p), u, p) == CartWithout(cart, u, p)
  {
    FilterAll(CartWithout(cart, u, p), (c: CartRow) => !IsLine(c, u, p));
  }

  /** Deleting rows keeps the remaining pairs unique. */
  lemma FilterKeepsPairsUnique(cs: seq<CartRow>, keep: CartRow -> bool)
    requires CartPairsUnique(cs)
    ensures CartPairsUnique(Filter(cs, keep))
  {
    var apart := (a: CartRow, b: CartRow) => !IsLine(b, a.userId, a.productId);
    assert PairwiseApart(cs, apart);
    FilterKeepsApart(cs, keep, apart);
  }

  lemma RemoveKeepsPairsUnique(cart: seq<CartRow>, u: UserId, p: ProductId)
    requires CartPairsUnique(cart)
    ensures CartPairsUnique(CartWithout(cart, u, p))
  {
    FilterKeepsPairsUnique(cart, (c: CartRow) => !IsLine(c, u, p));
  }

  /** An appended line for a product the caller did not hold is the one
      found afterwards. */
  lemma AppendLine(cart: seq<CartRow>, u: UserId, p: ProductId, q: int)
    requires QuantityOf(cart, u, p).None?
    ensures QuantityOf(cart + [CartRow(u, p, q)], u, p) == Some(q)
  {
    var r := cart + [CartRow(u, p, q)];
    assert r[|cart|] in r;
    var d := CartLineOf(r, u, p).value;
    var j :| 0 <= j < |r| && r[j] == d;
  }

  /** A quantity after adding q: the old one plus q, or q when there was none. */
  function Grown(before: Option<int>, q: int): Option<int> {
    Some(if before.Some? then before.value + q else q)
  }

  /** addToCart merges: the caller's quantity of the product grows by q
      (from nothing to q for a new line). */
  lemma AddMerges(cart: seq<CartRow>, u: UserId, p: ProductId, q: int)
    ensures QuantityOf(CartAfterAdd(cart, u, p, q), u, p) == Grown(QuantityOf(cart, u, p), q)
  {
    var found := CartLineOf(cart, u, p);
    if found.Some? {
      var n := found.value.quantity + q;
      assert CartAfterAdd(cart, u, p, q) == WithCartQuantity(cart, u, p, n);
      assert QuantityOf(cart, u, p) == Some(found.value.quantity);
      UpdateOverwrites(cart, u, p, n);
    } else {
      assert CartAfterAdd(cart, u, p, q) == cart + [CartRow(u, p, q)];
      assert QuantityOf(cart, u, p) == None;
      AppendLine(cart, u, p, q);
    }
  }

  /** A merge adds no row, an insert exactly one, and no other line
      changes. */
  lemma AddShape(cart: seq<CartRow>, u: UserId, p: ProductId, q: int)
    ensures |CartAfterAdd(cart, u, p, q)| == if QuantityOf(cart, u, p).Some? then |cart| else |cart| + 1
    ensures forall i :: 0 <= i < |cart| && !IsLine(cart[i], u, p) ==> CartAfterAdd(cart, u, p, q)[i] == cart[i]
  {
    var found := CartLineOf(cart, u, p);
    if found.Some? {
      WithCartQuantityShape(cart, u, p, found.value.quantity + q);
    }
  }

  /** Sequential addToCart calls never create a second row for the same
      (user, product). */
  lemma AddKeepsPairsUnique(cart: seq<CartRow>, u: UserId, p: ProductId, q: int)
    requires CartPairsUnique(cart)
    ensures CartPairsUnique(CartAfterAdd(cart, u, p, q))
  {
    match CartLineOf(cart, u, p)
    case Some(c) =>
      UpdateKeepsPairsUnique(cart, u, p, c.quantity + q);
    case None =>
      var r := cart + [CartRow(u, p, q)];
      forall i, j | 0 <= i < j < |r| ensures !IsLine(r[j], r[i].userId, r[i].productId) {
        if j == |cart| {
          assert r[i] == cart[i] && cart[i] in cart;
        }
      }
  }

  // ----------------------------------------------------------------------
  // Endpoints

  /** getCart: exactly the caller's rows, in table order. */
  function GetCart(cart: seq<CartRow>, user: Option<UserId>): (r: Response<seq<CartRow>>)
    ensures r.status == 401 <==> user.None?
    ensures r.status == 200 <==> user.Some?
    ensures r.status == 200 ==> r.data.Some? && forall c :: c in r.data.value <==> c in cart && c.userId == user.value
    ensures r.status != 200 ==> r.data.None?
  {
    if user.None? then Response(401, None)
    else Response(200, Some(Filter(cart, (c: CartRow) => c.userId == user.value)))
  }

  lemma CartKeepsConsistent(t: Tables, cs: seq<CartRow>)
    requires Consistent(t) && CartReferences(cs, ProductIds(t.products))
    ensures Consistent(t.(cart := cs))
  {
  }

  /** Overwriting quantities keeps every constraint. */
  lemma UpdateKeepsConsistent(t: Tables, u: UserId, p: ProductId, q: int)
    requires Consistent(t)
    ensures Consistent(t.(cart := WithCartQuantity(t.cart, u, p, q)))
  {
    var cs := WithCartQuantity(t.cart, u, p, q);
    WithCartQuantityShape(t.cart, u, p, q);
    forall c | c in cs ensures c.productId in ProductIds(t.products) {
      var i :| 0 <= i < |cs| && cs[i] == c;
      assert t.cart[i] in t.cart;
    }
    CartKeepsConsistent(t, cs);
  }

  method AddToCart(db: Db, user: Option<UserId>, productId: Option<ProductId>, quantity: Option<int>)
    returns (status: int)
    requires db.Valid()
    modifies db`cart
    ensures db.Valid()
    ensures user.None? ==> status == 401 && db.cart == old(db.cart)
    ensures user.Some? && !ValidRequest(productId, quantity) ==> status == 400 && db.cart == old(db.cart)
    // An existing line is merged into.
    ensures user.Some? && ValidRequest(productId, quantity) && CartLineOf(old(db.cart), user.value, productId.value).Some? ==>
      status == 200 && db.cart == CartAfterAdd(old(db.cart), user.value, productId.value, quantity.value)
    // A new line needs an existing product (cart.product_id references products.id).
    ensures user.Some? && ValidRequest(productId, quantity) && CartLineOf(old(db.cart), user.value, productId.value).None? ==>
      if productId.value in ProductIds(db.products) then
        status == 201 && db.cart == CartAfterAdd(old(db.cart), user.value, productId.value, quantity.value)
      else
        status == 500 && db.cart == old(db.cart)
    ensures CartPairsUnique(old(db.cart)) ==> CartPairsUnique(db.cart)
  {
    if user.None? {
      return 401;
    }
    if !Truthy(productId) || !TruthyNumber(quantity) || quantity.value < 1 {
      return 400;
    }
    status := AddLine(db, user.value, productId.value, quantity.value);
  }

  /** The part of addToCart after validation: merge into the caller's line
      for the product, or insert a new one. */
  method AddLine(db: Db, u: UserId, p: ProductId, q: int) returns (status: int)
    requires db.Valid()
    modifies db`cart
    ensures db.Valid()
    ensures CartLineOf(old(db.cart), u, p).Some? ==> status == 200 && db.cart == CartAfterAdd(old(db.cart), u, p, q)
    ensures CartLineOf(old(db.cart), u, p).None? ==>
      if p in ProductIds(db.products) then
        status == 201 && db.cart == CartAfterAdd(old(db.cart), u, p, q)
      else
        status == 500 && db.cart == old(db.cart)
    ensures CartPairsUnique(old(db.cart)) ==> CartPairsUnique(db.cart)
  {
    var existing := CartLineOf(db.cart, u, p);
    if CartPairsUnique(db.cart) {
      AddKeepsPairsUnique(db.cart, u, p, q);
    }
    ghost var next := CartAfterAdd(db.cart, u, p, q);
    if existing.Some? {
      UpdateKeepsConsistent(db.Snapshot(), u, p, existing.value.quantity + q);
      assert next == WithCartQuantity(db.cart, u, p, existing.value.quantity + q);
      db.cart := WithCartQuantity(db.cart, u, p, existing.value.quantity + q);
      return 200;
    }
    if p !in ProductIds(db.products) {
      return 500;
    }
    CartKeepsConsistent(db.Snapshot(), db.cart + [CartRow(u, p, q)]);
    assert next == db.cart + [CartRow(u, p, q)];
    db.cart := db.cart + [CartRow(u, p, q)];
    return 201;
  }

  method RemoveFromCart(db: Db, user: Option<UserId>, productId: Option<ProductId>) returns (status: int)
    requires db.Valid()
    modifies db`cart
    ensures db.Valid()
    ensures user.None? ==> status == 401 && db.cart == old(db.cart)
    ensures user.Some? && !Truthy(productId) ==> status == 400 && db.cart == old(db.cart)
    ensures user.Some? && Truthy(productId) ==>
      status == 200 && db.cart == CartWithout(old(db.cart), user.value, productId.value)
    ensures CartPairsUnique(old(db.cart)) ==> CartPairsUnique(db.cart)
  {
    if user.None? {
      return 401;
    }
    if !Truthy(productId) {
      return 400;
    }
    if CartPairsUnique(db.cart) {
      RemoveKeepsPairsUnique(db.cart, user.value, productId.value);
    }
    db.cart := CartWithout(db.cart, user.value, productId.value);
    return 200;
  }

  method UpdateCartQuantity(db: Db, user: Option<UserId>, productId: Option<ProductId>, quantity: Option<int>)
    returns (status: int)
    requires db.Valid()
    modifies db`cart
    ensures db.Valid()
    ensures user.None? ==> status == 401 && db.cart == old(db.cart)
    ensures user.Some? && !ValidRequest(productId, quantity) ==> status == 400 && db.cart == old(db.cart)
    ensures user.Some? && ValidRequest(productId, quantity) ==>
      status == 200 && db.cart == WithCartQuantity(old(db.cart), user.value, productId.value, quantity.value)
    ensures CartPairsUnique(old(db.cart)) ==> CartPairsUnique(db.cart)
  {
    if user.None? {
      return 401;
    }
    if !Truthy(productId) || !TruthyNumber(quantity) || quantity.value < 1 {
      return 400;
    }
    if CartPairsUnique(db.cart) {
      UpdateKeepsPairsUnique(db.cart, user.value, productId.value, quantity.value);
    }
    UpdateKeepsConsistent(db.Snapshot(), user.value, productId.value, quantity.value);
    db.cart := WithCartQuantity(db.cart, user.value, productId.value, quantity.value);
    return 200;
  }
}
