/** The wishlist endpoints (src/controllers/user.wishlist.Controllers.ts):
    add a product once, list the caller's entries joined with their
    products, re-point an entry at another product, remove a product. */
module WishlistController {
  import opened Common
  import opened Schema
  import opened Store

  /** One row of the getWishlist answer: the wishlist row's id with the
      joined product's columns. */
  datatype WishlistEntry = WishlistEntry(
    wishlistId: WishlistId, productId: ProductId, title: string,
    description: Option<string>, price: Money, images: seq<string>)

  predicate IsEntry(w: WishlistRow, u: UserId, p: ProductId) {
    w.userId == u && w.productId == p
  }

  /** No two different rows share a (user, product) pair. */
  predicate WishlistPairsUnique(ws: seq<WishlistRow>) {
    forall w, w' :: w in ws && w' in ws && w.userId == w'.userId && w.productId == w'.productId ==> w == w'
  }

  predicate HasEntry(ws: seq<WishlistRow>, u: UserId, p: ProductId) {
    exists w :: w in ws && IsEntry(w, u, p)
  }

  predicate Owns(ws: seq<WishlistRow>, u: UserId, id: WishlistId) {
    exists w :: w in ws && w.id == id && w.userId == u
  }

  function EntryOf(w: WishlistRow, p: Product): WishlistEntry {
    WishlistEntry(w.id, p.id, p.title, p.description, p.price, p.images)
  }

  /** The joined rows for one wishlist row: one per product with its id. */
  function JoinRow(w: WishlistRow, ps: seq<Product>): (r: seq<WishlistEntry>)
    ensures forall e :: e in r <==> exists p :: p in ps && p.id == w.productId && e == EntryOf(w, p)
  {
    if ps == [] then []
    else
      var n := |ps| - 1;
      assert ps == ps[..n] + [ps[n]];
      JoinRow(w, ps[..n]) + (if ps[n].id == w.productId then [EntryOf(w, ps[n])] else [])
  }

  /** wishlist INNER JOIN products ON wishlist.product_id = products.id
      WHERE wishlist.user_id = u */
  function Join(ws: seq<WishlistRow>, ps: seq<Product>, u: UserId): (r: seq<WishlistEntry>)
    ensures forall e :: e in r <==>
      exists w, p :: w in ws && p in ps && w.userId == u && p.id == w.productId && e == EntryOf(w, p)
  {
    if ws == [] then []
    else
      var n := |ws| - 1;
      assert ws == ws[..n] + [ws[n]];
      Join(ws[..n], ps, u) + (if ws[n].userId == u then JoinRow(ws[n], ps) else [])
  }

  /** getWishlist: the caller's rows whose product still exists. */
  function GetWishlist(ws: seq<WishlistRow>, ps: seq<Product>, user: Option<UserId>)
    : (r: Response<seq<WishlistEntry>>)
    ensures r.status == 401 <==> user.None?
    ensures r.status == 200 <==> user.Some?
    ensures r.status == 200 ==> r.data.Some? && r.data.value == Join(ws, ps, user.value)
    ensures r.status != 200 ==> r.data.None?
  {
    if user.None? then Response(401, None) else Response(200, Some(Join(ws, ps, user.value)))
  }

  /** In a consistent database every one of the caller's rows appears in the
      answer, joined with its product, and nothing else does. */
  lemma GetWishlistComplete(t: Tables, u: UserId)
    requires Consistent(t)
    ensures forall w :: w in t.wishlist && w.userId == u ==>
      exists e :: e in Join(t.wishlist, t.products, u) && e.wishlistId == w.id && e.productId == w.productId
    ensures forall e :: e in Join(t.wishlist, t.products, u) ==>
      exists w :: w in t.wishlist && w.userId == u && w.id == e.wishlistId && w.productId == e.productId
  {
    forall w | w in t.wishlist && w.userId == u
      ensures exists e :: e in Join(t.wishlist, t.products, u) && e.wishlistId == w.id && e.productId == w.productId
    {
      var p := FindProduct(t.products, w.productId).value;
      assert EntryOf(w, p) in Join(t.wishlist, t.products, u);
    }
  }

  /** UPDATE wishlist SET product_id = p WHERE id = id AND user_id = u */
  function WithProduct(ws: seq<WishlistRow>, id: WishlistId, u: UserId, p: ProductId): seq<WishlistRow> {
    Update(ws, (w: WishlistRow) => w.id == id && w.userId == u, (w: WishlistRow) => w.(productId := p))
  }

  /** DELETE FROM wishlist WHERE user_id = u AND product_id = p */
  function WishlistWithout(ws: seq<WishlistRow>, u: UserId, p: ProductId): seq<WishlistRow> {
    Filter(ws, (w: WishlistRow) => !IsEntry(w, u, p))
  }

  // ----------------------------------------------------------------------
  // Properties

  /** Adding after the duplicate check keeps the pairs unique. */
  lemma AddKeepsPairsUnique(ws: seq<WishlistRow>, w: WishlistRow)
    requires WishlistPairsUnique(ws) && !HasEntry(ws, w.userId, w.productId)
    ensures WishlistPairsUnique(ws + [w])
  {
  }

  /** The update re-points exactly the caller's row with that id; every
      other row is kept as it was. */
  lemma WithProductShape(ws: seq<WishlistRow>, id: WishlistId, u: UserId, p: ProductId)
    ensures |WithProduct(ws, id, u, p)| == |ws|
    ensures forall i :: 0 <= i < |ws| ==>
      WithProduct(ws, id, u, p)[i] == if ws[i].id == id && ws[i].userId == u then ws[i].(productId := p) else ws[i]
  {
  }

  lemma WithProductKeepsConsistent(t: Tables, id: WishlistId, u: UserId, p: ProductId)
    requires Consistent(t) && p in ProductIds(t.products)
    ensures Consistent(t.(wishlist := WithProduct(t.wishlist, id, u, p)))
  {
    var ws := WithProduct(t.wishlist, id, u, p);
    WithProductShape(t.wishlist, id, u, p);
    forall w | w in ws ensures w.productId in ProductIds(t.products) {
      var i :| 0 <= i < |ws| && ws[i] == w;
      assert t.wishlist[i] in t.wishlist;
    }
    assert forall i :: 0 <= i < |ws| ==> ws[i].id == t.wishlist[i].id;
  }

  /** updateWishlist has no duplicate check: re-pointing one row at a
      product the caller already wishes for leaves two rows with the same
      (user, product) pair. */
  lemma UpdateCanDuplicate(u: UserId, p: ProductId, q: ProductId)
    requires p != q
    ensures WishlistPairsUnique([WishlistRow("a", u, p), WishlistRow("b", u, q)])
    ensures !WishlistPairsUnique(WithProduct([WishlistRow("a", u, p), WishlistRow("b", u, q)], "b", u, p))
  {
    var ws := WithProduct([WishlistRow("a", u, p), WishlistRow("b", u, q)], "b", u, p);
    assert ws[0] == WishlistRow("a", u, p) && ws[1] == WishlistRow("b", u, p);
    assert ws[0] in ws && ws[1] in ws;
  }

  /** removeFromWishlist deletes all and only the caller's rows for the
      product, and keeps the pairs of the rest unique. */
  lemma RemoveDeletesExactly(ws: seq<WishlistRow>, u: UserId, p: ProductId)
    ensures forall w :: w in WishlistWithout(ws, u, p) <==> w in ws && !IsEntry(w, u, p)
    ensures !HasEntry(WishlistWithout(ws, u, p), u, p)
    ensures WishlistPairsUnique(ws) ==> WishlistPairsUnique(WishlistWithout(ws, u, p))
  {
  }

  lemma WithoutKeepsConsistent(t: Tables, u: UserId, p: ProductId)
    requires Consistent(t)
    ensures Consistent(t.(wishlist := WishlistWithout(t.wishlist, u, p)))
  {
    FilterKeepsWishlistKeyed(t.wishlist, (w: WishlistRow) => !IsEntry(w, u, p));
  }

  // ----------------------------------------------------------------------
  // Endpoints

  /** The new row's id is the column default gen_random_uuid(), supplied by
      the caller as an id not yet in the table. */
  method AddToWishlist(db: Db, user: Option<UserId>, productId: ProductId, newId: WishlistId)
    returns (status: int)
    requires db.Valid()
    requires newId !in WishlistIds(db.wishlist)
    modifies db`wishlist
    ensures db.Valid()
    ensures user.None? ==> status == 401 && db.wishlist == old(db.wishlist)
    ensures user.Some? && HasEntry(old(db.wishlist), user.value, productId) ==>
      status == 400 && db.wishlist == old(db.wishlist)
    // wishlist.product_id references products.id
    ensures user.Some? && !HasEntry(old(db.wishlist), user.value, productId) ==>
      if productId in ProductIds(db.products) then
        status == 201 && db.wishlist == old(db.wishlist) + [WishlistRow(newId, user.value, productId)]
      else
        status == 500 && db.wishlist == old(db.wishlist)
    ensures WishlistPairsUnique(old(db.wishlist)) ==> WishlistPairsUnique(db.wishlist)
  {
    if user.None? {
      return 401;
    }
    var existing := Filter(db.wishlist, (w: WishlistRow) => IsEntry(w, user.value, productId));
    if |existing| > 0 {
      assert existing[0] in existing;
      return 400;
    }
    if productId !in ProductIds(db.products) {
      return 500;
    }
    var row := WishlistRow(newId, user.value, productId);
    if WishlistPairsUnique(db.wishlist) {
      AddKeepsPairsUnique(db.wishlist, row);
    }
    db.wishlist := db.wishlist + [row];
    return 201;
  }

  method UpdateWishlist(db: Db, user: Option<UserId>, wishlistId: WishlistId, newProductId: ProductId)
    returns (status: int)
    requires db.Valid()
    modifies db`wishlist
    ensures db.Valid()
    ensures user.None? ==> status == 401 && db.wishlist == old(db.wishlist)
    ensures user.Some? && !Owns(old(db.wishlist), user.value, wishlistId) ==>
      status == 404 && db.wishlist == old(db.wishlist)
    ensures user.Some? && Owns(old(db.wishlist), user.value, wishlistId) ==>
      if newProductId in ProductIds(db.products) then
        status == 200 && db.wishlist == WithProduct(old(db.wishlist), wishlistId, user.value, newProductId)
      else
        status == 500 && db.wishlist == old(db.wishlist)
  {
    if user.None? {
      return 401;
    }
    var existing := Filter(db.wishlist, (w: WishlistRow) => w.id == wishlistId && w.userId == user.value);
    if |existing| == 0 {
      return 404;
    }
    assert existing[0] in existing;
    if newProductId !in ProductIds(db.products) {
      return 500;
    }
    WithProductKeepsConsistent(db.Snapshot(), wishlistId, user.value, newProductId);
    db.wishlist := WithProduct(db.wishlist, wishlistId, user.value, newProductId);
    return 200;
  }

  method RemoveFromWishlist(db: Db, user: Option<UserId>, productId: ProductId) returns (status: int)
    requires db.Valid()
    modifies db`wishlist
    ensures db.Valid()
    ensures user.None? ==> status == 401 && db.wishlist == old(db.wishlist)
    ensures user.Some? && !HasEntry(old(db.wishlist), user.value, productId) ==>
      status == 404 && db.wishlist == old(db.wishlist)
    ensures user.Some? && HasEntry(old(db.wishlist), user.value, productId) ==>
      status == 200 && db.wishlist == WishlistWithout(old(db.wishlist), user.value, productId)
    ensures WishlistPairsUnique(old(db.wishlist)) ==> WishlistPairsUnique(db.wishlist)
  {
    if user.None? {
      return 401;
    }
    var existing := Filter(db.wishlist, (w: WishlistRow) => IsEntry(w, user.value, productId));
    if |existing| == 0 {
      return 404;
    }
    assert existing[0] in existing;
    WithoutKeepsConsistent(db.Snapshot(), user.value, productId);
    db.wishlist := WishlistWithout(db.wishlist, user.value, productId);
    return 200;
  }
}
