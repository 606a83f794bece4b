/** A seller's own products (src/controllers/user.product.Controllers.ts):
    list a new product, list one's products, delete or update one of them. */
module UserProductController {
  import opened Common
  import opened Schema
  import opened Store

  /** The signed-in user as the session carries it. */
  datatype SessionUser = SessionUser(id: UserId, name: string)

  /** The JSON body of addProduct: None when the key is absent or null. */
  datatype ProductInput = ProductInput(
    title: Option<string>,
    description: Option<string>,
    category: Option<seq<string>>,
    condition: Option<string>,
    images: Option<seq<string>>,
    price: Option<Money>,
    negotiable: Option<bool>,
    quantity: Option<int>,
    isAuction: Option<bool>,
    startingBid: Option<Money>,
    bidIncrement: Option<Money>,
    auctionEndTime: Option<Time>,
    sellerContact: Option<string>,
    status: Option<string>)

  /** title, condition and price are truthy (a price of 0 is falsy). */
  predicate HasRequired(input: ProductInput) {
    Truthy(input.title) && Truthy(input.condition) && TruthyNumber(input.price)
  }

  predicate IsAuction(input: ProductInput) {
    input.isAuction == Some(true)
  }

  /** A missing value takes the column default. */
  function OrDefault<T>(o: Option<T>, default: T): T {
    if o.Some? then o.value else default
  }

  /** The row addProduct inserts: seller columns from the session, the
      auction columns only for an auction, status "available" unless a
      truthy one is given, absent columns at their defaults. */
  function NewProduct(input: ProductInput, seller: SessionUser, id: ProductId, now: Time): Product
    requires HasRequired(input)
  {
    Product(
      id,
      input.title.value,
      input.description,
      OrDefault(input.category, []),
      input.condition.value,
      OrDefault(input.images, []),
      input.price.value,
      Some(OrDefault(input.negotiable, DefaultNegotiable)),
      OrDefault(input.quantity, DefaultProductQuantity),
      Some(OrDefault(input.isAuction, DefaultIsAuction)),
      if IsAuction(input) then input.startingBid else None,
      if IsAuction(input) then input.bidIncrement else None,
      if IsAuction(input) then input.auctionEndTime else None,
      seller.id,
      seller.name,
      input.sellerContact,
      if Truthy(input.status) then input.status.value else DefaultProductStatus,
      Some(now),
      Some(now))
  }

  /** The body of updateProduct without its id: None leaves the column
      alone; for a nullable column Some(None) sets it to null. `otherKeys`
      counts keys that name no column. */
  datatype ProductPatch = ProductPatch(
    title: Option<string>,
    description: Option<Option<string>>,
    category: Option<seq<string>>,
    condition: Option<string>,
    images: Option<seq<string>>,
    price: Option<Money>,
    negotiable: Option<Option<bool>>,
    quantity: Option<int>,
    isAuction: Option<Option<bool>>,
    startingBid: Option<Option<Money>>,
    bidIncrement: Option<Option<Money>>,
    auctionEndTime: Option<Option<Time>>,
    sellerId: Option<UserId>,
    sellerName: Option<string>,
    sellerContact: Option<Option<string>>,
    status: Option<string>,
    createdAt: Option<Option<Time>>,
    updatedAt: Option<Option<Time>>,
    otherKeys: nat)

  /** The number of body keys that name a column. */
  function ColumnKeys(patch: ProductPatch): nat {
    (if patch.title.Some? then 1 else 0) + (if patch.description.Some? then 1 else 0)
    + (if patch.category.Some? then 1 else 0) + (if patch.condition.Some? then 1 else 0)
    + (if patch.images.Some? then 1 else 0) + (if patch.price.Some? then 1 else 0)
    + (if patch.negotiable.Some? then 1 else 0) + (if patch.quantity.Some? then 1 else 0)
    + (if patch.isAuction.Some? then 1 else 0) + (if patch.startingBid.Some? then 1 else 0)
    + (if patch.bidIncrement.Some? then 1 else 0) + (if patch.auctionEndTime.Some? then 1 else 0)
    + (if patch.sellerId.Some? then 1 else 0) + (if patch.sellerName.Some? then 1 else 0)
    + (if patch.sellerContact.Some? then 1 else 0) + (if patch.status.Some? then 1 else 0)
    + (if patch.createdAt.Some? then 1 else 0) + (if patch.updatedAt.Some? then 1 else 0)
  }

  /** One product row after `.set(updateData)`. */
  function Applied(p: Product, patch: ProductPatch): Product {
    p.(title := OrDefault(patch.title, p.title),
       description := OrDefault(patch.description, p.description),
       category := OrDefault(patch.category, p.category),
       condition := OrDefault(patch.condition, p.condition),
       images := OrDefault(patch.images, p.images),
       price := OrDefault(patch.price, p.price),
       negotiable := OrDefault(patch.negotiable, p.negotiable),
       quantity := OrDefault(patch.quantity, p.quantity),
       isAuction := OrDefault(patch.isAuction, p.isAuction),
       startingBid := OrDefault(patch.startingBid, p.startingBid),
       bidIncrement := OrDefault(patch.bidIncrement, p.bidIncrement),
       auctionEndTime := OrDefault(patch.auctionEndTime, p.auctionEndTime),
       sellerId := OrDefault(patch.sellerId, p.sellerId),
       sellerName := OrDefault(patch.sellerName, p.sellerName),
       sellerContact := OrDefault(patch.sellerContact, p.sellerContact),
       status := OrDefault(patch.status, p.status),
       createdAt := OrDefault(patch.createdAt, p.createdAt),
       updatedAt := OrDefault(patch.updatedAt, p.updatedAt))
  }

  predicate IsOwned(p: Product, pid: ProductId, u: UserId) {
    p.id == pid && p.sellerId == u
  }

  predicate Owned(ps: seq<Product>, pid: ProductId, u: UserId) {
    exists p :: p in ps && IsOwned(p, pid, u)
  }

  /** UPDATE products SET ... WHERE seller_id = u AND id = pid */
  function ApplyToOwned(ps: seq<Product>, pid: ProductId, u: UserId, patch: ProductPatch): seq<Product> {
    Update(ps, (p: Product) => IsOwned(p, pid, u), (p: Product) => Applied(p, patch))
  }

  // ----------------------------------------------------------------------
  // Properties

  /** addProduct: the seller is the session user, the status defaults to
      "available", quantity to 1, and the auction columns are null unless
      the product is an auction. */
  lemma NewProductDefaults(input: ProductInput, seller: SessionUser, id: ProductId, now: Time)
    requires HasRequired(input)
    ensures var p := NewProduct(input, seller, id, now);
      && p.id == id && p.sellerId == seller.id && p.sellerName == seller.name
      && p.title == input.title.value && p.condition == input.condition.value && p.price == input.price.value
      && (Truthy(input.status) ==> p.status == input.status.value)
      && (!Truthy(input.status) ==> p.status == "available")
      && (input.quantity.None? ==> p.quantity == 1)
      && (input.quantity.Some? ==> p.quantity == input.quantity.value)
      && (!IsAuction(input) ==> p.startingBid.None? && p.bidIncrement.None? && p.auctionEndTime.None?)
      && (IsAuction(input) ==> p.startingBid == input.startingBid && p.bidIncrement == input.bidIncrement
                                && p.auctionEndTime == input.auctionEndTime)
  {
  }

  /** The id is never part of the update: an applied patch keeps the
      product's id, and a patch naming no column changes nothing. */
  lemma AppliedKeepsId(p: Product, patch: ProductPatch)
    ensures Applied(p, patch).id == p.id
    ensures ColumnKeys(patch) == 0 ==> Applied(p, patch) == p
  {
  }

  /** Applying the same patch twice is the same as once. */
  lemma AppliedIdempotent(p: Product, patch: ProductPatch)
    ensures Applied(Applied(p, patch), patch) == Applied(p, patch)
  {
  }

  /** The update touches only the caller's product with that id. */
  lemma ApplyToOwnedShape(ps: seq<Product>, pid: ProductId, u: UserId, patch: ProductPatch)
    ensures |ApplyToOwned(ps, pid, u, patch)| == |ps|
    ensures forall i :: 0 <= i < |ps| && !IsOwned(ps[i], pid, u) ==> ApplyToOwned(ps, pid, u, patch)[i] == ps[i]
    ensures forall i :: 0 <= i < |ps| && IsOwned(ps[i], pid, u) ==> ApplyToOwned(ps, pid, u, patch)[i] == Applied(ps[i], patch)
  {
  }

  /** The update keeps the set of product ids. */
  lemma ApplyKeepsIds(ps: seq<Product>, pid: ProductId, u: UserId, patch: ProductPatch)
    ensures ProductIds(ApplyToOwned(ps, pid, u, patch)) == ProductIds(ps)
  {
    var ps' := ApplyToOwned(ps, pid, u, patch);
    ApplyToOwnedShape(ps, pid, u, patch);
    forall x | x in ProductIds(ps) ensures x in ProductIds(ps') {
      var i :| 0 <= i < |ps| && ps[i].id == x;
      assert ps'[i] in ps';
    }
    forall x | x in ProductIds(ps') ensures x in ProductIds(ps) {
      var i :| 0 <= i < |ps'| && ps'[i].id == x;
      assert ps[i] in ps;
    }
  }

  /** The update keeps ids unique. */
  lemma ApplyKeepsKeyed(ps: seq<Product>, pid: ProductId, u: UserId, patch: ProductPatch)
    requires ProductsKeyed(ps)
    ensures ProductsKeyed(ApplyToOwned(ps, pid, u, patch))
  {
    var ps' := ApplyToOwned(ps, pid, u, patch);
    ApplyToOwnedShape(ps, pid, u, patch);
    forall p, q | p in ps' && q in ps' && p.id == q.id ensures p == q {
      var i :| 0 <= i < |ps'| && ps'[i] == p;
      var j :| 0 <= j < |ps'| && ps'[j] == q;
      assert ps[i] in ps && ps[j] in ps;
    }
  }

  /** The update keeps every constraint. */
  lemma ApplyKeepsConsistent(t: Tables, pid: ProductId, u: UserId, patch: ProductPatch)
    requires Consistent(t)
    ensures Consistent(t.(products := ApplyToOwned(t.products, pid, u, patch)))
  {
    ApplyKeepsIds(t.products, pid, u, patch);
    ApplyKeepsKeyed(t.products, pid, u, patch);
  }

  /** With ids as primary key, the owned row is the only row with that id,
      so deleting by (seller, id) is deleting by id. */
  lemma OwnedIsTheRow(ps: seq<Product>, pid: ProductId, u: UserId)
    requires ProductsKeyed(ps) && Owned(ps, pid, u)
    ensures forall p :: p in ps && p.id == pid ==> p.sellerId == u
  {
  }

  // ----------------------------------------------------------------------
  // Endpoints

  /** showMyProducts: exactly the caller's products. Without a user the
      thrown error is caught and answered with 200 and no data. */
  function ShowMyProducts(ps: seq<Product>, user: Option<UserId>): (r: Response<seq<Product>>)
    ensures r.status == 200
    ensures user.None? <==> r.data.None?
    ensures user.Some? ==> forall p :: p in r.data.value <==> p in ps && p.sellerId == user.value
  {
    if user.None? then Response(200, None)
    else Response(200, Some(Filter(ps, (p: Product) => p.sellerId == user.value)))
  }

  /** The id is the column default gen_random_uuid(), supplied by the
      caller as an id not yet in the table. */
  method AddProduct(db: Db, user: Option<SessionUser>, input: ProductInput, newId: ProductId, now: Time)
    returns (r: Response<seq<Product>>)
    requires db.Valid()
    requires newId !in ProductIds(db.products)
    modifies db`products
    ensures db.Valid()
    ensures user.None? ==> r == Response(401, None) && db.products == old(db.products)
    ensures user.Some? && !HasRequired(input) ==> r == Response(400, None) && db.products == old(db.products)
    ensures user.Some? && HasRequired(input) ==>
      && r == Response(201, Some([NewProduct(input, user.value, newId, now)]))
      && db.products == old(db.products) + [NewProduct(input, user.value, newId, now)]
  {
    if user.None? {
      return Response(401, None);
    }
    if !Truthy(input.title) || !Truthy(input.condition) || !TruthyNumber(input.price) {
      return Response(400, None);
    }
    var row := NewProduct(input, user.value, newId, now);
    db.products := db.products + [row];
    return Response(201, Some([row]));
  }

  /** deleteProduct, with the ON DELETE CASCADE of every table that
      references products. */
  method DeleteProduct(db: Db, user: Option<UserId>, productId: Option<ProductId>) returns (status: int)
    requires db.Valid()
    modifies db
    ensures db.Valid()
    ensures user.None? ==> status == 401 && db.Snapshot() == old(db.Snapshot())
    ensures user.Some? && !Truthy(productId) ==> status == 400 && db.Snapshot() == old(db.Snapshot())
    ensures user.Some? && Truthy(productId) && !Owned(old(db.products), productId.value, user.value) ==>
      status == 404 && db.Snapshot() == old(db.Snapshot())
    ensures user.Some? && Truthy(productId) && Owned(old(db.products), productId.value, user.value) ==>
      status == 200 && db.Snapshot() == Schema.DeleteProduct(old(db.Snapshot()), productId.value)
  {
    if user.None? {
      return 401;
    }
    if !Truthy(productId) {
      return 400;
    }
    var matching := Filter(db.products, (p: Product) => IsOwned(p, productId.value, user.value));
    if |matching| == 0 {
      return 404;
    }
    assert matching[0] in matching;
    OwnedIsTheRow(db.products, productId.value, user.value);
    db.Commit(Schema.DeleteProduct(db.Snapshot(), productId.value));
    return 200;
  }

  /** `productId` is the body's id; `patch` holds the other keys. A patch
      whose keys all name no column leaves nothing to set, which the query
      builder rejects. */
  method UpdateProduct(db: Db, user: Option<UserId>, productId: Option<ProductId>, patch: ProductPatch)
    returns (r: Response<Product>)
    requires db.Valid()
    modifies db`products
    ensures db.Valid()
    ensures user.None? ==> r == Response(401, None) && db.products == old(db.products)
    ensures user.Some? && !Truthy(productId) ==> r == Response(400, None) && db.products == old(db.products)
    ensures user.Some? && Truthy(productId) && ColumnKeys(patch) + patch.otherKeys == 0 ==>
      r == Response(400, None) && db.products == old(db.products)
    ensures user.Some? && Truthy(productId) && ColumnKeys(patch) == 0 && patch.otherKeys > 0 ==>
      r == Response(500, None) && db.products == old(db.products)
    ensures user.Some? && Truthy(productId) && ColumnKeys(patch) > 0 && !Owned(old(db.products), productId.value, user.value) ==>
      r == Response(404, None) && db.products == old(db.products)
    ensures user.Some? && Truthy(productId) && ColumnKeys(patch) > 0 && Owned(old(db.products), productId.value, user.value) ==>
      && r.status == 200 && r.data.Some?
      && (exists p :: p in old(db.products) && IsOwned(p, productId.value, user.value) && r.data.value == Applied(p, patch))
      && db.products == ApplyToOwned(old(db.products), productId.value, user.value, patch)
  {
    if user.None? {
      return Response(401, None);
    }
    if !Truthy(productId) {
      return Response(400, None);
    }
    if ColumnKeys(patch) + patch.otherKeys == 0 {
      return Response(400, None);
    }
    if ColumnKeys(patch) == 0 {
      return Response(500, None);
    }
    var pid, u := productId.value, user.value;
    var matching := Filter(db.products, (p: Product) => IsOwned(p, pid, u));
    if |matching| == 0 {
      return Response(404, None);
    }
    assert matching[0] in matching;
    var updated := Applied(matching[0], patch);
    ApplyKeepsConsistent(db.Snapshot(), pid, u, patch);
    db.products := ApplyToOwned(db.products, pid, u, patch);
    return Response(200, Some(updated));
  }
}
