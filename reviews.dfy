/** The review endpoints (src/controllers/user.review.Controllers.ts): add a
    review, list a product's reviews, and update or delete one's own review. */
module ReviewController {
  import opened Common
  import opened Schema
  import opened Store

  /** The review with this id (SELECT ... WHERE id = ?, first row). */
  function FindReview(rs: seq<Review>, id: ReviewId): (r: Option<Review>)
    ensures r.Some? <==> id in ReviewIds(rs)
    ensures r.Some? ==> r.value in rs && r.value.id == id
  {
    First(rs, (rv: Review) => rv.id == id)
  }

  /** The caller may change the review: it exists and is theirs. */
  predicate MayChange(rs: seq<Review>, id: ReviewId, u: UserId) {
    FindReview(rs, id).Some? && FindReview(rs, id).value.userId == u
  }

  /** With ids as primary key, the guard is exactly "some review with this id
      belongs to the caller". */
  lemma MayChangeIffOwned(rs: seq<Review>, id: ReviewId, u: UserId)
    requires ReviewsKeyed(rs)
    ensures MayChange(rs, id, u) <==> exists rv :: rv in rs && rv.id == id && rv.userId == u
  {
  }

  /** The values of an update body: None when the key is absent, which
      Drizzle's set() leaves out. A present comment may be null. */
  datatype ReviewPatch = ReviewPatch(rating: Option<int>, comment: Option<Option<string>>)

  /** One review row after the update's SET clause. */
  function Revised(rv: Review, patch: ReviewPatch, now: Time): Review {
    rv.(rating := if patch.rating.Some? then patch.rating.value else rv.rating,
        comment := if patch.comment.Some? then patch.comment.value else rv.comment,
        updatedAt := now)
  }

  /** UPDATE reviews SET ... WHERE id = id */
  function ReviseRows(rs: seq<Review>, id: ReviewId, patch: ReviewPatch, now: Time): seq<Review> {
    Update(rs, (rv: Review) => rv.id == id, (rv: Review) => Revised(rv, patch, now))
  }

  /** DELETE FROM reviews WHERE id = id */
  function DeleteRows(rs: seq<Review>, id: ReviewId): seq<Review> {
    Filter(rs, (rv: Review) => rv.id != id)
  }

  /** The CHECK on rating holds for the new value. */
  predicate PatchAllowed(patch: ReviewPatch) {
    patch.rating.Some? ==> RatingInRange(patch.rating.value)
  }

  // ----------------------------------------------------------------------
  // Properties

  /** The update changes only the review with that id: it keeps its id,
      product and author, takes the new rating and comment where given, and
      gets a fresh updated_at. */
  lemma ReviseRowsShape(rs: seq<Review>, id: ReviewId, patch: ReviewPatch, now: Time)
    ensures |ReviseRows(rs, id, patch, now)| == |rs|
    ensures forall i :: 0 <= i < |rs| && rs[i].id != id ==> ReviseRows(rs, id, patch, now)[i] == rs[i]
    ensures forall i :: 0 <= i < |rs| && rs[i].id == id ==>
      var r := ReviseRows(rs, id, patch, now)[i];
      && r.id == id && r.productId == rs[i].productId && r.userId == rs[i].userId
      && r.createdAt == rs[i].createdAt && r.updatedAt == now
      && r.rating == (if patch.rating.Some? then patch.rating.value else rs[i].rating)
      && r.comment == (if patch.comment.Some? then patch.comment.value else rs[i].comment)
  {
  }

  /** An allowed update keeps every constraint. */
  lemma ReviseKeepsConsistent(t: Tables, id: ReviewId, patch: ReviewPatch, now: Time)
    requires Consistent(t) && PatchAllowed(patch)
    ensures Consistent(t.(reviews := ReviseRows(t.reviews, id, patch, now)))
  {
    var rs := ReviseRows(t.reviews, id, patch, now);
    ReviseRowsShape(t.reviews, id, patch, now);
    forall rv | rv in rs ensures RatingInRange(rv.rating) && rv.productId in ProductIds(t.products) {
      var i :| 0 <= i < |rs| && rs[i] == rv;
      assert t.reviews[i] in t.reviews;
    }
    forall rv, rv' | rv in rs && rv' in rs && rv.id == rv'.id ensures rv == rv' {
      var i :| 0 <= i < |rs| && rs[i] == rv;
      var j :| 0 <= j < |rs| && rs[j] == rv';
      assert t.reviews[i] in t.reviews && t.reviews[j] in t.reviews;
    }
  }

  /** deleteReview removes exactly that review. */
  lemma DeleteRemovesExactly(rs: seq<Review>, id: ReviewId)
    ensures forall rv :: rv in DeleteRows(rs, id) <==> rv in rs && rv.id != id
    ensures id !in ReviewIds(DeleteRows(rs, id))
    ensures ReviewIds(DeleteRows(rs, id)) == ReviewIds(rs) - {id}
  {
    var d := DeleteRows(rs, id);
    forall x | x in ReviewIds(rs) - {id} ensures x in ReviewIds(d) {
      var rv :| rv in rs && rv.id == x;
      assert rv in d;
    }
  }

  lemma DeleteKeepsConsistent(t: Tables, id: ReviewId)
    requires Consistent(t)
    ensures Consistent(t.(reviews := DeleteRows(t.reviews, id)))
  {
    FilterKeepsReviewsKeyed(t.reviews, (rv: Review) => rv.id != id);
  }

  // ----------------------------------------------------------------------
  // Endpoints

  /** getReviewsByProduct: every review of the product, answered with 201;
      no signed-in user is needed. */
  function GetReviewsByProduct(rs: seq<Review>, productId: ProductId): (r: Response<seq<Review>>)
    ensures r.status == 201 && r.data.Some?
    ensures forall rv :: rv in r.data.value <==> rv in rs && rv.productId == productId
  {
    Response(201, Some(Filter(rs, (rv: Review) => rv.productId == productId)))
  }

  /** `rating` is None when the body has no rating: the NOT NULL column then
      rejects the insert. The id is the column default gen_random_uuid(),
      supplied by the caller as an id not yet in the table, and created_at and
      updated_at default to the current time. */
  method AddReview(db: Db, user: Option<UserId>, productId: ProductId, rating: Option<int>,
                   comment: Option<string>, newId: ReviewId, now: Time)
    returns (status: int)
    requires db.Valid()
    requires newId !in ReviewIds(db.reviews)
    modifies db`reviews
    ensures db.Valid()
    ensures user.None? ==> status == 401 && db.reviews == old(db.reviews)
    // The rating CHECK, the NOT NULL on rating and the product reference.
    ensures user.Some? && (rating.None? || !RatingInRange(rating.value) || productId !in ProductIds(db.products)) ==>
      status == 500 && db.reviews == old(db.reviews)
    ensures user.Some? && rating.Some? && RatingInRange(rating.value) && productId in ProductIds(db.products) ==>
      status == 201 && db.reviews == old(db.reviews) + [Review(newId, productId, user.value, rating.value, comment, now, now)]
  {
    if user.None? {
      return 401;
    }
    if rating.None? || !RatingInRange(rating.value) || productId !in ProductIds(db.products) {
      return 500;
    }
    db.reviews := db.reviews + [Review(newId, productId, user.value, rating.value, comment, now, now)];
    return 201;
  }

  method UpdateReview(db: Db, user: Option<UserId>, reviewId: ReviewId, patch: ReviewPatch, now: Time)
    returns (status: int)
    requires db.Valid()
    modifies db`reviews
    ensures db.Valid()
    ensures user.None? ==> status == 401 && db.reviews == old(db.reviews)
    ensures user.Some? && !MayChange(old(db.reviews), reviewId, user.value) ==>
      status == 403 && db.reviews == old(db.reviews)
    ensures user.Some? && MayChange(old(db.reviews), reviewId, user.value) && !PatchAllowed(patch) ==>
      status == 500 && db.reviews == old(db.reviews)
    ensures user.Some? && MayChange(old(db.reviews), reviewId, user.value) && PatchAllowed(patch) ==>
      status == 200 && db.reviews == ReviseRows(old(db.reviews), reviewId, patch, now)
  {
    if user.None? {
      return 401;
    }
    var existing := FindReview(db.reviews, reviewId);
    if existing.None? || existing.value.userId != user.value {
      return 403;
    }
    if !PatchAllowed(patch) {
      return 500;
    }
    ReviseKeepsConsistent(db.Snapshot(), reviewId, patch, now);
    db.reviews := ReviseRows(db.reviews, reviewId, patch, now);
    return 200;
  }

  method DeleteReview(db: Db, user: Option<UserId>, reviewId: ReviewId) returns (status: int)
    requires db.Valid()
    modifies db`reviews
    ensures db.Valid()
    ensures user.None? ==> status == 401 && db.reviews == old(db.reviews)
    ensures user.Some? && !MayChange(old(db.reviews), reviewId, user.value) ==>
      status == 403 && db.reviews == old(db.reviews)
    ensures user.Some? && MayChange(old(db.reviews), reviewId, user.value) ==>
      status == 200 && db.reviews == DeleteRows(old(db.reviews), reviewId)
  {
    if user.None? {
      return 401;
    }
    var existing := FindReview(db.reviews, reviewId);
    if existing.None? || existing.value.userId != user.value {
      return 403;
    }
    DeleteKeepsConsistent(db.Snapshot(), reviewId);
    db.reviews := DeleteRows(db.reviews, reviewId);
    return 200;
  }
}
