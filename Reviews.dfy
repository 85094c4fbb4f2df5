/** POST `/add-review/:hallId` of routes/reviews.js, behind the
    authenticating middleware: a chain of guards ending in one insert into
    the reviews collection, which is a sequence in insertion order. */
module Reviews {
  import opened Common
  import opened ReviewRecord

  /** The authenticated caller: the stored user's role and identifier. */
  datatype Caller = Caller(role: string, id: string)

  datatype AddAnswer =
    | NotConsumer
    | InvalidHallId
    | HallNotFound
    | RatingOutOfRange
    | Added(review: Review)
    | ServerError

  function StatusCode(a: AddAnswer): int
  {
    match a
    case NotConsumer => 403
    case InvalidHallId => 400
    case HallNotFound => 404
    case RatingOutOfRange => 400
    case Added(_) => 201
    case ServerError => 500
  }

  /** `rating < 1 || rating > 5`: an absent rating compares false both ways
      and gets past this guard. */
  predicate RatingRejected(rating: Option<int>)
  {
    rating.Some? && (rating.value < MinRating || rating.value > MaxRating)
  }

  /** The route for `caller` on the hall `hallId`, given the identifiers of
      the stored halls, the stored reviews and the time; the answer and the
      reviews afterwards. A draft that fails validation makes `save` throw,
      which answers 500. */
  function AddReview(reviews: seq<Review>, halls: set<string>, caller: Caller, hallId: string,
                     rating: Option<int>, comment: Option<string>, now: int)
    : (r: (AddAnswer, seq<Review>))
    ensures caller.role != "consumer" ==> r.0 == NotConsumer
    ensures caller.role == "consumer" && !IsValidObjectId(hallId) ==> r.0 == InvalidHallId
    ensures caller.role == "consumer" && IsValidObjectId(hallId) && hallId !in halls ==> r.0 == HallNotFound
    ensures caller.role == "consumer" && IsValidObjectId(hallId) && hallId in halls && RatingRejected(rating)
            ==> r.0 == RatingOutOfRange
    ensures r.0.Added? <==> caller.role == "consumer" && IsValidObjectId(hallId) && hallId in halls
                            && rating.Some? && RatingInRange(rating.value)
                            && comment.Some? && CommentLengthOk(comment.value)
    ensures r.0.Added? ==> r.1 == reviews + [r.0.review]
                           && r.0.review == Review(hallId, caller.id, rating.value, comment.value, now, now)
    ensures !r.0.Added? ==> r.1 == reviews
  {
    if caller.role != "consumer" then (NotConsumer, reviews)
    else if !IsValidObjectId(hallId) then (InvalidHallId, reviews)
    else if hallId !in halls then (HallNotFound, reviews)
    else if RatingRejected(rating) then (RatingOutOfRange, reviews)
    else
      match NewReview(ReviewDraft(Some(hallId), Some(caller.id), rating, comment), now)
      case Err(_) => (ServerError, reviews)
      case Ok(review) => (Added(review), reviews + [review])
  }

  /** Every stored review stays well formed. */
  lemma AddReviewKeepsReviewsWellFormed(reviews: seq<Review>, halls: set<string>, caller: Caller, hallId: string,
                                        rating: Option<int>, comment: Option<string>, now: int)
    requires forall k :: 0 <= k < |reviews| ==> WellFormed(reviews[k])
    ensures var after := AddReview(reviews, halls, caller, hallId, rating, comment, now).1;
            forall k :: 0 <= k < |after| ==> WellFormed(after[k])
  {
    var draft := ReviewDraft(Some(hallId), Some(caller.id), rating, comment);
    SavedReviewsAreWellFormed(draft, now);
  }

  /** The route's own rating guard and the schema agree on a given rating, so
      a 500 comes only from an absent rating or a bad comment. */
  lemma {:induction false} ServerErrorOnlyForMissingRatingOrBadComment(
    reviews: seq<Review>, halls: set<string>, caller: Caller, hallId: string,
    rating: Option<int>, comment: Option<string>, now: int)
    ensures AddReview(reviews, halls, caller, hallId, rating, comment, now).0 == ServerError
            <==> caller.role == "consumer" && IsValidObjectId(hallId) && hallId in halls
                 && !RatingRejected(rating)
                 && (rating.None? || comment.None? || !CommentLengthOk(comment.value))
  {
    var a := AddReview(reviews, halls, caller, hallId, rating, comment, now).0;
    if caller.role == "consumer" && IsValidObjectId(hallId) && hallId in halls && !RatingRejected(rating) {
      assert rating.Some? ==> RatingInRange(rating.value);
      assert a == ServerError || a.Added?;
    }
  }

  /** Only a consumer adds a review, only for a stored hall, and exactly one. */
  lemma OnlyConsumersAddReviews(reviews: seq<Review>, halls: set<string>, caller: Caller, hallId: string,
                                rating: Option<int>, comment: Option<string>, now: int)
    ensures var after := AddReview(reviews, halls, caller, hallId, rating, comment, now).1;
            after != reviews ==> caller.role == "consumer" && hallId in halls
                                 && |after| == |reviews| + 1 && after[|reviews|].userId == caller.id
                                 && after[|reviews|].hallId == hallId
  {
  }
}
