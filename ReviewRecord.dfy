/** The review record of models/Reviews.js: four required paths, the range of
    `rating`, the length bounds of `comment`, and the timestamps. */
module ReviewRecord {
  import opened Common

  const MinRating: int := 1
  const MaxRating: int := 5
  const MinCommentLength: nat := 10
  const MaxCommentLength: nat := 500

  /** A stored review; `createdAt` and `updatedAt` come from `timestamps`. */
  datatype Review = Review(
    hallId: string,
    userId: string,
    rating: int,
    comment: string,
    createdAt: int,
    updatedAt: int)

  /** The fields handed to `new Reviews(...)`; any of them may be absent. */
  datatype ReviewDraft = ReviewDraft(
    hallId: Option<string>,
    userId: Option<string>,
    rating: Option<int>,
    comment: Option<string>)

  datatype Field = HallIdField | UserIdField | RatingField | CommentField

  predicate RatingInRange(rating: int)
  {
    MinRating <= rating <= MaxRating
  }

  /** The number of UTF-16 code units a character takes: two for a
      character outside the Basic Multilingual Plane, one otherwise. */
  function CodeUnits(c: char): nat
  {
    if c as int >= 0x1_0000 then 2 else 1
  }

  /** JavaScript's `length` of a string: its UTF-16 code units. */
  function Utf16Length(s: string): (n: nat)
    ensures |s| <= n <= 2 * |s|
  {
    if s == [] then 0 else Utf16Length(s[..|s| - 1]) + CodeUnits(s[|s| - 1])
  }

  /** The length of a concatenation is the sum of the lengths. */
  lemma {:induction false} Utf16LengthAppend(a: string, b: string)
    ensures Utf16Length(a + b) == Utf16Length(a) + Utf16Length(b)
  {
    if b != [] {
      assert (a + b)[..|a + b| - 1] == a + b[..|b| - 1];
      Utf16LengthAppend(a, b[..|b| - 1]);
    } else {
      assert a + b == a;
    }
  }

  /** A string within the Basic Multilingual Plane has one code unit per
      character, and one with a character outside it has more. */
  lemma {:induction false} Utf16LengthCountsAstral(s: string)
    ensures Utf16Length(s) == |s| <==> forall i :: 0 <= i < |s| ==> s[i] as int < 0x1_0000
  {
    if s != [] {
      var init := s[..|s| - 1];
      Utf16LengthCountsAstral(init);
      assert forall i :: 0 <= i < |init| ==> init[i] == s[i];
    }
  }

  /** Five emoji are ten code units: a comment the bounds accept although it
      has only five characters. */
  lemma FiveEmojiMeetMinimum()
    ensures var c := "\U{1F600}\U{1F600}\U{1F600}\U{1F600}\U{1F600}";
            |c| == 5 && Utf16Length(c) == 10 && CommentLengthOk(c)
  {
    var e := "\U{1F600}";
    var c := e + e + e + e + e;
    assert Utf16Length(e) == 2 by {
      assert e[..0] == [];
    }
    Utf16LengthAppend(e, e);
    Utf16LengthAppend(e + e, e);
    Utf16LengthAppend(e + e + e, e);
    Utf16LengthAppend(e + e + e + e, e);
    assert c == "\U{1F600}\U{1F600}\U{1F600}\U{1F600}\U{1F600}";
  }

  /** `minlength` and `maxlength` compare JavaScript's `length`. */
  predicate CommentLengthOk(comment: string)
  {
    MinCommentLength <= Utf16Length(comment) <= MaxCommentLength
  }

  /** Every path whose validators fail. A required string must also be
      non-empty. */
  function InvalidFields(d: ReviewDraft): (errs: set<Field>)
    ensures HallIdField in errs <==> d.hallId.None?
    ensures UserIdField in errs <==> d.userId.None?
    ensures RatingField in errs <==> d.rating.None? || !(1 <= d.rating.value <= 5)
    ensures CommentField in errs <==> d.comment.None? || !(10 <= Utf16Length(d.comment.value) <= 500)
  {
    (if d.hallId.None? then {HallIdField} else {})
    + (if d.userId.None? then {UserIdField} else {})
    + (if d.rating.None? || !RatingInRange(d.rating.value) then {RatingField} else {})
    + (if !Truthy(d.comment) || !CommentLengthOk(d.comment.value) then {CommentField} else {})
  }

  /** Validating and saving a draft at time `now`. */
  function NewReview(d: ReviewDraft, now: int): (r: Result<Review, set<Field>>)
    ensures r.Ok? <==> InvalidFields(d) == {}
    ensures r.Err? ==> r.error != {} && r.error == InvalidFields(d)
    ensures r.Ok? ==> r.value.hallId == d.hallId.value && r.value.userId == d.userId.value
                      && r.value.rating == d.rating.value && r.value.comment == d.comment.value
                      && r.value.createdAt == now && r.value.updatedAt == now
  {
    var errs := InvalidFields(d);
    if errs != {} then Err(errs)
    else Ok(Review(d.hallId.value, d.userId.value, d.rating.value, d.comment.value, now, now))
  }

  /** What every stored review satisfies. */
  predicate WellFormed(r: Review)
  {
    RatingInRange(r.rating) && CommentLengthOk(r.comment) && r.createdAt <= r.updatedAt
  }

  /** Whatever passes validation is well formed, and every well-formed review
      passes validation again with its own fields. */
  lemma SavedReviewsAreWellFormed(d: ReviewDraft, now: int)
    ensures NewReview(d, now).Ok? ==> WellFormed(NewReview(d, now).value)
    ensures forall r: Review :: WellFormed(r) ==>
              NewReview(ReviewDraft(Some(r.hallId), Some(r.userId), Some(r.rating), Some(r.comment)), now).Ok?
  {
  }
}
