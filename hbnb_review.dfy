/** Review of part3/hbnb/bl/review.py: text, user_id, place_id and an optional rating
    (0 by default) on top of BaseModel. */
module HbnbReview {
  import opened Common
  import opened HbnbBase

  datatype Review = Review(base: HBase, text: Value, userId: Value, placeId: Value, rating: Value)

  const ReviewFields: set<string> := {"text", "user_id", "place_id", "rating"}

  /** `Review(**kw)`: each argument is stored as given. */
  function New(kw: Payload, freshId: string, t1: nat, t2: nat): (r: Result<Review>)
    ensures Unexpected(kw, ReviewFields) ==> r == Err(TypeError(UnexpectedKeyword))
    ensures r.Ok? ==> && r.value.text == LookupOr(kw, "text", Str(""))
                      && r.value.userId == LookupOr(kw, "user_id", Str(""))
                      && r.value.placeId == LookupOr(kw, "place_id", Str(""))
                      && r.value.rating == LookupOr(kw, "rating", Int(0))
                      && Ok(r.value.base) == BaseFrom(kw, freshId, t1, t2)
  {
    if Unexpected(kw, ReviewFields) then Err(TypeError(UnexpectedKeyword))
    else
      match BaseFrom(kw, freshId, t1, t2)
      case Err(e) => Err(e)
      case Ok(b) =>
        Ok(Review(b, LookupOr(kw, "text", Str("")), LookupOr(kw, "user_id", Str("")),
                  LookupOr(kw, "place_id", Str("")), LookupOr(kw, "rating", Int(0))))
  }

  const TextRequired := "text is required"
  const UserRequired := "user_id is required"
  const PlaceRequired := "place_id is required"
  const BadRating := "rating must be 0..5"

  /** Review.validate. */
  function Validate(r: Review): Outcome
  {
    if !Truthy(r.text) then Fail(ValueError(TextRequired))
    else if !Truthy(r.userId) then Fail(ValueError(UserRequired))
    else if !Truthy(r.placeId) then Fail(ValueError(PlaceRequired))
    else match Number(r.rating)
      case Err(e) => Fail(e)
      case Ok(x) => if 0.0 <= x <= 5.0 then Pass else Fail(ValueError(BadRating))
  }

  /** A review is valid exactly when text, user_id and place_id are truthy and the rating
      is a number in [0, 5]; the first failing check among text, user_id and place_id
      decides the error. */
  lemma ValidateMeaning(r: Review)
    ensures Validate(r).Pass? <==>
              (Truthy(r.text) && Truthy(r.userId) && Truthy(r.placeId)
               && AsNumber(r.rating).Some? && 0.0 <= AsNumber(r.rating).value <= 5.0)
    ensures !Truthy(r.text) ==> Validate(r) == Fail(ValueError(TextRequired))
    ensures Truthy(r.text) && !Truthy(r.userId) ==> Validate(r) == Fail(ValueError(UserRequired))
    ensures (Truthy(r.text) && Truthy(r.userId) && !Truthy(r.placeId))
              ==> Validate(r) == Fail(ValueError(PlaceRequired))
  {
  }

  /** Integer ratings: 0 and 5 pass, -1 and 6 do not. */
  lemma RatingBounds(r: Review)
    requires Truthy(r.text) && Truthy(r.userId) && Truthy(r.placeId)
    ensures Validate(r.(rating := Int(0))).Pass? && Validate(r.(rating := Int(5))).Pass?
    ensures Validate(r.(rating := Int(-1))) == Fail(ValueError(BadRating))
    ensures Validate(r.(rating := Int(6))) == Fail(ValueError(BadRating))
  {
  }

  /** Leaving the rating out gives 0, which passes. */
  lemma DefaultRatingPasses(kw: Payload, freshId: string, t1: nat, t2: nat)
    requires New(kw, freshId, t1, t2).Ok? && "rating" !in kw
    requires Truthy(Lookup(kw, "text")) && Truthy(Lookup(kw, "user_id")) && Truthy(Lookup(kw, "place_id"))
    ensures Validate(New(kw, freshId, t1, t2).value).Pass?
  {
  }

  /** Review.to_dict. */
  function ToDict(r: Review): (d: Payload)
    ensures d.Keys == BaseFields + ReviewFields
    ensures d["id"] == Str(r.base.id) && d["text"] == r.text && d["user_id"] == r.userId
    ensures d["place_id"] == r.placeId && d["rating"] == r.rating
    ensures d["created_at"] == r.base.createdAt && d["updated_at"] == r.base.updatedAt
  {
    BaseDict(r.base) + map["text" := r.text, "user_id" := r.userId, "place_id" := r.placeId,
                           "rating" := r.rating]
  }

  /** `Review(**r.to_dict())` gives r back. */
  lemma {:induction false} ToDictRoundTrip(r: Review, freshId: string, t1: nat, t2: nat)
    ensures New(ToDict(r), freshId, t1, t2) == Ok(r)
  {
    var extra := map["text" := r.text, "user_id" := r.userId, "place_id" := r.placeId,
                     "rating" := r.rating];
    BaseDictRoundTrip(r.base, extra, freshId, t1, t2);
    assert ToDict(r) == BaseDict(r.base) + extra;
  }
}
