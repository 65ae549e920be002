/** Review of part2/app/models/review.py, a subclass of the same BaseModel. The place
    and the user are object references in the source, held here as their ids. */
module OldReview {
  import opened Common
  import opened OldBase

  datatype Review = Review(
    base: Base,
    text: Value,
    rating: Value,
    place: Option<string>,
    user: Option<string>,
    placeId: Option<string>,
    userId: Option<string>)

  const TextRequired := "text is required and must be a string"
  const RatingNotInt := "rating must be an integer"
  const RatingOutOfRange := "rating must be between 1 and 5"
  const PlaceRequired := "place is required and must be a valid Place instance"
  const UserRequired := "user is required and must be a valid User instance"

  ghost predicate ValidReview(r: Review)
  {
    r.text.Str? && r.text.s != ""
    && r.rating.Int? && 1 <= r.rating.i <= 5
    && r.place.Some? && r.user.Some?
  }

  /** Review.validate: text, then rating, then place, then user. */
  function Validate(r: Review): (o: Outcome)
    ensures o.Pass? <==> ValidReview(r)
    ensures o.Fail? ==> o.error.ValueError?
  {
    if !(r.text.Str? && r.text.s != "") then Fail(ValueError(TextRequired))
    else if !r.rating.Int? then Fail(ValueError(RatingNotInt))
    else if !(1 <= r.rating.i <= 5) then Fail(ValueError(RatingOutOfRange))
    else if r.place.None? then Fail(ValueError(PlaceRequired))
    else if r.user.None? then Fail(ValueError(UserRequired))
    else Pass
  }

  /** 0 and 6 are rejected as out of range, 1 and 5 accepted; a bad text is reported
      before a bad rating, and a bad rating before a missing place or user. */
  lemma ValidateOrder(r: Review)
    ensures r.rating == Int(0) || r.rating == Int(6) ==>
              Validate(r).Fail? && Validate(r).error.message in {TextRequired, RatingOutOfRange}
    ensures !(r.text.Str? && r.text.s != "") ==> Validate(r) == Fail(ValueError(TextRequired))
    ensures r.text.Str? && r.text.s != "" && (r.rating == Int(1) || r.rating == Int(5)) ==>
              Validate(r).Pass? || Validate(r).error.message in {PlaceRequired, UserRequired}
  {
  }

  /** Review.__init__ on a freshly initialised base: place_id and user_id are the ids of
      the given place and user (None when absent), then the review is validated. */
  function Construct(b: Base, text: Value, rating: Value, place: Option<string>, user: Option<string>): (r: Result<Review>)
    ensures r.Ok? <==> Validate(Review(b, text, rating, place, user, place, user)).Pass?
    ensures r.Ok? ==> ValidReview(r.value)
    ensures r.Ok? ==> r.value.placeId == place && r.value.userId == user
    ensures r.Ok? ==> r.value.text == text && r.value.rating == rating && r.value.base == b
  {
    var rv := Review(b, text, rating, place, user, place, user);
    match Validate(rv)
    case Pass => Ok(rv)
    case Fail(e) => Err(e)
  }

  const ReviewKeys: set<string> := {"text", "rating", "place_id", "user_id"}

  /** Review.to_dict: the base keys plus text, rating, place_id and user_id. */
  function ToDict(r: Review): (d: Payload)
    ensures d.Keys == Protected + ReviewKeys
    ensures d["text"] == r.text && d["rating"] == r.rating
  {
    BaseDict(r.base) + map["text" := r.text, "rating" := r.rating,
                           "place_id" := OptStr(r.placeId), "user_id" := OptStr(r.userId)]
  }

  /** Rebuilds a review; the place and user references are taken to be the ids. */
  function FromDict(d: Payload): Option<Review>
  {
    match BaseFromDict(d)
    case None => None
    case Some(b) =>
      if ReviewKeys <= d.Keys && AsOptStr(d["place_id"]).Some? && AsOptStr(d["user_id"]).Some? then
        var p, u := AsOptStr(d["place_id"]).value, AsOptStr(d["user_id"]).value;
        Some(Review(b, d["text"], d["rating"], p, u, p, u))
      else None
  }

  /** to_dict loses nothing but the references, which agree with the ids on every
      review the constructor builds. */
  lemma {:induction false} ToDictRoundTrip(r: Review)
    requires r.place == r.placeId && r.user == r.userId
    ensures FromDict(ToDict(r)) == Some(r)
  {
    BaseDictRoundTrip(r.base, map["text" := r.text, "rating" := r.rating,
                                  "place_id" := OptStr(r.placeId), "user_id" := OptStr(r.userId)]);
  }
}
