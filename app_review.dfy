/** Review of part3/hbnb/app/models/review.py and its earlier variant in
    part2/hbnb/app/models/review.py. Both take the lists of known user and place ids
    and check their arguments before `super().__init__()`; only the part3 review has a
    rating. */
module AppReview {
  import opened Common
  import opened AppBase

  const TextRequired := "text is required"
  const InvalidUser := "Invalid user_id"
  const InvalidPlace := "Invalid place_id"
  const BadRating := "rating must be an integer between 1 and 5"

  /** The checks both variants make first, in order: text, user_id, place_id. `in` on
      the id lists compares with `==`. */
  function CheckRefs(text: Value, userId: Value, placeId: Value, validUsers: seq<Value>, validPlaces: seq<Value>)
    : (r: Outcome)
  {
    if !Truthy(text) then Fail(ValueError(TextRequired))
    else if userId !in validUsers then Fail(ValueError(InvalidUser))
    else if placeId !in validPlaces then Fail(ValueError(InvalidPlace))
    else Pass
  }

  /** `Review(text, user_id, place_id, valid_user_ids, valid_place_ids, **kwargs)`; a
      rating left out of the kwargs is 5. */
  function New(text: Value, userId: Value, placeId: Value, validUsers: seq<Value>, validPlaces: seq<Value>,
               rating: Option<Value>, freshId: string, t: nat): (r: Result<AppObj>)
  {
    match CheckRefs(text, userId, placeId, validUsers, validPlaces)
    case Fail(e) => Err(e)
    case Pass =>
      var given := if rating.Some? then rating.value else Int(5);
      if !(given.Int? && 1 <= given.i <= 5) then Err(ValueError(BadRating))
      else Ok(Build("Review", freshId, t, map["text" := text, "user_id" := userId, "place_id" := placeId,
                                              "rating" := given]))
  }

  /** A review is built exactly when the text is truthy, both ids are among the known
      ids and the rating (5 when left out) is an int in [1, 5]; the fields are the
      arguments. */
  lemma NewMeaning(text: Value, userId: Value, placeId: Value, validUsers: seq<Value>, validPlaces: seq<Value>,
                   rating: Option<Value>, freshId: string, t: nat)
    ensures var r := New(text, userId, placeId, validUsers, validPlaces, rating, freshId, t);
            var given := if rating.Some? then rating.value else Int(5);
            && (r.Ok? <==> Truthy(text) && userId in validUsers && placeId in validPlaces
                           && given.Int? && 1 <= given.i <= 5)
            && (r.Ok? ==> r.value.cls == "Review" && r.value.id == freshId
                          && Attr(r.value, "text") == text && Attr(r.value, "user_id") == userId
                          && Attr(r.value, "place_id") == placeId && Attr(r.value, "rating") == given)
  {
  }

  /** The first failing check decides the error: text, user, place, then rating; the
      default rating passes, and 0 and 6 do not. */
  lemma NewOrder(text: Value, userId: Value, placeId: Value, validUsers: seq<Value>, validPlaces: seq<Value>,
                 freshId: string, t: nat)
    ensures !Truthy(text) ==> New(text, userId, placeId, validUsers, validPlaces, None, freshId, t) == Err(ValueError(TextRequired))
    ensures (Truthy(text) && userId !in validUsers) ==>
              New(text, userId, placeId, validUsers, validPlaces, None, freshId, t) == Err(ValueError(InvalidUser))
    ensures (Truthy(text) && userId in validUsers && placeId !in validPlaces) ==>
              New(text, userId, placeId, validUsers, validPlaces, None, freshId, t) == Err(ValueError(InvalidPlace))
    ensures CheckRefs(text, userId, placeId, validUsers, validPlaces).Pass? ==>
              && New(text, userId, placeId, validUsers, validPlaces, None, freshId, t).Ok?
              && New(text, userId, placeId, validUsers, validPlaces, Some(Int(0)), freshId, t) == Err(ValueError(BadRating))
              && New(text, userId, placeId, validUsers, validPlaces, Some(Int(6)), freshId, t) == Err(ValueError(BadRating))
  {
  }

  /** `to_dict()`. */
  function ToDict(r: AppObj): (d: Payload)
    ensures d.Keys == {"id", "text", "rating", "user_id", "place_id", "created_at", "updated_at"}
    ensures forall k :: k in d ==> d[k] == Attr(r, k)
  {
    map["id" := Str(r.id), "text" := Attr(r, "text"), "rating" := Attr(r, "rating"),
        "user_id" := Attr(r, "user_id"), "place_id" := Attr(r, "place_id"),
        "created_at" := Int(r.createdAt), "updated_at" := Int(r.updatedAt)]
  }

  // ----- part2/hbnb/app/models/review.py -----

  /** The earlier variant: the same checks, and only text, user_id and place_id are
      stored; a rating among the kwargs is ignored. */
  function NewPart2(text: Value, userId: Value, placeId: Value, validUsers: seq<Value>, validPlaces: seq<Value>,
                    freshId: string, t: nat): (r: Result<AppObj>)
  {
    match CheckRefs(text, userId, placeId, validUsers, validPlaces)
    case Fail(e) => Err(e)
    case Pass => Ok(Build("Review", freshId, t, map["text" := text, "user_id" := userId, "place_id" := placeId]))
  }

  lemma Part2Meaning(text: Value, userId: Value, placeId: Value, validUsers: seq<Value>, validPlaces: seq<Value>,
                     freshId: string, t: nat)
    ensures var r := NewPart2(text, userId, placeId, validUsers, validPlaces, freshId, t);
            && (r.Ok? <==> Truthy(text) && userId in validUsers && placeId in validPlaces)
            && (r.Ok? ==> r.value.attrs.Keys == {"text", "user_id", "place_id"}
                          && Attr(r.value, "user_id") == userId && Attr(r.value, "place_id") == placeId)
  {
  }
}
