/** The earlier dataclasses of part2/hbnb/bl: Place and Amenity as plain dataclasses over
    the same BaseModel, with no __init__ of their own. The base model of part2/hbnb/bl
    is not part of this model; it is taken to be the one of part3/hbnb/bl/base.py. */
module Part2Bl {
  import opened Common
  import opened HbnbBase
  import HbnbPlace
  import HbnbAmenity

  /** part2 Place: the same fields as part3's, but amenity_ids takes the given value as
      it is (no `or []`) and defaults to a new empty list. */
  function NewPlace(kw: Payload, freshId: string, t1: nat, t2: nat): (r: Result<HbnbPlace.Place>)
    ensures Unexpected(kw, HbnbPlace.PlaceFields) ==> r == Err(TypeError(UnexpectedKeyword))
    ensures r.Ok? ==> r.value.amenityIds == LookupOr(kw, "amenity_ids", List([]))
                      && r.value.name == LookupOr(kw, "name", Str(""))
                      && r.value.price == LookupOr(kw, "price", Num(0.0))
                      && r.value.ownerId == LookupOr(kw, "owner_id", Str(""))
                      && Ok(r.value.base) == BaseFrom(kw, freshId, t1, t2)
  {
    if Unexpected(kw, HbnbPlace.PlaceFields) then Err(TypeError(UnexpectedKeyword))
    else
      match BaseFrom(kw, freshId, t1, t2)
      case Err(e) => Err(e)
      case Ok(b) =>
        Ok(HbnbPlace.Place(b, LookupOr(kw, "name", Str("")), LookupOr(kw, "description", Str("")),
                           LookupOr(kw, "price", Num(0.0)), LookupOr(kw, "latitude", Num(0.0)),
                           LookupOr(kw, "longitude", Num(0.0)), LookupOr(kw, "owner_id", Str("")),
                           LookupOr(kw, "amenity_ids", List([]))))
  }

  /** part2 Place.validate: the same checks in the same order as part3's. */
  function ValidatePlace(p: HbnbPlace.Place): Outcome
  {
    HbnbPlace.CheckPlace(p.name, p.price, p.latitude, p.longitude, p.ownerId)
  }

  /** The two generations build the same place from the same arguments, except that
      part3 turns a falsy amenity_ids into an empty list; and they validate alike. */
  lemma {:induction false} PlacesAgree(kw: Payload, freshId: string, t1: nat, t2: nat)
    ensures NewPlace(kw, freshId, t1, t2).Ok? <==> HbnbPlace.New(kw, freshId, t1, t2).Ok?
    ensures NewPlace(kw, freshId, t1, t2).Ok? ==>
              HbnbPlace.New(kw, freshId, t1, t2).value
                == NewPlace(kw, freshId, t1, t2).value.(amenityIds := HbnbPlace.OrEmpty(Lookup(kw, "amenity_ids")))
    ensures NewPlace(kw, freshId, t1, t2).Ok? ==>
              ValidatePlace(NewPlace(kw, freshId, t1, t2).value)
                == HbnbPlace.Validate(HbnbPlace.New(kw, freshId, t1, t2).value)
  {
  }

  /** A part2 place built without amenity_ids holds an empty list, while an explicitly
      passed None is kept. */
  lemma DefaultAmenities(freshId: string, t1: nat, t2: nat)
    ensures NewPlace(map[], freshId, t1, t2).Ok?
    ensures NewPlace(map[], freshId, t1, t2).value.amenityIds == List([])
    ensures NewPlace(map["amenity_ids" := Null], freshId, t1, t2).value.amenityIds == Null
  {
  }

  /** part2 Amenity: the dataclass __init__ of a single name field. */
  function NewAmenity(kw: Payload, freshId: string, t1: nat, t2: nat): (r: Result<HbnbAmenity.Amenity>)
    ensures r == HbnbAmenity.New(kw, freshId, t1, t2)
  {
    if Unexpected(kw, HbnbAmenity.AmenityFields) then Err(TypeError(UnexpectedKeyword))
    else
      match BaseFrom(kw, freshId, t1, t2)
      case Err(e) => Err(e)
      case Ok(b) => Ok(HbnbAmenity.Amenity(b, LookupOr(kw, "name", Str(""))))
  }

  /** part2 Amenity.validate. */
  function ValidateAmenity(a: HbnbAmenity.Amenity): (r: Outcome)
    ensures r.Pass? <==> Truthy(a.name)
    ensures r.Fail? ==> r.error == ValueError(HbnbAmenity.NameRequired)
  {
    if !Truthy(a.name) then Fail(ValueError(HbnbAmenity.NameRequired)) else Pass
  }

  /** Only the name is inspected, any non-empty name passes, and the default fails. */
  lemma AmenityMeaning(a: HbnbAmenity.Amenity, b: HBase, s: string, freshId: string, t1: nat, t2: nat)
    ensures ValidateAmenity(a.(base := b)) == ValidateAmenity(a)
    ensures ValidateAmenity(a.(name := Str(s))).Pass? <==> |s| > 0
    ensures ValidateAmenity(NewAmenity(map[], freshId, t1, t2).value).Fail?
  {
  }
}
