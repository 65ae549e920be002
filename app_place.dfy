/** Place and Amenity of part2/hbnb/app/models/{place,amenity}.py, the models the
    part3/hbnb/app service builds. Each checks its arguments before
    `super().__init__()`. */
module AppPlace {
  import opened Common
  import opened AppBase

  const TitleRequired := "title is required"
  const PriceNotPositive := "price must be a positive number"
  const BadLatitude := "latitude must be between -90 and 90"
  const BadLongitude := "longitude must be between -180 and 180"
  const NameRequired := "name is required"

  /** `lo <= v <= hi` in Python; a non-number raises TypeError. */
  function InRange(v: Value, lo: real, hi: real, message: string): (r: Outcome)
    ensures r.Pass? <==> AsNumber(v).Some? && lo <= AsNumber(v).value <= hi
  {
    match Number(v)
    case Err(e) => Fail(e)
    case Ok(x) => if lo <= x <= hi then Pass else Fail(ValueError(message))
  }

  /** `Place(title, price, latitude, longitude)`. */
  function NewPlace(title: Value, price: Value, latitude: Value, longitude: Value, freshId: string, t: nat)
    : (r: Result<AppObj>)
  {
    if !Truthy(title) then Err(ValueError(TitleRequired))
    else if AsNumber(price).None? || AsNumber(price).value <= 0.0 then Err(ValueError(PriceNotPositive))
    else match InRange(latitude, -90.0, 90.0, BadLatitude)
      case Fail(e) => Err(e)
      case Pass =>
        match InRange(longitude, -180.0, 180.0, BadLongitude)
        case Fail(e) => Err(e)
        case Pass =>
          Ok(Build("Place", freshId, t, map["title" := title, "price" := price, "latitude" := latitude,
                                            "longitude" := longitude]))
  }

  /** A place is built exactly when the title is truthy, the price a number above 0
      (0 excluded) and both coordinates numbers in their closed ranges; the checks run
      in that order and the fields are the arguments. */
  lemma NewPlaceMeaning(title: Value, price: Value, latitude: Value, longitude: Value, freshId: string, t: nat)
    ensures var r := NewPlace(title, price, latitude, longitude, freshId, t);
            && (r.Ok? <==> Truthy(title) && AsNumber(price).Some? && AsNumber(price).value > 0.0
                           && AsNumber(latitude).Some? && -90.0 <= AsNumber(latitude).value <= 90.0
                           && AsNumber(longitude).Some? && -180.0 <= AsNumber(longitude).value <= 180.0)
            && (!Truthy(title) ==> r == Err(ValueError(TitleRequired)))
            && ((Truthy(title) && price == Int(0)) ==> r == Err(ValueError(PriceNotPositive)))
            && (r.Ok? ==> r.value.cls == "Place" && r.value.attrs.Keys == {"title", "price", "latitude", "longitude"}
                          && Attr(r.value, "title") == title && Attr(r.value, "price") == price
                          && Attr(r.value, "latitude") == latitude && Attr(r.value, "longitude") == longitude)
  {
  }

  /** `Amenity(name, description)`: the description is stored unchecked. */
  function NewAmenity(name: Value, description: Value, freshId: string, t: nat): (r: Result<AppObj>)
    ensures r.Ok? <==> Truthy(name)
    ensures !Truthy(name) ==> r == Err(ValueError(NameRequired))
    ensures r.Ok? ==> r.value.cls == "Amenity" && r.value.id == freshId
                      && r.value.attrs == map["name" := name, "description" := description]
  {
    if !Truthy(name) then Err(ValueError(NameRequired))
    else Ok(Build("Amenity", freshId, t, map["name" := name, "description" := description]))
  }

  /** Amenity.to_dict. */
  function AmenityDict(a: AppObj): (d: Payload)
    ensures d.Keys == {"id", "name", "description", "created_at", "updated_at"}
    ensures forall k :: k in d ==> d[k] == Attr(a, k)
  {
    map["id" := Str(a.id), "name" := Attr(a, "name"), "description" := Attr(a, "description"),
        "created_at" := Int(a.createdAt), "updated_at" := Int(a.updatedAt)]
  }

  /** The to_dict of a new amenity gives back the constructor's name and description. */
  lemma AmenityDictRoundTrip(name: Value, description: Value, freshId: string, t: nat)
    requires Truthy(name)
    ensures AmenityDict(NewAmenity(name, description, freshId, t).value)
              == map["id" := Str(freshId), "name" := name, "description" := description,
                     "created_at" := Int(t), "updated_at" := Int(t)]
  {
  }
}
