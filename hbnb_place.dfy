/** Place of part3/hbnb/bl/place.py: a BaseModel subclass with its own __init__ that
    takes name, description, price, latitude, longitude, owner_id and amenity_ids and
    passes the other keyword arguments to BaseModel. */
module HbnbPlace {
  import opened Common
  import opened HbnbBase

  datatype Place = Place(base: HBase, name: Value, description: Value, price: Value,
                         latitude: Value, longitude: Value, ownerId: Value, amenityIds: Value)

  const PlaceFields: set<string> :=
    {"name", "description", "price", "latitude", "longitude", "owner_id", "amenity_ids"}

  /** `amenity_ids or []`: a falsy value is replaced by a new empty list. */
  function OrEmpty(v: Value): (r: Value)
    ensures Truthy(v) ==> r == v
    ensures !Truthy(v) ==> r == List([])
  {
    if Truthy(v) then v else List([])
  }

  /** `Place(**kw)`. */
  function New(kw: Payload, freshId: string, t1: nat, t2: nat): (r: Result<Place>)
    ensures Unexpected(kw, PlaceFields) ==> r == Err(TypeError(UnexpectedKeyword))
    ensures r.Ok? ==> && r.value.name == LookupOr(kw, "name", Str(""))
                      && r.value.description == LookupOr(kw, "description", Str(""))
                      && r.value.price == LookupOr(kw, "price", Num(0.0))
                      && r.value.latitude == LookupOr(kw, "latitude", Num(0.0))
                      && r.value.longitude == LookupOr(kw, "longitude", Num(0.0))
                      && r.value.ownerId == LookupOr(kw, "owner_id", Str(""))
                      && r.value.amenityIds == OrEmpty(Lookup(kw, "amenity_ids"))
                      && Ok(r.value.base) == BaseFrom(kw, freshId, t1, t2)
  {
    if Unexpected(kw, PlaceFields) then Err(TypeError(UnexpectedKeyword))
    else
      match BaseFrom(kw, freshId, t1, t2)
      case Err(e) => Err(e)
      case Ok(b) =>
        Ok(Place(b, LookupOr(kw, "name", Str("")), LookupOr(kw, "description", Str("")),
                 LookupOr(kw, "price", Num(0.0)), LookupOr(kw, "latitude", Num(0.0)),
                 LookupOr(kw, "longitude", Num(0.0)), LookupOr(kw, "owner_id", Str("")),
                 OrEmpty(Lookup(kw, "amenity_ids"))))
  }

  const NameRequired := "name is required"
  const NegativePrice := "price must be >= 0"
  const BadLatitude := "latitude must be in [-90,90]"
  const BadLongitude := "longitude must be in [-180,180]"
  const OwnerRequired := "owner_id is required"

  /** `lo <= v <= hi` in Python: a TypeError when v is not a number. */
  function InRange(v: Value, lo: real, hi: real, message: string): (r: Outcome)
    ensures r.Pass? <==> AsNumber(v).Some? && lo <= AsNumber(v).value <= hi
  {
    match Number(v)
    case Err(e) => Fail(e)
    case Ok(x) => if lo <= x <= hi then Pass else Fail(ValueError(message))
  }

  /** The checks shared by Place.validate in part3/hbnb/bl and part2/hbnb/bl, over the
      attribute values in the order they are checked. */
  function CheckPlace(name: Value, price: Value, latitude: Value, longitude: Value, ownerId: Value): (r: Outcome)
  {
    if !Truthy(name) then Fail(ValueError(NameRequired))
    else match Number(price)
      case Err(e) => Fail(e)
      case Ok(x) =>
        if x < 0.0 then Fail(ValueError(NegativePrice))
        else match InRange(latitude, -90.0, 90.0, BadLatitude)
          case Fail(e) => Fail(e)
          case Pass =>
            match InRange(longitude, -180.0, 180.0, BadLongitude)
            case Fail(e) => Fail(e)
            case Pass => if !Truthy(ownerId) then Fail(ValueError(OwnerRequired)) else Pass
  }

  /** Place.validate. */
  function Validate(p: Place): Outcome
  {
    CheckPlace(p.name, p.price, p.latitude, p.longitude, p.ownerId)
  }

  /** With numeric coordinates a place is valid exactly when its name and owner_id are
      non-empty, its price is at least 0 (0 included) and both coordinates lie in their
      closed ranges. */
  lemma ValidateMeaning(p: Place, price: real, lat: real, lon: real)
    requires AsNumber(p.price) == Some(price) && AsNumber(p.latitude) == Some(lat)
    requires AsNumber(p.longitude) == Some(lon)
    ensures Validate(p).Pass? <==>
              Truthy(p.name) && price >= 0.0 && -90.0 <= lat <= 90.0 && -180.0 <= lon <= 180.0
              && Truthy(p.ownerId)
  {
  }

  /** The first failing check decides the error: name, then price, latitude, longitude
      and owner_id. */
  lemma ValidateOrder(p: Place, price: real, lat: real, lon: real)
    requires AsNumber(p.price) == Some(price) && AsNumber(p.latitude) == Some(lat)
    requires AsNumber(p.longitude) == Some(lon)
    ensures !Truthy(p.name) ==> Validate(p) == Fail(ValueError(NameRequired))
    ensures Truthy(p.name) && price < 0.0 ==> Validate(p) == Fail(ValueError(NegativePrice))
    ensures (Truthy(p.name) && price >= 0.0 && !(-90.0 <= lat <= 90.0))
              ==> Validate(p) == Fail(ValueError(BadLatitude))
    ensures (Truthy(p.name) && price >= 0.0 && -90.0 <= lat <= 90.0 && !(-180.0 <= lon <= 180.0))
              ==> Validate(p) == Fail(ValueError(BadLongitude))
    ensures (Truthy(p.name) && price >= 0.0 && -90.0 <= lat <= 90.0 && -180.0 <= lon <= 180.0
             && !Truthy(p.ownerId))
              ==> Validate(p) == Fail(ValueError(OwnerRequired))
  {
  }

  /** A place built with a None amenity_ids, or none at all, holds an empty list. */
  lemma NoneAmenities(kw: Payload, freshId: string, t1: nat, t2: nat)
    requires !Unexpected(kw, PlaceFields) && "id" !in kw && Lookup(kw, "amenity_ids") == Null
    ensures New(kw, freshId, t1, t2).Ok? && New(kw, freshId, t1, t2).value.amenityIds == List([])
  {
  }

  /** Place.to_dict. */
  function ToDict(p: Place): (d: Payload)
    ensures d.Keys == BaseFields + PlaceFields
    ensures d["id"] == Str(p.base.id) && d["name"] == p.name && d["price"] == p.price
    ensures d["latitude"] == p.latitude && d["longitude"] == p.longitude
    ensures d["owner_id"] == p.ownerId && d["amenity_ids"] == p.amenityIds
    ensures d["description"] == p.description
    ensures d["created_at"] == p.base.createdAt && d["updated_at"] == p.base.updatedAt
  {
    BaseDict(p.base) + map["name" := p.name, "description" := p.description, "price" := p.price,
                           "latitude" := p.latitude, "longitude" := p.longitude,
                           "owner_id" := p.ownerId, "amenity_ids" := p.amenityIds]
  }

  /** A place's dict has no "owner" and no "amenities" key. */
  lemma ToDictLeavesRoom(p: Place)
    ensures "owner" !in ToDict(p) && "amenities" !in ToDict(p)
  {
  }

  /** What a constructed place keeps true: its amenity_ids is a truthy value or
      an empty list. */
  predicate Normal(p: Place)
  {
    Truthy(p.amenityIds) || p.amenityIds == List([])
  }

  lemma NewIsNormal(kw: Payload, freshId: string, t1: nat, t2: nat)
    requires New(kw, freshId, t1, t2).Ok?
    ensures Normal(New(kw, freshId, t1, t2).value)
  {
  }

  /** `Place(**p.to_dict())` rebuilds p exactly when p is normal. */
  lemma {:induction false} ToDictRoundTrip(p: Place, freshId: string, t1: nat, t2: nat)
    ensures New(ToDict(p), freshId, t1, t2) == Ok(p) <==> Normal(p)
  {
    var extra := map["name" := p.name, "description" := p.description, "price" := p.price,
                     "latitude" := p.latitude, "longitude" := p.longitude,
                     "owner_id" := p.ownerId, "amenity_ids" := p.amenityIds];
    BaseDictRoundTrip(p.base, extra, freshId, t1, t2);
    assert ToDict(p) == BaseDict(p.base) + extra;
    assert Lookup(ToDict(p), "amenity_ids") == p.amenityIds;
  }
}
