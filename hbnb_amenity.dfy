/** Amenity of part3/hbnb/bl/amenity.py: a name on top of BaseModel. */
module HbnbAmenity {
  import opened Common
  import opened HbnbBase

  datatype Amenity = Amenity(base: HBase, name: Value)

  const AmenityFields: set<string> := {"name"}

  /** `Amenity(**kw)`. */
  function New(kw: Payload, freshId: string, t1: nat, t2: nat): (r: Result<Amenity>)
    ensures Unexpected(kw, AmenityFields) ==> r == Err(TypeError(UnexpectedKeyword))
    ensures r.Ok? ==> r.value.name == LookupOr(kw, "name", Str(""))
                      && Ok(r.value.base) == BaseFrom(kw, freshId, t1, t2)
  {
    if Unexpected(kw, AmenityFields) then Err(TypeError(UnexpectedKeyword))
    else
      match BaseFrom(kw, freshId, t1, t2)
      case Err(e) => Err(e)
      case Ok(b) => Ok(Amenity(b, LookupOr(kw, "name", Str(""))))
  }

  const NameRequired := "name is required"

  /** Amenity.validate. */
  function Validate(a: Amenity): Outcome
  {
    if !Truthy(a.name) then Fail(ValueError(NameRequired)) else Pass
  }

  /** Any non-empty string name passes, however long, and the base is never looked at;
      the default name fails. */
  lemma ValidateMeaning(a: Amenity, s: string, b: HBase)
    ensures Validate(a.(name := Str(s))).Pass? <==> s != ""
    ensures Validate(a.(base := b)) == Validate(a)
    ensures Validate(Amenity(b, Str(""))) == Fail(ValueError(NameRequired))
  {
  }

  /** Amenity.to_dict: exactly the id, the name and the two timestamps. */
  function ToDict(a: Amenity): (d: Payload)
    ensures d.Keys == {"id", "name", "created_at", "updated_at"}
    ensures d["id"] == Str(a.base.id) && d["name"] == a.name
    ensures d["created_at"] == a.base.createdAt && d["updated_at"] == a.base.updatedAt
  {
    BaseDict(a.base)["name" := a.name]
  }

  /** `Amenity(**a.to_dict())` gives a back. */
  lemma {:induction false} ToDictRoundTrip(a: Amenity, freshId: string, t1: nat, t2: nat)
    ensures New(ToDict(a), freshId, t1, t2) == Ok(a)
  {
    BaseDictRoundTrip(a.base, map["name" := a.name], freshId, t1, t2);
    assert ToDict(a) == BaseDict(a.base) + map["name" := a.name];
  }
}
