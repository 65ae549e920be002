/** Amenity of part2/app/models/amenity.py, a subclass of the same BaseModel. */
module OldAmenity {
  import opened Common
  import opened OldBase

  datatype Amenity = Amenity(base: Base, name: Value)

  const NameRequired := "name is required and must be a string"
  const NameTooLong := "name must not exceed 50 characters"

  ghost predicate ValidAmenity(a: Amenity)
  {
    a.name.Str? && 0 < |a.name.s| <= 50
  }

  /** Amenity.validate: a non-empty string of at most 50 characters. */
  function Validate(a: Amenity): (o: Outcome)
    ensures o.Pass? <==> ValidAmenity(a)
    ensures a.name == Str("") ==> o == Fail(ValueError(NameRequired))
    ensures a.name.Str? && |a.name.s| > 50 ==> o == Fail(ValueError(NameTooLong))
  {
    if !(a.name.Str? && a.name.s != "") then Fail(ValueError(NameRequired))
    else if |a.name.s| > 50 then Fail(ValueError(NameTooLong))
    else Pass
  }

  /** Amenity.__init__ on a freshly initialised base, validated before it is returned. */
  function Construct(b: Base, name: Value): (r: Result<Amenity>)
    ensures r.Ok? <==> ValidAmenity(Amenity(b, name))
    ensures r.Ok? ==> r.value == Amenity(b, name)
    ensures r.Err? ==> r.error.ValueError?
  {
    match Validate(Amenity(b, name))
    case Pass => Ok(Amenity(b, name))
    case Fail(e) => Err(e)
  }

  /** Amenity.to_dict: the base keys plus name. */
  function ToDict(a: Amenity): (d: Payload)
    ensures d.Keys == Protected + {"name"}
  {
    BaseDict(a.base) + map["name" := a.name]
  }

  function FromDict(d: Payload): Option<Amenity>
  {
    match BaseFromDict(d)
    case None => None
    case Some(b) => if "name" in d then Some(Amenity(b, d["name"])) else None
  }

  /** to_dict is lossless: in particular its name is the constructor's argument. */
  lemma {:induction false} ToDictRoundTrip(a: Amenity)
    ensures FromDict(ToDict(a)) == Some(a)
  {
    BaseDictRoundTrip(a.base, map["name" := a.name]);
  }
}
