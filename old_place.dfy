/** Place of part3/app_old/models/place.py. The owner, the reviews and the amenities
    are object references in the source; here each is held as the referenced
    object's id, which identifies it. */
module OldPlace {
  import opened Common
  import opened OldBase

  datatype Place = Place(
    base: Base,
    title: Value,
    description: Value,
    price: Value,
    latitude: Value,
    longitude: Value,
    owner: Option<string>,
    ownerId: Option<string>,
    reviews: seq<string>,
    amenities: seq<string>)

  const TitleRequired := "title is required and must be a string"
  const TitleTooLong := "title must not exceed 100 characters"
  const DescriptionNotString := "description must be a string"
  const PriceNotNumber := "price must be a number"
  const PriceNotPositive := "price must be a positive value"
  const LatitudeNotNumber := "latitude must be a number"
  const LatitudeOutOfRange := "latitude must be between -90.0 and 90.0"
  const LongitudeNotNumber := "longitude must be a number"
  const LongitudeOutOfRange := "longitude must be between -180.0 and 180.0"
  const OwnerRequired := "owner is required and must be a valid User instance"
  const ReviewIsNone := "review cannot be None"
  const AmenityIsNone := "amenity cannot be None"

  /** A number within [lo, hi], ends included. */
  predicate InRange(v: Value, lo: real, hi: real)
  {
    AsNumber(v).Some? && lo <= AsNumber(v).value <= hi
  }

  ghost predicate ValidPlace(p: Place)
  {
    p.title.Str? && 0 < |p.title.s| <= 100
    && (p.description.Null? || p.description.Str?)
    && AsNumber(p.price).Some? && AsNumber(p.price).value > 0.0
    && InRange(p.latitude, -90.0, 90.0)
    && InRange(p.longitude, -180.0, 180.0)
    && p.owner.Some?
  }

  /** Place.validate: the checks in source order; the first failing one raises. */
  function Validate(p: Place): (r: Outcome)
    ensures r.Pass? <==> ValidPlace(p)
    ensures r.Fail? ==> r.error.ValueError?
  {
    if !(p.title.Str? && p.title.s != "") then Fail(ValueError(TitleRequired))
    else if |p.title.s| > 100 then Fail(ValueError(TitleTooLong))
    else if !(p.description.Null? || p.description.Str?) then Fail(ValueError(DescriptionNotString))
    else if AsNumber(p.price).None? then Fail(ValueError(PriceNotNumber))
    else if AsNumber(p.price).value <= 0.0 then Fail(ValueError(PriceNotPositive))
    else if AsNumber(p.latitude).None? then Fail(ValueError(LatitudeNotNumber))
    else if !(-90.0 <= AsNumber(p.latitude).value <= 90.0) then Fail(ValueError(LatitudeOutOfRange))
    else if AsNumber(p.longitude).None? then Fail(ValueError(LongitudeNotNumber))
    else if !(-180.0 <= AsNumber(p.longitude).value <= 180.0) then Fail(ValueError(LongitudeOutOfRange))
    else if p.owner.None? then Fail(ValueError(OwnerRequired))
    else Pass
  }

  /** The boundary cases the source's tests rely on: a 100-character title and the
      coordinate bounds themselves pass; a price of zero is rejected. */
  lemma ValidateBounds(p: Place)
    requires p.description.Null? && p.owner.Some?
    requires p.title.Str? && |p.title.s| == 100
    ensures p.price == Num(0.0) ==> Validate(p) == Fail(ValueError(PriceNotPositive))
    ensures p.price == Num(1.0) && p.latitude == Num(90.0) && p.longitude == Num(-180.0) ==> Validate(p) == Pass
  {
  }

  /** Place.__init__ on a freshly initialised base: owner_id is the owner's id when an
      owner is given and the owner_id argument otherwise; the lists start empty; the
      result is validated. */
  function Construct(b: Base, title: Value, price: Value, latitude: Value, longitude: Value,
                     owner: Option<string>, description: Value, ownerIdArg: Option<string>): (r: Result<Place>)
    ensures r.Ok? <==> Validate(Place(b, title, description, price, latitude, longitude, owner,
                                      if owner.Some? then owner else ownerIdArg, [], [])).Pass?
    ensures r.Ok? ==> ValidPlace(r.value) && r.value.ownerId == r.value.owner
    ensures r.Ok? ==> r.value.reviews == [] && r.value.amenities == [] && r.value.base == b
    ensures r.Ok? ==> r.value.title == title && r.value.description == description && r.value.price == price
                      && r.value.latitude == latitude && r.value.longitude == longitude
  {
    var p := Place(b, title, description, price, latitude, longitude, owner,
                   if owner.Some? then owner else ownerIdArg, [], []);
    match Validate(p)
    case Pass => Ok(p)
    case Fail(e) => Err(e)
  }

  /** Appends x unless it is already present (Python's `if x not in l: l.append(x)`). */
  function AppendNew(s: seq<string>, x: string): (r: seq<string>)
    ensures x in r
    ensures forall y :: y in r <==> y in s || y == x
    ensures x in s ==> r == s
    ensures x !in s ==> r == s + [x]
  {
    if x in s then s else s + [x]
  }

  lemma {:induction false} AppendNewKeepsNoDup(s: seq<string>, x: string)
    requires NoDup(s)
    ensures NoDup(AppendNew(s, x))
  {
    if x !in s {
      var r := s + [x];
      forall i, j | 0 <= i < j < |r| ensures r[i] != r[j] {
        if j == |s| {
          assert r[i] == s[i];
        }
      }
    }
  }

  /** Adding the items one by one with AppendNew, as a loop of add_* calls does. */
  function AppendAll(s: seq<string>, xs: seq<string>): (r: seq<string>)
    ensures forall y :: y in r <==> y in s || y in xs
  {
    if xs == [] then s else AppendNew(AppendAll(s, xs[..|xs| - 1]), xs[|xs| - 1])
  }

  /** The result keeps each item once and, for items already distinct, keeps them all in order. */
  lemma {:induction false} AppendAllProperties(s: seq<string>, xs: seq<string>)
    requires NoDup(s)
    ensures NoDup(AppendAll(s, xs))
    ensures NoDup(s + xs) ==> AppendAll(s, xs) == s + xs
  {
    if xs != [] {
      var init := xs[..|xs| - 1];
      AppendAllProperties(s, init);
      AppendNewKeepsNoDup(AppendAll(s, init), xs[|xs| - 1]);
      if NoDup(s + xs) {
        assert s + xs == (s + init) + [xs[|xs| - 1]];
        assert NoDup(s + init) by {
          forall i, j | 0 <= i < j < |s + init| ensures (s + init)[i] != (s + init)[j] {
            assert (s + init)[i] == (s + xs)[i] && (s + init)[j] == (s + xs)[j];
          }
        }
        assert xs[|xs| - 1] !in s + init by {
          forall i | 0 <= i < |s + init| ensures (s + init)[i] != xs[|xs| - 1] {
            assert (s + init)[i] == (s + xs)[i];
            assert xs[|xs| - 1] == (s + xs)[|s + xs| - 1];
          }
        }
      }
    }
  }

  /** Place.add_review: None is rejected; a review already present changes nothing;
      otherwise it is appended and the place is saved. */
  function AddReview(p: Place, review: Option<string>, now: nat): (r: Result<Place>)
    ensures review.None? <==> r == Err(ValueError(ReviewIsNone))
    ensures review.Some? && review.value in p.reviews ==> r == Ok(p)
    ensures review.Some? && review.value !in p.reviews ==>
              r == Ok(p.(reviews := p.reviews + [review.value], base := Save(p.base, now)))
  {
    match review
    case None => Err(ValueError(ReviewIsNone))
    case Some(id) =>
      if id in p.reviews then Ok(p)
      else Ok(p.(reviews := AppendNew(p.reviews, id), base := Save(p.base, now)))
  }

  /** Place.add_amenity, the same protocol over the amenity list. */
  function AddAmenity(p: Place, amenity: Option<string>, now: nat): (r: Result<Place>)
    ensures amenity.None? <==> r == Err(ValueError(AmenityIsNone))
    ensures amenity.Some? && amenity.value in p.amenities ==> r == Ok(p)
    ensures amenity.Some? && amenity.value !in p.amenities ==>
              r == Ok(p.(amenities := p.amenities + [amenity.value], base := Save(p.base, now)))
  {
    match amenity
    case None => Err(ValueError(AmenityIsNone))
    case Some(id) =>
      if id in p.amenities then Ok(p)
      else Ok(p.(amenities := AppendNew(p.amenities, id), base := Save(p.base, now)))
  }

  /** Two different amenities added to a fresh place give a list of length two holding both. */
  lemma TwoAmenities(p: Place, a: string, b: string, t1: nat, t2: nat)
    requires p.amenities == [] && a != b
    ensures AddAmenity(p, Some(a), t1).Ok?
    ensures AddAmenity(AddAmenity(p, Some(a), t1).value, Some(b), t2).Ok?
    ensures var q := AddAmenity(AddAmenity(p, Some(a), t1).value, Some(b), t2).value;
            q.amenities == [a, b] && |q.amenities| == 2
  {
  }

  /** Adding keeps the amenity and review lists free of repeats. */
  lemma {:induction false} AddKeepsNoDup(p: Place, x: Option<string>, now: nat)
    requires NoDup(p.reviews) && NoDup(p.amenities)
    ensures AddReview(p, x, now).Ok? ==> NoDup(AddReview(p, x, now).value.reviews)
    ensures AddAmenity(p, x, now).Ok? ==> NoDup(AddAmenity(p, x, now).value.amenities)
  {
    if x.Some? {
      AppendNewKeepsNoDup(p.reviews, x.value);
      AppendNewKeepsNoDup(p.amenities, x.value);
    }
  }

  const PlaceKeys: set<string> :=
    {"title", "description", "price", "latitude", "longitude", "owner_id", "reviews", "amenities"}

  /** Place.to_dict: the base keys plus the attributes, with the related reviews and
      amenities as lists of ids in insertion order. */
  function ToDict(p: Place): (d: Payload)
    ensures d.Keys == Protected + PlaceKeys
    ensures AsStrings(d["reviews"]) == Some(p.reviews) && AsStrings(d["amenities"]) == Some(p.amenities)
  {
    StrListRoundTrip(p.reviews);
    StrListRoundTrip(p.amenities);
    BaseDict(p.base) + map[
      "title" := p.title, "description" := p.description, "price" := p.price,
      "latitude" := p.latitude, "longitude" := p.longitude, "owner_id" := OptStr(p.ownerId),
      "reviews" := StrList(p.reviews), "amenities" := StrList(p.amenities)]
  }

  /** Rebuilds a place from its dict; the owner reference is taken to be the owner_id. */
  function FromDict(d: Payload): Option<Place>
  {
    match BaseFromDict(d)
    case None => None
    case Some(b) =>
      if PlaceKeys <= d.Keys && AsOptStr(d["owner_id"]).Some?
         && AsStrings(d["reviews"]).Some? && AsStrings(d["amenities"]).Some?
      then
        var ownerId := AsOptStr(d["owner_id"]).value;
        Some(Place(b, d["title"], d["description"], d["price"], d["latitude"], d["longitude"],
                   ownerId, ownerId, AsStrings(d["reviews"]).value, AsStrings(d["amenities"]).value))
      else None
  }

  /** to_dict loses nothing but the owner reference, which agrees with owner_id on every
      place the constructor builds. */
  lemma {:induction false} ToDictRoundTrip(p: Place)
    requires p.owner == p.ownerId
    ensures FromDict(ToDict(p)) == Some(p)
  {
    var extra := map[
      "title" := p.title, "description" := p.description, "price" := p.price,
      "latitude" := p.latitude, "longitude" := p.longitude, "owner_id" := OptStr(p.ownerId),
      "reviews" := StrList(p.reviews), "amenities" := StrList(p.amenities)];
    BaseDictRoundTrip(p.base, extra);
  }
}
