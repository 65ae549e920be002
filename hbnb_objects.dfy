/** The four entity classes of part3/hbnb/bl as one sum type, with what the repository
    and the facade do to any of them: the class name that picks a bucket, the id, the
    setattr loop of the update_* methods, touch, validate and to_dict. */
module HbnbObjects {
  import opened Common
  import opened HbnbBase
  import HbnbUser
  import HbnbPlace
  import HbnbReview
  import HbnbAmenity

  datatype HObj =
    | UserO(user: HbnbUser.User)
    | PlaceO(place: HbnbPlace.Place)
    | ReviewO(review: HbnbReview.Review)
    | AmenityO(amenity: HbnbAmenity.Amenity)

  /** `type(obj).__name__`. */
  function ClassName(o: HObj): string
  {
    match o
    case UserO(_) => "User"
    case PlaceO(_) => "Place"
    case ReviewO(_) => "Review"
    case AmenityO(_) => "Amenity"
  }

  function BaseOf(o: HObj): HBase
  {
    match o
    case UserO(u) => u.base
    case PlaceO(p) => p.base
    case ReviewO(r) => r.base
    case AmenityO(a) => a.base
  }

  function Id(o: HObj): string
  {
    BaseOf(o).id
  }

  /** The entity's to_dict(): for each of the four classes every attribute it has. */
  function ToDict(o: HObj): (d: Payload)
    ensures BaseFields <= d.Keys
    ensures d["id"] == Str(Id(o)) && d["created_at"] == BaseOf(o).createdAt
    ensures d["updated_at"] == BaseOf(o).updatedAt
  {
    match o
    case UserO(u) => HbnbUser.ToDict(u)
    case PlaceO(p) => HbnbPlace.ToDict(p)
    case ReviewO(r) => HbnbReview.ToDict(r)
    case AmenityO(a) => HbnbAmenity.ToDict(a)
  }

  /** The validate() of the object's class. */
  function ValidateObj(o: HObj): Outcome
  {
    match o
    case UserO(u) => HbnbUser.Validate(u)
    case PlaceO(p) => HbnbPlace.Validate(p)
    case ReviewO(r) => HbnbReview.Validate(r)
    case AmenityO(a) => HbnbAmenity.Validate(a)
  }

  function PatchBase(b: HBase, m: Payload): HBase
  {
    b.(createdAt := LookupOr(m, "created_at", b.createdAt),
       updatedAt := LookupOr(m, "updated_at", b.updatedAt))
  }

  /** The object after `setattr(o, k, v)` for every item of m except "id": each attribute
      named in m takes its value there. A key that is no attribute of the class
      becomes an instance attribute that neither validate nor to_dict reads, so it is
      not represented. */
  function Patch(o: HObj, m: Payload): (r: HObj)
  {
    match o
    case UserO(u) => UserO(u.(
      base := PatchBase(u.base, m),
      email := LookupOr(m, "email", u.email),
      password := LookupOr(m, "password", u.password),
      firstName := LookupOr(m, "first_name", u.firstName),
      lastName := LookupOr(m, "last_name", u.lastName)))
    case PlaceO(p) => PlaceO(p.(
      base := PatchBase(p.base, m),
      name := LookupOr(m, "name", p.name),
      description := LookupOr(m, "description", p.description),
      price := LookupOr(m, "price", p.price),
      latitude := LookupOr(m, "latitude", p.latitude),
      longitude := LookupOr(m, "longitude", p.longitude),
      ownerId := LookupOr(m, "owner_id", p.ownerId),
      amenityIds := LookupOr(m, "amenity_ids", p.amenityIds)))
    case ReviewO(r) => ReviewO(r.(
      base := PatchBase(r.base, m),
      text := LookupOr(m, "text", r.text),
      userId := LookupOr(m, "user_id", r.userId),
      placeId := LookupOr(m, "place_id", r.placeId),
      rating := LookupOr(m, "rating", r.rating)))
    case AmenityO(a) => AmenityO(a.(
      base := PatchBase(a.base, m),
      name := LookupOr(m, "name", a.name)))
  }

  /** A dict whose every entry but the id is looked up in m first is d overlaid with m. */
  lemma {:induction false} Overlay(d: Payload, m: Payload, e: Payload)
    requires e.Keys == d.Keys && "id" in d && e["id"] == d["id"]
    requires forall k :: k in d && k != "id" ==> e[k] == LookupOr(m, k, d[k])
    ensures e == d + Restrict(m, d.Keys - {"id"})
  {
    var want := d + Restrict(m, d.Keys - {"id"});
    assert e.Keys == want.Keys;
    forall k | k in e.Keys ensures e[k] == want[k] {
      if k != "id" {
        assert e[k] == LookupOr(m, k, d[k]);
      }
    }
  }

  /** Patching looks each non-id entry of the to_dict view up in m first; one lemma
      per class keeps each proof small. */
  lemma {:induction false} PatchUser(u: HbnbUser.User, m: Payload, k: string)
    requires k in HbnbUser.ToDict(u) && k != "id"
    ensures ToDict(Patch(UserO(u), m))[k] == LookupOr(m, k, HbnbUser.ToDict(u)[k])
  {
    if k == "created_at" {
    } else if k == "updated_at" {
    } else if k == "email" {
    } else if k == "password" {
    } else if k == "first_name" {
    } else {
      assert k == "last_name";
    }
  }

  lemma {:induction false} PatchPlace(p: HbnbPlace.Place, m: Payload, k: string)
    requires k in HbnbPlace.ToDict(p) && k != "id"
    ensures ToDict(Patch(PlaceO(p), m))[k] == LookupOr(m, k, HbnbPlace.ToDict(p)[k])
  {
    if k == "created_at" {
    } else if k == "updated_at" {
    } else if k == "name" {
    } else if k == "description" {
    } else if k == "price" {
    } else if k == "latitude" {
    } else if k == "longitude" {
    } else if k == "owner_id" {
    } else {
      assert k == "amenity_ids";
    }
  }

  lemma {:induction false} PatchReview(r: HbnbReview.Review, m: Payload, k: string)
    requires k in HbnbReview.ToDict(r) && k != "id"
    ensures ToDict(Patch(ReviewO(r), m))[k] == LookupOr(m, k, HbnbReview.ToDict(r)[k])
  {
    if k == "created_at" {
    } else if k == "updated_at" {
    } else if k == "text" {
    } else if k == "user_id" {
    } else if k == "place_id" {
    } else {
      assert k == "rating";
    }
  }

  lemma {:induction false} PatchAmenity(a: HbnbAmenity.Amenity, m: Payload, k: string)
    requires k in HbnbAmenity.ToDict(a) && k != "id"
    ensures ToDict(Patch(AmenityO(a), m))[k] == LookupOr(m, k, HbnbAmenity.ToDict(a)[k])
  {
    if k == "created_at" {
    } else if k == "updated_at" {
    } else {
      assert k == "name";
    }
  }

  lemma {:induction false} PatchPointwise(o: HObj, m: Payload, k: string)
    requires k in ToDict(o) && k != "id"
    ensures ToDict(Patch(o, m))[k] == LookupOr(m, k, ToDict(o)[k])
  {
    match o
    case UserO(u) => PatchUser(u, m, k);
    case PlaceO(p) => PatchPlace(p, m, k);
    case ReviewO(r) => PatchReview(r, m, k);
    case AmenityO(a) => PatchAmenity(a, m, k);
  }

  /** What a patch does, seen through to_dict: every attribute but the id that m names
      takes m's value, all others keep theirs, and the class and the id stay. */
  lemma {:induction false} PatchEffect(o: HObj, m: Payload)
    ensures ClassName(Patch(o, m)) == ClassName(o) && Id(Patch(o, m)) == Id(o)
    ensures ToDict(Patch(o, m)) == ToDict(o) + Restrict(m, ToDict(o).Keys - {"id"})
  {
    var d := ToDict(o);
    var e := ToDict(Patch(o, m));
    assert Id(Patch(o, m)) == Id(o) by {
      match o
      case UserO(_) =>
      case PlaceO(_) =>
      case ReviewO(_) =>
      case AmenityO(_) =>
    }
    forall k | k in d && k != "id" ensures e[k] == LookupOr(m, k, d[k]) {
      PatchPointwise(o, m, k);
    }
    assert e.Keys == d.Keys by {
      match o
      case UserO(_) =>
      case PlaceO(_) =>
      case ReviewO(_) =>
      case AmenityO(_) =>
    }
    Overlay(d, m, e);
  }

  /** The to_dict view determines the object within its class. */
  lemma {:induction false} ToDictInjective(a: HObj, b: HObj)
    requires ClassName(a) == ClassName(b) && ToDict(a) == ToDict(b)
    ensures a == b
  {
    var d := ToDict(a);
    assert d["id"] == Str(Id(a)) && d["id"] == Str(Id(b));
    match a
    case UserO(u) =>
      assert d["email"] == u.email && d["first_name"] == u.firstName && d["last_name"] == u.lastName;
    case PlaceO(p) =>
      assert d["description"] == p.description;
    case ReviewO(_) =>
    case AmenityO(_) =>
  }

  /** One setattr(o, k, v). */
  function SetAttr(o: HObj, k: string, v: Value): HObj
  {
    Patch(o, map[k := v])
  }

  /** One more setattr on a key not yet applied extends the patch by that key. */
  lemma {:induction false} PatchStep(o: HObj, m: Payload, k: string, v: Value)
    requires k !in m
    ensures SetAttr(Patch(o, m), k, v) == Patch(o, m[k := v])
  {
    match o
    case UserO(_) =>
    case PlaceO(_) =>
    case ReviewO(_) =>
    case AmenityO(_) =>
  }

  lemma PatchEmpty(o: HObj)
    ensures Patch(o, map[]) == o
  {
  }

  /** The dict minus its "id" entry. */
  function WithoutId(m: Payload): (r: Payload)
    ensures r.Keys == m.Keys - {"id"}
    ensures forall k :: k in r ==> r[k] == m[k]
  {
    Restrict(m, m.Keys - {"id"})
  }

  /** The loop of the update_* methods: every item of the payload except "id" is set on
      the object, one setattr per key. */
  method SetAll(o: HObj, payload: Payload) returns (r: HObj)
    ensures r == Patch(o, WithoutId(payload))
  {
    r := o;
    var todo := payload.Keys;
    PatchEmpty(o);
    assert Restrict(payload, (payload.Keys - todo) - {"id"}) == map[];
    while todo != {}
      invariant todo <= payload.Keys
      invariant r == Patch(o, Restrict(payload, (payload.Keys - todo) - {"id"}))
      decreases |todo|
    {
      var k :| k in todo;
      ghost var done := Restrict(payload, (payload.Keys - todo) - {"id"});
      if k != "id" {
        PatchStep(o, done, k, payload[k]);
        r := SetAttr(r, k, payload[k]);
        assert done[k := payload[k]] == Restrict(payload, (payload.Keys - (todo - {k})) - {"id"});
      } else {
        assert done == Restrict(payload, (payload.Keys - (todo - {k})) - {"id"});
      }
      todo := todo - {k};
    }
    assert Restrict(payload, (payload.Keys - todo) - {"id"}) == WithoutId(payload);
  }

  /** obj.touch(). */
  function TouchObj(o: HObj, now: nat): (r: HObj)
    ensures ClassName(r) == ClassName(o) && Id(r) == Id(o)
  {
    match o
    case UserO(u) => UserO(u.(base := Touch(u.base, now)))
    case PlaceO(p) => PlaceO(p.(base := Touch(p.base, now)))
    case ReviewO(r) => ReviewO(r.(base := Touch(r.base, now)))
    case AmenityO(a) => AmenityO(a.(base := Touch(a.base, now)))
  }

  /** touch() changes updated_at alone, and validate() never looks at it. */
  lemma {:induction false} TouchEffect(o: HObj, now: nat)
    ensures ToDict(TouchObj(o, now)) == ToDict(o)["updated_at" := Stamp(now)]
    ensures ValidateObj(TouchObj(o, now)) == ValidateObj(o)
  {
    var d := ToDict(o);
    var e := ToDict(TouchObj(o, now));
    assert e.Keys == d["updated_at" := Stamp(now)].Keys;
    forall k | k in e.Keys ensures e[k] == d["updated_at" := Stamp(now)][k] {
      match o
      case UserO(_) =>
      case PlaceO(_) =>
      case ReviewO(_) =>
      case AmenityO(_) =>
    }
  }
}
