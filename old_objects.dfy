/** The entities of the app_old iteration as one type, with Python's hasattr, getattr
    and setattr over their data attributes, and BaseModel.update
    (part3/app_old/models/base.py), which works through them.

    Attributes that validate() type-checks hold any value, so setattr on them is a
    plain assignment. The others hold typed values (the id, the timestamps, the
    references and the id lists); setattr of a value of another type on one of those
    is not represented and leaves the attribute as it was (see Fits). */
module OldObjects {
  import opened Common
  import opened OldBase
  import OldUser
  import OldPlace
  import OldReview
  import OldAmenity

  datatype Obj =
    | UserObj(user: OldUser.User)
    | PlaceObj(place: OldPlace.Place)
    | ReviewObj(review: OldReview.Review)
    | AmenityObj(amenity: OldAmenity.Amenity)

  function BaseOf(o: Obj): Base
  {
    match o
    case UserObj(u) => u.base
    case PlaceObj(p) => p.base
    case ReviewObj(r) => r.base
    case AmenityObj(a) => a.base
  }

  function Id(o: Obj): string { BaseOf(o).id }

  /** The same object with its base attributes replaced. */
  function WithBase(o: Obj, b: Base): (r: Obj)
    ensures BaseOf(r) == b && SameClass(o, r)
  {
    match o
    case UserObj(u) => UserObj(u.(base := b))
    case PlaceObj(p) => PlaceObj(p.(base := b))
    case ReviewObj(r) => ReviewObj(r.(base := b))
    case AmenityObj(a) => AmenityObj(a.(base := b))
  }

  /** type(o).__name__. */
  function ClassName(o: Obj): string
  {
    match o
    case UserObj(_) => "User"
    case PlaceObj(_) => "Place"
    case ReviewObj(_) => "Review"
    case AmenityObj(_) => "Amenity"
  }

  predicate SameClass(a: Obj, b: Obj)
  {
    (a.UserObj? && b.UserObj?) || (a.PlaceObj? && b.PlaceObj?)
    || (a.ReviewObj? && b.ReviewObj?) || (a.AmenityObj? && b.AmenityObj?)
  }

  /** BaseModel.save on any entity. */
  function Touch(o: Obj, now: nat): (r: Obj)
    ensures SameClass(o, r) && BaseOf(r) == Save(BaseOf(o), now)
  {
    WithBase(o, Save(BaseOf(o), now))
  }

  const UserAttrs: set<string> := {"email", "first_name", "last_name", "is_admin"}
  const PlaceAttrs: set<string> :=
    {"title", "description", "price", "latitude", "longitude", "owner", "owner_id", "reviews", "amenities"}
  const ReviewAttrs: set<string> := {"text", "rating", "place", "user", "place_id", "user_id"}
  const AmenityAttrs: set<string> := {"name"}

  /** The data attributes of an object: the base ones and those of its class. */
  function Attrs(o: Obj): set<string>
  {
    Protected + match o
      case UserObj(_) => UserAttrs
      case PlaceObj(_) => PlaceAttrs
      case ReviewObj(_) => ReviewAttrs
      case AmenityObj(_) => AmenityAttrs
  }

  predicate HasAttr(o: Obj, k: string) { k in Attrs(o) }

  /** getattr(o, k) as a payload value. */
  function GetAttr(o: Obj, k: string): Value
    requires HasAttr(o, k)
  {
    if k == "id" then Str(BaseOf(o).id)
    else if k == "created_at" then Int(BaseOf(o).createdAt)
    else if k == "updated_at" then Int(BaseOf(o).updatedAt)
    else match o
      case UserObj(u) =>
        if k == "email" then u.email
        else if k == "first_name" then u.firstName
        else if k == "last_name" then u.lastName
        else u.isAdmin
      case PlaceObj(p) =>
        if k == "title" then p.title
        else if k == "description" then p.description
        else if k == "price" then p.price
        else if k == "latitude" then p.latitude
        else if k == "longitude" then p.longitude
        else if k == "owner" then OptStr(p.owner)
        else if k == "owner_id" then OptStr(p.ownerId)
        else if k == "reviews" then StrList(p.reviews)
        else StrList(p.amenities)
      case ReviewObj(r) =>
        if k == "text" then r.text
        else if k == "rating" then r.rating
        else if k == "place" then OptStr(r.place)
        else if k == "user" then OptStr(r.user)
        else if k == "place_id" then OptStr(r.placeId)
        else OptStr(r.userId)
      case AmenityObj(a) => a.name
  }

  // Assignment to a typed attribute: a value of the attribute's type is taken,
  // any other value leaves it unchanged.
  function AssignStr(cur: string, v: Value): string { if v.Str? then v.s else cur }
  function AssignTime(cur: nat, v: Value): nat { if v.Int? && v.i >= 0 then v.i else cur }
  function AssignRef(cur: Option<string>, v: Value): Option<string>
  {
    if AsOptStr(v).Some? then AsOptStr(v).value else cur
  }
  function AssignIds(cur: seq<string>, v: Value): seq<string>
  {
    if AsStrings(v).Some? then AsStrings(v).value else cur
  }

  /** Whether setattr(o, k, v) is represented: always for the value-typed attributes. */
  predicate Fits(k: string, v: Value)
  {
    if k == "id" then v.Str?
    else if k == "created_at" || k == "updated_at" then v.Int? && v.i >= 0
    else if k in {"owner", "owner_id", "place", "user", "place_id", "user_id"} then AsOptStr(v).Some?
    else if k == "reviews" || k == "amenities" then AsStrings(v).Some?
    else true
  }

  /** The attributes a patch dict m sets, each key once: the closed form of any
      sequence of setattr calls over distinct keys of m. Keys that are not
      attributes are ignored. */
  function PatchBase(b: Base, m: Payload): Base
  {
    Base(if "id" in m then AssignStr(b.id, m["id"]) else b.id,
         if "created_at" in m then AssignTime(b.createdAt, m["created_at"]) else b.createdAt,
         if "updated_at" in m then AssignTime(b.updatedAt, m["updated_at"]) else b.updatedAt)
  }

  function Patch(o: Obj, m: Payload): (r: Obj)
    ensures SameClass(o, r)
  {
    match o
    case UserObj(u) => UserObj(u.(
      base := PatchBase(u.base, m),
      email := LookupOr(m, "email", u.email),
      firstName := LookupOr(m, "first_name", u.firstName),
      lastName := LookupOr(m, "last_name", u.lastName),
      isAdmin := LookupOr(m, "is_admin", u.isAdmin)))
    case PlaceObj(p) => PlaceObj(p.(
      base := PatchBase(p.base, m),
      title := LookupOr(m, "title", p.title),
      description := LookupOr(m, "description", p.description),
      price := LookupOr(m, "price", p.price),
      latitude := LookupOr(m, "latitude", p.latitude),
      longitude := LookupOr(m, "longitude", p.longitude),
      owner := if "owner" in m then AssignRef(p.owner, m["owner"]) else p.owner,
      ownerId := if "owner_id" in m then AssignRef(p.ownerId, m["owner_id"]) else p.ownerId,
      reviews := if "reviews" in m then AssignIds(p.reviews, m["reviews"]) else p.reviews,
      amenities := if "amenities" in m then AssignIds(p.amenities, m["amenities"]) else p.amenities))
    case ReviewObj(r) => ReviewObj(r.(
      base := PatchBase(r.base, m),
      text := LookupOr(m, "text", r.text),
      rating := LookupOr(m, "rating", r.rating),
      place := if "place" in m then AssignRef(r.place, m["place"]) else r.place,
      user := if "user" in m then AssignRef(r.user, m["user"]) else r.user,
      placeId := if "place_id" in m then AssignRef(r.placeId, m["place_id"]) else r.placeId,
      userId := if "user_id" in m then AssignRef(r.userId, m["user_id"]) else r.userId))
    case AmenityObj(a) => AmenityObj(a.(base := PatchBase(a.base, m), name := LookupOr(m, "name", a.name)))
  }

  /** setattr(o, k, v) for one key: the patch of the single-entry dict. */
  function SetAttr(o: Obj, k: string, v: Value): (r: Obj)
    ensures SameClass(o, r)
  {
    Patch(o, map[k := v])
  }

  /** What a patch does, attribute by attribute: an attribute named in m takes its
      value there when that value fits it, and every other attribute keeps its value. */
  lemma {:induction false} PatchGetAttr(o: Obj, m: Payload, k: string)
    requires HasAttr(o, k)
    ensures HasAttr(Patch(o, m), k)
    ensures GetAttr(Patch(o, m), k) == if k in m && Fits(k, m[k]) then m[k] else GetAttr(o, k)
  {
    assert Attrs(Patch(o, m)) == Attrs(o);
    if k in Protected {
      PatchGetBase(o, m, k);
    } else {
      match o
      case UserObj(u) => PatchGetUser(u, m, k);
      case PlaceObj(p) => PatchGetPlace(p, m, k);
      case ReviewObj(r) => PatchGetReview(r, m, k);
      case AmenityObj(a) =>
    }
  }

  lemma PatchGetBase(o: Obj, m: Payload, k: string)
    requires k in Protected
    ensures GetAttr(Patch(o, m), k) == if k in m && Fits(k, m[k]) then m[k] else GetAttr(o, k)
  {
    assert BaseOf(Patch(o, m)) == PatchBase(BaseOf(o), m);
  }

  lemma PatchGetUser(u: OldUser.User, m: Payload, k: string)
    requires k in UserAttrs
    ensures GetAttr(Patch(UserObj(u), m), k) == if k in m && Fits(k, m[k]) then m[k] else GetAttr(UserObj(u), k)
  {
  }

  lemma PatchGetPlace(p: OldPlace.Place, m: Payload, k: string)
    requires k in PlaceAttrs
    ensures GetAttr(Patch(PlaceObj(p), m), k) == if k in m && Fits(k, m[k]) then m[k] else GetAttr(PlaceObj(p), k)
  {
    if k in m && (k == "reviews" || k == "amenities") && AsStrings(m[k]).Some? {
      assert m[k] == StrList(AsStrings(m[k]).value);
    }
  }

  lemma PatchGetReview(r: OldReview.Review, m: Payload, k: string)
    requires k in ReviewAttrs
    ensures GetAttr(Patch(ReviewObj(r), m), k) == if k in m && Fits(k, m[k]) then m[k] else GetAttr(ReviewObj(r), k)
  {
  }

  /** One more setattr on a key not yet in the patch extends the patch by that key;
      repeating a key of the patch with the same value changes nothing. */
  lemma {:induction false} PatchStep(o: Obj, m: Payload, k: string, v: Value)
    requires k !in m || m[k] == v
    ensures SetAttr(Patch(o, m), k, v) == Patch(o, m[k := v])
  {
    PatchBaseStep(BaseOf(o), m, k, v);
    match o
    case UserObj(u) =>
    case PlaceObj(p) => PatchPlaceStep(p, m, k, v);
    case ReviewObj(r) => PatchReviewStep(r, m, k, v);
    case AmenityObj(a) =>
  }

  lemma PatchBaseStep(b: Base, m: Payload, k: string, v: Value)
    requires k !in m || m[k] == v
    ensures PatchBase(PatchBase(b, m), map[k := v]) == PatchBase(b, m[k := v])
  {
  }

  /** The step for one typed reference attribute. */
  lemma RefStep(cur: Option<string>, m: Payload, key: string, k: string, v: Value)
    requires k !in m || m[k] == v
    ensures (var x := if key in m then AssignRef(cur, m[key]) else cur;
             if key in map[k := v] then AssignRef(x, v) else x)
            == if key in m[k := v] then AssignRef(cur, m[k := v][key]) else cur
  {
  }

  /** The step for one typed id-list attribute. */
  lemma IdsStep(cur: seq<string>, m: Payload, key: string, k: string, v: Value)
    requires k !in m || m[k] == v
    ensures (var x := if key in m then AssignIds(cur, m[key]) else cur;
             if key in map[k := v] then AssignIds(x, v) else x)
            == if key in m[k := v] then AssignIds(cur, m[k := v][key]) else cur
  {
  }

  lemma {:induction false} PatchPlaceStep(p: OldPlace.Place, m: Payload, k: string, v: Value)
    requires k !in m || m[k] == v
    ensures SetAttr(Patch(PlaceObj(p), m), k, v) == Patch(PlaceObj(p), m[k := v])
  {
    PatchBaseStep(p.base, m, k, v);
    RefStep(p.owner, m, "owner", k, v);
    RefStep(p.ownerId, m, "owner_id", k, v);
    IdsStep(p.reviews, m, "reviews", k, v);
    IdsStep(p.amenities, m, "amenities", k, v);
  }

  lemma {:induction false} PatchReviewStep(r: OldReview.Review, m: Payload, k: string, v: Value)
    requires k !in m || m[k] == v
    ensures SetAttr(Patch(ReviewObj(r), m), k, v) == Patch(ReviewObj(r), m[k := v])
  {
    PatchBaseStep(r.base, m, k, v);
    RefStep(r.place, m, "place", k, v);
    RefStep(r.user, m, "user", k, v);
    RefStep(r.placeId, m, "place_id", k, v);
    RefStep(r.userId, m, "user_id", k, v);
  }

  lemma PatchEmpty(o: Obj)
    ensures Patch(o, map[]) == o
  {
  }

  /** The setattr loop shared by BaseModel.update, InMemoryRepository.update and the
      facade's whitelisted updates: every key of data that the object has as an
      attribute and that is allowed is set, each once, in any order. */
  method SetAttrs(o: Obj, data: Payload, allowed: set<string>) returns (r: Obj)
    ensures r == Patch(o, Restrict(data, Attrs(o) * allowed))
  {
    r := o;
    var todo := data.Keys;
    var use := Attrs(o) * allowed;
    PatchEmpty(o);
    assert Restrict(data, (data.Keys - todo) * use) == map[];
    while todo != {}
      invariant todo <= data.Keys
      invariant r == Patch(o, Restrict(data, (data.Keys - todo) * use))
      decreases |todo|
    {
      var k :| k in todo;
      ghost var done := Restrict(data, (data.Keys - todo) * use);
      RestrictStep(data, todo, use, k);
      if k in use {
        PatchStep(o, done, k, data[k]);
        r := SetAttr(r, k, data[k]);
      }
      todo := todo - {k};
    }
    assert (data.Keys - todo) * use == data.Keys * use;
    assert Restrict(data, (data.Keys - todo) * use) == Restrict(data, use);
  }

  /** Taking one more key out of the to-do set grows the applied part of the dict by
      that key when it is used, and leaves it as it was otherwise. */
  lemma RestrictStep(data: Payload, todo: set<string>, use: set<string>, k: string)
    requires k in todo && todo <= data.Keys
    ensures k !in Restrict(data, (data.Keys - todo) * use)
    ensures k in use ==>
              Restrict(data, (data.Keys - todo) * use)[k := data[k]] == Restrict(data, (data.Keys - (todo - {k})) * use)
    ensures k !in use ==>
              Restrict(data, (data.Keys - todo) * use) == Restrict(data, (data.Keys - (todo - {k})) * use)
  {
    assert (data.Keys - (todo - {k})) * use == if k in use then (data.Keys - todo) * use + {k} else (data.Keys - todo) * use;
  }

  /** BaseModel.update: set the applicable attributes, then save. */
  method Update(o: Obj, data: Payload, now: nat) returns (r: Obj)
    ensures r == Touch(Patch(o, Restrict(data, Attrs(o) - Protected)), now)
  {
    r := SetAttrs(o, data, Attrs(o) - Protected);
    assert Attrs(o) * (Attrs(o) - Protected) == Attrs(o) - Protected;
    r := Touch(r, now);
  }

  /** What BaseModel.update promises: the id and created_at never change through the
      dict, updated_at is refreshed even when no key applies, keys the object lacks are
      ignored, and every other attribute named in the dict takes the value when it fits. */
  lemma {:induction false} UpdateEffect(o: Obj, data: Payload, now: nat, k: string)
    requires HasAttr(o, k)
    ensures var r := Touch(Patch(o, Restrict(data, Attrs(o) - Protected)), now);
            Id(r) == Id(o) && BaseOf(r).createdAt == BaseOf(o).createdAt && BaseOf(r).updatedAt == now
            && Attrs(r) == Attrs(o)
            && (k !in Protected ==>
                  GetAttr(r, k) == if k in data && Fits(k, data[k]) then data[k] else GetAttr(o, k))
  {
    var m := Restrict(data, Attrs(o) - Protected);
    PatchGetAttr(o, m, k);
    var p := Patch(o, m);
    assert "id" !in m && "created_at" !in m;
    if k !in Protected {
      assert GetAttr(Touch(p, now), k) == GetAttr(p, k) by {
        match p
        case UserObj(_) =>
        case PlaceObj(_) =>
        case ReviewObj(_) =>
        case AmenityObj(_) =>
      }
    }
  }

  /** The validate() of the object's class. */
  function ValidateObj(o: Obj): Outcome
  {
    match o
    case UserObj(u) => OldUser.Validate(u)
    case PlaceObj(p) => OldPlace.Validate(p)
    case ReviewObj(r) => OldReview.Validate(r)
    case AmenityObj(a) => OldAmenity.Validate(a)
  }

  /** validate() does not look at the base attributes, so saving keeps its verdict. */
  lemma ValidateIgnoresBase(o: Obj, b: Base)
    ensures ValidateObj(WithBase(o, b)) == ValidateObj(o)
  {
  }

  /** A patch that leaves id out keeps the object's id. */
  lemma KeepsId(o: Obj, m: Payload)
    requires "id" !in m
    ensures Id(Patch(o, m)) == Id(o)
  {
  }
}
