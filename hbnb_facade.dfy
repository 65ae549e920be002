/** HbnbFacade of part3/hbnb/facade.py over one MemoryRepository. It checks the ids a
    payload refers to before building an entity, hides the password of users, expands
    a place with its owner and amenities, and patches stored entities on update. The
    uuid generator and the wall clock are the IdSource and Clock objects it holds; a
    create draws an id and two clock readings, an update one reading. */
module HbnbService {
  import opened Common
  import opened Tables
  import opened HbnbBase
  import opened HbnbObjects
  import opened MemoryRepo
  import HbnbUser
  import HbnbPlace
  import HbnbReview
  import HbnbAmenity

  const OwnerMissing := "owner_id must reference an existing User"
  const AmenityMissing := "amenity_ids must reference existing Amenities"
  const UserMissing := "user_id must reference an existing User"
  const PlaceMissing := "place_id must reference an existing Place"
  const NoHashPassword := "'User' object has no attribute 'hash_password'"
  const PasswordNotString := "password must be a string"
  const NoOwnerId := "object has no attribute 'owner_id'"
  const NoUserFields := "object has no attribute 'first_name'"

  // ----- reading the repository with payload values -----

  /** `self.repo.get(cls, key)` for a key taken from a payload: a list or dict key is
      unhashable, and any other non-string names nothing. */
  function Find(db: Db, cls: string, key: Value): (r: Result<Option<HObj>>)
    ensures r.Err? <==> key.List? || key.Dict?
    ensures r.Ok? ==> r.value == if key.Str? then GetSpec(db, cls, key.s) else None
  {
    match key
    case Str(s) => Ok(GetSpec(db, cls, s))
    case List(_) => Err(TypeError(Unhashable))
    case Dict(_) => Err(TypeError(Unhashable))
    case _ => Ok(None)
  }

  /** The key names a stored object of the class. */
  predicate Resolves(db: Db, cls: string, key: Value)
  {
    key.Str? && key.s in Bucket(db, cls).items
  }

  /** The amenity loop: the first id that does not name an amenity raises. */
  function CheckRefs(db: Db, items: seq<Value>): Outcome
  {
    if items == [] then Pass
    else match Find(db, "Amenity", items[0])
      case Err(e) => Fail(e)
      case Ok(None) => Fail(BadRequest(AmenityMissing))
      case Ok(Some(_)) => CheckRefs(db, items[1..])
  }

  /** `for aid in v or []: if not self.repo.get(Amenity, aid): raise BadRequest`. */
  function CheckAmenities(db: Db, v: Value): Outcome
  {
    if !Truthy(v) then Pass
    else match Iterate(v)
      case Err(e) => Fail(e)
      case Ok(items) => CheckRefs(db, items)
  }

  /** The loop passes exactly when every id names a stored amenity; with string ids
      the only error is the BadRequest. */
  lemma {:induction false} CheckRefsMeaning(db: Db, items: seq<Value>)
    ensures CheckRefs(db, items).Pass? <==> forall i :: 0 <= i < |items| ==> Resolves(db, "Amenity", items[i])
    ensures ((forall i :: 0 <= i < |items| ==> items[i].Str?) && CheckRefs(db, items).Fail?)
              ==> CheckRefs(db, items).error == BadRequest(AmenityMissing)
  {
    if items != [] {
      CheckRefsMeaning(db, items[1..]);
      if Resolves(db, "Amenity", items[0]) {
        assert forall i :: 1 <= i < |items| ==> items[i] == items[1..][i - 1];
      }
    }
  }

  /** The amenity check of create_place and update_place passes exactly when the value is
      falsy, or a list, string or dict whose every item (character, key) names a stored
      amenity; for a string or a dict the only error is the BadRequest, so the order in
      which a dict's keys are visited does not matter. */
  lemma CheckAmenitiesMeaning(db: Db, v: Value)
    ensures CheckAmenities(db, v).Pass? <==>
              !Truthy(v) || (Iterate(v).Ok? && forall x :: x in Iterate(v).value ==> Resolves(db, "Amenity", x))
    ensures v.Dict? ==> (CheckAmenities(db, v).Pass? <==> forall k :: k in v.fields ==> k in Bucket(db, "Amenity").items)
    ensures (v.Dict? || v.Str?) && CheckAmenities(db, v).Fail? ==> CheckAmenities(db, v).error == BadRequest(AmenityMissing)
  {
    if Truthy(v) && Iterate(v).Ok? {
      CheckRefsMeaning(db, Iterate(v).value);
      if v.Dict? {
        assert forall k :: k in v.fields ==> Str(k) in Iterate(v).value;
      }
    }
  }

  // ----- views -----

  /** `_user_public`: the to_dict view without the password. */
  function PublicView(o: HObj): (d: Payload)
    ensures "password" !in d
    ensures forall k :: k in d ==> k in ToDict(o) && d[k] == ToDict(o)[k]
    ensures forall k :: k in ToDict(o) && k != "password" ==> k in d
  {
    ToDict(o) - {"password"}
  }

  /** The "owner" entry of `_place_expanded`. */
  function OwnerView(db: Db, ownerId: Value): Result<Value>
  {
    match Find(db, "User", ownerId)
    case Err(e) => Err(e)
    case Ok(None) => Ok(Null)
    case Ok(Some(UserO(u))) =>
      Ok(Dict(map["id" := Str(u.base.id), "first_name" := u.firstName, "last_name" := u.lastName,
                  "email" := u.email]))
    case Ok(Some(_)) => Err(AttributeError(NoUserFields))
  }

  /** The "amenities" comprehension of `_place_expanded`. */
  function AmenityViews(db: Db, ids: seq<Value>): Result<seq<Value>>
  {
    if ids == [] then Ok([])
    else match Find(db, "Amenity", ids[0])
      case Err(e) => Err(e)
      case Ok(found) =>
        match AmenityViews(db, ids[1..])
        case Err(e) => Err(e)
        case Ok(rest) => Ok((if found.Some? then [Dict(ToDict(found.value))] else []) + rest)
  }

  /** `_place_expanded(place)`. */
  function Expanded(db: Db, p: HbnbPlace.Place): Result<Payload>
  {
    match OwnerView(db, p.ownerId)
    case Err(e) => Err(e)
    case Ok(owner) =>
      match Iterate(p.amenityIds)
      case Err(e) => Err(e)
      case Ok(ids) =>
        match AmenityViews(db, ids)
        case Err(e) => Err(e)
        case Ok(views) => Ok(HbnbPlace.ToDict(p)["owner" := owner]["amenities" := List(views)])
  }

  /** `_place_expanded(o)` for a stored object; anything but a place lacks owner_id. */
  function ExpandObj(db: Db, o: HObj): Result<Payload>
  {
    match o
    case PlaceO(p) => Expanded(db, p)
    case _ => Err(AttributeError(NoOwnerId))
  }

  function ExpandAll(db: Db, os: seq<HObj>): Result<seq<Payload>>
  {
    if os == [] then Ok([])
    else match ExpandObj(db, os[0])
      case Err(e) => Err(e)
      case Ok(d) =>
        match ExpandAll(db, os[1..])
        case Err(e) => Err(e)
        case Ok(rest) => Ok([d] + rest)
  }

  /** The ids of a list that name stored amenities, in list order. */
  function ResolvedIds(db: Db, ids: seq<Value>): (r: seq<Value>)
    ensures forall x :: x in r <==> x in ids && Resolves(db, "Amenity", x)
    ensures forall i :: 0 <= i < |r| ==> Resolves(db, "Amenity", r[i])
  {
    if ids == [] then []
    else (if Resolves(db, "Amenity", ids[0]) then [ids[0]] else []) + ResolvedIds(db, ids[1..])
  }

  /** The to_dict view of each of the given stored amenities. */
  function AmenityDicts(db: Db, ids: seq<Value>): (r: seq<Value>)
    requires forall i :: 0 <= i < |ids| ==> Resolves(db, "Amenity", ids[i])
    ensures |r| == |ids|
  {
    if ids == [] then []
    else
      assert Resolves(db, "Amenity", ids[0]);
      [Dict(ToDict(Bucket(db, "Amenity").items[ids[0].s]))] + AmenityDicts(db, ids[1..])
  }

  /** With string ids, the amenities of an expanded place are the to_dict views of
      exactly the ids that resolve, in amenity_ids order. */
  lemma {:induction false} AmenityViewsMeaning(db: Db, ids: seq<Value>)
    requires forall i :: 0 <= i < |ids| ==> ids[i].Str?
    ensures AmenityViews(db, ids) == Ok(AmenityDicts(db, ResolvedIds(db, ids)))
  {
    if ids != [] {
      AmenityViewsMeaning(db, ids[1..]);
      var x := ids[0];
      var tail := ResolvedIds(db, ids[1..]);
      assert Find(db, "Amenity", x) == Ok(GetSpec(db, "Amenity", x.s));
      if Resolves(db, "Amenity", x) {
        var d := Dict(ToDict(Bucket(db, "Amenity").items[x.s]));
        assert AmenityViews(db, ids) == Ok([d] + AmenityDicts(db, tail));
        assert ResolvedIds(db, ids) == [x] + tail;
        assert ([x] + tail)[1..] == tail;
        assert AmenityDicts(db, [x] + tail) == [d] + AmenityDicts(db, tail);
      } else {
        assert [] + AmenityDicts(db, tail) == AmenityDicts(db, tail);
        assert AmenityViews(db, ids) == AmenityViews(db, ids[1..]);
        assert ResolvedIds(db, ids) == tail;
      }
    }
  }

  /** The owner entry is None exactly when owner_id names no user; otherwise it has
      exactly id, first_name, last_name and email, with the owner's own id. */
  lemma OwnerViewMeaning(db: Db, ownerId: Value)
    requires Sound(db)
    requires OwnerView(db, ownerId).Ok?
    ensures OwnerView(db, ownerId).value == Null <==> !Resolves(db, "User", ownerId)
    ensures OwnerView(db, ownerId).value != Null ==>
              && OwnerView(db, ownerId).value.Dict?
              && OwnerView(db, ownerId).value.fields.Keys == {"id", "first_name", "last_name", "email"}
              && OwnerView(db, ownerId).value.fields["id"] == ownerId
  {
    SoundBucket(db, "User");
  }

  /** An expanded place holds the place's to_dict entries and exactly two more keys,
      "owner" and "amenities". */
  lemma {:induction false} ExpandedMeaning(db: Db, p: HbnbPlace.Place)
    requires Expanded(db, p).Ok?
    ensures Expanded(db, p).value.Keys == HbnbPlace.ToDict(p).Keys + {"owner", "amenities"}
    ensures forall k :: k in HbnbPlace.ToDict(p) ==> Expanded(db, p).value[k] == HbnbPlace.ToDict(p)[k]
  {
    var owner := OwnerView(db, p.ownerId).value;
    var views := AmenityViews(db, Iterate(p.amenityIds).value).value;
    var base := HbnbPlace.ToDict(p);
    assert Expanded(db, p) == Ok(base["owner" := owner]["amenities" := List(views)]);
    HbnbPlace.ToDictLeavesRoom(p);
    AddTwoEntries(base, owner, List(views));
  }

  /** The owner entry of an expanded place is None exactly when owner_id names no
      user, and otherwise the owner's public fields; the amenities entry is the list of
      amenity views. */
  lemma {:induction false} ExpandedOwner(db: Db, p: HbnbPlace.Place)
    requires Sound(db)
    requires Expanded(db, p).Ok?
    ensures Expanded(db, p).value["owner"] == Null <==> !Resolves(db, "User", p.ownerId)
    ensures Expanded(db, p).value["owner"] != Null ==>
              && Expanded(db, p).value["owner"].Dict?
              && Expanded(db, p).value["owner"].fields.Keys == {"id", "first_name", "last_name", "email"}
              && Expanded(db, p).value["owner"].fields["id"] == p.ownerId
    ensures Expanded(db, p).value["amenities"] == List(AmenityViews(db, Iterate(p.amenityIds).value).value)
  {
    var owner := OwnerView(db, p.ownerId).value;
    var views := AmenityViews(db, Iterate(p.amenityIds).value).value;
    assert Expanded(db, p) == Ok(HbnbPlace.ToDict(p)["owner" := owner]["amenities" := List(views)]);
    OwnerViewMeaning(db, p.ownerId);
  }

  lemma AddTwoEntries(base: Payload, owner: Value, amenities: Value)
    requires "owner" !in base && "amenities" !in base
    ensures base["owner" := owner]["amenities" := amenities].Keys == base.Keys + {"owner", "amenities"}
    ensures forall k :: k in base ==> base["owner" := owner]["amenities" := amenities][k] == base[k]
  {
  }

  // ----- users -----

  /** What hash_password evidently meant: a truthy password is replaced by its hash; a
      password that is not a string cannot be hashed. */
  function HashPassword(u: HbnbUser.User, plain: Value): (r: Result<HbnbUser.User>)
  {
    if !Truthy(plain) then Ok(u)
    else if plain.Str? then Ok(u.(password := Str(Hash(plain.s))))
    else Err(TypeError(PasswordNotString))
  }

  /** create_user as evidently intended: build, validate, hash the password, store and
      return the public view. */
  function CreateUserSpec(db: Db, data: Payload, freshId: string, t: nat): (r: (Result<Payload>, Db))
    requires Sound(db)
    ensures Sound(r.1)
  {
    match HbnbUser.New(data, freshId, t, t + 1)
    case Err(e) => (Err(e), db)
    case Ok(u) =>
      match HbnbUser.Validate(u)
      case Fail(e) => (Err(e), db)
      case Pass =>
        match HashPassword(u, Lookup(data, "password"))
        case Err(e) => (Err(e), db)
        case Ok(h) => (Ok(PublicView(UserO(h))), AddSpec(db, UserO(h)))
  }

  /** create_user as written (with its body indented under the def): User has no
      hash_password, so any truthy password raises AttributeError. */
  function CreateUserAsWritten(db: Db, data: Payload, freshId: string, t: nat): (r: (Result<Payload>, Db))
    requires Sound(db)
  {
    match HbnbUser.New(data, freshId, t, t + 1)
    case Err(e) => (Err(e), db)
    case Ok(u) =>
      match HbnbUser.Validate(u)
      case Fail(e) => (Err(e), db)
      case Pass =>
        if Truthy(Lookup(data, "password")) then (Err(AttributeError(NoHashPassword)), db)
        else (Ok(PublicView(UserO(u))), AddSpec(db, UserO(u)))
  }

  /** As written, create_user never stores a user: validate demands a truthy password,
      and a truthy password reaches the missing hash_password. */
  lemma CreateUserAsWrittenNeverStores(db: Db, data: Payload, freshId: string, t: nat)
    requires Sound(db)
    ensures CreateUserAsWritten(db, data, freshId, t).0.Err?
    ensures CreateUserAsWritten(db, data, freshId, t).1 == db
  {
  }

  /** A concrete well-formed payload that create_user as written rejects. */
  lemma CreateUserAsWrittenRejectsValidUser()
    ensures var data := map["email" := Str("a@b.c"), "password" := Str("secret")];
            && HbnbUser.New(data, "0", 1, 2).Ok?
            && HbnbUser.Validate(HbnbUser.New(data, "0", 1, 2).value).Pass?
            && CreateUserAsWritten(map[], data, "0", 1) == (Err(AttributeError(NoHashPassword)), map[])
  {
  }

  /** As intended, create_user succeeds exactly for a buildable, valid user with a string
      password; the stored user holds the hash of that password, which checks against
      it, and the returned view has no password. */
  lemma {:induction false} CreateUserEffect(db: Db, data: Payload, freshId: string, t: nat)
    requires Sound(db)
    ensures var (r, db2) := CreateUserSpec(db, data, freshId, t);
            && (r.Ok? <==> HbnbUser.New(data, freshId, t, t + 1).Ok?
                           && HbnbUser.Validate(HbnbUser.New(data, freshId, t, t + 1).value).Pass?
                           && Lookup(data, "password").Str?)
            && (r.Err? ==> db2 == db)
            && (r.Ok? ==>
                  var u := HbnbUser.New(data, freshId, t, t + 1).value;
                  && "password" !in r.value
                  && GetSpec(db2, "User", u.base.id) == Some(UserO(u.(password := Str(Hash(Lookup(data, "password").s)))))
                  && CheckHash(Hash(Lookup(data, "password").s), Lookup(data, "password").s))
  {
    if HbnbUser.New(data, freshId, t, t + 1).Ok? {
      var u := HbnbUser.New(data, freshId, t, t + 1).value;
      if HbnbUser.Validate(u).Pass? {
        assert Truthy(u.password);
        assert "password" in data && data["password"] == u.password;
        if u.password.Str? {
          var h := u.(password := Str(Hash(u.password.s)));
          assert HashPassword(u, Lookup(data, "password")) == Ok(h);
          assert CreateUserSpec(db, data, freshId, t) == (Ok(PublicView(UserO(h))), AddSpec(db, UserO(h)));
          AddThenGet(db, UserO(h));
          HashChecks(u.password.s, u.password.s);
        } else {
          assert CreateUserSpec(db, data, freshId, t) == (Err(TypeError(PasswordNotString)), db);
        }
      }
    }
  }

  function GetUserSpec(db: Db, id: string): Result<Payload>
  {
    match GetSpec(db, "User", id)
    case None => Err(NotFound)
    case Some(o) => Ok(PublicView(o))
  }

  function ListUsersSpec(db: Db): seq<Payload>
    requires Sound(db)
  {
    var xs := ListSpec(db, "User");
    seq(|xs|, i requires 0 <= i < |xs| => PublicView(xs[i]))
  }

  // ----- updates -----

  /** The update_* flow as evidently intended: get (NotFound), set every payload item
      but "id" on a copy, validate, and only then touch and store. */
  function UpdateStored(db: Db, cls: string, id: string, payload: Payload, now: nat): (r: (Result<HObj>, Db))
    requires Sound(db)
    ensures Sound(r.1)
  {
    match GetSpec(db, cls, id)
    case None => (Err(NotFound), db)
    case Some(o) =>
      var p := Patch(o, WithoutId(payload));
      match ValidateObj(p)
      case Fail(e) => (Err(e), db)
      case Pass => UpdateSpec(db, TouchObj(p, now))
  }

  /** The update_* flow as written: the payload is set on the stored object itself, so
      a failed validate leaves the patched object in the repository. */
  function UpdateStoredAsWritten(db: Db, cls: string, id: string, payload: Payload, now: nat): (r: (Result<HObj>, Db))
    requires Sound(db)
    ensures Sound(r.1)
  {
    match GetSpec(db, cls, id)
    case None => (Err(NotFound), db)
    case Some(o) =>
      var p := Patch(o, WithoutId(payload));
      match ValidateObj(p)
      case Fail(e) => (Err(e), AddSpec(db, p))
      case Pass => UpdateSpec(AddSpec(db, p), TouchObj(p, now))
  }

  /** A stored amenity, an update that empties its name: as written the update raises
      and the amenity stays stored with the empty name that validate rejects. */
  lemma UpdateAsWrittenKeepsInvalidPatch()
    ensures var a := HbnbAmenity.Amenity(HBase("0", Int(1), Int(2)), Str("Wifi"));
            var db := map["Amenity" := Table(map["0" := AmenityO(a)], ["0"])];
            var bad := AmenityO(a.(name := Str("")));
            && Sound(db)
            && UpdateStoredAsWritten(db, "Amenity", "0", map["name" := Str("")], 3).0
                 == Err(ValueError(HbnbAmenity.NameRequired))
            && GetSpec(UpdateStoredAsWritten(db, "Amenity", "0", map["name" := Str("")], 3).1, "Amenity", "0")
                 == Some(bad)
            && ValidateObj(bad).Fail?
  {
    var a := HbnbAmenity.Amenity(HBase("0", Int(1), Int(2)), Str("Wifi"));
    var db := map["Amenity" := Table(map["0" := AmenityO(a)], ["0"])];
    var bad := AmenityO(a.(name := Str("")));
    assert BucketSound(db["Amenity"], "Amenity");
    assert GetSpec(db, "Amenity", "0") == Some(AmenityO(a));
    var m := map["name" := Str("")];
    assert WithoutId(m) == m;
    assert Patch(AmenityO(a), m) == bad;
    assert ValidateObj(bad) == Fail(ValueError(HbnbAmenity.NameRequired));
    assert UpdateStoredAsWritten(db, "Amenity", "0", m, 3) == (Err(ValueError(HbnbAmenity.NameRequired)), AddSpec(db, bad));
    AddThenGet(db, bad);
  }

  /** What every update promises, as intended: an unknown id raises NotFound and a
      failed validate raises, both with no change; otherwise the entry under id alone
      is replaced by the patched object, whose id is kept, whose other attributes
      named in the payload take the payload's values, and whose updated_at is now. */
  lemma {:induction false} UpdateStoredEffect(db: Db, cls: string, id: string, payload: Payload, now: nat,
                                              c: string, k: string)
    requires Sound(db)
    ensures var (r, db2) := UpdateStored(db, cls, id, payload, now);
            && (GetSpec(db, cls, id).None? ==> r == Err(NotFound) && db2 == db)
            && (r.Err? ==> db2 == db)
            && (GetSpec(db, cls, id).Some? ==>
                  var o := GetSpec(db, cls, id).value;
                  && (r.Ok? <==> ValidateObj(Patch(o, WithoutId(payload))).Pass?)
                  && (r.Ok? ==>
                        && GetSpec(db2, cls, id) == Some(r.value)
                        && Id(r.value) == id && ClassName(r.value) == cls
                        && ToDict(r.value)
                             == (ToDict(o) + Restrict(payload, ToDict(o).Keys - {"id"}))["updated_at" := Stamp(now)]
                        && ((c, k) != (cls, id) ==> GetSpec(db2, c, k) == GetSpec(db, c, k))))
  {
    if GetSpec(db, cls, id).Some? {
      var o := GetSpec(db, cls, id).value;
      SoundBucket(db, cls);
      var p := Patch(o, WithoutId(payload));
      PatchEffect(o, WithoutId(payload));
      TouchEffect(p, now);
      assert Restrict(WithoutId(payload), ToDict(o).Keys - {"id"}) == Restrict(payload, ToDict(o).Keys - {"id"});
      if ValidateObj(p).Pass? {
        UpdateEffect(db, TouchObj(p, now), c, k);
      }
    }
  }

  /** Stored objects every facade operation starts from and keeps: each passes the
      validate() of its class. */
  ghost predicate AllValid(db: Db)
  {
    forall c, k :: GetSpec(db, c, k).Some? ==> ValidateObj(GetSpec(db, c, k).value).Pass?
  }

  lemma AddKeepsValid(db: Db, o: HObj)
    requires Sound(db) && AllValid(db) && ValidateObj(o).Pass?
    ensures AllValid(AddSpec(db, o))
  {
    SoundBucket(db, ClassName(o));
    forall c, k | GetSpec(AddSpec(db, o), c, k).Some?
      ensures ValidateObj(GetSpec(AddSpec(db, o), c, k).value).Pass?
    {
      if (c, k) != (ClassName(o), Id(o)) {
        assert GetSpec(AddSpec(db, o), c, k) == GetSpec(db, c, k);
      }
    }
  }

  /** The intended update keeps every stored object valid; as written it does not. */
  lemma {:induction false} UpdateStoredKeepsValid(db: Db, cls: string, id: string, payload: Payload, now: nat)
    requires Sound(db) && AllValid(db)
    ensures AllValid(UpdateStored(db, cls, id, payload, now).1)
  {
    if GetSpec(db, cls, id).Some? {
      SoundBucket(db, cls);
      var p := Patch(GetSpec(db, cls, id).value, WithoutId(payload));
      TouchEffect(p, now);
      if ValidateObj(p).Pass? {
        AddKeepsValid(db, TouchObj(p, now));
      }
    }
  }

  function UpdateUserSpec(db: Db, id: string, payload: Payload, now: nat): (r: (Result<Payload>, Db))
    requires Sound(db)
    ensures Sound(r.1)
  {
    match UpdateStored(db, "User", id, payload, now)
    case (Err(e), db2) => (Err(e), db2)
    case (Ok(o), db2) => (Ok(PublicView(o)), db2)
  }

  /** No view of a user the facade returns holds a password. */
  lemma {:induction false} UserViewsHidePassword(db: Db, id: string, payload: Payload, now: nat)
    requires Sound(db)
    ensures GetUserSpec(db, id).Ok? ==> "password" !in GetUserSpec(db, id).value
    ensures forall i :: 0 <= i < |ListUsersSpec(db)| ==> "password" !in ListUsersSpec(db)[i]
    ensures UpdateUserSpec(db, id, payload, now).0.Ok? ==> "password" !in UpdateUserSpec(db, id, payload, now).0.value
  {
  }

  // ----- amenities -----

  function CreateAmenitySpec(db: Db, payload: Payload, freshId: string, t: nat): (r: (Result<Payload>, Db))
    requires Sound(db)
    ensures Sound(r.1)
  {
    match HbnbAmenity.New(payload, freshId, t, t + 1)
    case Err(e) => (Err(e), db)
    case Ok(a) =>
      match HbnbAmenity.Validate(a)
      case Fail(e) => (Err(e), db)
      case Pass => (Ok(HbnbAmenity.ToDict(a)), AddSpec(db, AmenityO(a)))
  }

  function GetDictSpec(db: Db, cls: string, id: string): Result<Payload>
  {
    match GetSpec(db, cls, id)
    case None => Err(NotFound)
    case Some(o) => Ok(ToDict(o))
  }

  function ListDictsSpec(db: Db, cls: string): seq<Payload>
    requires Sound(db)
  {
    var xs := ListSpec(db, cls);
    seq(|xs|, i requires 0 <= i < |xs| => ToDict(xs[i]))
  }

  function UpdateDictSpec(db: Db, cls: string, id: string, payload: Payload, now: nat): (r: (Result<Payload>, Db))
    requires Sound(db)
    ensures Sound(r.1)
  {
    match UpdateStored(db, cls, id, payload, now)
    case (Err(e), db2) => (Err(e), db2)
    case (Ok(o), db2) => (Ok(ToDict(o)), db2)
  }

  // ----- places -----

  function CreatePlaceSpec(db: Db, payload: Payload, freshId: string, t: nat): (r: (Result<Payload>, Db))
    requires Sound(db)
    ensures Sound(r.1)
  {
    match Find(db, "User", Lookup(payload, "owner_id"))
    case Err(e) => (Err(e), db)
    case Ok(None) => (Err(BadRequest(OwnerMissing)), db)
    case Ok(Some(_)) =>
      match CheckAmenities(db, LookupOr(payload, "amenity_ids", List([])))
      case Fail(e) => (Err(e), db)
      case Pass => NewPlaceSpec(db, payload, freshId, t)
  }

  /** The part of create_place after the reference checks: build, validate, store and
      return the expanded view. */
  function NewPlaceSpec(db: Db, payload: Payload, freshId: string, t: nat): (r: (Result<Payload>, Db))
    requires Sound(db)
    ensures Sound(r.1)
  {
    match HbnbPlace.New(payload, freshId, t, t + 1)
    case Err(e) => (Err(e), db)
    case Ok(p) =>
      match HbnbPlace.Validate(p)
      case Fail(e) => (Err(e), db)
      case Pass => (Expanded(AddSpec(db, PlaceO(p)), p), AddSpec(db, PlaceO(p)))
  }

  /** create_place raises BadRequest and stores nothing when owner_id names no user or a
      listed amenity id names no amenity; it stores a place only when both resolve. */
  lemma {:induction false} CreatePlaceChecksReferences(db: Db, payload: Payload, freshId: string, t: nat)
    requires Sound(db)
    ensures var (r, db2) := CreatePlaceSpec(db, payload, freshId, t);
            && (db2 != db ==> Resolves(db, "User", Lookup(payload, "owner_id"))
                              && CheckAmenities(db, LookupOr(payload, "amenity_ids", List([]))).Pass?)
            && ((Lookup(payload, "owner_id").Str? && !Resolves(db, "User", Lookup(payload, "owner_id")))
                  ==> r == Err(BadRequest(OwnerMissing)) && db2 == db)
            && ((Resolves(db, "User", Lookup(payload, "owner_id"))
                 && Lookup(payload, "amenity_ids").List?
                 && (forall x :: x in Lookup(payload, "amenity_ids").items ==> x.Str?)
                 && (exists x :: x in Lookup(payload, "amenity_ids").items && !Resolves(db, "Amenity", x)))
                  ==> r == Err(BadRequest(AmenityMissing)) && db2 == db)
            && ((Resolves(db, "User", Lookup(payload, "owner_id"))
                 && Lookup(payload, "amenity_ids").Dict?
                 && (exists k :: k in Lookup(payload, "amenity_ids").fields && k !in Bucket(db, "Amenity").items))
                  ==> r == Err(BadRequest(AmenityMissing)) && db2 == db)
  {
    var v := LookupOr(payload, "amenity_ids", List([]));
    if "amenity_ids" in payload {
      assert v == Lookup(payload, "amenity_ids");
      if v.List? && Truthy(v) {
        CheckRefsMeaning(db, v.items);
      }
      if v.Dict? {
        CheckAmenitiesMeaning(db, v);
      }
    }
  }

  function GetPlaceSpec(db: Db, id: string): Result<Payload>
  {
    match GetSpec(db, "Place", id)
    case None => Err(NotFound)
    case Some(o) => ExpandObj(db, o)
  }

  function ListPlacesSpec(db: Db): Result<seq<Payload>>
    requires Sound(db)
  {
    ExpandAll(db, ListSpec(db, "Place"))
  }

  /** The reference checks update_place makes on a patch: owner_id, when present,
      names a user, and amenity_ids, when present, name amenities. */
  function PatchRefs(db: Db, payload: Payload): Outcome
  {
    var owner := if "owner_id" in payload then Find(db, "User", payload["owner_id"]) else Ok(None);
    if owner.Err? then Fail(owner.error)
    else if "owner_id" in payload && owner.value.None? then Fail(BadRequest(OwnerMissing))
    else if "amenity_ids" in payload then CheckAmenities(db, payload["amenity_ids"])
    else Pass
  }

  function UpdatePlaceSpec(db: Db, id: string, payload: Payload, now: nat): (r: (Result<Payload>, Db))
    requires Sound(db)
    ensures Sound(r.1)
  {
    if GetSpec(db, "Place", id).None? then (Err(NotFound), db)
    else
      match PatchRefs(db, payload)
      case Fail(e) => (Err(e), db)
      case Pass =>
        match UpdateStored(db, "Place", id, payload, now)
        case (Err(e), db2) => (Err(e), db2)
        case (Ok(o), db2) => (ExpandObj(db2, o), db2)
  }

  /** update_place raises NotFound for an unknown id, and BadRequest for a patch whose
      owner_id or amenity_ids do not resolve, before any attribute is set. */
  lemma {:induction false} UpdatePlaceChecksReferences(db: Db, id: string, payload: Payload, now: nat)
    requires Sound(db)
    ensures var (r, db2) := UpdatePlaceSpec(db, id, payload, now);
            && (GetSpec(db, "Place", id).None? ==> r == Err(NotFound) && db2 == db)
            && ((GetSpec(db, "Place", id).Some? && "owner_id" in payload && payload["owner_id"].Str?
                 && !Resolves(db, "User", payload["owner_id"]))
                  ==> r == Err(BadRequest(OwnerMissing)) && db2 == db)
            && (db2 != db ==>
                  && ("owner_id" in payload ==> Resolves(db, "User", payload["owner_id"]))
                  && ("amenity_ids" in payload ==> CheckAmenities(db, payload["amenity_ids"]).Pass?))
  {
    PatchRefsMeaning(db, payload);
    if GetSpec(db, "Place", id).Some? && PatchRefs(db, payload).Pass? {
      var u := UpdateStored(db, "Place", id, payload, now);
      assert UpdatePlaceSpec(db, id, payload, now).1 == u.1;
    }
  }

  /** The patch checks pass only when a given owner_id names a user and given
      amenity_ids name amenities; a string owner_id that names nothing is BadRequest. */
  lemma PatchRefsMeaning(db: Db, payload: Payload)
    ensures PatchRefs(db, payload).Pass? ==>
              && ("owner_id" in payload ==> Resolves(db, "User", payload["owner_id"]))
              && ("amenity_ids" in payload ==> CheckAmenities(db, payload["amenity_ids"]).Pass?)
    ensures ("owner_id" in payload && payload["owner_id"].Str? && !Resolves(db, "User", payload["owner_id"]))
              ==> PatchRefs(db, payload) == Fail(BadRequest(OwnerMissing))
  {
  }

  // ----- reviews -----

  function CreateReviewSpec(db: Db, payload: Payload, freshId: string, t: nat): (r: (Result<Payload>, Db))
    requires Sound(db)
    ensures Sound(r.1)
  {
    match Find(db, "User", Lookup(payload, "user_id"))
    case Err(e) => (Err(e), db)
    case Ok(None) => (Err(BadRequest(UserMissing)), db)
    case Ok(Some(_)) =>
      match Find(db, "Place", Lookup(payload, "place_id"))
      case Err(e) => (Err(e), db)
      case Ok(None) => (Err(BadRequest(PlaceMissing)), db)
      case Ok(Some(_)) =>
        match HbnbReview.New(payload, freshId, t, t + 1)
        case Err(e) => (Err(e), db)
        case Ok(rv) =>
          match HbnbReview.Validate(rv)
          case Fail(e) => (Err(e), db)
          case Pass => (Ok(HbnbReview.ToDict(rv)), AddSpec(db, ReviewO(rv)))
  }

  /** create_review stores a review only when user_id names a user and place_id a place;
      a string id that names nothing raises BadRequest, user first. */
  lemma {:induction false} CreateReviewChecksReferences(db: Db, payload: Payload, freshId: string, t: nat)
    requires Sound(db)
    ensures var (r, db2) := CreateReviewSpec(db, payload, freshId, t);
            && (db2 != db ==> Resolves(db, "User", Lookup(payload, "user_id"))
                              && Resolves(db, "Place", Lookup(payload, "place_id")))
            && ((Lookup(payload, "user_id").Str? && !Resolves(db, "User", Lookup(payload, "user_id")))
                  ==> r == Err(BadRequest(UserMissing)) && db2 == db)
            && ((Resolves(db, "User", Lookup(payload, "user_id")) && Lookup(payload, "place_id").Str?
                 && !Resolves(db, "Place", Lookup(payload, "place_id")))
                  ==> r == Err(BadRequest(PlaceMissing)) && db2 == db)
  {
  }

  /** `lambda x: x.place_id == place_id`. */
  predicate OfPlace(x: HObj, placeId: string)
  {
    x.ReviewO? && x.review.placeId == Str(placeId)
  }

  function ReviewsForPlaceSpec(db: Db, placeId: string): seq<Payload>
    requires Sound(db)
  {
    var xs := ListWhereSpec(db, "Review", Some(x => OfPlace(x, placeId)));
    seq(|xs|, i requires 0 <= i < |xs| => ToDict(xs[i]))
  }

  /** list_reviews_for_place lists, in bucket order, the to_dict view of exactly the
      stored reviews whose place_id is the given id. */
  lemma {:induction false} ReviewsForPlaceExact(db: Db, placeId: string, rv: HbnbReview.Review)
    requires Sound(db)
    ensures ToDict(ReviewO(rv)) in ReviewsForPlaceSpec(db, placeId) <==>
              (exists k :: k in Bucket(db, "Review").items && Bucket(db, "Review").items[k] == ReviewO(rv))
              && rv.placeId == Str(placeId)
  {
    ListWhereExact(db, "Review", x => OfPlace(x, placeId), ReviewO(rv));
    if ToDict(ReviewO(rv)) in ReviewsForPlaceSpec(db, placeId) {
      ReviewsForPlaceSound(db, placeId, rv);
    }
    if ReviewO(rv) in ListWhereSpec(db, "Review", Some(x => OfPlace(x, placeId))) {
      ReviewsForPlaceComplete(db, placeId, rv);
    }
  }

  /** A listed view is the view of a kept review. */
  lemma {:induction false} ReviewsForPlaceSound(db: Db, placeId: string, rv: HbnbReview.Review)
    requires Sound(db)
    requires ToDict(ReviewO(rv)) in ReviewsForPlaceSpec(db, placeId)
    ensures ReviewO(rv) in ListWhereSpec(db, "Review", Some(x => OfPlace(x, placeId)))
  {
    var keep := x => OfPlace(x, placeId);
    var xs := ListWhereSpec(db, "Review", Some(keep));
    var i :| 0 <= i < |xs| && ToDict(xs[i]) == ToDict(ReviewO(rv));
    ListWhereExact(db, "Review", keep, xs[i]);
    assert xs[i].ReviewO?;
    ToDictInjective(xs[i], ReviewO(rv));
  }

  /** A kept review has its view listed. */
  lemma {:induction false} ReviewsForPlaceComplete(db: Db, placeId: string, rv: HbnbReview.Review)
    requires Sound(db)
    requires ReviewO(rv) in ListWhereSpec(db, "Review", Some(x => OfPlace(x, placeId)))
    ensures ToDict(ReviewO(rv)) in ReviewsForPlaceSpec(db, placeId)
  {
    var xs := ListWhereSpec(db, "Review", Some(x => OfPlace(x, placeId)));
    var i :| 0 <= i < |xs| && xs[i] == ReviewO(rv);
    assert ReviewsForPlaceSpec(db, placeId)[i] == ToDict(ReviewO(rv));
  }

  function DeleteReviewSpec(db: Db, id: string): (r: (Outcome, Db))
    requires Sound(db)
    ensures Sound(r.1)
  {
    if GetSpec(db, "Review", id).None? then (Fail(NotFound), db)
    else (Pass, DeleteSpec(db, "Review", id))
  }

  /** delete_review raises NotFound on an unknown id; otherwise that review is gone and
      every other entry stays. */
  lemma {:induction false} DeleteReviewEffect(db: Db, id: string, c: string, k: string)
    requires Sound(db)
    ensures GetSpec(db, "Review", id).None? ==> DeleteReviewSpec(db, id) == (Fail(NotFound), db)
    ensures GetSpec(db, "Review", id).Some? ==>
              && DeleteReviewSpec(db, id).0 == Pass
              && GetSpec(DeleteReviewSpec(db, id).1, "Review", id) == None
              && ((c, k) != ("Review", id) ==> GetSpec(DeleteReviewSpec(db, id).1, c, k) == GetSpec(db, c, k))
  {
    DeleteEffect(db, "Review", id, c, k);
  }

  /** Every create of the facade keeps every stored object valid. */
  lemma {:induction false} CreateUserKeepsValid(db: Db, payload: Payload, freshId: string, t: nat)
    requires Sound(db) && AllValid(db)
    ensures AllValid(CreateUserSpec(db, payload, freshId, t).1)
  {
    var u := HbnbUser.New(payload, freshId, t, t + 1);
    if u.Ok? && HbnbUser.Validate(u.value).Pass? && HashPassword(u.value, Lookup(payload, "password")).Ok? {
      var h := HashPassword(u.value, Lookup(payload, "password")).value;
      assert HbnbUser.Validate(h).Pass?;
      AddKeepsValid(db, UserO(h));
    }
  }

  lemma {:induction false} CreatePlaceKeepsValid(db: Db, payload: Payload, freshId: string, t: nat)
    requires Sound(db) && AllValid(db)
    ensures AllValid(CreatePlaceSpec(db, payload, freshId, t).1)
  {
    var p := HbnbPlace.New(payload, freshId, t, t + 1);
    if p.Ok? && HbnbPlace.Validate(p.value).Pass? {
      AddKeepsValid(db, PlaceO(p.value));
    }
  }

  lemma {:induction false} CreateReviewKeepsValid(db: Db, payload: Payload, freshId: string, t: nat)
    requires Sound(db) && AllValid(db)
    ensures AllValid(CreateReviewSpec(db, payload, freshId, t).1)
  {
    var rv := HbnbReview.New(payload, freshId, t, t + 1);
    if rv.Ok? && HbnbReview.Validate(rv.value).Pass? {
      AddKeepsValid(db, ReviewO(rv.value));
    }
  }

  lemma {:induction false} CreateAmenityKeepsValid(db: Db, payload: Payload, freshId: string, t: nat)
    requires Sound(db) && AllValid(db)
    ensures AllValid(CreateAmenitySpec(db, payload, freshId, t).1)
  {
    var a := HbnbAmenity.New(payload, freshId, t, t + 1);
    if a.Ok? && HbnbAmenity.Validate(a.value).Pass? {
      AddKeepsValid(db, AmenityO(a.value));
    }
  }

  // ----- the imperative steps shared by the facade's methods -----

  method Resolve(repo: MemoryRepository, cls: string, key: Value) returns (r: Result<Option<HObj>>)
    ensures r == Find(repo.db, cls, key)
  {
    match key {
      case Str(s) =>
        var found := repo.Get(cls, s);
        r := Ok(found);
      case List(_) =>
        r := Err(TypeError(Unhashable));
      case Dict(_) =>
        r := Err(TypeError(Unhashable));
      case _ =>
        r := Ok(None);
    }
  }

  /** The amenity loop of create_place and update_place. */
  method CheckAmenitiesIn(repo: MemoryRepository, v: Value) returns (r: Outcome)
    ensures r == CheckAmenities(repo.db, v)
  {
    if !Truthy(v) {
      return Pass;
    }
    var it := Iterate(v);
    if it.Err? {
      return Fail(it.error);
    }
    var items := it.value;
    var i := 0;
    while i < |items|
      invariant 0 <= i <= |items|
      invariant CheckRefs(repo.db, items) == CheckRefs(repo.db, items[i..])
    {
      var found := Resolve(repo, "Amenity", items[i]);
      if found.Err? {
        return Fail(found.error);
      }
      if found.value.None? {
        return Fail(BadRequest(AmenityMissing));
      }
      assert items[i..][1..] == items[i + 1..];
      i := i + 1;
    }
    r := Pass;
  }

  /** The update_* flow as intended: the payload loop, validate, touch, repo.update. */
  method CheckPatchRefs(repo: MemoryRepository, payload: Payload) returns (r: Outcome)
    ensures r == PatchRefs(repo.db, payload)
  {
    if "owner_id" in payload {
      var owner := Resolve(repo, "User", payload["owner_id"]);
      if owner.Err? {
        return Fail(owner.error);
      }
      if owner.value.None? {
        return Fail(BadRequest(OwnerMissing));
      }
    }
    r := Pass;
    if "amenity_ids" in payload {
      r := CheckAmenitiesIn(repo, payload["amenity_ids"]);
    }
  }

  method ApplyUpdate(repo: MemoryRepository, cls: string, id: string, payload: Payload, now: nat)
    returns (r: Result<HObj>)
    requires repo.Valid()
    modifies repo
    ensures repo.Valid()
    ensures (r, repo.db) == UpdateStored(old(repo.db), cls, id, payload, now)
  {
    var found := repo.Get(cls, id);
    if found.None? {
      return Err(NotFound);
    }
    var p := SetAll(found.value, payload);
    var verdict := ValidateObj(p);
    if verdict.Fail? {
      return Err(verdict.error);
    }
    r := repo.Update(TouchObj(p, now));
  }

  /** The body of create_place once the id and the timestamps are drawn. */
  method CreatePlaceIn(repo: MemoryRepository, payload: Payload, freshId: string, t1: nat, t2: nat)
    returns (r: Result<Payload>)
    requires repo.Valid() && t2 == t1 + 1
    modifies repo
    ensures repo.Valid()
    ensures (r, repo.db) == CreatePlaceSpec(old(repo.db), payload, freshId, t1)
  {
    var owner := Resolve(repo, "User", Lookup(payload, "owner_id"));
    if owner.Err? {
      return Err(owner.error);
    }
    if owner.value.None? {
      return Err(BadRequest(OwnerMissing));
    }
    var check := CheckAmenitiesIn(repo, LookupOr(payload, "amenity_ids", List([])));
    if check.Fail? {
      return Err(check.error);
    }
    r := AddNewPlace(repo, payload, freshId, t1, t2);
  }

  method AddNewPlace(repo: MemoryRepository, payload: Payload, freshId: string, t1: nat, t2: nat)
    returns (r: Result<Payload>)
    requires repo.Valid() && t2 == t1 + 1
    modifies repo
    ensures repo.Valid()
    ensures (r, repo.db) == NewPlaceSpec(old(repo.db), payload, freshId, t1)
  {
    var built := HbnbPlace.New(payload, freshId, t1, t2);
    if built.Err? {
      return Err(built.error);
    }
    var verdict := HbnbPlace.Validate(built.value);
    if verdict.Fail? {
      return Err(verdict.error);
    }
    NewPlaceStores(repo.db, payload, freshId, t1, built.value);
    var _ := repo.Add(PlaceO(built.value));
    r := Expanded(repo.db, built.value);
  }

  lemma NewPlaceStores(db: Db, payload: Payload, freshId: string, t: nat, p: HbnbPlace.Place)
    requires Sound(db) && HbnbPlace.New(payload, freshId, t, t + 1) == Ok(p) && HbnbPlace.Validate(p).Pass?
    ensures NewPlaceSpec(db, payload, freshId, t) == (Expanded(AddSpec(db, PlaceO(p)), p), AddSpec(db, PlaceO(p)))
  {
  }

  /** The body of update_place once the clock is read. */
  method UpdatePlaceIn(repo: MemoryRepository, id: string, payload: Payload, now: nat) returns (r: Result<Payload>)
    requires repo.Valid()
    modifies repo
    ensures repo.Valid()
    ensures (r, repo.db) == UpdatePlaceSpec(old(repo.db), id, payload, now)
  {
    var found := repo.Get("Place", id);
    if found.None? {
      return Err(NotFound);
    }
    var check := CheckPatchRefs(repo, payload);
    if check.Fail? {
      return Err(check.error);
    }
    var updated := ApplyUpdate(repo, "Place", id, payload, now);
    if updated.Err? {
      return Err(updated.error);
    }
    r := ExpandObj(repo.db, updated.value);
  }

  class HbnbFacade {
    const repo: MemoryRepository
    const ids: IdSource
    const clock: Clock

    ghost predicate Valid()
      reads this, repo, ids
    {
      repo.Valid() && ids.Valid()
    }

    /** `repo or MemoryRepository()`: a repository object is always truthy. */
    constructor (given: MemoryRepository?)
      requires given != null ==> given.Valid()
      ensures Valid()
      ensures given != null ==> repo == given
      ensures given == null ==> fresh(repo) && repo.db == map[]
      ensures fresh(ids) && fresh(clock)
    {
      var r: MemoryRepository;
      if given != null {
        r := given;
      } else {
        r := new MemoryRepository();
      }
      repo := r;
      ids := new IdSource();
      clock := new Clock();
    }

    /** The default id and the two default timestamps of a new entity. */
    method Draw() returns (freshId: string, t1: nat, t2: nat)
      requires Valid()
      modifies ids, clock
      ensures Valid()
      ensures freshId == Show(old(ids.next)) && ids.next == old(ids.next) + 1
      ensures t1 == old(clock.time) + 1 && t2 == t1 + 1 && clock.time == t2
    {
      freshId := ids.Fresh();
      t1 := clock.Now();
      t2 := clock.Now();
    }

    method CreateUser(data: Payload) returns (r: Result<Payload>)
      requires Valid()
      modifies repo, ids, clock
      ensures Valid()
      ensures (r, repo.db) == CreateUserSpec(old(repo.db), data, Show(old(ids.next)), old(clock.time) + 1)
      ensures ids.next == old(ids.next) + 1 && clock.time == old(clock.time) + 2
    {
      var freshId, t1, t2 := Draw();
      var built := HbnbUser.New(data, freshId, t1, t2);
      if built.Err? {
        return Err(built.error);
      }
      var verdict := HbnbUser.Validate(built.value);
      if verdict.Fail? {
        return Err(verdict.error);
      }
      var hashed := HashPassword(built.value, Lookup(data, "password"));
      if hashed.Err? {
        return Err(hashed.error);
      }
      var added := repo.Add(UserO(hashed.value));
      r := Ok(PublicView(added));
    }

    method GetUser(id: string) returns (r: Result<Payload>)
      ensures r == GetUserSpec(repo.db, id)
    {
      var found := repo.Get("User", id);
      if found.None? {
        return Err(NotFound);
      }
      r := Ok(PublicView(found.value));
    }

    method ListUsers() returns (r: seq<Payload>)
      requires Valid()
      ensures r == ListUsersSpec(repo.db)
    {
      var xs := repo.List("User", None);
      r := seq(|xs|, i requires 0 <= i < |xs| => PublicView(xs[i]));
    }

    method UpdateUser(id: string, payload: Payload) returns (r: Result<Payload>)
      requires Valid()
      modifies repo, clock
      ensures Valid()
      ensures (r, repo.db) == UpdateUserSpec(old(repo.db), id, payload, old(clock.time) + 1)
      ensures clock.time == old(clock.time) + 1
    {
      var now := clock.Now();
      var updated := ApplyUpdate(repo, "User", id, payload, now);
      if updated.Err? {
        return Err(updated.error);
      }
      r := Ok(PublicView(updated.value));
    }

    method CreateAmenity(payload: Payload) returns (r: Result<Payload>)
      requires Valid()
      modifies repo, ids, clock
      ensures Valid()
      ensures (r, repo.db) == CreateAmenitySpec(old(repo.db), payload, Show(old(ids.next)), old(clock.time) + 1)
      ensures ids.next == old(ids.next) + 1 && clock.time == old(clock.time) + 2
    {
      var freshId, t1, t2 := Draw();
      var built := HbnbAmenity.New(payload, freshId, t1, t2);
      if built.Err? {
        return Err(built.error);
      }
      var verdict := HbnbAmenity.Validate(built.value);
      if verdict.Fail? {
        return Err(verdict.error);
      }
      var _ := repo.Add(AmenityO(built.value));
      r := Ok(HbnbAmenity.ToDict(built.value));
    }

    /** get_amenity and get_review. */
    method GetDict(cls: string, id: string) returns (r: Result<Payload>)
      ensures r == GetDictSpec(repo.db, cls, id)
    {
      var found := repo.Get(cls, id);
      if found.None? {
        return Err(NotFound);
      }
      r := Ok(ToDict(found.value));
    }

    /** list_amenities and list_reviews. */
    method ListDicts(cls: string) returns (r: seq<Payload>)
      requires Valid()
      ensures r == ListDictsSpec(repo.db, cls)
    {
      var xs := repo.List(cls, None);
      r := seq(|xs|, i requires 0 <= i < |xs| => ToDict(xs[i]));
    }

    /** update_amenity and update_review. */
    method UpdateDict(cls: string, id: string, payload: Payload) returns (r: Result<Payload>)
      requires Valid()
      modifies repo, clock
      ensures Valid()
      ensures (r, repo.db) == UpdateDictSpec(old(repo.db), cls, id, payload, old(clock.time) + 1)
      ensures clock.time == old(clock.time) + 1
    {
      var now := clock.Now();
      var updated := ApplyUpdate(repo, cls, id, payload, now);
      if updated.Err? {
        return Err(updated.error);
      }
      r := Ok(ToDict(updated.value));
    }

    method CreatePlace(payload: Payload) returns (r: Result<Payload>)
      requires Valid()
      modifies repo, ids, clock
      ensures Valid()
      ensures (r, repo.db) == CreatePlaceSpec(old(repo.db), payload, Show(old(ids.next)), old(clock.time) + 1)
      ensures ids.next == old(ids.next) + 1 && clock.time == old(clock.time) + 2
    {
      var freshId, t1, t2 := Draw();
      r := CreatePlaceIn(repo, payload, freshId, t1, t2);
    }

    method GetPlace(id: string) returns (r: Result<Payload>)
      ensures r == GetPlaceSpec(repo.db, id)
    {
      var found := repo.Get("Place", id);
      if found.None? {
        return Err(NotFound);
      }
      r := ExpandObj(repo.db, found.value);
    }

    method ListPlaces() returns (r: Result<seq<Payload>>)
      requires Valid()
      ensures r == ListPlacesSpec(repo.db)
    {
      var xs := repo.List("Place", None);
      r := ExpandAll(repo.db, xs);
    }

    method UpdatePlace(id: string, payload: Payload) returns (r: Result<Payload>)
      requires Valid()
      modifies repo, clock
      ensures Valid()
      ensures (r, repo.db) == UpdatePlaceSpec(old(repo.db), id, payload, old(clock.time) + 1)
      ensures clock.time == old(clock.time) + 1
    {
      var now := clock.Now();
      r := UpdatePlaceIn(repo, id, payload, now);
    }

    method CreateReview(payload: Payload) returns (r: Result<Payload>)
      requires Valid()
      modifies repo, ids, clock
      ensures Valid()
      ensures (r, repo.db) == CreateReviewSpec(old(repo.db), payload, Show(old(ids.next)), old(clock.time) + 1)
      ensures ids.next == old(ids.next) + 1 && clock.time == old(clock.time) + 2
    {
      var freshId, t1, t2 := Draw();
      var user := Resolve(repo, "User", Lookup(payload, "user_id"));
      if user.Err? {
        return Err(user.error);
      }
      if user.value.None? {
        return Err(BadRequest(UserMissing));
      }
      var place := Resolve(repo, "Place", Lookup(payload, "place_id"));
      if place.Err? {
        return Err(place.error);
      }
      if place.value.None? {
        return Err(BadRequest(PlaceMissing));
      }
      var built := HbnbReview.New(payload, freshId, t1, t2);
      if built.Err? {
        return Err(built.error);
      }
      var verdict := HbnbReview.Validate(built.value);
      if verdict.Fail? {
        return Err(verdict.error);
      }
      var _ := repo.Add(ReviewO(built.value));
      r := Ok(HbnbReview.ToDict(built.value));
    }

    method ListReviewsForPlace(placeId: string) returns (r: seq<Payload>)
      requires Valid()
      ensures r == ReviewsForPlaceSpec(repo.db, placeId)
    {
      var xs := repo.List("Review", Some(x => OfPlace(x, placeId)));
      r := seq(|xs|, i requires 0 <= i < |xs| => ToDict(xs[i]));
    }

    method DeleteReview(id: string) returns (r: Outcome)
      requires Valid()
      modifies repo
      ensures Valid()
      ensures (r, repo.db) == DeleteReviewSpec(old(repo.db), id)
    {
      var found := repo.Get("Review", id);
      if found.None? {
        return Fail(NotFound);
      }
      repo.Delete("Review", id);
      r := Pass;
    }
  }
}
