/** HBnBFacade of part3/app_old/services/facade.py: a process-wide singleton holding one
    InMemoryRepository per entity kind. It checks that referenced users, places and
    amenities exist before building new entities, and applies per-entity whitelists
    to updates. The uuid generator and the wall clock are the IdSource and Clock
    objects it holds. Stored objects are values, so a change the source makes to a
    stored object in place is written back under the object's id. */
module OldFacade {
  import opened Common
  import opened OldBase
  import opened OldObjects
  import opened OldRepository
  import opened Tables
  import OldUser
  import OldPlace
  import OldReview
  import OldAmenity
  import Email

  const UserWhitelist: set<string> := {"first_name", "last_name", "email"}
  const PlaceWhitelist: set<string> := {"title", "description", "price", "latitude", "longitude"}
  const ReviewWhitelist: set<string> := {"text", "rating"}
  const AmenityWhitelist: set<string> := {"name"}

  /** Every object of the store is of the named class. */
  predicate OnlyClass(s: Store, cls: string)
  {
    forall k :: k in s.items ==> ClassName(s.items[k]) == cls
  }

  /** What the facade keeps true of each of its repositories. */
  ghost predicate Tidy(s: Store, cls: string, issued: set<string>)
  {
    WellFormed(s) && KeysAreIds(s) && OnlyClass(s, cls) && s.items.Keys <= issued
  }

  /** The key names a stored object. */
  predicate Found(s: Store, key: Value)
  {
    key.Str? && key.s in s.items
  }

  /** `repo.get(key)` for any payload value: `dict.get` raises TypeError on a list or
      dict key, and any other non-string key is never stored. */
  function Fetch(s: Store, key: Value): (r: Result<Option<Obj>>)
    ensures r.Err? <==> IsUnhashable(key)
    ensures r.Err? ==> r.error == TypeError(Unhashable)
    ensures r.Ok? ==> (r.value.Some? <==> Found(s, key))
    ensures r.Ok? && r.value.Some? ==> r.value.value == s.items[key.s]
  {
    if IsUnhashable(key) then Err(TypeError(Unhashable))
    else if key.Str? && key.s in s.items then Ok(Some(s.items[key.s]))
    else Ok(None)
  }

  /** What create_place and create_review raise for a key that finds nothing: the
      lookup itself raises on an unhashable key, and the facade raises ValueError with
      the given message otherwise. */
  function Missing(key: Value, message: string): (e: Error)
    ensures IsUnhashable(key) ==> e == TypeError(Unhashable)
    ensures !IsUnhashable(key) ==> e == ValueError(message)
  {
    if IsUnhashable(key) then TypeError(Unhashable) else ValueError(message)
  }

  // ----- updates -----

  /** update_* as written: the whitelisted keys are set on the stored object, then the
      object is validated and, if valid, saved. A failed validation raises after the
      stored object was already changed. */
  function UpdateAsWritten(s: Store, id: string, data: Payload, allowed: set<string>, now: nat)
    : (r: (Result<Option<Obj>>, Store))
    requires WellFormed(s)
    ensures WellFormed(r.1)
  {
    if id !in s.items then (Ok(None), s)
    else
      var p := Patch(s.items[id], Restrict(data, Attrs(s.items[id]) * allowed));
      match ValidateObj(p)
      case Fail(e) => (Err(e), Put(s, id, p))
      case Pass => (Ok(Some(Touch(p, now))), Put(s, id, Touch(p, now)))
  }

  /** update_* as evidently intended: the patched copy is validated first and stored
      only when valid. */
  function UpdateChecked(s: Store, id: string, data: Payload, allowed: set<string>, now: nat)
    : (r: (Result<Option<Obj>>, Store))
    requires WellFormed(s)
    ensures WellFormed(r.1)
  {
    if id !in s.items then (Ok(None), s)
    else
      var p := Patch(s.items[id], Restrict(data, Attrs(s.items[id]) * allowed));
      match ValidateObj(p)
      case Fail(e) => (Err(e), s)
      case Pass => (Ok(Some(Touch(p, now))), Put(s, id, Touch(p, now)))
  }

  /** What every update promises: an unknown id gives None and no change; otherwise only
      the entry under id changes, only whitelisted attributes change, and the id and
      created_at stay. */
  lemma {:induction false} UpdateCheckedEffect(s: Store, id: string, data: Payload, allowed: set<string>, now: nat, k: string)
    requires WellFormed(s) && KeysAreIds(s) && "id" !in allowed && "created_at" !in allowed
    ensures id !in s.items ==> UpdateChecked(s, id, data, allowed, now) == (Ok(None), s)
    ensures id in s.items ==>
              var t := UpdateChecked(s, id, data, allowed, now).1;
              t.order == s.order && t.items.Keys == s.items.Keys
              && (forall j :: j in s.items && j != id ==> t.items[j] == s.items[j])
              && Id(t.items[id]) == id
              && BaseOf(t.items[id]).createdAt == BaseOf(s.items[id]).createdAt
              && ClassName(t.items[id]) == ClassName(s.items[id])
              && (HasAttr(s.items[id], k) && k !in allowed && k !in Protected ==>
                    GetAttr(t.items[id], k) == GetAttr(s.items[id], k))
  {
    if id in s.items {
      var o := s.items[id];
      var m := Restrict(data, Attrs(o) * allowed);
      var p := Patch(o, m);
      KeepsId(o, m);
      PatchGetAttr(o, m, "created_at");
      if HasAttr(o, k) {
        PatchGetAttr(o, m, k);
        if k !in Protected {
          TouchKeepsAttr(p, now, k);
        }
      }
      UpdateCheckedStores(s, id, data, allowed, now);
    }
  }

  /** A save changes no attribute but the base ones. */
  lemma TouchKeepsAttr(p: Obj, now: nat, k: string)
    requires HasAttr(p, k) && k !in Protected
    ensures HasAttr(Touch(p, now), k) && GetAttr(Touch(p, now), k) == GetAttr(p, k)
  {
    match p
    case UserObj(_) =>
    case PlaceObj(_) =>
    case ReviewObj(_) =>
    case AmenityObj(_) =>
  }

  /** A checked update of a known id keeps the store's keys and order, and either
      leaves the store alone or stores the saved patch under id. */
  lemma UpdateCheckedStores(s: Store, id: string, data: Payload, allowed: set<string>, now: nat)
    requires WellFormed(s) && id in s.items
    ensures var p := Patch(s.items[id], Restrict(data, Attrs(s.items[id]) * allowed));
            var t := UpdateChecked(s, id, data, allowed, now).1;
            && t.order == s.order && t.items.Keys == s.items.Keys
            && (t == s || t.items == s.items[id := Touch(p, now)])
  {
  }

  /** The defect of the update code as written: a stored, valid user whose first_name is
      patched to "" makes update_user raise, and the stored user is left with the empty
      first_name. */
  lemma UpdateAsWrittenKeepsInvalidPatch()
    ensures var b := Base("u1", 1, 2);
            var u := OldUser.User(b, Str("a@b.io"), Str("Ann"), Str("Lee"), Bool(false));
            var s := Table(map["u1" := UserObj(u)], ["u1"]);
            var data := map["first_name" := Str("")];
            var r := UpdateAsWritten(s, "u1", data, UserWhitelist, 3);
            OldUser.Validate(u) == Pass
            && r.0 == Err(ValueError(OldUser.FirstNameRequired))
            && r.1.items["u1"] == UserObj(u.(firstName := Str("")))
            && OldUser.Validate(r.1.items["u1"].user).Fail?
  {
    var u := OldUser.User(Base("u1", 1, 2), Str("a@b.io"), Str("Ann"), Str("Lee"), Bool(false));
    SampleUserValid(u.base);
    var s := Table(map["u1" := UserObj(u)], ["u1"]);
    var data := map["first_name" := Str("")];
    var bad := UserObj(u.(firstName := Str("")));
    assert "first_name" in Attrs(UserObj(u)) * UserWhitelist;
    assert Restrict(data, Attrs(UserObj(u)) * UserWhitelist) == data;
    assert Patch(UserObj(u), data) == bad;
    assert ValidateObj(bad) == Fail(ValueError(OldUser.FirstNameRequired));
    assert UpdateAsWritten(s, "u1", data, UserWhitelist, 3) == (Err(ValueError(OldUser.FirstNameRequired)), Put(s, "u1", bad));
  }

  /** The user of the example above passes validate(). */
  lemma SampleUserValid(b: Base)
    ensures OldUser.Validate(OldUser.User(b, Str("a@b.io"), Str("Ann"), Str("Lee"), Bool(false))) == Pass
  {
    Email.StrictEmailCorrect("a@b.io");
    assert Email.StrictSplit("a@b.io", 1, 3);
  }

  /** The intended update never stores an object that fails validation and leaves the
      store as it was when it raises. */
  lemma {:induction false} UpdateCheckedIsAtomic(s: Store, id: string, data: Payload, allowed: set<string>, now: nat)
    requires WellFormed(s)
    requires forall k :: k in s.items ==> ValidateObj(s.items[k]).Pass?
    ensures var r := UpdateChecked(s, id, data, allowed, now);
            (r.0.Err? ==> r.1 == s)
            && (forall k :: k in r.1.items ==> ValidateObj(r.1.items[k]).Pass?)
  {
    if id in s.items {
      var p := Patch(s.items[id], Restrict(data, Attrs(s.items[id]) * allowed));
      ValidateIgnoresBase(p, Save(BaseOf(p), now));
    }
  }

  // ----- delete_place -----

  /** delete_place as written: an unknown id reaches `raise NotFoundError()`, a name that
      is not defined in the module; a known id reaches `self.repo.delete(...)`, an
      attribute the facade does not have. Either way nothing is deleted. */
  function DeletePlaceAsWritten(s: Store, id: string): (r: (Result<bool>, Store))
  {
    if id !in s.items then (Err(NameError("name 'NotFoundError' is not defined")), s)
    else (Err(AttributeError("'HBnBFacade' object has no attribute 'repo'")), s)
  }

  /** delete_place as evidently intended: NotFound for an unknown id, otherwise the
      place repository's delete. */
  function DeletePlaceChecked(s: Store, id: string): (r: (Result<bool>, Store))
    requires WellFormed(s)
    ensures WellFormed(r.1)
  {
    if id !in s.items then (Err(NotFound), s)
    else (Ok(DeleteSpec(s, id).0), DeleteSpec(s, id).1)
  }

  /** As written, delete_place fails on every input and never removes a place. */
  lemma DeletePlaceAsWrittenNeverDeletes(s: Store, id: string)
    ensures DeletePlaceAsWritten(s, id).0.Err? && DeletePlaceAsWritten(s, id).1 == s
    ensures id in s.items ==> id in DeletePlaceAsWritten(s, id).1.items
  {
  }

  /** As intended, delete_place removes a stored place and returns true, and raises
      NotFound otherwise. */
  lemma DeletePlaceCheckedDeletes(s: Store, id: string)
    requires WellFormed(s)
    ensures id in s.items ==> DeletePlaceChecked(s, id).0 == Ok(true)
                              && DeletePlaceChecked(s, id).1.items == s.items - {id}
    ensures id !in s.items ==> DeletePlaceChecked(s, id) == (Err(NotFound), s)
  {
    DeleteEffect(s, id);
  }

  // ----- queries -----

  /** The element filter of get_reviews_by_place. */
  predicate ReviewOfPlace(o: Obj, placeId: string)
  {
    o.ReviewObj? && o.review.placeId == Some(placeId)
  }

  /** get_reviews_by_place: exactly the stored reviews whose place_id is the argument. */
  function ReviewsByPlace(vals: seq<Obj>, placeId: string): (r: seq<Obj>)
    ensures forall x :: x in r <==> x in vals && ReviewOfPlace(x, placeId)
  {
    Filter(vals, (o: Obj) => ReviewOfPlace(o, placeId))
  }

  /** The amenity ids of a create_place payload, `place_data.get('amenities', [])` as the
      loop iterates it: absent means [], a list gives its items, a string its characters
      and a dict its keys; anything else is not iterable. */
  function AmenityItems(data: Payload): (r: Result<seq<Value>>)
    ensures "amenities" !in data ==> r == Ok([])
    ensures "amenities" in data ==> r == Iterate(data["amenities"])
  {
    Iterate(LookupOr(data, "amenities", List([])))
  }

  /** An empty string is an empty loop, a string is looped over by character and a
      one-key dict by its key. */
  lemma AmenityItemsExamples()
    ensures AmenityItems(map["amenities" := Str("")]) == Ok([])
    ensures AmenityItems(map["amenities" := Str("ab")]) == Ok([Str("a"), Str("b")])
    ensures AmenityItems(map["amenities" := Dict(map["a1" := Int(1)])]) == Ok([Str("a1")])
  {
    assert Chars("ab") == [Str("a"), Str("b")];
    var keys := Iterate(Dict(map["a1" := Int(1)])).value;
    assert |keys| == 1 && keys[0] in keys;
    assert keys == [Str("a1")];
  }

  /** `repo.get(key)` on a repository. */
  method Get(repo: InMemoryRepository, key: Value) returns (r: Result<Option<Obj>>)
    ensures r == Fetch(repo.State(), key)
  {
    if IsUnhashable(key) {
      r := Err(TypeError(Unhashable));
    } else if key.Str? {
      var found := repo.Get(key.s);
      r := Ok(found);
    } else {
      r := Ok(None);
    }
  }

  predicate AllResolve(s: Store, items: seq<Value>)
  {
    forall i :: 0 <= i < |items| ==> Found(s, items[i])
  }

  /** The ids of a resolving list of amenity ids. */
  function Keys(items: seq<Value>): (r: seq<string>)
    requires forall i :: 0 <= i < |items| ==> items[i].Str?
    ensures |r| == |items| && forall i :: 0 <= i < |items| ==> r[i] == items[i].s
  {
    if items == [] then [] else [items[0].s] + Keys(items[1..])
  }

  // ----- what the facade keeps true of its repositories -----

  lemma TidyGrow(s: Store, cls: string, a: set<string>, b: set<string>)
    requires Tidy(s, cls, a) && a <= b
    ensures Tidy(s, cls, b)
  {
  }

  lemma PutKeepsTidy(s: Store, obj: Obj, cls: string, issued: set<string>)
    requires Tidy(s, cls, issued) && ClassName(obj) == cls && Id(obj) in issued
    ensures Tidy(Put(s, Id(obj), obj), cls, issued)
  {
  }

  lemma AddKeepsTidy(s: Store, obj: Obj, cls: string, issued: set<string>)
    requires Tidy(s, cls, issued) && ClassName(obj) == cls && Id(obj) in issued
    ensures Tidy(AddSpec(s, obj).1, cls, issued)
  {
    PutKeepsTidy(s, obj, cls, issued);
  }

  lemma DeleteKeepsTidy(s: Store, id: string, cls: string, issued: set<string>)
    requires Tidy(s, cls, issued)
    ensures Tidy(DeleteSpec(s, id).1, cls, issued)
  {
    DeleteEffect(s, id);
  }

  /** An update keeps a repository tidy: the keys stay, the ids and classes of the
      stored objects stay. */
  lemma UpdateKeepsTidy(s: Store, cls: string, issued: set<string>, id: string, data: Payload,
                        allowed: set<string>, now: nat)
    requires Tidy(s, cls, issued) && "id" !in allowed && "created_at" !in allowed
    ensures Tidy(UpdateChecked(s, id, data, allowed, now).1, cls, issued)
  {
    UpdateCheckedEffect(s, id, data, allowed, now, "id");
  }

  ghost predicate Holds(repo: InMemoryRepository, cls: string, issued: set<string>)
    reads repo
  {
    repo.Valid() && Tidy(repo.State(), cls, issued)
  }

  /** The setattr loop over a whitelist, the validation and the save shared by the
      four update_* methods, with the patched object stored only once it is valid. */
  method ApplyUpdate(repo: InMemoryRepository, clock: Clock, id: string, data: Payload, allowed: set<string>)
    returns (r: Result<Option<Obj>>)
    requires repo.Valid()
    modifies repo, clock
    ensures repo.Valid()
    ensures (r, repo.State()) == UpdateChecked(old(repo.State()), id, data, allowed, old(clock.time) + 1)
  {
    var found := repo.Get(id);
    if found.None? {
      return Ok(None);
    }
    var o := SetAttrs(found.value, data, allowed);
    var verdict := ValidateObj(o);
    if verdict.Fail? {
      return Err(verdict.error);
    }
    var now := clock.Now();
    var saved := Touch(o, now);
    repo.Assign(id, saved);
    r := Ok(Some(saved));
  }

  /** An update of one of the facade's repositories, which stays tidy. */
  method UpdateIn(repo: InMemoryRepository, clock: Clock, id: string, data: Payload, allowed: set<string>,
                  ghost cls: string, ghost issued: set<string>)
    returns (r: Result<Option<Obj>>)
    requires Holds(repo, cls, issued) && "id" !in allowed && "created_at" !in allowed
    modifies repo, clock
    ensures Holds(repo, cls, issued)
    ensures (r, repo.State()) == UpdateChecked(old(repo.State()), id, data, allowed, old(clock.time) + 1)
  {
    ghost var before, now := repo.State(), clock.time + 1;
    r := ApplyUpdate(repo, clock, id, data, allowed);
    UpdateKeepsTidy(before, cls, issued, id, data, allowed, now);
  }

  /** repo.add(obj) on one of the facade's repositories, which stays tidy. */
  method AddTo(repo: InMemoryRepository, obj: Obj, ghost cls: string, ghost issued: set<string>)
    returns (r: Outcome)
    requires Holds(repo, cls, issued) && ClassName(obj) == cls && Id(obj) in issued
    modifies repo
    ensures Holds(repo, cls, issued)
    ensures (r, repo.State()) == AddSpec(old(repo.State()), obj)
  {
    AddKeepsTidy(repo.State(), obj, cls, issued);
    r := repo.Add(obj);
  }

  /** Only users have an email attribute. */
  lemma OnlyUsersHaveEmail(o: Obj)
    requires !o.UserObj?
    ensures !HasAttr(o, "email")
  {
  }

  /** repo.add(obj) for a place, review or amenity: there is no email to check, so it
      always stores the object. */
  method AddEntity(repo: InMemoryRepository, obj: Obj, ghost cls: string, ghost issued: set<string>)
    requires Holds(repo, cls, issued) && ClassName(obj) == cls && Id(obj) in issued && !obj.UserObj?
    modifies repo
    ensures Holds(repo, cls, issued)
    ensures repo.State() == Put(old(repo.State()), Id(obj), obj)
  {
    OnlyUsersHaveEmail(obj);
    AddWithoutEmail(repo.State(), obj);
    AddKeepsTidy(repo.State(), obj, cls, issued);
    var added := repo.Add(obj);
  }

  /** The amenity loop of create_place: every id must name a stored amenity; the first
      one that does not raises. */
  method ResolveAll(repo: InMemoryRepository, items: seq<Value>) returns (r: Result<seq<string>>)
    ensures r.Ok? <==> AllResolve(repo.State(), items)
    ensures r.Ok? ==> r.value == Keys(items)
    ensures r.Err? ==> exists i :: 0 <= i < |items| && AllResolve(repo.State(), items[..i])
                         && !Found(repo.State(), items[i])
                         && r.error == Missing(items[i], "Amenity with ID " + PyStr(items[i]) + " not found")
  {
    var found: seq<string> := [];
    var i := 0;
    while i < |items|
      invariant 0 <= i <= |items|
      invariant AllResolve(repo.State(), items[..i])
      invariant found == Keys(items[..i])
    {
      var a := Get(repo, items[i]);
      if a.Err? {
        return Err(a.error);
      }
      if a.value.None? {
        return Err(ValueError("Amenity with ID " + PyStr(items[i]) + " not found"));
      }
      assert items[..i + 1] == items[..i] + [items[i]];
      KeysAppend(items[..i], [items[i]]);
      found := found + [items[i].s];
      i := i + 1;
    }
    assert items[..i] == items;
    r := Ok(found);
  }

  /** Every id of a resolving list names a stored object. */
  lemma KeysResolve(s: Store, items: seq<Value>)
    requires AllResolve(s, items)
    ensures forall a :: a in OldPlace.AppendAll([], Keys(items)) ==> a in s.items
  {
    forall a | a in OldPlace.AppendAll([], Keys(items)) ensures a in s.items {
      var i :| 0 <= i < |Keys(items)| && Keys(items)[i] == a;
      assert Found(s, items[i]);
    }
  }

  /** The Place constructor on a fresh base, owned by the given user, then the
      add_amenity loop over the resolved ids. */
  method BuildPlace(b: Base, data: Payload, ownerId: string, found: seq<string>, clock: Clock)
    returns (r: Result<OldPlace.Place>)
    modifies clock
    ensures r.Ok? ==> OldPlace.ValidPlace(r.value)
                      && r.value.owner == Some(ownerId) && r.value.ownerId == r.value.owner
                      && r.value.amenities == OldPlace.AppendAll([], found)
                      && NoDup(r.value.amenities)
                      && r.value.reviews == [] && r.value.base.id == b.id
  {
    var built := OldPlace.Construct(b, Lookup(data, "title"), Lookup(data, "price"),
                                    Lookup(data, "latitude"), Lookup(data, "longitude"),
                                    Some(ownerId), LookupOr(data, "description", Str("")), None);
    if built.Err? {
      return Err(built.error);
    }
    var place := AttachAmenities(built.value, found, clock);
    OldPlace.AppendAllProperties([], found);
    r := Ok(place);
  }

  /** The add_amenity loop of create_place: each id is added unless present, and the
      place is saved each time one is. */
  method AttachAmenities(place: OldPlace.Place, xs: seq<string>, clock: Clock) returns (p: OldPlace.Place)
    modifies clock
    ensures p == place.(amenities := OldPlace.AppendAll(place.amenities, xs), base := p.base)
    ensures p.base.id == place.base.id && p.base.createdAt == place.base.createdAt
  {
    p := place;
    var j := 0;
    while j < |xs|
      invariant 0 <= j <= |xs|
      invariant p == place.(amenities := OldPlace.AppendAll(place.amenities, xs[..j]), base := p.base)
      invariant p.base.id == place.base.id && p.base.createdAt == place.base.createdAt
    {
      assert xs[..j + 1][..j] == xs[..j];
      if xs[j] !in p.amenities {
        var now := clock.Now();
        p := OldPlace.AddAmenity(p, Some(xs[j]), now).value;
      }
      j := j + 1;
    }
    assert xs[..j] == xs;
  }

  /** `place.add_review(review)` on a stored place: the review id is added unless present,
      the place is saved when it is, and the place is written back. */
  method AttachReview(repo: InMemoryRepository, placeId: string, reviewId: string, clock: Clock,
                      ghost issued: set<string>)
    requires Holds(repo, "Place", issued) && placeId in repo.State().items
    modifies repo, clock
    ensures Holds(repo, "Place", issued)
    ensures repo.State().items.Keys == old(repo.State()).items.Keys
    ensures repo.State().items[placeId].PlaceObj?
    ensures repo.State().items[placeId].place.reviews
              == OldPlace.AppendNew(old(repo.State()).items[placeId].place.reviews, reviewId)
    ensures forall k :: k in repo.State().items && k != placeId ==> repo.State().items[k] == old(repo.State()).items[k]
  {
    var place := repo.items[placeId].place;
    var updated := place;
    if reviewId !in place.reviews {
      var now := clock.Now();
      updated := OldPlace.AddReview(place, Some(reviewId), now).value;
    }
    PutKeepsTidy(repo.State(), PlaceObj(updated), "Place", issued);
    repo.Assign(placeId, PlaceObj(updated));
  }

  class HBnBFacade {
    const userRepo: InMemoryRepository
    const placeRepo: InMemoryRepository
    const reviewRepo: InMemoryRepository
    const amenityRepo: InMemoryRepository
    const ids: IdSource
    const clock: Clock

    ghost predicate Valid()
      reads userRepo, placeRepo, reviewRepo, amenityRepo, ids
    {
      userRepo != placeRepo && userRepo != reviewRepo && userRepo != amenityRepo
      && placeRepo != reviewRepo && placeRepo != amenityRepo && reviewRepo != amenityRepo
      && ids.Valid()
      && Holds(userRepo, "User", ids.issued)
      && Holds(placeRepo, "Place", ids.issued)
      && Holds(reviewRepo, "Review", ids.issued)
      && Holds(amenityRepo, "Amenity", ids.issued)
    }

    /** The one-time initialisation: four empty repositories. */
    constructor ()
      ensures Valid()
      ensures userRepo.State() == Empty() && placeRepo.State() == Empty()
      ensures reviewRepo.State() == Empty() && amenityRepo.State() == Empty()
      ensures fresh(userRepo) && fresh(placeRepo) && fresh(reviewRepo) && fresh(amenityRepo)
      ensures fresh(ids) && fresh(clock)
    {
      userRepo := new InMemoryRepository();
      placeRepo := new InMemoryRepository();
      reviewRepo := new InMemoryRepository();
      amenityRepo := new InMemoryRepository();
      ids := new IdSource();
      clock := new Clock();
    }

    /** BaseModel.__init__ for a new entity: an id no repository holds and two clock readings. */
    method NewEntityBase() returns (b: Base)
      requires Valid()
      modifies ids, clock
      ensures Valid()
      ensures b.id !in old(ids.issued) && b.id in ids.issued
      ensures old(clock.time) < b.createdAt < b.updatedAt == clock.time
    {
      b := NewBase(ids, clock);
      TidyGrow(userRepo.State(), "User", old(ids.issued), ids.issued);
      TidyGrow(placeRepo.State(), "Place", old(ids.issued), ids.issued);
      TidyGrow(reviewRepo.State(), "Review", old(ids.issued), ids.issued);
      TidyGrow(amenityRepo.State(), "Amenity", old(ids.issued), ids.issued);
    }

    // ----- users -----

    /** create_user: build a User from the payload (is_admin defaults to False), then
        add it, which refuses an email some stored user already has. */
    method CreateUser(data: Payload) returns (r: Result<OldUser.User>)
      requires Valid()
      modifies userRepo, ids, clock
      ensures Valid()
      ensures r.Ok? ==> OldUser.ValidUser(r.value)
      ensures r.Ok? ==> r.value.email == Lookup(data, "email")
                        && r.value.firstName == Lookup(data, "first_name")
                        && r.value.lastName == Lookup(data, "last_name")
                        && r.value.isAdmin == LookupOr(data, "is_admin", OldUser.DefaultIsAdmin)
      ensures r.Ok? ==> r.value.base.id !in old(userRepo.State()).items
                        && userRepo.State() == Put(old(userRepo.State()), r.value.base.id, UserObj(r.value))
      ensures r.Ok? ==> forall k :: k in old(userRepo.State()).items ==>
                          !Matches(old(userRepo.State()).items[k], "email", r.value.email)
      ensures r.Err? ==> r.error.ValueError? && userRepo.State() == old(userRepo.State())
      ensures (exists k :: k in old(userRepo.State()).items
                 && Matches(old(userRepo.State()).items[k], "email", Lookup(data, "email")))
              ==> r.Err?
    {
      var b := NewEntityBase();
      var built := OldUser.Construct(b, Lookup(data, "email"), Lookup(data, "first_name"),
                                     Lookup(data, "last_name"),
                                     LookupOr(data, "is_admin", OldUser.DefaultIsAdmin));
      if built.Err? {
        return Err(built.error);
      }
      var u := built.value;
      AddFreshEmailCheck(userRepo.State(), UserObj(u));
      AddKeepsTidy(userRepo.State(), UserObj(u), "User", ids.issued);
      var added := userRepo.Add(UserObj(u));
      if added.Fail? {
        return Err(added.error);
      }
      r := Ok(u);
    }

    method GetUser(id: string) returns (r: Option<Obj>)
      requires Valid()
      ensures r.Some? <==> id in userRepo.State().items
      ensures r.Some? ==> r.value == userRepo.State().items[id] && r.value.UserObj? && Id(r.value) == id
    {
      r := userRepo.Get(id);
    }

    method GetAllUsers() returns (r: seq<Obj>)
      requires Valid()
      ensures r == Values(userRepo.State())
    {
      r := userRepo.GetAll();
    }

    /** update_user: only first_name, last_name and email can change. */
    method UpdateUser(id: string, data: Payload) returns (r: Result<Option<Obj>>)
      requires Valid()
      modifies userRepo, clock
      ensures Valid()
      ensures (r, userRepo.State()) == UpdateChecked(old(userRepo.State()), id, data, UserWhitelist, old(clock.time) + 1)
    {
      r := UpdateIn(userRepo, clock, id, data, UserWhitelist, "User", ids.issued);
    }

    /** delete_user: true iff the id was stored, and then it is removed. */
    method DeleteUser(id: string) returns (b: bool)
      requires Valid()
      modifies userRepo
      ensures Valid()
      ensures (b, userRepo.State()) == DeleteSpec(old(userRepo.State()), id)
    {
      DeleteKeepsTidy(userRepo.State(), id, "User", ids.issued);
      b := userRepo.Delete(id);
    }

    // ----- places -----

    /** create_place: the owner and every listed amenity must exist before the place is
        built; the place then receives the amenities in list order (add_amenity skips
        repeats) and is stored. */
    method CreatePlace(data: Payload) returns (r: Result<OldPlace.Place>)
      requires Valid()
      modifies placeRepo, ids, clock
      ensures Valid()
      ensures !Found(userRepo.State(), Lookup(data, "owner_id")) ==>
                r == Err(Missing(Lookup(data, "owner_id"), "Owner with ID " + PyStr(Lookup(data, "owner_id")) + " not found"))
                && unchanged(ids) && unchanged(clock)
      ensures AmenityItems(data).Ok? && !AllResolve(amenityRepo.State(), AmenityItems(data).value) ==>
                r.Err? && unchanged(ids) && unchanged(clock)
      ensures r.Err? ==> placeRepo.State() == old(placeRepo.State())
      ensures r.Ok? ==> AmenityItems(data).Ok? && AllResolve(amenityRepo.State(), AmenityItems(data).value)
      ensures r.Ok? ==> OldPlace.ValidPlace(r.value)
                        && r.value.owner.Some? && Lookup(data, "owner_id") == Str(r.value.owner.value)
                        && r.value.ownerId == r.value.owner
                        && r.value.amenities == OldPlace.AppendAll([], Keys(AmenityItems(data).value))
                        && NoDup(r.value.amenities)
                        && (forall a :: a in r.value.amenities ==> a in amenityRepo.State().items)
                        && r.value.reviews == []
      ensures r.Ok? ==> r.value.base.id !in old(placeRepo.State()).items
                        && placeRepo.State() == Put(old(placeRepo.State()), r.value.base.id, PlaceObj(r.value))
    {
      var ownerKey := Lookup(data, "owner_id");
      var owner := Get(userRepo, ownerKey);
      if owner.Err? {
        return Err(owner.error);
      }
      if owner.value.None? {
        return Err(ValueError("Owner with ID " + PyStr(ownerKey) + " not found"));
      }
      var listed := AmenityItems(data);
      if listed.Err? {
        return Err(listed.error);
      }
      var found := ResolveAll(amenityRepo, listed.value);
      if found.Err? {
        return Err(found.error);
      }
      var b := NewEntityBase();
      var built := BuildPlace(b, data, Id(owner.value.value), found.value, clock);
      if built.Err? {
        return Err(built.error);
      }
      var place := built.value;
      KeysResolve(amenityRepo.State(), listed.value);
      ghost var before := placeRepo.State();
      assert before == old(placeRepo.State());
      AddEntity(placeRepo, PlaceObj(place), "Place", ids.issued);
      assert placeRepo.State() == Put(before, place.base.id, PlaceObj(place));
      r := Ok(place);
    }

    method GetPlace(id: string) returns (r: Option<Obj>)
      requires Valid()
      ensures r.Some? <==> id in placeRepo.State().items
      ensures r.Some? ==> r.value == placeRepo.State().items[id] && r.value.PlaceObj? && Id(r.value) == id
    {
      r := placeRepo.Get(id);
    }

    method GetAllPlaces() returns (r: seq<Obj>)
      requires Valid()
      ensures r == Values(placeRepo.State())
    {
      r := placeRepo.GetAll();
    }

    /** update_place: only title, description, price, latitude and longitude can change. */
    method UpdatePlace(id: string, data: Payload) returns (r: Result<Option<Obj>>)
      requires Valid()
      modifies placeRepo, clock
      ensures Valid()
      ensures (r, placeRepo.State()) == UpdateChecked(old(placeRepo.State()), id, data, PlaceWhitelist, old(clock.time) + 1)
    {
      r := UpdateIn(placeRepo, clock, id, data, PlaceWhitelist, "Place", ids.issued);
    }

    /** delete_place exactly as written: it never reaches the repository. */
    method DeletePlace(id: string) returns (r: Result<bool>)
      requires Valid()
      ensures (r, placeRepo.State()) == DeletePlaceAsWritten(placeRepo.State(), id)
    {
      var found := placeRepo.Get(id);
      if found.None? {
        return Err(NameError("name 'NotFoundError' is not defined"));
      }
      r := Err(AttributeError("'HBnBFacade' object has no attribute 'repo'"));
    }

    /** delete_place as intended. */
    method DeletePlaceFixed(id: string) returns (r: Result<bool>)
      requires Valid()
      modifies placeRepo
      ensures Valid()
      ensures (r, placeRepo.State()) == DeletePlaceChecked(old(placeRepo.State()), id)
    {
      var found := placeRepo.Get(id);
      if found.None? {
        return Err(NotFound);
      }
      DeleteKeepsTidy(placeRepo.State(), id, "Place", ids.issued);
      var b := placeRepo.Delete(id);
      r := Ok(b);
    }

    // ----- reviews -----

    /** create_review: the user and the place must exist; the review is built and
        validated, added to the place's reviews (which saves the place) and stored. */
    method CreateReview(data: Payload) returns (r: Result<OldReview.Review>)
      requires Valid()
      modifies placeRepo, reviewRepo, ids, clock
      ensures Valid()
      ensures !Found(userRepo.State(), Lookup(data, "user_id")) ==>
                r == Err(Missing(Lookup(data, "user_id"), "User with ID " + PyStr(Lookup(data, "user_id")) + " not found"))
      ensures Found(userRepo.State(), Lookup(data, "user_id"))
              && !Found(old(placeRepo.State()), Lookup(data, "place_id")) ==>
                r == Err(Missing(Lookup(data, "place_id"), "Place with ID " + PyStr(Lookup(data, "place_id")) + " not found"))
      ensures r.Err? ==> placeRepo.State() == old(placeRepo.State()) && reviewRepo.State() == old(reviewRepo.State())
      ensures r.Ok? ==> OldReview.ValidReview(r.value)
                        && r.value.userId.Some? && Lookup(data, "user_id") == Str(r.value.userId.value)
                        && r.value.placeId.Some? && Lookup(data, "place_id") == Str(r.value.placeId.value)
                        && r.value.text == Lookup(data, "text") && r.value.rating == Lookup(data, "rating")
      ensures r.Ok? ==> var pid := r.value.placeId.value;
                        pid in old(placeRepo.State()).items
                        && placeRepo.State().items.Keys == old(placeRepo.State()).items.Keys
                        && placeRepo.State().items[pid].PlaceObj?
                        && placeRepo.State().items[pid].place.reviews
                             == OldPlace.AppendNew(old(placeRepo.State()).items[pid].place.reviews, r.value.base.id)
      ensures r.Ok? ==> r.value.base.id !in old(reviewRepo.State()).items
                        && reviewRepo.State() == Put(old(reviewRepo.State()), r.value.base.id, ReviewObj(r.value))
    {
      var userKey := Lookup(data, "user_id");
      var user := Get(userRepo, userKey);
      if user.Err? {
        return Err(user.error);
      }
      if user.value.None? {
        return Err(ValueError("User with ID " + PyStr(userKey) + " not found"));
      }
      var placeKey := Lookup(data, "place_id");
      var found := Get(placeRepo, placeKey);
      if found.Err? {
        return Err(found.error);
      }
      if found.value.None? {
        return Err(ValueError("Place with ID " + PyStr(placeKey) + " not found"));
      }
      var b := NewEntityBase();
      var built := OldReview.Construct(b, Lookup(data, "text"), Lookup(data, "rating"),
                                       Some(Id(found.value.value)), Some(Id(user.value.value)));
      if built.Err? {
        return Err(built.error);
      }
      AttachReview(placeRepo, Id(found.value.value), b.id, clock, ids.issued);
      ghost var before := reviewRepo.State();
      assert before == old(reviewRepo.State());
      AddEntity(reviewRepo, ReviewObj(built.value), "Review", ids.issued);
      r := Ok(built.value);
    }

    method GetReview(id: string) returns (r: Option<Obj>)
      requires Valid()
      ensures r.Some? <==> id in reviewRepo.State().items
      ensures r.Some? ==> r.value == reviewRepo.State().items[id] && r.value.ReviewObj? && Id(r.value) == id
    {
      r := reviewRepo.Get(id);
    }

    method GetAllReviews() returns (r: seq<Obj>)
      requires Valid()
      ensures r == Values(reviewRepo.State())
    {
      r := reviewRepo.GetAll();
    }

    /** get_reviews_by_place: exactly the stored reviews with that place_id, in storage order. */
    method GetReviewsByPlace(placeId: string) returns (r: seq<Obj>)
      requires Valid()
      ensures r == ReviewsByPlace(Values(reviewRepo.State()), placeId)
      ensures forall x :: x in r <==> x in Values(reviewRepo.State()) && ReviewOfPlace(x, placeId)
    {
      var all := reviewRepo.GetAll();
      r := Filter(all, (o: Obj) => ReviewOfPlace(o, placeId));
    }

    /** update_review: only text and rating can change. */
    method UpdateReview(id: string, data: Payload) returns (r: Result<Option<Obj>>)
      requires Valid()
      modifies reviewRepo, clock
      ensures Valid()
      ensures (r, reviewRepo.State()) == UpdateChecked(old(reviewRepo.State()), id, data, ReviewWhitelist, old(clock.time) + 1)
    {
      r := UpdateIn(reviewRepo, clock, id, data, ReviewWhitelist, "Review", ids.issued);
    }

    method DeleteReview(id: string) returns (b: bool)
      requires Valid()
      modifies reviewRepo
      ensures Valid()
      ensures (b, reviewRepo.State()) == DeleteSpec(old(reviewRepo.State()), id)
    {
      DeleteKeepsTidy(reviewRepo.State(), id, "Review", ids.issued);
      b := reviewRepo.Delete(id);
    }

    // ----- amenities -----

    /** create_amenity: build and validate an Amenity from the payload's name and store it. */
    method CreateAmenity(data: Payload) returns (r: Result<OldAmenity.Amenity>)
      requires Valid()
      modifies amenityRepo, ids, clock
      ensures Valid()
      ensures r.Ok? ==> OldAmenity.ValidAmenity(r.value) && r.value.name == Lookup(data, "name")
                        && r.value.base.id !in old(amenityRepo.State()).items
                        && amenityRepo.State() == Put(old(amenityRepo.State()), r.value.base.id, AmenityObj(r.value))
      ensures r.Err? ==> r.error.ValueError? && amenityRepo.State() == old(amenityRepo.State())
      ensures r.Err? <==> !OldAmenity.ValidAmenity(OldAmenity.Amenity(Base("", 0, 0), Lookup(data, "name")))
    {
      var b := NewEntityBase();
      var built := OldAmenity.Construct(b, Lookup(data, "name"));
      if built.Err? {
        return Err(built.error);
      }
      AddWithoutEmail(amenityRepo.State(), AmenityObj(built.value));
      AddKeepsTidy(amenityRepo.State(), AmenityObj(built.value), "Amenity", ids.issued);
      var added := amenityRepo.Add(AmenityObj(built.value));
      r := Ok(built.value);
    }

    method GetAmenity(id: string) returns (r: Option<Obj>)
      requires Valid()
      ensures r.Some? <==> id in amenityRepo.State().items
      ensures r.Some? ==> r.value == amenityRepo.State().items[id] && r.value.AmenityObj? && Id(r.value) == id
    {
      r := amenityRepo.Get(id);
    }

    method GetAllAmenities() returns (r: seq<Obj>)
      requires Valid()
      ensures r == Values(amenityRepo.State())
    {
      r := amenityRepo.GetAll();
    }

    /** update_amenity: only name can change. */
    method UpdateAmenity(id: string, data: Payload) returns (r: Result<Option<Obj>>)
      requires Valid()
      modifies amenityRepo, clock
      ensures Valid()
      ensures (r, amenityRepo.State()) == UpdateChecked(old(amenityRepo.State()), id, data, AmenityWhitelist, old(clock.time) + 1)
    {
      r := UpdateIn(amenityRepo, clock, id, data, AmenityWhitelist, "Amenity", ids.issued);
    }

    method DeleteAmenity(id: string) returns (b: bool)
      requires Valid()
      modifies amenityRepo
      ensures Valid()
      ensures (b, amenityRepo.State()) == DeleteSpec(old(amenityRepo.State()), id)
    {
      DeleteKeepsTidy(amenityRepo.State(), id, "Amenity", ids.issued);
      b := amenityRepo.Delete(id);
    }
  }

  lemma {:induction false} KeysAppend(a: seq<Value>, b: seq<Value>)
    requires forall i :: 0 <= i < |a| ==> a[i].Str?
    requires forall i :: 0 <= i < |b| ==> b[i].Str?
    ensures forall i :: 0 <= i < |a + b| ==> (a + b)[i].Str?
    ensures Keys(a + b) == Keys(a) + Keys(b)
  {
  }

  /** The module-level singleton: `HBnBFacade()` builds the facade on the first call and
      returns that same object on every later call. */
  class FacadeSingleton {
    var instance: HBnBFacade?

    constructor ()
      ensures instance == null
    {
      instance := null;
    }

    method Get() returns (f: HBnBFacade)
      modifies this
      ensures old(instance) != null ==> f == old(instance)
      ensures old(instance) == null ==> fresh(f) && f.Valid()
      ensures instance == f
    {
      if instance == null {
        instance := new HBnBFacade();
      }
      f := instance;
    }
  }
}
