/** HBnBFacade of part3/hbnb/app/services/facade.py: create_* accept either a model
    object, stored as it is, or a dict from which the model is built (and validated
    by its constructor); get/update go straight to the part2 Repository, which
    validates nothing on update; the delete_* methods call a `delete` the Repository
    does not define. */
module AppService {
  import opened Common
  import opened Tables
  import opened AppBase
  import AppUser
  import AppReview
  import AppPlace
  import opened AppRepository

  /** The argument of create_*: an instance of some model class, or a dict. */
  datatype Input = Given(obj: AppObj) | Data(fields: Payload)

  const NoDelete := "'Repository' object has no attribute 'delete'"

  /** `data['k']` on an instance of a model class. */
  function NotSubscriptable(o: AppObj): Error
  {
    TypeError("'" + o.cls + "' object is not subscriptable")
  }

  /** The dict keys `name(...)` reads with `data[...]`, in argument order, before the
      constructor runs; a missing one raises KeyError. */
  function MissingKey(d: Payload, keys: seq<string>): (r: Option<string>)
    ensures r.Some? ==> r.value in keys && r.value !in d
    ensures r.None? <==> forall k :: k in keys ==> k in d
    ensures keys != [] && keys[0] !in d ==> r == Some(keys[0])
    ensures keys != [] && keys[0] in d ==> r == MissingKey(d, keys[1..])
  {
    if keys == [] then None
    else if keys[0] !in d then Some(keys[0])
    else MissingKey(d, keys[1..])
  }

  /** The table after `repo.add(obj)` when construction succeeded. */
  function Stored(t: Table<AppObj>, made: Result<AppObj>): (r: Table<AppObj>)
    requires Keyed(t)
    ensures Keyed(r)
  {
    if made.Ok? then AddSpec(t, made.value) else t
  }

  /** The object create_user stores and returns. */
  function UserFrom(input: Input, freshId: string, t1: nat, t2: nat): (r: Result<AppObj>)
  {
    match input
    case Given(o) => if o.cls == "User" then Ok(o) else Err(NotSubscriptable(o))
    case Data(d) =>
      match MissingKey(d, ["first_name", "last_name", "email"])
      case Some(k) => Err(KeyError(k))
      case None =>
        AppUser.New(d["first_name"], d["last_name"], d["email"], Lookup(d, "password"),
                    LookupOr(d, "is_admin", Bool(false)), freshId, t1, t2)
  }

  /** The object create_place stores and returns: owner_id is copied from the dict
      without any check that such a user exists. */
  function PlaceFrom(input: Input, freshId: string, t: nat): (r: Result<AppObj>)
  {
    match input
    case Given(o) => if o.cls == "Place" then Ok(o) else Err(NotSubscriptable(o))
    case Data(d) =>
      match MissingKey(d, ["title", "price", "latitude", "longitude"])
      case Some(k) => Err(KeyError(k))
      case None =>
        match AppPlace.NewPlace(d["title"], d["price"], d["latitude"], d["longitude"], freshId, t)
        case Err(e) => Err(e)
        case Ok(p) => Ok(if "owner_id" in d then p.(attrs := p.attrs["owner_id" := d["owner_id"]]) else p)
  }

  /** `[user.id for user in ...]`. */
  function IdsOf(s: seq<AppObj>): (r: seq<Value>)
    ensures |r| == |s|
    ensures forall i :: 0 <= i < |s| ==> r[i] == Str(s[i].id)
  {
    if s == [] then [] else [Str(s[0].id)] + IdsOf(s[1..])
  }

  /** The object create_review stores and returns, given the ids of the stored users
      and places. */
  function ReviewFrom(input: Input, validUsers: seq<Value>, validPlaces: seq<Value>, freshId: string, t: nat)
    : (r: Result<AppObj>)
  {
    match input
    case Given(o) => if o.cls == "Review" then Ok(o) else Err(NotSubscriptable(o))
    case Data(d) =>
      match MissingKey(d, ["text", "user_id", "place_id"])
      case Some(k) => Err(KeyError(k))
      case None =>
        AppReview.New(d["text"], d["user_id"], d["place_id"], validUsers, validPlaces,
                      Some(LookupOr(d, "rating", Int(5))), freshId, t)
  }

  /** The object create_amenity stores and returns. */
  function AmenityFrom(input: Input, freshId: string, t: nat): (r: Result<AppObj>)
  {
    match input
    case Given(o) => if o.cls == "Amenity" then Ok(o) else Err(NotSubscriptable(o))
    case Data(d) =>
      if "name" !in d then Err(KeyError("name"))
      else AppPlace.NewAmenity(d["name"], LookupOr(d, "description", Str("")), freshId, t)
  }

  /** The objects of `s`, in order, whose attribute `key` is the string `id`: the list
      comprehensions of get_places_by_user (guarded by hasattr) and
      get_reviews_by_user/place. */
  function Matching(s: seq<AppObj>, key: string, id: string): (r: seq<AppObj>)
    ensures |r| <= |s|
  {
    if s == [] then []
    else (if key in s[0].attrs && s[0].attrs[key] == Str(id) then [s[0]] else []) + Matching(s[1..], key, id)
  }

  class AppFacade {
    const userRepo: Repository
    const placeRepo: Repository
    const reviewRepo: Repository
    const amenityRepo: Repository
    const ids: IdSource
    const clock: Clock

    ghost predicate Valid()
      reads this, ids
    {
      && userRepo != placeRepo && userRepo != reviewRepo && userRepo != amenityRepo
      && placeRepo != reviewRepo && placeRepo != amenityRepo && reviewRepo != amenityRepo
      && ids.Valid()
    }

    /** `__init__`: the four repositories come from get_repository, so two facades
        share them. */
    constructor (reg: Registry, ids: IdSource, clock: Clock)
      requires reg.Valid() && ids.Valid()
      modifies reg
      ensures Valid() && reg.Valid()
      ensures this.ids == ids && this.clock == clock
      ensures "user" in reg.repos && "place" in reg.repos && "review" in reg.repos && "amenity" in reg.repos
      ensures && userRepo == reg.repos["user"] && placeRepo == reg.repos["place"]
              && reviewRepo == reg.repos["review"] && amenityRepo == reg.repos["amenity"]
      ensures forall k :: k in old(reg.repos) ==> k in reg.repos && reg.repos[k] == old(reg.repos)[k]
      ensures "user" !in old(reg.repos) ==> userRepo.objects == Empty()
    {
      var u, p, v, a := OpenRepositories(reg);
      userRepo, placeRepo, reviewRepo, amenityRepo := u, p, v, a;
      this.ids, this.clock := ids, clock;
    }

    /** The fresh id and the clock readings the model constructors take. */
    method Draw() returns (freshId: string, t1: nat, t2: nat)
      requires Valid()
      modifies ids, clock
      ensures Valid()
      ensures freshId == Show(old(ids.next)) && ids.next == old(ids.next) + 1
      ensures t1 == old(clock.time) + 1 && t2 == t1 + 1 && clock.time == t2
    {
      freshId := ids.Fresh();
      t1 := clock.Now();
      t2 := clock.Now();
    }

    // ----- users -----

    method CreateUser(input: Input) returns (r: Result<AppObj>)
      requires Valid()
      modifies userRepo, ids, clock
      ensures Valid()
      ensures r == UserFrom(input, Show(old(ids.next)), old(clock.time) + 1, old(clock.time) + 2)
      ensures userRepo.objects == Stored(old(userRepo.objects), r)
      ensures input.Data? ==> ids.next == old(ids.next) + 1 && clock.time == old(clock.time) + 2
      ensures input.Given? ==> ids.next == old(ids.next) && clock.time == old(clock.time)
    {
      r := BuildUser(input);
      if r.Ok? {
        userRepo.Add(r.value);
      }
    }

    /** The User create_user builds, drawing the id and clock only for a dict. */
    method BuildUser(input: Input) returns (r: Result<AppObj>)
      requires Valid()
      modifies ids, clock
      ensures Valid()
      ensures r == UserFrom(input, Show(old(ids.next)), old(clock.time) + 1, old(clock.time) + 2)
      ensures input.Data? ==> ids.next == old(ids.next) + 1 && clock.time == old(clock.time) + 2
      ensures input.Given? ==> ids.next == old(ids.next) && clock.time == old(clock.time)
    {
      // A given object ignores the id and the times; a dict draws them.
      var freshId, t1, t2 := Show(ids.next), clock.time + 1, clock.time + 2;
      if input.Data? {
        freshId, t1, t2 := Draw();
      }
      r := UserFrom(input, freshId, t1, t2);
    }

    method GetAllUsers() returns (r: seq<AppObj>)
      ensures r == Values(userRepo.objects)
    {
      r := userRepo.GetAll();
    }

    method GetUser(id: string) returns (r: Option<AppObj>)
      ensures r == GetSpec(userRepo.objects, id)
    {
      r := userRepo.Get(id);
    }

    method UpdateUser(id: string, kw: map<string, Value>) returns (r: Option<AppObj>)
      modifies userRepo, clock
      ensures (r, userRepo.objects) == UpdateSpec(old(userRepo.objects), id, kw, old(clock.time) + 1)
    {
      r := userRepo.Update(id, kw, clock);
    }

    method GetPlacesByUser(userId: string) returns (r: seq<AppObj>)
      ensures r == Matching(Values(placeRepo.objects), "owner_id", userId)
    {
      var places := placeRepo.GetAll();
      r := Matching(places, "owner_id", userId);
    }

    method GetReviewsByUser(userId: string) returns (r: seq<AppObj>)
      ensures r == Matching(Values(reviewRepo.objects), "user_id", userId)
    {
      var reviews := reviewRepo.GetAll();
      r := Matching(reviews, "user_id", userId);
    }

    method GetReviewsByPlace(placeId: string) returns (r: seq<AppObj>)
      ensures r == Matching(Values(reviewRepo.objects), "place_id", placeId)
    {
      var reviews := reviewRepo.GetAll();
      r := Matching(reviews, "place_id", placeId);
    }

    // ----- places -----

    method CreatePlace(input: Input) returns (r: Result<AppObj>)
      requires Valid()
      modifies placeRepo, ids, clock
      ensures Valid()
      ensures r == PlaceFrom(input, Show(old(ids.next)), old(clock.time) + 1)
      ensures placeRepo.objects == Stored(old(placeRepo.objects), r)
      ensures input.Data? ==> ids.next == old(ids.next) + 1 && clock.time == old(clock.time) + 2
      ensures input.Given? ==> ids.next == old(ids.next) && clock.time == old(clock.time)
    {
      var freshId, t1 := Show(ids.next), clock.time + 1;
      if input.Data? {
        var t2;
        freshId, t1, t2 := Draw();
      }
      r := PlaceFrom(input, freshId, t1);
      if r.Ok? {
        placeRepo.Add(r.value);
      }
    }

    method GetAllPlaces() returns (r: seq<AppObj>)
      ensures r == Values(placeRepo.objects)
    {
      r := placeRepo.GetAll();
    }

    method GetPlace(id: string) returns (r: Option<AppObj>)
      ensures r == GetSpec(placeRepo.objects, id)
    {
      r := placeRepo.Get(id);
    }

    method UpdatePlace(id: string, kw: map<string, Value>) returns (r: Option<AppObj>)
      modifies placeRepo, clock
      ensures (r, placeRepo.objects) == UpdateSpec(old(placeRepo.objects), id, kw, old(clock.time) + 1)
    {
      r := placeRepo.Update(id, kw, clock);
    }

    /** delete_place: the Repository has no `delete`, so the call always raises. */
    method DeletePlace(id: string) returns (r: Outcome)
      ensures r == Fail(AttributeError(NoDelete))
    {
      r := Fail(AttributeError(NoDelete));
    }

    // ----- reviews -----

    method CreateReview(input: Input) returns (r: Result<AppObj>)
      requires Valid()
      modifies reviewRepo, ids, clock
      ensures Valid()
      ensures r == ReviewFrom(input, IdsOf(Values(old(userRepo.objects))), IdsOf(Values(old(placeRepo.objects))),
                              Show(old(ids.next)), old(clock.time) + 1)
      ensures reviewRepo.objects == Stored(old(reviewRepo.objects), r)
      ensures input.Data? ==> ids.next == old(ids.next) + 1 && clock.time == old(clock.time) + 2
      ensures input.Given? ==> ids.next == old(ids.next) && clock.time == old(clock.time)
    {
      r := BuildReview(input);
      if r.Ok? {
        reviewRepo.Add(r.value);
      }
    }

    /** The Review create_review builds from the ids of the stored users and places,
        drawing the id and clock only for a dict. */
    method BuildReview(input: Input) returns (r: Result<AppObj>)
      requires Valid()
      modifies ids, clock
      ensures Valid()
      ensures r == ReviewFrom(input, IdsOf(Values(userRepo.objects)), IdsOf(Values(placeRepo.objects)),
                              Show(old(ids.next)), old(clock.time) + 1)
      ensures input.Data? ==> ids.next == old(ids.next) + 1 && clock.time == old(clock.time) + 2
      ensures input.Given? ==> ids.next == old(ids.next) && clock.time == old(clock.time)
    {
      var users := userRepo.GetAll();
      var places := placeRepo.GetAll();
      // A given object ignores the id and the time; a dict draws them.
      var freshId, t1 := Show(ids.next), clock.time + 1;
      if input.Data? {
        var t2;
        freshId, t1, t2 := Draw();
      }
      r := ReviewFrom(input, IdsOf(users), IdsOf(places), freshId, t1);
    }

    method GetAllReviews() returns (r: seq<AppObj>)
      ensures r == Values(reviewRepo.objects)
    {
      r := reviewRepo.GetAll();
    }

    method GetReview(id: string) returns (r: Option<AppObj>)
      ensures r == GetSpec(reviewRepo.objects, id)
    {
      r := reviewRepo.Get(id);
    }

    method UpdateReview(id: string, kw: map<string, Value>) returns (r: Option<AppObj>)
      modifies reviewRepo, clock
      ensures (r, reviewRepo.objects) == UpdateSpec(old(reviewRepo.objects), id, kw, old(clock.time) + 1)
    {
      r := reviewRepo.Update(id, kw, clock);
    }

    /** delete_review: the Repository has no `delete`, so the call always raises. */
    method DeleteReview(id: string) returns (r: Outcome)
      ensures r == Fail(AttributeError(NoDelete))
    {
      r := Fail(AttributeError(NoDelete));
    }

    // ----- amenities -----

    method CreateAmenity(input: Input) returns (r: Result<AppObj>)
      requires Valid()
      modifies amenityRepo, ids, clock
      ensures Valid()
      ensures r == AmenityFrom(input, Show(old(ids.next)), old(clock.time) + 1)
      ensures amenityRepo.objects == Stored(old(amenityRepo.objects), r)
      ensures input.Data? ==> ids.next == old(ids.next) + 1 && clock.time == old(clock.time) + 2
      ensures input.Given? ==> ids.next == old(ids.next) && clock.time == old(clock.time)
    {
      var freshId, t1 := Show(ids.next), clock.time + 1;
      if input.Data? {
        var t2;
        freshId, t1, t2 := Draw();
      }
      r := AmenityFrom(input, freshId, t1);
      if r.Ok? {
        amenityRepo.Add(r.value);
      }
    }

    method GetAllAmenities() returns (r: seq<AppObj>)
      ensures r == Values(amenityRepo.objects)
    {
      r := amenityRepo.GetAll();
    }

    method GetAmenity(id: string) returns (r: Option<AppObj>)
      ensures r == GetSpec(amenityRepo.objects, id)
    {
      r := amenityRepo.Get(id);
    }

    method UpdateAmenity(id: string, kw: map<string, Value>) returns (r: Option<AppObj>)
      modifies amenityRepo, clock
      ensures (r, amenityRepo.objects) == UpdateSpec(old(amenityRepo.objects), id, kw, old(clock.time) + 1)
    {
      r := amenityRepo.Update(id, kw, clock);
    }

    /** delete_amenity: the Repository has no `delete`, so the call always raises. */
    method DeleteAmenity(id: string) returns (r: Outcome)
      ensures r == Fail(AttributeError(NoDelete))
    {
      r := Fail(AttributeError(NoDelete));
    }
  }

  /** The four get_repository calls of `__init__`. */
  method OpenRepositories(reg: Registry) returns (u: Repository, p: Repository, v: Repository, a: Repository)
    requires reg.Valid()
    modifies reg
    ensures reg.Valid()
    ensures "user" in reg.repos && "place" in reg.repos && "review" in reg.repos && "amenity" in reg.repos
    ensures reg.repos["user"] == u && reg.repos["place"] == p && reg.repos["review"] == v && reg.repos["amenity"] == a
    ensures forall k :: k in old(reg.repos) ==> k in reg.repos && reg.repos[k] == old(reg.repos)[k]
    ensures u != p && u != v && u != a && p != v && p != a && v != a
    ensures "user" !in old(reg.repos) ==> u.objects == Empty()
  {
    u := reg.GetRepository("user");
    p := reg.GetRepository("place");
    v := reg.GetRepository("review");
    a := reg.GetRepository("amenity");
  }

  /** The module-level `_facade` of get_facade. */
  class FacadeHolder {
    var facade: AppFacade?

    constructor ()
      ensures facade == null
    {
      facade := null;
    }

    /** get_facade(): the first call builds the facade, every later call returns it. */
    method GetFacade(reg: Registry, ids: IdSource, clock: Clock) returns (f: AppFacade)
      requires reg.Valid() && ids.Valid()
      requires facade != null ==> facade.Valid()
      modifies this, reg
      ensures facade == f && f.Valid()
      ensures old(facade) != null ==> f == old(facade) && reg.repos == old(reg.repos)
      ensures old(facade) == null ==> && fresh(f) && f.ids == ids && f.clock == clock
                                      && "user" in reg.repos && f.userRepo == reg.repos["user"]
    {
      if facade == null {
        facade := new AppFacade(reg, ids, clock);
      }
      f := facade;
    }
  }

  // ----- what the facade promises -----

  /** A failed create stores nothing; a successful one stores the object under its id
      and leaves every other id alone. */
  lemma {:induction false} StoredEffect(t: Table<AppObj>, made: Result<AppObj>, other: string)
    requires Keyed(t)
    ensures made.Err? ==> Stored(t, made) == t
    ensures made.Ok? ==> GetSpec(Stored(t, made), made.value.id) == Some(made.value)
    ensures made.Ok? && other != made.value.id ==> GetSpec(Stored(t, made), other) == GetSpec(t, other)
  {
  }

  /** create_user from a dict: a missing name or email key raises KeyError in argument
      order; otherwise the User constructor decides, is_admin defaults to False and a
      given password is the one that checks. A User instance is stored unchecked; any
      other instance is not subscriptable. */
  lemma {:induction false} UserFromMeaning(input: Input, freshId: string, t1: nat, t2: nat, attempt: string)
    ensures input.Given? ==>
              UserFrom(input, freshId, t1, t2) == (if input.obj.cls == "User" then Ok(input.obj)
                                                   else Err(NotSubscriptable(input.obj)))
    ensures (input.Data? && "first_name" !in input.fields) ==>
              UserFrom(input, freshId, t1, t2) == Err(KeyError("first_name"))
    ensures (input.Data? && "first_name" in input.fields && "last_name" !in input.fields) ==>
              UserFrom(input, freshId, t1, t2) == Err(KeyError("last_name"))
    ensures (input.Data? && UserFrom(input, freshId, t1, t2).Ok?) ==>
              var d := input.fields;
              var u := UserFrom(input, freshId, t1, t2).value;
              && "first_name" in d && "last_name" in d && "email" in d
              && u.id == freshId && u.cls == "User"
              && Attr(u, "email") == d["email"]
              && Attr(u, "is_admin") == LookupOr(d, "is_admin", Bool(false))
              && (!Truthy(Lookup(d, "password")) ==> !AppUser.CheckPassword(u, attempt))
              && (("password" in d && d["password"].Str? && d["password"].s != "") ==>
                    (AppUser.CheckPassword(u, attempt) <==> attempt == d["password"].s))
  {
    if input.Data? {
      var d := input.fields;
      assert ["first_name", "last_name", "email"][1..] == ["last_name", "email"];
      assert ["last_name", "email"][1..] == ["email"];
      assert ["email"][1..] == [];
    }
    if input.Data? && UserFrom(input, freshId, t1, t2).Ok? {
      var d := input.fields;
      var first, last, email, admin := d["first_name"], d["last_name"], d["email"], LookupOr(d, "is_admin", Bool(false));
      assert UserFrom(input, freshId, t1, t2) == AppUser.New(first, last, email, Lookup(d, "password"), admin, freshId, t1, t2);
      AppUser.NewMeaning(first, last, email, Lookup(d, "password"), admin, freshId, t1, t2);
      if !Truthy(Lookup(d, "password")) {
        AppUser.NoPasswordNoHash(first, last, email, Lookup(d, "password"), admin, freshId, t1, t2, attempt);
      }
      if "password" in d && d["password"].Str? && d["password"].s != "" {
        assert Lookup(d, "password") == Str(d["password"].s);
        AppUser.NewPasswordChecks(first, last, email, d["password"].s, admin, freshId, t1, t2, attempt);
      }
    }
  }

  /** create_place from a dict: the four keys are required in order, the Place
      constructor decides, and owner_id when present is copied without any check and
      does not affect whether the place is made. */
  lemma {:induction false} PlaceFromMeaning(d: Payload, freshId: string, t: nat)
    ensures "title" !in d ==> PlaceFrom(Data(d), freshId, t) == Err(KeyError("title"))
    ensures ("title" in d && "price" !in d) ==> PlaceFrom(Data(d), freshId, t) == Err(KeyError("price"))
    ensures ("title" in d && "price" in d && "latitude" in d && "longitude" in d) ==>
              var p := AppPlace.NewPlace(d["title"], d["price"], d["latitude"], d["longitude"], freshId, t);
              var r := PlaceFrom(Data(d), freshId, t);
              && (r.Ok? <==> p.Ok?)
              && (r.Err? ==> r == Err(p.error))
              && (r.Ok? ==> r.value.id == freshId && Attr(r.value, "price") == d["price"]
                            && ("owner_id" in d ==> Attr(r.value, "owner_id") == d["owner_id"])
                            && ("owner_id" !in d ==> "owner_id" !in r.value.attrs))
  {
    if "title" in d && "price" in d && "latitude" in d && "longitude" in d {
      AppPlace.NewPlaceMeaning(d["title"], d["price"], d["latitude"], d["longitude"], freshId, t);
    }
  }

  /** The ids of the listed objects are exactly the stored ids. */
  lemma {:induction false} IdsOfStored(t: Table<AppObj>, v: Value)
    requires Keyed(t)
    ensures v in IdsOf(Values(t)) <==> v.Str? && v.s in t.items
  {
    var s := Values(t);
    if v in IdsOf(s) {
      var i :| 0 <= i < |s| && IdsOf(s)[i] == v;
      assert t.order[i] in t.items;
      assert s[i] == t.items[t.order[i]];
    }
    if v.Str? && v.s in t.items {
      var i :| 0 <= i < |t.order| && t.order[i] == v.s;
      assert IdsOf(s)[i] == Str(t.items[v.s].id);
    }
  }

  /** create_review from a dict: only a review whose user_id and place_id name a
      stored user and a stored place is made; the rating defaults to 5 and an explicit
      None is rejected; conversely a truthy text with stored ids and no rating always
      makes a review. */
  lemma {:induction false} ReviewFromMeaning(d: Payload, users: Table<AppObj>, places: Table<AppObj>, freshId: string, t: nat)
    requires Keyed(users) && Keyed(places)
    ensures var r := ReviewFrom(Data(d), IdsOf(Values(users)), IdsOf(Values(places)), freshId, t);
            && ("text" !in d ==> r == Err(KeyError("text")))
            && (r.Ok? ==> && "user_id" in d && d["user_id"].Str? && d["user_id"].s in users.items
                          && "place_id" in d && d["place_id"].Str? && d["place_id"].s in places.items
                          && Attr(r.value, "rating") == LookupOr(d, "rating", Int(5)))
            && (("text" in d && Truthy(d["text"]) && "user_id" in d && d["user_id"].Str? && d["user_id"].s in users.items
                 && "place_id" in d && d["place_id"].Str? && d["place_id"].s in places.items)
                  ==> && ("rating" !in d ==> r.Ok? && Attr(r.value, "rating") == Int(5))
                      && ("rating" in d && d["rating"] == Null ==> r == Err(ValueError(AppReview.BadRating))))
  {
    if "text" in d && "user_id" in d && "place_id" in d {
      IdsOfStored(users, d["user_id"]);
      IdsOfStored(places, d["place_id"]);
      AppReview.NewMeaning(d["text"], d["user_id"], d["place_id"], IdsOf(Values(users)), IdsOf(Values(places)),
                           Some(LookupOr(d, "rating", Int(5))), freshId, t);
    }
  }

  /** create_amenity from a dict: the name is required, the description defaults to
      the empty string. */
  lemma {:induction false} AmenityFromMeaning(d: Payload, freshId: string, t: nat)
    ensures "name" !in d ==> AmenityFrom(Data(d), freshId, t) == Err(KeyError("name"))
    ensures "name" in d ==>
              var r := AmenityFrom(Data(d), freshId, t);
              && (r.Ok? <==> Truthy(d["name"]))
              && (r.Ok? ==> Attr(r.value, "name") == d["name"]
                            && Attr(r.value, "description") == LookupOr(d, "description", Str("")))
  {
  }

  /** The filters keep exactly the objects whose attribute is the id, in their order. */
  lemma {:induction false} MatchingExact(s: seq<AppObj>, key: string, id: string, x: AppObj)
    ensures x in Matching(s, key, id) <==> x in s && key in x.attrs && x.attrs[key] == Str(id)
  {
    if s != [] {
      MatchingExact(s[1..], key, id, x);
      assert s == [s[0]] + s[1..];
    }
  }

  lemma {:induction false} MatchingAppend(a: seq<AppObj>, b: seq<AppObj>, key: string, id: string)
    ensures Matching(a + b, key, id) == Matching(a, key, id) + Matching(b, key, id)
  {
    if a == [] {
      assert a + b == b;
    } else {
      assert (a + b)[1..] == a[1..] + b;
      MatchingAppend(a[1..], b, key, id);
    }
  }

  /** A place created from a dict with the user's id as owner_id, under a new id, is
      listed last by get_places_by_user for that user. */
  lemma {:induction false} CreatedPlaceListedForOwner(t: Table<AppObj>, d: Payload, userId: string, freshId: string, now: nat)
    requires Keyed(t) && freshId !in t.items
    requires PlaceFrom(Data(d), freshId, now).Ok? && "owner_id" in d && d["owner_id"] == Str(userId)
    ensures var p := PlaceFrom(Data(d), freshId, now).value;
            var listed := Matching(Values(Stored(t, Ok(p))), "owner_id", userId);
            listed == Matching(Values(t), "owner_id", userId) + [p]
  {
    PlaceFromMeaning(d, freshId, now);
    var p := PlaceFrom(Data(d), freshId, now).value;
    AddListing(t, p);
    MatchingAppend(Values(t), [p], "owner_id", userId);
    assert Matching([p], "owner_id", userId) == [p] + Matching([], "owner_id", userId);
  }

  /** update_* check nothing: a stored place's price can be set to a value the Place
      constructor rejects. */
  lemma UpdateBypassesChecks()
    ensures var p := AppPlace.NewPlace(Str("Loft"), Int(10), Int(0), Int(0), "1", 1).value;
            var t := AddSpec(Empty(), p);
            var r := UpdateSpec(t, "1", map["price" := Int(-5)], 2);
            && AppPlace.NewPlace(Str("Loft"), Int(-5), Int(0), Int(0), "1", 1) == Err(ValueError(AppPlace.PriceNotPositive))
            && r.0.Some? && Attr(r.0.value, "price") == Int(-5)
  {
  }

  /** update_user with a password kwarg stores it as a plain attribute and leaves the
      stored hash, and so check_password, as they were. */
  lemma {:induction false} UpdatePasswordKeepsHash(t: Table<AppObj>, id: string, kw: map<string, Value>, now: nat, attempt: string)
    requires Keyed(t) && id in t.items && AppUser.HashKey !in kw
    ensures var u := UpdateSpec(t, id, kw, now).0.value;
            && (AppUser.CheckPassword(u, attempt) <==> AppUser.CheckPassword(t.items[id], attempt))
            && ("password" in kw ==> Attr(u, "password") == kw["password"])
  {
  }
}
